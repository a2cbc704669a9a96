/** The lifecycle of a tune request and the rules its record obeys over a whole run. */
module TuneLifecycle {
  import opened Text

  datatype TuneState = Idle | TuneRequested | Tuning | TuneComplete | TuneFailed | Cooldown

  datatype Lifecycle = Lifecycle(state: TuneState, transitions: nat, reason: Option<string>,
                                 enteredAtMs: Option<nat>,
                                 lastSuccessMs: Option<nat>, lastFailureMs: Option<nat>)

  const INITIAL := Lifecycle(Idle, 0, None, None, None, None)

  /** Wall-clock readings are in nanoseconds and may jump either way. */
  function Millis(nanos: int): nat {
    if nanos < 0 then 0 else nanos / 1_000_000
  }

  function Transition(l: Lifecycle, state: TuneState, reason: string, now: int): Lifecycle {
    if l.state != state || l.reason != Some(reason)
    then l.(state := state, transitions := SaturatingAdd(l.transitions, 1),
            reason := Some(reason), enteredAtMs := Some(Millis(now)))
    else l
  }

  lemma TransitionArrives(l: Lifecycle, state: TuneState, reason: string, now: int)
    ensures var end := Transition(l, state, reason, now); end.state == state && SameMarks(l, end)
  {
  }

  /** A transition leads to its state and reason and leaves the times of success and failure
      alone. It is counted, and dated in whole milliseconds, exactly when the state or the
      reason is a new one. */
  lemma TransitionMeans(l: Lifecycle, state: TuneState, reason: string, now: int)
    ensures var end := Transition(l, state, reason, now);
            && end.state == state && end.reason == Some(reason)
            && end.lastSuccessMs == l.lastSuccessMs && end.lastFailureMs == l.lastFailureMs
            && (l.state == state && l.reason == Some(reason) ==>
                  end.transitions == l.transitions && end.enteredAtMs == l.enteredAtMs)
            && (l.state != state || l.reason != Some(reason) ==>
                  && (l.transitions < 0xFFFF_FFFF_FFFF_FFFF ==> end.transitions == l.transitions + 1)
                  && end.enteredAtMs.Some?
                  && (now >= 0 ==> 0 <= now - 1_000_000 * end.enteredAtMs.value < 1_000_000)
                  && (now < 0 ==> end.enteredAtMs.value == 0))
  {
  }

  function MarkSuccess(l: Lifecycle, reason: string, now: int): Lifecycle {
    Transition(l.(lastSuccessMs := Some(Millis(now))), TuneComplete, reason, now)
  }

  function MarkFailure(l: Lifecycle, reason: string, now: int): Lifecycle {
    Transition(l.(lastFailureMs := Some(Millis(now))), TuneFailed, reason, now)
  }

  /** A success is dated and leads through completion, and a failure to a failed state. */
  lemma MarksMean(l: Lifecycle, reason: string, now: int)
    ensures var done := MarkSuccess(l, reason, now);
            && done.state == TuneComplete && done.reason == Some(reason)
            && done.lastSuccessMs == Some(Millis(now)) && done.lastFailureMs == l.lastFailureMs
    ensures var failed := MarkFailure(l, reason, now);
            && failed.state == TuneFailed && failed.reason == Some(reason)
            && failed.lastFailureMs == Some(Millis(now)) && failed.lastSuccessMs == l.lastSuccessMs
  {
    hide Millis;
  }

  /** Two lifecycles agree about the last success and the last failure. */
  predicate SameMarks(a: Lifecycle, b: Lifecycle) {
    a.lastSuccessMs == b.lastSuccessMs && a.lastFailureMs == b.lastFailureMs
  }

  /** Has the lifecycle been in its state for longer than `limit` milliseconds? */
  predicate OlderThan(l: Lifecycle, limit: nat, now: int) {
    l.enteredAtMs.Some? && Millis(now) - l.enteredAtMs.value > limit
  }

  // ---------------------------------------------------------------- the record of requests

  datatype Fate = Executed | Failed | Suppressed

  datatype TuneRecord = TuneRecord(at: int, fate: Fate)

  const COOLDOWN: int := 1_500_000_000

  function Count(log: seq<TuneRecord>, fate: Fate): nat {
    if log == [] then 0
    else Count(log[..|log| - 1], fate) + (if log[|log| - 1].fate == fate then 1 else 0)
  }

  /** The state in which a tune request ends, by its fate. */
  function EndState(fate: Fate): TuneState {
    match fate
    case Executed => Idle
    case Failed => TuneFailed
    case Suppressed => Cooldown
  }

  function Saturated(n: nat): nat {
    if n > U64_MAX then U64_MAX else n
  }

  /** When the latest request that was not suppressed came. */
  function LastAccepted(log: seq<TuneRecord>): Option<int> {
    if log == [] then None
    else if log[|log| - 1].fate != Suppressed then Some(log[|log| - 1].at)
    else LastAccepted(log[..|log| - 1])
  }

  predicate InCooldown(last: Option<int>, now: int) {
    last.Some? && 0 <= now - last.value < 1_500_000_000
  }

  /** Every request was suppressed exactly when it fell in the cooldown of the one accepted before it. */
  predicate Spaced(log: seq<TuneRecord>) {
    log == [] ||
    var init, last := log[..|log| - 1], log[|log| - 1];
    Spaced(init) && (last.fate == Suppressed <==> InCooldown(LastAccepted(init), last.at))
  }

  /** Every consumed request has exactly one fate. */
  lemma {:induction false} FatesConserve(log: seq<TuneRecord>)
    ensures Count(log, Executed) + Count(log, Failed) + Count(log, Suppressed) == |log|
  {
    if log != [] {
      FatesConserve(log[..|log| - 1]);
    }
  }

  predicate Nondecreasing(log: seq<TuneRecord>) {
    forall i, j :: 0 <= i < j < |log| ==> log[i].at <= log[j].at
  }

  lemma {:induction false} LastAcceptedIsLast(log: seq<TuneRecord>, i: nat)
    requires i < |log| && log[i].fate != Suppressed && Nondecreasing(log)
    ensures LastAccepted(log).Some? && log[i].at <= LastAccepted(log).value <= log[|log| - 1].at
  {
    var n := |log| - 1;
    if log[n].fate == Suppressed {
      assert log[..n][i] == log[i];
      LastAcceptedIsLast(log[..n], i);
      assert log[..n][n - 1] == log[n - 1];
    }
  }

  /** On a clock that does not run backwards, accepted tunes are at least 1500 ms apart. */
  lemma {:induction false} AcceptedTunesAreSpaced(log: seq<TuneRecord>, i: nat, j: nat)
    requires Spaced(log) && Nondecreasing(log)
    requires i < j < |log| && log[i].fate != Suppressed && log[j].fate != Suppressed
    ensures log[j].at - log[i].at >= 1_500_000_000
  {
    var n := |log| - 1;
    var init := log[..n];
    assert Nondecreasing(init);
    assert init[i] == log[i];
    if j == n {
      LastAcceptedIsLast(init, i);
      assert init[|init| - 1] == log[n - 1];
    } else {
      assert init[j] == log[j];
      AcceptedTunesAreSpaced(init, i, j);
    }
  }

  lemma RecordGrows(log: seq<TuneRecord>, record: TuneRecord)
    requires Spaced(log) && (record.fate == Suppressed <==> InCooldown(LastAccepted(log), record.at))
    ensures Spaced(log + [record])
    ensures LastAccepted(log + [record])
         == if record.fate == Suppressed then LastAccepted(log) else Some(record.at)
    ensures forall fate ::
      Count(log + [record], fate) == Count(log, fate) + (if fate == record.fate then 1 else 0)
  {
    assert (log + [record])[..|log|] == log;
  }
}
