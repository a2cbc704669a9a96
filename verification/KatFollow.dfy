/** Frequency follow as a function of the follow context, and what any number of follows
    come to. */
module KatFollow {
  import opened Text
  import opened SafetyGate
  import opened Serial
  import opened KatLines
  import opened KatWires

  datatype FollowContext = FollowContext(
    hz: Option<nat>, wire: Option<string>, requestedKhz: Option<nat>, confirmedKhz: Option<nat>,
    matched: Option<bool>, sent: nat, skipped: nat, stale: nat, retries: nat)

  /** A follow that was not carried out. */
  function Skipped(f: FollowContext): FollowContext {
    f.(skipped := SaturatingAdd(f.skipped, 1))
  }

  /** A confirmed setting that was transmitted, whether or not it was confirmed. */
  function Followed(f: FollowContext, hz: Option<nat>, wire: string, c: Confirmation): FollowContext {
    f.(hz := hz, wire := Some(wire), requestedKhz := Some(c.requested), confirmedKhz := c.confirmed,
       matched := Some(c.matched), stale := SaturatingAdd(f.stale, c.stale),
       retries := SaturatingAdd(f.retries, c.retries), sent := SaturatingAdd(f.sent, 1))
  }

  /** The tuner after a confirmed exchange: its last line, then the last band report. */
  function Heard(c: Confirmation, t: TunerState): TunerState {
    var answered := ParseResponse(c.response, t);
    if c.aside.Some? then ParseResponse(c.aside.value, answered) else answered
  }

  /** A rapid change is coalesced while no follow has completed yet. */
  predicate Coalesces(f: FollowContext, khz: nat) {
    f.requestedKhz.Some? && f.requestedKhz.value != khz && f.matched.None?
  }

  /** Would a follow transmit this frequency now? */
  predicate FollowSends(f: FollowContext, tuning: bool, hz: Option<nat>, g: Gate) {
    && FrequencyWire(hz).Some? && !tuning && f.wire != FrequencyWire(hz)
    && !Coalesces(f, KhzOf(hz.value)) && FollowGateOpen(g)
  }

  /** The follow context after one follow. `outcome` is what the peer made of a transmission. */
  function FollowStep(f: FollowContext, tuning: bool, hz: Option<nat>, g: Gate,
                      outcome: Option<Confirmation>): FollowContext {
    if FrequencyWire(hz).None? then Skipped(f)
    else
      var khz := KhzOf(hz.value);
      if tuning then Skipped(f).(requestedKhz := Some(khz))
      else if f.wire == FrequencyWire(hz) then f
      else if Coalesces(f, khz) then Skipped(f).(requestedKhz := Some(khz))
      else if !FollowGateOpen(g) then Skipped(f)
      else
        var asked := f.(requestedKhz := Some(khz));
        if outcome.Some? then Followed(asked, hz, FrequencyWire(hz).value, outcome.value) else Skipped(asked)
  }

  lemma FollowStepSends(f: FollowContext, tuning: bool, hz: Option<nat>, g: Gate)
    requires FollowSends(f, tuning, hz, g)
    ensures hz.Some? && InRange(hz.value) && FollowGateOpen(g) && f.wire != FrequencyWire(hz)
    ensures var asked := f.(requestedKhz := Some(KhzOf(hz.value)));
            && FollowStep(f, tuning, hz, g, None) == Skipped(asked)
            && forall c :: FollowStep(f, tuning, hz, g, Some(c)) == Followed(asked, hz, FrequencyWire(hz).value, c)
  {
    SentFrequencyInRange(hz);
  }

  /** Follows of one frequency by an idle tuner, with what the peer made of each. */
  function FollowRun(f: FollowContext, hz: nat, g: Gate, outcomes: seq<Confirmation>): FollowContext {
    if outcomes == [] then f
    else
      FollowStep(FollowRun(f, hz, g, outcomes[..|outcomes| - 1]), false, Some(hz), g,
                 Some(outcomes[|outcomes| - 1]))
  }

  /** With a fixed frequency in range, an idle tuner, an open gate and no I/O error, two
      follows reach the frequency, whatever was followed before and whatever the peer
      answers; and however many follows there are, at most one transmits. */
  lemma {:induction false} FollowConverges(f: FollowContext, hz: nat, g: Gate, outcomes: seq<Confirmation>)
    requires InRange(hz) && FollowGateOpen(g)
    ensures var end := FollowRun(f, hz, g, outcomes);
            && (|outcomes| >= 2 ==> end.wire == FrequencyWire(Some(hz)))
            && (end.sent == f.sent || end.sent == SaturatingAdd(f.sent, 1))
            && (end.wire != FrequencyWire(Some(hz)) ==> end.sent == f.sent)
  {
    var n := |outcomes|;
    if n >= 1 {
      FollowConverges(f, hz, g, outcomes[..n - 1]);
      if n >= 2 {
        assert outcomes[..n - 1][..n - 2] == outcomes[..n - 2];
      }
    }
  }

  /** One follow is enough exactly when the change is not coalesced. */
  lemma OneFollowSuffices(f: FollowContext, hz: nat, g: Gate, outcome: Confirmation)
    requires InRange(hz) && FollowGateOpen(g)
    ensures FollowStep(f, false, Some(hz), g, Some(outcome)).wire == FrequencyWire(Some(hz))
            <==> f.wire == FrequencyWire(Some(hz)) || !Coalesces(f, KhzOf(hz))
  {
  }

  /** What may be transmitted before a tune: the frequency, once or twice, if it is in range
      and not followed yet and tuning is allowed, and otherwise nothing. */
  function SentBefore(followed: Option<string>, hz: Option<nat>, g: Gate): set<seq<string>> {
    var wire := FrequencyWire(hz);
    if wire.Some? && followed != wire && CommandAllowed(g, SafetyOf(Autotune))
    then {Repeated(wire.value, 1), Repeated(wire.value, 2)}
    else {[]}
  }

  lemma SentFrequencyInRange(hz: Option<nat>)
    requires FrequencyWire(hz).Some?
    ensures hz.Some? && InRange(hz.value)
  {
  }
}
