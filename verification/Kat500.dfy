/** The KAT500 tuner driver: a loop of frequency follow, desired control and polling against
    an arbitrary serial peer, while other tasks change what is desired. */
module Kat500 {
  import opened Sequences
  import opened Text
  import opened SafetyGate
  import opened Serial
  import opened KatLines
  import opened KatPoll
  import opened KatWires
  import opened KatFollow
  import opened KatBatch
  import opened TuneLifecycle

  /** `tgxlPlays` says that the TGXL server plays out a startup over a delay, or a presence check,
      whenever a client connects. */
  datatype Settings = Settings(baud: nat, gate: Gate, followFlexFrequency: bool, tgxlPlays: bool)

  /** What this driver has counted. The two refusal counters are shared with the amplifier
      driver; only this driver's own part of them is kept here. */
  datatype Controls = Controls(tuneExecuted: nat, tuneFailed: nat, duplicateSuppressed: nat,
                               blockedByDryRun: nat, blockedByRfRisk: nat)

  // ---------------------------------------------------------------- other writers of the tuner

  const TGXL_VERSION: string := "0.1.0-egb-tgxl"

  /** What TGXL clients can make of the tuner between two holds of the lock: a command sets the
      operate flag; what connections play out touches a few more fields. */
  predicate Disturbed(a: TunerState, b: TunerState, plays: bool) {
    if plays
    then b == a.(firmware := b.firmware, antenna := b.antenna, bypass := b.bypass, operate := b.operate,
                 tuning := b.tuning, fault := b.fault)
    else b == a.(operate := b.operate)
  }

  lemma DisturbedOften()
    ensures forall a, b, c, plays :: Disturbed(a, b, plays) && Disturbed(b, c, plays) ==> Disturbed(a, c, plays)
    ensures forall a, plays :: Disturbed(a, a, plays)
  {
  }

  /** Without connections that play anything out, the tuning flag is the driver's own. */
  lemma TuningSurvives()
    ensures forall a, b :: Disturbed(a, b, false) ==> a.tuning == b.tuning
  {
  }

  // ---------------------------------------------------------------- the driver

  /** What other tasks have left for the driver: the requests pending and the radio's frequency. */
  datatype Found = Found(desired: Desired, frequencyHz: Option<nat>)

  class Kat500Driver {
    const settings: Settings
    // Written by other tasks.
    var frequencyHz: Option<nat>
    var desired: Desired
    // Written by this driver; other tasks may mark the lifecycle as requested, and TGXL clients
    // disturb the tuner.
    var tune: Lifecycle
    var tuner: TunerState
    // Written by this driver only.
    var follow: FollowContext
    var lastTuneAt: Option<int>
    var controls: Controls
    // History.
    ghost var tuneLog: seq<TuneRecord>
    ghost var followLog: seq<string>
    // What other tasks had left each time the lock was taken.
    ghost var found: seq<Found>

    constructor (settings: Settings, tuner: TunerState)
      ensures Valid() && this.settings == settings && tuneLog == [] && followLog == []
    {
      this.settings := settings;
      this.tuner := tuner;
      frequencyHz, desired := None, Desired(false, None, None, false);
      tune := INITIAL;
      follow := FollowContext(None, None, None, None, None, 0, 0, 0, 0);
      lastTuneAt, controls := None, Controls(0, 0, 0, 0, 0);
      tuneLog, followLog, found := [], [], [];
    }

    /** The counters and contexts say what the history says. */
    ghost predicate Valid()
      reads this`follow, this`followLog, this`controls, this`tuneLog, this`lastTuneAt
    {
      && FollowValid()
      && TuneValid()
    }

    /** No wire follows itself, and the recorded wire is the last one sent. */
    ghost predicate FollowValid()
      reads this`follow, this`followLog
    {
      && NoRepeats(followLog)
      && follow.wire == (if followLog == [] then None else Some(followLog[|followLog| - 1]))
    }

    ghost predicate TuneValid()
      reads this`controls, this`tuneLog, this`lastTuneAt
    {
      && controls.tuneExecuted == Saturated(Count(tuneLog, Executed))
      && controls.tuneFailed == Saturated(Count(tuneLog, Failed))
      && controls.duplicateSuppressed == Saturated(Count(tuneLog, Suppressed))
      && lastTuneAt == LastAccepted(tuneLog)
      && Spaced(tuneLog)
    }

    /** Taking the shared lock: other tasks may have run since it was last held. */
    method Acquire()
      modifies this`frequencyHz, this`desired, this`found, this`tune, this`tuner
      ensures tune == old(tune) || tune.state == TuneRequested
      ensures SameMarks(old(tune), tune)
      ensures Disturbed(old(tuner), tuner, settings.tgxlPlays) && found == old(found) + [Found(desired, frequencyHz)]
    {
      hide Transition;
      DisturbedOften();
      frequencyHz := *;
      desired := *;
      found := found + [Found(desired, frequencyHz)];
      var requested: bool := *;
      if requested {
        var now := SystemTime();
        TransitionArrives(tune, TuneRequested, "TGXL autotune command received", now);
        tune := Transition(tune, TuneRequested, "TGXL autotune command received", now);
      }
      var operate: bool := *;
      tuner := tuner.(operate := operate);
      if settings.tgxlPlays {
        TgxlConnections();
      }
    }

    /** Any number of TGXL clients that connect. */
    method TgxlConnections()
      modifies this`tuner
      ensures Disturbed(old(tuner), tuner, true)
    {
      var steps: nat := *;
      while steps > 0
        invariant Disturbed(old(tuner), tuner, true)
      {
        steps := steps - 1;
        var starts: bool := *;
        var started: bool := *;
        if starts {
          tuner := tuner.(tuning := true, fault := None);
        } else if started {
          tuner := tuner.(tuning := false);
        } else {
          tuner := tuner.(operate := true, bypass := false, tuning := false, antenna := Some(0),
                          fault := None, firmware := Some(TGXL_VERSION));
        }
      }
    }

    method SystemTime() returns (nanos: int) {
      nanos := *;
    }

    /** Sends a command of the map and reads its answer. */
    method SendCommand(port: SerialPort, c: Command)
      returns (result: Result<SerialRead, SendError>, ghost events: seq<PortEvent>)
      modifies port
      ensures port.trace == old(port.trace) + events && Wires(events) == [Wire(c)]
      ensures IsExchange(Wire(c), if result.Success? then Some(result.value) else None, events)
      ensures result.Success? ==> IsOutcomeOf(c, Some(result.value)) && Lines(events) == Arrived(result.value)
      ensures result.Failure? ==> forall line <- Lines(events) :: !Answers(c, line)
    {
      result, events := Exchange(port, Wire(c), line => Answers(c, line));
      if result.Success? {
        ExchangeReads(Wire(c), Arrived(result.value), []);
        assert Lines(events) == Arrived(result.value);
        assert result.value.response in Arrived(result.value);
        assert forall line <- result.value.unsolicited :: line in Arrived(result.value);
      }
    }

    /** Sends a frequency wire, confirmed, and then waits for the line to fall quiet. */
    method SendFrequency(port: SerialPort, wire: string)
      returns (result: Result<Confirmation, SendError>,
               ghost drained: seq<string>, ghost drain: seq<PortEvent>, ghost body: seq<PortEvent>,
               ghost calmed: seq<string>, ghost calm: seq<PortEvent>)
      modifies port
      ensures port.trace == old(port.trace) + drain + body + calm
      ensures if result.Success? then IsDrain(calmed, calm) else calm == []
      ensures RequestedKhz(wire).Some? ==>
        IsDrain(drained, drain) && (Wires(body) == Repeated(wire, 1) || Wires(body) == Repeated(wire, 2))
      ensures result.Success? ==>
        && RequestedKhz(wire) == Some(result.value.requested)
        && ReportsTrace(result.value, wire, RequestedKhz, drained, body)
        && (!result.value.matched ==> result.value.retries == 1 && Wires(body) == Repeated(wire, 2))
        && ReportsLast(result.value.response, result.value.confirmed, result.value.aside, LastLines(body), RequestedKhz,
                       line => (IsUnsolicited(line) || line == wire) && StartsWith(line, "BN"),
                       "timeout_waiting_for_exact_f_echo")
    {
      hide RequestedKhz, IsUnsolicited, StartsWith, Repeated, Wires, Lines, Confirms, WrongEchoes, LastNoted, IsDrain,
           FirstLines, LastLines;
      result, drained, drain, body := SendConfirmed(port, wire, RequestedKhz,
        line => (IsUnsolicited(line) || line == wire) && StartsWith(line, "BN"),
        "timeout_waiting_for_exact_f_echo");
      calmed, calm := [], [];
      if result.Success? {
        var drainedAfter;
        drainedAfter, calmed, calm := DrainStaleInput(port);
      }
    }

    /** Asks whether a tune is still running before a follow relies on it. `before` and `seen` are
        the tuner and the lifecycle found under the lock. */
    method RefreshTuningState(port: SerialPort)
      returns (ghost asked: bool, ghost answer: Option<string>, ghost before: TunerState,
               ghost seen: Lifecycle, ghost now: int, ghost expired: bool, ghost events: seq<PortEvent>)
      modifies port, this`tuner, this`tune, this`frequencyHz, this`desired, this`found
      ensures port.trace == old(port.trace) + events && old(found) <= found
      ensures Wires(events) == (if asked then ["TP;"] else [])
      ensures AllPermitted(settings.gate, Wires(events))
      ensures !settings.tgxlPlays ==>
        && (old(tuner.tuning) ==> asked)
        && (!old(tuner.tuning) && old(tune.state) != Tuning ==> !asked)
      ensures !asked ==> answer.None? && !expired && !tuner.tuning && tune.state != Tuning
      ensures answer.Some? ==> Answers(TunePoll, answer.value)
      ensures (seen == old(tune) || seen.state == TuneRequested) && SameMarks(old(tune), seen)
      ensures expired <==>
        && asked && answer.None?
        && seen.enteredAtMs.Some? && Millis(now) - seen.enteredAtMs.value > 30_000
      ensures !expired && (answer.None? || tuner.tuning) ==> tune == seen
      ensures tune.lastSuccessMs == seen.lastSuccessMs
      ensures tune.lastFailureMs == if expired then Some(Millis(now)) else seen.lastFailureMs
      ensures Disturbed(old(tuner), before, settings.tgxlPlays)
      ensures tuner == if answer.Some? then ParseResponse(answer.value, before)
                       else if expired then before.(tuning := false) else before
      ensures (answer.Some? && !tuner.tuning) || expired ==> tune.state == Idle
    {
      hide ParseResponse, Answers, Wires, Millis, AllPermitted, Disturbed;
      NoWires(settings.gate);
      DisturbedOften();
      TuningSurvives();
      asked, answer, now, expired, events := false, None, 0, false, [];
      Acquire();
      before, seen := tuner, tune;
      if !tuner.tuning && tune.state != Tuning {
        return;
      }
      asked := true;
      answer, before, seen, now, expired, events := AskTuning(port);
    }

    /** Asks whether a tune is still running. Without an answer, a lifecycle older than thirty
        seconds expires. */
    method AskTuning(port: SerialPort)
      returns (ghost answer: Option<string>, ghost before: TunerState, ghost seen: Lifecycle, ghost now: int,
               ghost expired: bool, ghost events: seq<PortEvent>)
      modifies port, this`tuner, this`tune, this`frequencyHz, this`desired, this`found
      ensures port.trace == old(port.trace) + events && old(found) <= found
      ensures Wires(events) == ["TP;"] && AllPermitted(settings.gate, Wires(events))
      ensures answer.Some? ==> Answers(TunePoll, answer.value)
      ensures (seen == old(tune) || seen.state == TuneRequested) && SameMarks(old(tune), seen)
      ensures expired <==>
        answer.None? && seen.enteredAtMs.Some? && Millis(now) - seen.enteredAtMs.value > 30_000
      ensures !expired && (answer.None? || tuner.tuning) ==> tune == seen
      ensures tune.lastSuccessMs == seen.lastSuccessMs
      ensures tune.lastFailureMs == if expired then Some(Millis(now)) else seen.lastFailureMs
      ensures Disturbed(old(tuner), before, settings.tgxlPlays)
      ensures tuner == if answer.Some? then ParseResponse(answer.value, before)
                       else if expired then before.(tuning := false) else before
      ensures (answer.Some? && !tuner.tuning) || expired ==> tune.state == Idle
    {
      hide ParseResponse, Answers, IsExchange, Wires, Millis, AllPermitted, Transition, MarkFailure, Disturbed,
           Trimmed;
      ReadOnlyWirePermitted(TunePoll, settings.gate);
      answer, expired := None, false;
      var result;
      result, events := SendCommand(port, TunePoll);
      Acquire();
      var time := SystemTime();
      before, seen, now := tuner, tune, time;
      if result.Success? {
        answer := Some(result.value.response);
        tuner := ParseResponse(result.value.response, tuner);
        if !tuner.tuning {
          TransitionArrives(tune, Idle, "TP0 cleared stale KAT500 tuning state", time);
          tune := Transition(tune, Idle, "TP0 cleared stale KAT500 tuning state", time);
        }
      } else if OlderThan(tune, 30_000, time) {
        expired := true;
        tuner := tuner.(tuning := false);
        MarksMean(tune, "stale KAT500 tuning state expired after TP poll failed", time);
        tune := MarkFailure(tune, "stale KAT500 tuning state expired after TP poll failed", time);
        TransitionArrives(tune, Idle, "stale KAT500 tuning state expired", time);
        tune := Transition(tune, Idle, "stale KAT500 tuning state expired", time);
      }
    }

    /** Sends a frequency in range, confirmed. */
    method SendInRange(port: SerialPort, hz: nat)
      returns (result: Result<Confirmation, SendError>, ghost send: Send, ghost events: seq<PortEvent>)
      requires InRange(hz) && FollowGateOpen(settings.gate)
      modifies port
      ensures port.trace == old(port.trace) + events
      ensures AllPermitted(settings.gate, Wires(events)) && ControlWires(Wires(events)) == []
      ensures send.wire == FrequencyWire(Some(hz)).value && (send.completed <==> result.Success?)
      ensures Wires(events) == Repeated(send.wire, send.times) && 1 <= send.times <= 2
      ensures SentBy(events, FREQUENCY_WIRES, [send])
      ensures result.Success? ==> result.value.requested == KhzOf(hz) && ReportsSend(result.value, send)
    {
      hide Permitted, RequestedKhz, Decimal, ReportsTrace, ReportsLast, IsDrain, Wires, ControlWires, Repeated,
           FrequencyWire, KhzOf, AllPermitted, SentBy, FirstLines, LastLines;
      FrequencyWireReadsBack(hz);
      var wire := FrequencyWire(Some(hz)).value;
      ghost var drained, drain, body, calmed, calm;
      result, drained, drain, body, calmed, calm := SendFrequency(port, wire);
      events := drain + body + calm;
      ConfirmedWires(drained, drain, body, calmed, calm);
      FrequencyWiresPermitted(hz, settings.gate, Wires(body));
      send := Send(wire, if Wires(body) == Repeated(wire, 1) then 1 else 2, result.Success?);
      if result.Success? {
        ReportsRetries(result.value, wire, RequestedKhz, drained, body);
      }
      FrequencyWireIsNotControl(hz);
      OneSend(events, FREQUENCY_WIRES, send);
    }

    /** Transmits a frequency and records what was followed. `before` is the tuner found under the
        lock afterwards. */
    method TransmitFrequency(port: SerialPort, hz: nat)
      returns (outcome: Option<Confirmation>, ghost before: TunerState, ghost send: Send,
               ghost events: seq<PortEvent>)
      requires FollowValid() && InRange(hz) && FollowGateOpen(settings.gate)
      requires follow.wire != FrequencyWire(Some(hz))
      modifies port, this`tuner, this`tune, this`frequencyHz, this`desired, this`found, this`follow, this`followLog
      ensures old(found) <= found
      ensures FollowValid() && port.trace == old(port.trace) + events
      ensures AllPermitted(settings.gate, Wires(events)) && ControlWires(Wires(events)) == []
      ensures Disturbed(old(tuner), before, settings.tgxlPlays)
      ensures (tune == old(tune) || tune.state == TuneRequested) && SameMarks(old(tune), tune)
      ensures send.wire == FrequencyWire(Some(hz)).value && (send.completed <==> outcome.Some?)
      ensures Wires(events) == Repeated(send.wire, send.times) && 1 <= send.times <= 2
      ensures SentBy(events, FREQUENCY_WIRES, [send]) && followLog == old(followLog) + Completed([send])
      ensures outcome.None? ==> follow == old(follow) && tuner == before
      ensures outcome.Some? ==>
        var wire := FrequencyWire(Some(hz)).value;
        && outcome.value.requested == KhzOf(hz) && ReportsSend(outcome.value, send)
        && follow == Followed(old(follow), Some(hz), wire, outcome.value)
        && tuner == Heard(outcome.value, before)
    {
      hide Wires, ControlWires, Repeated, FrequencyWire, AllPermitted, ParseResponse, NoRepeats, SentBy, Completed;
      var result;
      result, send, events := SendInRange(port, hz);
      OneCompleted(send);
      FrequencyHasWire(hz);
      Acquire();
      before := tuner;
      if result.Failure? {
        return None, before, send, events;
      }
      var c, wire := result.value, FrequencyWire(Some(hz)).value;
      tuner := ParseResponse(c.response, tuner);
      if c.aside.Some? {
        tuner := ParseResponse(c.aside.value, tuner);
      }
      outcome := Some(c);
      NoRepeatsGrows(followLog, wire);
      follow := follow.(hz := Some(hz), wire := Some(wire), requestedKhz := Some(c.requested),
                        confirmedKhz := c.confirmed, matched := Some(c.matched),
                        stale := SaturatingAdd(follow.stale, c.stale),
                        retries := SaturatingAdd(follow.retries, c.retries),
                        sent := SaturatingAdd(follow.sent, 1));
      followLog := followLog + [wire];
    }

    /** The locked decision of a follow: the frequency to transmit, if any. `tuning` and `hz`
        are what the decision saw. */
    method DecideFollow() returns (send: Option<nat>, ghost tuning: bool, ghost hz: Option<nat>)
      modifies this`tune, this`tuner, this`frequencyHz, this`desired, this`found, this`follow
      ensures tuning == tuner.tuning && Disturbed(old(tuner), tuner, settings.tgxlPlays)
      ensures hz == frequencyHz && found == old(found) + [Found(desired, frequencyHz)]
      ensures send == (if FollowSends(old(follow), tuning, hz, settings.gate) then hz else None)
      ensures follow.wire == old(follow).wire && (old(FollowValid()) ==> FollowValid())
      ensures send.Some? <==> FollowSends(old(follow), tuning, hz, settings.gate)
      ensures send.None? ==> follow == FollowStep(old(follow), tuning, hz, settings.gate, None)
      ensures send.Some? ==> FrequencyWire(hz).Some? && follow == old(follow).(requestedKhz := Some(KhzOf(hz.value)))
    {
      hide Decimal;
      Acquire();
      send, tuning, hz := None, tuner.tuning, frequencyHz;
      var wanted := FrequencyWire(frequencyHz);
      if wanted.None? {
        follow := follow.(skipped := SaturatingAdd(follow.skipped, 1));
        return;
      }
      var khz := KhzOf(frequencyHz.value);
      if tuner.tuning {
        follow := follow.(skipped := SaturatingAdd(follow.skipped, 1), requestedKhz := Some(khz));
        return;
      }
      if follow.wire == wanted {
        return;
      }
      if follow.requestedKhz.Some? && follow.requestedKhz.value != khz && follow.matched.None? {
        follow := follow.(skipped := SaturatingAdd(follow.skipped, 1), requestedKhz := Some(khz));
        return;
      }
      if !CommandAllowed(settings.gate, SafetyOf(FrequencyContext))
         && !CommandAllowed(settings.gate, SafetyOf(Autotune)) {
        follow := follow.(skipped := SaturatingAdd(follow.skipped, 1));
        return;
      }
      follow := follow.(requestedKhz := Some(khz));
      send := frequencyHz;
    }

    /** Follows the radio's frequency. `outcome` is what became of a transmission. */
    method ProcessFrequencyFollow(port: SerialPort)
      returns (ghost tuning: bool, ghost hz: Option<nat>, ghost outcome: Option<Confirmation>,
               ghost sends: seq<Send>, ghost events: seq<PortEvent>)
      requires Valid()
      modifies port, this`tuner, this`tune, this`frequencyHz, this`desired, this`found, this`follow, this`followLog
      ensures Valid() && port.trace == old(port.trace) + events
      ensures settings.followFlexFrequency ==>
        && old(found) <= found && (exists i :: |old(found)| <= i < |found| && found[i].frequencyHz == hz)
        && follow == FollowStep(old(follow), tuning, hz, settings.gate, outcome)
        && (if FollowSends(old(follow), tuning, hz, settings.gate)
            then |sends| == 1 && sends[0].wire == FrequencyWire(hz).value && sends[0].completed == outcome.Some?
            else sends == [])
      ensures outcome.Some? ==>
        && settings.followFlexFrequency && FollowSends(old(follow), tuning, hz, settings.gate)
        && outcome.value.requested == KhzOf(hz.value) && ReportsSend(outcome.value, sends[0])
      ensures SentBy(events, FREQUENCY_WIRES, sends) && followLog == old(followLog) + Completed(sends)
      ensures !settings.followFlexFrequency ==>
        events == [] && sends == [] && follow == old(follow)
      ensures !settings.tgxlPlays && !old(tuner.tuning) && old(tune.state) != Tuning ==> !tuning
      ensures AllPermitted(settings.gate, Wires(events))
      ensures !FollowSends(old(follow), tuning, hz, settings.gate)
              ==> Wires(events) == [] || Wires(events) == ["TP;"]
      ensures ControlWires(Wires(events)) == []
    {
      hide Permitted, AllPermitted, FrequencyWire, Wires, ControlWires, SentBy, FollowStep, FollowSends, KhzOf,
           Followed, FollowValid, TuneValid, Completed;
      NoWires(settings.gate);
      NoControlWires();
      QueriesAreNotControls(["TP;"]);
      NoFrequencies([]);
      events, tuning, hz, outcome, sends := [], tuner.tuning, frequencyHz, None, [];
      if !settings.followFlexFrequency {
        return;
      }
      ghost var asked, answer, before, seen, now, expired;
      asked, answer, before, seen, now, expired, events := RefreshTuningState(port);
      NoFrequencies(events);
      var send;
      send, tuning, hz := DecideFollow();
      assert found[|found| - 1].frequencyHz == hz;
      if send.None? {
        return;
      }
      FollowStepSends(old(follow), tuning, hz, settings.gate);
      var confirmed;
      ghost var sent, one;
      confirmed, one, sent := FollowNow(port, send.value);
      SentByConcat(events, [], sent, [one], FREQUENCY_WIRES);
      WiresConcat(events, sent);
      ControlWiresConcat(Wires(events), Wires(sent));
      AllPermittedConcat(settings.gate, Wires(events), Wires(sent));
      sends, events, outcome := [one], events + sent, confirmed;
    }

    /** Transmits a frequency to follow, and counts a failed transmission as skipped. */
    method FollowNow(port: SerialPort, hz: nat)
      returns (outcome: Option<Confirmation>, ghost send: Send, ghost events: seq<PortEvent>)
      requires FollowValid() && InRange(hz) && FollowGateOpen(settings.gate)
      requires follow.wire != FrequencyWire(Some(hz))
      modifies port, this`tuner, this`tune, this`frequencyHz, this`desired, this`found, this`follow, this`followLog
      ensures FollowValid() && port.trace == old(port.trace) + events && old(found) <= found
      ensures AllPermitted(settings.gate, Wires(events)) && ControlWires(Wires(events)) == []
      ensures send.wire == FrequencyWire(Some(hz)).value && (send.completed <==> outcome.Some?)
      ensures SentBy(events, FREQUENCY_WIRES, [send]) && followLog == old(followLog) + Completed([send])
      ensures outcome.Some? ==> outcome.value.requested == KhzOf(hz) && ReportsSend(outcome.value, send)
      ensures follow == if outcome.Some? then Followed(old(follow), Some(hz), send.wire, outcome.value)
                        else Skipped(old(follow))
    {
      hide Permitted, AllPermitted, FrequencyWire, Wires, ControlWires, NoRepeats, SentBy, Completed, Repeated,
           Followed;
      ghost var before;
      outcome, before, send, events := TransmitFrequency(port, hz);
      if outcome.None? {
        follow := follow.(skipped := SaturatingAdd(follow.skipped, 1));
      }
    }

    /** Polls after an accepted tune until an answer leaves the tuner idle or fifteen seconds
        pass: `ended` says which. */
    method AwaitTunerIdle(port: SerialPort)
      returns (ghost outcomes: seq<Option<SerialRead>>, ghost pieces: seq<seq<PortEvent>>,
               ghost ended: bool, ghost waited: nat)
      modifies port, this`tuner, this`tune, this`frequencyHz, this`desired, this`found
      ensures old(found) <= found
      ensures port.trace == old(port.trace) + Flatten(pieces) && 1 <= |pieces| == |outcomes| <= 31
      ensures forall i :: 0 <= i < |pieces| ==>
        IsExchange("TP;", outcomes[i], pieces[i]) && IsOutcomeOf(TunePoll, outcomes[i])
      ensures !tuner.tuning && tune.state == Idle
      ensures tune.lastSuccessMs == old(tune.lastSuccessMs)
      ensures if ended then tune.lastFailureMs == old(tune.lastFailureMs) else tune.lastFailureMs.Some?
      ensures if ended then outcomes[|outcomes| - 1].Some? else waited >= 15_000_000_000
      ensures var replies := Replies(outcomes);
              !settings.tgxlPlays ==>
                if ended then !GoesOn(old(tuner.tuning), replies) && replies != []
                              && GoesOn(old(tuner.tuning), replies[..|replies| - 1])
                else GoesOn(old(tuner.tuning), replies)
    {
      hide ReadingOf, Apply, Answers, ParseResponse, IsExchange, Flatten, GoesOn, Replies, IsOutcomeOf;
      NothingPolled(tuner.tuning);
      outcomes, pieces, ended, waited := [], [], false, 0;
      var elapsed: nat := 0;
      while true
        invariant port.trace == old(port.trace) + Flatten(pieces)
        invariant old(found) <= found && SameMarks(old(tune), tune)
        invariant |pieces| == |outcomes| <= 30 && elapsed >= 500_000_000 * |pieces| && !ended
        invariant forall i :: 0 <= i < |pieces| ==>
          IsExchange("TP;", outcomes[i], pieces[i]) && IsOutcomeOf(TunePoll, outcomes[i])
        invariant !settings.tgxlPlays ==>
          && GoesOn(old(tuner.tuning), Replies(outcomes))
          && (tuner.tuning <==> old(tuner.tuning) || Replies(outcomes) != [])
        decreases 31 - |pieces|
      {
        ghost var before, outcome, piece;
        var idle;
        idle, before, outcome, piece := PollTune(port);
        FlattenGrows(pieces, piece);
        RepliesGrow(outcomes, outcome);
        if !settings.tgxlPlays {
          OutcomeDecides(old(tuner.tuning), Replies(outcomes), outcome, before);
        }
        outcomes, pieces := outcomes + [outcome], pieces + [piece];
        var taken: nat :| true;
        elapsed := elapsed + taken;
        if idle {
          ended := true;
          break;
        }
        if elapsed >= 15_000_000_000 {
          ghost var at := ExpireTune();
          break;
        }
        var slept: nat :| true;
        elapsed := elapsed + 500_000_000 + slept;
      }
      waited := elapsed;
    }

    /** One TP query after a tune. An answer that leaves the tuner idle resets the lifecycle. */
    method PollTune(port: SerialPort)
      returns (idle: bool, ghost before: TunerState, ghost outcome: Option<SerialRead>,
               ghost piece: seq<PortEvent>)
      modifies port, this`tuner, this`tune, this`frequencyHz, this`desired, this`found
      ensures old(found) <= found
      ensures port.trace == old(port.trace) + piece
      ensures IsExchange("TP;", outcome, piece) && IsOutcomeOf(TunePoll, outcome)
      ensures Disturbed(old(tuner), before, settings.tgxlPlays)
      ensures tuner == if outcome.Some? then ParseResponse(outcome.value.response, before) else before
      ensures idle <==> outcome.Some? && !tuner.tuning
      ensures (idle ==> tune.state == Idle) && SameMarks(old(tune), tune)
    {
      hide ParseResponse, Answers, IsExchange, Transition;
      var result;
      result, piece := SendCommand(port, TunePoll);
      outcome := if result.Success? then Some(result.value) else None;
      idle, before := false, tuner;
      var now := SystemTime();
      if result.Success? {
        Acquire();
        before := tuner;
        tuner := ParseResponse(result.value.response, tuner);
        if !tuner.tuning {
          idle := true;
          TransitionArrives(tune, Idle, "TP0 cleared KAT500 tune lifecycle after autotune", now);
          tune := Transition(tune, Idle, "TP0 cleared KAT500 tune lifecycle after autotune", now);
        }
      }
    }

    /** Gives up on a tune that was not seen to end. */
    method ExpireTune() returns (ghost at: int)
      modifies this`tuner, this`tune, this`frequencyHz, this`desired, this`found
      ensures old(found) <= found
      ensures !tuner.tuning && tune.state == Idle
      ensures Disturbed(old(tuner).(tuning := false), tuner, settings.tgxlPlays)
      ensures tune.lastFailureMs == Some(Millis(at)) && tune.lastSuccessMs == old(tune.lastSuccessMs)
    {
      hide Transition, MarkFailure, Millis;
      Acquire();
      var now := SystemTime();
      at := now;
      tuner := tuner.(tuning := false);
      MarksMean(tune, "KAT500 tune state expired after 15s without TP0", now);
      tune := MarkFailure(tune, "KAT500 tune state expired after 15s without TP0", now);
      TransitionArrives(tune, Idle, "KAT500 tune timeout expired tuning state", now);
      tune := Transition(tune, Idle, "KAT500 tune timeout expired tuning state", now);
    }

    /** The whole of the polling after an accepted tune, with a last reading of the SWR. */
    method PollTuneUntilIdle(port: SerialPort) returns (ghost polls: nat, ghost events: seq<PortEvent>)
      modifies port, this`tuner, this`tune, this`frequencyHz, this`desired, this`found
      ensures old(found) <= found
      ensures port.trace == old(port.trace) + events
      ensures 1 <= polls <= 31 && Wires(events) == Repeated("TP;", polls) + ["VSWR;"]
      ensures tune.state in {Idle, TuneRequested} && (!settings.tgxlPlays ==> !tuner.tuning)
      ensures tune.lastSuccessMs == old(tune.lastSuccessMs)
    {
      hide ReadingOf, Apply, Answers, Wires, Repeated, GoesOn, Replies, Flatten;
      ghost var outcomes, pieces, ended, waited;
      outcomes, pieces, ended, waited := AwaitTunerIdle(port);
      polls, events := |pieces|, Flatten(pieces);
      SamePolls("TP;", pieces);
      var reading;
      ghost var last;
      reading, last := SendCommand(port, Vswr);
      WiresConcat(events, last);
      events := events + last;
      if reading.Success? {
        Acquire();
        VswrAnswersDoNotTune(reading.value.response, tuner);
        tuner := ParseResponse(reading.value.response, tuner);
      }
    }

    /** Records what the gate decided about a command. */
    method NoteDecision(c: Command)
      modifies this`tune, this`tuner, this`frequencyHz, this`desired, this`found, this`controls
      ensures old(found) <= found
      ensures Disturbed(old(tuner), tuner, settings.tgxlPlays)
      ensures controls == RefusalCounted(old(controls), EnsureCanSend(settings.gate, SafetyOf(c)))
      ensures (tune == old(tune) || tune.state == TuneRequested) && SameMarks(old(tune), tune)
    {
      Acquire();
      if settings.gate.dryRun && SafetyOf(c) != ReadOnly {
        controls := controls.(blockedByDryRun := SaturatingAdd(controls.blockedByDryRun, 1));
      } else if SafetyOf(c) == RfRisk && !settings.gate.allowRfRisk {
        controls := controls.(blockedByRfRisk := SaturatingAdd(controls.blockedByRfRisk, 1));
      }
    }

    /** Carries out a command unless the gate refuses it: it is transmitted once, and succeeds
        exactly when it is answered. A tune that succeeds is followed by `polled`. `during` is the
        lifecycle in which a command is transmitted. */
    method ApplyDesiredCommand(port: SerialPort, c: Command)
      returns (result: Result<(), ControlError>, ghost exchange: Option<Exchanged>, ghost during: Lifecycle,
               ghost polls: nat, ghost polled: seq<PortEvent>)
      requires IsControl(c)
      modifies port, this`tuner, this`tune, this`frequencyHz, this`desired, this`found, this`controls
      ensures old(found) <= found
      ensures port.trace == old(port.trace) + (PieceOf(exchange) + polled)
      ensures AllPermitted(settings.gate, Wires(PieceOf(exchange) + polled))
      ensures SentBy(PieceOf(exchange) + polled, FREQUENCY_WIRES, [])
      ensures exchange.Some? <==> EnsureCanSend(settings.gate, SafetyOf(c)).None?
      ensures exchange.Some? ==> IsExchangeOf(c, exchange.value)
      ensures result.Success? <==> Answered(exchange)
      ensures result.Failure? ==>
        match EnsureCanSend(settings.gate, SafetyOf(c))
        case Some(refusal) => result.error == Refused(refusal)
        case None => result.error.SerialFailure?
      ensures if c == Autotune && result.Success?
              then Wires(polled) == Repeated("TP;", polls) + ["VSWR;"] && 1 <= polls <= 31
              else polled == []
      ensures ControlWires(Wires(polled)) == []
      ensures c == Autotune && result.Success? ==>
        tune.state in {Idle, TuneRequested} && (!settings.tgxlPlays ==> !tuner.tuning)
      ensures !(c == Autotune && result.Success?) ==>
        && Disturbed(old(tuner), tuner, settings.tgxlPlays)
        && (tune == old(tune) || tune.state == TuneRequested) && SameMarks(old(tune), tune)
      ensures tune.lastSuccessMs == old(tune.lastSuccessMs)
      ensures during == old(tune) || during.state == TuneRequested
      ensures controls == RefusalCounted(old(controls), EnsureCanSend(settings.gate, SafetyOf(c)))
    {
      hide Permitted, AllPermitted, ReadingOf, Answers, Wires, ControlWires, Repeated, Wire, SentBy, IsExchange,
           Disturbed, RefusalCounted;
      DisturbedOften();
      NoWires(settings.gate);
      NoControlWires();
      NoFrequencies([]);
      polls, polled, exchange := 0, [], None;
      NoteDecision(c);
      during := tune;
      var refusal := EnsureCanSend(settings.gate, SafetyOf(c));
      if refusal.Some? {
        return Failure(Refused(refusal.value)), exchange, during, polls, polled;
      }
      var sent;
      ghost var piece;
      sent, piece := SendCommand(port, c);
      exchange := Some(Exchanged(if sent.Success? then Some(sent.value) else None, piece));
      ControlWirePermitted(c, settings.gate);
      NoFrequencies(piece);
      assert piece + [] == piece;
      if sent.Failure? {
        return Failure(SerialFailure(sent.error)), exchange, during, polls, polled;
      }
      Acquire();
      if c == Autotune {
        polls, polled := PollTuneUntilIdle(port);
        PollWires(polls, settings.gate);
        NoFrequencies(polled);
        SentByConcat(piece, [], polled, [], FREQUENCY_WIRES);
        WiresConcat(piece, polled);
        AllPermittedConcat(settings.gate, Wires(piece), Wires(polled));
      }
      result := Success(());
    }

    /** Takes every pending request. */
    method TakeDesired() returns (taken: Desired)
      modifies this`desired
      ensures taken == old(desired) && desired == Desired(false, None, None, false)
    {
      taken := desired;
      desired := Desired(false, None, None, false);
    }

    /** Suppresses a tune request. */
    method SuppressTune(now: int)
      requires TuneValid() && InCooldown(lastTuneAt, now)
      modifies this`tune, this`controls, this`tuneLog
      ensures TuneValid() && tuneLog == old(tuneLog) + [TuneRecord(now, Suppressed)]
      ensures tune.state == Cooldown && SameMarks(old(tune), tune)
    {
      hide Transition, Spaced, Count, LastAccepted, InCooldown;
      controls := controls.(duplicateSuppressed := SaturatingAdd(controls.duplicateSuppressed, 1));
      TransitionArrives(tune, Cooldown, "duplicate autotune suppressed inside cooldown window", now);
      tune := Transition(tune, Cooldown, "duplicate autotune suppressed inside cooldown window", now);
      RecordGrows(tuneLog, TuneRecord(now, Suppressed));
      tuneLog := tuneLog + [TuneRecord(now, Suppressed)];
    }

    /** Accepts a tune request, or suppresses it inside the cooldown of the last accepted one. */
    method AcceptTune() returns (accepted: bool, now: int, hz: Option<nat>)
      requires TuneValid()
      modifies this`tune, this`tuner, this`frequencyHz, this`desired, this`found, this`lastTuneAt, this`controls,
               this`tuneLog
      ensures found == old(found) + [Found(desired, frequencyHz)] && hz == frequencyHz
      ensures accepted == !InCooldown(old(lastTuneAt), now)
      ensures SameMarks(old(tune), tune) && tune.state == (if accepted then Tuning else Cooldown)
      ensures accepted ==> lastTuneAt == Some(now) && controls == old(controls) && tuneLog == old(tuneLog)
      ensures !accepted ==> TuneValid() && tuneLog == old(tuneLog) + [TuneRecord(now, Suppressed)]
    {
      hide Transition, Disturbed, Spaced, Count, LastAccepted, TuneValid;
      Acquire();
      now := SystemTime();
      hz := frequencyHz;
      var elapsed := if lastTuneAt.Some? then now - lastTuneAt.value else -1;
      accepted := !(0 <= elapsed < COOLDOWN);
      if accepted {
        lastTuneAt := Some(now);
        TransitionArrives(tune, Tuning, "KAT500 T; accepted for execution", now);
        tune := Transition(tune, Tuning, "KAT500 T; accepted for execution", now);
      } else {
        SuppressTune(now);
      }
    }

    /** Closes an accepted request with its result, and dates the success or the failure. */
    method FinishTune(executed: bool, accepted: int) returns (ghost at: int)
      requires lastTuneAt == Some(accepted) && !InCooldown(LastAccepted(tuneLog), accepted)
      requires controls.tuneExecuted == Saturated(Count(tuneLog, Executed))
      requires controls.tuneFailed == Saturated(Count(tuneLog, Failed))
      requires controls.duplicateSuppressed == Saturated(Count(tuneLog, Suppressed))
      requires Spaced(tuneLog)
      modifies this`tune, this`tuner, this`frequencyHz, this`desired, this`found, this`controls, this`tuneLog
      ensures old(found) <= found
      ensures TuneValid()
      ensures tuneLog == old(tuneLog) + [TuneRecord(accepted, if executed then Executed else Failed)]
      ensures executed ==>
        && tune.state == Idle && tune.lastSuccessMs == Some(Millis(at))
        && tune.lastFailureMs == old(tune.lastFailureMs)
      ensures !executed ==>
        && tune.state == TuneFailed && tune.lastFailureMs == Some(Millis(at))
        && tune.lastSuccessMs == old(tune.lastSuccessMs)
    {
      hide Spaced, Count, LastAccepted, InCooldown, Millis, Transition, MarkSuccess, MarkFailure, Disturbed;
      Acquire();
      var now := SystemTime();
      at := now;
      if executed {
        controls := controls.(tuneExecuted := SaturatingAdd(controls.tuneExecuted, 1));
        MarksMean(tune, "KAT500 tune command completed", now);
        tune := MarkSuccess(tune, "KAT500 tune command completed", now);
        TransitionArrives(tune, Idle, "tune lifecycle reset after completion", now);
        tune := Transition(tune, Idle, "tune lifecycle reset after completion", now);
      } else {
        controls := controls.(tuneFailed := SaturatingAdd(controls.tuneFailed, 1));
        MarksMean(tune, "KAT500 tune failed", now);
        tune := MarkFailure(tune, "KAT500 tune failed", now);
      }
      ghost var record := TuneRecord(accepted, if executed then Executed else Failed);
      RecordGrows(tuneLog, record);
      tuneLog := tuneLog + [record];
    }

    /** Sends the frequency of an accepted tune when the tuner does not follow it yet. */
    method PrepareTune(port: SerialPort, hz: Option<nat>)
      returns (ghost sends: seq<Send>, ghost events: seq<PortEvent>)
      requires FollowValid()
      modifies port, this`tuner, this`tune, this`frequencyHz, this`desired, this`found, this`follow, this`followLog
      ensures old(found) <= found
      ensures FollowValid() && port.trace == old(port.trace) + events
      ensures SentBy(events, FREQUENCY_WIRES, sends) && followLog == old(followLog) + Completed(sends)
      ensures AllPermitted(settings.gate, Wires(events)) && ControlWires(Wires(events)) == []
      ensures Wires(events) in SentBefore(old(follow.wire), hz, settings.gate)
      ensures (tune == old(tune) || tune.state == TuneRequested) && SameMarks(old(tune), tune)
    {
      hide Permitted, AllPermitted, Wires, ControlWires, NoRepeats, FrequencyWire, Repeated, SentBy;
      NoWires(settings.gate);
      NoControlWires();
      NoFrequencies([]);
      events, sends := [], [];
      var wire := FrequencyWire(hz);
      if wire.Some? && follow.wire != wire && CommandAllowed(settings.gate, SafetyOf(Autotune)) {
        SentFrequencyInRange(hz);
        var confirmed;
        ghost var found, one;
        confirmed, found, one, events := TransmitFrequency(port, hz.value);
        sends := [one];
      }
    }

    /** Carries out one taken tune request, with the frequency sent before it when the tuner does
        not follow it yet. The request is suppressed exactly inside the cooldown; otherwise its
        `T;` is transmitted exactly when the gate lets it, and executed exactly when answered.
        `during` is the lifecycle in which it is transmitted, and `at` when the request ended. */
    method ProcessAutotune(port: SerialPort)
      returns (result: Result<bool, ControlError>, ghost hz: Option<nat>, ghost record: TuneRecord,
               ghost before: seq<PortEvent>, ghost exchange: Option<Exchanged>, ghost during: Lifecycle,
               ghost polls: nat, ghost polled: seq<PortEvent>, ghost sends: seq<Send>, ghost at: int)
      requires Valid()
      modifies port, this`tuner, this`tune, this`frequencyHz, this`desired, this`found, this`controls,
               this`lastTuneAt, this`tuneLog, this`follow, this`followLog
      ensures |old(found)| < |found| && old(found) <= found && found[|old(found)|].frequencyHz == hz
      ensures Valid() && tune.state == EndState(record.fate)
      ensures exchange.Some? ==> during.state in {Tuning, TuneRequested}
      ensures record.fate == Executed ==> tune.lastSuccessMs == Some(Millis(at))
      ensures record.fate == Failed ==>
        tune.lastFailureMs == Some(Millis(at)) && tune.lastSuccessMs == old(tune.lastSuccessMs)
      ensures record.fate == Suppressed ==> SameMarks(old(tune), tune)
      ensures port.trace == old(port.trace) + (before + (PieceOf(exchange) + polled))
      ensures AllPermitted(settings.gate, Wires(before + (PieceOf(exchange) + polled)))
      ensures SentBy(before + (PieceOf(exchange) + polled), FREQUENCY_WIRES, sends)
      ensures followLog == old(followLog) + Completed(sends)
      ensures tuneLog == old(tuneLog) + [record]
      ensures record.fate == Suppressed <==> InCooldown(old(lastTuneAt), record.at)
      ensures record.fate == Suppressed ==> before == [] && result == Success(false)
      ensures record.fate != Suppressed ==> Wires(before) in SentBefore(old(follow.wire), hz, settings.gate)
      ensures exchange.Some? <==> record.fate != Suppressed && TuneOpen(settings.gate)
      ensures exchange.Some? ==> IsExchangeOf(Autotune, exchange.value)
      ensures record.fate == Executed <==> Answered(exchange)
      ensures result == Success(true) <==> record.fate == Executed
      ensures result == Success(false) <==> record.fate == Suppressed
      ensures if record.fate == Executed
              then Wires(polled) == Repeated("TP;", polls) + ["VSWR;"] && 1 <= polls <= 31
              else polled == []
      ensures ControlWires(Wires(before)) == [] && ControlWires(Wires(polled)) == []
    {
      hide Permitted, AllPermitted, Wires, ControlWires, NoRepeats, FrequencyWire, Spaced, Count, LastAccepted,
           Repeated, SentBefore, Transition, SentBy, RefusalCounted, EnsureCanSend, InCooldown, IsExchangeOf,
           Disturbed, Completed, Millis;
      RefusalKeepsFates();
      NoWires(settings.gate);
      NoControlWires();
      NoFrequencies([]);
      before, sends, polls, polled, exchange := [], [], 0, [], None;
      var accepted, now, frequency := AcceptTune();
      hz, record, during, at := frequency, TuneRecord(now, Suppressed), tune, now;
      assert before + (PieceOf(exchange) + polled) == [];
      if !accepted {
        return Success(false), hz, record, before, exchange, during, polls, polled, sends, at;
      }
      var applied;
      applied, before, exchange, during, polls, polled, sends := ExecuteTune(port, frequency);
      record := TuneRecord(now, if applied.Success? then Executed else Failed);
      at := FinishTune(applied.Success?, now);
      result := if applied.Success? then Success(true) else Failure(applied.error);
    }

    /** Sends the frequency of an accepted tune, if due, and then the tune. */
    method ExecuteTune(port: SerialPort, hz: Option<nat>)
      returns (applied: Result<(), ControlError>, ghost before: seq<PortEvent>, ghost exchange: Option<Exchanged>,
               ghost during: Lifecycle, ghost polls: nat, ghost polled: seq<PortEvent>, ghost sends: seq<Send>)
      requires FollowValid()
      modifies port, this`tuner, this`tune, this`frequencyHz, this`desired, this`found, this`controls,
               this`follow, this`followLog
      ensures old(found) <= found
      ensures FollowValid() && port.trace == old(port.trace) + (before + (PieceOf(exchange) + polled))
      ensures AllPermitted(settings.gate, Wires(before + (PieceOf(exchange) + polled)))
      ensures SentBy(before + (PieceOf(exchange) + polled), FREQUENCY_WIRES, sends)
      ensures followLog == old(followLog) + Completed(sends)
      ensures Wires(before) in SentBefore(old(follow.wire), hz, settings.gate)
      ensures exchange.Some? <==> TuneOpen(settings.gate)
      ensures exchange.Some? ==> IsExchangeOf(Autotune, exchange.value)
      ensures applied.Success? <==> Answered(exchange)
      ensures during == old(tune) || during.state == TuneRequested
      ensures tune.lastSuccessMs == old(tune.lastSuccessMs)
      ensures applied.Failure? ==> SameMarks(old(tune), tune)
      ensures if applied.Success?
              then Wires(polled) == Repeated("TP;", polls) + ["VSWR;"] && 1 <= polls <= 31
              else polled == []
      ensures ControlWires(Wires(before)) == [] && ControlWires(Wires(polled)) == []
      ensures controls == RefusalCounted(old(controls), EnsureCanSend(settings.gate, SafetyOf(Autotune)))
    {
      hide AllPermitted, Wires, ControlWires, NoRepeats, Repeated, SentBefore, SentBy, RefusalCounted,
           EnsureCanSend, IsExchangeOf, Disturbed, Completed, TuneOpen;
      GateOfCommand(settings.gate, Autotune);
      sends, before := PrepareTune(port, hz);
      applied, exchange, during, polls, polled := ApplyDesiredCommand(port, Autotune);
      WiresConcat(before, PieceOf(exchange) + polled);
      AllPermittedConcat(settings.gate, Wires(before), Wires(PieceOf(exchange) + polled));
      SentByConcat(before, sends, PieceOf(exchange) + polled, [], FREQUENCY_WIRES);
    }

    /** Carries out a switch if it was asked for. */
    method ApplyIfAsked(port: SerialPort, asked: bool, c: Command)
      returns (result: Result<(), ControlError>, ghost exchange: Option<Exchanged>)
      requires IsControl(c) && c != Autotune
      modifies port, this`tuner, this`tune, this`frequencyHz, this`desired, this`found, this`controls
      ensures old(found) <= found
      ensures port.trace == old(port.trace) + PieceOf(exchange)
      ensures AllPermitted(settings.gate, Wires(PieceOf(exchange)))
      ensures SentBy(PieceOf(exchange), FREQUENCY_WIRES, [])
      ensures exchange.Some? <==> asked && SwitchOpen(settings.gate)
      ensures exchange.Some? ==> IsExchangeOf(c, exchange.value)
      ensures result.Success? <==> !asked || Answered(exchange)
      ensures Disturbed(old(tuner), tuner, settings.tgxlPlays) && (tune == old(tune) || tune.state == TuneRequested)
      ensures controls == (if asked then RefusalCounted(old(controls), EnsureCanSend(settings.gate, SafetyOf(c)))
                           else old(controls))
    {
      hide Permitted, AllPermitted, Wires, ControlWires, Wire, SentBy, RefusalCounted, EnsureCanSend, IsExchangeOf,
           Disturbed, SwitchOpen;
      GateOfCommand(settings.gate, c);
      DisturbedOften();
      NoWires(settings.gate);
      NoFrequencies([]);
      exchange := None;
      if !asked {
        return Success(()), exchange;
      }
      ghost var during, polls, polled;
      result, exchange, during, polls, polled := ApplyDesiredCommand(port, c);
      assert PieceOf(exchange) + [] == PieceOf(exchange);
    }

    /** Carries out the antenna request and then the bypass request of a batch. */
    method ProcessSwitches(port: SerialPort, asked: Desired)
      returns (result: Result<(), ControlError>, ghost antenna: Option<Exchanged>, ghost bypass: Option<Exchanged>)
      requires TuneValid()
      modifies port, this`tuner, this`tune, this`frequencyHz, this`desired, this`found, this`controls
      ensures old(found) <= found
      ensures TuneValid() && port.trace == old(port.trace) + (PieceOf(antenna) + PieceOf(bypass))
      ensures AllPermitted(settings.gate, Wires(PieceOf(antenna) + PieceOf(bypass)))
      ensures SentBy(PieceOf(antenna) + PieceOf(bypass), FREQUENCY_WIRES, [])
      ensures tune == old(tune) || tune.state == TuneRequested
      ensures AreSwitched(asked, settings.gate, true, antenna, bypass)
      ensures result.Success? <==>
        && (asked.antenna.Some? ==> Answered(antenna))
        && (asked.bypass.Some? ==> Answered(bypass))
    {
      hide Permitted, AllPermitted, Wires, ControlWires, Wire, SentBy, Spaced, Count, LastAccepted,
           RefusalCounted, EnsureCanSend, IsExchangeOf, Disturbed, SwitchOpen, PlannedAntenna, PlannedBypass;
      RefusalKeepsFates();
      PlannedWires(asked);
      NoWires(settings.gate);
      NoFrequencies([]);
      bypass := None;
      result, antenna := ApplyIfAsked(port, asked.antenna.Some?,
        AntennaSelect(if asked.antenna.Some? then asked.antenna.value else 0));
      assert PieceOf(antenna) + [] == PieceOf(antenna);
      if antenna.Some? {
        ExchangeWires(AntennaSelect(asked.antenna.value), antenna.value);
      }
      if result.Failure? {
        return;
      }
      result, bypass := ApplyIfAsked(port, asked.bypass.Some?,
        BypassCommand(asked.bypass.Some? && asked.bypass.value));
      if bypass.Some? {
        ExchangeWires(BypassCommand(asked.bypass.value), bypass.value);
      }
      WiresConcat(PieceOf(antenna), PieceOf(bypass));
      AllPermittedConcat(settings.gate, Wires(PieceOf(antenna)), Wires(PieceOf(bypass)));
      SentByConcat(PieceOf(antenna), [], PieceOf(bypass), [], FREQUENCY_WIRES);
    }

    /** Carries out the batch of requests found pending. A suppressed or failed tune drops the
        rest of its batch, and an unanswered antenna command the bypass request; otherwise each
        request is transmitted exactly when the gate lets it. A manual relay request is only
        reported, because its command mapping is unknown. */
    method ProcessDesiredControl(port: SerialPort)
      returns (result: Result<bool, ControlError>, ghost batch: Batch, ghost sends: seq<Send>)
      requires Valid()
      modifies port, this`tuner, this`tune, this`frequencyHz, this`desired, this`found, this`controls,
               this`lastTuneAt, this`tuneLog, this`follow, this`followLog
      ensures Valid() && port.trace == old(port.trace) + BatchTrace(batch)
      ensures |old(found)| < |found| && old(found) <= found && found[|old(found)|].desired == batch.asked
      ensures AllPermitted(settings.gate, Wires(BatchTrace(batch)))
      ensures SentBy(BatchTrace(batch), FREQUENCY_WIRES, sends) && followLog == old(followLog) + Completed(sends)
      ensures tuneLog == old(tuneLog) + RecordsOf([batch])
      ensures IsCarriedOut(batch, settings.gate)
      ensures batch.asked.autotune ==>
        tune.state == EndState(FateOf(batch).value) || (GoesToSwitches(batch) && tune.state == TuneRequested)
      ensures result == Success(true) <==>
        && GoesToSwitches(batch)
        && (batch.asked.antenna.Some? ==> Answered(batch.antenna))
        && (batch.asked.bypass.Some? ==> Answered(batch.bypass))
      ensures result == Success(false) <==> FateOf(batch) == Some(Suppressed)
    {
      hide Permitted, AllPermitted, Wires, ControlWires, Wire, NoRepeats, Spaced, Count, LastAccepted,
           SentBy, SentBefore, Repeated, RecordsOf, IsExchangeOf, AreSwitched, BatchTrace, PieceOf, EnsureCanSend,
           InCooldown, Completed, Disturbed, TuneOpen, SwitchOpen, FollowValid, TuneValid;
      NoWires(settings.gate);
      NoControlWires();
      NoFrequencies([]);
      sends := [];
      Acquire();
      var asked := TakeDesired();
      batch := Batch(asked, None, [], None, [], None, None);
      EmptyBatch(batch, settings.gate);
      if asked.autotune {
        ghost var hz, record, before, exchange, during, polls, polled, at;
        result, hz, record, before, exchange, during, polls, polled, sends, at := ProcessAutotune(port);
        batch := Batch(asked, Some(record), before, exchange, polled, None, None);
        TunedBatch(batch, settings.gate);
        if result != Success(true) {
          return;
        }
      }
      var switched;
      ghost var antenna, bypass;
      switched, antenna, bypass := ProcessSwitches(port, asked);
      SwitchedBatch(batch, antenna, bypass, settings.gate, sends);
      batch := batch.(antenna := antenna, bypass := bypass);
      result := if switched.Success? then Success(true) else Failure(switched.error);
    }

    /** Sends every poll command once and collects what comes back. */
    method ReadPoll(port: SerialPort)
      returns (outcomes: seq<Option<SerialRead>>, ghost pieces: seq<seq<PortEvent>>)
      modifies port
      ensures port.trace == old(port.trace) + Flatten(pieces) && |outcomes| == |pieces| == |POLL|
      ensures forall i :: 0 <= i < |POLL| ==>
        IsExchange(Wire(POLL[i]), outcomes[i], pieces[i]) && IsOutcomeOf(POLL[i], outcomes[i])
    {
      hide Wires, Wire, Answers, ExchangeEvents, IsExchange, Flatten, Trimmed;
      FlattenNothing<PortEvent>();
      outcomes, pieces := [], [];
      for i := 0 to |POLL|
        invariant port.trace == old(port.trace) + Flatten(pieces) && |outcomes| == |pieces| == i
        invariant forall j :: 0 <= j < i ==>
          IsExchange(Wire(POLL[j]), outcomes[j], pieces[j]) && IsOutcomeOf(POLL[j], outcomes[j])
      {
        var result;
        ghost var piece;
        result, piece := SendCommand(port, POLL[i]);
        FlattenGrows(pieces, piece);
        pieces := pieces + [piece];
        outcomes := outcomes + [if result.Success? then Some(result.value) else None];
      }
    }

    /** One status poll: every poll command is sent once, and the answers are applied command
        by command, each answer before the older lines read while waiting for it. `before` is
        the tuner found under the lock. */
    method PollStatus(port: SerialPort)
      returns (outcomes: seq<Option<SerialRead>>, ghost before: TunerState, ghost pieces: seq<seq<PortEvent>>)
      modifies port, this`tuner, this`tune, this`frequencyHz, this`desired, this`found
      ensures port.trace == old(port.trace) + Flatten(pieces)
      ensures |outcomes| == |pieces| == |POLL|
      ensures forall i :: 0 <= i < |POLL| ==>
        IsExchange(Wire(POLL[i]), outcomes[i], pieces[i]) && IsOutcomeOf(POLL[i], outcomes[i])
      ensures Wires(Flatten(pieces)) == ["AN;", "BYP;", "MD;", "TP;", "FLT;", "VSWR;", "VFWD;"]
      ensures Disturbed(old(tuner), before, settings.tgxlPlays)
      ensures tuner == ApplyOutcomes(outcomes, before)
      ensures var arrived := ParseAll(AnsweredLines(outcomes), before);
              && tuner == arrived.(bypass := tuner.bypass)
              && (tuner == arrived <==> !PollOvertakes(outcomes))
    {
      hide Permitted, AllPermitted, Wires, ControlWires, Wire, ReadingOf, Answers, ExchangeEvents, ApplyOutcomes,
           ParseAll, AnsweredLines, PollOvertakes, Disturbed;
      outcomes, pieces := ReadPoll(port);
      PolledWires(outcomes, pieces);
      Acquire();
      before := tuner;
      PollAgainstArrival(POLL, outcomes, tuner);
      ApplyPoll(outcomes);
    }

    method ApplyPoll(outcomes: seq<Option<SerialRead>>)
      modifies this`tuner
      ensures tuner == ApplyOutcomes(outcomes, old(tuner))
    {
      hide ReadingOf, Apply;
      for i := 0 to |outcomes|
        invariant tuner == ApplyOutcomes(outcomes[..i], old(tuner))
      {
        assert outcomes[..i + 1][..i] == outcomes[..i];
        if outcomes[i].Some? {
          var read := outcomes[i].value;
          tuner := ParseResponse(read.response, tuner);
          tuner := ParseLines(read.unsolicited, tuner);
        }
      }
      assert outcomes[..|outcomes|] == outcomes;
    }

    /** Asks for the firmware version and the serial number, and reads what comes. `first` and
        `second` are the tuner found under the lock for the one and for the other. */
    method DiscoverCapabilities(port: SerialPort)
      returns (ghost version: Option<SerialRead>, ghost serial: Option<SerialRead>,
               ghost first: TunerState, ghost second: TunerState,
               ghost asked: seq<PortEvent>, ghost more: seq<PortEvent>)
      modifies port, this`tuner, this`tune, this`frequencyHz, this`desired, this`found
      ensures port.trace == old(port.trace) + (asked + more) && Wires(asked + more) == ["RV;", "SN;"]
      ensures IsExchange("RV;", version, asked) && IsOutcomeOf(Firmware, version)
      ensures IsExchange("SN;", serial, more) && IsOutcomeOf(SerialNumber, serial)
      ensures Disturbed(old(tuner), first, settings.tgxlPlays)
      ensures var read := if version.Some? then ParseResponse(version.value.response, first) else first;
              Disturbed(read, second, settings.tgxlPlays)
      ensures tuner == if serial.Some? then ParseResponse(serial.value.response, second) else second
    {
      hide Wires, ReadingOf, Answers, Apply, IsExchange, Disturbed;
      DisturbedOften();
      var versionRead, serialRead;
      versionRead, asked := SendCommand(port, Firmware);
      version := if versionRead.Success? then Some(versionRead.value) else None;
      first := tuner;
      if versionRead.Success? {
        Acquire();
        first := tuner;
        tuner := ParseResponse(versionRead.value.response, tuner);
      }
      serialRead, more := SendCommand(port, SerialNumber);
      serial := if serialRead.Success? then Some(serialRead.value) else None;
      second := tuner;
      if serialRead.Success? {
        Acquire();
        second := tuner;
        tuner := ParseResponse(serialRead.value.response, tuner);
      }
      WiresConcat(asked, more);
    }

    /** Wakes the tuner with null commands, four times at most: it is awake exactly when some line
        answers one. */
    method Wake(port: SerialPort) returns (awake: bool, ghost tries: nat, ghost events: seq<PortEvent>)
      modifies port
      ensures port.trace == old(port.trace) + events
      ensures 1 <= tries <= 4 && (!awake ==> tries == 4) && Wires(events) == Repeated(";", tries)
      ensures awake <==> Woken(events)
    {
      hide Wires, Lines, Answers;
      NothingHeard(_ => None);
      awake, tries, events := false, 0, [];
      for attempt := 0 to 4
        invariant port.trace == old(port.trace) + events
        invariant tries == attempt && Wires(events) == Repeated(";", tries)
        invariant forall line <- Lines(events) :: !Answers(NullWake, line)
      {
        var result;
        ghost var more;
        result, more := SendCommand(port, NullWake);
        WiresConcat(events, more);
        LinesConcat(events, more);
        tries, events := tries + 1, events + more;
        if result.Success? {
          assert result.value.response in Arrived(result.value);
          return true, tries, events;
        }
      }
    }

    /** Tries one baud rate after another until the tuner wakes: it is connected exactly when some
        line answers a null command, and gives up only after the last rate. */
    method OpenWithDiscovery(port: SerialPort)
      returns (connected: bool, ghost tried: seq<nat>, ghost tries: nat, ghost events: seq<PortEvent>)
      modifies port
      ensures port.trace == old(port.trace) + events
      ensures Wires(events) == Repeated(";", tries)
      ensures connected <==> Woken(events)
      ensures tried <= BaudsToTry(settings.baud) && (!connected ==> tried == BaudsToTry(settings.baud))
    {
      hide Wires, Lines, Answers, Repeated, BaudsToTry;
      NothingHeard(_ => None);
      RepeatedConcat(";", 0, 0);
      connected, tried, tries, events := false, [], 0, [];
      assert Repeated(";", 0) == [];
      var bauds := BaudsToTry(settings.baud);
      for i := 0 to |bauds|
        invariant port.trace == old(port.trace) + events && tried == bauds[..i]
        invariant Wires(events) == Repeated(";", tries)
        invariant forall line <- Lines(events) :: !Answers(NullWake, line)
      {
        tried := tried + [bauds[i]];
        var portOpened: bool := *;
        if portOpened {
          var awake;
          ghost var attempts, more;
          awake, attempts, more := Wake(port);
          RepeatedConcat(";", tries, attempts);
          WiresConcat(events, more);
          LinesConcat(events, more);
          tries, events := tries + attempts, events + more;
          if awake {
            return true, tried, tries, events;
          }
        }
      }
      assert bauds[..|bauds|] == bauds;
    }

    /** Opens the port, and asks for capabilities exactly when it is open. */
    method Connect(port: SerialPort) returns (connected: bool, ghost events: seq<PortEvent>)
      modifies port, this`tuner, this`tune, this`frequencyHz, this`desired, this`found
      ensures port.trace == old(port.trace) + events && IsOpening(events)
      ensures connected <==> Woken(events)
      ensures AllPermitted(settings.gate, Wires(events)) && SentBy(events, FREQUENCY_WIRES, [])
    {
      hide Wires, AllPermitted, SentBy, Woken, IsOpening, Disturbed, ParseResponse, IsExchange;
      ghost var tried, tries, opening;
      connected, tried, tries, opening := OpenWithDiscovery(port);
      ghost var asked: seq<PortEvent> := [];
      if connected {
        ghost var version, serial, first, second, one, other := DiscoverCapabilities(port);
        asked := one + other;
      }
      events := opening + asked;
      Opened(opening, tries, asked);
      OpeningIsQueries(events);
      QueriesPermitted(settings.gate, Wires(events));
      NoFrequencies(events);
    }

    /** One turn of the driver loop: follow, then what is desired, then a poll. */
    method Turn(port: SerialPort) returns (ghost pass: Pass, ghost sends: seq<Send>)
      requires Valid()
      modifies port, this
      ensures Valid() && port.trace == old(port.trace) + PassTrace(pass)
      ensures pass.Turning? && IsPass(pass, settings.gate)
      ensures AllPermitted(settings.gate, Wires(PassTrace(pass)))
      ensures SentBy(PassTrace(pass), FREQUENCY_WIRES, sends)
      ensures followLog == old(followLog) + Completed(sends)
      ensures tuneLog == old(tuneLog) + RecordsOf([pass.batch])
    {
      hide AllPermitted, Wires, FollowStep, ControlWires, ApplyOutcomes, IsOutcomeOf, IsCarriedOut, SentBy,
           NoRepeats, FollowSends, FrequencyWire, Valid, Flatten, RecordsOf, PollOvertakes, ParseAll,
           AnsweredLines, Completed, Wire, BatchTrace, Disturbed, GoesToSwitches, FateOf, IsExchange, IsPass,
           Answered;
      ghost var tuning, hz, outcome, followed, more, batch, before, polled;
      tuning, hz, outcome, sends, followed := ProcessFrequencyFollow(port);
      var result, outcomes;
      result, batch, more := ProcessDesiredControl(port);
      outcomes, before, polled := PollStatus(port);
      pass := Turning(followed, batch, Flatten(polled));
      TurnIsPass(followed, sends, batch, more, Flatten(polled), settings.gate);
      sends := sends + more;
    }

    /** One pass of the loop: a turn if the port is open, and otherwise an attempt to open it. */
    method RunPass(port: SerialPort, open: bool) returns (connected: bool, ghost pass: Pass, ghost sends: seq<Send>)
      requires Valid()
      modifies port, this
      ensures Valid() && port.trace == old(port.trace) + PassTrace(pass)
      ensures IsPass(pass, settings.gate) && (pass.Turning? <==> open) && (connected <==> LeavesOpen(pass))
      ensures AllPermitted(settings.gate, Wires(PassTrace(pass)))
      ensures SentBy(PassTrace(pass), FREQUENCY_WIRES, sends)
      ensures followLog == old(followLog) + Completed(sends)
      ensures tuneLog == old(tuneLog) + (if pass.Turning? then RecordsOf([pass.batch]) else [])
    {
      hide AllPermitted, Wires, Valid, SentBy, RecordsOf, Completed, IsPass, PassTrace, IsOpening, Woken;
      NoWires(settings.gate);
      NoFrequencies([]);
      connected := open;
      if open {
        pass, sends := Turn(port);
      } else {
        ghost var events;
        connected, events := Connect(port);
        pass, sends := Opening(events), [];
        OpeningIsPass(events, settings.gate);
      }
    }

    /** A run of any length, whatever the peer sends and whatever is desired. Only permitted
        wires are transmitted. The trace is that of the passes of the loop, and the tune, antenna
        and bypass commands on it are exactly those that their batches transmit: each request
        taken that the gate lets, unless its batch was dropped before. Every tune request taken
        has one record, the three counters add the records up, and a request is suppressed
        exactly inside the cooldown of the one accepted before it. The frequencies on the trace
        are those of a list of sends, of which the completed ones are the follow record: no two
        consecutive ones are the same. */
    method RunSerialLoop(port: SerialPort, rounds: nat)
      returns (ghost passes: seq<Pass>, ghost sends: seq<Send>)
      requires Valid()
      modifies port, this
      ensures Valid() && port.trace == old(port.trace) + RunTrace(passes)
      ensures AllPermitted(settings.gate, Wires(RunTrace(passes)))
      ensures forall p <- passes :: IsPass(p, settings.gate)
      ensures |passes| == rounds && OpensFirst(passes)
      ensures forall b <- BatchesOf(passes) :: IsCarriedOut(b, settings.gate)
      ensures ControlWires(Wires(RunTrace(passes))) == CarriedBy(BatchesOf(passes))
      ensures tuneLog == old(tuneLog) + RecordsOf(BatchesOf(passes)) && Spaced(tuneLog)
      ensures |RecordsOf(BatchesOf(passes))| == TunesAsked(BatchesOf(passes))
      ensures |tuneLog| <= U64_MAX ==>
        controls.tuneExecuted + controls.tuneFailed + controls.duplicateSuppressed == |tuneLog|
      ensures SentBy(RunTrace(passes), FREQUENCY_WIRES, sends)
      ensures followLog == old(followLog) + Completed(sends) && NoRepeats(followLog)
    {
      hide AllPermitted, Wires, Valid, ControlWires, IsCarriedOut, SentBy, Spaced, NoRepeats, RecordsOf,
           CarriedBy, Completed, TunesAsked, IsPass, PassTrace, BatchesOf, RunTrace, IsRun, LeavesOpen;
      NoPasses(settings.gate);
      passes, sends := [], [];
      var open := false;
      for round := 0 to rounds
        invariant Valid() && port.trace == old(port.trace) + RunTrace(passes)
        invariant IsRun(passes, sends, settings.gate) && |passes| == round && OpensFirst(passes)
        invariant open <==> passes != [] && LeavesOpen(passes[|passes| - 1])
        invariant tuneLog == old(tuneLog) + RecordsOf(BatchesOf(passes))
        invariant followLog == old(followLog) + Completed(sends)
      {
        ghost var pass, sent;
        open, pass, sent := RunPass(port, open);
        RunGrows(passes, sends, pass, sent, settings.gate);
        OpensFirstGrows(passes, pass);
        passes, sends := passes + [pass], sends + sent;
      }
      ValidSays();
      RunSays(passes, sends, settings.gate);
    }

    lemma ValidSays()
      requires Valid()
      ensures Spaced(tuneLog) && NoRepeats(followLog)
      ensures |tuneLog| <= U64_MAX ==>
        controls.tuneExecuted + controls.tuneFailed + controls.duplicateSuppressed == |tuneLog|
    {
      FatesConserve(tuneLog);
    }
  }

  const DISCOVERY_BAUDS: seq<nat> := [38_400, 19_200, 9600, 4800]

  /** The configured rate first, then the others without repeating it. */
  function BaudsToTry(baud: nat): seq<nat> {
    [baud] + OtherBauds(DISCOVERY_BAUDS, baud)
  }

  function OtherBauds(bauds: seq<nat>, baud: nat): seq<nat> {
    if bauds == [] then []
    else (if bauds[0] != baud then [bauds[0]] else []) + OtherBauds(bauds[1..], baud)
  }

  /** The configured rate is tried first, and it and every known rate once. */
  lemma BaudsAreTriedOnce(baud: nat)
    ensures var bauds := BaudsToTry(baud);
            && bauds[0] == baud && (forall b :: b in bauds <==> b == baud || b in {38_400, 19_200, 9600, 4800})
            && forall i, j :: 0 <= i < j < |bauds| ==> bauds[i] != bauds[j]
  {
    OthersAreOnce(DISCOVERY_BAUDS, baud);
    var others := OtherBauds(DISCOVERY_BAUDS, baud);
    assert forall b :: b in DISCOVERY_BAUDS <==> b in {38_400, 19_200, 9600, 4800};
    assert forall b :: b in [baud] + others <==> b == baud || b in others;
    assert forall j :: 0 <= j < |others| ==> others[j] in others;
  }

  lemma {:induction false} OthersAreOnce(bauds: seq<nat>, baud: nat)
    requires forall i, j :: 0 <= i < j < |bauds| ==> bauds[i] != bauds[j]
    ensures var others := OtherBauds(bauds, baud);
            && (forall b :: b in others <==> b in bauds && b != baud)
            && forall i, j :: 0 <= i < j < |others| ==> others[i] != others[j]
  {
    if bauds != [] {
      OthersAreOnce(bauds[1..], baud);
      assert forall b :: b in bauds <==> b == bauds[0] || b in bauds[1..];
      assert forall b <- bauds[1..] :: b != bauds[0];
      var rest := OtherBauds(bauds[1..], baud);
      assert forall j :: 0 <= j < |rest| ==> rest[j] in rest;
    }
  }

  /** The counters after the gate decided about a command: a dry run and a missing permission
      for RF are counted, a missing permission for control is not. */
  function RefusalCounted(k: Controls, refusal: Option<Refusal>): Controls {
    match refusal
    case Some(BlockedByDryRun) => k.(blockedByDryRun := SaturatingAdd(k.blockedByDryRun, 1))
    case Some(RequiresAllowRfRisk) => k.(blockedByRfRisk := SaturatingAdd(k.blockedByRfRisk, 1))
    case Some(RequiresAllowControl) => k
    case None => k
  }

  lemma RefusalKeepsFates()
    ensures forall k: Controls, refusal :: var r := RefusalCounted(k, refusal);
      && r.tuneExecuted == k.tuneExecuted && r.tuneFailed == k.tuneFailed
      && r.duplicateSuppressed == k.duplicateSuppressed
  {
  }
}
