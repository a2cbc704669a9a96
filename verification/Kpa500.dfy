/** The KPA500 amplifier driver: a loop of band follow, desired control and polling against
    an arbitrary serial peer, while other tasks change the band and what is desired. */
module Kpa500 {
  import opened Sequences
  import opened Text
  import opened SafetyGate
  import opened Serial
  import opened KpaLines
  import opened KpaHistory
  import opened KpaWires
  import opened KpaFollow
  import opened KpaControl

  /** `strictStartup` says that the PGXL server plays out a startup, over a delay, whenever a
      client connects. */
  datatype Settings = Settings(gate: Gate, followFlexBand: bool, strictStartup: bool)

  // ---------------------------------------------------------------- the driver

  /** What other tasks have left for the driver: the request pending, the radio's band, and
      whether it tunes. */
  datatype Found = Found(desired: Option<bool>, band: Band, tuning: bool)

  class Kpa500Driver {
    const settings: Settings
    // Written by other tasks.
    var band: Band
    var tuning: bool
    var desiredOperate: Option<bool>
    // Written by this driver, and by strict startups.
    var amp: Amp
    // Written by this driver only.
    var follow: FollowContext
    var blockedByDryRun: nat
    /** The state changes handed to the transition log. */
    var transitions: seq<Change>
    // History.
    ghost var moves: seq<Move>
    ghost var followLog: seq<string>
    // What other tasks had left each time the lock was taken.
    ghost var found: seq<Found>

    constructor (settings: Settings)
      ensures Valid() && this.settings == settings && amp == INITIAL && moves == [] && followLog == []
    {
      StartsAccounted();
      this.settings := settings;
      band, tuning, desiredOperate := Unknown, false, None;
      amp := INITIAL;
      follow := FollowContext(None, None, None, None, None, 0, 0, 0, 0);
      blockedByDryRun, transitions := 0, [];
      moves, followLog, found := [], [], [];
    }

    ghost predicate Valid()
      reads this`amp, this`transitions, this`moves, this`follow, this`followLog
    {
      && StateValid()
      && FollowValid()
    }

    /** The history accounts for the present state and for the transition log. */
    ghost predicate StateValid()
      reads this`amp, this`transitions, this`moves
    {
      && Accounts(moves, amp, transitions)
      && (!settings.strictStartup ==> CountOf(moves, PoweredUp) == 0)
    }

    /** No wire follows itself, and the recorded wire is the last one sent. */
    ghost predicate FollowValid()
      reads this`follow, this`followLog
    {
      && NoRepeats(followLog)
      && follow.wire == (if followLog == [] then None else Some(followLog[|followLog| - 1]))
    }

    /** Taking the shared lock: other tasks may have run since it was last held. */
    method Acquire()
      requires StateValid()
      modifies this`band, this`tuning, this`desiredOperate, this`found, this`amp, this`moves
      ensures StateValid() && Disturbed(old(amp), amp) && found == old(found) + [Found(desiredOperate, band, tuning)]
      ensures !settings.strictStartup ==> amp == old(amp) && moves == old(moves)
    {
      hide Accounts;
      band, tuning, desiredOperate := *, *, *;
      found := found + [Found(desiredOperate, band, tuning)];
      if settings.strictStartup {
        StrictStartups();
      }
    }

    /** Any number of strict startups that begin or end. */
    method StrictStartups()
      requires StateValid() && settings.strictStartup
      modifies this`amp, this`moves
      ensures StateValid() && Disturbed(old(amp), amp)
    {
      hide Accounts, Linked, LoggedOf, ChangesOf, Empties;
      AccountsPlausible(moves, amp, transitions);
      var steps: nat := *;
      while steps > 0
        invariant StateValid() && Disturbed(old(amp), amp)
      {
        steps := steps - 1;
        AccountsPlausible(moves, amp, transitions);
        var begins: bool := *;
        if begins {
          PowerUpKeeps(moves, amp, transitions);
          moves := moves + [Move(Change(amp.state, PowerUp), PoweredUp)];
          amp := amp.(state := PowerUp, fault := None);
        } else if amp.state == PowerUp {
          StartUpKeeps(moves, amp, transitions);
          moves := moves + [Move(Change(PowerUp, Standby), StartedUp)];
          amp := amp.(state := Standby);
        }
      }
    }

    /** Sends a command of the map and reads its answer. */
    method SendCommand(port: SerialPort, c: Command)
      returns (result: Result<SerialRead, SendError>, ghost events: seq<PortEvent>)
      modifies port
      ensures port.trace == old(port.trace) + events && Wires(events) == [Wire(c)]
      ensures IsExchange(Wire(c), if result.Success? then Some(result.value) else None, events)
      ensures result.Success? ==> IsOutcomeOf(c, Some(result.value))
    {
      hide Answers, Wire;
      result, events := Exchange(port, Wire(c), line => Answers(c, line));
      if result.Success? {
        ExchangeReads(Wire(c), Arrived(result.value), []);
        assert Lines(events) == Arrived(result.value);
        assert result.value.response in Arrived(result.value);
        assert forall line <- result.value.unsolicited :: line in Arrived(result.value);
      }
    }

    /** The locked decision of a follow: the band to transmit, if any. `busy` and `seen` are
        what the decision saw. */
    method DecideFollow() returns (send: Option<Band>, ghost busy: bool, ghost seen: Band)
      requires StateValid()
      modifies this`band, this`tuning, this`desiredOperate, this`found, this`amp, this`moves, this`follow
      ensures StateValid() && follow.wire == old(follow).wire
      ensures busy == tuning && seen == band && found == old(found) + [Found(desiredOperate, band, tuning)]
      ensures send.Some? <==> FollowSends(old(follow), amp, busy, seen, settings.gate)
      ensures send == (if FollowSends(old(follow), amp, busy, seen, settings.gate) then Some(seen) else None)
      ensures send.None? ==> follow == FollowStep(old(follow), amp, busy, seen, settings.gate, None)
      ensures send.Some? ==> follow == old(follow)
    {
      hide StateValid;
      Acquire();
      send, busy, seen := None, tuning, band;
      var wire := BandWire(band);
      if wire.None? {
        follow := follow.(skipped := SaturatingAdd(follow.skipped, 1));
        return;
      }
      if follow.wire == wire {
        return;
      }
      if amp.state == TransmitA || amp.state == TransmitB || tuning {
        follow := follow.(skipped := SaturatingAdd(follow.skipped, 1));
        return;
      }
      if settings.gate.dryRun || !settings.gate.allowControl {
        follow := follow.(skipped := SaturatingAdd(follow.skipped, 1));
        return;
      }
      send := Some(band);
    }

    /** Sends a band, confirmed. */
    method SendBand(port: SerialPort, band: Band)
      returns (result: Result<Confirmation, SendError>, ghost send: Send, ghost drained: seq<string>,
               ghost drain: seq<PortEvent>, ghost body: seq<PortEvent>)
      requires band != Unknown && FollowGateOpen(settings.gate)
      modifies port
      ensures port.trace == old(port.trace) + drain + body && IsDrain(drained, drain)
      ensures AllPermitted(settings.gate, Wires(body)) && ControlWires(Wires(body)) == []
      ensures BandWire(band) == Some(send.wire) && (send.completed <==> result.Success?)
      ensures SentBy(body, BAND_WIRES, [send])
      ensures result.Failure? ==> Broken in body
      ensures result.Success? ==>
        ReportsBand(result.value, band, drained, body) && ReportsSend(result.value, send)
    {
      hide EchoedBand, Wires, Permitted, AllPermitted, Repeated, BandOrder, ControlWires, SentBy, BandWire,
           ReportsTrace, IsDrain, FirstLines, LastLines;
      BandHasWire(band);
      var wire := BandWire(band).value;
      BandWireReadsBack(band);
      BandWirePermitted(band, settings.gate);
      BandWireIsNotControl(band);
      RepeatedWires(wire, 1, settings.gate);
      RepeatedWires(wire, 2, settings.gate);
      result, drained, drain, body := SendConfirmed(port, wire, EchoedBand, _ => false,
        "timeout_waiting_for_exact_bn_echo");
      send := Send(wire, if Wires(body) == Repeated(wire, 1) then 1 else 2, result.Success?);
      OneSend(body, BAND_WIRES, send);
      if result.Success? {
        ReportsRetries(result.value, wire, EchoedBand, drained, body);
      }
    }

    /** Transmits a band and records what was followed. */
    method TransmitBand(port: SerialPort, band: Band)
      returns (outcome: Option<Confirmation>, ghost send: Send, ghost drained: seq<string>,
               ghost drain: seq<PortEvent>, ghost body: seq<PortEvent>)
      requires StateValid() && FollowValid() && band != Unknown && FollowGateOpen(settings.gate)
      requires follow.wire != BandWire(band)
      modifies port, this`band, this`tuning, this`desiredOperate, this`found, this`amp, this`moves, this`follow,
               this`followLog
      ensures StateValid() && FollowValid() && port.trace == old(port.trace) + drain + body
      ensures IsDrain(drained, drain) && old(found) <= found
      ensures AllPermitted(settings.gate, Wires(body)) && ControlWires(Wires(body)) == []
      ensures BandWire(band) == Some(send.wire) && (send.completed <==> outcome.Some?)
      ensures SentBy(body, BAND_WIRES, [send]) && followLog == old(followLog) + Completed([send])
      ensures outcome.None? ==> Broken in body && follow == Skipped(old(follow))
      ensures outcome.Some? ==>
        && ReportsBand(outcome.value, band, drained, body) && ReportsSend(outcome.value, send)
        && follow == Followed(old(follow), band, send.wire, outcome.value)
    {
      hide Wires, AllPermitted, BandOrder, ControlWires, SentBy, StateValid, BandWire, ReportsTrace, IsDrain,
           NoRepeats, Disturbed, Completed, EchoedBand, Permitted, Repeated, Transmissions,
           ReportsBand, ReportsSend, Accounts, Followed, FollowValid;
      BandHasWire(band);
      var result;
      result, send, drained, drain, body := SendBand(port, band);
      OneCompleted(send);
      Acquire();
      if result.Failure? {
        CountSkipped();
        return None, send, drained, drain, body;
      }
      outcome := Some(result.value);
      RecordFollow(band, result.value);
    }

    /** Counts a follow whose transmission failed. */
    method CountSkipped()
      requires FollowValid()
      modifies this`follow
      ensures FollowValid() && follow == Skipped(old(follow))
    {
      follow := follow.(skipped := SaturatingAdd(follow.skipped, 1));
    }

    /** Records a band that was transmitted. */
    method RecordFollow(band: Band, c: Confirmation)
      requires FollowValid() && BandWire(band).Some? && follow.wire != BandWire(band)
      modifies this`follow, this`followLog
      ensures FollowValid() && followLog == old(followLog) + [BandWire(band).value]
      ensures follow == Followed(old(follow), band, BandWire(band).value, c)
    {
      hide BandWire, NoRepeats;
      var wire := BandWire(band).value;
      NoRepeatsGrows(followLog, wire);
      follow := follow.(band := Some(band), wire := Some(wire), requested := Some(c.requested),
                        confirmed := c.confirmed, matched := Some(c.matched),
                        stale := SaturatingAdd(follow.stale, c.stale),
                        retries := SaturatingAdd(follow.retries, c.retries),
                        sent := SaturatingAdd(follow.sent, 1));
      followLog := followLog + [wire];
    }

    /** Follows the radio's band. `decided` is the amplifier the decision saw, and `outcome` what
        became of a transmission. */
    method ProcessBandFollow(port: SerialPort)
      returns (ghost decided: Amp, ghost busy: bool, ghost seen: Band, ghost outcome: Option<Confirmation>,
               ghost sends: seq<Send>, ghost events: seq<PortEvent>)
      requires Valid()
      modifies port, this`band, this`tuning, this`desiredOperate, this`found, this`amp, this`moves, this`follow,
               this`followLog
      ensures Valid() && port.trace == old(port.trace) + events
      ensures AllPermitted(settings.gate, Wires(events)) && ControlWires(Wires(events)) == []
      ensures Plausible(decided)
      ensures settings.followFlexBand ==>
        && |old(found)| < |found| && found[|old(found)|].band == seen && found[|old(found)|].tuning == busy
        && follow == FollowStep(old(follow), decided, busy, seen, settings.gate, outcome)
        && (if FollowSends(old(follow), decided, busy, seen, settings.gate)
            then |sends| == 1 && sends[0].wire == BandWire(seen).value && sends[0].completed == outcome.Some?
            else sends == [] && events == [])
      ensures outcome.Some? ==>
        && settings.followFlexBand && FollowSends(old(follow), decided, busy, seen, settings.gate)
        && outcome.value.requested == BandOrder(seen) && ReportsSend(outcome.value, sends[0])
      ensures SentBy(events, BAND_WIRES, sends) && followLog == old(followLog) + Completed(sends)
      ensures !settings.followFlexBand ==> events == [] && sends == [] && follow == old(follow)
    {
      hide Wires, AllPermitted, NoRepeats, ReportsTrace, BandNumber, ControlWires, SentBy, Accounts, Plausible,
           IsDrain, StateValid, FollowStep, FollowSends, Followed, Disturbed, BandOrder, ReportsSend;
      NoWires(settings.gate);
      NoControlsAmong([]);
      NoBands([]);
      ValidIsPlausible();
      events, sends, decided, busy, seen, outcome := [], [], amp, tuning, band, None;
      if !settings.followFlexBand {
        return;
      }
      var send;
      send, busy, seen := DecideFollow();
      decided := amp;
      ValidIsPlausible();
      if send.None? {
        return;
      }
      FollowStepSends(old(follow), decided, busy, seen, settings.gate);
      var confirmed;
      ghost var one, drained, drain, body;
      confirmed, one, drained, drain, body := TransmitBand(port, send.value);
      TraceWires(drained, drain, body);
      SameWiresSent(drain + body, body, BAND_WIRES, [one]);
      outcome, sends, events := confirmed, [one], drain + body;
    }

    /** Sends a control that has no acknowledgement and asks for the state afterwards. `answer` is
        what the query on the trace got, and `before` the amplifier it was read into. */
    method SendAckless(port: SerialPort, operate: bool)
      returns (result: Result<Verification, ControlError>, ghost before: Amp,
               ghost answer: Option<SerialRead>, ghost events: seq<PortEvent>)
      requires StateValid()
      modifies port, this`band, this`tuning, this`desiredOperate, this`found, this`amp, this`moves
      ensures StateValid() && port.trace == old(port.trace) + events && old(found) <= found
      ensures AllPermitted(settings.gate, Wires(events)) && SentBy(events, BAND_WIRES, [])
      ensures IsControlled(settings.gate, operate, result, answer, events)
      ensures Disturbed(old(amp), before) && (!settings.strictStartup ==> before == old(amp))
      ensures result == Success(Verified) ==> answer.Some?
      ensures amp == if result == Success(Verified) then ParseResponse(answer.value.response, before) else before
    {
      hide Wires, Wire, AllPermitted, ReadingOf, Answers, StateValid, SentBy, EnsureCanSend, IsExchange,
           ParseResponse, Trimmed;
      AskedCommand(settings.gate, operate);
      NoWires(settings.gate);
      NoBands([]);
      events, answer, before := [], None, amp;
      var refusal := EnsureCanSend(settings.gate, SafetyOf(ControlCommand(operate)));
      if refusal.Some? {
        return Failure(Refused(refusal.value)), before, answer, events;
      }
      var ok;
      ok, events := port.Write(Wire(ControlCommand(operate)));
      ControlWirePermitted(operate, settings.gate);
      WriteWires(Wire(ControlCommand(operate)), ok);
      NoBands(events);
      if !ok {
        return Failure(SerialFailure(WriteFailed)), before, answer, events;
      }
      var status;
      ghost var query;
      status, query := SendCommand(port, OperateStatus);
      WiresConcat(events, query);
      ReadOnlyWirePermitted(OperateStatus, settings.gate);
      AllPermittedConcat(settings.gate, Wires(events), Wires(query));
      NoBands(query);
      SentByConcat(events, [], query, [], BAND_WIRES);
      assert (events + query)[1..] == query;
      events := events + query;
      if status.Failure? {
        return Success(Timeout), before, answer, events;
      }
      answer := Some(status.value);
      VerifiesExactly(status.value.response);
      if Verifies(status.value.response, operate) {
        Acquire();
        before := amp;
        UpdateUnlogged(status.value.response);
        result := Success(Verified);
      } else {
        result := Success(VerifyFailed);
      }
    }

    /** Reads a line into the amplifier without telling the transition log. */
    method UpdateUnlogged(line: string)
      requires StateValid()
      modifies this`amp, this`moves
      ensures StateValid() && amp == ParseResponse(line, old(amp))
      ensures moves == old(moves)
        + (if amp.state != old(amp.state) then [Move(Change(old(amp.state), amp.state), Controlled)] else [])
    {
      hide ReadingOf, Accounts, ParseResponse;
      ControlledLineKeeps(moves, amp, transitions, line);
      ghost var before := amp.state;
      amp := ParseResponse(line, amp);
      if amp.state != before {
        OtherCause(moves, Move(Change(before, amp.state), Controlled));
        moves := moves + [Move(Change(before, amp.state), Controlled)];
      }
    }

    /** Carries out an operate or standby request. A dry run is counted before the gate refuses. */
    method CarryOutControl(port: SerialPort, operate: bool)
      returns (result: Result<Verification, ControlError>, ghost answer: Option<SerialRead>,
               ghost events: seq<PortEvent>)
      requires StateValid()
      modifies port, this`band, this`tuning, this`desiredOperate, this`found, this`amp, this`moves,
               this`blockedByDryRun
      ensures StateValid() && port.trace == old(port.trace) + events && old(found) <= found
      ensures AllPermitted(settings.gate, Wires(events)) && SentBy(events, BAND_WIRES, [])
      ensures Refusing(settings.gate, operate).Some? <==> events == []
      ensures IsControlled(settings.gate, operate, result, answer, events)
      ensures result.Failure? ==>
        Disturbed(old(amp), amp) && (!settings.strictStartup ==> amp == old(amp))
      ensures blockedByDryRun == if settings.gate.dryRun then SaturatingAdd(old(blockedByDryRun), 1)
                                 else old(blockedByDryRun)
    {
      hide Wires, Wire, AllPermitted, Answers, StateValid, SentBy, Disturbed, ParseResponse, IsControlled, Refusing,
           SaturatingAdd, IsExchange, IsOutcomeOf;
      DisturbedOften();
      if settings.gate.dryRun && SafetyOf(ControlCommand(operate)) != ReadOnly {
        Acquire();
        blockedByDryRun := SaturatingAdd(blockedByDryRun, 1);
      }
      ghost var before;
      result, before, answer, events := SendAckless(port, operate);
      OnlyRefusedLeavesNothing(settings.gate, operate, result, answer, events);
      if result.Success? {
        Acquire();
      }
    }

    /** Takes the pending operate or standby request. */
    method TakeDesired() returns (taken: Option<bool>)
      modifies this`desiredOperate
      ensures taken == old(desiredOperate) && desiredOperate == None
    {
      taken := desiredOperate;
      desiredOperate := None;
    }

    /** Carries out the request found pending, once. Its control is transmitted exactly when the
        gate allows it, whatever becomes of it. */
    method ProcessDesiredControl(port: SerialPort)
      returns (result: Result<Option<Verification>, ControlError>, ghost request: Request)
      requires StateValid()
      modifies port, this`band, this`tuning, this`desiredOperate, this`found, this`amp, this`moves,
               this`blockedByDryRun
      ensures StateValid() && port.trace == old(port.trace) + request.events
      ensures |old(found)| < |found| && old(found) <= found && found[|old(found)|].desired == request.taken
      ensures AllPermitted(settings.gate, Wires(request.events)) && SentBy(request.events, BAND_WIRES, [])
      ensures IsServed(request, settings.gate)
      ensures result == if request.taken.None? then Success(None)
                        else if request.result.Success? then Success(Some(request.result.value))
                        else Failure(request.result.error)
      ensures request.taken.None? || result.Failure? ==> Disturbed(old(amp), amp)
      ensures (request.taken.None? || result.Failure?) && !settings.strictStartup ==> amp == old(amp)
      ensures blockedByDryRun == if request.taken.Some? && settings.gate.dryRun
                                 then SaturatingAdd(old(blockedByDryRun), 1) else old(blockedByDryRun)
    {
      hide Wires, Wire, AllPermitted, Answers, StateValid, SentBy, Disturbed, ControlWires, Refusing, IsExchange,
           IsOutcomeOf, IsControlled;
      DisturbedOften();
      NoWires(settings.gate);
      NoBands([]);
      Acquire();
      var desired := TakeDesired();
      request := Request(desired, Success(Timeout), None, []);
      if desired.None? {
        return Success(None), request;
      }
      var sent;
      ghost var answer, events;
      sent, answer, events := CarryOutControl(port, desired.value);
      request := Request(desired, sent, answer, events);
      result := if sent.Success? then Success(Some(sent.value)) else Failure(sent.error);
    }

    /** Reads one line of a poll, and tells the transition log of a difference in state or
        flag. */
    method ApplyLine(line: string)
      requires StateValid()
      modifies this`amp, this`transitions, this`moves
      ensures StateValid() && amp == ParseResponse(line, old(amp))
      ensures transitions == old(transitions)
        + (if Differs(old(amp), amp) then [Change(old(amp.state), amp.state)] else [])
    {
      hide ReadingOf, Recorded, Accounts, ParseResponse, Differs;
      RecordedIffDiffers(line, amp);
      PolledLineKeeps(moves, amp, transitions, line);
      var before := amp;
      amp := ParseResponse(line, amp);
      if Recorded(line, before, amp) {
        OtherCause(moves, Move(Change(before.state, amp.state), Polled));
        transitions := transitions + [Change(before.state, amp.state)];
        moves := moves + [Move(Change(before.state, amp.state), Polled)];
      }
    }

    method ApplyLines(lines: seq<string>)
      requires StateValid()
      modifies this`amp, this`transitions, this`moves
      ensures StateValid() && amp == ParseAll(lines, old(amp))
      ensures transitions == old(transitions) + ChangePoints(Readings(lines), old(amp))
    {
      hide ReadingOf, Apply, StateValid;
      for i := 0 to |lines|
        invariant StateValid() && amp == ParseAll(lines[..i], old(amp))
        invariant transitions == old(transitions) + ChangePoints(Readings(lines[..i]), old(amp))
      {
        assert Readings(lines[..i + 1])[..i] == Readings(lines[..i]);
        ApplyLine(lines[i]);
      }
      assert lines[..|lines|] == lines;
    }

    /** Reads everything that came back, in arrival order. */
    method ApplyPoll(outcomes: seq<Option<SerialRead>>)
      requires StateValid()
      modifies this`amp, this`transitions, this`moves
      ensures StateValid() && amp == ParseAll(AnsweredLines(outcomes), old(amp))
      ensures transitions == old(transitions) + ChangePoints(Readings(AnsweredLines(outcomes)), old(amp))
    {
      hide ReadingOf, Apply, StateValid, ApplyAll, ChangePoints, AnsweredLines;
      NothingAnswered(amp);
      for i := 0 to |outcomes|
        invariant StateValid() && amp == ParseAll(AnsweredLines(outcomes[..i]), old(amp))
        invariant transitions == old(transitions) + ChangePoints(Readings(AnsweredLines(outcomes[..i])), old(amp))
      {
        AnsweredGrows(outcomes, i, old(amp));
        if outcomes[i].Some? {
          ApplyLines(Arrived(outcomes[i].value));
        }
      }
      assert outcomes[..|outcomes|] == outcomes;
    }

    /** Sends every poll command once and collects what comes back. */
    method ReadPoll(port: SerialPort)
      returns (outcomes: seq<Option<SerialRead>>, ghost pieces: seq<seq<PortEvent>>)
      modifies port
      ensures port.trace == old(port.trace) + Flatten(pieces) && |outcomes| == |pieces| == |POLL|
      ensures forall i :: 0 <= i < |POLL| ==>
        IsExchange(Wire(POLL[i]), outcomes[i], pieces[i]) && IsOutcomeOf(POLL[i], outcomes[i])
    {
      hide Wires, Wire, Answers, ExchangeEvents, IsExchange, Flatten, Trimmed;
      FlattenNothing<PortEvent>();
      outcomes, pieces := [], [];
      for i := 0 to |POLL|
        invariant port.trace == old(port.trace) + Flatten(pieces) && |outcomes| == |pieces| == i
        invariant forall j :: 0 <= j < i ==>
          IsExchange(Wire(POLL[j]), outcomes[j], pieces[j]) && IsOutcomeOf(POLL[j], outcomes[j])
      {
        var result;
        ghost var piece;
        result, piece := SendCommand(port, POLL[i]);
        FlattenGrows(pieces, piece);
        pieces := pieces + [piece];
        outcomes := outcomes + [if result.Success? then Some(result.value) else None];
      }
    }

    /** One status poll: the telemetry afterwards is the fold of the parser over every line
        read for an answered command, in arrival order, and the transition log is told of
        exactly the points where that fold changes the state or the flag. `before` is the
        amplifier as the poll found it when it took the lock. */
    method PollStatus(port: SerialPort)
      returns (outcomes: seq<Option<SerialRead>>, ghost before: Amp, ghost pieces: seq<seq<PortEvent>>)
      requires StateValid()
      modifies port, this`band, this`tuning, this`desiredOperate, this`found, this`amp, this`transitions, this`moves
      ensures StateValid() && port.trace == old(port.trace) + Flatten(pieces)
      ensures |outcomes| == |pieces| == |POLL|
      ensures forall i :: 0 <= i < |POLL| ==>
        IsExchange(Wire(POLL[i]), outcomes[i], pieces[i]) && IsOutcomeOf(POLL[i], outcomes[i])
      ensures Wires(Flatten(pieces)) == ["^OS;", "^WS;", "^TM;", "^VI;", "^FL;"]
      ensures Disturbed(old(amp), before) && (!settings.strictStartup ==> before == old(amp))
      ensures amp == ParseAll(AnsweredLines(outcomes), before)
      ensures transitions == old(transitions) + ChangePoints(Readings(AnsweredLines(outcomes)), before)
      ensures outcomes[4].Some? && ReadingOf(outcomes[4].value.response).FaultIs? ==>
        && (amp.state == Fault <==> amp.fault.Some?)
        && (amp.fault.None? ==> amp.state == Settle(amp.operate))
    {
      hide Permitted, AllPermitted, Wires, Wire, ReadingOf, Answers, ExchangeEvents, StateValid,
           ParseAll, ChangePoints, ControlWires;
      outcomes, pieces := ReadPoll(port);
      PolledWires(outcomes, pieces);
      Acquire();
      before := amp;
      ApplyPoll(outcomes);
      FaultReportEndsPoll(outcomes, before);
    }

    /** Asks one question about the amplifier that has no bearing on its state. */
    method AskCapability(port: SerialPort, c: Command)
      returns (ghost answer: Option<SerialRead>, ghost before: Amp, ghost events: seq<PortEvent>)
      requires StateValid() && (c == Firmware || c == SerialNumber)
      modifies port, this`band, this`tuning, this`desiredOperate, this`found, this`amp, this`moves
      ensures StateValid() && port.trace == old(port.trace) + events && Wires(events) == [Wire(c)]
      ensures IsExchange(Wire(c), answer, events) && IsOutcomeOf(c, answer)
      ensures Disturbed(old(amp), before)
      ensures amp == if answer.Some? then ParseResponse(answer.value.response, before) else before
      ensures !settings.strictStartup ==> amp.state == old(amp.state)
    {
      hide Wires, ReadingOf, Answers, StateValid, ParseResponse, IsExchange, Disturbed;
      DisturbedOften();
      var read;
      read, events := SendCommand(port, c);
      answer, before := if read.Success? then Some(read.value) else None, amp;
      if read.Success? {
        Acquire();
        before := amp;
        CapabilityKeepsState(c, read.value.response, amp);
        UpdateUnlogged(read.value.response);
      }
    }

    /** Asks for the firmware version and the serial number, and reads what comes. `first` and
        `second` are the amplifier found under the lock for the one and for the other. */
    method DiscoverCapabilities(port: SerialPort)
      returns (ghost version: Option<SerialRead>, ghost serial: Option<SerialRead>, ghost first: Amp,
               ghost second: Amp, ghost events: seq<PortEvent>)
      requires StateValid()
      modifies port, this`band, this`tuning, this`desiredOperate, this`found, this`amp, this`moves
      ensures StateValid() && port.trace == old(port.trace) + events
      ensures Wires(events) == ["^RVM;", "^SN;"]
      ensures AllPermitted(settings.gate, Wires(events)) && ControlWires(Wires(events)) == []
      ensures !settings.strictStartup ==> amp.state == old(amp.state)
      ensures SentBy(events, BAND_WIRES, [])
      ensures Disturbed(old(amp), first) && IsOutcomeOf(Firmware, version) && IsOutcomeOf(SerialNumber, serial)
      ensures Disturbed(if version.Some? then ParseResponse(version.value.response, first) else first, second)
      ensures amp == if serial.Some? then ParseResponse(serial.value.response, second) else second
    {
      hide Wires, SentBy, StateValid, AllPermitted, ControlWires, Disturbed, ParseResponse, Answers, IsExchange;
      version, first, events := AskCapability(port, Firmware);
      ghost var more;
      serial, second, more := AskCapability(port, SerialNumber);
      WiresConcat(events, more);
      events := events + more;
      QueryIsNotControl("^RVM;");
      QueryIsNotControl("^SN;");
      NoControlsAmong(["^RVM;", "^SN;"]);
      ReadOnlyWirePermitted(Firmware, settings.gate);
      ReadOnlyWirePermitted(SerialNumber, settings.gate);
      AllPermittedConcat(settings.gate, ["^RVM;"], ["^SN;"]);
      NoBands(events);
    }

    /** One turn of the driver loop: follow, then what is desired, then a poll. */
    method Turn(port: SerialPort) returns (ghost pass: Pass, ghost sends: seq<Send>)
      requires Valid()
      modifies port, this
      ensures Valid() && port.trace == old(port.trace) + PassTrace(pass)
      ensures pass.Turning? && IsPass(pass, settings.gate)
      ensures AllPermitted(settings.gate, Wires(PassTrace(pass)))
      ensures SentBy(PassTrace(pass), BAND_WIRES, sends)
      ensures followLog == old(followLog) + Completed(sends) && old(transitions) <= transitions
    {
      hide AllPermitted, Wires, FollowStep, IsOutcomeOf, StateValid, FollowValid, ControlWires, Allowed, Flatten,
           FollowSends, ReadingOf, ParseAll, ChangePoints, Answers, Wire, BandWire, SentBy, Plausible,
           Completed, Disturbed, IsServed;
      ghost var decided, busy, seen, outcome, before, followed, request, polled;
      decided, busy, seen, outcome, sends, followed := ProcessBandFollow(port);
      var result, outcomes;
      result, request := ProcessDesiredControl(port);
      outcomes, before, polled := PollStatus(port);
      pass := Turning(followed, request, Flatten(polled));
      PollPermitted(settings.gate, Flatten(polled));
      WiresConcat(followed + request.events, Flatten(polled));
      WiresConcat(followed, request.events);
      AllPermittedConcat(settings.gate, Wires(followed), Wires(request.events));
      AllPermittedConcat(settings.gate, Wires(followed) + Wires(request.events), Wires(Flatten(polled)));
      SentByConcat(followed, sends, request.events, [], BAND_WIRES);
      SentByConcat(followed + request.events, sends, Flatten(polled), [], BAND_WIRES);
    }

    /** One pass of the loop: a turn if the port is open, and otherwise an attempt to open it,
        with the questions about capabilities when it opens. */
    method RunPass(port: SerialPort, open: bool) returns (connected: bool, ghost pass: Pass, ghost sends: seq<Send>)
      requires Valid()
      modifies port, this
      ensures Valid() && port.trace == old(port.trace) + PassTrace(pass)
      ensures IsPass(pass, settings.gate) && (pass.Turning? <==> open) && (connected <==> LeavesOpen(pass))
      ensures AllPermitted(settings.gate, Wires(PassTrace(pass)))
      ensures SentBy(PassTrace(pass), BAND_WIRES, sends)
      ensures followLog == old(followLog) + Completed(sends) && old(transitions) <= transitions
    {
      hide AllPermitted, Wires, StateValid, FollowValid, SentBy, Completed, IsPass, PassTrace, Disturbed,
           ParseResponse, IsOutcomeOf, ControlWires;
      NoWires(settings.gate);
      NoBands([]);
      connected := open;
      if open {
        pass, sends := Turn(port);
        return;
      }
      ghost var events := [];
      connected := *;
      if connected {
        ghost var version, serial, first, second;
        version, serial, first, second, events := DiscoverCapabilities(port);
      }
      pass, sends := Opening(events), [];
      OpeningIsPass(events, settings.gate);
    }

    /** A run of any length, whatever the peer sends and whatever is desired. Only permitted
        wires are transmitted. The trace is that of the passes of the loop, and the operate and
        standby commands on it are exactly those of the requests found that the gate lets, in
        order. The bands on the trace are those of a list of sends, of which the completed ones
        are the follow record: no two consecutive ones are the same. The amplifier is never
        taken to be transmitting. Its state has one unbroken history, of which the transition
        log holds the polled part; without strict startups every record is a real change, and
        otherwise no more are empty than startups have ended. */
    method RunSerialLoop(port: SerialPort, rounds: nat)
      returns (ghost passes: seq<Pass>, ghost sends: seq<Send>)
      requires Valid()
      modifies port, this
      ensures Valid() && port.trace == old(port.trace) + RunTrace(passes)
      ensures AllPermitted(settings.gate, Wires(RunTrace(passes)))
      ensures forall p <- passes :: IsPass(p, settings.gate)
      ensures |passes| == rounds && OpensFirst(passes)
      ensures ControlWires(Wires(RunTrace(passes))) == AllAllowed(passes, settings.gate)
      ensures SentBy(RunTrace(passes), BAND_WIRES, sends)
      ensures followLog == old(followLog) + Completed(sends) && NoRepeats(followLog)
      ensures !Transmitting(amp) && Linked(ChangesOf(moves), Standby, amp.state) && transitions == LoggedOf(moves)
      ensures old(transitions) <= transitions && Empties(transitions) <= CountOf(moves, StartedUp)
      ensures !settings.strictStartup ==> Empties(transitions) == 0 && Consistent(amp)
    {
      hide AllPermitted, Wires, StateValid, FollowValid, ControlWires, SentBy, Completed, NoRepeats, Linked, ChangesOf,
           LoggedOf, Empties, CountOf, Consistent, Transmitting, IsPass, PassTrace, RunTrace, IsRun, LeavesOpen,
           AllAllowed, OpensFirst;
      NoPasses(settings.gate);
      passes, sends := [], [];
      var open := false;
      for round := 0 to rounds
        invariant Valid() && port.trace == old(port.trace) + RunTrace(passes)
        invariant IsRun(passes, sends, settings.gate) && |passes| == round
        invariant open <==> passes != [] && LeavesOpen(passes[|passes| - 1])
        invariant followLog == old(followLog) + Completed(sends) && old(transitions) <= transitions
      {
        ghost var pass, sent;
        open, pass, sent := RunPass(port, open);
        RunGrows(passes, sends, pass, sent, settings.gate);
        passes, sends := passes + [pass], sends + sent;
      }
      ValidSays();
      RunSays(passes, sends, settings.gate);
    }

    lemma ValidIsPlausible()
      requires StateValid()
      ensures Plausible(amp)
    {
    }

    lemma ValidSays()
      requires Valid()
      ensures NoRepeats(followLog)
      ensures !Transmitting(amp) && Linked(ChangesOf(moves), Standby, amp.state) && transitions == LoggedOf(moves)
      ensures Empties(transitions) <= CountOf(moves, StartedUp)
      ensures !settings.strictStartup ==> Empties(transitions) == 0 && Consistent(amp)
    {
      LogIsReal(moves, amp, transitions);
    }
  }

  lemma NothingAnswered(a: Amp)
    ensures ParseAll(AnsweredLines([]), a) == a && ChangePoints(Readings(AnsweredLines([])), a) == []
  {
  }

  /** One more outcome of a poll: its effect on the fold and on the points of change. */
  lemma AnsweredGrows(outcomes: seq<Option<SerialRead>>, i: nat, a: Amp)
    requires i < |outcomes|
    ensures var before, after := AnsweredLines(outcomes[..i]), AnsweredLines(outcomes[..i + 1]);
            if outcomes[i].None? then after == before
            else
              var more := Arrived(outcomes[i].value);
              && ParseAll(after, a) == ParseAll(more, ParseAll(before, a))
              && ChangePoints(Readings(after), a)
                 == ChangePoints(Readings(before), a) + ChangePoints(Readings(more), ParseAll(before, a))
  {
    hide ReadingOf, ApplyAll, ChangePoints, Arrived;
    var before, after := AnsweredLines(outcomes[..i]), AnsweredLines(outcomes[..i + 1]);
    assert outcomes[..i + 1][..i] == outcomes[..i] && outcomes[..i + 1][i] == outcomes[i];
    if outcomes[i].None? {
      assert after == before + [] == before;
    } else {
      var more := Arrived(outcomes[i].value);
      assert after == before + more;
      assert Readings(before + more) == Readings(before) + Readings(more);
      ApplyAllConcat(Readings(before), Readings(more), a);
      ChangePointsConcat(Readings(before), Readings(more), a);
    }
  }

  /** The answer to the fault query is the last line of a poll that got one. */
  lemma FaultReportEndsPoll(outcomes: seq<Option<SerialRead>>, a: Amp)
    requires |outcomes| == |POLL|
    ensures var end := ParseAll(AnsweredLines(outcomes), a);
            outcomes[4].Some? && ReadingOf(outcomes[4].value.response).FaultIs? ==>
              && (end.state == Fault <==> end.fault.Some?)
              && (end.fault.None? ==> end.state == Settle(end.operate))
  {
    hide ReadingOf, ParseAll;
    if outcomes[4].Some? && ReadingOf(outcomes[4].value.response).FaultIs? {
      var read := outcomes[4].value;
      var before := AnsweredLines(outcomes[..4]);
      assert AnsweredLines(outcomes) == before + Arrived(read) == before + read.unsolicited + [read.response];
      FaultReportSettles(before + read.unsolicited, read.response, a);
    }
  }

  /** A version or serial number reply has no say in the operating state. */
  lemma CapabilityKeepsState(c: Command, reply: string, a: Amp)
    requires c == Firmware || c == SerialNumber
    requires Trimmed(reply) && Answers(c, reply)
    ensures ParseResponse(reply, a).state == a.state
  {
    TrimOfTrimmed(reply);
    var prefix := ExpectedPrefix(c).value;
    assert Field(reply, prefix).Some?;
    StartsAt(reply, prefix, 1);
    StartsAt(reply, "^RVM", 1);
  }
}
