/** Operate and standby requests: what is transmitted for each, and what becomes of it. */
module KpaControl {
  import opened Sequences
  import opened Text
  import opened SafetyGate
  import opened Serial
  import opened KpaLines
  import opened KpaWires

  // ---------------------------------------------------------------- one request

  datatype Verification = Verified | VerifyFailed | Timeout

  /** The outcome of a control by the answer to the query after it. */
  function VerificationBy(answer: Option<SerialRead>, operate: bool): Verification {
    if answer.None? then Timeout
    else if (answer.value.response == "^OS1;") == operate then Verified else VerifyFailed
  }

  /** A control refused by the gate leaves no trace. An allowed one is transmitted: it fails only
      with the port, and its outcome is that of the answer to the query on the trace, a timeout
      without one. */
  predicate IsControlled(g: Gate, operate: bool, result: Result<Verification, ControlError>,
                         answer: Option<SerialRead>, events: seq<PortEvent>) {
    match Refusing(g, operate)
    case Some(refusal) => events == [] && result == Failure(Refused(refusal))
    case None =>
      if result.Failure?
      then result == Failure(SerialFailure(WriteFailed)) && events == [Tx(AskedWire(operate)), Broken]
      else
        && |events| > 0 && events[0] == Tx(AskedWire(operate))
        && IsExchange("^OS;", answer, events[1..]) && IsOutcomeOf(OperateStatus, answer)
        && result.value == VerificationBy(answer, operate)
  }

  /** The gate's refusal of a control, if it refuses. */
  function Refusing(g: Gate, operate: bool): Option<Refusal> {
    if g.dryRun then Some(BlockedByDryRun)
    else if operate then if g.allowRfRisk then None else Some(RequiresAllowRfRisk)
    else if g.allowControl then None else Some(RequiresAllowControl)
  }

  function AskedWire(operate: bool): string {
    if operate then "^OS1;" else "^OS0;"
  }

  /** The command for a request has the wire that was asked for, and passes the gate accordingly. */
  lemma AskedCommand(g: Gate, operate: bool)
    ensures Wire(ControlCommand(operate)) == AskedWire(operate) && Wire(OperateStatus) == "^OS;"
    ensures EnsureCanSend(g, SafetyOf(ControlCommand(operate))) == Refusing(g, operate)
  {
  }

  /** The wire a taken request asks for. */
  function Planned(taken: Option<bool>): seq<string> {
    if taken.Some? then [AskedWire(taken.value)] else []
  }

  /** What a taken request transmits: its command, exactly when the gate allows it. */
  function Allowed(taken: Option<bool>, g: Gate): seq<string> {
    if taken.Some? && Refusing(g, taken.value).None? then Planned(taken) else []
  }

  /** The wires of a transmitted control. */
  lemma TransmittedControl(operate: bool, queried: bool, answer: Option<SerialRead>, query: seq<PortEvent>)
    requires queried ==> IsExchange(Wire(OperateStatus), answer, query)
    ensures var wire := Wire(ControlCommand(operate));
            && Wires([Tx(wire), Broken]) == [wire]
            && ([Tx(wire)] + query)[1..] == query
            && (queried ==> Wires([Tx(wire)] + query) == [wire, Wire(OperateStatus)])
  {
    var wire := Wire(ControlCommand(operate));
    WriteWires(wire, true);
    WriteWires(wire, false);
    WiresConcat([Tx(wire)], query);
    assert [Tx(wire)] + [Broken] == [Tx(wire), Broken] && [Tx(wire)] + [] == [Tx(wire)];
  }

  /** A refused control leaves no trace, and no other does. */
  lemma OnlyRefusedLeavesNothing(g: Gate, operate: bool, result: Result<Verification, ControlError>,
                           answer: Option<SerialRead>, events: seq<PortEvent>)
    requires IsControlled(g, operate, result, answer, events)
    ensures Refusing(g, operate).Some? <==> events == []
  {
    hide IsExchange, IsOutcomeOf, EnsureCanSend;
  }

  lemma ControlledWires(g: Gate, operate: bool, result: Result<Verification, ControlError>,
                        answer: Option<SerialRead>, events: seq<PortEvent>)
    requires IsControlled(g, operate, result, answer, events)
    ensures ControlWires(Wires(events)) == Allowed(Some(operate), g)
  {
    hide Wires, Wire, ControlWires, Refusing, AskedWire, IsOutcomeOf;
    NoWires(g);
    NoControlsAmong([]);
    ControlCarried(operate);
    if Refusing(g, operate).None? {
      AskedCommand(g, operate);
      var query := events[if result.Success? then 1 else 2..];
      TransmittedControl(operate, result.Success?, answer, query);
      assert result.Success? ==> events == [Tx(Wire(ControlCommand(operate)))] + query;
    }
  }

  /** A control, with or without the status query after it, carries out its request. */
  lemma ControlCarried(operate: bool)
    ensures ControlWires([Wire(ControlCommand(operate))]) == Planned(Some(operate))
    ensures ControlWires([Wire(ControlCommand(operate)), Wire(OperateStatus)]) == Planned(Some(operate))
  {
    var wire, query := Wire(ControlCommand(operate)), Wire(OperateStatus);
    QueryIsNotControl(query);
    OneSelected(wire, CONTROL_WIRES);
    OneSelected(query, CONTROL_WIRES);
    SelectedConcat([wire], [query], CONTROL_WIRES);
    assert [wire] + [query] == [wire, query];
  }

  /** One look for a pending request: what was found, and what became of it. */
  datatype Request = Request(taken: Option<bool>, result: Result<Verification, ControlError>,
                             answer: Option<SerialRead>, events: seq<PortEvent>)

  predicate IsServed(r: Request, g: Gate) {
    if r.taken.Some? then IsControlled(g, r.taken.value, r.result, r.answer, r.events) else r.events == []
  }

  lemma ServedWires(r: Request, g: Gate)
    requires IsServed(r, g)
    ensures ControlWires(Wires(r.events)) == Allowed(r.taken, g)
  {
    hide IsControlled, Wires, ControlWires;
    NoWires(g);
    NoControlsAmong([]);
    if r.taken.Some? {
      ControlledWires(g, r.taken.value, r.result, r.answer, r.events);
    }
  }

  // ---------------------------------------------------------------- whole runs

  /** One pass of the driver's loop: opening the port, or a turn of follow, control and poll. */
  datatype Pass = Opening(events: seq<PortEvent>)
                | Turning(followed: seq<PortEvent>, request: Request, polled: seq<PortEvent>)

  function PassTrace(p: Pass): seq<PortEvent> {
    match p
    case Opening(events) => events
    case Turning(followed, request, polled) => followed + request.events + polled
  }

  predicate IsPass(p: Pass, g: Gate) {
    match p
    case Opening(events) => Wires(events) in {[], ["^RVM;", "^SN;"]}
    case Turning(followed, request, polled) =>
      && ControlWires(Wires(followed)) == []
      && IsServed(request, g)
      && Wires(polled) == POLL_WIRES
  }

  /** A pass after which the port is open: a turn, or the questions that follow its opening. */
  predicate LeavesOpen(p: Pass) {
    p.Turning? || Wires(p.events) == ["^RVM;", "^SN;"]
  }

  /** A pass is a turn exactly when the pass before it left the port open. */
  predicate OpensFirst(passes: seq<Pass>) {
    passes == [] ||
    var n := |passes| - 1;
    OpensFirst(passes[..n]) && (passes[n].Turning? <==> n > 0 && LeavesOpen(passes[n - 1]))
  }

  lemma OpensFirstGrows(passes: seq<Pass>, p: Pass)
    requires OpensFirst(passes)
    requires p.Turning? <==> passes != [] && LeavesOpen(passes[|passes| - 1])
    ensures OpensFirst(passes + [p])
  {
    hide LeavesOpen;
    assert (passes + [p])[..|passes|] == passes;
  }

  function RunTrace(passes: seq<Pass>): seq<PortEvent> {
    if passes == [] then [] else RunTrace(passes[..|passes| - 1]) + PassTrace(passes[|passes| - 1])
  }

  /** What the requests found in a run transmit: each its command, exactly when the gate lets it. */
  function AllAllowed(passes: seq<Pass>, g: Gate): seq<string> {
    if passes == [] then []
    else
      var last := passes[|passes| - 1];
      AllAllowed(passes[..|passes| - 1], g) + (if last.Turning? then Allowed(last.request.taken, g) else [])
  }

  /** The passes of a run are what they should be, transmit permitted wires alone, and of bands
      exactly those of some sends. */
  predicate IsRun(passes: seq<Pass>, sends: seq<Send>, g: Gate) {
    && (forall p <- passes :: IsPass(p, g))
    && AllPermitted(g, Wires(RunTrace(passes)))
    && SentBy(RunTrace(passes), BAND_WIRES, sends)
    && OpensFirst(passes)
  }

  lemma NoPasses(g: Gate)
    ensures RunTrace([]) == [] && Completed([]) == [] && IsRun([], [], g)
  {
    hide Wires, SentBy;
    NoWires(g);
    NoBands([]);
  }

  /** One more pass of a run. */
  lemma RunGrows(passes: seq<Pass>, sends: seq<Send>, p: Pass, sent: seq<Send>, g: Gate)
    requires IsRun(passes, sends, g) && IsPass(p, g)
    requires AllPermitted(g, Wires(PassTrace(p))) && SentBy(PassTrace(p), BAND_WIRES, sent)
    requires p.Turning? <==> passes != [] && LeavesOpen(passes[|passes| - 1])
    ensures IsRun(passes + [p], sends + sent, g)
    ensures RunTrace(passes + [p]) == RunTrace(passes) + PassTrace(p)
    ensures Completed(sends + sent) == Completed(sends) + Completed(sent)
  {
    hide Wires, SentBy, AllPermitted, IsPass, PassTrace, RunTrace, OpensFirst, LeavesOpen, Completed;
    PassGrows(passes, p);
    OpensFirstGrows(passes, p);
    WiresConcat(RunTrace(passes), PassTrace(p));
    AllPermittedConcat(g, Wires(RunTrace(passes)), Wires(PassTrace(p)));
    SendsConcat(sends, sent);
    SentByConcat(RunTrace(passes), sends, PassTrace(p), sent, BAND_WIRES);
  }

  lemma RunSays(passes: seq<Pass>, sends: seq<Send>, g: Gate)
    requires IsRun(passes, sends, g)
    ensures AllPermitted(g, Wires(RunTrace(passes))) && SentBy(RunTrace(passes), BAND_WIRES, sends)
    ensures (forall p <- passes :: IsPass(p, g)) && OpensFirst(passes)
    ensures ControlWires(Wires(RunTrace(passes))) == AllAllowed(passes, g)
  {
    hide Wires, SentBy, AllPermitted, IsPass, RunTrace, ControlWires, AllAllowed, OpensFirst;
    RunCarries(passes, g);
  }

  lemma PassGrows(passes: seq<Pass>, p: Pass)
    ensures RunTrace(passes + [p]) == RunTrace(passes) + PassTrace(p)
  {
    hide PassTrace;
    assert (passes + [p])[..|passes|] == passes;
  }

  lemma OpeningIsPass(events: seq<PortEvent>, g: Gate)
    requires Wires(events) == [] || Wires(events) == ["^RVM;", "^SN;"]
    ensures IsPass(Opening(events), g) && PassTrace(Opening(events)) == events
  {
  }

  lemma PassCarries(p: Pass, g: Gate)
    requires IsPass(p, g)
    ensures ControlWires(Wires(PassTrace(p))) == if p.Turning? then Allowed(p.request.taken, g) else []
  {
    hide IsServed, Wires, ControlWires, Allowed;
    match p
    case Opening(events) =>
      QueryIsNotControl("^RVM;");
      QueryIsNotControl("^SN;");
      NoControlsAmong(Wires(events));
    case Turning(followed, request, polled) =>
      PollPermitted(g, polled);
      ServedWires(request, g);
      TurnWires(followed, request.events, polled);
  }

  /** The operate and standby commands on the trace of a run are exactly those of the requests
      found that the gate lets, in order. */
  lemma {:induction false} RunCarries(passes: seq<Pass>, g: Gate)
    requires forall p <- passes :: IsPass(p, g)
    ensures ControlWires(Wires(RunTrace(passes))) == AllAllowed(passes, g)
  {
    hide Wires, ControlWires, Allowed, IsPass, PassTrace;
    if passes == [] {
      NoWires(g);
      NoControlsAmong([]);
    } else {
      var before, last := passes[..|passes| - 1], passes[|passes| - 1];
      RunCarries(before, g);
      PassCarries(last, g);
      WiresConcat(RunTrace(before), PassTrace(last));
      ControlWiresConcat(Wires(RunTrace(before)), Wires(PassTrace(last)));
    }
  }

  /** A request of each kind that some gate drops although it lets the other kind through, and a
      gate that drops both because of dry run. */
  lemma GateDropsRequests()
    ensures Allowed(Some(true), Gate(false, true, false)) == []
    ensures Allowed(Some(false), Gate(false, true, false)) == ["^OS0;"]
    ensures Allowed(Some(false), Gate(false, false, true)) == []
    ensures Allowed(Some(true), Gate(false, false, true)) == ["^OS1;"]
    ensures Allowed(Some(true), Gate(true, true, true)) == [] && Allowed(Some(false), Gate(true, true, true)) == []
  {
  }
}
