/** Which wires the amplifier driver may hand to the port, and which of them are controls, bands
    or queries. */
module KpaWires {
  import opened Sequences
  import opened Text
  import opened SafetyGate
  import opened Serial
  import opened KpaLines

  const READ_ONLY_WIRES: set<string> := {"^RVM;", "^SN;", "^OS;", "^WS;", "^TM;", "^VI;", "^FL;"}

  /** What one status poll transmits, in order. */
  const POLL_WIRES: seq<string> := ["^OS;", "^WS;", "^TM;", "^VI;", "^FL;"]

  const BAND_WIRES: set<string> := set band: Band | band != Unknown :: BandWire(band).value

  predicate IsBandWire(wire: string) {
    wire in BAND_WIRES
  }

  /** The whole set of wires a run may ever hand to the port under a gate. */
  predicate Permitted(g: Gate, wire: string) {
    || wire in READ_ONLY_WIRES
    || (!g.dryRun && wire == "^OS1;" && g.allowRfRisk)
    || (!g.dryRun && (wire == "^OS0;" || IsBandWire(wire)) && g.allowControl)
  }

  predicate AllPermitted(g: Gate, wires: seq<string>) {
    forall wire <- wires :: Permitted(g, wire)
  }

  lemma NoWires(g: Gate)
    ensures Wires([]) == [] && AllPermitted(g, [])
  {
  }

  lemma AllPermittedConcat(g: Gate, a: seq<string>, b: seq<string>)
    requires AllPermitted(g, a) && AllPermitted(g, b)
    ensures AllPermitted(g, a + b)
  {
  }

  lemma ReadOnlyWirePermitted(c: Command, g: Gate)
    requires SafetyOf(c) == ReadOnly
    ensures AllPermitted(g, [Wire(c)]) && Wire(c) in READ_ONLY_WIRES
  {
  }

  lemma ControlWirePermitted(operate: bool, g: Gate)
    requires EnsureCanSend(g, SafetyOf(ControlCommand(operate))).None?
    ensures AllPermitted(g, [Wire(ControlCommand(operate))])
    ensures Wire(ControlCommand(operate)) in CONTROL_WIRES
  {
  }

  lemma BandWirePermitted(band: Band, g: Gate)
    requires band != Unknown && !g.dryRun && g.allowControl
    ensures Permitted(g, BandWire(band).value)
  {
    assert IsBandWire(BandWire(band).value);
  }

  const CONTROL_WIRES: set<string> := {"^OS1;", "^OS0;"}

  /** The operate and standby commands among some wires, in order. */
  function ControlWires(wires: seq<string>): seq<string> {
    Selected(wires, CONTROL_WIRES)
  }

  lemma ControlWiresConcat(a: seq<string>, b: seq<string>)
    ensures ControlWires(a + b) == ControlWires(a) + ControlWires(b)
  {
    SelectedConcat(a, b, CONTROL_WIRES);
  }

  lemma NoControlsAmong(wires: seq<string>)
    requires forall wire <- wires :: wire !in CONTROL_WIRES
    ensures ControlWires(wires) == []
  {
    NoneSelected(wires, CONTROL_WIRES);
  }

  lemma QueryIsNotControl(wire: string)
    requires wire in READ_ONLY_WIRES
    ensures wire !in CONTROL_WIRES
  {
    assert |wire| == 5 ==> wire[1] == 'R';
    assert forall c <- CONTROL_WIRES :: |c| == 5 && c[1] == 'O';
  }

  lemma BandWireIsNotControl(band: Band)
    requires band != Unknown
    ensures BandWire(band).value !in CONTROL_WIRES
  {
    assert BandWire(band).value[1] == 'B';
    assert forall c <- CONTROL_WIRES :: c[1] == 'O';
  }

  lemma RepeatedWires(wire: string, n: nat, g: Gate)
    requires wire !in CONTROL_WIRES && Permitted(g, wire)
    ensures ControlWires(Repeated(wire, n)) == [] && AllPermitted(g, Repeated(wire, n))
  {
    hide Permitted;
    RepeatedIsOneWire(wire, n);
    NoneSelected(Repeated(wire, n), CONTROL_WIRES);
  }

  lemma PollPermitted(g: Gate, polled: seq<PortEvent>)
    requires Wires(polled) == POLL_WIRES
    ensures AllPermitted(g, Wires(polled)) && ControlWires(Wires(polled)) == []
    ensures SentBy(polled, BAND_WIRES, [])
  {
    hide Wires, ControlWires, IsBandWire, SentBy;
    forall wire <- POLL_WIRES
      ensures wire !in CONTROL_WIRES && Permitted(g, wire)
    {
      QueryIsNotControl(wire);
    }
    NoControlsAmong(POLL_WIRES);
    NoBands(polled);
  }

  lemma TraceWires(drained: seq<string>, drain: seq<PortEvent>, body: seq<PortEvent>)
    requires IsDrain(drained, drain)
    ensures Wires(drain + body) == Wires(body)
  {
    DrainReads(drained, drain);
    WiresConcat(drain, body);
  }

  function ControlCommand(operate: bool): Command {
    if operate then SetOperate else SetStandby
  }

  /** A poll outcome holds an answer to its command and lines that do not answer it. */
  predicate IsOutcomeOf(c: Command, outcome: Option<SerialRead>) {
    outcome.Some? ==>
      && Trimmed(outcome.value.response) && Answers(c, outcome.value.response)
      && (forall line <- outcome.value.unsolicited :: Trimmed(line) && !Answers(c, line))
  }

  lemma BandHasWire(band: Band)
    requires band != Unknown
    ensures BandWire(band).Some? && BandWire(band).value in BAND_WIRES
  {
  }

  /** Neither a query nor a control is a band. */
  lemma NoBands(events: seq<PortEvent>)
    requires forall wire <- Wires(events) :: wire in READ_ONLY_WIRES || wire in CONTROL_WIRES
    ensures SentBy(events, BAND_WIRES, []) && Completed([]) == []
  {
    hide Wires;
    forall wire <- Wires(events)
      ensures wire !in BAND_WIRES
    {
      OtherWireIsNotBand(wire);
    }
    NothingSent(events, BAND_WIRES);
  }

  lemma OtherWireIsNotBand(wire: string)
    requires wire in READ_ONLY_WIRES || wire in CONTROL_WIRES
    ensures wire !in BAND_WIRES
  {
    assert wire[1] != 'B';
    forall band: Band | band != Unknown
      ensures BandWire(band).value[1] == 'B'
    {
    }
  }

  /** The exchanges of a poll transmit its wires. */
  lemma PolledWires(outcomes: seq<Option<SerialRead>>, pieces: seq<seq<PortEvent>>)
    requires |outcomes| == |pieces| == |POLL|
    requires forall i :: 0 <= i < |POLL| ==> IsExchange(Wire(POLL[i]), outcomes[i], pieces[i])
    ensures Wires(Flatten(pieces)) == POLL_WIRES
  {
    hide Wires, Wire, Flatten;
    PollInOrder();
    JoinedWires(pieces, POLL_WIRES);
  }

  lemma PollInOrder()
    ensures |POLL| == |POLL_WIRES| && forall i :: 0 <= i < |POLL| ==> Wire(POLL[i]) == POLL_WIRES[i]
  {
  }

  lemma TurnWires(followed: seq<PortEvent>, controlled: seq<PortEvent>, polled: seq<PortEvent>)
    requires ControlWires(Wires(followed)) == [] && ControlWires(Wires(polled)) == []
    ensures Wires(followed + controlled + polled) == Wires(followed) + Wires(controlled) + Wires(polled)
    ensures ControlWires(Wires(followed + controlled + polled)) == ControlWires(Wires(controlled))
  {
    MiddleSelected(followed, controlled, polled, CONTROL_WIRES);
  }

  lemma WriteWires(wire: string, ok: bool)
    ensures Wires([Tx(wire)] + (if ok then [] else [Broken])) == [wire]
  {
    ExchangeReads(wire, [], if ok then [] else [Broken]);
    assert [Tx(wire)] + Received([]) == [Tx(wire)];
  }
}
