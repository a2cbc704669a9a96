/** Which wires the tuner driver may hand to the port, and which of them are controls,
    frequencies or queries. */
module KatWires {
  import opened Sequences
  import opened Text
  import opened SafetyGate
  import opened Serial
  import opened KatLines

  const READ_ONLY_WIRES: set<string> :=
    {";", "RV;", "SN;", "AN;", "BYP;", "MD;", "TP;", "FLT;", "VSWR;", "VFWD;"}

  /** What one status poll transmits, in order. */
  const POLL_WIRES: seq<string> := ["AN;", "BYP;", "MD;", "TP;", "FLT;", "VSWR;", "VFWD;"]

  const SWITCH_WIRES: set<string> := {"AN1;", "AN2;", "AN3;", "AN?;", "BYPB;", "BYPN;"}

  const CONTROL_WIRES: set<string> := {"T;"} + SWITCH_WIRES

  /** The frequencies from 1800 to 54000 kHz, in the one spelling the driver uses. */
  const FREQUENCY_WIRES: set<string> := set khz: nat | 1800 <= khz <= 54_000 :: "F " + Decimal(khz) + ";"

  predicate IsFrequencyWire(wire: string) {
    wire in FREQUENCY_WIRES
  }

  /** The whole set of wires a run may ever hand to the port under a gate. */
  predicate Permitted(g: Gate, wire: string) {
    || wire in READ_ONLY_WIRES
    || (!g.dryRun && wire == "T;" && g.allowRfRisk)
    || (!g.dryRun && wire in SWITCH_WIRES && g.allowControl)
    || (!g.dryRun && IsFrequencyWire(wire) && (g.allowControl || g.allowRfRisk))
  }

  predicate AllPermitted(g: Gate, wires: seq<string>) {
    forall wire <- wires :: Permitted(g, wire)
  }

  lemma NoWires(g: Gate)
    ensures Wires([]) == [] && AllPermitted(g, [])
  {
  }

  lemma AllPermittedConcat(g: Gate, a: seq<string>, b: seq<string>)
    requires AllPermitted(g, a) && AllPermitted(g, b)
    ensures AllPermitted(g, a + b)
  {
  }

  /** The tune, antenna and bypass commands among some wires, in order. */
  function ControlWires(wires: seq<string>): seq<string> {
    Selected(wires, CONTROL_WIRES)
  }

  predicate FollowGateOpen(g: Gate) {
    CommandAllowed(g, SafetyOf(FrequencyContext)) || CommandAllowed(g, SafetyOf(Autotune))
  }

  lemma ControlWiresConcat(a: seq<string>, b: seq<string>)
    ensures ControlWires(a + b) == ControlWires(a) + ControlWires(b)
  {
    SelectedConcat(a, b, CONTROL_WIRES);
  }

  lemma RepeatedWires(wire: string, n: nat, g: Gate)
    requires wire !in CONTROL_WIRES
    ensures ControlWires(Repeated(wire, n)) == []
    ensures Permitted(g, wire) ==> AllPermitted(g, Repeated(wire, n))
  {
    hide Permitted;
    RepeatedIsOneWire(wire, n);
    NoneSelected(Repeated(wire, n), CONTROL_WIRES);
  }

  lemma PollWires(polls: nat, g: Gate)
    ensures var wires := Repeated("TP;", polls) + ["VSWR;"];
            AreQueries(wires) && AllPermitted(g, wires) && ControlWires(wires) == []
  {
    var wires := Repeated("TP;", polls) + ["VSWR;"];
    RepeatedIsOneWire("TP;", polls);
    assert forall wire <- wires :: wire == "TP;" || wire == "VSWR;";
    QueriesPermitted(g, wires);
    QueriesAreNotControls(wires);
  }

  lemma FrequencyHasWire(hz: nat)
    requires InRange(hz)
    ensures FrequencyWire(Some(hz)).Some?
  {
  }

  lemma FrequencyWireIsNotControl(hz: nat)
    requires InRange(hz)
    ensures FrequencyWire(Some(hz)).value !in CONTROL_WIRES
    ensures IsFrequencyWire(FrequencyWire(Some(hz)).value)
  {
    FrequencyWireReadsBack(hz);
    assert FrequencyWire(Some(hz)).value[0] == 'F';
  }

  lemma ConfirmedWires(drained: seq<string>, drain: seq<PortEvent>, body: seq<PortEvent>,
                       calmed: seq<string>, calm: seq<PortEvent>)
    requires IsDrain(drained, drain) && (calm == [] || IsDrain(calmed, calm))
    ensures Wires(drain + body + calm) == Wires(body)
  {
    hide IsDrain;
    DrainReads(drained, drain);
    if calm != [] { DrainReads(calmed, calm); }
    WiresConcat(drain + body, calm);
    WiresConcat(drain, body);
  }

  /** One or two transmissions of a frequency are permitted by an open follow gate. */
  lemma FrequencyWiresPermitted(hz: nat, g: Gate, wires: seq<string>)
    requires InRange(hz)
    requires var wire := FrequencyWire(Some(hz)).value;
             wires == Repeated(wire, 1) || wires == Repeated(wire, 2)
    ensures ControlWires(wires) == []
    ensures FollowGateOpen(g) ==> AllPermitted(g, wires)
  {
    hide IsFrequencyWire, KhzOf, Decimal, RequestedKhz, Repeated;
    FrequencyWireIsNotControl(hz);
    RepeatedWires(FrequencyWire(Some(hz)).value, 1, g);
    RepeatedWires(FrequencyWire(Some(hz)).value, 2, g);
  }

  /** Neither a query nor a control is a frequency. */
  lemma NoFrequencies(events: seq<PortEvent>)
    requires forall wire <- Wires(events) :: wire in READ_ONLY_WIRES || wire in CONTROL_WIRES
    ensures SentBy(events, FREQUENCY_WIRES, []) && Completed([]) == []
  {
    hide Wires;
    forall wire <- Wires(events)
      ensures wire !in FREQUENCY_WIRES
    {
      OtherWireIsNotFrequency(wire);
    }
    NothingSent(events, FREQUENCY_WIRES);
  }

  lemma OtherWireIsNotFrequency(wire: string)
    requires wire in READ_ONLY_WIRES || wire in CONTROL_WIRES
    ensures wire !in FREQUENCY_WIRES
  {
    assert |wire| >= 2 ==> wire[1] != ' ';
    forall khz: nat
      ensures ("F " + Decimal(khz) + ";")[1] == ' ' && |"F " + Decimal(khz) + ";"| >= 2
    {
    }
  }

  /** The exchanges of a poll transmit its wires. */
  lemma PolledWires(outcomes: seq<Option<SerialRead>>, pieces: seq<seq<PortEvent>>)
    requires |outcomes| == |pieces| == |POLL|
    requires forall i :: 0 <= i < |POLL| ==> IsExchange(Wire(POLL[i]), outcomes[i], pieces[i])
    ensures Wires(Flatten(pieces)) == POLL_WIRES
  {
    hide Wires, Wire, Flatten;
    PollInOrder();
    JoinedWires(pieces, POLL_WIRES);
  }

  lemma PollInOrder()
    ensures |POLL| == |POLL_WIRES| && forall i :: 0 <= i < |POLL| ==> Wire(POLL[i]) == POLL_WIRES[i]
  {
  }

  lemma TurnWires(followed: seq<PortEvent>, controlled: seq<PortEvent>, polled: seq<PortEvent>)
    requires ControlWires(Wires(followed)) == [] && ControlWires(Wires(polled)) == []
    ensures Wires(followed + controlled + polled) == Wires(followed) + Wires(controlled) + Wires(polled)
    ensures ControlWires(Wires(followed + controlled + polled)) == ControlWires(Wires(controlled))
  {
    MiddleSelected(followed, controlled, polled, CONTROL_WIRES);
  }

  lemma ReadOnlyWirePermitted(c: Command, g: Gate)
    requires SafetyOf(c) == ReadOnly
    ensures AllPermitted(g, [Wire(c)])
  {
  }

  lemma PollPermitted(g: Gate, polled: seq<PortEvent>)
    requires Wires(polled) == POLL_WIRES
    ensures AllPermitted(g, Wires(polled)) && ControlWires(Wires(polled)) == []
    ensures SentBy(polled, FREQUENCY_WIRES, [])
  {
    hide Wires, ControlWires, IsFrequencyWire, SentBy;
    assert AreQueries(POLL_WIRES);
    QueriesAreNotControls(POLL_WIRES);
    QueriesPermitted(g, POLL_WIRES);
    NoFrequencies(polled);
  }

  predicate AreQueries(wires: seq<string>) {
    forall wire <- wires :: wire in READ_ONLY_WIRES
  }

  /** Did the tuner answer a null command? */
  ghost predicate Woken(events: seq<PortEvent>) {
    exists line <- Lines(events) :: Answers(NullWake, line)
  }

  /** Opening the port transmits null commands, and the two questions about capabilities exactly
      when one of them was answered. */
  ghost predicate IsOpening(events: seq<PortEvent>) {
    var wires, asked := Wires(events), if Woken(events) then ["RV;", "SN;"] else [];
    |wires| >= |asked| && wires == Repeated(";", |wires| - |asked|) + asked
  }

  lemma OpeningIsQueries(events: seq<PortEvent>)
    requires IsOpening(events)
    ensures AreQueries(Wires(events))
  {
    hide Wires, Woken;
    RepeatedIsOneWire(";", |Wires(events)| - if Woken(events) then 2 else 0);
  }

  /** Null commands, and the questions after them. */
  lemma Opened(opening: seq<PortEvent>, n: nat, asked: seq<PortEvent>)
    requires Wires(opening) == Repeated(";", n)
    requires if Woken(opening) then Wires(asked) == ["RV;", "SN;"] else asked == []
    ensures IsOpening(opening + asked) && (Woken(opening + asked) <==> Woken(opening))
  {
    hide Wires, Lines, Answers, Woken, Repeated;
    RepeatedConcat(";", n, 0);
    if Woken(opening) {
      WiresConcat(opening, asked);
      StaysWoken(opening, asked);
    } else {
      assert opening + asked == opening;
      assert Repeated(";", n) + [] == Repeated(";", n);
    }
  }

  lemma StaysWoken(opening: seq<PortEvent>, asked: seq<PortEvent>)
    requires Woken(opening)
    ensures Woken(opening + asked)
  {
    hide Lines, Answers;
    LinesConcat(opening, asked);
    var line :| line in Lines(opening) && Answers(NullWake, line);
    assert line in Lines(opening + asked);
  }

  lemma QueriesPermitted(g: Gate, wires: seq<string>)
    requires AreQueries(wires)
    ensures AllPermitted(g, wires)
  {
  }

  lemma QueriesAreNotControls(wires: seq<string>)
    requires AreQueries(wires)
    ensures ControlWires(wires) == []
  {
    forall wire <- wires
      ensures wire !in CONTROL_WIRES
    {
      QueryIsNotControl(wire);
    }
    NoneSelected(wires, CONTROL_WIRES);
  }

  lemma QueryIsNotControl(wire: string)
    requires wire in READ_ONLY_WIRES
    ensures wire !in CONTROL_WIRES
  {
    assert |wire| != 2 && (|wire| == 4 ==> wire[0] != 'A') && (|wire| == 5 ==> wire[0] == 'V');
    assert forall c <- SWITCH_WIRES :: (|c| == 4 && c[0] == 'A') || (|c| == 5 && c[0] == 'B');
  }

  lemma NoControlWires()
    ensures ControlWires([]) == []
  {
  }

  lemma WireOfAutotune()
    ensures Wire(Autotune) == "T;"
  {
  }

  /** The commands other tasks can ask for. */
  predicate IsControl(c: Command) {
    c.Autotune? || c.BypassOn? || c.BypassOff? || c.AntennaSelect?
  }

  lemma ControlWireSelected(c: Command)
    requires IsControl(c)
    ensures ControlWires([Wire(c)]) == [Wire(c)] && Wire(c) in CONTROL_WIRES
  {
    OneSelected(Wire(c), CONTROL_WIRES);
    assert Wire(c) in CONTROL_WIRES;
  }

  lemma ControlWirePermitted(c: Command, g: Gate)
    requires IsControl(c) && EnsureCanSend(g, SafetyOf(c)).None?
    ensures AllPermitted(g, [Wire(c)]) && ControlWires([Wire(c)]) == [Wire(c)] && Wire(c) in CONTROL_WIRES
  {
    OneSelected(Wire(c), CONTROL_WIRES);
    assert Wire(c) in CONTROL_WIRES;
  }

  /** Polls of one command, and nothing else. */
  lemma {:induction false} SamePolls(wire: string, pieces: seq<seq<PortEvent>>)
    requires forall i :: 0 <= i < |pieces| ==> Wires(pieces[i]) == [wire]
    ensures Wires(Flatten(pieces)) == Repeated(wire, |pieces|)
  {
    hide Wires;
    NoWires(Gate(true, false, false));
    if pieces != [] {
      var n := |pieces| - 1;
      SamePolls(wire, pieces[..n]);
      WiresConcat(Flatten(pieces[..n]), pieces[n]);
    }
  }
}
