/** Batches of requests: what is asked for, what is transmitted for it, and the record of tunes. */
module KatBatch {
  import opened Sequences
  import opened Text
  import opened SafetyGate
  import opened Serial
  import opened KatLines
  import opened KatPoll
  import opened KatWires
  import opened TuneLifecycle

  datatype Desired = Desired(autotune: bool, antenna: Option<nat>, bypass: Option<bool>, manual: bool)

  function BypassCommand(on: bool): Command {
    if on then BypassOn else BypassOff
  }

  function PlannedAntenna(d: Desired): seq<string> {
    match d.antenna
    case Some(1) => ["AN1;"]
    case Some(2) => ["AN2;"]
    case Some(3) => ["AN3;"]
    case Some(_) => ["AN?;"]
    case None => []
  }

  function PlannedBypass(d: Desired): seq<string> {
    match d.bypass
    case Some(on) => [if on then "BYPB;" else "BYPN;"]
    case None => []
  }

  /** The wires a batch of requests asks for, in the order they are carried out. */
  function Planned(d: Desired): seq<string> {
    (if d.autotune then ["T;"] else []) + (PlannedAntenna(d) + PlannedBypass(d))
  }

  // ---------------------------------------------------------------- one batch

  /** A transmitted command on the trace, and the answer it got. */
  datatype Exchanged = Exchanged(answer: Option<SerialRead>, piece: seq<PortEvent>)

  predicate IsExchangeOf(c: Command, x: Exchanged) {
    IsExchange(Wire(c), x.answer, x.piece) && IsOutcomeOf(c, x.answer)
  }

  predicate Answered(x: Option<Exchanged>) {
    x.Some? && x.value.answer.Some?
  }

  function PieceOf(x: Option<Exchanged>): seq<PortEvent> {
    if x.Some? then x.value.piece else []
  }

  predicate TuneOpen(g: Gate) {
    !g.dryRun && g.allowRfRisk
  }

  predicate SwitchOpen(g: Gate) {
    !g.dryRun && g.allowControl
  }

  /** The two gates of a batch are those of its commands. */
  lemma GateOfCommand(g: Gate, c: Command)
    requires IsControl(c)
    ensures EnsureCanSend(g, SafetyOf(c)).None? <==> if c == Autotune then TuneOpen(g) else SwitchOpen(g)
  {
  }

  /** The commands for the switches have the wires that were asked for. */
  lemma PlannedWires(d: Desired)
    ensures d.antenna.Some? ==> PlannedAntenna(d) == [Wire(AntennaSelect(d.antenna.value))]
    ensures d.bypass.Some? ==> PlannedBypass(d) == [Wire(BypassCommand(d.bypass.value))]
    ensures Wire(Autotune) == "T;"
  {
  }

  /** A batch of requests, the record of its tune, and the parts of its trace: the frequency
      before a tune, the tune, the polls after it, and the switches. */
  datatype Batch = Batch(asked: Desired, record: Option<TuneRecord>, before: seq<PortEvent>,
                         tune: Option<Exchanged>, polls: seq<PortEvent>,
                         antenna: Option<Exchanged>, bypass: Option<Exchanged>)

  function BatchTrace(b: Batch): seq<PortEvent> {
    b.before + PieceOf(b.tune) + b.polls + (PieceOf(b.antenna) + PieceOf(b.bypass))
  }

  function FateOf(b: Batch): Option<Fate> {
    if b.record.Some? then Some(b.record.value.fate) else None
  }

  /** Does a batch go on to its switches? */
  predicate GoesToSwitches(b: Batch) {
    FateOf(b) in {None, Some(Executed)}
  }

  /** Each request taken is transmitted exactly when the gate lets it, unless its batch was
      dropped before: by a tune that was suppressed or not executed, or, for bypass, by an
      antenna command without an answer. A tune transmitted is executed exactly when answered. */
  predicate IsCarriedOut(b: Batch, g: Gate) {
    && (b.record.Some? <==> b.asked.autotune)
    && (b.tune.Some? <==> FateOf(b) in {Some(Executed), Some(Failed)} && TuneOpen(g))
    && (FateOf(b) == Some(Executed) <==> Answered(b.tune))
    && AreSwitched(b.asked, g, GoesToSwitches(b), b.antenna, b.bypass)
    && (b.tune.Some? ==> IsExchangeOf(Autotune, b.tune.value) && Wires(b.tune.value.piece) == ["T;"])
    && (FateOf(b) in {None, Some(Suppressed)} ==> b.before == [])
    && (FateOf(b) != Some(Executed) ==> b.polls == [])
    && ControlWires(Wires(b.before)) == [] && ControlWires(Wires(b.polls)) == []
  }

  /** The switches of a batch that `goes` on to them. */
  predicate AreSwitched(d: Desired, g: Gate, goes: bool, antenna: Option<Exchanged>, bypass: Option<Exchanged>) {
    && (antenna.Some? <==> d.antenna.Some? && SwitchOpen(g) && goes)
    && (bypass.Some? <==> d.bypass.Some? && SwitchOpen(g) && goes && (d.antenna.Some? ==> Answered(antenna)))
    && (antenna.Some? ==>
          IsExchangeOf(AntennaSelect(d.antenna.value), antenna.value)
          && Wires(antenna.value.piece) == PlannedAntenna(d))
    && (bypass.Some? ==>
          IsExchangeOf(BypassCommand(d.bypass.value), bypass.value) && Wires(bypass.value.piece) == PlannedBypass(d))
  }

  /** What a batch transmits of what it asks for. */
  function CarriedOf(b: Batch): seq<string> {
    (if b.tune.Some? then ["T;"] else [])
    + ((if b.antenna.Some? then PlannedAntenna(b.asked) else [])
       + (if b.bypass.Some? then PlannedBypass(b.asked) else []))
  }

  // The batch of a driver, as it grows.

  lemma EmptyBatch(b: Batch, g: Gate)
    requires b == Batch(b.asked, None, [], None, [], None, None)
    ensures BatchTrace(b) == [] && RecordsOf([b]) == []
    ensures b.asked == Desired(false, None, None, b.asked.manual) ==> IsCarriedOut(b, g)
  {
    hide ControlWires, Wires;
    NoWires(g);
    NoControlWires();
    RecordsOfOne(b);
  }

  /** A batch after its tune. If the tune was not executed, the batch ends there. */
  lemma TunedBatch(b: Batch, g: Gate)
    requires b.asked.autotune && b.record.Some? && b.antenna.None? && b.bypass.None?
    ensures BatchTrace(b) == b.before + (PieceOf(b.tune) + b.polls) && RecordsOf([b]) == [b.record.value]
    ensures
      && (b.tune.Some? <==> FateOf(b) != Some(Suppressed) && TuneOpen(g))
      && (FateOf(b) == Some(Executed) <==> Answered(b.tune))
      && (b.tune.Some? ==> IsExchangeOf(Autotune, b.tune.value))
      && (FateOf(b) == Some(Suppressed) ==> b.before == [])
      && (FateOf(b) != Some(Executed) ==> b.polls == [])
      && ControlWires(Wires(b.before)) == [] && ControlWires(Wires(b.polls)) == []
      && FateOf(b) != Some(Executed)
      ==> IsCarriedOut(b, g)
  {
    hide ControlWires, Wires, IsExchangeOf;
    if b.tune.Some? && IsExchangeOf(Autotune, b.tune.value) {
      ExchangeWires(Autotune, b.tune.value);
      WireOfAutotune();
    }
    RecordsOfOne(b);
    assert b.record.value.fate.Executed? || b.record.value.fate.Failed? || b.record.value.fate.Suppressed?;
    assert b.before + PieceOf(b.tune) + b.polls + ([] + []) == b.before + (PieceOf(b.tune) + b.polls);
  }

  /** A batch that goes on to its switches. */
  lemma SwitchedBatch(b: Batch, antenna: Option<Exchanged>, bypass: Option<Exchanged>, g: Gate, sends: seq<Send>)
    requires b.antenna.None? && b.bypass.None? && GoesToSwitches(b)
    requires AreSwitched(b.asked, g, true, antenna, bypass)
    requires b.record.Some? <==> b.asked.autotune
    requires b.record.Some? ==> TuneOpen(g) && Answered(b.tune) && IsExchangeOf(Autotune, b.tune.value)
    requires b.record.None? ==> b.tune.None? && b.before == [] && b.polls == []
    requires ControlWires(Wires(b.before)) == [] && ControlWires(Wires(b.polls)) == []
    requires AllPermitted(g, Wires(BatchTrace(b))) && AllPermitted(g, Wires(PieceOf(antenna) + PieceOf(bypass)))
    requires SentBy(BatchTrace(b), FREQUENCY_WIRES, sends)
    requires SentBy(PieceOf(antenna) + PieceOf(bypass), FREQUENCY_WIRES, [])
    ensures var end := b.(antenna := antenna, bypass := bypass);
            && IsCarriedOut(end, g) && RecordsOf([end]) == RecordsOf([b])
            && BatchTrace(end) == BatchTrace(b) + (PieceOf(antenna) + PieceOf(bypass))
            && AllPermitted(g, Wires(BatchTrace(end))) && SentBy(BatchTrace(end), FREQUENCY_WIRES, sends)
  {
    hide ControlWires, Wires, IsExchangeOf, AllPermitted, SentBy, TuneOpen, AreSwitched, PlannedAntenna, PlannedBypass;
    if b.record.Some? {
      ExchangeWires(Autotune, b.tune.value);
      WireOfAutotune();
    }
    RecordsOfOne(b);
    RecordsOfOne(b.(antenna := antenna, bypass := bypass));
    var more := PieceOf(antenna) + PieceOf(bypass);
    assert BatchTrace(b) == b.before + PieceOf(b.tune) + b.polls;
    WiresConcat(BatchTrace(b), more);
    AllPermittedConcat(g, Wires(BatchTrace(b)), Wires(more));
    SentByConcat(BatchTrace(b), sends, more, [], FREQUENCY_WIRES);
  }

  /** The control wires on the trace of a batch. */
  lemma BatchCarries(b: Batch, g: Gate)
    requires IsCarriedOut(b, g)
    ensures ControlWires(Wires(BatchTrace(b))) == CarriedOf(b)
  {
    hide Wire, ControlWires, Wires, TuneOpen, SwitchOpen, IsExchangeOf, GoesToSwitches, PlannedAntenna, PlannedBypass;
    PlannedWires(b.asked);
    NoWires(g);
    NoControlWires();
    WireOfAutotune();
    if b.tune.Some? { ExchangeCarries(Autotune, b.tune.value); }
    if b.antenna.Some? { ExchangeCarries(AntennaSelect(b.asked.antenna.value), b.antenna.value); }
    if b.bypass.Some? { ExchangeCarries(BypassCommand(b.asked.bypass.value), b.bypass.value); }
    TraceConcat(b.before, PieceOf(b.tune));
    TraceConcat(b.before + PieceOf(b.tune), b.polls);
    TraceConcat(PieceOf(b.antenna), PieceOf(b.bypass));
    TraceConcat(b.before + PieceOf(b.tune) + b.polls, PieceOf(b.antenna) + PieceOf(b.bypass));
  }

  lemma TraceConcat(a: seq<PortEvent>, b: seq<PortEvent>)
    ensures ControlWires(Wires(a + b)) == ControlWires(Wires(a)) + ControlWires(Wires(b))
  {
    WiresConcat(a, b);
    ControlWiresConcat(Wires(a), Wires(b));
  }

  /** A transmitted command is on the trace. */
  lemma ExchangeWires(c: Command, x: Exchanged)
    requires IsExchangeOf(c, x)
    ensures Wires(x.piece) == [Wire(c)]
  {
    hide Wires, IsOutcomeOf;
  }

  lemma ExchangeCarries(c: Command, x: Exchanged)
    requires IsControl(c) && IsExchangeOf(c, x)
    ensures ControlWires(Wires(x.piece)) == [Wire(c)]
  {
    hide Wires, IsOutcomeOf;
    ControlWireSelected(c);
  }

  /** Exactly when a batch is transmitted in full: its tune, if asked for, was not suppressed and
      the gate lets it; its switches, if any, find their gate open, the tune, if any, answered,
      and bypass the antenna, if asked for, answered. */
  lemma CarriedInFullExactly(b: Batch, g: Gate)
    requires IsCarriedOut(b, g)
    ensures CarriedOf(b) == Planned(b.asked) <==>
      && (b.asked.autotune ==> FateOf(b) != Some(Suppressed) && TuneOpen(g))
      && (b.asked.antenna.Some? || b.asked.bypass.Some? ==>
            SwitchOpen(g) && (b.asked.autotune ==> Answered(b.tune)))
      && (b.asked.antenna.Some? && b.asked.bypass.Some? ==> Answered(b.antenna))
  {
    hide CarriedOf, Planned, TuneOpen, SwitchOpen, IsExchangeOf, ControlWires, Wires, PlannedAntenna, PlannedBypass;
    InFullIfAll(b);
    assert b.record.Some? ==> b.record.value.fate.Executed? || b.record.value.fate.Failed?
                              || b.record.value.fate.Suppressed?;
  }

  lemma InFullIfAll(b: Batch)
    requires b.tune.Some? ==> b.asked.autotune
    requires b.antenna.Some? ==> b.asked.antenna.Some?
    requires b.bypass.Some? ==> b.asked.bypass.Some?
    ensures CarriedOf(b) == Planned(b.asked) <==>
      && (b.asked.autotune ==> b.tune.Some?)
      && (b.asked.antenna.Some? ==> b.antenna.Some?)
      && (b.asked.bypass.Some? ==> b.bypass.Some?)
  {
    hide Wire;
    assert |CarriedOf(b)| == (if b.tune.Some? then 1 else 0) + (if b.antenna.Some? then 1 else 0)
                             + (if b.bypass.Some? then 1 else 0);
    assert |Planned(b.asked)| == (if b.asked.autotune then 1 else 0) + (if b.asked.antenna.Some? then 1 else 0)
                                 + (if b.asked.bypass.Some? then 1 else 0);
  }

  /** Batches of which something is dropped although the gate is open to everything: after a
      suppressed tune, after a tune without an answer, and after an antenna command without one. */
  lemma RequestsAreDropped(at: int)
    ensures var open, d := Gate(false, true, true), Desired(true, None, Some(true), false);
            && IsCarriedOut(Batch(d, Some(TuneRecord(at, Suppressed)), [], None, [], None, None), open)
            && CarriedOf(Batch(d, Some(TuneRecord(at, Suppressed)), [], None, [], None, None)) == []
    ensures var open, d := Gate(false, true, true), Desired(true, None, Some(true), false);
            var b := Batch(d, Some(TuneRecord(at, Failed)), [], Some(Unanswered("T;")), [], None, None);
            IsCarriedOut(b, open) && CarriedOf(b) == ["T;"]
    ensures var open, d := Gate(false, true, true), Desired(false, Some(2), Some(true), false);
            var b := Batch(d, None, [], None, [], Some(Unanswered("AN2;")), None);
            IsCarriedOut(b, open) && CarriedOf(b) == ["AN2;"]
  {
    hide ControlWires, Wires;
    NoWires(Gate(false, true, true));
    NoControlWires();
    UnansweredExchange("T;");
    UnansweredExchange("AN2;");
  }

  function Unanswered(wire: string): Exchanged {
    Exchanged(None, [Tx(wire), Deadline])
  }

  lemma UnansweredExchange(wire: string)
    ensures IsExchange(wire, Unanswered(wire).answer, Unanswered(wire).piece)
  {
    ExchangeReads(wire, [], [Deadline]);
    assert ExchangeEvents(wire, [], [Deadline]) == [Tx(wire), Deadline];
  }

  // ---------------------------------------------------------------- many batches

  function CarriedBy(batches: seq<Batch>): seq<string> {
    if batches == [] then [] else CarriedBy(batches[..|batches| - 1]) + CarriedOf(batches[|batches| - 1])
  }

  /** The records of the tunes that some batches ask for, in order. */
  function RecordsOf(batches: seq<Batch>): seq<TuneRecord> {
    if batches == [] then []
    else
      var last := batches[|batches| - 1];
      RecordsOf(batches[..|batches| - 1]) + (if last.record.Some? then [last.record.value] else [])
  }

  /** How many batches ask for a tune. */
  function TunesAsked(batches: seq<Batch>): nat {
    if batches == [] then 0
    else TunesAsked(batches[..|batches| - 1]) + (if batches[|batches| - 1].asked.autotune then 1 else 0)
  }

  /** Every tune request taken has exactly one record. */
  lemma {:induction false} EveryTuneIsRecorded(batches: seq<Batch>, g: Gate)
    requires forall b <- batches :: IsCarriedOut(b, g)
    ensures |RecordsOf(batches)| == TunesAsked(batches)
  {
    hide AreSwitched, ControlWires, Wires;
    if batches != [] {
      EveryTuneIsRecorded(batches[..|batches| - 1], g);
      assert IsCarriedOut(batches[|batches| - 1], g);
    }
  }

  lemma RecordsOfOne(b: Batch)
    ensures RecordsOf([b]) == if b.record.Some? then [b.record.value] else []
  {
    assert [b][..0] == [];
  }

  lemma BatchGrows(batches: seq<Batch>, b: Batch)
    ensures CarriedBy(batches + [b]) == CarriedBy(batches) + CarriedOf(b)
    ensures RecordsOf(batches + [b]) == RecordsOf(batches) + RecordsOf([b])
  {
    hide CarriedOf;
    assert (batches + [b])[..|batches|] == batches;
    RecordsOfOne(b);
  }

  /** Where the record of a batch is among the records of all of them. */
  lemma {:induction false} RecordPlace(batches: seq<Batch>, i: nat)
    requires i < |batches| && batches[i].record.Some?
    ensures var k := |RecordsOf(batches[..i])|;
            k < |RecordsOf(batches)| && RecordsOf(batches)[k] == batches[i].record.value
  {
    var n := |batches| - 1;
    if i < n {
      assert batches[..n][..i] == batches[..i];
      RecordPlace(batches[..n], i);
    }
  }

  lemma TransmittedIsAccepted(b: Batch, g: Gate)
    requires IsCarriedOut(b, g) && b.tune.Some?
    ensures b.record.Some? && b.record.value.fate != Suppressed
  {
  }

  /** In a run on a clock that does not go backwards, two `T;` on the trace belong to two
      accepted requests at least 1500 ms apart. */
  lemma TransmittedTunesAreSpaced(earlier: seq<TuneRecord>, batches: seq<Batch>, g: Gate, i: nat, j: nat)
    requires Spaced(earlier + RecordsOf(batches)) && Nondecreasing(earlier + RecordsOf(batches))
    requires forall b <- batches :: IsCarriedOut(b, g)
    requires i < j < |batches| && batches[i].tune.Some? && batches[j].tune.Some?
    ensures batches[i].record.Some? && batches[j].record.Some?
    ensures batches[j].record.value.at - batches[i].record.value.at >= 1_500_000_000
  {
    hide IsCarriedOut, Spaced;
    var log := earlier + RecordsOf(batches);
    TransmittedIsAccepted(batches[i], g);
    TransmittedIsAccepted(batches[j], g);
    RecordPlace(batches, i);
    RecordPlace(batches, j);
    assert batches[..j][..i] == batches[..i];
    RecordPlace(batches[..j], i);
    AcceptedTunesAreSpaced(log, |earlier| + |RecordsOf(batches[..i])|, |earlier| + |RecordsOf(batches[..j])|);
  }

  // ---------------------------------------------------------------- whole runs

  /** One pass of the driver's loop: opening the port, or a turn of follow, control and poll. */
  datatype Pass = Opening(events: seq<PortEvent>)
                | Turning(followed: seq<PortEvent>, batch: Batch, polled: seq<PortEvent>)

  function PassTrace(p: Pass): seq<PortEvent> {
    match p
    case Opening(events) => events
    case Turning(followed, batch, polled) => followed + BatchTrace(batch) + polled
  }

  /** A pass of the loop is what it should be: opening transmits queries, and a turn carries out
      its batch between a follow and a whole poll, which transmit no controls. */
  ghost predicate IsPass(p: Pass, g: Gate) {
    match p
    case Opening(events) => IsOpening(events)
    case Turning(followed, batch, polled) =>
      && ControlWires(Wires(followed)) == []
      && IsCarriedOut(batch, g)
      && Wires(polled) == POLL_WIRES
  }

  /** A pass after which the port is open. */
  ghost predicate LeavesOpen(p: Pass) {
    p.Turning? || Woken(p.events)
  }

  /** A pass is a turn exactly when the pass before it left the port open. */
  ghost predicate OpensFirst(passes: seq<Pass>) {
    passes == [] ||
    var n := |passes| - 1;
    OpensFirst(passes[..n]) && (passes[n].Turning? <==> n > 0 && LeavesOpen(passes[n - 1]))
  }

  lemma OpensFirstGrows(passes: seq<Pass>, p: Pass)
    requires OpensFirst(passes)
    requires p.Turning? <==> passes != [] && LeavesOpen(passes[|passes| - 1])
    ensures OpensFirst(passes + [p])
  {
    hide LeavesOpen;
    assert (passes + [p])[..|passes|] == passes;
  }

  function RunTrace(passes: seq<Pass>): seq<PortEvent> {
    if passes == [] then [] else RunTrace(passes[..|passes| - 1]) + PassTrace(passes[|passes| - 1])
  }

  function BatchesOf(passes: seq<Pass>): seq<Batch> {
    if passes == [] then []
    else
      var last := passes[|passes| - 1];
      BatchesOf(passes[..|passes| - 1]) + (if last.Turning? then [last.batch] else [])
  }

  /** A follow, a batch and a poll make a turn. */
  lemma TurnIsPass(followed: seq<PortEvent>, sends: seq<Send>, batch: Batch, more: seq<Send>,
                   polled: seq<PortEvent>, g: Gate)
    requires ControlWires(Wires(followed)) == [] && IsCarriedOut(batch, g) && Wires(polled) == POLL_WIRES
    requires AllPermitted(g, Wires(followed)) && SentBy(followed, FREQUENCY_WIRES, sends)
    requires AllPermitted(g, Wires(BatchTrace(batch))) && SentBy(BatchTrace(batch), FREQUENCY_WIRES, more)
    ensures var p := Turning(followed, batch, polled);
            IsPass(p, g) && AllPermitted(g, Wires(PassTrace(p))) && SentBy(PassTrace(p), FREQUENCY_WIRES, sends + more)
    ensures Completed(sends + more) == Completed(sends) + Completed(more)
  {
    hide Wires, ControlWires, AllPermitted, SentBy, IsCarriedOut, BatchTrace, Completed;
    var controlled := BatchTrace(batch);
    PollPermitted(g, polled);
    WiresConcat(followed + controlled, polled);
    WiresConcat(followed, controlled);
    AllPermittedConcat(g, Wires(followed), Wires(controlled));
    AllPermittedConcat(g, Wires(followed) + Wires(controlled), Wires(polled));
    SendsConcat(sends, more);
    SentByConcat(followed, sends, controlled, more, FREQUENCY_WIRES);
    SentByConcat(followed + controlled, sends + more, polled, [], FREQUENCY_WIRES);
  }

  lemma OpeningIsPass(events: seq<PortEvent>, g: Gate)
    requires IsOpening(events)
    ensures IsPass(Opening(events), g) && PassTrace(Opening(events)) == events
  {
  }

  /** The passes of a run are what they should be, transmit permitted wires alone, and of
      frequencies exactly those of some sends. */
  ghost predicate IsRun(passes: seq<Pass>, sends: seq<Send>, g: Gate) {
    && (forall p <- passes :: IsPass(p, g))
    && AllPermitted(g, Wires(RunTrace(passes)))
    && SentBy(RunTrace(passes), FREQUENCY_WIRES, sends)
  }

  lemma NoPasses(g: Gate)
    ensures RunTrace([]) == [] && RecordsOf(BatchesOf([])) == [] && Completed([]) == []
    ensures IsRun([], [], g)
  {
    hide Wires, SentBy;
    NoWires(g);
    NoFrequencies([]);
  }

  /** One more pass of a run. */
  lemma RunGrows(passes: seq<Pass>, sends: seq<Send>, p: Pass, sent: seq<Send>, g: Gate)
    requires IsRun(passes, sends, g) && IsPass(p, g)
    requires AllPermitted(g, Wires(PassTrace(p))) && SentBy(PassTrace(p), FREQUENCY_WIRES, sent)
    ensures IsRun(passes + [p], sends + sent, g)
    ensures RunTrace(passes + [p]) == RunTrace(passes) + PassTrace(p)
    ensures Completed(sends + sent) == Completed(sends) + Completed(sent)
    ensures RecordsOf(BatchesOf(passes + [p]))
         == RecordsOf(BatchesOf(passes)) + (if p.Turning? then RecordsOf([p.batch]) else [])
  {
    hide Wires, SentBy, AllPermitted, IsPass, PassTrace, RecordsOf, Completed, CarriedOf;
    PassGrows(passes, p);
    WiresConcat(RunTrace(passes), PassTrace(p));
    AllPermittedConcat(g, Wires(RunTrace(passes)), Wires(PassTrace(p)));
    SendsConcat(sends, sent);
    SentByConcat(RunTrace(passes), sends, PassTrace(p), sent, FREQUENCY_WIRES);
    if p.Turning? { BatchGrows(BatchesOf(passes), p.batch); }
  }

  /** What the passes of a run say of its trace and of the requests taken. */
  lemma RunSays(passes: seq<Pass>, sends: seq<Send>, g: Gate)
    requires IsRun(passes, sends, g)
    ensures AllPermitted(g, Wires(RunTrace(passes))) && SentBy(RunTrace(passes), FREQUENCY_WIRES, sends)
    ensures forall p <- passes :: IsPass(p, g)
    ensures ControlWires(Wires(RunTrace(passes))) == CarriedBy(BatchesOf(passes))
    ensures forall b <- BatchesOf(passes) :: IsCarriedOut(b, g)
    ensures |RecordsOf(BatchesOf(passes))| == TunesAsked(BatchesOf(passes))
  {
    hide Wires, SentBy, AllPermitted, IsPass, ControlWires, CarriedBy, IsCarriedOut, RecordsOf, TunesAsked, RunTrace,
         BatchesOf;
    RunCarries(passes, g);
    EveryTuneIsRecorded(BatchesOf(passes), g);
  }

  lemma PassGrows(passes: seq<Pass>, p: Pass)
    ensures RunTrace(passes + [p]) == RunTrace(passes) + PassTrace(p)
    ensures BatchesOf(passes + [p]) == if p.Turning? then BatchesOf(passes) + [p.batch] else BatchesOf(passes)
  {
    hide PassTrace;
    assert (passes + [p])[..|passes|] == passes;
  }

  lemma OpeningAddsNothing(passes: seq<Pass>, p: Pass)
    requires p.Opening?
    ensures BatchesOf(passes) + [] == BatchesOf(passes)
    ensures CarriedBy(BatchesOf(passes)) + [] == CarriedBy(BatchesOf(passes))
  {
  }

  /** The control wires of a turn are those its batch transmits. */
  lemma PassCarries(p: Pass, g: Gate)
    requires IsPass(p, g)
    ensures ControlWires(Wires(PassTrace(p))) == if p.Turning? then CarriedOf(p.batch) else []
  {
    hide IsCarriedOut, CarriedOf, ControlWires, Wires, AreQueries, BatchTrace;
    match p
    case Opening(events) =>
      OpeningIsQueries(events);
      QueriesAreNotControls(Wires(events));
    case Turning(followed, batch, polled) =>
      PollPermitted(g, polled);
      BatchCarries(batch, g);
      TurnWires(followed, BatchTrace(batch), polled);
  }

  /** The tune, antenna and bypass commands on the trace of a run are exactly those its batches
      transmit, in order. */
  lemma {:induction false} RunCarries(passes: seq<Pass>, g: Gate)
    requires forall p <- passes :: IsPass(p, g)
    ensures ControlWires(Wires(RunTrace(passes))) == CarriedBy(BatchesOf(passes))
    ensures forall b <- BatchesOf(passes) :: IsCarriedOut(b, g)
  {
    hide IsCarriedOut, CarriedOf, ControlWires, Wires, PassTrace;
    if passes == [] {
      NoWires(g);
      NoControlWires();
    } else {
      var before, last := passes[..|passes| - 1], passes[|passes| - 1];
      RunCarries(before, g);
      assert IsPass(last, g);
      PassCarries(last, g);
      TraceConcat(RunTrace(before), PassTrace(last));
      if last.Turning? { BatchGrows(BatchesOf(before), last.batch); } else { OpeningAddsNothing(before, last); }

    }
  }
}
