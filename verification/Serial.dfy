/** A serial port with an arbitrary peer, and the request/response exchanges both device
    drivers run over it. Every wire and every line read is kept in a ghost trace. */
module Serial {
  import opened Sequences
  import opened Text
  import opened SafetyGate

  datatype PortEvent =
    | Tx(wire: string)       // a command handed to the port
    | Rx(line: string)       // a line read while waiting for an answer
    | Drained(line: string)  // a stale line read and thrown away
    | Quiet                  // no stale line could be read within a quiet window
    | Deadline               // a timeout fired
    | Broken                 // the port reported an I/O error

  // ---------------------------------------------------------------- reading a trace

  /** The commands handed to the port, in order. */
  function Wires(events: seq<PortEvent>): seq<string> {
    if events == [] then []
    else (if events[0].Tx? then [events[0].wire] else []) + Wires(events[1..])
  }

  /** The lines read while waiting for answers, in order. */
  function Lines(events: seq<PortEvent>): seq<string> {
    if events == [] then []
    else (if events[0].Rx? then [events[0].line] else []) + Lines(events[1..])
  }

  /** The lines read before the next command. */
  function LinesUntilWire(events: seq<PortEvent>): seq<string> {
    if events == [] || events[0].Tx? then []
    else (if events[0].Rx? then [events[0].line] else []) + LinesUntilWire(events[1..])
  }

  /** The lines read between the first command, with which a trace begins, and the second. */
  function FirstLines(events: seq<PortEvent>): seq<string> {
    if events == [] then [] else LinesUntilWire(events[1..])
  }

  /** The lines read after the last command. */
  function LastLines(events: seq<PortEvent>): seq<string> {
    if events == [] || events[|events| - 1].Tx? then []
    else
      var last := events[|events| - 1];
      LastLines(events[..|events| - 1]) + (if last.Rx? then [last.line] else [])
  }

  function Received(lines: seq<string>): seq<PortEvent> {
    seq(|lines|, i requires 0 <= i < |lines| => Rx(lines[i]))
  }

  function Discarded(lines: seq<string>): seq<PortEvent> {
    seq(|lines|, i requires 0 <= i < |lines| => Drained(lines[i]))
  }

  lemma {:induction false} WiresConcat(a: seq<PortEvent>, b: seq<PortEvent>)
    ensures Wires(a + b) == Wires(a) + Wires(b)
  {
    if a == [] {
      assert a + b == b;
    } else {
      assert (a + b)[1..] == a[1..] + b && (a + b)[0] == a[0];
      WiresConcat(a[1..], b);
    }
  }

  lemma {:induction false} LinesConcat(a: seq<PortEvent>, b: seq<PortEvent>)
    ensures Lines(a + b) == Lines(a) + Lines(b)
  {
    if a == [] {
      assert a + b == b;
    } else {
      assert (a + b)[1..] == a[1..] + b && (a + b)[0] == a[0];
      LinesConcat(a[1..], b);
    }
  }

  lemma {:induction false} UntilWireSplits(a: seq<PortEvent>, b: seq<PortEvent>)
    requires Wires(a) == []
    ensures LinesUntilWire(a + b) == Lines(a) + LinesUntilWire(b)
  {
    if a == [] {
      assert a + b == b;
    } else {
      var first, rest := a[0], a[1..];
      assert (a + b)[1..] == rest + b && (a + b)[0] == first;
      assert !first.Tx? && Wires(rest) == [];
      UntilWireSplits(rest, b);
      var head := if first.Rx? then [first.line] else [];
      assert head + (Lines(rest) + LinesUntilWire(b)) == (head + Lines(rest)) + LinesUntilWire(b);
    }
  }

  lemma {:induction false} UntilWireStays(a: seq<PortEvent>, b: seq<PortEvent>)
    requires b != [] && b[0].Tx?
    ensures LinesUntilWire(a + b) == LinesUntilWire(a)
  {
    if a == [] {
      assert a + b == b;
    } else {
      assert (a + b)[1..] == a[1..] + b && (a + b)[0] == a[0];
      UntilWireStays(a[1..], b);
    }
  }

  lemma {:induction false} LastLinesOf(a: seq<PortEvent>, b: seq<PortEvent>)
    requires a != [] && a[|a| - 1].Tx? && Wires(b) == []
    ensures LastLines(a + b) == Lines(b)
  {
    hide Wires, Lines;
    if b == [] {
      assert a + b == a && Received([]) == [];
      ReceivedReads([]);
    } else {
      var n := |b| - 1;
      assert b == b[..n] + [b[n]] && (a + b)[..|a + b| - 1] == a + b[..n] && (a + b)[|a + b| - 1] == b[n];
      WiresConcat(b[..n], [b[n]]);
      LinesConcat(b[..n], [b[n]]);
      OneEvent(b[n]);
      LastLinesOf(a, b[..n]);
    }
  }

  lemma OneEvent(e: PortEvent)
    ensures Wires([e]) == (if e.Tx? then [e.wire] else []) && Lines([e]) == if e.Rx? then [e.line] else []
  {
  }

  /** One more command at the end of a trace, and the lines read for it. */
  lemma TransmissionGrows(body: seq<PortEvent>, events: seq<PortEvent>)
    requires events != [] && events[0].Tx? && Wires(events) == [events[0].wire]
    ensures body + events != [] && LastLines(body + events) == Lines(events)
    ensures FirstLines(body + events) == if body == [] then Lines(events) else FirstLines(body)
  {
    hide Wires, Lines, LinesUntilWire, LastLines;
    var first, more := events[0], events[1..];
    assert events == [first] + more;
    OneEvent(first);
    WiresConcat([first], more);
    LinesConcat([first], more);
    assert body + events == (body + [first]) + more;
    LastLinesOf(body + [first], more);
    if body == [] {
      assert body + events == events && more + [] == more;
      UntilWireSplits(more, []);
      assert LinesUntilWire([]) == [] by { UntilWireEnds(); }
    } else {
      assert (body + events)[1..] == body[1..] + events;
      UntilWireStays(body[1..], events);
    }
  }

  lemma UntilWireEnds()
    ensures LinesUntilWire([]) == []
  {
  }

  lemma {:induction false} ReceivedReads(lines: seq<string>)
    ensures Wires(Received(lines)) == [] && Lines(Received(lines)) == lines
  {
    if lines != [] {
      assert Received(lines)[1..] == Received(lines[1..]);
      ReceivedReads(lines[1..]);
    }
  }

  lemma {:induction false} DiscardedReads(lines: seq<string>)
    ensures Wires(Discarded(lines)) == [] && Lines(Discarded(lines)) == []
  {
    if lines != [] {
      assert Discarded(lines)[1..] == Discarded(lines[1..]);
      DiscardedReads(lines[1..]);
    }
  }

  /** The trace of one command and its answer. */
  function ExchangeEvents(wire: string, lines: seq<string>, tail: seq<PortEvent>): seq<PortEvent> {
    [Tx(wire)] + Received(lines) + tail
  }

  lemma ExchangeReads(wire: string, lines: seq<string>, tail: seq<PortEvent>)
    requires tail == [] || tail == [Deadline] || tail == [Broken]
    ensures Wires(ExchangeEvents(wire, lines, tail)) == [wire]
    ensures Lines(ExchangeEvents(wire, lines, tail)) == lines
  {
    ReceivedReads(lines);
    WiresConcat([Tx(wire)] + Received(lines), tail);
    WiresConcat([Tx(wire)], Received(lines));
    LinesConcat([Tx(wire)] + Received(lines), tail);
    LinesConcat([Tx(wire)], Received(lines));
  }

  // ---------------------------------------------------------------- the port

  class SerialPort {
    ghost var trace: seq<PortEvent>

    constructor ()
      ensures trace == []
    {
      trace := [];
    }

    /** Writes and flushes a command. Even a failed write may have reached the device. */
    method Write(wire: string) returns (ok: bool, ghost events: seq<PortEvent>)
      modifies this
      ensures trace == old(trace) + events
      ensures events == [Tx(wire)] + (if ok then [] else [Broken])
    {
      ok := *;
      events := [Tx(wire)] + (if ok then [] else [Broken]);
      trace := trace + events;
    }

    /** The next line, whatever the peer sends; surrounding white space is not part of it. */
    method ReadLine() returns (line: Option<string>)
      modifies this
      ensures line.Some? ==> Trimmed(line.value)
      ensures trace == old(trace) + [if line.Some? then Rx(line.value) else Broken]
    {
      var text: string := *;
      var broken: bool := *;
      var _, _ := TrimSplits(text);
      line := if broken then None else Some(Trim(text));
      trace := trace + [if line.Some? then Rx(line.value) else Broken];
    }

    /** The next line within a quiet window, if one comes. */
    method ReadStale() returns (line: Option<string>)
      modifies this
      ensures trace == old(trace) + [if line.Some? then Drained(line.value) else Quiet]
    {
      var text: string := *;
      var quiet: bool := *;
      line := if quiet then None else Some(text);
      trace := trace + [if line.Some? then Drained(line.value) else Quiet];
    }

    method Expire()
      modifies this
      ensures trace == old(trace) + [Deadline]
    {
      trace := trace + [Deadline];
    }
  }

  // ---------------------------------------------------------------- one exchange

  datatype SendError = InvalidWire | WriteFailed | ReadFailed | TimedOut

  datatype ControlError = Refused(refusal: Refusal) | SerialFailure(error: SendError)

  datatype SerialRead = SerialRead(response: string, unsolicited: seq<string>)

  /** Every line of an exchange, in arrival order. */
  function Arrived(read: SerialRead): seq<string> {
    read.unsolicited + [read.response]
  }

  /** Sends a command and reads until a line is accepted as its answer, the deadline fires
      or the port fails. The lines before the answer are kept as unsolicited. */
  method Exchange(port: SerialPort, wire: string, accepts: string -> bool)
    returns (result: Result<SerialRead, SendError>, ghost events: seq<PortEvent>)
    modifies port
    ensures port.trace == old(port.trace) + events && Wires(events) == [wire]
    ensures forall line <- Lines(events) :: Trimmed(line)
    ensures result.Success? ==>
      && events == ExchangeEvents(wire, Arrived(result.value), [])
      && accepts(result.value.response)
      && (forall line <- result.value.unsolicited :: !accepts(line))
    ensures result.Failure? ==>
      && events[|events| - 1] == (if result.error == TimedOut then Deadline else Broken)
      && (forall line <- Lines(events) :: !accepts(line))
  {
    var ok, sent := port.Write(wire);
    if !ok {
      ExchangeReads(wire, [], [Broken]);
      assert ExchangeEvents(wire, [], [Broken]) == sent;
      return Failure(WriteFailed), sent;
    }
    var unsolicited: seq<string> := [];
    var patience: nat := *;
    while patience > 0
      invariant port.trace == old(port.trace) + ExchangeEvents(wire, unsolicited, [])
      invariant forall line <- unsolicited :: !accepts(line) && Trimmed(line)
    {
      patience := patience - 1;
      var line := port.ReadLine();
      if line.None? {
        ExchangeReads(wire, unsolicited, [Broken]);
        return Failure(ReadFailed), ExchangeEvents(wire, unsolicited, [Broken]);
      }
      assert Received(unsolicited + [line.value]) == Received(unsolicited) + [Rx(line.value)];
      if accepts(line.value) {
        ExchangeReads(wire, unsolicited + [line.value], []);
        return Success(SerialRead(line.value, unsolicited)),
               ExchangeEvents(wire, unsolicited + [line.value], []);
      }
      unsolicited := unsolicited + [line.value];
    }
    port.Expire();
    ExchangeReads(wire, unsolicited, [Deadline]);
    return Failure(TimedOut), ExchangeEvents(wire, unsolicited, [Deadline]);
  }

  // ---------------------------------------------------------------- confirmed settings

  /** How many lines confirm a value other than the wanted one. */
  function WrongEchoes(lines: seq<string>, echo: string -> Option<nat>, wanted: nat): nat {
    if lines == [] then 0
    else (if echo(lines[0]).Some? && echo(lines[0]).value != wanted then 1 else 0)
         + WrongEchoes(lines[1..], echo, wanted)
  }

  predicate Confirms(lines: seq<string>, echo: string -> Option<nat>, wanted: nat) {
    exists line <- lines :: echo(line) == Some(wanted)
  }

  lemma {:induction false} WrongEchoesConcat(a: seq<string>, b: seq<string>,
                                             echo: string -> Option<nat>, wanted: nat)
    ensures WrongEchoes(a + b, echo, wanted) == WrongEchoes(a, echo, wanted) + WrongEchoes(b, echo, wanted)
  {
    if a == [] {
      assert a + b == b;
    } else {
      assert (a + b)[1..] == a[1..] + b;
      WrongEchoesConcat(a[1..], b, echo, wanted);
    }
  }

  /** One more line read: its effect on the trace and on both counts. */
  lemma OneMoreLine(wire: string, lines: seq<string>, line: string, echo: string -> Option<nat>, wanted: nat)
    ensures ExchangeEvents(wire, lines + [line], []) == ExchangeEvents(wire, lines, []) + [Rx(line)]
    ensures Confirms(lines + [line], echo, wanted) <==> Confirms(lines, echo, wanted) || echo(line) == Some(wanted)
    ensures WrongEchoes(lines + [line], echo, wanted)
         == WrongEchoes(lines, echo, wanted)
            + (if echo(line).Some? && echo(line).value != wanted then 1 else 0)
  {
    assert Received(lines + [line]) == Received(lines) + [Rx(line)];
    WrongEchoesConcat(lines, [line], echo, wanted);
    assert line in lines + [line];
    assert forall l <- lines :: l in lines + [line];
    assert forall l <- lines + [line] :: l in lines || l == line;
  }

  /** The last line worth noting that is no echo of any value. */
  function LastNoted(lines: seq<string>, echo: string -> Option<nat>, noted: string -> bool): Option<string> {
    if lines == [] then None
    else
      var last := lines[|lines| - 1];
      if echo(last).None? && noted(last) then Some(last) else LastNoted(lines[..|lines| - 1], echo, noted)
  }

  lemma NothingNoted(echo: string -> Option<nat>, noted: string -> bool)
    ensures LastNoted([], echo, noted).None?
  {
  }

  lemma OneMoreNoted(lines: seq<string>, line: string, echo: string -> Option<nat>, noted: string -> bool)
    ensures LastNoted(lines + [line], echo, noted)
         == if echo(line).None? && noted(line) then Some(line) else LastNoted(lines, echo, noted)
  {
    assert (lines + [line])[..|lines|] == lines;
  }

  /** What is reported of the lines read for one transmission: the last one with what it
      echoes, or `silence`, and the last one noted. */
  predicate ReportsLast(response: string, confirmed: Option<nat>, aside: Option<string>, lines: seq<string>,
                        echo: string -> Option<nat>, noted: string -> bool, silence: string) {
    && aside == LastNoted(lines, echo, noted)
    && (if lines == [] then response == silence && confirmed == None
        else response == lines[|lines| - 1] && confirmed == echo(lines[|lines| - 1]))
  }

  /** One transmission of a setting. `aside` is the last line of interest seen while waiting. */
  datatype Attempt = Attempt(response: string, confirmed: Option<nat>, matched: bool,
                             aside: Option<string>, stale: nat)

  /** Sends a setting and reads until a line echoes the wanted value or the deadline fires;
      echoes of other values are stale and are counted. `silence` stands for no line at all. */
  method SendOnceExact(port: SerialPort, wire: string, echo: string -> Option<nat>, wanted: nat,
                       noted: string -> bool, silence: string)
    returns (result: Result<Attempt, SendError>, ghost lines: seq<string>, ghost events: seq<PortEvent>)
    modifies port
    ensures port.trace == old(port.trace) + events
    ensures Wires(events) == [wire] && Lines(events) == lines && events != [] && events[0] == Tx(wire)
    ensures result.Failure? ==> result.error != InvalidWire && Broken in events
    ensures result.Success? ==>
      && Broken !in events
      && result.value.matched == Confirms(lines, echo, wanted)
      && result.value.stale == WrongEchoes(lines, echo, wanted)
      && (result.value.matched ==> result.value.confirmed == Some(wanted))
      && ReportsLast(result.value.response, result.value.confirmed, result.value.aside, lines, echo, noted, silence)
      && (if result.value.matched then lines != [] && !Confirms(lines[..|lines| - 1], echo, wanted)
          else events[|events| - 1] == Deadline)
  {
    hide Wires, Lines, Confirms, WrongEchoes, LastNoted;
    NothingHeard(echo);
    NothingNoted(echo, noted);
    var ok, sent := port.Write(wire);
    if !ok {
      ExchangeReads(wire, [], [Broken]);
      assert ExchangeEvents(wire, [], [Broken]) == sent;
      return Failure(WriteFailed), [], sent;
    }
    lines := [];
    var last := (silence, None);
    var aside := None;
    var stale: nat := 0;
    var patience: nat := *;
    while patience > 0
      invariant port.trace == old(port.trace) + ExchangeEvents(wire, lines, [])
      invariant !Confirms(lines, echo, wanted) && stale == WrongEchoes(lines, echo, wanted)
      invariant ReportsLast(last.0, last.1, aside, lines, echo, noted, silence)
    {
      patience := patience - 1;
      var line := port.ReadLine();
      if line.None? {
        ExchangeReads(wire, lines, [Broken]);
        return Failure(ReadFailed), lines, ExchangeEvents(wire, lines, [Broken]);
      }
      var confirmed := echo(line.value);
      OneMoreLine(wire, lines, line.value, echo, wanted);
      OneMoreNoted(lines, line.value, echo, noted);
      lines := lines + [line.value];
      last := (line.value, confirmed);
      if confirmed == Some(wanted) {
        assert lines[..|lines| - 1] + [line.value] == lines;
        ExchangeReads(wire, lines, []);
        return Success(Attempt(line.value, confirmed, true, aside, stale)),
               lines, ExchangeEvents(wire, lines, []);
      }
      if confirmed.Some? {
        stale := stale + 1;
      } else if noted(line.value) {
        aside := Some(line.value);
      }
    }
    port.Expire();
    ExchangeReads(wire, lines, [Deadline]);
    return Success(Attempt(last.0, last.1, false, aside, stale)),
           lines, ExchangeEvents(wire, lines, [Deadline]);
  }

  /** Throws away stale lines until a quiet window passes, twenty lines are gone or the
      time is up. */
  method DrainStaleInput(port: SerialPort)
    returns (drained: nat, ghost lines: seq<string>, ghost events: seq<PortEvent>)
    modifies port
    ensures port.trace == old(port.trace) + events
    ensures drained == |lines| && IsDrain(lines, events)
  {
    drained, lines := 0, [];
    var line := port.ReadStale();
    while line.Some?
      invariant drained == |lines| < 20
      invariant port.trace == old(port.trace) + Discarded(lines)
                              + [if line.Some? then Drained(line.value) else Quiet]
      decreases 20 - drained, line.Some?
    {
      assert Discarded(lines + [line.value]) == Discarded(lines) + [Drained(line.value)];
      drained, lines := drained + 1, lines + [line.value];
      if drained >= 20 {
        return drained, lines, Discarded(lines);
      }
      var timeUp: bool := *;
      if timeUp {
        port.Expire();
        return drained, lines, Discarded(lines) + [Deadline];
      }
      line := port.ReadStale();
    }
    events := Discarded(lines) + [Quiet];
  }

  /** Lines thrown away, until twenty are gone, a quiet window passes or, after a line, the time
      is up. */
  predicate IsDrain(lines: seq<string>, events: seq<PortEvent>) {
    if |lines| < 20
    then events == Discarded(lines) + [Quiet] || (lines != [] && events == Discarded(lines) + [Deadline])
    else |lines| == 20 && events == Discarded(lines)
  }

  lemma DrainReads(lines: seq<string>, events: seq<PortEvent>)
    requires IsDrain(lines, events)
    ensures Wires(events) == [] && Lines(events) == [] && |lines| <= 20
  {
    DiscardedReads(lines);
    WiresConcat(Discarded(lines), [Quiet]);
    WiresConcat(Discarded(lines), [Deadline]);
    LinesConcat(Discarded(lines), [Quiet]);
    LinesConcat(Discarded(lines), [Deadline]);
  }

  /** The outcome of a confirmed setting. */
  datatype Confirmation = Confirmation(response: string, requested: nat, confirmed: Option<nat>,
                                       matched: bool, aside: Option<string>, stale: nat, retries: nat)

  /** What a confirmation reports, in terms of the lines drained before it and of the trace of
      its transmissions: there is a second one exactly when no line read for the first echoes
      the wanted value. */
  ghost predicate ReportsTrace(c: Confirmation, wire: string, echo: string -> Option<nat>,
                               drained: seq<string>, body: seq<PortEvent>) {
    && c.retries == (if Confirms(FirstLines(body), echo, c.requested) then 0 else 1)
    && Wires(body) == Repeated(wire, c.retries + 1)
    && c.matched == Confirms(Lines(body), echo, c.requested)
    && c.stale == |drained| + WrongEchoes(Lines(body), echo, c.requested)
                  + |Wires(body)| - (if c.matched then 1 else 0)
    && (c.matched ==> c.confirmed == Some(c.requested))
  }

  lemma ReportsRetries(c: Confirmation, wire: string, echo: string -> Option<nat>, drained: seq<string>,
                       body: seq<PortEvent>)
    requires ReportsTrace(c, wire, echo, drained, body) && (!c.matched ==> c.retries == 1)
    ensures ReportsSend(c, Send(wire, if Wires(body) == Repeated(wire, 1) then 1 else 2, true))
  {
    TransmittedOnce(wire);
  }

  lemma TransmittedOnce(wire: string)
    ensures Repeated(wire, 1) == [wire] && Repeated(wire, 2) == [wire, wire]
    ensures Repeated(wire, 1) != Repeated(wire, 2)
  {
    assert Repeated(wire, 0) == [];
    assert Repeated(wire, 1) == [wire];
  }

  lemma NothingHeard(echo: string -> Option<nat>)
    ensures Wires([]) == [] && Lines([]) == [] && Discarded([]) == []
    ensures forall wanted :: !Confirms([], echo, wanted) && WrongEchoes([], echo, wanted) == 0
  {
  }

  /** Drains stale input, then sends a setting and waits for its exact echo, once more if the
      first transmission is not confirmed. */
  method SendConfirmed(port: SerialPort, wire: string, echo: string -> Option<nat>,
                       noted: string -> bool, silence: string)
    returns (result: Result<Confirmation, SendError>,
             ghost drained: seq<string>, ghost drain: seq<PortEvent>, ghost body: seq<PortEvent>)
    modifies port
    ensures port.trace == old(port.trace) + drain + body
    ensures echo(wire).None? <==> result == Failure(InvalidWire)
    ensures result == Failure(InvalidWire) ==> drain == [] && body == []
    ensures result != Failure(InvalidWire) ==>
      IsDrain(drained, drain) && (Wires(body) == Repeated(wire, 1) || Wires(body) == Repeated(wire, 2))
    ensures result.Failure? && result != Failure(InvalidWire) ==> Broken in body
    ensures result.Success? ==>
      && Broken !in body
      && result.value.requested == echo(wire).value
      && ReportsTrace(result.value, wire, echo, drained, body)
      && (!result.value.matched ==> result.value.retries == 1 && Wires(body) == Repeated(wire, 2))
      && ReportsLast(result.value.response, result.value.confirmed, result.value.aside, LastLines(body), echo, noted,
                     silence)
  {
    hide Wires, Lines, Confirms, WrongEchoes, IsDrain, LastNoted, ReportsLast, FirstLines, LastLines;
    NothingHeard(echo);
    drained, drain, body := [], [], [];
    if echo(wire).None? {
      return Failure(InvalidWire), drained, drain, body;
    }
    var wanted := echo(wire).value;
    var stale;
    stale, drained, drain := DrainStaleInput(port);
    var last := ("no_response", None, None);
    for attempt := 0 to 2
      invariant port.trace == old(port.trace) + drain + body
      invariant Wires(body) == Repeated(wire, attempt) && Broken !in body
      invariant !Confirms(Lines(body), echo, wanted)
      invariant stale == |drained| + WrongEchoes(Lines(body), echo, wanted) + attempt
      invariant if attempt == 0 then body == []
                else body != [] && !Confirms(FirstLines(body), echo, wanted)
                     && ReportsLast(last.0, last.1, last.2, LastLines(body), echo, noted, silence)
    {
      var read, lines, events := SendOnceExact(port, wire, echo, wanted, noted, silence);
      BodyGrows(body, events, echo, wanted);
      TransmissionGrows(body, events);
      body := body + events;
      if read.Failure? {
        return Failure(read.error), drained, drain, body;
      }
      stale := stale + read.value.stale;
      if read.value.matched {
        return Success(Confirmation(read.value.response, wanted, read.value.confirmed, true,
                                    read.value.aside, stale, attempt)), drained, drain, body;
      }
      stale := stale + 1;
      last := (read.value.response, read.value.confirmed, read.value.aside);
    }
    return Success(Confirmation(last.0, wanted, last.1, false, last.2, stale, 1)), drained, drain, body;
  }

  function Repeated(wire: string, n: nat): seq<string> {
    if n == 0 then [] else Repeated(wire, n - 1) + [wire]
  }

  lemma BodyGrows(body: seq<PortEvent>, events: seq<PortEvent>, echo: string -> Option<nat>, wanted: nat)
    ensures Wires(body + events) == Wires(body) + Wires(events)
    ensures Confirms(Lines(body + events), echo, wanted)
            <==> Confirms(Lines(body), echo, wanted) || Confirms(Lines(events), echo, wanted)
    ensures WrongEchoes(Lines(body + events), echo, wanted)
         == WrongEchoes(Lines(body), echo, wanted) + WrongEchoes(Lines(events), echo, wanted)
  {
    WiresConcat(body, events);
    LinesConcat(body, events);
    WrongEchoesConcat(Lines(body), Lines(events), echo, wanted);
    assert forall l <- Lines(body) :: l in Lines(body + events);
    assert forall l <- Lines(events) :: l in Lines(body + events);
  }

  // ---------------------------------------------------------------- a poll of several commands

  /** The part of a trace that one polled command left: its answer and the lines before it,
      or a timeout or an I/O error. */
  predicate IsExchange(wire: string, outcome: Option<SerialRead>, piece: seq<PortEvent>) {
    && Wires(piece) == [wire]
    && (outcome.Some? ==> piece == ExchangeEvents(wire, Arrived(outcome.value), []))
    && (outcome.None? ==> Deadline in piece || Broken in piece)
  }

  lemma {:induction false} JoinedWires(pieces: seq<seq<PortEvent>>, wires: seq<string>)
    requires |pieces| == |wires| && forall i :: 0 <= i < |wires| ==> Wires(pieces[i]) == [wires[i]]
    ensures Wires(Flatten(pieces)) == wires
  {
    if wires != [] {
      var n := |wires| - 1;
      JoinedWires(pieces[..n], wires[..n]);
      WiresConcat(Flatten(pieces[..n]), pieces[n]);
      assert Wires(pieces[n]) == [wires[n]];
    }
  }

  /** Every line read for the answered commands, in arrival order. */
  function AnsweredLines(outcomes: seq<Option<SerialRead>>): seq<string> {
    if outcomes == [] then []
    else
      var last := outcomes[|outcomes| - 1];
      AnsweredLines(outcomes[..|outcomes| - 1]) + (if last.Some? then Arrived(last.value) else [])
  }

  // ---------------------------------------------------------------- sequences of wires

  /** The wires of a chosen set among some wires, in order. */
  function Selected(wires: seq<string>, chosen: set<string>): seq<string> {
    if wires == [] then []
    else
      var last := wires[|wires| - 1];
      Selected(wires[..|wires| - 1], chosen) + (if last in chosen then [last] else [])
  }

  lemma {:induction false} SelectedConcat(a: seq<string>, b: seq<string>, chosen: set<string>)
    ensures Selected(a + b, chosen) == Selected(a, chosen) + Selected(b, chosen)
  {
    if b == [] {
      assert a + b == a;
    } else {
      assert (a + b)[..|a + b| - 1] == a + b[..|b| - 1];
      SelectedConcat(a, b[..|b| - 1], chosen);
    }
  }

  lemma OneSelected(wire: string, chosen: set<string>)
    ensures Selected([wire], chosen) == if wire in chosen then [wire] else []
  {
    assert [wire][..0] == [];
  }

  lemma {:induction false} NoneSelected(wires: seq<string>, chosen: set<string>)
    requires forall wire <- wires :: wire !in chosen
    ensures Selected(wires, chosen) == []
  {
    if wires != [] {
      NoneSelected(wires[..|wires| - 1], chosen);
    }
  }

  lemma {:induction false} RepeatedIsOneWire(wire: string, n: nat)
    ensures forall w <- Repeated(wire, n) :: w == wire
  {
    if n > 0 {
      RepeatedIsOneWire(wire, n - 1);
    }
  }

  lemma {:induction false} RepeatedConcat(wire: string, m: nat, n: nat)
    ensures Repeated(wire, m) + Repeated(wire, n) == Repeated(wire, m + n)
    ensures |Repeated(wire, m + n)| == m + n
  {
    if n > 0 {
      RepeatedConcat(wire, m, n - 1);
    } else if m > 0 {
      RepeatedConcat(wire, m - 1, 0);
    }
  }

  /** No two consecutive wires are the same. */
  predicate NoRepeats(wires: seq<string>) {
    |wires| < 2 || (NoRepeats(wires[..|wires| - 1]) && wires[|wires| - 2] != wires[|wires| - 1])
  }

  lemma NoRepeatsGrows(wires: seq<string>, wire: string)
    requires NoRepeats(wires) && (wires != [] ==> wires[|wires| - 1] != wire)
    ensures NoRepeats(wires + [wire])
  {
    assert (wires + [wire])[..|wires|] == wires;
  }

  /** Three pieces of a trace, of which only the middle one holds chosen wires. */
  lemma MiddleSelected(a: seq<PortEvent>, b: seq<PortEvent>, c: seq<PortEvent>, chosen: set<string>)
    requires Selected(Wires(a), chosen) == [] && Selected(Wires(c), chosen) == []
    ensures Wires(a + b + c) == Wires(a) + Wires(b) + Wires(c)
    ensures Selected(Wires(a + b + c), chosen) == Selected(Wires(b), chosen)
  {
    WiresConcat(a + b, c);
    WiresConcat(a, b);
    SelectedConcat(Wires(a) + Wires(b), Wires(c), chosen);
    SelectedConcat(Wires(a), Wires(b), chosen);
  }

  // ---------------------------------------------------------------- sends of a setting

  /** One confirmed setting as the trace shows it: a wire transmitted once or twice, and
      whether the exchange was completed, confirmed or not. */
  datatype Send = Send(wire: string, times: nat, completed: bool)

  /** A send and what is reported of it: a second transmission is a retry, and there always is one
      before giving up. */
  predicate ReportsSend(c: Confirmation, s: Send) {
    s.completed && s.times == c.retries + 1 && (!c.matched ==> s.times == 2)
  }

  predicate OnceOrTwice(sends: seq<Send>) {
    forall s <- sends :: 1 <= s.times <= 2
  }

  /** Everything that some sends transmit, in order. */
  function Transmissions(sends: seq<Send>): seq<string> {
    if sends == [] then []
    else Transmissions(sends[..|sends| - 1]) + Repeated(sends[|sends| - 1].wire, sends[|sends| - 1].times)
  }

  /** The wires of the completed ones among some sends, in order. */
  function Completed(sends: seq<Send>): seq<string> {
    if sends == [] then []
    else
      var last := sends[|sends| - 1];
      Completed(sends[..|sends| - 1]) + (if last.completed then [last.wire] else [])
  }

  /** The chosen wires of a trace are exactly what some sends transmitted. */
  predicate SentBy(events: seq<PortEvent>, chosen: set<string>, sends: seq<Send>) {
    Selected(Wires(events), chosen) == Transmissions(sends) && OnceOrTwice(sends)
  }

  lemma {:induction false} SendsConcat(a: seq<Send>, b: seq<Send>)
    ensures Transmissions(a + b) == Transmissions(a) + Transmissions(b)
    ensures Completed(a + b) == Completed(a) + Completed(b)
  {
    hide Repeated;
    if b == [] {
      assert a + b == a;
    } else {
      assert (a + b)[..|a + b| - 1] == a + b[..|b| - 1];
      SendsConcat(a, b[..|b| - 1]);
    }
  }

  lemma SentByConcat(a: seq<PortEvent>, p: seq<Send>, b: seq<PortEvent>, q: seq<Send>, chosen: set<string>)
    requires SentBy(a, chosen, p) && SentBy(b, chosen, q)
    ensures SentBy(a + b, chosen, p + q)
    ensures p == [] ==> SentBy(a + b, chosen, q)
    ensures q == [] ==> SentBy(a + b, chosen, p)
  {
    assert [] + q == q && p + [] == p;
    hide Wires, Selected, Transmissions, Completed;
    WiresConcat(a, b);
    SelectedConcat(Wires(a), Wires(b), chosen);
    SendsConcat(p, q);
  }

  lemma SameWiresSent(a: seq<PortEvent>, b: seq<PortEvent>, chosen: set<string>, sends: seq<Send>)
    requires Wires(a) == Wires(b) && SentBy(b, chosen, sends)
    ensures SentBy(a, chosen, sends)
  {
  }

  /** A trace without chosen wires was made by no sends. */
  lemma NothingSent(events: seq<PortEvent>, chosen: set<string>)
    requires forall wire <- Wires(events) :: wire !in chosen
    ensures SentBy(events, chosen, []) && Completed([]) == []
  {
    NoneSelected(Wires(events), chosen);
  }

  lemma OneSend(events: seq<PortEvent>, chosen: set<string>, send: Send)
    requires Wires(events) == Repeated(send.wire, send.times) && 1 <= send.times <= 2 && send.wire in chosen
    ensures SentBy(events, chosen, [send])
    ensures Completed([send]) == if send.completed then [send.wire] else []
  {
    hide Wires, Selected, Repeated, Transmissions;
    OneTransmission(send);
    RepeatedSelected(send.wire, send.times, chosen);
    assert [send][..0] == [];
  }

  lemma OneCompleted(send: Send)
    ensures Completed([send]) == if send.completed then [send.wire] else []
  {
    assert [send][..0] == [];
  }

  lemma OneTransmission(send: Send)
    ensures Transmissions([send]) == Repeated(send.wire, send.times)
  {
    assert [send][..0] == [];
  }

  lemma {:induction false} RepeatedSelected(wire: string, n: nat, chosen: set<string>)
    requires wire in chosen
    ensures Selected(Repeated(wire, n), chosen) == Repeated(wire, n)
  {
    if n > 0 {
      assert Repeated(wire, n)[..|Repeated(wire, n)| - 1] == Repeated(wire, n - 1);
      RepeatedSelected(wire, n - 1, chosen);
    }
  }
}
