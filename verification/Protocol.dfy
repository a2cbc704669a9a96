/** The newline-delimited client protocol: `C<seq>|<command>` in, `R<seq>|<code>|<body>` out. */
module Protocol {
  import opened Text

  datatype ClientCommand = ClientCommand(number: nat, command: string)

  datatype ProtocolError = Empty | NotClientCommand | MissingSeparator | InvalidSequence | MissingBody

  function ParseClientCommand(line: string): Result<ClientCommand, ProtocolError> {
    var trimmed := Trim(line);
    if trimmed == "" then Failure(Empty)
    else if trimmed[0] != 'C' then Failure(NotClientCommand)
    else match SplitOnce(trimmed[1..], '|')
      case None => Failure(MissingSeparator)
      case Some((number, rest)) =>
        match ParseUnsigned(number, U32_MAX)
        case None => Failure(InvalidSequence)
        case Some(n) =>
          var command := Trim(rest);
          if command == "" then Failure(MissingBody) else Success(ClientCommand(n, command))
  }

  function ResponseLine(number: nat, code: nat, body: string): string {
    "R" + Decimal(number) + "|" + Decimal(code) + "|" + body + "\n"
  }

  /** How a client reads a response: the letter R, a number up to the first bar, a code up to the
      second, and the rest as body. */
  function ReadResponse(line: string): Option<(nat, nat, string)> {
    if line == "" || line[0] != 'R' then None
    else match SplitOnce(line[1..], '|')
      case None => None
      case Some((first, rest)) =>
        match SplitOnce(rest, '|')
        case None => None
        case Some((second, body)) =>
          match (ParseUnsigned(first, U32_MAX), ParseUnsigned(second, U32_MAX))
          case (Some(number), Some(code)) => Some((number, code, body))
          case _ => None
  }

  /** The frame a client sends for a command. */
  function FrameLine(cmd: ClientCommand): string {
    "C" + Decimal(cmd.number) + "|" + cmd.command
  }

  /** What the wire format allows, stated without the parser: white space, the letter C, a
      32-bit number, a bar, and a trimmed non-empty command that may itself hold bars. */
  ghost predicate IsFrame(line: string, cmd: ClientCommand) {
    && cmd.command != "" && Trimmed(cmd.command)
    && exists before: string, number: string, pad: string, after: string ::
         FrameParts(line, cmd, before, number, pad, after)
  }

  predicate FrameParts(line: string, cmd: ClientCommand,
                       before: string, number: string, pad: string, after: string) {
    && AllSpace(before) && AllSpace(pad) && AllSpace(after)
    && ParseUnsigned(number, U32_MAX) == Some(cmd.number)
    && line == before + Core(number, pad + cmd.command) + after
  }

  function Core(number: string, rest: string): string {
    "C" + (number + "|" + rest)
  }

  lemma PartsParse(line: string, cmd: ClientCommand,
                   before: string, number: string, pad: string, after: string)
    requires cmd.command != "" && Trimmed(cmd.command)
    requires FrameParts(line, cmd, before, number, pad, after)
    ensures ParseClientCommand(line) == Success(cmd)
  {
    var rest := pad + cmd.command;
    var core := Core(number, rest);
    assert core[|core| - 1] == cmd.command[|cmd.command| - 1];
    TrimPadded(before, core, after);
    assert core[1..] == number + "|" + rest;
    assert '|' !in number;
    SplitOnceAt(number, '|', rest);
    assert rest == pad + cmd.command + "";
    TrimPadded(pad, cmd.command, "");
  }

  lemma NoTrailingSpace(s: string, head: string, tail: string)
    requires Trimmed(s) && s == head + tail && AllSpace(tail)
    ensures tail == ""
  {
  }

  /** Inside a trimmed line nothing can follow the command. */
  lemma CommandEndsFrame(number: string, rest: string)
    requires Trimmed(Core(number, rest))
    ensures exists pad: string :: AllSpace(pad) && rest == pad + Trim(rest)
  {
    var pad, tail := TrimSplits(rest);
    var head := "C" + (number + "|" + (pad + Trim(rest)));
    assert Core(number, rest) == head + tail;
    NoTrailingSpace(Core(number, rest), head, tail);
  }

  lemma ParsedHasParts(line: string, cmd: ClientCommand)
    requires ParseClientCommand(line) == Success(cmd)
    ensures IsFrame(line, cmd)
  {
    var before, after := TrimSplits(line);
    var trimmed := Trim(line);
    var inner := trimmed[1..];
    SplitOnceParts(inner, '|');
    var (number, rest) := SplitOnce(inner, '|').value;
    assert trimmed == Core(number, rest);
    CommandEndsFrame(number, rest);
    var pad: string :| AllSpace(pad) && rest == pad + Trim(rest);
    var _, _ := TrimSplits(rest);
    assert FrameParts(line, cmd, before, number, pad, after);
  }

  /** The parser accepts a line with a given result exactly when the line is a frame for it. */
  lemma AcceptsExactlyFrames(line: string, cmd: ClientCommand)
    ensures ParseClientCommand(line) == Success(cmd) <==> IsFrame(line, cmd)
  {
    if ParseClientCommand(line) == Success(cmd) {
      ParsedHasParts(line, cmd);
    }
    if IsFrame(line, cmd) {
      var before: string, number: string, pad: string, after: string
        :| FrameParts(line, cmd, before, number, pad, after);
      PartsParse(line, cmd, before, number, pad, after);
    }
  }

  /** Why a line is refused: it is blank, begins with another letter, has no bar, or, split at
      its first bar, has no 32-bit number before it or only white space after it. */
  lemma RefusalsMean(line: string)
    ensures var trimmed, parsed := Trim(line), ParseClientCommand(line);
            && (parsed == Failure(Empty) <==> AllSpace(line))
            && (parsed == Failure(NotClientCommand) <==> trimmed != "" && trimmed[0] != 'C')
            && (parsed == Failure(MissingSeparator) <==> trimmed != "" && trimmed[0] == 'C' && '|' !in trimmed)
    ensures forall number: string, rest: string ::
      '|' !in number && Trim(line) == Core(number, rest) ==>
        && (ParseClientCommand(line) == Failure(InvalidSequence) <==> ParseUnsigned(number, U32_MAX).None?)
        && (ParseClientCommand(line) == Failure(MissingBody) <==>
              ParseUnsigned(number, U32_MAX).Some? && Trim(rest) == "")
  {
    hide ParseUnsigned;
    var trimmed := Trim(line);
    var _, _ := TrimSplits(line);
    BlankTrims(line);
    if trimmed != "" {
      assert trimmed == [trimmed[0]] + trimmed[1..];
      SplitOnceParts(trimmed[1..], '|');
    }
    forall number: string, rest: string | '|' !in number && trimmed == Core(number, rest)
      ensures SplitOnce(trimmed[1..], '|') == Some((number, rest))
    {
      SplitOnceAt(number, '|', rest);
      assert trimmed[1..] == number + "|" + rest;
    }
  }

  lemma BlankTrims(line: string)
    ensures Trim(line) == "" <==> AllSpace(line)
  {
    var a, b := TrimSplits(line);
    if AllSpace(line) {
      TrimPadded(line, "", "");
      assert line + "" + "" == line;
    }
  }

  /** Printing then parsing gives the command back, with any white space around the frame. */
  lemma PrintThenParse(cmd: ClientCommand, before: string, after: string)
    requires cmd.number <= U32_MAX && cmd.command != "" && Trimmed(cmd.command)
    requires AllSpace(before) && AllSpace(after)
    ensures ParseClientCommand(before + FrameLine(cmd) + after) == Success(cmd)
  {
    ParseDecimal(cmd.number, U32_MAX);
    var line := before + FrameLine(cmd) + after;
    assert FrameLine(cmd) == Core(Decimal(cmd.number), "" + cmd.command);
    assert FrameParts(line, cmd, before, Decimal(cmd.number), "", after);
    PartsParse(line, cmd, before, Decimal(cmd.number), "", after);
  }

  lemma AcceptedCommand(line: string)
    requires ParseClientCommand(line).Success?
    ensures var cmd := ParseClientCommand(line).value;
            cmd.number <= U32_MAX && cmd.command != "" && Trimmed(cmd.command)
  {
    hide AllDigits, Value, Trimmed;
    var _, _ := TrimSplits(SplitOnce(Trim(line)[1..], '|').value.1);
  }

  /** Every accepted line re-prints to a canonical frame that parses to the same command. */
  lemma AcceptedLineReprints(line: string)
    requires ParseClientCommand(line).Success?
    ensures ParseClientCommand(FrameLine(ParseClientCommand(line).value)) == ParseClientCommand(line)
  {
    hide ParseClientCommand, FrameLine, Trimmed;
    var cmd := ParseClientCommand(line).value;
    AcceptedCommand(line);
    assert AllSpace("");
    PrintThenParse(cmd, "", "");
    assert "" + FrameLine(cmd) + "" == FrameLine(cmd);
  }

  /** A client reads back what a response was made of, whatever the body holds. */
  lemma ResponseReadsBack(number: nat, code: nat, body: string, line: string)
    requires number <= U32_MAX && code <= U32_MAX
    requires line + "\n" == ResponseLine(number, code, body)
    ensures ReadResponse(line) == Some((number, code, body))
    ensures ReadResponse(line + "\n") == Some((number, code, body + "\n"))
  {
    hide Decimal, Value;
    assert line == (line + "\n")[..|line|];
    HeadReadsBack(number, code, body);
    HeadReadsBack(number, code, body + "\n");
    assert ResponseLine(number, code, body)
        == ("R" + Decimal(number) + "|" + Decimal(code) + "|" + body) + "\n"
        == "R" + Decimal(number) + "|" + Decimal(code) + "|" + (body + "\n");
  }

  lemma HeadReadsBack(number: nat, code: nat, rest: string)
    requires number <= U32_MAX && code <= U32_MAX
    ensures ReadResponse("R" + Decimal(number) + "|" + Decimal(code) + "|" + rest) == Some((number, code, rest))
  {
    hide Decimal, Value;
    var tail := Decimal(code) + "|" + rest;
    assert "R" + Decimal(number) + "|" + Decimal(code) + "|" + rest == "R" + (Decimal(number) + "|" + tail);
    SplitOnceAt(Decimal(number), '|', tail);
    SplitOnceAt(Decimal(code), '|', rest);
    ParseDecimal(number, U32_MAX);
    ParseDecimal(code, U32_MAX);
  }

  /** No two different responses share a line. */
  lemma ResponseLineInjective(n1: nat, c1: nat, b1: string, n2: nat, c2: nat, b2: string)
    requires ResponseLine(n1, c1, b1) == ResponseLine(n2, c2, b2)
    ensures n1 == n2 && c1 == c2 && b1 == b2
    ensures n1 <= U32_MAX && c1 <= U32_MAX ==>
      ReadResponse(ResponseLine(n1, c1, b1)) == Some((n1, c1, b1 + "\n"))
  {
    hide Decimal, Value, ReadResponse;
    if n1 <= U32_MAX && c1 <= U32_MAX {
      HeadReadsBack(n1, c1, b1 + "\n");
      assert ResponseLine(n1, c1, b1) == "R" + Decimal(n1) + "|" + Decimal(c1) + "|" + (b1 + "\n");
    }
    var r1, r2 := Decimal(c1) + "|" + (b1 + "\n"), Decimal(c2) + "|" + (b2 + "\n");
    var s1, s2 := Decimal(n1) + "|" + r1, Decimal(n2) + "|" + r2;
    assert ResponseLine(n1, c1, b1) == "R" + s1;
    assert ResponseLine(n2, c2, b2) == "R" + s2;
    assert s1 == ("R" + s1)[1..] && s2 == ("R" + s2)[1..];
    SplitOnceAt(Decimal(n1), '|', r1);
    SplitOnceAt(Decimal(n2), '|', r2);
    SplitOnceAt(Decimal(c1), '|', b1 + "\n");
    SplitOnceAt(Decimal(c2), '|', b2 + "\n");
    DecimalInjective(n1, n2);
    DecimalInjective(c1, c2);
    assert b1 == (b1 + "\n")[..|b1|] && b2 == (b2 + "\n")[..|b2|];
  }
}
