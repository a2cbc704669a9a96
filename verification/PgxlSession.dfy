/** One PGXL client session: what goes back for the lines that come in, and what the session
    counts while it runs. */
module PgxlSession {
  import opened Text
  import opened Protocol

  const GREETING: string := "V0.1.0-egb-pgxl"

  const FIRST_COMMANDS: nat := 8

  // ---------------------------------------------------------------- commands

  datatype Outcome = Outcome(code: nat, body: string)

  const NETWORK_BODY := "address=0.0.0.0 netmask=255.255.255.0 gateway=0.0.0.0 dhcp=true gateway-status=0.0.0.0"

  /** The answer to a command. `text` is what the bridge reports of itself at that moment. */
  function Handle(command: string, text: string): Outcome {
    if command in {"info", "status", "operate", "standby"} then Outcome(0, text)
    else if command in {"setup read", "setup"} then
      Outcome(0, "nickname=Elecraft_Genius_Bridge fan=auto meffa=OK led=128")
    else if command in {"ifconf read", "network", "network read"} then Outcome(0, NETWORK_BODY)
    else if StartsWith(command, "ifconf ") then Outcome(5, "error=network_config_unsupported_by_bridge")
    else if StartsWith(command, "catradio read=") then Outcome(0, text)
    else if StartsWith(command, "catradio ") then Outcome(5, "error=catradio_config_unsupported_by_bridge")
    else if StartsWith(command, "flexradio read=") then Outcome(0, text)
    else if StartsWith(command, "flexradio ") then Outcome(5, "error=flexradio_config_unsupported_by_bridge")
    else if command == "save" then Outcome(5, "error=save_reboot_unsupported_by_bridge")
    else Outcome(1, "error=unknown_command")
  }

  /** The commands that are answered without a look at their parameters. */
  predicate IsPlain(command: string) {
    command in {"info", "status", "operate", "standby", "setup", "setup read", "ifconf read", "network", "network read"}
  }

  /** A command begins in one way only. */
  lemma HeadsExclude(command: string)
    ensures StartsWith(command, "ifconf ") ==> !StartsWith(command, "catradio ") && !StartsWith(command, "flexradio ")
    ensures StartsWith(command, "catradio ") ==> !StartsWith(command, "flexradio ")
    ensures StartsWith(command, "catradio read=") ==> StartsWith(command, "catradio ")
    ensures StartsWith(command, "flexradio read=") ==> StartsWith(command, "flexradio ")
    ensures StartsWith(command, "ifconf ") || StartsWith(command, "catradio ") || StartsWith(command, "flexradio ") ==>
      |command| > 0 && command[0] in {'i', 'c', 'f'}
  {
    if |command| > 0 {
      StartsAt(command, "ifconf ", 0);
      StartsAt(command, "catradio ", 0);
      StartsAt(command, "flexradio ", 0);
    }
    if StartsWith(command, "catradio read=") {
      assert command[..9] == command[..14][..9] == "catradio ";
    }
    if StartsWith(command, "flexradio read=") {
      assert command[..10] == command[..15][..10] == "flexradio ";
    }
  }

  lemma PlainHeads(command: string)
    requires IsPlain(command) || command == "save"
    ensures !StartsWith(command, "catradio ") && !StartsWith(command, "flexradio ")
    ensures StartsWith(command, "ifconf ") ==> command == "ifconf read"
    ensures command != "save" <==> IsPlain(command)
  {
    assert command[0] in {'i', 's', 'o', 'n'};
    StartsAt(command, "catradio ", 0);
    StartsAt(command, "flexradio ", 0);
    if command == "save" {
      assert |"save"| == 4 && |"info"| == 4 && "save"[0] != "info"[0];
    }
  }

  /** Which commands are answered, which are refused as unsupported and which are unknown. */
  lemma CodesMean(command: string, text: string)
    ensures var code := Handle(command, text).code;
            && code in {0, 1, 5}
            && (code == 0 <==>
                  IsPlain(command) || StartsWith(command, "catradio read=") || StartsWith(command, "flexradio read="))
            && (code == 5 <==>
                  || command == "save"
                  || (StartsWith(command, "ifconf ") && command != "ifconf read")
                  || (StartsWith(command, "catradio ") && !StartsWith(command, "catradio read="))
                  || (StartsWith(command, "flexradio ") && !StartsWith(command, "flexradio read=")))
  {
    HeadsExclude(command);
    if IsPlain(command) || command == "save" { PlainHeads(command); }
    hide StartsWith;
  }

  /** What a reply to a command with parameters, or to an unknown one, holds. */
  lemma BodiesMean(command: string, text: string)
    requires !IsPlain(command)
    ensures var body := Handle(command, text).body;
            && (StartsWith(command, "ifconf ") ==> body == "error=network_config_unsupported_by_bridge")
            && (StartsWith(command, "catradio ") ==>
                  body == if StartsWith(command, "catradio read=") then text
                          else "error=catradio_config_unsupported_by_bridge")
            && (StartsWith(command, "flexradio ") ==>
                  body == if StartsWith(command, "flexradio read=") then text
                          else "error=flexradio_config_unsupported_by_bridge")
            && (command == "save" ==> body == "error=save_reboot_unsupported_by_bridge")
            && (Handle(command, text).code == 1 ==> body == "error=unknown_command")
  {
    HeadsExclude(command);
    if command == "save" { PlainHeads(command); }
    hide StartsWith;
  }

  /** What the replies to the other commands hold. */
  lemma PlainBodiesMean(command: string, text: string)
    requires IsPlain(command)
    ensures Handle(command, text).body ==
      if command in {"setup", "setup read"} then "nickname=Elecraft_Genius_Bridge fan=auto meffa=OK led=128"
      else if command in {"network", "network read", "ifconf read"}
      then "address=0.0.0.0 netmask=255.255.255.0 gateway=0.0.0.0 dhcp=true gateway-status=0.0.0.0"
      else text
  {
    DifferentCommands();
    hide StartsWith;
  }

  lemma DifferentCommands()
    ensures {"info", "status", "operate", "standby"} !! {"setup", "setup read"}
    ensures {"info", "status", "operate", "standby"} !! {"network", "network read", "ifconf read"}
    ensures {"setup", "setup read"} !! {"network", "network read", "ifconf read"}
  {
    assert forall c <- {"info", "status", "operate", "standby"} :: |c| in {4, 6, 7};
    assert forall c <- {"setup", "setup read", "network", "network read", "ifconf read"} :: |c| in {5, 7, 10, 11, 12};
    assert "network"[0] != "operate"[0] && "network"[0] != "standby"[0];
    assert forall c <- {"setup", "setup read"} :: c[0] == 's';
    assert forall c <- {"network", "network read", "ifconf read"} :: c[0] != 's';
  }

  /** The line that goes back for a frame. */
  function Reply(frame: ClientCommand, text: string): string {
    var outcome := Handle(frame.command, text);
    TrimEnd(ResponseLine(frame.number, outcome.code, outcome.body))
  }

  lemma {:induction false} TrimEndKeeps(p: string, s: string)
    requires p != "" && !IsSpace(p[|p| - 1])
    ensures TrimEnd(p + s) == p + TrimEnd(s)
  {
    if s == "" {
      assert p + s == p;
    } else if IsSpace(s[|s| - 1]) {
      assert (p + s)[..|p + s| - 1] == p + s[..|s| - 1];
      TrimEndKeeps(p, s[..|s| - 1]);
    }
  }

  lemma ReplyParts(frame: ClientCommand, text: string)
    ensures var outcome := Handle(frame.command, text);
            Reply(frame, text) + "\n" == ResponseLine(frame.number, outcome.code, TrimEnd(outcome.body))
  {
    hide Decimal, Handle, TrimEnd;
    var outcome := Handle(frame.command, text);
    var head := "R" + Decimal(frame.number) + "|" + Decimal(outcome.code) + "|";
    TrimEndPad(outcome.body, "\n");
    TrimEndKeeps(head, outcome.body + "\n");
    assert ResponseLine(frame.number, outcome.code, outcome.body) == head + (outcome.body + "\n");
  }

  /** What a client reads of a reply: the number of the frame, the code of its command, and the
      body without the white space at its end. */
  predicate ReadsAs(line: string, frame: ClientCommand, text: string) {
    var outcome := Handle(frame.command, text);
    ReadResponse(line) == Some((frame.number, outcome.code, TrimEnd(outcome.body)))
  }

  lemma ReplyReadsBack(frame: ClientCommand, text: string)
    requires frame.number <= U32_MAX
    ensures ReadsAs(Reply(frame, text), frame, text)
  {
    hide Reply, ReadResponse, ResponseLine;
    ReplyParts(frame, text);
    var outcome := Handle(frame.command, text);
    ResponseReadsBack(frame.number, outcome.code, TrimEnd(outcome.body), Reply(frame, text));
  }

  /** A reply carries the number of the frame it answers, and its code. */
  lemma ReplyNamesItsFrame(f: ClientCommand, s: string, g: ClientCommand, t: string)
    requires Reply(f, s) == Reply(g, t)
    ensures f.number == g.number && Handle(f.command, s).code == Handle(g.command, t).code
    ensures f.number <= U32_MAX ==> ReadsAs(Reply(f, s), f, s)
  {
    if f.number <= U32_MAX { ReplyReadsBack(f, s); }
    hide Handle, Reply, ReadsAs;
    ReplyParts(f, s);
    ReplyParts(g, t);
    var a, b := Handle(f.command, s), Handle(g.command, t);
    ResponseLineInjective(f.number, a.code, TrimEnd(a.body), g.number, b.code, TrimEnd(b.body));
  }

  // ---------------------------------------------------------------- what a session amounts to

  /** The well-formed frames among the lines of a client, in order. */
  function Frames(lines: seq<string>): seq<ClientCommand> {
    if lines == [] then []
    else
      var last := ParseClientCommand(lines[|lines| - 1]);
      Frames(lines[..|lines| - 1]) + (if last.Success? then [last.value] else [])
  }

  /** How many lines are neither blank nor a frame. */
  function Malformed(lines: seq<string>): nat {
    if lines == [] then 0
    else
      var last := ParseClientCommand(lines[|lines| - 1]);
      Malformed(lines[..|lines| - 1]) + (if last.Failure? && last.error != Empty then 1 else 0)
  }

  /** How many frames have a number that does not exceed the one before. */
  function Disorders(frames: seq<ClientCommand>): nat {
    if |frames| < 2 then 0
    else
      var n := |frames| - 1;
      Disorders(frames[..n]) + (if frames[n].number <= frames[n - 1].number then 1 else 0)
  }

  /** How many frames are answered with a given code. */
  function Answered(frames: seq<ClientCommand>, code: nat): nat {
    if frames == [] then 0
    else
      var n := |frames| - 1;
      Answered(frames[..n], code) + (if Handle(frames[n].command, "").code == code then 1 else 0)
  }

  /** The replies to some frames, given what the bridge had to report for each. */
  function Replies(frames: seq<ClientCommand>, texts: seq<string>): seq<string>
    requires |frames| == |texts|
  {
    seq(|frames|, i requires 0 <= i < |frames| => Reply(frames[i], texts[i]))
  }

  lemma {:induction false} OrderedHasNoDisorders(frames: seq<ClientCommand>)
    ensures Disorders(frames) == 0 <==> forall i, j :: 0 <= i < j < |frames| ==> frames[i].number < frames[j].number
  {
    if |frames| >= 2 {
      var n := |frames| - 1;
      OrderedHasNoDisorders(frames[..n]);
      assert forall i :: 0 <= i < n ==> frames[..n][i] == frames[i];
      if Disorders(frames[..n]) == 0 && frames[n - 1].number < frames[n].number {
        assert forall i :: 0 <= i < n - 1 ==> frames[..n][i].number < frames[..n][n - 1].number;
      }
    }
  }

  lemma CodesDoNotDependOnText(command: string, text: string)
    ensures Handle(command, text).code == Handle(command, "").code
  {
  }

  lemma FrameAdds(frames: seq<ClientCommand>, texts: seq<string>, frame: ClientCommand, text: string)
    requires |frames| == |texts|
    ensures Disorders(frames + [frame])
         == Disorders(frames) + (if frames != [] && frame.number <= frames[|frames| - 1].number then 1 else 0)
    ensures var code := Handle(frame.command, text).code;
            && Answered(frames + [frame], 1) == Answered(frames, 1) + (if code == 1 then 1 else 0)
            && Answered(frames + [frame], 5) == Answered(frames, 5) + (if code == 5 then 1 else 0)
    ensures Replies(frames + [frame], texts + [text]) == Replies(frames, texts) + [Reply(frame, text)]
  {
    hide Handle, Reply, Disorders, Answered, Replies;
    CodesDoNotDependOnText(frame.command, text);
    DisorderAdds(frames, frame);
    AnswerAdds(frames, frame, 1);
    AnswerAdds(frames, frame, 5);
    ReplyAdds(frames, texts, frame, text);
  }

  lemma DisorderAdds(frames: seq<ClientCommand>, frame: ClientCommand)
    ensures Disorders(frames + [frame])
         == Disorders(frames) + (if frames != [] && frame.number <= frames[|frames| - 1].number then 1 else 0)
  {
    assert (frames + [frame])[..|frames|] == frames;
  }

  lemma AnswerAdds(frames: seq<ClientCommand>, frame: ClientCommand, code: nat)
    ensures Answered(frames + [frame], code)
         == Answered(frames, code) + (if Handle(frame.command, "").code == code then 1 else 0)
  {
    hide Handle;
    assert (frames + [frame])[..|frames|] == frames;
  }

  lemma ReplyAdds(frames: seq<ClientCommand>, texts: seq<string>, frame: ClientCommand, text: string)
    requires |frames| == |texts|
    ensures Replies(frames + [frame], texts + [text]) == Replies(frames, texts) + [Reply(frame, text)]
  {
    hide Reply;
  }

  lemma LineAdds(lines: seq<string>, line: string)
    ensures Frames(lines + [line])
         == if ParseClientCommand(line).Success? then Frames(lines) + [ParseClientCommand(line).value]
            else Frames(lines)
    ensures Malformed(lines + [line]) == Malformed(lines)
         + (if ParseClientCommand(line).Failure? && ParseClientCommand(line).error != Empty then 1 else 0)
  {
    hide ParseClientCommand;
    assert (lines + [line])[..|lines|] == lines;
  }

  /** A line and the same line without the white space around it parse alike, and only a
      blank one is empty. */
  lemma TrimmedLineParses(line: string)
    ensures ParseClientCommand(Trim(line)) == ParseClientCommand(line)
    ensures Trim(line) == "" <==> ParseClientCommand(line) == Failure(Empty)
  {
    var _, _ := TrimSplits(line);
    TrimOfTrimmed(Trim(line));
  }

  // ---------------------------------------------------------------- the session

  datatype Fault = ReadFault | WriteFault

  /** A connection to one client. Everything written, and the first failure, are kept. */
  class Connection {
    ghost var output: seq<string>
    ghost var fault: Option<Fault>

    constructor ()
      ensures output == [] && fault.None?
    {
      output, fault := [], None;
    }

    method WriteLine(line: string) returns (ok: bool)
      modifies this
      ensures output == if ok then old(output) + [line] else old(output)
      ensures fault == if ok then old(fault) else Some(WriteFault)
    {
      ok := *;
      if ok {
        output := output + [line];
      } else {
        fault := Some(WriteFault);
      }
    }

    /** Waits for the next line, or for the client to close. */
    method AwaitLine() returns (ok: bool)
      modifies this`fault
      ensures fault == if ok then old(fault) else Some(ReadFault)
    {
      ok := *;
      if !ok {
        fault := Some(ReadFault);
      }
    }
  }

  class SessionStats {
    var commandsReceived: nat
    var responsesSent: nat
    var parseFailures: nat
    var unknownCommands: nat
    var unsupportedFeatures: nat
    var unexpectedSequences: nat
    var firstCommands: seq<string>
    var lastSequence: Option<nat>
    // The lines handled so far, and what the bridge reported for each frame among them.
    ghost var heard: seq<string>
    ghost var texts: seq<string>

    constructor ()
      ensures Valid() && heard == [] && responsesSent == 0
    {
      commandsReceived, responsesSent, parseFailures := 0, 0, 0;
      unknownCommands, unsupportedFeatures, unexpectedSequences := 0, 0, 0;
      firstCommands, lastSequence := [], None;
      heard, texts := [], [];
    }

    /** The counters are functions of the lines handled. */
    ghost predicate Valid()
      reads this
    {
      var frames := Frames(heard);
      && |texts| == |frames| == commandsReceived
      && parseFailures == Malformed(heard)
      && unknownCommands == Answered(frames, 1)
      && unsupportedFeatures == Answered(frames, 5)
      && unexpectedSequences == Disorders(frames)
      && |firstCommands| == (if |frames| < 8 then |frames| else 8)
      && (forall i :: 0 <= i < |firstCommands| ==> firstCommands[i] == frames[i].command)
      && lastSequence == (if frames == [] then None else Some(frames[|frames| - 1].number))
    }

    /** What the client of an unbroken connection has been sent. */
    ghost function Sent(): seq<string>
      requires Valid()
      reads this
    {
      [GREETING] + Replies(Frames(heard), texts)
    }

    /** Handles one well-formed frame up to the point where its reply is written. */
    method TakeFrame(cmd: ClientCommand, text: string, ghost line: string) returns (reply: string)
      requires Valid() && ParseClientCommand(line) == Success(cmd)
      modifies this
      ensures Valid() && heard == old(heard) + [line] && responsesSent == old(responsesSent)
      ensures reply == Reply(cmd, text) && Sent() == old(Sent()) + [reply]
      ensures ReadsAs(reply, cmd, text)
    {
      hide ReadsAs, Handle, Frames, Malformed, Disorders, Answered, Reply, Replies, ParseClientCommand,
           TrimEnd, ResponseLine;
      LineAdds(heard, line);
      FrameAdds(Frames(heard), texts, cmd, text);
      commandsReceived := commandsReceived + 1;
      if lastSequence.Some? && cmd.number <= lastSequence.value {
        unexpectedSequences := unexpectedSequences + 1;
      }
      lastSequence := Some(cmd.number);
      if |firstCommands| < FIRST_COMMANDS {
        firstCommands := firstCommands + [cmd.command];
      }
      var outcome := Handle(cmd.command, text);
      if outcome.code == 1 {
        unknownCommands := unknownCommands + 1;
      }
      if outcome.code == 5 {
        unsupportedFeatures := unsupportedFeatures + 1;
      }
      reply := TrimEnd(ResponseLine(cmd.number, outcome.code, outcome.body));
      heard, texts := heard + [line], texts + [text];
      ReplyIs(cmd, text);
      assert Sent() == old(Sent()) + [Reply(cmd, text)];
      TakenReadsBack(line, cmd, text);
    }

    /** Handles a line that is blank or no frame. */
    method SkipLine(line: string)
      requires Valid() && ParseClientCommand(line).Failure?
      modifies this
      ensures Valid() && heard == old(heard) + [line] && responsesSent == old(responsesSent)
      ensures Sent() == old(Sent())
    {
      hide Handle, Frames, Malformed, Disorders, Answered, Reply, ParseClientCommand;
      LineAdds(heard, line);
      if ParseClientCommand(line).error != Empty {
        parseFailures := parseFailures + 1;
      }
      heard := heard + [line];
    }
  }

  /** Serves a client that sends some lines and then closes. Without a failure of the connection
      the output is the greeting and one reply per frame, in order. A failed read leaves every
      frame heard answered, and a failed write all but the last. */
  method ServeClient(connection: Connection, stats: SessionStats, incoming: seq<string>) returns (ok: bool)
    requires connection.output == [] && connection.fault.None?
    requires stats.Valid() && stats.heard == [] && stats.responsesSent == 0
    modifies connection, stats
    ensures stats.Valid() && stats.heard <= incoming
    ensures stats.responsesSent == |connection.output| && connection.output <= stats.Sent()
    ensures ok <==> connection.fault.None?
    ensures ok ==> stats.heard == incoming
    ensures |connection.output| == |stats.Sent()| - (if connection.fault == Some(WriteFault) then 1 else 0)
    ensures connection.output != [] ==> connection.output[0] == "V0.1.0-egb-pgxl"
    ensures forall i :: 0 < i < |connection.output| ==>
      && i <= |Frames(stats.heard)| && i <= |stats.texts|
      && ReadsAs(connection.output[i], Frames(stats.heard)[i - 1], stats.texts[i - 1])
  {
    ok := ServeLines(connection, stats, incoming);
    OutputReadsBack(connection.output, stats);
  }

  /** Serves the greeting and then line after line. */
  method ServeLines(connection: Connection, stats: SessionStats, incoming: seq<string>) returns (ok: bool)
    requires connection.output == [] && connection.fault.None?
    requires stats.Valid() && stats.heard == [] && stats.responsesSent == 0
    modifies connection, stats
    ensures stats.Valid() && stats.heard <= incoming
    ensures stats.responsesSent == |connection.output| && connection.output <= stats.Sent()
    ensures ok <==> connection.fault.None?
    ensures ok ==> stats.heard == incoming
    ensures |connection.output| == |stats.Sent()| - (if connection.fault == Some(WriteFault) then 1 else 0)
  {
    hide Frames, Replies, ParseClientCommand, Reply, Malformed, Disorders, Answered;
    NothingSent(stats);
    ok := connection.WriteLine(GREETING);
    if !ok {
      return;
    }
    stats.responsesSent := stats.responsesSent + 1;
    for i := 0 to |incoming|
      invariant stats.Valid() && stats.heard == incoming[..i] && connection.fault.None?
      invariant connection.output == stats.Sent() && stats.responsesSent == |connection.output|
    {
      assert incoming[..i + 1] == incoming[..i] + [incoming[i]];
      ok := connection.AwaitLine();
      if !ok {
        return;
      }
      ok := ServeLine(connection, stats, incoming[i]);
      if !ok {
        return;
      }
    }
    ok := connection.AwaitLine();
  }

  /** Serves one line. */
  method ServeLine(connection: Connection, stats: SessionStats, incoming: string) returns (ok: bool)
    requires stats.Valid() && connection.output == stats.Sent() && stats.responsesSent == |connection.output|
    requires connection.fault.None?
    modifies connection, stats
    ensures stats.Valid() && stats.heard == old(stats.heard) + [incoming]
    ensures stats.responsesSent == |connection.output| && connection.output <= stats.Sent()
    ensures connection.fault == if ok then None else Some(WriteFault)
    ensures |connection.output| == |stats.Sent()| - (if ok then 0 else 1)
  {
    hide Frames, Replies, ParseClientCommand, Reply, Malformed, Disorders, Answered, ReadsAs, Handle, Trim;
    TrimmedLineParses(incoming);
    var line := Trim(incoming);
    var parsed := ParseClientCommand(line);
    ok := true;
    if line == "" || parsed.Failure? {
      stats.SkipLine(incoming);
    } else {
      var text: string := *;
      var reply := stats.TakeFrame(parsed.value, text, incoming);
      ok := connection.WriteLine(reply);
      if ok {
        stats.responsesSent := stats.responsesSent + 1;
      }
    }
  }

  lemma TakenReadsBack(line: string, cmd: ClientCommand, text: string)
    requires ParseClientCommand(line) == Success(cmd)
    ensures ReadsAs(Reply(cmd, text), cmd, text)
  {
    hide ReadsAs, Reply;
    AcceptedCommand(line);
    ReplyReadsBack(cmd, text);
  }

  lemma {:induction false} FrameNumbersInRange(lines: seq<string>)
    ensures forall f <- Frames(lines) :: f.number <= U32_MAX
  {
    hide ParseClientCommand;
    if lines != [] {
      FrameNumbersInRange(lines[..|lines| - 1]);
      var last := lines[|lines| - 1];
      if ParseClientCommand(last).Success? { AcceptedCommand(last); }
    }
  }

  /** Every line after the greeting reads back as the reply to its frame. */
  lemma OutputReadsBack(output: seq<string>, stats: SessionStats)
    requires stats.Valid() && output <= stats.Sent()
    ensures output != [] ==> output[0] == "V0.1.0-egb-pgxl"
    ensures forall i :: 0 < i < |output| ==>
      && i <= |Frames(stats.heard)| && i <= |stats.texts|
      && ReadsAs(output[i], Frames(stats.heard)[i - 1], stats.texts[i - 1])
  {
    hide Frames, Reply, ReadsAs, Malformed, Disorders, Answered;
    FrameNumbersInRange(stats.heard);
    var frames := Frames(stats.heard);
    forall i | 0 < i < |output|
      ensures i <= |frames| && ReadsAs(output[i], frames[i - 1], stats.texts[i - 1])
    {
      assert output[i] == stats.Sent()[i] == Reply(frames[i - 1], stats.texts[i - 1]);
      assert frames[i - 1] in frames;
      ReplyReadsBack(frames[i - 1], stats.texts[i - 1]);
    }
  }

  lemma ReplyIs(frame: ClientCommand, text: string)
    ensures var outcome := Handle(frame.command, text);
            Reply(frame, text) == TrimEnd(ResponseLine(frame.number, outcome.code, outcome.body))
  {
  }

  lemma NothingSent(stats: SessionStats)
    requires stats.Valid() && stats.heard == []
    ensures stats.Sent() == [GREETING]
  {
  }
}
