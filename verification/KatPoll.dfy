/** A whole status poll of the tuner: the order in which it applies what it read, against the
    order in which the lines arrived; and the answers that end the polling after a tune. */
module KatPoll {
  import opened Sequences
  import opened Text
  import opened Serial
  import opened KatLines

  /** A poll outcome holds an answer to its command and lines that do not answer it. */
  predicate IsOutcomeOf(c: Command, outcome: Option<SerialRead>) {
    outcome.Some? ==>
      && Trimmed(outcome.value.response) && Answers(c, outcome.value.response)
      && (forall line <- outcome.value.unsolicited :: Trimmed(line) && !Answers(c, line))
  }

  /** The tuner after a poll applies its outcomes command by command, each answer before the
      older lines. */
  function ApplyOutcomes(outcomes: seq<Option<SerialRead>>, t: TunerState): TunerState {
    if outcomes == [] then t
    else
      var n := |outcomes| - 1;
      var before := ApplyOutcomes(outcomes[..n], t);
      if outcomes[n].Some? then AnswerFirst(outcomes[n].value.response, outcomes[n].value.unsolicited, before)
      else before
  }

  predicate MentionsBypass(read: SerialRead) {
    BypassIn(ReadingOf(read.response)).Some? || LastBypass(Readings(read.unsolicited)).Some?
  }

  /** In the last exchange that mentions bypass at all, the answer overtakes a line that says
      otherwise about it. */
  predicate PollOvertakes(outcomes: seq<Option<SerialRead>>) {
    if outcomes == [] then false
    else
      var last := outcomes[|outcomes| - 1];
      if last.Some? && MentionsBypass(last.value)
      then OvertakesBypass(last.value.response, last.value.unsolicited)
      else PollOvertakes(outcomes[..|outcomes| - 1])
  }

  /** Bypass before some readings shows after them in bypass alone, and only if none of them
      mentions it. */
  lemma {:induction false} BypassOnly(rs: seq<Reading>, t: TunerState, b: bool)
    ensures ApplyAll(rs, t.(bypass := b))
         == ApplyAll(rs, t).(bypass := if LastBypass(rs).Some? then LastBypass(rs).value else b)
  {
    hide Apply, BypassIn;
    if rs != [] {
      var before := ApplyAll(rs[..|rs| - 1], t);
      BypassOnly(rs[..|rs| - 1], t, b);
      BypassAfterOne(rs[|rs| - 1], before, ApplyAll(rs[..|rs| - 1], t.(bypass := b)).bypass);
    }
  }

  lemma BypassAfterOne(r: Reading, t: TunerState, b: bool)
    ensures Apply(r, t.(bypass := b))
         == Apply(r, t).(bypass := if BypassIn(r).Some? then BypassIn(r).value else b)
  {
    hide Apply, BypassIn;
    ApplyFields(r, t);
    ApplyFields(r, t.(bypass := b));
  }

  /** One more exchange on two tuners that differ at most in bypass. */
  lemma ExchangeOrder(r: Reading, rs: seq<Reading>, p: TunerState, q: TunerState)
    requires forall x <- rs :: Kind(x) != Kind(r) || Kind(x) == 0
    requires p == q.(bypass := p.bypass)
    ensures var applied, arrived := ApplyAll(rs, Apply(r, p)), Apply(r, ApplyAll(rs, q));
            && applied == arrived.(bypass := applied.bypass)
            && applied.bypass == (if LastBypass(rs).Some? then LastBypass(rs).value
                                  else if BypassIn(r).Some? then BypassIn(r).value else p.bypass)
            && arrived.bypass == (if BypassIn(r).Some? then BypassIn(r).value
                                  else if LastBypass(rs).Some? then LastBypass(rs).value else q.bypass)
  {
    hide Apply, ApplyAll, Kind, BypassIn, LastBypass;
    AnswerFirstDiffersInBypass(r, rs, p);
    BypassOnly(rs, q, p.bypass);
    BypassAfter(rs, q);
    var before := ApplyAll(rs, q);
    BypassAfterOne(r, before, ApplyAll(rs, p).bypass);
    BypassAfterOne(r, before, before.bypass);
    BypassAfterOne(r, p, p.bypass);
    assert before.(bypass := before.bypass) == before && p.(bypass := p.bypass) == p;
  }

  /** A whole poll leaves what the arrival-order fold of all its lines leaves, bypass apart;
      and bypass too exactly when the last exchange that mentions it does not overtake. */
  lemma {:induction false} PollAgainstArrival(commands: seq<Command>, outcomes: seq<Option<SerialRead>>,
                                              t: TunerState)
    requires |commands| == |outcomes| && forall c <- commands :: c in POLL
    requires forall i :: 0 <= i < |commands| ==> IsOutcomeOf(commands[i], outcomes[i])
    ensures var applied, arrived := ApplyOutcomes(outcomes, t), ParseAll(AnsweredLines(outcomes), t);
            && applied == arrived.(bypass := applied.bypass)
            && (applied == arrived <==> !PollOvertakes(outcomes))
  {
    hide ReadingOf, Apply, ApplyAll, Answers, LastBypass, BypassIn, Trimmed, Kind, AnsweredLines;
    if outcomes == [] {
      NoReadings(t);
    } else {
      var n := |outcomes| - 1;
      PollAgainstArrival(commands[..n], outcomes[..n], t);
      if outcomes[n].None? {
        NotAnswered(outcomes);
      } else {
        var read := outcomes[n].value;
        assert IsOutcomeOf(commands[n], outcomes[n]);
        LinesHaveOtherKinds(commands[n], read.response, read.unsolicited);
        var p, q := ApplyOutcomes(outcomes[..n], t), ParseAll(AnsweredLines(outcomes[..n]), t);
        ExchangeOrder(ReadingOf(read.response), Readings(read.unsolicited), p, q);
        ArrivalGrows(outcomes[..n], read, t);
        assert outcomes[..n] + [Some(read)] == outcomes;
      }
    }
  }

  lemma NotAnswered(outcomes: seq<Option<SerialRead>>)
    requires outcomes != [] && outcomes[|outcomes| - 1].None?
    ensures AnsweredLines(outcomes) == AnsweredLines(outcomes[..|outcomes| - 1])
  {
    assert AnsweredLines(outcomes[..|outcomes| - 1]) + [] == AnsweredLines(outcomes[..|outcomes| - 1]);
  }

  lemma NoReadings(t: TunerState)
    ensures ApplyAll(Readings(AnsweredLines([])), t) == t
  {
  }

  lemma ArrivalGrows(outcomes: seq<Option<SerialRead>>, read: SerialRead, t: TunerState)
    ensures ParseAll(AnsweredLines(outcomes + [Some(read)]), t)
         == ArrivalOrder(read.response, read.unsolicited, ParseAll(AnsweredLines(outcomes), t))
  {
    hide ReadingOf, Apply;
    var before := AnsweredLines(outcomes);
    assert (outcomes + [Some(read)])[..|outcomes|] == outcomes;
    assert AnsweredLines(outcomes + [Some(read)]) == before + read.unsolicited + [read.response];
    var older := Readings(before) + Readings(read.unsolicited);
    assert Readings(before + read.unsolicited + [read.response])[..|older|] == older;
    ApplyAllConcat(Readings(before), Readings(read.unsolicited), t);
  }

  lemma {:induction false} ApplyAllConcat(p: seq<Reading>, q: seq<Reading>, t: TunerState)
    ensures ApplyAll(p + q, t) == ApplyAll(q, ApplyAll(p, t))
  {
    hide Apply;
    if q == [] {
      assert p + q == p;
    } else {
      assert (p + q)[..|p + q| - 1] == p + q[..|q| - 1];
      ApplyAllConcat(p, q[..|q| - 1], t);
    }
  }

  /** A poll with one overtaken line, in which the two orders leave different tuners; and the
      same poll with the line repeated later, in which they do not. */
  lemma OvertakingExists(t: TunerState)
    ensures var overtaking, repeated := SerialRead("MDB;", ["BYPN;"]), SerialRead("TP0;", ["BYPN;"]);
            && IsOutcomeOf(Mode, Some(overtaking)) && IsOutcomeOf(TunePoll, Some(repeated))
            && PollOvertakes([Some(overtaking)]) && !PollOvertakes([Some(overtaking), Some(repeated)])
            && ApplyOutcomes([Some(overtaking)], t) != ParseAll(AnsweredLines([Some(overtaking)]), t)
            && ApplyOutcomes([Some(overtaking), Some(repeated)], t)
               == ParseAll(AnsweredLines([Some(overtaking), Some(repeated)]), t)
  {
    hide ReadingOf, Apply, ApplyAll, ParseAll, ApplyOutcomes, AnsweredLines;
    var overtaking, repeated := SerialRead("MDB;", ["BYPN;"]), SerialRead("TP0;", ["BYPN;"]);
    ExampleReadings();
    var both := [Some(overtaking), Some(repeated)];
    assert both[..1] == [Some(overtaking)];
    PollAgainstArrival([Mode], [Some(overtaking)], t);
    PollAgainstArrival([Mode, TunePoll], both, t);
  }

  lemma ExampleReadings()
    ensures Answers(Mode, "MDB;") && !Answers(Mode, "BYPN;")
    ensures Answers(TunePoll, "TP0;") && !Answers(TunePoll, "BYPN;")
    ensures ReadingOf("MDB;") == ModeBypass && ReadingOf("TP0;") == TuningIs(false)
    ensures Readings(["BYPN;"]) == [BypassIs(false)] && LastBypass([BypassIs(false)]) == Some(false)
  {
    hide ReadingOf;
    ModeAndTuningReportsRead("B");
    ModeAndTuningReportsRead("0");
    BypassWireReads("BYPN;");
    assert "MD" + "B" + ";" == "MDB;" && "TP" + "0" + ";" == "TP0;";
    assert StartsWith("MDB;", "MD") && "MD" in ExpectedPrefixes(Mode);
    assert StartsWith("TP0;", "TP") && "TP" in ExpectedPrefixes(TunePoll);
    StartsAt("BYPN;", "MD", 0);
    StartsAt("BYPN;", "TP", 0);
  }

  // ---------------------------------------------------------------- polling after a tune

  /** The answers among some outcomes, in order. */
  function Replies(outcomes: seq<Option<SerialRead>>): seq<string> {
    if outcomes == [] then []
    else
      var last := outcomes[|outcomes| - 1];
      Replies(outcomes[..|outcomes| - 1]) + (if last.Some? then [last.value.response] else [])
  }

  /** Do these answers leave the polling going? With the tuning flag clear the first answer has
      to set it, and no answer may clear it. */
  predicate GoesOn(flag: bool, replies: seq<string>) {
    "TP0;" !in replies && (flag || replies == [] || replies[0] == "TP1;")
  }

  /** An answer to the tuning query: `TP1;` sets the flag, `TP0;` clears it, and every other
      one leaves it alone. */
  lemma TuningAnswer(line: string, t: TunerState)
    requires Trimmed(line) && Answers(TunePoll, line)
    ensures ParseResponse(line, t).tuning <==> line == "TP1;" || (t.tuning && line != "TP0;")
  {
    hide ReadingOf;
    ModeAndTuningReportsRead("0");
    ModeAndTuningReportsRead("1");
    assert "TP" + "0" + ";" == "TP0;" && "TP" + "1" + ";" == "TP1;";
    if line == Wire(TunePoll) {
      ModeAndTuningReportsRead("");
      assert "TP" + "" + ";" == "TP;";
    } else {
      var body := line[2..|line| - 1];
      assert line[..2] == "TP";
      assert line == "TP" + body + ";";
      ModeAndTuningReportsRead(body);
    }
  }

  /** An answer leaves the tuning flag set exactly when it leaves the polling going. */
  lemma AnswerDecides(flag: bool, replies: seq<string>, line: string, t: TunerState)
    requires GoesOn(flag, replies) && (t.tuning <==> flag || replies != [])
    requires Trimmed(line) && Answers(TunePoll, line)
    ensures ParseResponse(line, t).tuning <==> GoesOn(flag, replies + [line])
    ensures replies + [line] != [] && (replies + [line])[..|replies + [line]| - 1] == replies
  {
    hide ParseResponse, Answers;
    TuningAnswer(line, t);
    InInitOrLast("TP0;", replies + [line]);
    assert (replies + [line])[..|replies|] == replies;
  }

  lemma OutcomeDecides(flag: bool, replies: seq<string>, outcome: Option<SerialRead>, t: TunerState)
    requires GoesOn(flag, replies) && (t.tuning <==> flag || replies != []) && IsOutcomeOf(TunePoll, outcome)
    ensures outcome.Some? ==>
      var more := replies + [outcome.value.response];
      && (ParseResponse(outcome.value.response, t).tuning <==> GoesOn(flag, more))
      && more != [] && more[..|more| - 1] == replies
  {
    hide ParseResponse, GoesOn, Answers;
    if outcome.Some? {
      AnswerDecides(flag, replies, outcome.value.response, t);
    }
  }

  lemma RepliesGrow(outcomes: seq<Option<SerialRead>>, outcome: Option<SerialRead>)
    ensures Replies(outcomes + [outcome])
         == if outcome.Some? then Replies(outcomes) + [outcome.value.response] else Replies(outcomes)
  {
    assert (outcomes + [outcome])[..|outcomes|] == outcomes;
  }

  /** Exactly when the last answer ends a polling that went on until then. With the flag clear
      at first, the first answer ends it unless it is `TP1;`, an echo of the query included;
      after a `TP1;`, and with the flag set at first, only `TP0;` ends it. */
  lemma PollingEndsExactly(flag: bool, replies: seq<string>)
    requires replies != []
    ensures var n := |replies| - 1;
            GoesOn(flag, replies[..n]) && !GoesOn(flag, replies)
            <==> "TP0;" !in replies[..n]
                 && (if flag then replies[n] == "TP0;"
                     else if n == 0 then replies[0] != "TP1;"
                     else replies[0] == "TP1;" && replies[n] == "TP0;")
  {
    var n := |replies| - 1;
    InInitOrLast("TP0;", replies);
    assert n > 0 ==> replies[..n][0] == replies[0];
    assert n == 0 ==> replies[..n] == [];
  }

  lemma InInitOrLast(reply: string, replies: seq<string>)
    requires replies != []
    ensures var n := |replies| - 1; reply in replies <==> reply in replies[..n] || reply == replies[n]
  {
    assert replies == replies[..|replies| - 1] + [replies[|replies| - 1]];
  }

  /** An echo of the query counts as its answer, and ends a polling with the flag clear. */
  lemma EchoEndsTunePolling()
    ensures Answers(TunePoll, Wire(TunePoll)) && !GoesOn(false, [Wire(TunePoll)])
  {
    assert Wire(TunePoll) == "TP;";
    assert "TP1;"[2] == '1';
  }

  lemma NothingPolled(flag: bool)
    ensures Flatten<PortEvent>([]) == [] && Replies([]) == [] && GoesOn(flag, [])
  {
  }

  lemma VswrAnswersDoNotTune(line: string, t: TunerState)
    requires Trimmed(line) && Answers(Vswr, line)
    ensures ParseResponse(line, t).tuning == t.tuning
  {
    var prefix := ExpectedPrefixes(Vswr)[0];
    if line != Wire(Vswr) { HeadOf(line, prefix); }
    assert line[0] == 'V';
    if StartsWith(line, "TP") { HeadOf(line, "TP"); }
    OnlyTuningLinesTune(line, t);
  }
}
