/** What the PGXL server's counters are counts of: every run of the interleaved connections
    against the greetings, frames and malformed lines that its actions brought. */
module PgxlTotals {
  import opened Text
  import opened PgxlServer
  import Protocol
  import PgxlSession

  // ---------------------------------------------------------------- replaying a run

  /** The connection that an action steps, as its step finds it. */
  function Stepped(s: State, a: Action): Option<Connection> {
    if a.Step? && a.i < |s.connections| then Some(s.connections[a.i]) else None
  }

  /** The line that a waiting connection reads in an action. */
  function LineRead(s: State, a: Action): Option<string> {
    if Stepped(s, a).Some? && Stepped(s, a).value.work == [] && a.input.Reads? then Some(a.input.line) else None
  }

  /** How often a line that is read is to be counted: a frame as a command and as a response, an
      unknown one as unknown too, and a line that is neither a frame nor blank as malformed. */
  function CallsOf(line: string, k: Counter): nat {
    var parsed := Protocol.ParseClientCommand(line);
    var counts :=
      match k
      case Commands => parsed.Success?
      case Responses => parsed.Success?
      case ParseFailures => parsed.Failure? && parsed.error != Protocol.Empty
      case UnknownCommands => parsed.Success? && PgxlSession.Handle(parsed.value.command, "").code == 1;
    if counts then 1 else 0
  }

  /** How often an action is to be counted: an accepted client for the response that greets it,
      and a line that is read for what it is. */
  function CalledBy(s: State, a: Action, k: Counter): nat {
    if a == Accept then if k == Responses then 1 else 0
    else match LineRead(s, a)
      case Some(line) => CallsOf(line, k)
      case None => 0
  }

  function Called(nextId: nat, actions: seq<Action>, k: Counter): nat {
    if actions == [] then 0
    else
      var before := actions[..|actions| - 1];
      Called(nextId, before, k) + CalledBy(Run(nextId, before), actions[|actions| - 1], k)
  }

  /** Does an action perform a step of this kind? A write is performed when it succeeds. */
  function PerformedBy(s: State, a: Action, t: Task): nat {
    match Stepped(s, a)
    case None => 0
    case Some(c) => if c.work != [] && c.work[0] == t && !(t == Write && a.input == Fails) then 1 else 0
  }

  function Performed(nextId: nat, actions: seq<Action>, t: Task): nat {
    if actions == [] then 0
    else
      var before := actions[..|actions| - 1];
      Performed(nextId, before, t) + PerformedBy(Run(nextId, before), actions[|actions| - 1], t)
  }

  /** Does an action fail a write, of a greeting or of any? */
  function FailureBy(s: State, a: Action, greeting: bool): nat {
    match Stepped(s, a)
    case None => 0
    case Some(c) =>
      if c.work != [] && c.work[0] == Write && a.input == Fails
         && (greeting ==> c.work == [Write, CountSession(Responses), CountGlobal(Responses)]) then 1 else 0
  }

  function Failures(nextId: nat, actions: seq<Action>, greeting: bool): nat {
    if actions == [] then 0
    else
      var before := actions[..|actions| - 1];
      Failures(nextId, before, greeting) + FailureBy(Run(nextId, before), actions[|actions| - 1], greeting)
  }

  // ---------------------------------------------------------------- the steps still to be taken

  function Tasks(work: seq<Task>, t: Task): nat {
    if work == [] then 0 else (if work[0] == t then 1 else 0) + Tasks(work[1..], t)
  }

  function Queues(connections: seq<Connection>, t: Task): seq<int> {
    seq(|connections|, i requires 0 <= i < |connections| => Tasks(connections[i].work, t))
  }

  /** How many steps of a kind all connections have still to take. */
  function Pending(connections: seq<Connection>, t: Task): int {
    Sum(Queues(connections, t))
  }

  /** How often a run calls for a step of a kind. */
  function Due(nextId: nat, actions: seq<Action>, t: Task): nat {
    match t
    case Write => Called(nextId, actions, Responses)
    case CountSession(k) => Called(nextId, actions, k)
    case CountGlobal(k) => Called(nextId, actions, k)
    case Cleanup => 0
  }

  /** How often a step of a kind is lost with a failed write. The response of a reply is counted for
      its session before the write, and that of a greeting after it. */
  function Lost(nextId: nat, actions: seq<Action>, t: Task): nat {
    match t
    case Write => Failures(nextId, actions, false)
    case CountSession(k) => if k == Responses then Failures(nextId, actions, true) else 0
    case CountGlobal(k) => if k == Responses then Failures(nextId, actions, false) else 0
    case Cleanup => 0
  }

  function DueBy(s: State, a: Action, t: Task): nat {
    match t
    case Write => CalledBy(s, a, Responses)
    case CountSession(k) => CalledBy(s, a, k)
    case CountGlobal(k) => CalledBy(s, a, k)
    case Cleanup => 0
  }

  function LostBy(s: State, a: Action, t: Task): nat {
    match t
    case Write => FailureBy(s, a, false)
    case CountSession(k) => if k == Responses then FailureBy(s, a, true) else 0
    case CountGlobal(k) => if k == Responses then FailureBy(s, a, false) else 0
    case Cleanup => 0
  }

  // ---------------------------------------------------------------- the work of a connection

  /** A write begins a greeting or ends a reply, and after the cleanup there is nothing. */
  predicate Known(work: seq<Task>) {
    work == [] ||
    (Known(work[1..])
     && (work[0] == Write ==> work == GREETING_WORK || work == REPLY_WORK)
     && (work[0] == Cleanup ==> work == [Cleanup]))
  }

  predicate AllKnown(s: State) {
    forall i :: 0 <= i < |s.connections| ==> Known(s.connections[i].work)
  }

  lemma {:induction false} TasksConcat(a: seq<Task>, b: seq<Task>, t: Task)
    ensures Tasks(a + b, t) == Tasks(a, t) + Tasks(b, t)
  {
    if a == [] {
      assert a + b == b;
    } else {
      assert (a + b)[0] == a[0] && (a + b)[1..] == a[1..] + b;
      TasksConcat(a[1..], b, t);
    }
  }

  lemma PairTasks(x: Task, y: Task, t: Task)
    ensures Tasks([x, y], t) == (if x == t then 1 else 0) + (if y == t then 1 else 0)
  {
    assert [x, y][1..] == [y] && [y][1..] == [];
    assert Tasks([y], t) == if y == t then 1 else 0;
  }

  lemma TripleTasks(x: Task, y: Task, z: Task, t: Task)
    ensures Tasks([x, y, z], t)
         == (if x == t then 1 else 0) + (if y == t then 1 else 0) + (if z == t then 1 else 0)
  {
    assert [x, y, z][1..] == [y, z];
    PairTasks(y, z, t);
  }

  /** A greeting, a reply and a malformed line put each of their steps into the work once. */
  lemma WorkTasks(t: Task)
    ensures Tasks(GREETING_WORK, t) == if t in {Write, CountSession(Responses), CountGlobal(Responses)} then 1 else 0
    ensures Tasks(MALFORMED_WORK, t) == if t in {CountSession(ParseFailures), CountGlobal(ParseFailures)} then 1 else 0
    ensures Tasks(REPLY_WORK, t) == if t in {Write, CountGlobal(Responses)} then 1 else 0
    ensures Tasks([Cleanup], t) == if t == Cleanup then 1 else 0
  {
    TripleTasks(Write, CountSession(Responses), CountGlobal(Responses), t);
    PairTasks(CountSession(ParseFailures), CountGlobal(ParseFailures), t);
    PairTasks(Write, CountGlobal(Responses), t);
    assert [Cleanup][1..] == [];
  }

  lemma FrameTasks(unknown: bool, t: Task)
    ensures Tasks(FrameWork(unknown), t)
         == if t in {Write, CountSession(Commands), CountGlobal(Commands), CountSession(Responses),
                     CountGlobal(Responses)}
               || (unknown && t in {CountSession(UnknownCommands), CountGlobal(UnknownCommands)})
            then 1 else 0
  {
    hide Tasks;
    var head := [CountSession(Commands), CountGlobal(Commands), CountSession(Responses)];
    var noted: seq<Task> := if unknown then [CountSession(UnknownCommands), CountGlobal(UnknownCommands)] else [];
    TasksConcat(head + noted, REPLY_WORK, t);
    TasksConcat(head, noted, t);
    TripleTasks(CountSession(Commands), CountGlobal(Commands), CountSession(Responses), t);
    PairTasks(CountSession(UnknownCommands), CountGlobal(UnknownCommands), t);
    NoTasks(t);
    WorkTasks(t);
  }

  lemma NoTasks(t: Task)
    ensures Tasks([], t) == 0
  {
  }

  lemma KnownCons(t: Task, rest: seq<Task>)
    requires Known(rest) && t != Write && t != Cleanup
    ensures Known([t] + rest)
  {
    assert ([t] + rest)[1..] == rest;
  }

  lemma WorkKnown(unknown: bool)
    ensures Known(GREETING_WORK) && Known(MALFORMED_WORK) && Known([Cleanup]) && Known(FrameWork(unknown))
  {
    hide Known;
    NothingKnown();
    KnownCons(CountGlobal(Responses), []);
    assert [CountGlobal(Responses)] + [] == [CountGlobal(Responses)];
    KnownCons(CountSession(Responses), [CountGlobal(Responses)]);
    KnownCons(CountGlobal(ParseFailures), []);
    assert [CountGlobal(ParseFailures)] + [] == [CountGlobal(ParseFailures)];
    KnownCons(CountSession(ParseFailures), [CountGlobal(ParseFailures)]);
    assert [CountSession(ParseFailures)] + [CountGlobal(ParseFailures)] == MALFORMED_WORK;
    WritesKnown();
    var noted := REPLY_WORK;
    if unknown {
      KnownCons(CountGlobal(UnknownCommands), REPLY_WORK);
      KnownCons(CountSession(UnknownCommands), [CountGlobal(UnknownCommands)] + REPLY_WORK);
      noted := [CountSession(UnknownCommands)] + ([CountGlobal(UnknownCommands)] + REPLY_WORK);
    }
    KnownCons(CountSession(Responses), noted);
    KnownCons(CountGlobal(Commands), [CountSession(Responses)] + noted);
    KnownCons(CountSession(Commands), [CountGlobal(Commands)] + ([CountSession(Responses)] + noted));
    assert FrameWork(unknown)
        == [CountSession(Commands)] + ([CountGlobal(Commands)] + ([CountSession(Responses)] + noted));
  }

  lemma NothingKnown()
    ensures Known([]) && Known([Cleanup])
  {
    assert [Cleanup][1..] == [];
  }

  lemma WritesKnown()
    requires Known([CountGlobal(Responses)] + [])
    requires Known([CountSession(Responses)] + [CountGlobal(Responses)])
    ensures Known(GREETING_WORK) && Known(REPLY_WORK)
  {
    assert [CountGlobal(Responses)] + [] == REPLY_WORK[1..];
    assert [CountSession(Responses)] + [CountGlobal(Responses)] == GREETING_WORK[1..];
  }

  // ---------------------------------------------------------------- one action

  lemma PendingProceed(s: State, i: nat, work: seq<Task>, t: Task)
    requires i < |s.connections|
    ensures Pending(Proceed(s, i, work).connections, t)
         == Pending(s.connections, t) - Tasks(s.connections[i].work, t) + Tasks(work, t)
  {
    SumUpdate(Queues(s.connections, t), i, Tasks(work, t));
    assert Queues(Proceed(s, i, work).connections, t) == Queues(s.connections, t)[i := Tasks(work, t)];
  }

  lemma PendingAppend(connections: seq<Connection>, c: Connection, t: Task)
    ensures Pending(connections + [c], t) == Pending(connections, t) + Tasks(c.work, t)
  {
    SumAppend(Queues(connections, t), Tasks(c.work, t));
    assert Queues(connections + [c], t) == Queues(connections, t) + [Tasks(c.work, t)];
  }

  lemma PendingRemove(connections: seq<Connection>, i: nat, t: Task)
    requires i < |connections|
    ensures Pending(connections[..i] + connections[i + 1..], t)
         == Pending(connections, t) - Tasks(connections[i].work, t)
  {
    var xs := Queues(connections, t);
    SumRemove(xs, i);
    assert Queues(connections[..i] + connections[i + 1..], t) == xs[..i] + xs[i + 1..];
  }

  /** An action performs, loses or queues exactly the steps that are called for. */
  predicate Accounted(s: State, a: Action, t: Task) {
    PerformedBy(s, a, t) + LostBy(s, a, t) + Pending(Do(s, a).connections, t)
    == Pending(s.connections, t) + DueBy(s, a, t)
  }

  lemma AcceptAccounted(s: State, t: Task)
    requires AllKnown(s) && t != Cleanup
    ensures Accounted(s, Accept, t) && AllKnown(Do(s, Accept))
  {
    hide Tasks, Known, Pending;
    WorkTasks(t);
    WorkKnown(false);
    PendingAppend(s.connections, Connection(s.clients.nextId, GREETING_WORK), t);
  }

  /** What a line that is read puts into the work. */
  lemma LineTasks(line: string, t: Task)
    requires t != Cleanup
    ensures var parsed := Protocol.ParseClientCommand(line);
            var due := match t
              case Write => CallsOf(line, Responses)
              case CountSession(k) => CallsOf(line, k)
              case CountGlobal(k) => CallsOf(line, k)
              case Cleanup => 0;
            && (parsed.Success? ==>
                  due == Tasks(FrameWork(PgxlSession.Handle(parsed.value.command, "").code == 1), t))
            && (parsed.Failure? && parsed.error != Protocol.Empty ==> due == Tasks(MALFORMED_WORK, t))
            && (parsed == Failure(Protocol.Empty) ==> due == 0)
  {
    hide Tasks, FrameWork, Protocol.ParseClientCommand, PgxlSession.Handle;
    WorkTasks(t);
    var parsed := Protocol.ParseClientCommand(line);
    if parsed.Success? {
      FrameTasks(PgxlSession.Handle(parsed.value.command, "").code == 1, t);
    }
  }

  lemma ReadAccounted(s: State, i: nat, input: Input, t: Task)
    requires AllKnown(s) && t != Cleanup && i < |s.connections| && s.connections[i].work == []
    ensures Accounted(s, Step(i, input), t) && AllKnown(Do(s, Step(i, input)))
  {
    hide Tasks, Known, FrameWork, CallsOf, Protocol.ParseClientCommand, PgxlSession.Handle, Pending;
    NoTasks(t);
    WorkTasks(t);
    WorkKnown(false);
    WorkKnown(true);
    if input.Reads? { LineTasks(input.line, t); }
    var end := Read(s, i, input);
    if end != s {
      PendingProceed(s, i, end.connections[i].work, t);
    }
  }

  lemma PerformAccounted(s: State, i: nat, input: Input, t: Task)
    requires AllKnown(s) && t != Cleanup && i < |s.connections| && s.connections[i].work != []
    ensures Accounted(s, Step(i, input), t) && AllKnown(Do(s, Step(i, input)))
  {
    hide Pending, Counted, Closed, Position, CallsOf, Tasks;
    var work := s.connections[i].work;
    WorkTasks(t);
    WorkKnown(false);
    FirstTask(work, t);
    if work[0] == Cleanup {
      PendingRemove(s.connections, i, t);
    } else if work[0] == Write && input == Fails {
      PendingProceed(s, i, [Cleanup], t);
    } else {
      PendingProceed(s, i, work[1..], t);
    }
  }

  lemma FirstTask(work: seq<Task>, t: Task)
    requires work != []
    ensures Tasks(work, t) == (if work[0] == t then 1 else 0) + Tasks(work[1..], t)
  {
  }

  lemma ActionAccounted(s: State, a: Action, t: Task)
    requires AllKnown(s) && t != Cleanup
    ensures Accounted(s, a, t) && AllKnown(Do(s, a))
  {
    hide Pending, Tasks, Known, Read, Perform, CallsOf, Accounted;
    match a
    case Accept => AcceptAccounted(s, t);
    case OtherAccept => OtherAccounted(s, t);
    case Step(i, input) =>
      if i >= |s.connections| {
        NoStepAccounted(s, a, t);
      } else if s.connections[i].work == [] {
        ReadAccounted(s, i, input, t);
      } else {
        PerformAccounted(s, i, input, t);
      }
  }

  lemma OtherAccounted(s: State, t: Task)
    ensures Accounted(s, OtherAccept, t)
  {
  }

  lemma NoStepAccounted(s: State, a: Action, t: Task)
    requires a.Step? && a.i >= |s.connections|
    ensures Accounted(s, a, t)
  {
  }

  // ---------------------------------------------------------------- whole runs

  /** In every run every step that the actions call for has been performed, was lost with a failed
      write, or is still to be taken; whether or not ids collide. */
  lemma {:induction false} EveryStepIsAccounted(nextId: nat, actions: seq<Action>, t: Task)
    requires t != Cleanup
    ensures Performed(nextId, actions, t) + Lost(nextId, actions, t) + Pending(Run(nextId, actions).connections, t)
         == Due(nextId, actions, t)
    ensures AllKnown(Run(nextId, actions))
  {
    hide Pending, Do, PerformedBy, FailureBy, CalledBy, AllKnown;
    if actions == [] {
      NothingPending(nextId, t);
    } else {
      var before := actions[..|actions| - 1];
      EveryStepIsAccounted(nextId, before, t);
      ActionAccounted(Run(nextId, before), actions[|actions| - 1], t);
    }
  }

  lemma NothingPending(nextId: nat, t: Task)
    ensures Pending(Start(nextId).connections, t) == 0 && AllKnown(Start(nextId))
  {
  }

  /** The server's counts are the steps that count for it, and the connections that died in the write
      of a reply are the failed writes that were no greeting. */
  lemma {:induction false} GlobalsArePerformed(nextId: nat, actions: seq<Action>, k: Counter)
    ensures var s := Run(nextId, actions);
            && Get(s.globals, k) == Performed(nextId, actions, CountGlobal(k))
            && s.diedInWrite == Failures(nextId, actions, false) - Failures(nextId, actions, true)
  {
    hide Do, PerformedBy, FailureBy, AllKnown;
    if actions != [] {
      var before := actions[..|actions| - 1];
      GlobalsArePerformed(nextId, before, k);
      EveryStepIsAccounted(nextId, before, Write);
      GlobalStep(Run(nextId, before), actions[|actions| - 1], k);
    }
  }

  lemma GlobalStep(s: State, a: Action, k: Counter)
    requires AllKnown(s)
    ensures Get(Do(s, a).globals, k) == Get(s.globals, k) + PerformedBy(s, a, CountGlobal(k))
    ensures Do(s, a).diedInWrite == s.diedInWrite + FailureBy(s, a, false) - FailureBy(s, a, true)
  {
    hide Counted, Closed, Position, FrameWork, Protocol.ParseClientCommand, PgxlSession.Handle;
    if a.Step? && a.i < |s.connections| {
      assert Known(s.connections[a.i].work);
    }
  }

  // ---------------------------------------------------------------- what the counters count

  /** One work list: what is queued to be counted for the server is what is queued for the session
      and what the connection owes. */
  lemma {:induction false} QueuedIsOwed(work: seq<Task>, k: Counter)
    requires Sane(work)
    ensures Tasks(work, CountGlobal(k)) == Tasks(work, CountSession(k)) + Owes(work, k)
    ensures CountSession(k) in work <==> Tasks(work, CountSession(k)) > 0
    ensures CountGlobal(k) in work <==> Tasks(work, CountGlobal(k)) > 0
  {
    if work != [] {
      assert work == [work[0]] + work[1..];
      QueuedIsOwed(work[1..], k);
    }
  }

  lemma {:induction false} SumOfSums(xs: seq<int>, ys: seq<int>, zs: seq<int>)
    requires |xs| == |ys| == |zs| && forall i :: 0 <= i < |xs| ==> xs[i] == ys[i] + zs[i]
    ensures Sum(xs) == Sum(ys) + Sum(zs)
  {
    if xs != [] {
      var n := |xs| - 1;
      SumOfSums(xs[..n], ys[..n], zs[..n]);
    }
  }

  lemma PendingIsOwed(s: State, k: Counter)
    requires Good(s)
    ensures Pending(s.connections, CountGlobal(k))
         == Pending(s.connections, CountSession(k)) + Sum(Owed(s.connections, k))
  {
    hide Sane, Tasks, Owes, Balanced;
    forall i | 0 <= i < |s.connections|
      ensures Tasks(s.connections[i].work, CountGlobal(k))
           == Tasks(s.connections[i].work, CountSession(k)) + Owes(s.connections[i].work, k)
    {
      QueuedIsOwed(s.connections[i].work, k);
    }
    SumOfSums(Queues(s.connections, CountGlobal(k)), Queues(s.connections, CountSession(k)),
              Owed(s.connections, k));
  }

  /** What every counter counts, in any interleaving of any number of connections with failures
      anywhere. The server's count, with what is still queued for it and the responses lost with
      a failed write, is the number of greetings, frames, unknown frames or malformed lines that
      the actions brought. So are the counts of all sessions, if no client is accepted with the
      id of a live session: there the only responses lost are those of failed greetings. */
  lemma RunCounts(nextId: nat, actions: seq<Action>, k: Counter)
    requires nextId <= U64_MAX
    ensures var s := Run(nextId, actions);
            && Get(s.globals, k) + Pending(s.connections, CountGlobal(k))
               + (if k == Responses then Failures(nextId, actions, false) else 0)
               == Called(nextId, actions, k)
            && (NeverCollides(nextId, actions) ==>
                  Sum(Recorded(s.clients.sessions, k)) + Get(s.retired, k) + Pending(s.connections, CountSession(k))
                  + (if k == Responses then Failures(nextId, actions, true) else 0)
                  == Called(nextId, actions, k))
  {
    hide Pending, Performed, Called, Failures, Run, Recorded, Good;
    EveryStepIsAccounted(nextId, actions, CountGlobal(k));
    GlobalsArePerformed(nextId, actions, k);
    if NeverCollides(nextId, actions) {
      EveryRunIsGood(nextId, actions);
      assert AlwaysGood(nextId, actions);
      PendingIsOwed(Run(nextId, actions), k);
      GoodIsBalanced(Run(nextId, actions), k);
    }
  }

  lemma GoodIsBalanced(s: State, k: Counter)
    requires Good(s)
    ensures Balanced(s, k)
  {
  }

  /** A write comes before the server's count of it. */
  lemma {:induction false} WriteBeforeCount(work: seq<Task>)
    requires Known(work)
    ensures Tasks(work, Write) <= Tasks(work, CountGlobal(Responses))
  {
    WorkTasks(Write);
    WorkTasks(CountGlobal(Responses));
    if work != [] {
      WriteBeforeCount(work[1..]);
    }
  }

  lemma {:induction false} SumMonotone(xs: seq<int>, ys: seq<int>)
    requires |xs| == |ys| && forall i :: 0 <= i < |xs| ==> xs[i] <= ys[i]
    ensures Sum(xs) <= Sum(ys)
  {
    if xs != [] {
      SumMonotone(xs[..|xs| - 1], ys[..|ys| - 1]);
    }
  }

  /** Every greeting and every reply has been written, has failed, or is still to be written; and at
      no time does the server count a response that was not written. */
  lemma ResponsesAreWritten(nextId: nat, actions: seq<Action>)
    requires nextId <= U64_MAX
    ensures var s := Run(nextId, actions);
            var written := Performed(nextId, actions, Write);
            && written + Failures(nextId, actions, false) + Pending(s.connections, Write)
               == Called(nextId, actions, Responses)
            && Get(s.globals, Responses) <= written
  {
    hide Performed, Called, Failures, Run, Known, Tasks;
    var s := Run(nextId, actions);
    EveryStepIsAccounted(nextId, actions, Write);
    RunCounts(nextId, actions, Responses);
    forall i | 0 <= i < |s.connections|
      ensures Tasks(s.connections[i].work, Write) <= Tasks(s.connections[i].work, CountGlobal(Responses))
    {
      WriteBeforeCount(s.connections[i].work);
    }
    SumMonotone(Queues(s.connections, Write), Queues(s.connections, CountGlobal(Responses)));
  }

  /** When every connection waits for a line, the server and, without a collision, the sessions have
      counted everything that the run brought, less the responses whose write failed; and exactly
      the responses counted have been written. Without a failed write all three agree. */
  lemma QuiescentRunBalances(nextId: nat, actions: seq<Action>, k: Counter)
    requires nextId <= U64_MAX
    ensures var s := Run(nextId, actions);
            var sessions := Sum(Recorded(s.clients.sessions, k)) + Get(s.retired, k);
            (forall i :: 0 <= i < |s.connections| ==> s.connections[i].work == []) ==>
              && Get(s.globals, k)
                 == Called(nextId, actions, k) - (if k == Responses then Failures(nextId, actions, false) else 0)
              && Get(s.globals, Responses) == Performed(nextId, actions, Write)
              && (NeverCollides(nextId, actions) ==>
                    && sessions
                       == Called(nextId, actions, k) - (if k == Responses then Failures(nextId, actions, true) else 0)
                    && (s.diedInWrite == 0 ==> sessions == Get(s.globals, k)))
  {
    hide Performed, Called, Failures, Run, Recorded;
    var s := Run(nextId, actions);
    if forall i :: 0 <= i < |s.connections| ==> s.connections[i].work == [] {
      WaitingOwesNothing(s, CountGlobal(k));
      WaitingOwesNothing(s, CountSession(k));
      WaitingOwesNothing(s, CountGlobal(Responses));
      WaitingOwesNothing(s, Write);
      RunCounts(nextId, actions, k);
      RunCounts(nextId, actions, Responses);
      ResponsesAreWritten(nextId, actions);
      GlobalsArePerformed(nextId, actions, k);
    }
  }

  lemma WaitingOwesNothing(s: State, t: Task)
    requires forall i :: 0 <= i < |s.connections| ==> s.connections[i].work == []
    ensures Pending(s.connections, t) == 0
  {
    SumOfZeros(Queues(s.connections, t));
  }

  lemma {:induction false} SumOfZeros(xs: seq<int>)
    requires forall i :: 0 <= i < |xs| ==> xs[i] == 0
    ensures Sum(xs) == 0
  {
    if xs != [] {
      SumOfZeros(xs[..|xs| - 1]);
    }
  }
}
