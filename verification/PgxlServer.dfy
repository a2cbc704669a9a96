/** The PGXL server's connections sharing one lock: every lock scope is one step, and the
    steps of any number of connections interleave in any order. */
module PgxlServer {
  import opened Text
  import Protocol
  import PgxlSession

  // ---------------------------------------------------------------- the shared client list

  /** What is counted both for a session and for all of them. */
  datatype Counter = Commands | Responses | ParseFailures | UnknownCommands

  datatype Counts = Counts(commands: nat, responses: nat, parseFailures: nat, unknown: nat)

  const ZERO := Counts(0, 0, 0, 0)

  function Get(c: Counts, k: Counter): nat {
    match k
    case Commands => c.commands
    case Responses => c.responses
    case ParseFailures => c.parseFailures
    case UnknownCommands => c.unknown
  }

  function Bump(c: Counts, k: Counter): Counts {
    match k
    case Commands => c.(commands := c.commands + 1)
    case Responses => c.(responses := c.responses + 1)
    case ParseFailures => c.(parseFailures := c.parseFailures + 1)
    case UnknownCommands => c.(unknown := c.unknown + 1)
  }

  function Plus(a: Counts, b: Counts): Counts {
    Counts(a.commands + b.commands, a.responses + b.responses,
           a.parseFailures + b.parseFailures, a.unknown + b.unknown)
  }

  datatype Session = Session(id: nat, counts: Counts)

  datatype Clients = Clients(connected: bool, count: nat, started: nat, nextId: nat, sessions: seq<Session>)

  function Opened(c: Clients): Clients {
    Clients(true, c.count + 1, SaturatingAdd(c.started, 1), SaturatingAdd(c.nextId, 1),
            c.sessions + [Session(c.nextId, ZERO)])
  }

  /** The place of the first session with an id, or the length of the list. */
  function Position(sessions: seq<Session>, id: nat): (k: nat)
    ensures k <= |sessions| && (k < |sessions| ==> sessions[k].id == id)
    ensures forall j :: 0 <= j < k ==> sessions[j].id != id
  {
    if sessions == [] || sessions[0].id == id then 0 else 1 + Position(sessions[1..], id)
  }

  function Counted(sessions: seq<Session>, id: nat, k: Counter): seq<Session> {
    var at := Position(sessions, id);
    if at < |sessions| then sessions[at := Session(id, Bump(sessions[at].counts, k))] else sessions
  }

  function Kept(sessions: seq<Session>, id: nat): seq<Session> {
    if sessions == [] then []
    else
      var last := sessions[|sessions| - 1];
      Kept(sessions[..|sessions| - 1], id) + (if last.id != id then [last] else [])
  }

  function Closed(c: Clients, id: nat): Clients {
    var count := if c.count == 0 then 0 else c.count - 1;
    c.(count := count, connected := count > 0, sessions := Kept(c.sessions, id))
  }

  /** The id the other protocol's server takes, in the same lock scope in which it adds one. */
  function OtherId(c: Clients): nat {
    SaturatingAdd(c.nextId, 1)
  }

  /** A client of the other protocol and the next client of this one get the same id. */
  lemma IdsAreSharedAcrossProtocols(c: Clients)
    ensures var next := Opened(c.(nextId := SaturatingAdd(c.nextId, 1)));
            next.sessions[|c.sessions|].id == OtherId(c)
  {
  }

  /** The client list as the connections update it, each method inside one lock scope. */
  class SharedClients {
    var connected: bool
    var count: nat
    var started: nat
    var nextId: nat
    var sessions: seq<Session>

    constructor (nextId: nat)
      ensures Value() == Clients(false, 0, 0, nextId, [])
    {
      connected, count, started, sessions := false, 0, 0, [];
      this.nextId := nextId;
    }

    ghost function Value(): Clients
      reads this
    {
      Clients(connected, count, started, nextId, sessions)
    }

    method Accept() returns (id: nat)
      modifies this
      ensures Value() == Opened(old(Value())) && id == old(nextId)
      ensures (forall x <- old(sessions) :: x.id < old(nextId)) ==> forall x <- old(sessions) :: x.id != id
      ensures old(nextId) < U64_MAX ==> id < nextId
    {
      connected := true;
      count := count + 1;
      started := SaturatingAdd(started, 1);
      id := nextId;
      nextId := SaturatingAdd(nextId, 1);
      sessions := sessions + [Session(id, ZERO)];
    }

    method UpdateSession(id: nat, k: Counter)
      modifies this`sessions
      ensures sessions == Counted(old(sessions), id, k)
    {
      var i := 0;
      while i < |sessions| && sessions[i].id != id
        invariant i <= |sessions| && sessions == old(sessions)
        invariant forall j :: 0 <= j < i ==> sessions[j].id != id
      {
        i := i + 1;
      }
      if i < |sessions| {
        sessions := sessions[i := Session(id, Bump(sessions[i].counts, k))];
      }
    }

    method Disconnect(id: nat)
      modifies this
      ensures Value() == Closed(old(Value()), id)
    {
      count := if count == 0 then 0 else count - 1;
      connected := count > 0;
      var kept: seq<Session> := [];
      for i := 0 to |sessions|
        invariant sessions == old(sessions) && kept == Kept(sessions[..i], id)
        invariant connected == (count > 0) && count == (if old(count) == 0 then 0 else old(count) - 1)
        invariant started == old(started) && nextId == old(nextId)
      {
        assert sessions[..i + 1][..i] == sessions[..i];
        if sessions[i].id != id {
          kept := kept + [sessions[i]];
        }
      }
      assert sessions[..|sessions|] == sessions;
      sessions := kept;
    }
  }

  // ---------------------------------------------------------------- connections as step lists

  datatype Task = Write | CountSession(k: Counter) | CountGlobal(k: Counter) | Cleanup

  /** A connection and the steps it still has to take before it reads its next line. */
  datatype Connection = Connection(id: nat, work: seq<Task>)

  const GREETING_WORK: seq<Task> := [Write, CountSession(Responses), CountGlobal(Responses)]

  const MALFORMED_WORK: seq<Task> := [CountSession(ParseFailures), CountGlobal(ParseFailures)]

  const REPLY_WORK: seq<Task> := [Write, CountGlobal(Responses)]

  function FrameWork(unknown: bool): seq<Task> {
    [CountSession(Commands), CountGlobal(Commands), CountSession(Responses)]
    + (if unknown then [CountSession(UnknownCommands), CountGlobal(UnknownCommands)] else [])
    + REPLY_WORK
  }

  /** The whole server. `retired` adds up the counts of sessions already removed, and
      `diedInWrite` counts the connections that failed to write a reply. */
  datatype State = State(clients: Clients, globals: Counts, connections: seq<Connection>,
                         retired: Counts, diedInWrite: nat)

  /** What a connection's environment does at a step: how a write or a wait for a line ends, or
      which line is read. */
  datatype Input = Succeeds | Fails | Reads(line: string)

  /** A step of the server: a client is accepted, a client of the other protocol takes a
      session id, or one connection takes its next step. */
  datatype Action = Accept | OtherAccept | Step(i: nat, input: Input)

  function Start(nextId: nat): State {
    State(Clients(false, 0, 0, nextId, []), ZERO, [], ZERO, 0)
  }

  function Proceed(s: State, i: nat, work: seq<Task>): State
    requires i < |s.connections|
  {
    s.(connections := s.connections[i := s.connections[i].(work := work)])
  }

  function Do(s: State, a: Action): State {
    match a
    case Accept =>
      s.(clients := Opened(s.clients),
         connections := s.connections + [Connection(s.clients.nextId, GREETING_WORK)])
    case OtherAccept =>
      s.(clients := s.clients.(nextId := SaturatingAdd(s.clients.nextId, 1)))
    case Step(i, input) =>
      if i >= |s.connections| then s
      else if s.connections[i].work == [] then Read(s, i, input)
      else Perform(s, i, input == Fails)
  }

  function Read(s: State, i: nat, input: Input): State
    requires i < |s.connections|
  {
    match input
    case Reads(line) =>
      var parsed := Protocol.ParseClientCommand(line);
      if parsed.Success? then Proceed(s, i, FrameWork(PgxlSession.Handle(parsed.value.command, "").code == 1))
      else if parsed.error == Protocol.Empty then s
      else Proceed(s, i, MALFORMED_WORK)
    case Succeeds => Proceed(s, i, [Cleanup])  // the client closed
    case Fails => Proceed(s, i, [Cleanup])
  }

  function Perform(s: State, i: nat, fails: bool): State
    requires i < |s.connections| && s.connections[i].work != []
  {
    var id, work := s.connections[i].id, s.connections[i].work;
    match work[0]
    case Write =>
      if fails
      then Proceed(s, i, [Cleanup]).(diedInWrite := s.diedInWrite + (if work == REPLY_WORK then 1 else 0))
      else Proceed(s, i, work[1..])
    case CountSession(k) =>
      Proceed(s, i, work[1..]).(clients := s.clients.(sessions := Counted(s.clients.sessions, id, k)))
    case CountGlobal(k) =>
      Proceed(s, i, work[1..]).(globals := Bump(s.globals, k))
    case Cleanup =>
      var at := Position(s.clients.sessions, id);
      s.(clients := Closed(s.clients, id),
         connections := s.connections[..i] + s.connections[i + 1..],
         retired := if at < |s.clients.sessions| then Plus(s.retired, s.clients.sessions[at].counts) else s.retired)
  }

  function Run(nextId: nat, actions: seq<Action>): State {
    if actions == [] then Start(nextId)
    else Do(Run(nextId, actions[..|actions| - 1]), actions[|actions| - 1])
  }

  // ---------------------------------------------------------------- what every run keeps

  /** A connection has counted something for its session and not yet for the server. */
  predicate IsBetween(work: seq<Task>, k: Counter) {
    CountGlobal(k) in work && CountSession(k) !in work
  }

  function Owes(work: seq<Task>, k: Counter): int {
    if IsBetween(work, k) then 1 else 0
  }

  function Sum(xs: seq<int>): int {
    if xs == [] then 0 else Sum(xs[..|xs| - 1]) + xs[|xs| - 1]
  }

  function Recorded(sessions: seq<Session>, k: Counter): seq<int> {
    seq(|sessions|, i requires 0 <= i < |sessions| => Get(sessions[i].counts, k))
  }

  function Owed(connections: seq<Connection>, k: Counter): seq<int> {
    seq(|connections|, i requires 0 <= i < |connections| => Owes(connections[i].work, k))
  }

  /** Connections and sessions correspond one to one, and their ids are all different. */
  predicate Matched(s: State) {
    && |s.connections| == |s.clients.sessions| == s.clients.count
    && (s.clients.connected <==> s.clients.count > 0)
    && (forall i :: 0 <= i < |s.connections| ==>
          s.connections[i].id == s.clients.sessions[i].id)
    && (forall x <- s.clients.sessions :: x.id < s.clients.nextId || x.id == s.clients.nextId == U64_MAX)
    && DistinctIds(s.clients.sessions)
  }

  predicate DistinctIds(sessions: seq<Session>) {
    forall i, j :: 0 <= i < j < |sessions| ==> sessions[i].id != sessions[j].id
  }

  /** All that was ever counted for a session, less what was counted for the server, is what
      the connections between the two still owe, and the replies whose write failed. */
  predicate Balanced(s: State, k: Counter) {
    Sum(Recorded(s.clients.sessions, k)) + Get(s.retired, k)
    == Get(s.globals, k) + Sum(Owed(s.connections, k)) + (if k == Responses then s.diedInWrite else 0)
  }

  /** A list of steps in which every pair of counts is closed in order, and a failing write
      breaks no pair but the one of a reply. */
  predicate Sane(work: seq<Task>) {
    work == [] ||
    var rest := work[1..];
    && Sane(rest)
    && match work[0]
       case Write => (forall k :: IsBetween(work, k) ==> work == REPLY_WORK && k == Responses)
       case CountSession(k) => IsBetween(rest, k)
       case CountGlobal(k) => CountSession(k) !in rest && CountGlobal(k) !in rest
       case Cleanup => rest == []
  }

  predicate Good(s: State) {
    && Matched(s)
    && (forall i :: 0 <= i < |s.connections| ==> Sane(s.connections[i].work))
    && forall k :: Balanced(s, k)
  }

  lemma {:induction false} SumUpdate(xs: seq<int>, i: nat, x: int)
    requires i < |xs|
    ensures Sum(xs[i := x]) == Sum(xs) - xs[i] + x
  {
    var n := |xs| - 1;
    if i < n {
      assert xs[i := x][..n] == xs[..n][i := x];
      SumUpdate(xs[..n], i, x);
    } else {
      assert xs[i := x][..n] == xs[..n];
    }
  }

  lemma {:induction false} SumRemove(xs: seq<int>, i: nat)
    requires i < |xs|
    ensures Sum(xs[..i] + xs[i + 1..]) == Sum(xs) - xs[i]
  {
    var n := |xs| - 1;
    if i < n {
      assert (xs[..i] + xs[i + 1..])[..n - 1] == xs[..n][..i] + xs[..n][i + 1..];
      SumRemove(xs[..n], i);
    } else {
      assert xs[..i] + xs[i + 1..] == xs[..n];
    }
  }

  lemma SumAppend(xs: seq<int>, x: int)
    ensures Sum(xs + [x]) == Sum(xs) + x
  {
    assert (xs + [x])[..|xs|] == xs;
  }

  /** The work a connection is given is sane and owes nothing yet. */
  lemma WorkStartsSane(unknown: bool)
    ensures Sane(GREETING_WORK) && Sane(MALFORMED_WORK) && Sane(FrameWork(unknown)) && Sane([Cleanup])
    ensures forall k :: !IsBetween(GREETING_WORK, k) && !IsBetween(MALFORMED_WORK, k)
                        && !IsBetween(FrameWork(unknown), k) && !IsBetween([Cleanup], k)
  {
    hide Sane, IsBetween, FrameWork;
    GreetingSane();
    PairSane(ParseFailures);
    CleanupSane();
    FrameWorkSane(unknown);
  }

  function NotedWork(unknown: bool): seq<Task> {
    (if unknown then [CountSession(UnknownCommands), CountGlobal(UnknownCommands)] else []) + REPLY_WORK
  }

  lemma FrameWorkSane(unknown: bool)
    ensures Sane(FrameWork(unknown)) && forall k :: !IsBetween(FrameWork(unknown), k)
  {
    hide Sane, IsBetween, NotedWork;
    NotedSane(unknown);
    FrameSane(NotedWork(unknown));
    FrameParts(unknown);
  }

  lemma FrameParts(unknown: bool)
    ensures FrameWork(unknown)
         == [CountSession(Commands)]
            + ([CountGlobal(Commands)] + ([CountSession(Responses)] + NotedWork(unknown)))
  {
  }

  lemma NotedSane(unknown: bool)
    ensures var work := NotedWork(unknown);
            && Sane(work) && IsBetween(work, Responses)
            && CountSession(Commands) !in work && CountGlobal(Commands) !in work
            && forall k :: IsBetween(work, k) ==> k == Responses
  {
    hide Sane;
    ReplySane();
    if unknown {
      PairInFront(UnknownCommands, REPLY_WORK);
      assert NotedWork(true) == [CountSession(UnknownCommands)] + ([CountGlobal(UnknownCommands)] + REPLY_WORK);
    } else {
      assert NotedWork(false) == REPLY_WORK;
    }
  }

  lemma FrameSane(rest: seq<Task>)
    requires Sane(rest) && IsBetween(rest, Responses)
    requires CountSession(Commands) !in rest && CountGlobal(Commands) !in rest
    requires forall k :: IsBetween(rest, k) ==> k == Responses
    ensures var work := [CountSession(Commands)] + ([CountGlobal(Commands)] + ([CountSession(Responses)] + rest));
            Sane(work) && forall k :: !IsBetween(work, k)
  {
    hide Sane, IsBetween;
    SaneCons(CountSession(Responses), rest);
    PairInFront(Commands, [CountSession(Responses)] + rest);
  }

  /** Counting something new, for the session and then for the server, in front of sane work. */
  lemma PairInFront(k: Counter, rest: seq<Task>)
    requires Sane(rest) && CountSession(k) !in rest && CountGlobal(k) !in rest
    ensures var work := [CountSession(k)] + ([CountGlobal(k)] + rest);
            Sane(work) && forall j :: IsBetween(work, j) <==> IsBetween(rest, j)
  {
    hide Sane;
    SaneCons(CountGlobal(k), rest);
    SaneCons(CountSession(k), [CountGlobal(k)] + rest);
  }

  lemma ReplySane()
    ensures Sane(REPLY_WORK) && forall k :: IsBetween(REPLY_WORK, k) <==> k == Responses
  {
    SaneCons(CountGlobal(Responses), []);
    SaneCons(Write, [CountGlobal(Responses)]);
    assert [Write] + [CountGlobal(Responses)] == REPLY_WORK;
  }

  lemma PairSane(k: Counter)
    ensures var pair := [CountSession(k), CountGlobal(k)]; Sane(pair) && forall j :: !IsBetween(pair, j)
  {
    SaneCons(CountGlobal(k), []);
    SaneCons(CountSession(k), [CountGlobal(k)]);
    assert [CountSession(k)] + [CountGlobal(k)] == [CountSession(k), CountGlobal(k)];
  }

  lemma GreetingSane()
    ensures Sane(GREETING_WORK) && forall k :: !IsBetween(GREETING_WORK, k)
  {
    hide Sane;
    var pair := [CountSession(Responses), CountGlobal(Responses)];
    PairSane(Responses);
    SaneCons(Write, pair);
    assert [Write] + pair == GREETING_WORK;
  }

  lemma CleanupSane()
    ensures Sane([Cleanup]) && forall k :: !IsBetween([Cleanup], k)
  {
    SaneCons(Cleanup, []);
    assert [Cleanup] + [] == [Cleanup];
  }

  /** A step in front of sane work is sane when it fits what the work does. */
  lemma SaneCons(t: Task, rest: seq<Task>)
    requires Sane(rest)
    requires t == Write ==> forall k :: IsBetween(rest, k) ==> [t] + rest == REPLY_WORK && k == Responses
    requires t.CountSession? ==> IsBetween(rest, t.k)
    requires t.CountGlobal? ==> CountSession(t.k) !in rest && CountGlobal(t.k) !in rest
    requires t == Cleanup ==> rest == []
    ensures Sane([t] + rest)
    ensures forall k :: IsBetween([t] + rest, k)
                        <==> t != CountSession(k) && if t == CountGlobal(k) then CountSession(k) !in rest
                                                     else IsBetween(rest, k)
  {
    var work := [t] + rest;
    assert work[1..] == rest;
    assert forall k :: IsBetween(work, k) && t == Write ==> IsBetween(rest, k);
  }

  /** One step of a work list: what it owes before and after. */
  lemma StepOwes(work: seq<Task>, k: Counter)
    requires Sane(work) && work != []
    ensures Owes(work[1..], k) - Owes(work, k)
         == if work[0] == CountSession(k) then 1 else if work[0] == CountGlobal(k) then -1 else 0
  {
    assert work == [work[0]] + work[1..];
  }

  lemma ProceedOwes(s: State, i: nat, work: seq<Task>, k: Counter)
    requires i < |s.connections|
    ensures Sum(Owed(Proceed(s, i, work).connections, k))
         == Sum(Owed(s.connections, k)) - Owes(s.connections[i].work, k) + Owes(work, k)
  {
    SumUpdate(Owed(s.connections, k), i, Owes(work, k));
    assert Owed(Proceed(s, i, work).connections, k) == Owed(s.connections, k)[i := Owes(work, k)];
  }

  /** With different ids, the session of a connection is the one in its place. */
  lemma OwnSession(s: State, i: nat)
    requires Matched(s) && i < |s.connections|
    ensures |s.connections| == |s.clients.sessions| && s.clients.sessions[i].id == s.connections[i].id
    ensures Position(s.clients.sessions, s.connections[i].id) == i
  {
    var at := Position(s.clients.sessions, s.connections[i].id);
    assert s.clients.sessions[i].id == s.connections[i].id;
  }

  lemma {:induction false} KeptAll(sessions: seq<Session>, id: nat)
    requires forall j :: 0 <= j < |sessions| ==> sessions[j].id != id
    ensures Kept(sessions, id) == sessions
  {
    if sessions != [] {
      KeptAll(sessions[..|sessions| - 1], id);
    }
  }

  /** Removing an id removes exactly the one session that has it. */
  lemma {:induction false} KeptRemovesOne(sessions: seq<Session>, i: nat)
    requires i < |sessions| && DistinctIds(sessions)
    ensures Kept(sessions, sessions[i].id) == sessions[..i] + sessions[i + 1..]
  {
    var n := |sessions| - 1;
    if i < n {
      KeptRemovesOne(sessions[..n], i);
      assert sessions[..n][..i] + sessions[..n][i + 1..] + [sessions[n]] == sessions[..i] + sessions[i + 1..];
    } else {
      KeptAll(sessions[..n], sessions[i].id);
    }
  }

  // ---------------------------------------------------------------- preservation, step by step

  lemma AcceptBalances(s: State, k: Counter)
    requires Balanced(s, k)
    ensures Balanced(Do(s, Accept), k)
  {
    hide Sane, IsBetween, Recorded, Owed;
    WorkStartsSane(false);
    RecordedAppend(s.clients.sessions, Session(s.clients.nextId, ZERO), k);
    OwedAppend(s.connections, Connection(s.clients.nextId, GREETING_WORK), k);
  }

  lemma RecordedAppend(sessions: seq<Session>, x: Session, k: Counter)
    ensures Sum(Recorded(sessions + [x], k)) == Sum(Recorded(sessions, k)) + Get(x.counts, k)
  {
    hide Get;
    SumAppend(Recorded(sessions, k), Get(x.counts, k));
    assert Recorded(sessions + [x], k) == Recorded(sessions, k) + [Get(x.counts, k)];
  }

  lemma OwedAppend(connections: seq<Connection>, x: Connection, k: Counter)
    ensures Sum(Owed(connections + [x], k)) == Sum(Owed(connections, k)) + Owes(x.work, k)
  {
    hide Owes;
    SumAppend(Owed(connections, k), Owes(x.work, k));
    assert Owed(connections + [x], k) == Owed(connections, k) + [Owes(x.work, k)];
  }

  lemma AcceptKeeps(s: State)
    requires Good(s) && s.clients.nextId <= U64_MAX && !Collides(s, Accept)
    ensures Good(Do(s, Accept))
  {
    hide Sane, Balanced, IsBetween;
    var end := Do(s, Accept);
    WorkStartsSane(false);
    forall k
      ensures Balanced(end, k)
    {
      AcceptBalances(s, k);
    }
  }

  lemma ReadKeeps(s: State, i: nat, input: Input)
    requires Good(s) && i < |s.connections| && s.connections[i].work == []
    ensures Good(Read(s, i, input))
  {
    hide Sane, Protocol.ParseClientCommand, PgxlSession.Handle;
    WorkStartsSane(false);
    WorkStartsSane(true);
    var end := Read(s, i, input);
    if end != s {
      var work := end.connections[i].work;
      forall k
        ensures Balanced(end, k)
      {
        ProceedOwes(s, i, work, k);
        assert Balanced(s, k);
      }
    }
  }

  lemma WriteKeeps(s: State, i: nat, fails: bool)
    requires Good(s) && i < |s.connections| && s.connections[i].work != [] && s.connections[i].work[0] == Write
    ensures Good(Perform(s, i, fails))
  {
    var work := s.connections[i].work;
    var end := Perform(s, i, fails);
    WorkStartsSane(false);
    forall k
      ensures Balanced(end, k)
    {
      ProceedOwes(s, i, end.connections[i].work, k);
      StepOwes(work, k);
      assert Balanced(s, k);
    }
  }

  lemma CountSessionBalances(s: State, i: nat, c: Counter, k: Counter)
    requires Matched(s) && Balanced(s, k) && i < |s.connections| && Sane(s.connections[i].work)
    requires s.connections[i].work != [] && s.connections[i].work[0] == CountSession(c)
    ensures Balanced(Perform(s, i, false), k)
  {
    hide Sane, IsBetween, Owed, Matched, Position;
    var work := s.connections[i].work;
    var end := Perform(s, i, false);
    OwnSession(s, i);
    var bumped := Bump(s.clients.sessions[i].counts, c);
    assert end.clients.sessions == s.clients.sessions[i := Session(s.connections[i].id, bumped)];
    ProceedOwes(s, i, work[1..], k);
    StepOwes(work, k);
    SumUpdate(Recorded(s.clients.sessions, k), i, Get(bumped, k));
    assert Recorded(end.clients.sessions, k) == Recorded(s.clients.sessions, k)[i := Get(bumped, k)];
  }

  lemma CountSessionKeeps(s: State, i: nat, c: Counter)
    requires Good(s) && i < |s.connections|
    requires s.connections[i].work != [] && s.connections[i].work[0] == CountSession(c)
    ensures Good(Perform(s, i, false)) && Perform(s, i, true) == Perform(s, i, false)
  {
    hide Balanced;
    OwnSession(s, i);
    forall k
      ensures Balanced(Perform(s, i, false), k)
    {
      CountSessionBalances(s, i, c, k);
    }
  }

  lemma CountGlobalKeeps(s: State, i: nat, c: Counter)
    requires Good(s) && i < |s.connections|
    requires s.connections[i].work != [] && s.connections[i].work[0] == CountGlobal(c)
    ensures Good(Perform(s, i, false)) && Perform(s, i, true) == Perform(s, i, false)
  {
    var work := s.connections[i].work;
    var end := Perform(s, i, false);
    forall k
      ensures Balanced(end, k)
    {
      ProceedOwes(s, i, work[1..], k);
      StepOwes(work, k);
      assert Balanced(s, k);
    }
  }

  /** A disconnect removes exactly its own session, and keeps the balance. */
  lemma CleanupRemovesOwn(s: State, i: nat)
    requires Good(s) && i < |s.connections|
    requires s.connections[i].work != [] && s.connections[i].work[0] == Cleanup
    ensures var end := Perform(s, i, false);
            && Perform(s, i, true) == end && Good(end)
            && end.clients.sessions == s.clients.sessions[..i] + s.clients.sessions[i + 1..]
            && end.retired == Plus(s.retired, s.clients.sessions[i].counts)
  {
    hide Sane, Balanced, Matched, DistinctIds, Position, Kept;
    var end := Perform(s, i, false);
    OwnSession(s, i);
    CleanupMatches(s, i);
    assert s.connections[i].work == [Cleanup] by { CleanupIsLast(s.connections[i].work); }
    forall k
      ensures Balanced(end, k)
    {
      CleanupBalances(s, end, i, k);
    }
  }

  lemma CleanupMatches(s: State, i: nat)
    requires Matched(s) && i < |s.connections|
    requires s.connections[i].work != [] && s.connections[i].work[0] == Cleanup
    ensures var end := Perform(s, i, false);
            Matched(end) && end.clients.sessions == s.clients.sessions[..i] + s.clients.sessions[i + 1..]
  {
    hide Position, Kept;
    KeptRemovesOne(s.clients.sessions, i);
  }

  lemma CleanupIsLast(work: seq<Task>)
    requires Sane(work) && work != [] && work[0] == Cleanup
    ensures work == [Cleanup]
  {
    assert work == [Cleanup] + work[1..];
  }

  lemma CleanupBalances(s: State, end: State, i: nat, k: Counter)
    requires Balanced(s, k) && |s.connections| == |s.clients.sessions|
    requires i < |s.connections| && s.connections[i].work == [Cleanup]
    requires end.clients.sessions == s.clients.sessions[..i] + s.clients.sessions[i + 1..]
    requires end.connections == s.connections[..i] + s.connections[i + 1..]
    requires end.retired == Plus(s.retired, s.clients.sessions[i].counts)
    requires end.globals == s.globals && end.diedInWrite == s.diedInWrite
    ensures Balanced(end, k)
  {
    hide Recorded, Owed, IsBetween;
    CleanupSane();
    RecordedRemove(s.clients.sessions, i, k);
    OwedRemove(s.connections, i, k);
  }

  lemma RecordedRemove(sessions: seq<Session>, i: nat, k: Counter)
    requires i < |sessions|
    ensures Sum(Recorded(sessions[..i] + sessions[i + 1..], k))
         == Sum(Recorded(sessions, k)) - Get(sessions[i].counts, k)
  {
    hide Get;
    var xs := Recorded(sessions, k);
    SumRemove(xs, i);
    assert Recorded(sessions[..i] + sessions[i + 1..], k) == xs[..i] + xs[i + 1..];
  }

  lemma OwedRemove(connections: seq<Connection>, i: nat, k: Counter)
    requires i < |connections|
    ensures Sum(Owed(connections[..i] + connections[i + 1..], k))
         == Sum(Owed(connections, k)) - Owes(connections[i].work, k)
  {
    hide Owes;
    var xs := Owed(connections, k);
    SumRemove(xs, i);
    assert Owed(connections[..i] + connections[i + 1..], k) == xs[..i] + xs[i + 1..];
  }

  lemma StepKeeps(s: State, a: Action)
    requires Good(s) && s.clients.nextId <= U64_MAX && !Collides(s, a)
    ensures Good(Do(s, a))
  {
    match a
    case Accept => AcceptKeeps(s);
    case OtherAccept =>
      assert forall k :: Balanced(s, k) ==> Balanced(Do(s, a), k);
    case Step(i, input) =>
      if i < |s.connections| {
        var work := s.connections[i].work;
        if work == [] {
          ReadKeeps(s, i, input);
        } else {
          match work[0]
          case Write => WriteKeeps(s, i, input == Fails);
          case CountSession(k) => CountSessionKeeps(s, i, k);
          case CountGlobal(k) => CountGlobalKeeps(s, i, k);
          case Cleanup => CleanupRemovesOwn(s, i);
        }
      }
  }

  lemma IdsOnlyGrow(s: State, a: Action)
    requires s.clients.nextId <= U64_MAX
    ensures s.clients.nextId <= Do(s, a).clients.nextId <= U64_MAX
  {
  }

  /** A client is accepted with an id that a live session still has. That takes the last
      64-bit id. */
  predicate Collides(s: State, a: Action) {
    a == Accept && exists x <- s.clients.sessions :: x.id == s.clients.nextId
  }

  predicate NeverCollides(nextId: nat, actions: seq<Action>) {
    actions == [] ||
    var before := actions[..|actions| - 1];
    NeverCollides(nextId, before) && !Collides(Run(nextId, before), actions[|actions| - 1])
  }

  /** Every state that a run passes through is good. */
  predicate AlwaysGood(nextId: nat, actions: seq<Action>) {
    Good(Run(nextId, actions)) && (actions == [] || AlwaysGood(nextId, actions[..|actions| - 1]))
  }

  lemma CollisionBreaks(s: State, a: Action)
    requires Collides(s, a)
    ensures !Good(Do(s, a))
  {
    var before, after := s.clients.sessions, Do(s, a).clients.sessions;
    var i: nat :| i < |before| && before[i].id == s.clients.nextId;
    assert after[i].id == after[|before|].id;
  }

  lemma StartsGood(nextId: nat)
    ensures Good(Start(nextId))
  {
    assert forall k :: Balanced(Start(nextId), k);
  }

  /** Every interleaving of any number of connections, with failures anywhere, keeps the
      session list, the count, the flag and the counters in step at every step, if and only if
      no client is accepted with the id of a live session. While ids are left, none is. */
  lemma {:induction false} EveryRunIsGood(nextId: nat, actions: seq<Action>)
    requires nextId <= U64_MAX
    ensures nextId <= Run(nextId, actions).clients.nextId <= U64_MAX
    ensures AlwaysGood(nextId, actions) <==> NeverCollides(nextId, actions)
    ensures Run(nextId, actions).clients.nextId < U64_MAX ==> NeverCollides(nextId, actions)
  {
    hide Good, Do, Collides;
    if actions == [] {
      StartsGood(nextId);
    } else {
      var before, last := actions[..|actions| - 1], actions[|actions| - 1];
      EveryRunIsGood(nextId, before);
      var s := Run(nextId, before);
      IdsOnlyGrow(s, last);
      if Collides(s, last) {
        CollisionBreaks(s, last);
        if Good(s) { NoCollisionBelow(s, last); }
      } else if Good(s) {
        StepKeeps(s, last);
      }
    }
  }

  lemma NoCollisionBelow(s: State, a: Action)
    requires Good(s) && Collides(s, a)
    ensures s.clients.nextId == U64_MAX
  {
    hide Sane, Balanced;
  }

  /** With the last id taken by a live session the promise fails: two clients share the last id, and when one
      of them leaves, both sessions are gone while one client is still counted. */
  lemma ExhaustedIdsCollide()
    ensures var two := Opened(Opened(Clients(false, 0, 0, U64_MAX, [])));
            Closed(two, U64_MAX).count == 1 && Closed(two, U64_MAX).sessions == []
  {
    var sessions := [Session(U64_MAX, ZERO), Session(U64_MAX, ZERO)];
    assert Opened(Opened(Clients(false, 0, 0, U64_MAX, []))).sessions == sessions;
    assert sessions[..1] == [Session(U64_MAX, ZERO)] && sessions[..1][..0] == [];
    assert Kept(sessions[..1], U64_MAX) == Kept(sessions[..1][..0], U64_MAX) == [];
  }
}
