/** The history of the amplifier's operating state: which lines, controls and startups moved
    it, and what the transition log was told. */
module KpaHistory {
  import opened Text
  import opened KpaLines

  /** A poll, a verified control, or the beginning or the end of a strict startup. */
  datatype Cause = Polled | Controlled | PoweredUp | StartedUp

  datatype Move = Move(change: Change, cause: Cause)

  function ChangesOf(moves: seq<Move>): seq<Change> {
    if moves == [] then [] else ChangesOf(moves[..|moves| - 1]) + [moves[|moves| - 1].change]
  }

  /** What the transition log is told: the moves made by polls. */
  function LoggedOf(moves: seq<Move>): seq<Change> {
    if moves == [] then []
    else
      var last := moves[|moves| - 1];
      LoggedOf(moves[..|moves| - 1]) + (if last.cause == Polled then [last.change] else [])
  }

  function CountOf(moves: seq<Move>, cause: Cause): nat {
    if moves == [] then 0
    else CountOf(moves[..|moves| - 1], cause) + (if moves[|moves| - 1].cause == cause then 1 else 0)
  }

  /** A history that leads from standby to an amplifier, move by move. The log holds exactly its
      polled part. Records of no change are no more than the strict startups that have ended;
      without a strict startup there is none, and the amplifier is consistent. */
  ghost predicate Accounts(moves: seq<Move>, a: Amp, logged: seq<Change>) {
    && Plausible(a)
    && Linked(ChangesOf(moves), Standby, a.state)
    && logged == LoggedOf(moves)
    && Empties(logged) + (if Awry(a) then 1 else 0) <= CountOf(moves, StartedUp)
    && (CountOf(moves, PoweredUp) == 0 ==> CountOf(moves, StartedUp) == 0 && Consistent(a))
  }

  lemma MoveGrows(moves: seq<Move>, m: Move)
    requires Linked(ChangesOf(moves), Standby, m.change.before)
    ensures Linked(ChangesOf(moves + [m]), Standby, m.change.after)
    ensures LoggedOf(moves + [m]) == if m.cause == Polled then LoggedOf(moves) + [m.change] else LoggedOf(moves)
    ensures forall cause ::
      CountOf(moves + [m], cause) == CountOf(moves, cause) + (if cause == m.cause then 1 else 0)
  {
    assert (moves + [m])[..|moves|] == moves;
    assert ChangesOf(moves + [m])[..|ChangesOf(moves)|] == ChangesOf(moves);
  }

  lemma StartsAccounted()
    ensures Accounts([], INITIAL, [])
  {
  }

  /** A line read by a poll, which the log is told of when state or flag differ. */
  lemma PolledLineKeeps(moves: seq<Move>, a: Amp, logged: seq<Change>, line: string)
    requires Accounts(moves, a, logged)
    ensures var b := ParseResponse(line, a);
            var change := Change(a.state, b.state);
            if Recorded(line, a, b) then Accounts(moves + [Move(change, Polled)], b, logged + [change])
            else Accounts(moves, b, logged)
  {
    hide ParseResponse, Plausible, Consistent, Recorded, Awry, Linked, Empties, LoggedOf, CountOf, ChangesOf;
    RecordedIffChanged(line, a);
    RecordedIffDiffers(line, a);
    var b := ParseResponse(line, a);
    var change := Change(a.state, b.state);
    MoveGrows(moves, Move(change, Polled));
    EmptiesGrow(logged, change);
  }

  /** A line read after a control, of which the log is not told. */
  lemma ControlledLineKeeps(moves: seq<Move>, a: Amp, logged: seq<Change>, line: string)
    requires Accounts(moves, a, logged)
    ensures var b := ParseResponse(line, a);
            if a.state != b.state then Accounts(moves + [Move(Change(a.state, b.state), Controlled)], b, logged)
            else Accounts(moves, b, logged)
  {
    hide ParseResponse, Plausible, Consistent, Recorded, Awry, Linked, Empties, LoggedOf, CountOf, ChangesOf;
    RecordedIffChanged(line, a);
    var b := ParseResponse(line, a);
    MoveGrows(moves, Move(Change(a.state, b.state), Controlled));
  }

  function PowerOn(a: Amp): Amp {
    a.(state := PowerUp, fault := None)
  }

  /** A strict startup begins. */
  lemma PowerUpKeeps(moves: seq<Move>, a: Amp, logged: seq<Change>)
    requires Accounts(moves, a, logged)
    ensures Accounts(moves + [Move(Change(a.state, PowerUp), PoweredUp)], PowerOn(a), logged)
  {
    hide Linked, Empties, LoggedOf, CountOf, ChangesOf;
    MoveGrows(moves, Move(Change(a.state, PowerUp), PoweredUp));
  }

  /** A strict startup ends: an amplifier still powering up is put in standby. */
  lemma StartUpKeeps(moves: seq<Move>, a: Amp, logged: seq<Change>)
    requires Accounts(moves, a, logged) && a.state == PowerUp
    ensures Accounts(moves + [Move(Change(PowerUp, Standby), StartedUp)], a.(state := Standby), logged)
  {
    hide Linked, Empties, LoggedOf, CountOf, ChangesOf;
    MoveGrows(moves, Move(Change(PowerUp, Standby), StartedUp));
  }

  /** What strict startups can make of an amplifier between two holds of the lock. */
  predicate Disturbed(a: Amp, b: Amp) {
    || b == a
    || b == PowerOn(a)
    || b == PowerOn(a).(state := Standby)
  }

  /** What every accounted history says of the log. */
  lemma LogIsReal(moves: seq<Move>, a: Amp, logged: seq<Change>)
    requires Accounts(moves, a, logged)
    ensures Empties(logged) <= CountOf(moves, StartedUp)
    ensures CountOf(moves, PoweredUp) == 0 ==> Empties(logged) == 0
    ensures a.state != TransmitA && a.state != TransmitB
  {
  }

  /** A startup of an amplifier in operate leaves it awry, and the next standby report is then
      recorded although nothing changes. */
  lemma EmptyRecordExists()
    ensures var operating := ParseResponse("^OS1;", INITIAL);
            var awry := PowerOn(operating).(state := Standby);
            && Disturbed(operating, awry) && Awry(awry)
            && Recorded("^OS0;", awry, ParseResponse("^OS0;", awry))
            && ParseResponse("^OS0;", awry).state == awry.state
  {
    hide ReadingOf, Recorded;
    ControlWiresReadBack();
    var operating := ParseResponse("^OS1;", INITIAL);
    RecordedIffChanged("^OS0;", PowerOn(operating).(state := Standby));
  }

  lemma OtherCause(moves: seq<Move>, m: Move)
    ensures CountOf(moves + [m], PoweredUp) == CountOf(moves, PoweredUp) + (if m.cause == PoweredUp then 1 else 0)
  {
    assert (moves + [m])[..|moves|] == moves;
  }

  lemma AccountsPlausible(moves: seq<Move>, a: Amp, logged: seq<Change>)
    requires Accounts(moves, a, logged)
    ensures Plausible(a)
  {
  }

  lemma DisturbedOften()
    ensures forall a, b, c :: Disturbed(a, b) && Disturbed(b, c) ==> Disturbed(a, c)
    ensures forall a :: Disturbed(a, a)
  {
  }
}
