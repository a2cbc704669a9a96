/** The log of amplifier state changes: a window of the last 64, each with the first
    observations made of it since it was recorded. */
module TransitionLog {
  import opened Text

  const WINDOW: nat := 64
  const LIMIT_MS: nat := 2000

  datatype Entry = Entry(
    id: nat, oldState: string, newState: string, detectedMs: nat, updatedMs: nat,
    pgxlMs: Option<nat>, pgxlState: Option<string>, pgxlMatchMs: Option<nat>,
    reannounceMs: Option<nat>, reannounceLine: Option<string>,
    flexMs: Option<nat>, flexState: Option<string>, flexLine: Option<string>, flexMatchMs: Option<nat>,
    reflection: Option<string>, pgxlPassed: Option<bool>, flexPassed: Option<bool>)

  /** Everything the log is told, in order. */
  datatype Event =
    | Changed(ms: nat, oldState: string, newState: string)
    | PgxlStatus(ms: nat, state: string)
    | Reannounced(ms: nat, line: Option<string>)
    | FlexStatus(ms: nat, seen: Option<string>, line: Option<string>)

  // ---------------------------------------------------------------- specification over the history

  datatype Question = AnyPgxl | PgxlIs(state: string) | AnyReannounce | AnyFlex | FlexIs(state: string)

  predicate Hits(q: Question, since: nat, e: Event) {
    since <= e.ms &&
    match q
    case AnyPgxl => e.PgxlStatus?
    case PgxlIs(state) => e.PgxlStatus? && e.state == state
    case AnyReannounce => e.Reannounced?
    case AnyFlex => e.FlexStatus? && e.seen.Some?
    case FlexIs(state) => e.FlexStatus? && e.seen == Some(state)
  }

  /** The first qualifying event, if there is one. */
  function First(q: Question, since: nat, events: seq<Event>): Option<Event> {
    if events == [] then None
    else if Hits(q, since, events[0]) then Some(events[0])
    else First(q, since, events[1..])
  }

  function TimeOf(e: Option<Event>): Option<nat> {
    if e.Some? then Some(e.value.ms) else None
  }

  function Passed(matchMs: Option<nat>, detectedMs: nat): Option<bool> {
    if matchMs.Some? then Some(detectedMs <= matchMs.value <= detectedMs + LIMIT_MS) else None
  }

  function Mismatch(seen: string, expected: string): string {
    "flex_echoed_" + seen + "_while_egb_expected_" + expected
  }

  /** The entry of a change, in terms of the events since it was recorded. */
  function EntryOf(id: nat, change: Event, since: seq<Event>): Entry
    requires change.Changed?
  {
    var ms := change.ms;
    var pgxl := First(AnyPgxl, ms, since);
    var pgxlMatch := TimeOf(First(PgxlIs(change.newState), ms, since));
    var reannounce := First(AnyReannounce, ms, since);
    var flex := First(AnyFlex, ms, since);
    var flexMatch := TimeOf(First(FlexIs(change.newState), ms, since));
    FirstHits(AnyPgxl, ms, since);
    FirstHits(AnyReannounce, ms, since);
    FirstHits(AnyFlex, ms, since);
    Entry(id, change.oldState, change.newState, ms, ms,
      TimeOf(pgxl), if pgxl.Some? then Some(pgxl.value.state) else None, pgxlMatch,
      TimeOf(reannounce), if reannounce.Some? then reannounce.value.line else None,
      TimeOf(flex), if flex.Some? then flex.value.seen else None,
      if flex.Some? then flex.value.line else None, flexMatch,
      if flexMatch.Some? then Some("matched")
      else if flex.Some? then Some(Mismatch(flex.value.seen.value, change.newState))
      else None,
      Passed(pgxlMatch, ms), Passed(flexMatch, ms))
  }

  lemma {:induction false} FirstHits(q: Question, since: nat, events: seq<Event>)
    ensures First(q, since, events).Some? ==> Hits(q, since, First(q, since, events).value)
  {
    if events != [] && !Hits(q, since, events[0]) {
      FirstHits(q, since, events[1..]);
    }
  }

  /** The entries of all changes of a history, with ids counted on from `count`. */
  function Entries(events: seq<Event>, count: nat): seq<Entry> {
    if events == [] then []
    else if events[0].Changed? then
      var id := SaturatingAdd(count, 1);
      [EntryOf(id, events[0], events[1..])] + Entries(events[1..], id)
    else Entries(events[1..], count)
  }

  function CountAfter(events: seq<Event>, count: nat): nat {
    if events == [] then count
    else CountAfter(events[1..], if events[0].Changed? then SaturatingAdd(count, 1) else count)
  }

  function Suffix(entries: seq<Entry>): seq<Entry> {
    if |entries| > WINDOW then entries[|entries| - WINDOW..] else entries
  }

  // ---------------------------------------------------------------- one more event

  /** What one observation does to an entry. */
  function Observe(e: Event, x: Entry): Entry {
    if e.ms < x.detectedMs then x
    else match e
      case Changed(_, _, _) => x
      case PgxlStatus(ms, state) =>
        var seen := if x.pgxlMs.None? then x.(pgxlMs := Some(ms), pgxlState := Some(state)) else x;
        if seen.pgxlMatchMs.None? && state == x.newState
        then seen.(pgxlMatchMs := Some(ms), pgxlPassed := Passed(Some(ms), x.detectedMs)) else seen
      case Reannounced(ms, line) =>
        if x.reannounceMs.None? then x.(reannounceMs := Some(ms), reannounceLine := line) else x
      case FlexStatus(ms, state, line) =>
        if state.None? then x
        else
          var seen :=
            if x.flexMs.None? then
              x.(flexMs := Some(ms), flexState := state, flexLine := line,
                 reflection := if state.value != x.newState then Some(Mismatch(state.value, x.newState))
                               else x.reflection)
            else x;
          if seen.flexMatchMs.None? && state.value == x.newState
          then seen.(flexMatchMs := Some(ms), reflection := Some("matched"),
                     flexPassed := Passed(Some(ms), x.detectedMs))
          else seen
  }

  function ObserveAll(e: Event, xs: seq<Entry>): seq<Entry> {
    seq(|xs|, i requires 0 <= i < |xs| => Observe(e, xs[i]))
  }

  /** The entries an observation changes, as they are afterwards. */
  function Touched(e: Event, xs: seq<Entry>): seq<Entry> {
    if xs == [] then []
    else
      var last := xs[|xs| - 1];
      Touched(e, xs[..|xs| - 1]) + (if Observe(e, last) != last then [Observe(e, last)] else [])
  }

  lemma {:induction false} FirstGrows(q: Question, since: nat, events: seq<Event>, e: Event)
    ensures First(q, since, events + [e])
         == if First(q, since, events).Some? then First(q, since, events)
            else if Hits(q, since, e) then Some(e) else None
  {
    if events == [] {
      assert events + [e] == [e];
    } else {
      assert (events + [e])[1..] == events[1..] + [e];
      FirstGrows(q, since, events[1..], e);
    }
  }

  /** The first event that shows a given state comes no earlier than the first of its kind. */
  lemma {:induction false} MatchImpliesFirst(state: string, since: nat, events: seq<Event>)
    ensures First(PgxlIs(state), since, events).Some? ==> First(AnyPgxl, since, events).Some?
    ensures First(FlexIs(state), since, events).Some? ==> First(AnyFlex, since, events).Some?
  {
    if events != [] {
      MatchImpliesFirst(state, since, events[1..]);
    }
  }

  /** A first observation in another state is recorded as a mismatch until a match comes. */
  lemma EntryGrows(id: nat, change: Event, since: seq<Event>, e: Event)
    requires change.Changed?
    ensures EntryOf(id, change, since + [e]) == Observe(e, EntryOf(id, change, since))
  {
    hide First, Mismatch;
    FirstGrows(AnyPgxl, change.ms, since, e);
    FirstGrows(PgxlIs(change.newState), change.ms, since, e);
    FirstGrows(AnyReannounce, change.ms, since, e);
    FirstGrows(AnyFlex, change.ms, since, e);
    FirstGrows(FlexIs(change.newState), change.ms, since, e);
    MatchImpliesFirst(change.newState, change.ms, since);
  }

  /** One more event: a change adds an entry and leaves the others alone; an observation adds
      none and touches every entry it can. */
  lemma {:induction false} EntriesGrow(events: seq<Event>, e: Event, count: nat)
    ensures CountAfter(events + [e], count)
         == if e.Changed? then SaturatingAdd(CountAfter(events, count), 1) else CountAfter(events, count)
    ensures Entries(events + [e], count)
         == ObserveAll(e, Entries(events, count))
            + (if e.Changed? then [EntryOf(CountAfter(events + [e], count), e, [])] else [])
  {
    hide EntryOf, Observe;
    if events == [] {
      assert events + [e] == [e] && [e][1..] == [];
    } else {
      var next := if events[0].Changed? then SaturatingAdd(count, 1) else count;
      assert (events + [e])[1..] == events[1..] + [e];
      EntriesGrow(events[1..], e, next);
      if events[0].Changed? {
        EntryGrows(next, events[0], events[1..], e);
      }
    }
  }

  lemma ChangeObservesNothing(e: Event, xs: seq<Entry>)
    requires e.Changed?
    ensures ObserveAll(e, xs) == xs
  {
  }

  // ---------------------------------------------------------------- the log

  class Log {
    var count: nat
    var entries: seq<Entry>
    ghost var history: seq<Event>

    constructor ()
      ensures Valid() && history == []
    {
      count, entries, history := 0, [], [];
    }

    /** The log holds the last 64 changes of its history, each with the first observations
        made since, and counts all of them. */
    ghost predicate Valid()
      reads this
    {
      && count == CountAfter(history, 0)
      && entries == Suffix(Entries(history, 0))
    }

    method RecordTransition(oldState: string, newState: string, ms: nat) returns (entry: Entry)
      requires Valid()
      modifies this
      ensures Valid() && history == old(history) + [Changed(ms, oldState, newState)]
      ensures entry.id == count == SaturatingAdd(old(count), 1)
      ensures entries != [] && entry == entries[|entries| - 1]
    {
      hide EntryOf, Entries;
      ghost var e := Changed(ms, oldState, newState);
      EntriesGrow(history, e, 0);
      ChangeObservesNothing(e, Entries(history, 0));
      NewEntry(SaturatingAdd(count, 1), e);
      count := SaturatingAdd(count, 1);
      entry := Entry(count, oldState, newState, ms, ms, None, None, None, None, None,
                     None, None, None, None, None, None, None);
      entries := entries + [entry];
      if |entries| > WINDOW {
        entries := entries[|entries| - WINDOW..];
      }
      history := history + [e];
    }

    method RecordPgxlStatus(ms: nat, state: string) returns (updated: seq<Entry>)
      requires Valid()
      modifies this
      ensures Valid() && history == old(history) + [PgxlStatus(ms, state)]
      ensures updated == Touched(PgxlStatus(ms, state), old(entries))
    {
      hide Entries, Observe, ObserveAll, Sound, Touched, PartlyObserved;
      ghost var e := PgxlStatus(ms, state);
      updated := [];
      StartsObserved(entries, e);
      EntriesAreSound(history, 0);
      for i := 0 to |entries|
        invariant count == old(count) && history == old(history)
        invariant PartlyObserved(entries, old(entries), e, i, updated)
      {
        OneMoreObserved(entries, old(entries), e, i, updated);
        var entry, changed := SeePgxlStatus(entries[i], ms, state);
        if changed {
          updated := updated + [entry];
        }
        entries := entries[i := entry];
      }
      EndsObserved(entries, old(entries), e, updated);
      Observed(e);
    }

    method RecordReannounce(ms: nat, line: Option<string>) returns (updated: seq<Entry>)
      requires Valid()
      modifies this
      ensures Valid() && history == old(history) + [Reannounced(ms, line)]
      ensures updated == Touched(Reannounced(ms, line), old(entries))
    {
      hide Entries, Observe, ObserveAll, Sound, Touched, PartlyObserved;
      ghost var e := Reannounced(ms, line);
      updated := [];
      StartsObserved(entries, e);
      EntriesAreSound(history, 0);
      for i := 0 to |entries|
        invariant count == old(count) && history == old(history)
        invariant PartlyObserved(entries, old(entries), e, i, updated)
      {
        OneMoreObserved(entries, old(entries), e, i, updated);
        var entry, changed := SeeReannounce(entries[i], ms, line);
        if changed {
          updated := updated + [entry];
        }
        entries := entries[i := entry];
      }
      EndsObserved(entries, old(entries), e, updated);
      Observed(e);
    }

    method RecordFlexStatus(ms: nat, state: Option<string>, line: Option<string>) returns (updated: seq<Entry>)
      requires Valid()
      modifies this
      ensures Valid() && history == old(history) + [FlexStatus(ms, state, line)]
      ensures updated == Touched(FlexStatus(ms, state, line), old(entries))
    {
      hide Entries, Observe, ObserveAll, Sound, Touched, PartlyObserved;
      ghost var e := FlexStatus(ms, state, line);
      updated := [];
      StartsObserved(entries, e);
      if state.None? {
        NothingObserved(ms, line, entries);
        Observed(e);
        return;
      }
      EntriesAreSound(history, 0);
      for i := 0 to |entries|
        invariant count == old(count) && history == old(history)
        invariant PartlyObserved(entries, old(entries), e, i, updated)
      {
        OneMoreObserved(entries, old(entries), e, i, updated);
        var entry, changed := SeeFlexStatus(entries[i], ms, state.value, line);
        if changed {
          updated := updated + [entry];
        }
        entries := entries[i := entry];
      }
      EndsObserved(entries, old(entries), e, updated);
      Observed(e);
    }

    /** The window after an observation that has touched every entry. */
    ghost method Observed(e: Event)
      requires !e.Changed? && count == CountAfter(history, 0)
      requires entries == ObserveAll(e, Suffix(Entries(history, 0)))
      modifies this`history
      ensures Valid() && history == old(history) + [e]
    {
      EntriesGrow(history, e, 0);
      history := history + [e];
    }
  }

  /** The pass flags say what the matches say. */
  predicate Sound(x: Entry) {
    && x.pgxlPassed == Passed(x.pgxlMatchMs, x.detectedMs)
    && x.flexPassed == Passed(x.flexMatchMs, x.detectedMs)
  }

  /** Both pass flags worked out again from the matches. */
  method Refresh(x: Entry) returns (r: Entry)
    ensures r == x.(pgxlPassed := Passed(x.pgxlMatchMs, x.detectedMs),
                    flexPassed := Passed(x.flexMatchMs, x.detectedMs))
  {
    r := x.(pgxlPassed := if x.pgxlMatchMs.Some?
      then Some(x.pgxlMatchMs.value >= x.detectedMs && x.pgxlMatchMs.value - x.detectedMs <= LIMIT_MS) else None);
    r := r.(flexPassed := if r.flexMatchMs.Some?
      then Some(r.flexMatchMs.value >= r.detectedMs && r.flexMatchMs.value - r.detectedMs <= LIMIT_MS) else None);
  }

  method SeePgxlStatus(x: Entry, ms: nat, state: string) returns (r: Entry, changed: bool)
    requires Sound(x)
    ensures r == Observe(PgxlStatus(ms, state), x) && (changed <==> r != x)
  {
    r, changed := x, false;
    if ms < x.detectedMs {
      return;
    }
    if r.pgxlMs.None? {
      r, changed := r.(pgxlMs := Some(ms), pgxlState := Some(state)), true;
    }
    if r.pgxlMatchMs.None? && state == r.newState {
      r, changed := r.(pgxlMatchMs := Some(ms)), true;
    }
    if changed {
      r := Refresh(r);
    }
  }

  method SeeReannounce(x: Entry, ms: nat, line: Option<string>) returns (r: Entry, changed: bool)
    requires Sound(x)
    ensures r == Observe(Reannounced(ms, line), x) && (changed <==> r != x)
  {
    r, changed := x, false;
    if ms >= x.detectedMs && x.reannounceMs.None? {
      r := Refresh(x.(reannounceMs := Some(ms), reannounceLine := line));
      changed := true;
    }
  }

  method SeeFlexStatus(x: Entry, ms: nat, state: string, line: Option<string>) returns (r: Entry, changed: bool)
    requires Sound(x)
    ensures r == Observe(FlexStatus(ms, Some(state), line), x) && (changed <==> r != x)
  {
    hide Mismatch;
    r, changed := x, false;
    if ms < x.detectedMs {
      return;
    }
    if r.flexMs.None? {
      r := r.(flexMs := Some(ms), flexState := Some(state), flexLine := line);
      if state != r.newState {
        r := r.(reflection := Some(Mismatch(state, r.newState)));
      }
      changed := true;
    }
    if r.flexMatchMs.None? && state == r.newState {
      r, changed := r.(flexMatchMs := Some(ms), reflection := Some("matched")), true;
    }
    if changed {
      r := Refresh(r);
    }
  }

  /** A loop over the window has observed the first `n` entries. */
  ghost predicate PartlyObserved(now: seq<Entry>, before: seq<Entry>, e: Event, n: nat, updated: seq<Entry>) {
    && n <= |before|
    && now == ObserveAll(e, before[..n]) + before[n..]
    && updated == Touched(e, before[..n])
  }

  lemma StartsObserved(before: seq<Entry>, e: Event)
    ensures PartlyObserved(before, before, e, 0, [])
  {
  }

  lemma OneMoreObserved(now: seq<Entry>, before: seq<Entry>, e: Event, i: nat, updated: seq<Entry>)
    requires PartlyObserved(now, before, e, i, updated) && i < |before|
    ensures |now| == |before| && now[i] == before[i]
    ensures var x := Observe(e, now[i]);
            PartlyObserved(now[i := x], before, e, i + 1, if x != now[i] then updated + [x] else updated)
  {
    hide Observe;
    assert before[..i + 1][..i] == before[..i];
    assert Touched(e, before[..i + 1])
        == Touched(e, before[..i]) + (if Observe(e, before[i]) != before[i] then [Observe(e, before[i])] else []);
    var x := Observe(e, before[i]);
    assert ObserveAll(e, before[..i + 1]) == ObserveAll(e, before[..i]) + [x];
    assert now[i := x] == ObserveAll(e, before[..i]) + [x] + before[i + 1..];
  }

  lemma EndsObserved(now: seq<Entry>, before: seq<Entry>, e: Event, updated: seq<Entry>)
    requires PartlyObserved(now, before, e, |before|, updated)
    ensures now == ObserveAll(e, before) && updated == Touched(e, before)
  {
    assert before[..|before|] == before;
  }

  lemma {:induction false} NothingObserved(ms: nat, line: Option<string>, xs: seq<Entry>)
    ensures ObserveAll(FlexStatus(ms, None, line), xs) == xs
    ensures Touched(FlexStatus(ms, None, line), xs) == []
  {
    if xs != [] {
      NothingObserved(ms, line, xs[..|xs| - 1]);
    }
  }

  lemma NewEntry(id: nat, e: Event)
    requires e.Changed?
    ensures EntryOf(id, e, []) == Entry(id, e.oldState, e.newState, e.ms, e.ms, None, None, None, None, None,
                                        None, None, None, None, None, None, None)
  {
  }

  lemma {:induction false} EntriesAreSound(events: seq<Event>, count: nat)
    ensures forall x <- Entries(events, count) :: Sound(x)
  {
    if events != [] {
      EntriesAreSound(events[1..], if events[0].Changed? then SaturatingAdd(count, 1) else count);
    }
  }

  // ---------------------------------------------------------------- what the entries promise

  /** The first qualifying event qualifies, and no earlier one does. */
  lemma {:induction false} FirstIsEarliest(q: Question, since: nat, events: seq<Event>) returns (k: nat)
    ensures k <= |events| && (k < |events| <==> First(q, since, events).Some?)
    ensures k < |events| ==> First(q, since, events) == Some(events[k]) && Hits(q, since, events[k])
    ensures forall i :: 0 <= i < k ==> !Hits(q, since, events[i])
  {
    k := 0;
    if events != [] && !Hits(q, since, events[0]) {
      k := FirstIsEarliest(q, since, events[1..]);
      k := k + 1;
    }
  }

  /** How many changes some events hold. */
  function Changes(events: seq<Event>): nat {
    if events == [] then 0 else (if events[0].Changed? then 1 else 0) + Changes(events[1..])
  }

  lemma {:induction false} EntryHasChange(events: seq<Event>, count: nat, i: nat) returns (k: nat)
    requires i < |Entries(events, count)|
    ensures k < |events| && events[k].Changed?
    ensures Entries(events, count)[i] == EntryOf(Entries(events, count)[i].id, events[k], events[k + 1..])
    ensures Changes(events[..k + 1]) == i + 1
  {
    hide First;
    if events[0].Changed? && i == 0 {
      k := 0;
      assert events[..1][1..] == [];
    } else {
      var next := if events[0].Changed? then SaturatingAdd(count, 1) else count;
      k := EntryHasChange(events[1..], next, if events[0].Changed? then i - 1 else i);
      assert events[1..][k + 1..] == events[k + 2..];
      assert events[..k + 2][1..] == events[1..][..k + 1];
      k := k + 1;
    }
  }

  /** The ids count the changes, and stop at the largest 64-bit value. */
  lemma {:induction false} IdsCount(events: seq<Event>, count: nat)
    requires count <= U64_MAX
    ensures CountAfter(events, count) == SaturatingAdd(count, |Entries(events, count)|)
    ensures forall i :: 0 <= i < |Entries(events, count)| ==>
      Entries(events, count)[i].id == SaturatingAdd(count, i + 1)
  {
    if events != [] {
      var next := if events[0].Changed? then SaturatingAdd(count, 1) else count;
      IdsCount(events[1..], next);
    }
  }

  /** Below the largest 64-bit count, the window is the last min(count, 64) changes, and their
      ids are consecutive and end at the count. */
  lemma WindowIsConsecutive(history: seq<Event>)
    requires CountAfter(history, 0) < U64_MAX
    ensures var window, count := Suffix(Entries(history, 0)), CountAfter(history, 0);
            && |window| == (if count > 64 then 64 else count)
            && forall i :: 0 <= i < |window| ==> window[i].id == count - |window| + 1 + i
  {
    IdsCount(history, 0);
  }

  /** What an entry holds of its first PGXL status, reannouncement or Flex status. */
  predicate ShowsPgxl(x: Entry, first: Option<Event>) {
    match first
    case Some(PgxlStatus(ms, state)) => x.pgxlMs == Some(ms) && x.pgxlState == Some(state)
    case Some(_) => false
    case None => x.pgxlMs.None? && x.pgxlState.None?
  }

  predicate ShowsReannounce(x: Entry, first: Option<Event>) {
    match first
    case Some(Reannounced(ms, line)) => x.reannounceMs == Some(ms) && x.reannounceLine == line
    case Some(_) => false
    case None => x.reannounceMs.None? && x.reannounceLine.None?
  }

  predicate ShowsFlex(x: Entry, first: Option<Event>) {
    match first
    case Some(FlexStatus(ms, seen, line)) => x.flexMs == Some(ms) && x.flexState == seen && x.flexLine == line
    case Some(_) => false
    case None => x.flexMs.None? && x.flexState.None? && x.flexLine.None?
  }

  /** Without a match, the first Flex status shows another state. */
  lemma {:induction false} NoMatchBefore(state: string, since: nat, events: seq<Event>)
    ensures First(AnyFlex, since, events).Some? && First(FlexIs(state), since, events).None? ==>
      First(AnyFlex, since, events).value.FlexStatus? && First(AnyFlex, since, events).value.seen.Some?
      && First(AnyFlex, since, events).value.seen != Some(state)
  {
    if events != [] {
      NoMatchBefore(state, since, events[1..]);
    }
  }

  /** What every entry in the window says of the history since its change was recorded. The
      change is the one that the id counts. */
  lemma EntryMeaning(history: seq<Event>, i: nat) returns (k: nat)
    requires i < |Suffix(Entries(history, 0))|
    ensures var x := Suffix(Entries(history, 0))[i];
            && k < |history| && history[k] == Changed(x.detectedMs, x.oldState, x.newState)
            && x.id == SaturatingAdd(0, Changes(history[..k + 1])) && x.updatedMs == x.detectedMs
            && var since := history[k + 1..];
            && ShowsPgxl(x, First(AnyPgxl, x.detectedMs, since))
            && x.pgxlMatchMs == TimeOf(First(PgxlIs(x.newState), x.detectedMs, since))
            && ShowsReannounce(x, First(AnyReannounce, x.detectedMs, since))
            && ShowsFlex(x, First(AnyFlex, x.detectedMs, since))
            && x.flexMatchMs == TimeOf(First(FlexIs(x.newState), x.detectedMs, since))
            && (x.pgxlPassed.Some? <==> x.pgxlMatchMs.Some?)
            && (x.flexPassed.Some? <==> x.flexMatchMs.Some?)
            && (x.pgxlMatchMs.Some? ==> 0 <= x.pgxlMatchMs.value - x.detectedMs)
            && (x.flexMatchMs.Some? ==> 0 <= x.flexMatchMs.value - x.detectedMs)
            && (x.pgxlPassed.Some? ==> (x.pgxlPassed.value <==> x.pgxlMatchMs.value - x.detectedMs <= 2000))
            && (x.flexPassed.Some? ==> (x.flexPassed.value <==> x.flexMatchMs.value - x.detectedMs <= 2000))
            && (x.reflection == Some("matched") <==> x.flexMatchMs.Some?)
            && (x.reflection.None? <==> x.flexMs.None?)
            && (x.flexMs.Some? && x.flexMatchMs.None? ==>
                  x.flexState.Some? && x.flexState.value != x.newState
                  && x.reflection
                     == Some("flex_echoed_" + x.flexState.value + "_while_egb_expected_" + x.newState))
  {
    var all := Entries(history, 0);
    var j := if |all| > WINDOW then |all| - WINDOW + i else i;
    var x := all[j];
    k := EntryHasChange(history, 0, j);
    IdsCount(history, 0);
    var since := history[k + 1..];
    FirstHits(AnyPgxl, x.detectedMs, since);
    FirstHits(AnyReannounce, x.detectedMs, since);
    FirstHits(AnyFlex, x.detectedMs, since);
    NoMatchBefore(x.newState, x.detectedMs, since);
    FirstHits(PgxlIs(x.newState), x.detectedMs, since);
    FirstHits(FlexIs(x.newState), x.detectedMs, since);
    MatchImpliesFirst(x.newState, x.detectedMs, since);
    forall seen: string
      ensures Mismatch(seen, x.newState) != "matched"
    {
      assert Mismatch(seen, x.newState)[0] == 'f';
    }
  }
}
