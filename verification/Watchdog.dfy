/** The watchdog over the advertised state: a mismatch is published once it has lasted. Times
    are in milliseconds since the watchdog started. */
module Watchdog {
  import opened Text

  const HOLD_MS: nat := 2000

  /** One look at the shared state, and the mismatch it showed. */
  datatype Tick = Tick(at: nat, mismatch: Option<string>)

  /** The loop sleeps at least a second before every look. */
  predicate Paced(ticks: seq<Tick>) {
    ticks == [] ||
    var n := |ticks| - 1;
    Paced(ticks[..n]) && ticks[n].at >= 1000 + (if n == 0 then 0 else ticks[n - 1].at)
  }

  /** The same mismatch was seen at every look from one to another. */
  predicate Window(ticks: seq<Tick>, reason: string, i: int, k: int) {
    0 <= i <= k < |ticks| && forall m :: i <= m <= k ==> ticks[m].mismatch == Some(reason)
  }

  /** A publication at tick `end` of a mismatch seen since tick `begin`. */
  datatype Publication = Publication(reason: string, begin: nat, end: nat)

  predicate Justified(ticks: seq<Tick>, p: Publication) {
    && Window(ticks, p.reason, p.begin, p.end)
    && ticks[p.end].at - ticks[p.begin].at >= 2000
  }

  /** Every publication is justified, and its window begins after the one before it ended. */
  predicate Sequenced(ticks: seq<Tick>, ps: seq<Publication>) {
    ps == [] ||
    var n := |ps| - 1;
    && Sequenced(ticks, ps[..n])
    && Justified(ticks, ps[n])
    && (n > 0 ==> ps[n - 1].end < ps[n].begin)
  }

  /** Has every look since the last publication shown some mismatch? */
  predicate UnclearedSince(ticks: seq<Tick>, ps: seq<Publication>) {
    ps != [] && forall m :: ps[|ps| - 1].end < m < |ticks| ==> ticks[m].mismatch.Some?
  }

  datatype Pending = Pending(reason: string, since: nat)

  class StateWatchdog {
    var pending: Option<Pending>
    // Shared fields, written by the watchdog alone.
    var published: Option<string>
    var count: nat
    // History: all looks, where the pending mismatch was first seen, all publications.
    ghost var ticks: seq<Tick>
    ghost var begin: nat
    ghost var publications: seq<Publication>

    constructor ()
      ensures Valid() && ticks == [] && publications == []
    {
      pending, published, count := None, None, 0;
      ticks, begin, publications := [], 0, [];
    }

    ghost predicate Valid()
      reads this
    {
      && Paced(ticks)
      && Sequenced(ticks, publications)
      && count == (if |publications| > U64_MAX then U64_MAX else |publications|)
      && PendingIsRun()
      && PublishedIsLatest()
    }

    /** The pending mismatch is the longest run of one mismatch that ends at the last look. */
    ghost predicate PendingIsRun()
      reads this
    {
      match pending
      case None => ticks == [] || ticks[|ticks| - 1].mismatch.None?
      case Some(Pending(reason, since)) =>
        && Window(ticks, reason, begin, |ticks| - 1) && since == ticks[begin].at
        && (begin > 0 ==> ticks[begin - 1].mismatch != Some(reason))
    }

    /** What is published is the latest publication, unless a look without a mismatch came
        after it; and a mismatch that has lasted long enough is published. */
    ghost predicate PublishedIsLatest()
      reads this
    {
      && (published.Some? <==> UnclearedSince(ticks, publications))
      && (published.Some? ==> published == Some(publications[|publications| - 1].reason))
      && (pending.Some? && ticks != [] && ticks[|ticks| - 1].at - pending.value.since >= 2000
          ==> published == Some(pending.value.reason))
    }

    /** One turn of the loop. */
    method Look(now: nat, mismatch: Option<string>)
      requires Valid() && Paced(ticks + [Tick(now, mismatch)])
      modifies this
      ensures Valid() && ticks == old(ticks) + [Tick(now, mismatch)]
      ensures old(publications) <= publications
      ensures mismatch.None? ==> published.None?
      ensures count > old(count) ==> published == mismatch && mismatch.Some?
    {
      hide Paced, Sequenced, UnclearedSince, Window;
      ghost var tick := Tick(now, mismatch);
      WindowGrows(ticks, tick, |ticks| - 1);
      SequencedGrows(ticks, tick, publications);
      SequencedEnds(ticks, publications);
      UnclearedGrows(ticks, tick, publications);
      ticks := ticks + [tick];
      if mismatch.None? {
        pending := None;
        published := None;
      } else if pending.Some? && pending.value.reason == mismatch.value {
        if now - pending.value.since >= HOLD_MS && published != Some(mismatch.value) {
          Publish();
        }
      } else {
        pending := Some(Pending(mismatch.value, now));
        begin := |ticks| - 1;
      }
    }

    /** Publishes the pending mismatch, which has lasted and is not published yet. */
    method Publish()
      requires ticks != [] && Paced(ticks) && Sequenced(ticks, publications)
      requires PendingIsRun() && pending.Some?
      requires count == (if |publications| > U64_MAX then U64_MAX else |publications|)
      requires published.Some? <==> UnclearedSince(ticks, publications)
      requires published.Some? ==> published == Some(publications[|publications| - 1].reason)
      requires ticks[|ticks| - 1].at - pending.value.since >= 2000 && published != Some(pending.value.reason)
      modifies this`published, this`count, this`publications
      ensures Valid() && old(publications) <= publications
      ensures published == Some(pending.value.reason)
    {
      hide Paced, Sequenced, UnclearedSince, Window;
      ghost var p := Publication(pending.value.reason, begin, |ticks| - 1);
      PublishGrows(ticks, publications, p);
      publications := publications + [p];
      UnclearedNow(ticks, publications);
      published := Some(pending.value.reason);
      count := SaturatingAdd(count, 1);
    }

    /** The loop, for any looks the clock allows. */
    method Watch(looks: seq<Tick>)
      requires Valid() && ticks == [] && Paced(looks)
      modifies this
      ensures Valid() && ticks == looks
      ensures looks != [] && looks[|looks| - 1].mismatch.None? ==> published.None?
    {
      hide Valid;
      for i := 0 to |looks|
        invariant Valid() && ticks == looks[..i]
        invariant i > 0 && looks[i - 1].mismatch.None? ==> published.None?
      {
        assert looks[..i + 1] == looks[..i] + [looks[i]];
        PacedPrefix(looks, i + 1);
        Look(looks[i].at, looks[i].mismatch);
      }
      assert looks[..|looks|] == looks;
    }
  }

  lemma {:induction false} PacedPrefix(ticks: seq<Tick>, k: nat)
    requires Paced(ticks) && k <= |ticks|
    ensures Paced(ticks[..k])
  {
    if k < |ticks| {
      PacedPrefix(ticks[..|ticks| - 1], k);
      assert ticks[..|ticks| - 1][..k] == ticks[..k];
    } else {
      assert ticks[..k] == ticks;
    }
  }

  lemma {:induction false} SequencedGrows(ticks: seq<Tick>, tick: Tick, ps: seq<Publication>)
    requires Sequenced(ticks, ps)
    ensures Sequenced(ticks + [tick], ps)
  {
    if ps != [] {
      SequencedGrows(ticks, tick, ps[..|ps| - 1]);
    }
  }

  lemma SequencedEnds(ticks: seq<Tick>, ps: seq<Publication>)
    requires Sequenced(ticks, ps)
    ensures ps != [] ==> ps[|ps| - 1].end < |ticks| && Justified(ticks, ps[|ps| - 1])
  {
  }

  /** A window that reaches the last look goes on as long as the mismatch does. */
  lemma WindowGrows(ticks: seq<Tick>, tick: Tick, last: int)
    requires last == |ticks| - 1
    ensures tick.mismatch.Some? ==> Window(ticks + [tick], tick.mismatch.value, |ticks|, |ticks|)
    ensures forall reason, i :: Window(ticks, reason, i, last) && tick.mismatch == Some(reason)
                                ==> Window(ticks + [tick], reason, i, |ticks|)
    ensures forall reason, i :: Window(ticks, reason, i, last)
                                ==> 0 <= i < |ticks| && ticks[last].mismatch == Some(reason)
  {
  }

  lemma UnclearedGrows(ticks: seq<Tick>, tick: Tick, ps: seq<Publication>)
    requires ps != [] ==> ps[|ps| - 1].end < |ticks|
    ensures UnclearedSince(ticks + [tick], ps) <==> UnclearedSince(ticks, ps) && tick.mismatch.Some?
  {
    if UnclearedSince(ticks + [tick], ps) {
      assert (ticks + [tick])[|ticks|].mismatch.Some?;
      assert forall m :: 0 <= m < |ticks| ==> (ticks + [tick])[m] == ticks[m];
    }
  }

  lemma UnclearedNow(ticks: seq<Tick>, ps: seq<Publication>)
    requires ps != [] && ps[|ps| - 1].end == |ticks| - 1
    ensures UnclearedSince(ticks, ps)
  {
  }

  /** A window that is not published yet begins after the last publication. */
  lemma PublishGrows(ticks: seq<Tick>, ps: seq<Publication>, p: Publication)
    requires Sequenced(ticks, ps) && Justified(ticks, p)
    requires p.end == |ticks| - 1
    requires UnclearedSince(ticks, ps) ==> ps[|ps| - 1].reason != p.reason
    ensures Sequenced(ticks, ps + [p])
  {
    assert (ps + [p])[..|ps|] == ps;
    if ps != [] && ps[|ps| - 1].end >= p.begin {
      OverlapIsStanding(ticks, ps, p);
    }
  }

  /** A publication inside a window that still lasts is of the same mismatch, and stands. */
  lemma OverlapIsStanding(ticks: seq<Tick>, ps: seq<Publication>, p: Publication)
    requires ps != [] && Justified(ticks, ps[|ps| - 1]) && Justified(ticks, p)
    requires p.end == |ticks| - 1 && p.begin <= ps[|ps| - 1].end
    ensures UnclearedSince(ticks, ps) && ps[|ps| - 1].reason == p.reason
  {
    var end := ps[|ps| - 1].end;
    assert ticks[end].mismatch == Some(p.reason);
  }

  // ---------------------------------------------------------------- how often it can publish

  lemma {:induction false} TicksAreApart(ticks: seq<Tick>, i: nat, j: nat)
    requires Paced(ticks) && i <= j < |ticks|
    ensures ticks[j].at >= ticks[i].at + (j - i) * 1000 && ticks[j].at >= (j + 1) * 1000
  {
    var n := |ticks| - 1;
    if j < n {
      TicksAreApart(ticks[..n], i, j);
    } else if n > 0 {
      TicksAreApart(ticks[..n], if i < n then i else n - 1, n - 1);
    }
  }

  /** Consecutive publications are at least three seconds apart, so the count times three
      seconds never exceeds the time the watchdog has run. */
  lemma {:induction false} PublicationsAreRare(ticks: seq<Tick>, ps: seq<Publication>)
    requires Paced(ticks) && Sequenced(ticks, ps)
    ensures ps != [] ==> ps[|ps| - 1].end < |ticks| && 3000 * |ps| <= ticks[ps[|ps| - 1].end].at
    ensures |ps| > 1 ==> ps[|ps| - 2].end < ps[|ps| - 1].end
                         && ticks[ps[|ps| - 1].end].at - ticks[ps[|ps| - 2].end].at >= 3000
  {
    if ps != [] {
      var n := |ps| - 1;
      PublicationsAreRare(ticks, ps[..n]);
      var begin, end := ps[n].begin, ps[n].end;
      TicksAreApart(ticks, begin, end);
      if n > 0 {
        TicksAreApart(ticks, ps[n - 1].end, begin);
      } else {
        TicksAreApart(ticks, 0, begin);
      }
    }
  }

  /** The bound is met: three looks a second apart publish at three seconds. */
  lemma ThreeSecondsIsSharp(reason: string)
    ensures var ticks := [Tick(1000, Some(reason)), Tick(2000, Some(reason)), Tick(3000, Some(reason))];
            Paced(ticks) && Justified(ticks, Publication(reason, 0, 2))
  {
    var ticks := [Tick(1000, Some(reason)), Tick(2000, Some(reason)), Tick(3000, Some(reason))];
    assert ticks[..2] == [Tick(1000, Some(reason)), Tick(2000, Some(reason))];
    assert ticks[..2][..1] == [Tick(1000, Some(reason))] && ticks[..2][..1][..0] == [];
    assert Paced(ticks[..2][..1]);
    assert Paced(ticks[..2]);
  }
}
