/**
 What the holder sets promise: the sweep is exact and canonical, nothing the switch log
 proves live is dropped without an observation against it, and every observation and every
 fence is honoured.
 */
module CodexHolderProofs {
  import opened Prelude
  import opened CodexHolders
  import opened CodexHolderSets

  // ----- sorted sets of identities and times ------------------------------------------------

  ghost predicate SortedIds(ids: seq<string>) {
    forall i, j :: 0 <= i < j < |ids| ==> StrLt(ids[i], ids[j])
  }

  lemma {:induction false} AddIdSorted(id: string, ids: seq<string>)
    requires SortedIds(ids)
    ensures SortedIds(AddId(id, ids))
    ensures forall x :: x in AddId(id, ids) <==> x == id || x in ids
  {
    if ids != [] {
      assert ids == [ids[0]] + ids[1..];
      if id == ids[0] {
      } else if StrLe(id, ids[0]) {
        forall j | 0 < j < |ids| ensures StrLt(id, ids[j]) { StrLtTransitive(id, ids[0], ids[j]); }
      } else {
        AddIdSorted(id, ids[1..]);
        StrLeTotal(id, ids[0]);
        assert forall x :: x in ids[1..] ==> StrLt(ids[0], x);
        assert forall x :: x in AddId(id, ids[1..]) ==> StrLt(ids[0], x);
      }
    }
  }

  lemma {:induction false} IdsFromMeaning(eras: seq<Era>, probe: Option<int>)
    ensures SortedIds(IdsFrom(eras, probe))
    ensures forall i :: i in IdsFrom(eras, probe) <==> exists e :: e in eras && e.identity == i && InFrom(e, probe)
  {
    if eras != [] {
      IdsFromMeaning(eras[1..], probe);
      assert eras == [eras[0]] + eras[1..];
      if InFrom(eras[0], probe) { AddIdSorted(eras[0].identity, IdsFrom(eras[1..], probe)); }
    }
  }

  ghost predicate SortedTimes(ts: seq<int>) {
    forall i, j :: 0 <= i < j < |ts| ==> ts[i] < ts[j]
  }

  lemma {:induction false} AddTimeSorted(t: int, ts: seq<int>)
    requires SortedTimes(ts)
    ensures SortedTimes(AddTime(t, ts))
    ensures forall x :: x in AddTime(t, ts) <==> x == t || x in ts
  {
    if ts != [] && t > ts[0] {
      AddTimeSorted(t, ts[1..]);
      assert ts == [ts[0]] + ts[1..];
    }
  }

  ghost predicate Bounded(e: Era, bs: seq<int>) {
    (e.startsAt.Some? ==> e.startsAt.value in bs) && (e.endsAt.Some? ==> e.endsAt.value in bs)
  }

  lemma {:induction false} BoundariesMeaning(eras: seq<Era>)
    ensures SortedTimes(Boundaries(eras))
    ensures forall e :: e in eras ==> Bounded(e, Boundaries(eras))
  {
    if eras != [] {
      var e, rest := eras[0], Boundaries(eras[1..]);
      BoundariesMeaning(eras[1..]);
      if e.endsAt.Some? { AddTimeSorted(e.endsAt.value, rest); }
      if e.startsAt.Some? { AddTimeSorted(e.startsAt.value, AddBound(e.endsAt, rest)); }
      forall x | x in eras ensures Bounded(x, Boundaries(eras)) {
        assert x != e ==> x in eras[1..];
      }
    }
  }

  // ----- stretches between boundaries -------------------------------------------------------

  predicate Within(startsAt: Option<int>, endsAt: Option<int>, t: int) {
    (startsAt.None? || startsAt.value <= t) && (endsAt.None? || t < endsAt.value)
  }

  predicate InStretch(bs: seq<int>, k: nat, t: int)
    requires k <= |bs|
  { Within(StretchStart(bs, k), StretchEnd(bs, k), t) }

  lemma {:induction false} Locate(bs: seq<int>, t: int) returns (k: nat)
    requires SortedTimes(bs)
    ensures k <= |bs| && InStretch(bs, k, t)
  {
    k := 0;
    while k < |bs| && bs[k] <= t
      invariant k <= |bs| && (k > 0 ==> bs[k - 1] <= t)
    {
      k := k + 1;
    }
  }

  /** No era begins or ends inside a stretch. */
  lemma Steady(e: Era, bs: seq<int>, k: nat, t: int)
    requires SortedTimes(bs) && Bounded(e, bs) && k <= |bs| && InStretch(bs, k, t)
    ensures In(e, t) <==> InFrom(e, StretchStart(bs, k))
  {
    if e.startsAt.Some? {
      var j :| 0 <= j < |bs| && bs[j] == e.startsAt.value;
      assert k > 0 ==> (bs[k - 1] >= bs[j] <==> t >= bs[j]);
    }
    if e.endsAt.Some? {
      var j :| 0 <= j < |bs| && bs[j] == e.endsAt.value;
      assert k > 0 ==> (bs[k - 1] >= bs[j] <==> t >= bs[j]);
    }
  }

  // ----- the sweep is exact ----------------------------------------------------------------

  ghost predicate SetCovers(sets: seq<HolderSet>, i: string, t: int) {
    exists s :: s in sets && i in s.identities && Within(s.startsAt, s.endsAt, t)
  }

  /** Every set ends by `past`; there is none yet at the beginning of time. */
  ghost predicate EndBy(sets: seq<HolderSet>, past: Option<int>) {
    if past.None? then sets == []
    else forall k :: 0 <= k < |sets| ==> sets[k].endsAt.Some? && sets[k].endsAt.value <= past.value
  }

  ghost predicate Shaped(s: HolderSet, observed: bool) {
    && s.identities != [] && SortedIds(s.identities)
    && (s.startsAt.Some? && s.endsAt.Some? ==> s.startsAt.value < s.endsAt.value)
    && (s.prehistory <==> s.startsAt.None? && observed)
  }

  /** What may follow a set in canonical order. */
  ghost predicate Follows(a: HolderSet, b: HolderSet) {
    && a.endsAt.Some? && b.startsAt.Some? && a.endsAt.value <= b.startsAt.value
  }

  ghost predicate Mergeable(a: HolderSet, b: HolderSet) {
    a.endsAt == b.startsAt && a.identities == b.identities && a.prehistory == b.prehistory
  }

  /** Sets in time order, disjoint, none mergeable with the next. */
  ghost predicate Canonical(sets: seq<HolderSet>, observed: bool) {
    && (forall k :: 0 <= k < |sets| ==> Shaped(sets[k], observed))
    && (forall i, j :: 0 <= i < j < |sets| ==> Follows(sets[i], sets[j]))
    && (forall i, j :: 0 <= i < |sets| && j == i + 1 && j < |sets| ==> !Mergeable(sets[i], sets[j]))
  }

  lemma ExtendCovers(sets: seq<HolderSet>, ids: seq<string>, startsAt: Option<int>, endsAt: Option<int>, observed: bool, i: string, t: int)
    requires Canonical(sets, observed) && EndBy(sets, startsAt) && (startsAt.Some? && endsAt.Some? ==> startsAt.value < endsAt.value)
    requires endsAt.Some? ==> t < endsAt.value
    ensures SetCovers(Extend(sets, ids, startsAt, endsAt, startsAt.None? && observed), i, t)
            <==> if Within(startsAt, endsAt, t) then i in ids else SetCovers(sets, i, t)
  {
    var prehistory := startsAt.None? && observed;
    var after := Extend(sets, ids, startsAt, endsAt, prehistory);
    if after != sets && |after| == |sets| {
      var last := sets[|sets| - 1];
      assert sets == sets[..|sets| - 1] + [last];
      assert after == sets[..|sets| - 1] + [last.(endsAt := endsAt)];
      assert last in sets && Shaped(last, observed);
      assert forall s :: s in after <==> s in sets[..|sets| - 1] || s == last.(endsAt := endsAt);
      assert forall s :: s in sets <==> s in sets[..|sets| - 1] || s == last;
      if SetCovers(sets, i, t) {
        var s :| s in sets && i in s.identities && Within(s.startsAt, s.endsAt, t);
        assert s == last ==> last.(endsAt := endsAt) in after;
      }
      if i in ids && Within(startsAt, endsAt, t) { assert last.(endsAt := endsAt) in after; }
    } else if |after| > |sets| {
      assert HolderSet(ids, startsAt, endsAt, prehistory) in after;
      assert forall s :: s in sets ==> s in after;
    }
  }

  lemma MergeCanonical(sets: seq<HolderSet>, endsAt: Option<int>, observed: bool)
    requires Canonical(sets, observed) && sets != []
    requires var last := sets[|sets| - 1]; last.endsAt.Some? && (endsAt.Some? ==> last.endsAt.value < endsAt.value)
    ensures Canonical(sets[|sets| - 1 := sets[|sets| - 1].(endsAt := endsAt)], observed)
  {
    hide SortedIds;
    var last := sets[|sets| - 1];
    var after := sets[|sets| - 1 := last.(endsAt := endsAt)];
    assert Shaped(last, observed);
    forall k | 0 <= k < |after| ensures Shaped(after[k], observed) {
      assert Shaped(sets[k], observed);
    }
    forall i, j | 0 <= i < j < |after| ensures Follows(after[i], after[j]) {
      assert Follows(sets[i], sets[j]);
    }
    forall i, j | 0 <= i < |after| && j == i + 1 && j < |after| ensures !Mergeable(after[i], after[j]) {
      assert !Mergeable(sets[i], sets[j]);
    }
  }

  lemma AppendCanonical(sets: seq<HolderSet>, s: HolderSet, observed: bool)
    requires Canonical(sets, observed) && EndBy(sets, s.startsAt) && Shaped(s, observed)
    requires sets != [] ==> !Mergeable(sets[|sets| - 1], s)
    ensures Canonical(sets + [s], observed)
  {
    hide Shaped;
  }

  lemma ExtendCanonical(sets: seq<HolderSet>, ids: seq<string>, startsAt: Option<int>, endsAt: Option<int>, observed: bool)
    requires Canonical(sets, observed) && EndBy(sets, startsAt) && SortedIds(ids)
    requires startsAt.Some? && endsAt.Some? ==> startsAt.value < endsAt.value
    ensures Canonical(Extend(sets, ids, startsAt, endsAt, startsAt.None? && observed), observed)
  {
    hide SortedIds, Canonical;
    var after := Extend(sets, ids, startsAt, endsAt, startsAt.None? && observed);
    if |after| > |sets| {
      AppendCanonical(sets, after[|sets|], observed);
    } else if ids != [] {
      MergeCanonical(sets, endsAt, observed);
    }
  }

  lemma ExtendEndsBy(sets: seq<HolderSet>, ids: seq<string>, startsAt: Option<int>, endsAt: Option<int>, prehistory: bool)
    requires EndBy(sets, startsAt) && endsAt.Some? && (startsAt.Some? ==> startsAt.value < endsAt.value)
    ensures EndBy(Extend(sets, ids, startsAt, endsAt, prehistory), endsAt)
  {
  }

  lemma {:induction false} SweepSound(eras: seq<Era>, observed: bool, n: nat)
    requires n <= |Boundaries(eras)| + 1
    ensures var bs := Boundaries(eras);
            var sets := Sweep(eras, bs, observed, n);
            && Canonical(sets, observed)
            && (n <= |bs| ==> EndBy(sets, StretchStart(bs, n)))
  {
    if n > 0 {
      var bs := Boundaries(eras);
      BoundariesMeaning(eras);
      SweepSound(eras, observed, n - 1);
      var startsAt := StretchStart(bs, n - 1);
      IdsFromMeaning(eras, startsAt);
      var before, ids := Sweep(eras, bs, observed, n - 1), IdsFrom(eras, startsAt);
      ExtendCanonical(before, ids, startsAt, StretchEnd(bs, n - 1), observed);
      if n <= |bs| { ExtendEndsBy(before, ids, startsAt, StretchEnd(bs, n - 1), startsAt.None? && observed); }
    }
  }

  lemma {:induction false} SweepCovers(eras: seq<Era>, observed: bool, n: nat, k: nat, i: string, t: int)
    requires k < n <= |Boundaries(eras)| + 1 && InStretch(Boundaries(eras), k, t)
    ensures SetCovers(Sweep(eras, Boundaries(eras), observed, n), i, t) <==> i in IdsFrom(eras, StretchStart(Boundaries(eras), k))
  {
    var bs := Boundaries(eras);
    BoundariesMeaning(eras);
    SweepSound(eras, observed, n - 1);
    var before, startsAt := Sweep(eras, bs, observed, n - 1), StretchStart(bs, n - 1);
    hide Canonical, SortedIds, SortedTimes, Bounded, IdsFrom;
    ExtendCovers(before, IdsFrom(eras, startsAt), startsAt, StretchEnd(bs, n - 1), observed, i, t);
    if k < n - 1 { SweepCovers(eras, observed, n - 1, k, i, t); }
  }

  /** The sets say of every instant exactly what the eras say, and say it canonically. */
  lemma SweepIsExact(eras: seq<Era>, observed: bool, i: string, t: int)
    ensures Canonical(SetsOf(eras, observed), observed)
    ensures SetCovers(SetsOf(eras, observed), i, t) <==> Covers(eras, i, t)
  {
    var bs := Boundaries(eras);
    BoundariesMeaning(eras);
    SweepSound(eras, observed, |bs| + 1);
    var k := Locate(bs, t);
    SweepCovers(eras, observed, |bs| + 1, k, i, t);
    IdsFromMeaning(eras, StretchStart(bs, k));
    forall e | e in eras ensures In(e, t) <==> InFrom(e, StretchStart(bs, k)) { Steady(e, bs, k, t); }
  }
}
