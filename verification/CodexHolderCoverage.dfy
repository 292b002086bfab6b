/**
 When an identity counts as held, said of the log rows and the observations alone: a small
 machine for one identity over the rows, the reach of its publications, and what each
 observation adds or cuts. It is the sets' meaning, with no eras, no sorting and no sweep.
 */
module CodexHolderCoverage {
  import opened Prelude
  import opened CodexHolders
  import opened CodexHolderSets
  import opened CodexHolderProofs
  import opened CodexHolderSafety

  // ----- one identity over the rows ------------------------------------------------------------

  datatype Since = NotLive | Live(start: Option<int>)

  /** The row publishes a switch away from the identity. */
  predicate Leaves(e: Event, i: string) { e.outcome == Ok && e.from == Some(i) }

  /** One row of the machine. */
  function NextSince(fenced: set<string>, e: Event, i: string, before: Since): Since {
    if Leaves(e, i) && i !in fenced then if i != "" && e.to == i then Live(Some(e.time)) else NotLive
    else if before == NotLive && i != "" && Names(e, i) then Live(Some(e.time))
    else before
  }

  /** Since when the identity has been possibly live after `n` rows. */
  function SinceAfter(log: seq<Event>, n: nat, i: string): Since
    requires n <= |log|
  {
    if n == 0 then if log != [] && log[0].from == Some(i) then Live(None) else NotLive
    else NextSince(Fenced(log), log[n - 1], i, SinceAfter(log, n - 1, i))
  }

  /** Row `m` ends a stretch of the identity, be it one that begins right there. */
  predicate Ends(log: seq<Event>, m: nat, i: string)
    requires m < |log|
  {
    Leaves(log[m], i) && i !in Fenced(log) && (i != "" || SinceAfter(log, m, i).Live?)
  }

  function EndedStart(log: seq<Event>, m: nat, i: string): Option<int>
    requires m < |log|
  {
    if SinceAfter(log, m, i).Live? then SinceAfter(log, m, i).start else Some(log[m].time)
  }

  ghost predicate LiveIs(live: seq<Era>, i: string, since: Since) {
    forall e: Era :: e.identity == i ==> (e in live <==> since.Live? && e == Era(i, since.start, None))
  }

  lemma StartMembers(s: Scanner, id: string, time: int)
    ensures forall e :: e in Start(s, id, time).live <==>
              e in s.live || (id != "" && !IsLive(s.live, id) && e == Era(id, Some(time), None))
  {
  }

  lemma StartSince(s: Scanner, id: string, time: int, i: string, since: Since)
    requires LiveIs(s.live, i, since)
    ensures LiveIs(Start(s, id, time).live, i, if since == NotLive && i != "" && i == id then Live(Some(time)) else since)
    ensures IsLive(s.live, i) <==> since.Live?
  {
    StartMembers(s, id, time);
    if since.Live? { assert Era(i, since.start, None) in s.live; }
  }

  lemma {:induction false} StartAllSince(s: Scanner, ids: seq<string>, time: int, i: string, since: Since)
    requires LiveIs(s.live, i, since)
    ensures LiveIs(StartAll(s, ids, time).live, i, if since == NotLive && i != "" && i in ids then Live(Some(time)) else since)
  {
    if ids != [] {
      var init, last := ids[..|ids| - 1], ids[|ids| - 1];
      assert ids == init + [last];
      StartAllSince(s, init, time, i, since);
      StartSince(StartAll(s, init, time), last, time, i, if since == NotLive && i != "" && i in init then Live(Some(time)) else since);
    }
  }

  /** The ended stretches of the identity among the first `n` rows. */
  ghost predicate EndedAre(ended: seq<Era>, log: seq<Event>, n: nat, i: string)
    requires n <= |log|
  {
    forall e: Era :: e.identity == i ==> (e in ended <==> exists m :: 0 <= m < n && EndedBy(log, m, e))
  }

  ghost predicate EndedBy(log: seq<Event>, m: nat, e: Era)
    requires m < |log|
  {
    Ends(log, m, e.identity) && e.startsAt == EndedStart(log, m, e.identity) && e.endsAt == Some(log[m].time)
  }

  lemma EndSince(s: Scanner, fenced: set<string>, id: string, time: int, i: string, since: Since)
    requires LiveIs(s.live, i, since) && id !in fenced
    ensures LiveIs(End(s, fenced, id, time).live, i, if i == id then NotLive else since)
    ensures forall e: Era :: e.identity == i ==>
              (e in End(s, fenced, id, time).ended <==> e in s.ended || (i == id && since.Live? && e == Era(i, since.start, Some(time))))
  {
    EndLive(s, fenced, id, time);
    forall e: Era | e.identity == i && i == id && since.Live? && e == Era(i, since.start, Some(time))
      ensures e in End(s, fenced, id, time).ended
    {
      var f := Era(i, since.start, None);
      assert f in s.live && e == f.(endsAt := Some(time));
    }
  }

  /** A publication, whichever way it concerns the identity. */
  lemma OkSince(s: Scanner, fenced: set<string>, e: Event, i: string, since: Since)
    requires LiveIs(s.live, i, since) && e.outcome == Ok
    ensures LiveIs(ScanRow(s, fenced, e).live, i, NextSince(fenced, e, i, since))
    ensures forall x: Era :: x.identity == i ==>
              (x in ScanRow(s, fenced, e).ended <==>
               x in s.ended || (Leaves(e, i) && i !in fenced && (i != "" || since.Live?)
                                && x == Era(i, if since.Live? then since.start else Some(e.time), Some(e.time))))
  {
    hide Start, IsLive, Keep, EndEach, LiveIs;
    var from := e.from.GetOr("");
    var begun := Start(s, from, e.time);
    StartSince(s, from, e.time, i, since);
    StartLive(s, from, e.time);
    var mid := if since == NotLive && i != "" && i == from then Live(Some(e.time)) else since;
    var ended := if e.from.Some? then End(begun, fenced, e.from.value, e.time) else begun;
    if e.from.Some? && e.from.value !in fenced { EndSince(begun, fenced, e.from.value, e.time, i, mid); }
    var after := if e.from == Some(i) && i !in fenced then NotLive else mid;
    StartSince(ended, e.to, e.time, i, after);
    StartLive(ended, e.to, e.time);
  }

  lemma OtherSince(s: Scanner, fenced: set<string>, e: Event, i: string, since: Since)
    requires LiveIs(s.live, i, since) && e.outcome != Ok
    ensures LiveIs(ScanRow(s, fenced, e).live, i, NextSince(fenced, e, i, since))
    ensures ScanRow(s, fenced, e).ended == s.ended
  {
    if IsWriting(e) {
      var a := Start(s, e.from.GetOr(""), e.time);
      StartSince(s, e.from.GetOr(""), e.time, i, since);
      var one := if since == NotLive && i != "" && i == e.from.GetOr("") then Live(Some(e.time)) else since;
      var b := Start(a, e.to, e.time);
      StartSince(a, e.to, e.time, i, one);
      var two := if one == NotLive && i != "" && i == e.to then Live(Some(e.time)) else one;
      StartAllSince(b, Others(e), e.time, i, two);
      StartAllLive(b, Others(e), e.time);
    }
  }

  lemma RowSince(s: Scanner, fenced: set<string>, e: Event, i: string, since: Since)
    requires LiveIs(s.live, i, since)
    ensures LiveIs(ScanRow(s, fenced, e).live, i, NextSince(fenced, e, i, since))
    ensures forall x: Era :: x.identity == i ==>
              (x in ScanRow(s, fenced, e).ended <==>
               x in s.ended || (Leaves(e, i) && i !in fenced && (i != "" || since.Live?)
                                && x == Era(i, if since.Live? then since.start else Some(e.time), Some(e.time))))
  {
    if e.outcome == Ok { OkSince(s, fenced, e, i, since); } else { OtherSince(s, fenced, e, i, since); }
  }

  lemma EndedNext(ended: seq<Era>, after: seq<Era>, log: seq<Event>, n: nat, i: string)
    requires n < |log| && EndedAre(ended, log, n, i)
    requires forall x: Era :: x.identity == i ==> (x in after <==> x in ended || EndedBy(log, n, x))
    ensures EndedAre(after, log, n + 1, i)
  {
    hide EndedBy;
  }

  /** The machine is the scan, as far as this identity goes. */
  lemma {:induction false} SinceIsScan(log: seq<Event>, n: nat, i: string)
    requires n <= |log|
    ensures LiveIs(ScanTo(log, n).live, i, SinceAfter(log, n, i))
    ensures EndedAre(ScanTo(log, n).ended, log, n, i)
  {
    if n == 0 {
      assert log[..0] == [];
    } else {
      SinceIsScan(log, n - 1, i);
      ScanToNext(log, n - 1);
      RowSince(ScanTo(log, n - 1), Fenced(log), log[n - 1], i, SinceAfter(log, n - 1, i));
      hide ScanRow, EndedAre, LiveIs, ScanTo, Fenced;
      EndedNext(ScanTo(log, n - 1).ended, ScanTo(log, n).ended, log, n - 1, i);
    }
  }

  /** The eras of an identity, told from the rows. */
  lemma ErasAreStretches(log: seq<Event>, e: Era)
    ensures e in ErasOf(log) <==>
              || (exists m :: 0 <= m < |log| && EndedBy(log, m, e))
              || (SinceAfter(log, |log|, e.identity).Live? && e == Era(e.identity, SinceAfter(log, |log|, e.identity).start, None))
  {
    SinceIsScan(log, |log|, e.identity);
    assert log[..|log|] == log;
  }

  // ----- how far publications and observations reach ----------------------------------------------

  /** A stretch that began with a publication of the identity counts from a second before. */
  ghost function Reach(log: seq<Event>, i: string, start: Option<int>): Option<int> {
    if start.Some? && PublishesAt(log, i, start.value) then Some(start.value - SECOND) else start
  }

  /** And one that ended counts a second longer, again when that is the moment of another such row. */
  function Tail(log: seq<Event>, i: string, end: int): int {
    if log == [] then end
    else
      var before, e := Tail(log[..|log| - 1], i, end), log[|log| - 1];
      if Leaves(e, i) && e.time == before then before + SECOND else before
  }

  lemma {:induction false} WidenIsTail(e: Era, log: seq<Event>)
    ensures Widen(e, log).identity == e.identity
    ensures Widen(e, log).endsAt == if e.endsAt.None? then None else Some(Tail(log, e.identity, e.endsAt.value))
  {
    if log != [] { WidenIsTail(e, log[..|log| - 1]); }
  }

  lemma WidenIsReach(e: Era, log: seq<Event>)
    requires InOrder(log)
    ensures Widen(e, log) == Era(e.identity, Reach(log, e.identity, e.startsAt),
                                 if e.endsAt.None? then None else Some(Tail(log, e.identity, e.endsAt.value)))
  {
    WidenStart(e, log);
    WidenIsTail(e, log);
  }

  /** The group speaks against an open stretch that began well before it. */
  predicate Contradicts(g: Group, fenced: set<string>, i: string, start: Option<int>) {
    i !in fenced && i !in g.identities && (start.None? || start.value + SECOND < g.ts)
  }

  /** What the first `n` groups leave of an era made before them. */
  function Cut(e: Era, groups: seq<Group>, n: nat, fenced: set<string>): Era
    requires n <= |groups|
  {
    if n == 0 then e else Clip(Cut(e, groups, n - 1, fenced), groups[n - 1], fenced)
  }

  ghost predicate CutBefore(groups: seq<Group>, n: nat, fenced: set<string>, i: string, start: Option<int>, t: int)
    requires n <= |groups|
  {
    exists k :: 0 <= k < n && Contradicts(groups[k], fenced, i, start) && groups[k].ts + SECOND <= t
  }

  lemma {:induction false} CutReaches(e: Era, groups: seq<Group>, n: nat, fenced: set<string>, t: int)
    requires GroupsInOrder(groups) && n <= |groups|
    ensures Cut(e, groups, n, fenced).identity == e.identity && Cut(e, groups, n, fenced).startsAt == e.startsAt
    ensures e.endsAt.Some? ==> Cut(e, groups, n, fenced) == e
    ensures e.endsAt.None? ==>
              (Cut(e, groups, n, fenced).endsAt.None? <==> forall k :: 0 <= k < n ==> !Contradicts(groups[k], fenced, e.identity, e.startsAt))
    ensures In(Cut(e, groups, n, fenced), t) <==> In(e, t) && !(e.endsAt.None? && CutBefore(groups, n, fenced, e.identity, e.startsAt, t))
  {
    if n > 0 {
      CutReaches(e, groups, n - 1, fenced, t);
      var before, g := Cut(e, groups, n - 1, fenced), groups[n - 1];
      if e.endsAt.None? {
        assert CutBefore(groups, n, fenced, e.identity, e.startsAt, t) <==>
               CutBefore(groups, n - 1, fenced, e.identity, e.startsAt, t)
               || (Contradicts(g, fenced, e.identity, e.startsAt) && g.ts + SECOND <= t);
        if before.endsAt.Some? {
          var k :| 0 <= k < n - 1 && Contradicts(groups[k], fenced, e.identity, e.startsAt);
          EndedByFirst(e, groups, n - 1, fenced, k);
        }
      }
    }
  }

  /** An open era is cut no later than by any group that contradicts it. */
  lemma {:induction false} EndedByFirst(e: Era, groups: seq<Group>, n: nat, fenced: set<string>, k: nat)
    requires GroupsInOrder(groups) && k < n <= |groups| && e.endsAt.None? && Contradicts(groups[k], fenced, e.identity, e.startsAt)
    ensures var c := Cut(e, groups, n, fenced);
            c.identity == e.identity && c.startsAt == e.startsAt && c.endsAt.Some? && c.endsAt.value <= groups[k].ts + SECOND
  {
    if k < n - 1 {
      EndedByFirst(e, groups, n - 1, fenced, k);
    } else {
      CutSoFar(e, groups, k, fenced);
    }
  }

  /** What cut it so far came no later than the groups seen so far. */
  lemma {:induction false} CutSoFar(e: Era, groups: seq<Group>, n: nat, fenced: set<string>)
    requires GroupsInOrder(groups) && n <= |groups| && e.endsAt.None?
    ensures var c := Cut(e, groups, n, fenced);
            && c.identity == e.identity && c.startsAt == e.startsAt
            && (c.endsAt.Some? ==> n > 0 && c.endsAt.value <= groups[n - 1].ts + SECOND)
  {
    if n > 0 { CutSoFar(e, groups, n - 1, fenced); }
  }

  // ----- the final eras, told one by one -----------------------------------------------------------

  lemma {:induction false} ObserveIsCut(eras: seq<Era>, log: seq<Event>, groups: seq<Group>, n: nat, j: nat)
    requires n <= |groups| && j < |eras|
    ensures |eras| <= |Observe(eras, log, groups, n)| && Observe(eras, log, groups, n)[j] == Cut(eras[j], groups, n, Fenced(log))
  {
    if n > 0 {
      ObserveIsCut(eras, log, groups, n - 1, j);
      var before := Observe(eras, log, groups, n - 1);
      var seen := GroupEras(groups[n - 1], GroupStart(log, groups, n - 1), GroupEnd(log, groups, n - 1));
      assert (before + seen)[j] == before[j];
    }
  }

  ghost predicate OfGroup(log: seq<Event>, groups: seq<Group>, k: nat, e: Era)
    requires k < |groups|
  {
    e.identity in groups[k].identities && e.startsAt == GroupStart(log, groups, k) && e.endsAt == GroupEnd(log, groups, k)
  }

  lemma GroupErasMembers(log: seq<Event>, groups: seq<Group>, k: nat, e: Era)
    requires k < |groups|
    ensures e in GroupEras(groups[k], GroupStart(log, groups, k), GroupEnd(log, groups, k)) <==> OfGroup(log, groups, k, e)
  {
    var g, s, x := groups[k], GroupStart(log, groups, k), GroupEnd(log, groups, k);
    if OfGroup(log, groups, k, e) {
      var j :| 0 <= j < |g.identities| && g.identities[j] == e.identity;
      assert GroupEras(g, s, x)[j] == e;
    }
  }

  /** Every era after the passes is an earlier one, cut, or a group's own, untouched. */
  lemma {:induction false} ObserveMembers(eras: seq<Era>, log: seq<Event>, groups: seq<Group>, n: nat, e: Era)
    requires GroupsInOrder(groups) && n <= |groups|
    ensures e in Observe(eras, log, groups, n) <==>
              || (exists x :: x in eras && e == Cut(x, groups, n, Fenced(log)))
              || (exists k :: 0 <= k < n && OfGroup(log, groups, k, e))
  {
    if exists x :: x in eras && e == Cut(x, groups, n, Fenced(log)) {
      var x :| x in eras && e == Cut(x, groups, n, Fenced(log));
      var j :| 0 <= j < |eras| && eras[j] == x;
      ObserveIsCut(eras, log, groups, n, j);
    }
    if exists k :: 0 <= k < n && OfGroup(log, groups, k, e) {
      var k :| 0 <= k < n && OfGroup(log, groups, k, e);
      GroupErasMembers(log, groups, k, e);
      GroupErasSurvive(eras, log, groups, k, n, e);
    }
    if e in Observe(eras, log, groups, n) && n > 0 { ObserveOnly(eras, log, groups, n, e); }
  }

  lemma {:induction false} ObserveOnly(eras: seq<Era>, log: seq<Event>, groups: seq<Group>, n: nat, e: Era)
    requires GroupsInOrder(groups) && n <= |groups| && e in Observe(eras, log, groups, n)
    ensures || (exists x :: x in eras && e == Cut(x, groups, n, Fenced(log)))
            || (exists k :: 0 <= k < n && OfGroup(log, groups, k, e))
  {
    if n == 0 {
      assert Cut(e, groups, 0, Fenced(log)) == e;
    } else {
      var before := Observe(eras, log, groups, n - 1);
      var seen := GroupEras(groups[n - 1], GroupStart(log, groups, n - 1), GroupEnd(log, groups, n - 1));
      var j :| 0 <= j < |before + seen| && e == Clip((before + seen)[j], groups[n - 1], Fenced(log));
      var y := (before + seen)[j];
      if j < |before| {
        ObserveOnly(eras, log, groups, n - 1, y);
        if exists x :: x in eras && y == Cut(x, groups, n - 1, Fenced(log)) {
          var x :| x in eras && y == Cut(x, groups, n - 1, Fenced(log));
          assert e == Cut(x, groups, n, Fenced(log));
        } else {
          var k :| 0 <= k < n - 1 && OfGroup(log, groups, k, y);
          assert OfGroup(log, groups, k, e);
        }
      } else {
        GroupErasMembers(log, groups, n - 1, y);
        assert OfGroup(log, groups, n - 1, e);
      }
    }
  }

  // ----- the sets' meaning, told from the rows -------------------------------------------------------

  predicate Between(start: Option<int>, end: Option<int>, t: int) {
    (start.None? || start.value <= t) && (end.None? || t < end.value)
  }

  /** A stretch that a row ended. */
  ghost predicate EndedCovers(log: seq<Event>, m: nat, i: string, t: int)
    requires m < |log|
  {
    Ends(log, m, i) && Between(Reach(log, i, EndedStart(log, m, i)), Some(Tail(log, i, log[m].time)), t)
  }

  /** The stretch no row has ended, unless an observation did. */
  ghost predicate OpenCovers(log: seq<Event>, groups: seq<Group>, i: string, t: int) {
    var since := SinceAfter(log, |log|, i);
    && since.Live? && Between(Reach(log, i, since.start), None, t)
    && !CutBefore(groups, |groups|, Fenced(log), i, Reach(log, i, since.start), t)
  }

  /** A source that is not the last published target. */
  ghost predicate DriftCovers(log: seq<Event>, n: nat, i: string, t: int)
    requires n < |log|
  {
    && Drifted(LastOk(log[..n]), log[n]) && log[n].from == Some(i)
    && LastOk(log[..n]).value.time <= t < log[n].time + SECOND
  }

  /** An observation of the identity. */
  ghost predicate GroupCovers(log: seq<Event>, groups: seq<Group>, k: nat, i: string, t: int)
    requires k < |groups|
  {
    i in groups[k].identities && Between(GroupStart(log, groups, k), GroupEnd(log, groups, k), t)
  }

  ghost predicate CoveredAt(log: seq<Event>, groups: seq<Group>, i: string, t: int) {
    || (exists m :: 0 <= m < |log| && EndedCovers(log, m, i, t))
    || OpenCovers(log, groups, i, t)
    || (exists n :: 0 <= n < |log| && DriftCovers(log, n, i, t))
    || (exists k :: 0 <= k < |groups| && GroupCovers(log, groups, k, i, t))
  }

  lemma {:induction false} DriftMembers(log: seq<Event>, e: Era)
    ensures e in DriftEras(log) <==> exists n :: 0 <= n < |log| && DriftIs(log, n, e)
  {
    if log != [] {
      var init := log[..|log| - 1];
      DriftMembers(init, e);
      forall n | 0 <= n < |init| ensures DriftIs(init, n, e) <==> DriftIs(log, n, e) { assert init[..n] == log[..n]; }
      if e in DriftEras(init) {
        var n :| 0 <= n < |init| && DriftIs(init, n, e);
        assert DriftIs(log, n, e);
      }
      if e in DriftEras(log) && e !in DriftEras(init) { assert DriftIs(log, |log| - 1, e); }
    }
  }

  ghost predicate DriftIs(log: seq<Event>, n: nat, e: Era)
    requires n < |log|
  {
    Drifted(LastOk(log[..n]), log[n]) && e == Era(log[n].from.value, Some(LastOk(log[..n]).value.time), Some(log[n].time + SECOND))
  }

  ghost predicate EndedIs(log: seq<Event>, m: nat, e: Era)
    requires m < |log|
  {
    && Ends(log, m, e.identity)
    && e.startsAt == Reach(log, e.identity, EndedStart(log, m, e.identity)) && e.endsAt == Some(Tail(log, e.identity, log[m].time))
  }

  ghost predicate SomeEnded(log: seq<Event>, e: Era) { exists m :: 0 <= m < |log| && EndedIs(log, m, e) }

  ghost predicate SomeDrift(log: seq<Event>, e: Era) { exists n :: 0 <= n < |log| && DriftIs(log, n, e) }

  ghost predicate SomeGroup(log: seq<Event>, groups: seq<Group>, e: Era) { exists k :: 0 <= k < |groups| && OfGroup(log, groups, k, e) }

  /** The stretch no row has ended, as far as it reaches back. */
  ghost function OpenEra(log: seq<Event>, i: string): Era
    requires SinceAfter(log, |log|, i).Live?
  {
    Era(i, Reach(log, i, SinceAfter(log, |log|, i).start), None)
  }

  ghost predicate IsOpen(log: seq<Event>, e: Era) {
    SinceAfter(log, |log|, e.identity).Live? && e == OpenEra(log, e.identity)
  }

  /** Which era says what: the four kinds of final era, as spans over the rows. */
  ghost predicate FinalIs(log: seq<Event>, groups: seq<Group>, e: Era) {
    || SomeEnded(log, e)
    || (SinceAfter(log, |log|, e.identity).Live? && e == Cut(OpenEra(log, e.identity), groups, |groups|, Fenced(log)))
    || SomeDrift(log, e)
    || SomeGroup(log, groups, e)
  }

  lemma WidenedMembers(log: seq<Event>, x: Era)
    requires InOrder(log)
    ensures x in WidenAll(ErasOf(log), log) <==> SomeEnded(log, x) || IsOpen(log, x)
  {
    var raw, i := ErasOf(log), x.identity;
    if x in WidenAll(raw, log) {
      var j :| 0 <= j < |raw| && x == Widen(raw[j], log);
      WidenIsReach(raw[j], log);
      ErasAreStretches(log, raw[j]);
      assert raw[j] in raw;
      if m :| 0 <= m < |log| && EndedBy(log, m, raw[j]) { assert EndedIs(log, m, x); }
    }
    if SomeEnded(log, x) {
      var m :| 0 <= m < |log| && EndedIs(log, m, x);
      var e := Era(i, EndedStart(log, m, i), Some(log[m].time));
      assert EndedBy(log, m, e);
      ErasAreStretches(log, e);
      WidenedIsMember(log, e, x);
    }
    if IsOpen(log, x) {
      var e := Era(i, SinceAfter(log, |log|, i).start, None);
      ErasAreStretches(log, e);
      WidenedIsMember(log, e, x);
    }
  }

  lemma WidenedIsMember(log: seq<Event>, e: Era, x: Era)
    requires InOrder(log) && e in ErasOf(log)
    requires x == Era(e.identity, Reach(log, e.identity, e.startsAt), if e.endsAt.None? then None else Some(Tail(log, e.identity, e.endsAt.value)))
    ensures x in WidenAll(ErasOf(log), log)
  {
    var raw := ErasOf(log);
    var j :| 0 <= j < |raw| && raw[j] == e;
    WidenIsReach(e, log);
    assert WidenAll(raw, log)[j] == x;
  }

  /** Everything the sweep sees is one of the four kinds. */
  lemma FinalOnly(log: seq<Event>, groups: seq<Group>, e: Era)
    requires InOrder(log) && GroupsInOrder(groups) && e in FinalEras(log, groups)
    ensures FinalIs(log, groups, e)
  {
    var wide, drift := WidenAll(ErasOf(log), log), DriftEras(log);
    ObserveMembers(wide + drift, log, groups, |groups|, e);
    hide ErasOf, WidenAll, DriftEras, Observe, SinceAfter, OfGroup, SomeEnded, SomeDrift, IsOpen, Cut;
    if x :| x in wide + drift && e == Cut(x, groups, |groups|, Fenced(log)) {
      CutReaches(x, groups, |groups|, Fenced(log), 0);
      WidenedMembers(log, x);
      DriftMembers(log, x);
      KindsEnd(log, x);
    }
  }

  lemma CutIsFinal(log: seq<Event>, groups: seq<Group>, x: Era)
    requires GroupsInOrder(groups)
    requires x in WidenAll(ErasOf(log), log) || x in DriftEras(log)
    ensures Cut(x, groups, |groups|, Fenced(log)) in FinalEras(log, groups)
  {
    var eras, e := WidenAll(ErasOf(log), log) + DriftEras(log), Cut(x, groups, |groups|, Fenced(log));
    ObserveMembers(eras, log, groups, |groups|, e);
    hide Observe, WidenAll, DriftEras, ErasOf, Cut, OfGroup;
    assert x in eras && e == Cut(x, groups, |groups|, Fenced(log));
  }

  /** And everything of the four kinds it sees. */
  lemma FinalAll(log: seq<Event>, groups: seq<Group>, e: Era)
    requires InOrder(log) && GroupsInOrder(groups) && FinalIs(log, groups, e)
    ensures e in FinalEras(log, groups)
  {
    KindsEnd(log, e);
    if SomeEnded(log, e) || SomeDrift(log, e) {
      WidenedMembers(log, e);
      DriftMembers(log, e);
      CutReaches(e, groups, |groups|, Fenced(log), 0);
      CutIsFinal(log, groups, e);
    } else if SomeGroup(log, groups, e) {
      ObserveMembers(WidenAll(ErasOf(log), log) + DriftEras(log), log, groups, |groups|, e);
    } else {
      WidenedMembers(log, OpenEra(log, e.identity));
      CutIsFinal(log, groups, OpenEra(log, e.identity));
    }
  }

  /** Stretches that a row ended, and drift, end; the open stretch does not. */
  lemma KindsEnd(log: seq<Event>, e: Era)
    ensures SomeEnded(log, e) || SomeDrift(log, e) ==> e.endsAt.Some?
    ensures IsOpen(log, e) ==> e.endsAt.None? && SinceAfter(log, |log|, e.identity).Live? && e == OpenEra(log, e.identity)
    ensures SomeDrift(log, e) <==> exists n :: 0 <= n < |log| && DriftIs(log, n, e)
  {
  }

  /** An identity counts as held at an instant exactly when the rows and observations say so. */
  lemma CoverageIff(log: seq<Event>, groups: seq<Group>, i: string, t: int)
    requires InOrder(log) && GroupsInOrder(groups)
    ensures Covers(FinalEras(log, groups), i, t) <==> CoveredAt(log, groups, i, t)
  {
    if Covers(FinalEras(log, groups), i, t) {
      var e :| e in FinalEras(log, groups) && e.identity == i && In(e, t);
      FinalOnly(log, groups, e);
      FinalCovers(log, groups, e, t);
    }
    if CoveredAt(log, groups, i, t) {
      var e := CoveringEra(log, groups, i, t);
      FinalAll(log, groups, e);
    }
  }

  lemma FinalCovers(log: seq<Event>, groups: seq<Group>, e: Era, t: int)
    requires GroupsInOrder(groups) && FinalIs(log, groups, e) && In(e, t)
    ensures CoveredAt(log, groups, e.identity, t)
  {
    hide Ends, EndedStart, SinceAfter, Tail, Reach, GroupStart, GroupEnd;
    var i := e.identity;
    if m :| 0 <= m < |log| && EndedIs(log, m, e) {
      assert EndedCovers(log, m, i, t);
    } else if n :| 0 <= n < |log| && DriftIs(log, n, e) {
      assert DriftCovers(log, n, i, t);
    } else if k :| 0 <= k < |groups| && OfGroup(log, groups, k, e) {
      assert GroupCovers(log, groups, k, i, t);
    } else {
      CutReaches(Era(i, Reach(log, i, SinceAfter(log, |log|, i).start), None), groups, |groups|, Fenced(log), t);
    }
  }

  lemma CoveringEra(log: seq<Event>, groups: seq<Group>, i: string, t: int) returns (e: Era)
    requires GroupsInOrder(groups) && CoveredAt(log, groups, i, t)
    ensures FinalIs(log, groups, e) && e.identity == i && In(e, t)
  {
    hide Ends, EndedStart, SinceAfter, Tail, Reach, GroupStart, GroupEnd;
    if m :| 0 <= m < |log| && EndedCovers(log, m, i, t) {
      e := Era(i, Reach(log, i, EndedStart(log, m, i)), Some(Tail(log, i, log[m].time)));
      assert EndedIs(log, m, e);
    } else if n :| 0 <= n < |log| && DriftCovers(log, n, i, t) {
      e := Era(i, Some(LastOk(log[..n]).value.time), Some(log[n].time + SECOND));
      assert DriftIs(log, n, e);
    } else if k :| 0 <= k < |groups| && GroupCovers(log, groups, k, i, t) {
      e := Era(i, GroupStart(log, groups, k), GroupEnd(log, groups, k));
      assert OfGroup(log, groups, k, e);
    } else {
      var x := Era(i, Reach(log, i, SinceAfter(log, |log|, i).start), None);
      CutReaches(x, groups, |groups|, Fenced(log), t);
      e := Cut(x, groups, |groups|, Fenced(log));
    }
  }

  // ----- the second before a publication ----------------------------------------------------------------

  /** Something that counted the identity stops doing so at this instant. */
  ghost predicate LapsesAt(log: seq<Event>, groups: seq<Group>, i: string, t: int) {
    || (exists m :: 0 <= m < |log| && Ends(log, m, i) && Tail(log, i, log[m].time) == t)
    || (SinceAfter(log, |log|, i).Live? && exists k :: 0 <= k < |groups| && i !in groups[k].identities && groups[k].ts + SECOND == t)
    || (exists n :: 0 <= n < |log| && Drifted(LastOk(log[..n]), log[n]) && log[n].from == Some(i) && log[n].time + SECOND == t)
    || (exists k :: 0 <= k < |groups| && i in groups[k].identities && GroupEnd(log, groups, k) == Some(t))
  }

  lemma {:induction false} CutEndsAfterGroup(e: Era, groups: seq<Group>, n: nat, fenced: set<string>)
    requires n <= |groups| && e.endsAt.None? && Cut(e, groups, n, fenced).endsAt.Some?
    ensures Cut(e, groups, n, fenced).identity == e.identity
    ensures exists k :: 0 <= k < n && e.identity !in groups[k].identities && Cut(e, groups, n, fenced).endsAt == Some(groups[k].ts + SECOND)
  {
    var before := Cut(e, groups, n - 1, fenced);
    if before.endsAt.Some? {
      CutEndsAfterGroup(e, groups, n - 1, fenced);
    } else {
      CutKeepsIdentity(e, groups, n - 1, fenced);
      assert e.identity !in groups[n - 1].identities && Cut(e, groups, n, fenced).endsAt == Some(groups[n - 1].ts + SECOND);
    }
  }

  lemma {:induction false} CutKeepsIdentity(e: Era, groups: seq<Group>, n: nat, fenced: set<string>)
    requires n <= |groups|
    ensures Cut(e, groups, n, fenced).identity == e.identity
  {
    if n > 0 { CutKeepsIdentity(e, groups, n - 1, fenced); }
  }

  lemma FinalLapses(log: seq<Event>, groups: seq<Group>, e: Era, t: int)
    requires FinalIs(log, groups, e) && e.endsAt == Some(t)
    ensures LapsesAt(log, groups, e.identity, t)
  {
    hide Ends, EndedStart, SinceAfter, Tail, Reach, GroupStart, GroupEnd;
    var i := e.identity;
    if m :| 0 <= m < |log| && EndedIs(log, m, e) {
    } else if n :| 0 <= n < |log| && DriftIs(log, n, e) {
    } else if k :| 0 <= k < |groups| && OfGroup(log, groups, k, e) {
    } else {
      CutEndsAfterGroup(Era(i, Reach(log, i, SinceAfter(log, |log|, i).start), None), groups, |groups|, Fenced(log));
    }
  }

  /** Coverage is lost only where something lapses. */
  lemma LostOnlyWhereItLapses(log: seq<Event>, groups: seq<Group>, i: string, t: int)
    requires InOrder(log) && GroupsInOrder(groups) && CoveredAt(log, groups, i, t - 1)
    ensures CoveredAt(log, groups, i, t) || LapsesAt(log, groups, i, t)
  {
    var e := CoveringEra(log, groups, i, t - 1);
    if In(e, t) { FinalCovers(log, groups, e, t); } else { FinalLapses(log, groups, e, t); }
  }

  lemma {:induction false} StretchFrom(log: seq<Event>, groups: seq<Group>, i: string, first: int, t: int)
    requires InOrder(log) && GroupsInOrder(groups) && first <= t && CoveredAt(log, groups, i, first)
    requires forall u :: first < u <= t && LapsesAt(log, groups, i, u) ==> CoveredAt(log, groups, i, u)
    ensures CoveredAt(log, groups, i, t)
    decreases t - first
  {
    hide CoveredAt, LapsesAt;
    if first < t {
      StretchFrom(log, groups, i, first, t - 1);
      LostOnlyWhereItLapses(log, groups, i, t);
    }
  }

  /**
   The target counts for the whole second before a publication exactly when it counts at the
   start of that second and again wherever in it something that counted it lapses: a question
   about finitely many instants, asked of the rows and the observations.
   */
  lemma SecondBeforeIff(log: seq<Event>, groups: seq<Group>, k: nat)
    requires InOrder(log) && GroupsInOrder(groups) && k < |log| && log[k].outcome == Ok
    ensures var i, first, time := log[k].to, log[k].time - SECOND, log[k].time;
            (forall t :: first <= t < time ==> Covers(FinalEras(log, groups), i, t)) <==>
            (CoveredAt(log, groups, i, first) && forall t :: first < t < time && LapsesAt(log, groups, i, t) ==> CoveredAt(log, groups, i, t))
  {
    hide CoveredAt, LapsesAt, FinalEras, Covers;
    var i, first, time := log[k].to, log[k].time - SECOND, log[k].time;
    forall t ensures Covers(FinalEras(log, groups), i, t) <==> CoveredAt(log, groups, i, t) { CoverageIff(log, groups, i, t); }
    if CoveredAt(log, groups, i, first) && forall t :: first < t < time && LapsesAt(log, groups, i, t) ==> CoveredAt(log, groups, i, t) {
      forall t | first <= t < time ensures Covers(FinalEras(log, groups), i, t) { StretchFrom(log, groups, i, first, t); }
    }
  }

  /** A publication that itself makes the target live covers the second before it, whatever was observed. */
  lemma NewTargetIsCovered(log: seq<Event>, groups: seq<Group>, k: nat, t: int)
    requires InOrder(log) && GroupsInOrder(groups) && k < |log| && log[k].outcome == Ok && log[k].to != ""
    requires SinceAfter(log, k, log[k].to) == NotLive && log[k].time - SECOND <= t < log[k].time
    ensures Covers(FinalEras(log, groups), log[k].to, t)
  {
    var i := log[k].to;
    CoverageIff(log, groups, i, t);
    assert PublishesAt(log, i, log[k].time);
    NewStretch(log, groups, k, i, k + 1, t);
  }

  /** The stretch that row `k` begins is still open after `n` rows, or some row in between ended it. */
  lemma {:induction false} NewStretch(log: seq<Event>, groups: seq<Group>, k: nat, i: string, n: nat, t: int)
    requires InOrder(log) && GroupsInOrder(groups) && k < n <= |log| && log[k].time - SECOND <= t < log[k].time
    requires PublishesAt(log, i, log[k].time) && SinceAfter(log, n, i) == Live(Some(log[k].time))
    ensures CoveredAt(log, groups, i, t)
    decreases |log| - n
  {
    if n == |log| {
      assert !CutBefore(groups, |groups|, Fenced(log), i, Some(log[k].time - SECOND), t);
      assert OpenCovers(log, groups, i, t);
    } else if Ends(log, n, i) {
      TailGrows(log, i, log[n].time);
      assert EndedCovers(log, n, i, t);
    } else {
      NewStretch(log, groups, k, i, n + 1, t);
    }
  }

  lemma {:induction false} TailGrows(log: seq<Event>, i: string, end: int)
    ensures Tail(log, i, end) >= end
  {
    if log != [] { TailGrows(log[..|log| - 1], i, end); }
  }
}
