/**
 What the holder sets promise about the world: no identity the switch log proves live is
 dropped without an observation against it, every observation and every recovery fence is
 honoured, and which starts around a publication count for both sides.
 */
module CodexHolderSafety {
  import opened Prelude
  import opened CodexHolders
  import opened CodexHolderSets
  import opened CodexHolderProofs

  // ----- eras only grow until an observation cuts them ---------------------------------------

  ghost predicate WiderThan(w: Era, e: Era) {
    && w.identity == e.identity
    && (w.endsAt.None? <==> e.endsAt.None?)
    && (e.startsAt.None? ==> w.startsAt.None?)
    && (w.startsAt.Some? ==> e.startsAt.Some? && w.startsAt.value <= e.startsAt.value)
    && (w.endsAt.Some? ==> e.endsAt.Some? && w.endsAt.value >= e.endsAt.value)
  }

  lemma {:induction false} WidenGrows(e: Era, log: seq<Event>)
    ensures WiderThan(Widen(e, log), e)
  {
    if log != [] { WidenGrows(e, log[..|log| - 1]); }
  }

  /** The observation that ended an open era early. */
  ghost predicate Evidence(g: Group, fenced: set<string>, identity: string, t: int) {
    identity !in fenced && identity !in g.identities && g.ts + SECOND <= t
  }

  ghost predicate CutBy(cut: Era, e: Era, g: Group, fenced: set<string>) {
    cut == e.(endsAt := Some(g.ts + SECOND)) && Evidence(g, fenced, e.identity, g.ts + SECOND)
  }

  /** Eras are only appended, and only open ones ever change: they end a second after a group that omits them. */
  lemma {:induction false} ObserveKeeps(eras: seq<Era>, log: seq<Event>, groups: seq<Group>, n: nat, j: nat)
    requires n <= |groups| && j < |eras|
    ensures |eras| <= |Observe(eras, log, groups, n)|
    ensures var e := Observe(eras, log, groups, n)[j];
            e == eras[j] || (eras[j].endsAt.None? && exists k :: 0 <= k < n && CutBy(e, eras[j], groups[k], Fenced(log)))
  {
    if n > 0 {
      ObserveKeeps(eras, log, groups, n - 1, j);
      var before := Observe(eras, log, groups, n - 1);
      var seen := GroupEras(groups[n - 1], GroupStart(log, groups, n - 1), GroupEnd(log, groups, n - 1));
      assert (before + seen)[j] == before[j];
      assert Observe(eras, log, groups, n)[j] == Clip(before[j], groups[n - 1], Fenced(log));
    }
  }

  /**
   Never under-count without evidence: an identity the switch log has live at `t` and the
   final eras do not is not fenced, and some observation at least a second before `t` omits it.
   */
  lemma NeverUnderCounted(log: seq<Event>, groups: seq<Group>, i: string, t: int)
    requires Covers(ErasOf(log), i, t) && !Covers(FinalEras(log, groups), i, t)
    ensures exists k :: 0 <= k < |groups| && Evidence(groups[k], Fenced(log), i, t)
  {
    var raw := ErasOf(log);
    var e :| e in raw && e.identity == i && In(e, t);
    var j :| 0 <= j < |raw| && raw[j] == e;
    var base := WidenAll(raw, log) + DriftEras(log);
    WidenGrows(e, log);
    assert base[j] == Widen(e, log);
    ObserveKeeps(base, log, groups, |groups|, j);
    var f := FinalEras(log, groups)[j];
    assert f in FinalEras(log, groups);
    assert !In(f, t);
    var k :| 0 <= k < |groups| && CutBy(f, base[j], groups[k], Fenced(log));
    assert Evidence(groups[k], Fenced(log), i, t);
  }

  /** Every fenced identity keeps an era that never ends, whatever was observed. */
  lemma FencedStaysOpen(log: seq<Event>, groups: seq<Group>, i: string)
    requires i in Fenced(log)
    ensures exists e :: e in FinalEras(log, groups) && e.identity == i && e.endsAt.None?
  {
    assert log[..|log|] == log;
    FencedStaysLive(log, |log|, i);
    var raw := ErasOf(log);
    var e :| e in ScanLog(log).live && e.identity == i;
    LiveIsOpen(log, e);
    assert e in raw;
    var j :| 0 <= j < |raw| && raw[j] == e;
    var base := WidenAll(raw, log) + DriftEras(log);
    WidenGrows(e, log);
    assert base[j] == Widen(e, log);
    ObserveKeeps(base, log, groups, |groups|, j);
    assert FinalEras(log, groups)[j] in FinalEras(log, groups);
  }

  lemma LiveIsOpen(log: seq<Event>, e: Era)
    requires e in ScanLog(log).live
    ensures e.endsAt.None?
  {
    OpenWhileLive(Opening(log), Fenced(log), log);
  }

  lemma {:induction false} OpenWhileLive(s: Scanner, fenced: set<string>, log: seq<Event>)
    requires forall e :: e in s.live ==> e.endsAt.None?
    ensures forall e :: e in Scan(s, fenced, log).live ==> e.endsAt.None?
  {
    if log != [] {
      OpenWhileLive(s, fenced, log[..|log| - 1]);
      var last := log[|log| - 1];
      StepStaysOpen(Scan(s, fenced, log[..|log| - 1]), fenced, last);
    }
  }

  lemma StepStaysOpen(s: Scanner, fenced: set<string>, e: Event)
    requires forall f :: f in s.live ==> f.endsAt.None?
    ensures forall f :: f in ScanRow(s, fenced, e).live ==> f.endsAt.None?
  {
    if IsWriting(e) {
      var begun := Start(s, e.from.GetOr(""), e.time);
      StartLive(s, e.from.GetOr(""), e.time);
      if e.outcome == Ok {
        var ended := if e.from.Some? then End(begun, fenced, e.from.value, e.time) else begun;
        if e.from.Some? && e.from.value !in fenced { EndLive(begun, fenced, e.from.value, e.time); }
        StartLive(ended, e.to, e.time);
      } else {
        StartLive(begun, e.to, e.time);
        StartAllLive(Start(begun, e.to, e.time), Others(e), e.time);
      }
    }
  }

  // ----- observations are honoured --------------------------------------------------------

  ghost predicate GroupsInOrder(groups: seq<Group>) {
    forall i, j :: 0 <= i < j < |groups| ==> groups[i].ts < groups[j].ts
  }

  ghost predicate Observed(groups: seq<Group>, ts: int, id: string) {
    exists g :: g in groups && g.ts == ts && id in g.identities
  }

  lemma {:induction false} AddIdMembers(id: string, ids: seq<string>)
    ensures forall x :: x in AddId(id, ids) <==> x == id || x in ids
  {
    if ids != [] {
      AddIdMembers(id, ids[1..]);
      assert ids == [ids[0]] + ids[1..];
    }
  }

  lemma ObservedFirst(first: Group, rest: seq<Group>)
    ensures forall t, i :: Observed([first] + rest, t, i) <==> (first.ts == t && i in first.identities) || Observed(rest, t, i)
  {
    assert first in [first] + rest;
    assert forall g :: g in [first] + rest <==> g == first || g in rest;
  }

  lemma {:induction false} AddObservationMembers(ts: int, id: string, groups: seq<Group>)
    ensures forall t, i :: Observed(AddObservation(ts, id, groups), t, i) <==> (t == ts && i == id) || Observed(groups, t, i)
  {
    if groups == [] {
      ObservedFirst(Group(ts, [id]), []);
      assert AddObservation(ts, id, groups) == [Group(ts, [id])] + [];
    } else {
      var first, rest := groups[0], groups[1..];
      assert groups == [first] + rest;
      ObservedFirst(first, rest);
      if ts == first.ts {
        AddIdMembers(id, first.identities);
        ObservedFirst(Group(ts, AddId(id, first.identities)), rest);
      } else if ts < first.ts {
        ObservedFirst(Group(ts, [id]), groups);
      } else {
        AddObservationMembers(ts, id, rest);
        ObservedFirst(first, AddObservation(ts, id, rest));
      }
    }
  }

  lemma {:induction false} AddObservationInOrder(ts: int, id: string, groups: seq<Group>)
    requires GroupsInOrder(groups)
    ensures GroupsInOrder(AddObservation(ts, id, groups))
    ensures AddObservation(ts, id, groups) != []
    ensures AddObservation(ts, id, groups)[0].ts == if groups == [] || ts < groups[0].ts then ts else groups[0].ts
  {
    if groups != [] && ts > groups[0].ts {
      AddObservationInOrder(ts, id, groups[1..]);
      assert groups[1..] != [] ==> groups[0].ts < groups[1..][0].ts;
    }
  }

  /** The groups are the observations: each instant once, in order, with who was seen then. */
  lemma {:induction false} GroupsMeaning(obs: seq<Observation>)
    requires forall o :: o in obs ==> !BadlyObserved(o)
    ensures GroupsInOrder(GroupsOf(obs))
    ensures forall t, i :: Observed(GroupsOf(obs), t, i) <==> Observation(Some(t), Some(i)) in obs
  {
    if obs != [] {
      var init, o := obs[..|obs| - 1], obs[|obs| - 1];
      assert obs == init + [o] && !BadlyObserved(o);
      GroupsMeaning(init);
      if o.identity.Some? {
        AddObservationInOrder(o.ts.value, o.identity.value, GroupsOf(init));
        AddObservationMembers(o.ts.value, o.identity.value, GroupsOf(init));
        assert o == Observation(Some(o.ts.value), Some(o.identity.value));
      }
    }
  }

  lemma {:induction false} ExplainingWithin(log: seq<Event>, a: Group, b: Group)
    ensures Explaining(log, a, b).Some? ==> a.ts <= Explaining(log, a, b).value.time <= b.ts
  {
    if log != [] { ExplainingWithin(log[1..], a, b); }
  }

  lemma {:induction false} BoundaryBefore(log: seq<Event>, before: int)
    ensures LatestBoundary(log, before).Some? ==> LatestBoundary(log, before).value < before
  {
    if log != [] { BoundaryBefore(log[..|log| - 1], before); }
  }

  lemma {:induction false} GroupErasSurvive(eras: seq<Era>, log: seq<Event>, groups: seq<Group>, k: nat, n: nat, e: Era)
    requires GroupsInOrder(groups) && k < n <= |groups|
    requires e in GroupEras(groups[k], GroupStart(log, groups, k), GroupEnd(log, groups, k))
    ensures e in Observe(eras, log, groups, n)
  {
    var before := Observe(eras, log, groups, n - 1);
    var seen := GroupEras(groups[n - 1], GroupStart(log, groups, n - 1), GroupEnd(log, groups, n - 1));
    if k < n - 1 {
      GroupErasSurvive(eras, log, groups, k, n - 1, e);
    }
    assert e in before + seen;
    var j :| 0 <= j < |before + seen| && (before + seen)[j] == e;
    assert Clip(e, groups[n - 1], Fenced(log)) == e;
    assert Observe(eras, log, groups, n)[j] == e;
  }

  /** Whoever was observed live is a holder at that very instant. */
  lemma ObservationsAreCovered(log: seq<Event>, obs: seq<Observation>, ts: int, i: string)
    requires forall o :: o in obs ==> !BadlyObserved(o)
    requires Observation(Some(ts), Some(i)) in obs
    ensures Covers(FinalEras(log, GroupsOf(obs)), i, ts)
  {
    var groups := GroupsOf(obs);
    GroupsMeaning(obs);
    assert Observed(groups, ts, i);
    var g :| g in groups && g.ts == ts && i in g.identities;
    var k :| 0 <= k < |groups| && groups[k] == g;
    var e := GroupEraCovers(log, groups, k, i);
    GroupErasSurvive(WidenAll(ErasOf(log), log) + DriftEras(log), log, groups, k, |groups|, e);
  }

  lemma GroupEraCovers(log: seq<Event>, groups: seq<Group>, k: nat, i: string) returns (e: Era)
    requires GroupsInOrder(groups) && k < |groups| && i in groups[k].identities
    ensures e in GroupEras(groups[k], GroupStart(log, groups, k), GroupEnd(log, groups, k))
    ensures e == Era(i, GroupStart(log, groups, k), GroupEnd(log, groups, k)) && In(e, groups[k].ts)
  {
    var g := groups[k];
    var j :| 0 <= j < |g.identities| && g.identities[j] == i;
    var startsAt, endsAt := GroupStart(log, groups, k), GroupEnd(log, groups, k);
    e := Era(i, startsAt, endsAt);
    assert e == GroupEras(g, startsAt, endsAt)[j];
    BoundaryBefore(log, groups[0].ts);
    if k > 0 { ExplainingWithin(log, groups[k - 1], g); }
    if k < |groups| - 1 { ExplainingWithin(log, g, groups[k + 1]); }
  }

  // ----- transitions nobody logged ------------------------------------------------------------

  /** Between two observations that no published switch explains, both sides stay possible. */
  lemma UnexplainedIsAmbiguous(log: seq<Event>, groups: seq<Group>, k: nat, i: string, t: int)
    requires GroupsInOrder(groups) && k + 1 < |groups| && Explaining(log, groups[k], groups[k + 1]).None?
    requires (i in groups[k].identities && groups[k].ts <= t < groups[k + 1].ts + SECOND)
          || (i in groups[k + 1].identities && groups[k].ts - SECOND <= t <= groups[k + 1].ts)
    ensures Covers(FinalEras(log, groups), i, t)
  {
    var m := if i in groups[k].identities && groups[k].ts <= t < groups[k + 1].ts + SECOND then k else k + 1;
    var e := GroupEraCovers(log, groups, m, i);
    hide ErasOf, WidenAll, DriftEras, Observe, GroupEras, Explaining;
    GroupErasSurvive(WidenAll(ErasOf(log), log) + DriftEras(log), log, groups, m, |groups|, e);
  }

  lemma {:induction false} DriftFound(log: seq<Event>, n: nat)
    requires n < |log| && Drifted(LastOk(log[..n]), log[n])
    ensures Era(log[n].from.value, Some(LastOk(log[..n]).value.time), Some(log[n].time + SECOND)) in DriftEras(log)
  {
    var init := log[..|log| - 1];
    if n < |log| - 1 {
      assert init[..n] == log[..n];
      DriftFound(init, n);
    }
  }

  /** A source that is not the last published target counts from that publication to a second after it left. */
  lemma DriftIsCovered(log: seq<Event>, groups: seq<Group>, n: nat, t: int)
    requires n < |log| && Drifted(LastOk(log[..n]), log[n])
    requires LastOk(log[..n]).value.time <= t < log[n].time + SECOND
    ensures Covers(FinalEras(log, groups), log[n].from.value, t)
  {
    DriftFound(log, n);
    var raw, drift := WidenAll(ErasOf(log), log), DriftEras(log);
    var e := Era(log[n].from.value, Some(LastOk(log[..n]).value.time), Some(log[n].time + SECOND));
    var d :| 0 <= d < |drift| && drift[d] == e;
    assert (raw + drift)[|raw| + d] == e;
    ObserveKeeps(raw + drift, log, groups, |groups|, |raw| + d);
    assert FinalEras(log, groups)[|raw| + d] in FinalEras(log, groups);
  }

  /** An era is still open only if it is fenced, or no observation well after its start omits its identity. */
  lemma {:induction false} OpenMeansUncontradicted(eras: seq<Era>, log: seq<Event>, groups: seq<Group>, n: nat, j: nat, k: nat)
    requires k < n <= |groups| && j < |eras| && |eras| <= |Observe(eras, log, groups, n)|
    requires Observe(eras, log, groups, n)[j].endsAt.None?
    ensures eras[j].identity in Fenced(log) || eras[j].identity in groups[k].identities
         || (eras[j].startsAt.Some? && groups[k].ts <= eras[j].startsAt.value + SECOND)
  {
    var before := Observe(eras, log, groups, n - 1);
    var seen := GroupEras(groups[n - 1], GroupStart(log, groups, n - 1), GroupEnd(log, groups, n - 1));
    ObserveKeeps(eras, log, groups, n - 1, j);
    assert (before + seen)[j] == before[j];
    assert Observe(eras, log, groups, n)[j] == Clip(before[j], groups[n - 1], Fenced(log));
    if k < n - 1 { OpenMeansUncontradicted(eras, log, groups, n - 1, j, k); }
  }

  // ----- around a publication ----------------------------------------------------------------

  ghost predicate PublishesAt(log: seq<Event>, identity: string, time: int) {
    exists e :: e in log && e.outcome == Ok && e.to == identity && e.time == time
  }

  lemma PublishesNext(init: seq<Event>, last: Event, identity: string, time: int)
    ensures PublishesAt(init + [last], identity, time)
            <==> PublishesAt(init, identity, time) || (last.outcome == Ok && last.to == identity && last.time == time)
  {
    assert last in init + [last];
    assert forall e :: e in init + [last] <==> e in init || e == last;
  }

  lemma {:induction false} WidenStart(e: Era, log: seq<Event>)
    requires InOrder(log)
    ensures Widen(e, log).startsAt
            == if e.startsAt.Some? && PublishesAt(log, e.identity, e.startsAt.value) then Some(e.startsAt.value - SECOND) else e.startsAt
  {
    WidenGrows(e, log);
    if log != [] {
      var init, last := log[..|log| - 1], log[|log| - 1];
      assert log == init + [last];
      WidenGrows(e, init);
      WidenStart(e, init);
      if e.startsAt.Some? {
        PublishesNext(init, last, e.identity, e.startsAt.value);
        assert PublishesAt(init, e.identity, e.startsAt.value) ==> e.startsAt.value <= last.time;
      }
      hide PublishesAt;
    }
  }

  /** One era reaches back over a whole second when it began a second earlier, or with a publication of its identity. */
  lemma EraReachesBack(e: Era, log: seq<Event>, time: int)
    requires InOrder(log)
    requires (e.startsAt.None? || e.startsAt.value <= time) && (e.endsAt.None? || e.endsAt.value >= time)
    ensures (forall t :: time - SECOND <= t < time ==> In(Widen(e, log), t)) <==>
            (e.startsAt.None? || e.startsAt.value <= time - SECOND || PublishesAt(log, e.identity, e.startsAt.value))
  {
    WidenStart(e, log);
    WidenGrows(e, log);
    var w := Widen(e, log);
    if e.startsAt.Some? && e.startsAt.value > time - SECOND && !PublishesAt(log, e.identity, e.startsAt.value) {
      assert !In(w, time - SECOND);
    }
  }

  lemma KeepPair(a: Era, b: Era)
    requires a.identity != b.identity
    ensures Keep([a, b], a.identity, false) == [b] && Keep([a, b], a.identity, true) == [a]
  {
    var i := a.identity;
    assert [a, b][..1] == [a] && [a][..0] == [];
    assert Keep([a], i, true) == Keep([], i, true) + [a] && Keep([a], i, false) == Keep([], i, false) + [];
    assert Keep([a, b], i, true) == Keep([a], i, true) + [] && Keep([a, b], i, false) == Keep([a], i, false) + [b];
  }

  lemma MissedEras(first: Event, second: Event, a: Era, b: Era)
    requires first == Event(1, 1500, Some("a"), "b", RolledBack, None) && second == Event(2, 1900, Some("a"), "b", Ok, None)
    requires a == Era("a", None, None) && b == Era("b", Some(1500), None)
    ensures ErasOf([first, second]) == [a.(endsAt := Some(1900)), b]
  {
    var log := [first, second];
    assert log[..1] == [first] && [first][..0] == [];
    assert Fenced([first]) == {};
    assert Fenced(log) == {};
    FirstScan(first, a, b);
    SecondScan(second, a, b);
    hide ScanRow;
    assert Opening(log) == Scanner([], [a]);
    assert Scan(Opening(log), {}, []) == Opening(log);
    assert Scan(Opening(log), {}, [first]) == Scanner([], [a, b]);
    assert Scan(Opening(log), {}, log) == Scanner([a.(endsAt := Some(1900))], [b]);
  }

  /** A rolled-back attempt just before a publication hides the second before it. */
  lemma TargetMayBeMissed(first: Event, second: Event)
    requires first == Event(1, 1500, Some("a"), "b", RolledBack, None)
    requires second == Event(2, 1900, Some("a"), "b", Ok, None)
    ensures InOrder([first, second]) && !Covers(FinalEras([first, second], []), "b", second.time - 900)
  {
    var log := [first, second];
    var a, b := Era("a", None, Some(1900)), Era("b", Some(1500), None);
    MissedEras(first, second, Era("a", None, None), b);
    WidenStart(b, log);
    WidenGrows(a, log);
    assert !PublishesAt(log, "b", 1500);
    assert log[..1] == [first] && DriftEras([first]) == [];
    hide ErasOf, Widen, DriftEras;
    var final := WidenAll([a, b], log);
    assert FinalEras(log, []) == final + [];
    assert final == [Widen(a, log), Widen(b, log)];
  }

  lemma FirstScan(first: Event, a: Era, b: Era)
    requires first == Event(1, 1500, Some("a"), "b", RolledBack, None) && a == Era("a", None, None) && b == Era("b", Some(1500), None)
    ensures ScanRow(Scanner([], [a]), {}, first) == Scanner([], [a, b])
  {
    assert a in [a];
    assert Start(Scanner([], [a]), "a", 1500) == Scanner([], [a]);
  }

  lemma SecondScan(second: Event, a: Era, b: Era)
    requires second == Event(2, 1900, Some("a"), "b", Ok, None) && a == Era("a", None, None) && b == Era("b", Some(1500), None)
    ensures ScanRow(Scanner([], [a, b]), {}, second) == Scanner([a.(endsAt := Some(1900))], [b])
  {
    KeepPair(a, b);
    assert a in [a, b] && b in [b];
    assert Start(Scanner([], [a, b]), "a", 1900) == Scanner([], [a, b]);
  }

  lemma {:induction false} WidenEnd(e: Era, log: seq<Event>, k: nat)
    requires k < |log| && log[k].outcome == Ok && log[k].from == Some(e.identity) && e.endsAt == Some(log[k].time)
    ensures Widen(e, log).endsAt.Some? && Widen(e, log).endsAt.value >= log[k].time + SECOND
  {
    var init := log[..|log| - 1];
    if k < |log| - 1 {
      WidenEnd(e, init, k);
    } else {
      WidenSteps(e, init, log[k].time);
    }
  }

  lemma {:induction false} WidenSteps(e: Era, log: seq<Event>, time: int)
    requires e.endsAt == Some(time)
    ensures Widen(e, log).identity == e.identity
    ensures Widen(e, log).endsAt == Some(time) || (Widen(e, log).endsAt.Some? && Widen(e, log).endsAt.value >= time + SECOND)
  {
    if log != [] { WidenSteps(e, log[..|log| - 1], time); }
  }

  lemma RowKeepsEnded(s: Scanner, fenced: set<string>, row: Event, e: Era)
    requires e in s.ended
    ensures e in ScanRow(s, fenced, row).ended
  {
    if IsWriting(row) {
      StartLive(s, row.from.GetOr(""), row.time);
      if row.outcome != Ok {
        var begun := Start(s, row.from.GetOr(""), row.time);
        StartLive(begun, row.to, row.time);
        StartAllLive(Start(begun, row.to, row.time), Others(row), row.time);
      }
    }
  }

  lemma {:induction false} EndedLasts(log: seq<Event>, n: nat, m: nat, e: Era)
    requires n <= m <= |log| && e in ScanTo(log, n).ended
    ensures e in ScanTo(log, m).ended
  {
    if n < m {
      EndedLasts(log, n, m - 1, e);
      ScanToNext(log, m - 1);
      RowKeepsEnded(ScanTo(log, m - 1), Fenced(log), log[m - 1], e);
    }
  }

  lemma RowEnds(s: Scanner, fenced: set<string>, row: Event, i: string, past: int) returns (e: Era)
    requires row.outcome == Ok && row.from == Some(i) && i != "" && i !in fenced && ScannerOk(s, past) && past <= row.time
    ensures e in ScanRow(s, fenced, row).ended && e.identity == i && e.endsAt == Some(row.time)
    ensures e.startsAt.Some? ==> e.startsAt.value <= row.time
  {
    var begun := Start(s, i, row.time);
    StartLive(s, i, row.time);
    assert IsLive(begun.live, i);
    var f :| f in begun.live && f.identity == i;
    EndLive(begun, fenced, i, row.time);
    e := f.(endsAt := Some(row.time));
    StartLive(End(begun, fenced, i, row.time), row.to, row.time);
  }

  /** A publication leaves an era of its source that ends right then. */
  lemma SourceEra(log: seq<Event>, k: nat, i: string) returns (e: Era)
    requires InOrder(log) && k < |log| && log[k].outcome == Ok && log[k].from == Some(i) && i != "" && i !in Fenced(log)
    ensures e in ErasOf(log) && e.identity == i && e.endsAt == Some(log[k].time)
    ensures e.startsAt.Some? ==> e.startsAt.value <= log[k].time
  {
    hide ScanRow;
    ScanToOk(log, k, log[k].time);
    ScanToNext(log, k);
    e := RowEnds(ScanTo(log, k), Fenced(log), log[k], i, log[k].time);
    EndedLasts(log, k + 1, |log|, e);
    assert log[..|log|] == log;
  }

  /** The replaced account counts for a full second after every publication, whatever was observed. */
  lemma SourceLingers(log: seq<Event>, groups: seq<Group>, k: nat, i: string, t: int)
    requires InOrder(log) && k < |log| && log[k].outcome == Ok && log[k].from == Some(i) && i != ""
    requires i !in Fenced(log) && log[k].time <= t < log[k].time + SECOND
    ensures Covers(FinalEras(log, groups), i, t)
  {
    var e := SourceEra(log, k, i);
    var raw := ErasOf(log);
    var j :| 0 <= j < |raw| && raw[j] == e;
    var base := WidenAll(raw, log) + DriftEras(log);
    WidenGrows(e, log);
    WidenEnd(e, log, k);
    assert base[j] == Widen(e, log);
    ObserveKeeps(base, log, groups, |groups|, j);
    assert FinalEras(log, groups)[j] in FinalEras(log, groups);
  }

  // ----- who may renew ------------------------------------------------------------------------

  /** A listed process; `startedAt` is None when its start time cannot be parsed. */
  datatype Process = Process(pid: int, startedAt: Option<int>)

  predicate Renews(p: Process, key: string, sets: seq<HolderSet>) {
    p.startedAt.None? || exists s :: s in sets && key in s.identities && Within(s.startsAt, s.endsAt, p.startedAt.value)
  }

  function Renewers(key: string, procs: seq<Process>, sets: seq<HolderSet>): seq<Process> {
    if procs == [] then []
    else Renewers(key, procs[..|procs| - 1], sets) + (if Renews(procs[|procs| - 1], key, sets) then [procs[|procs| - 1]] else [])
  }

  /** What a scan of the eras, without any sweep, would keep. */
  ghost function DirectScan(key: string, procs: seq<Process>, eras: seq<Era>): seq<Process> {
    if procs == [] then []
    else
      var p := procs[|procs| - 1];
      DirectScan(key, procs[..|procs| - 1], eras)
      + (if p.startedAt.None? || Covers(eras, key, p.startedAt.value) then [p] else [])
  }

  lemma {:induction false} RenewersAreTheDirectScan(key: string, procs: seq<Process>, eras: seq<Era>, observed: bool)
    ensures Renewers(key, procs, SetsOf(eras, observed)) == DirectScan(key, procs, eras)
  {
    if procs != [] {
      RenewersAreTheDirectScan(key, procs[..|procs| - 1], eras, observed);
      var p := procs[|procs| - 1];
      if p.startedAt.Some? { SweepIsExact(eras, observed, key, p.startedAt.value); }
    }
  }

  /** Somebody was observed a second before `t` or earlier, and `key` was not. */
  ghost predicate SpokenAgainst(obs: seq<Observation>, key: string, t: int) {
    exists ts, other :: ts + SECOND <= t && Observation(Some(ts), Some(other)) in obs && Observation(Some(ts), Some(key)) !in obs
  }

  lemma EvidenceIsObserved(obs: seq<Observation>, k: nat, fenced: set<string>, key: string, t: int)
    requires forall o :: o in obs ==> !BadlyObserved(o)
    requires k < |GroupsOf(obs)| && Evidence(GroupsOf(obs)[k], fenced, key, t)
    ensures SpokenAgainst(obs, key, t)
  {
    var groups := GroupsOf(obs);
    var ts := groups[k].ts;
    GroupsMeaning(obs);
    GroupsNonEmpty(obs);
    assert groups[k] in groups && groups[k].identities[0] in groups[k].identities;
    assert Observed(groups, ts, groups[k].identities[0]);
    forall g | g in groups && g.ts == ts ensures g == groups[k] {
      var m :| 0 <= m < |groups| && groups[m] == g;
      assert m < k ==> g.ts < ts;
    }
    assert !Observed(groups, ts, key);
  }

  /**
   From stored rows to the answer: a process left out of the renewers of an identity that the
   switch log has live at its start is one that an observation, a second before that start or
   earlier, speaks against; and the identity is under no recovery fence.
   */
  lemma RenewerLeftOutOnEvidence(rows: seq<Row>, obs: seq<Observation>, key: string, procs: seq<Process>, p: Process)
    requires LogOf(rows).Success? && HolderSetsOf(rows, obs).Success? && p in procs
    requires p !in Renewers(key, procs, HolderSetsOf(rows, obs).value)
    ensures p.startedAt.Some?
    ensures Covers(ErasOf(LogOf(rows).value), key, p.startedAt.value) ==>
              key !in Fenced(LogOf(rows).value) && SpokenAgainst(obs, key, p.startedAt.value)
  {
    hide LogOf, ErasOf, SpokenAgainst, Covers;
    var log, groups, sets := LogOf(rows).value, GroupsOf(obs), HolderSetsOf(rows, obs).value;
    if Renews(p, key, sets) { RenewersMembers(key, procs, sets, p); }
    var t := p.startedAt.value;
    SweepIsExact(FinalEras(log, groups), obs != [], key, t);
    if Covers(ErasOf(log), key, t) {
      NeverUnderCounted(log, groups, key, t);
      var k :| 0 <= k < |groups| && Evidence(groups[k], Fenced(log), key, t);
      EvidenceIsObserved(obs, k, Fenced(log), key, t);
    }
  }

  lemma {:induction false} RenewersMembers(key: string, procs: seq<Process>, sets: seq<HolderSet>, p: Process)
    requires p in procs && Renews(p, key, sets)
    ensures p in Renewers(key, procs, sets)
  {
    if p != procs[|procs| - 1] { RenewersMembers(key, procs[..|procs| - 1], sets, p); }
  }

  lemma {:induction false} AddObservationNonEmpty(ts: int, id: string, groups: seq<Group>)
    requires forall g :: g in groups ==> g.identities != []
    ensures forall g :: g in AddObservation(ts, id, groups) ==> g.identities != []
  {
    if groups != [] { AddObservationNonEmpty(ts, id, groups[1..]); }
  }

  lemma {:induction false} GroupsNonEmpty(obs: seq<Observation>)
    requires forall o :: o in obs ==> !BadlyObserved(o)
    ensures forall g :: g in GroupsOf(obs) ==> g.identities != []
  {
    if obs != [] {
      var o := obs[|obs| - 1];
      assert !BadlyObserved(o);
      GroupsNonEmpty(obs[..|obs| - 1]);
      if o.identity.Some? { AddObservationNonEmpty(o.ts.value, o.identity.value, GroupsOf(obs[..|obs| - 1])); }
    }
  }
}
