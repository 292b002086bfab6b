/**
 Why automatic switching settles: with the readings, settings and clock held still, every
 voluntary switch makes progress in one strict order, so a run never comes back to an
 account it left. And what the ranking and the parking choose.
 */
module AutoswitchProofs {
  import opened Prelude
  import opened Autoswitch
  import opened AutoswitchDecision

  // ----- sorting ------------------------------------------------------------------------

  lemma {:induction false} InsertMembers(k: Keyed, sorted: seq<Keyed>)
    ensures forall x :: x in InsertKeyed(k, sorted) <==> x == k || x in sorted
  {
    if sorted != [] && CompareKeyed(k, sorted[|sorted| - 1]) == Less {
      InsertMembers(k, sorted[..|sorted| - 1]);
      assert sorted == sorted[..|sorted| - 1] + [sorted[|sorted| - 1]];
    }
  }

  lemma {:induction false} SortMembers(items: seq<Keyed>)
    ensures forall x :: x in SortKeyed(items) <==> x in items
  {
    if items != [] {
      SortMembers(items[..|items| - 1]);
      InsertMembers(items[|items| - 1], SortKeyed(items[..|items| - 1]));
      assert items == items[..|items| - 1] + [items[|items| - 1]];
    }
  }

  function Flip(c: Cmp): Cmp { match c case Less => More case Same => Same case More => Less }

  lemma {:induction false} CompareKeysFlips(a: Key, b: Key)
    ensures CompareKeys(b, a) == Flip(CompareKeys(a, b))
    decreases |a| + |b|
  {
    if a != [] || b != [] {
      CompareKeysFlips(if a == [] then a else a[1..], if b == [] then b else b[1..]);
    }
  }

  lemma {:induction false} CompareKeysTransitive(a: Key, b: Key, c: Key)
    requires CompareKeys(a, b) != More && CompareKeys(b, c) != More
    ensures CompareKeys(a, c) != More
    ensures CompareKeys(a, c) == Same ==> CompareKeys(a, b) == Same && CompareKeys(b, c) == Same
    decreases |a| + |b| + |c|
  {
    if a != [] || b != [] || c != [] {
      var x, y, z := if a == [] then Some(0.0) else a[0], if b == [] then Some(0.0) else b[0], if c == [] then Some(0.0) else c[0];
      if CompareTimes(x, y) == Same && CompareTimes(y, z) == Same {
        CompareKeysTransitive(if a == [] then a else a[1..], if b == [] then b else b[1..], if c == [] then c else c[1..]);
      }
    }
  }

  lemma CompareKeyedFlips(a: Keyed, b: Keyed)
    ensures CompareKeyed(b, a) == Flip(CompareKeyed(a, b))
  {
    CompareKeysFlips(a.key, b.key);
  }

  lemma CompareKeyedTransitive(a: Keyed, b: Keyed, c: Keyed)
    requires CompareKeyed(a, b) != More && CompareKeyed(b, c) != More
    ensures CompareKeyed(a, c) != More
  {
    CompareKeysTransitive(a.key, b.key, c.key);
  }

  ghost predicate Ordered(sorted: seq<Keyed>) {
    forall i, j :: 0 <= i < j < |sorted| ==> CompareKeyed(sorted[i], sorted[j]) != More
  }

  lemma {:induction false} InsertOrdered(k: Keyed, sorted: seq<Keyed>)
    requires Ordered(sorted)
    ensures Ordered(InsertKeyed(k, sorted))
  {
    if sorted != [] {
      var init, last := sorted[..|sorted| - 1], sorted[|sorted| - 1];
      if CompareKeyed(k, last) == Less {
        InsertOrdered(k, init);
        InsertMembers(k, init);
        assert forall x :: x in init ==> CompareKeyed(x, last) != More;
        assert forall x :: x in InsertKeyed(k, init) ==> CompareKeyed(x, last) != More;
      } else {
        CompareKeyedFlips(k, last);
        forall i | 0 <= i < |sorted| ensures CompareKeyed(sorted[i], k) != More {
          if i < |sorted| - 1 { CompareKeyedTransitive(sorted[i], last, k); }
        }
      }
    }
  }

  lemma {:induction false} SortOrdered(items: seq<Keyed>)
    ensures Ordered(SortKeyed(items))
  {
    if items != [] {
      SortOrdered(items[..|items| - 1]);
      InsertOrdered(items[|items| - 1], SortKeyed(items[..|items| - 1]));
    }
  }

  /** The first of a sorted slate is beaten by nobody: by key, then slot, then age, then position. */
  lemma FirstIsBest(items: seq<Keyed>, x: Keyed)
    requires x in items
    ensures SortKeyed(items) != [] && SortKeyed(items)[0] in items
    ensures CompareKeyed(SortKeyed(items)[0], x) != More
  {
    SortMembers(items);
    SortOrdered(items);
    CompareKeyedFlips(x, x);
    var sorted := SortKeyed(items);
    var k :| 0 <= k < |sorted| && sorted[k] == x;
  }

  // ----- what the ranking lets through --------------------------------------------------------

  /** The conditions a candidate meets when the ranking keeps it. */
  ghost predicate Passes(r: Race, e: Entry) {
    var h, ah := e.headroom.GetOr(0.0), r.active.headroom.GetOr(0.0);
    var voluntary := r.trigger == Proactive || r.trigger == Burn;
    && h > 0.0 && r.barred != Some(e.account.id)
    && (voluntary && r.allAbove ==>
          if RecoveryIsUseful(e.recovery, r.active.recovery, ah, r.best, r.now)
          then Sooner(e.recovery, r.active.recovery, RECOVERY_HYSTERESIS)
          else h >= ah * RATIO || (ah <= SPENT && h >= ah && Sooner(e.recovery, r.active.recovery, RECOVERY_HYSTERESIS)))
    && (voluntary && !r.allAbove ==>
          && !Over(e)
          && (r.settings.strategy == ConsumeFirst && r.trigger == Burn ==>
                ExpiresFirst(WeeklyReset(e.account, r.now), WeeklyReset(r.active.account, r.now)))
          && (r.settings.strategy == Best && r.trigger == Proactive && r.active.binding.Some? && e.binding.Some? ==>
                e.binding.value.headroom - r.active.binding.value.headroom >= r.settings.hysteresis))
  }

  ghost predicate Adds(before: Slate, after: Slate, k: Keyed) {
    || after == before.(qualified := before.qualified + [k])
    || after == before.(fallback := before.fallback + [k])
  }

  lemma ConsiderKeeps(r: Race, slate: Slate, e: Entry)
    ensures var after := Consider(r, slate, e);
            if Passes(r, e) then exists key :: Adds(slate, after, Keyed(e, key)) else after == slate
  {
    hide WeeklyReset;
    var after := Consider(r, slate, e);
    if |after.qualified| > |slate.qualified| {
      assert Adds(slate, after, Keyed(e, after.qualified[|slate.qualified|].key));
    } else if |after.fallback| > |slate.fallback| {
      assert Adds(slate, after, Keyed(e, after.fallback[|slate.fallback|].key));
    }
  }

  ghost predicate Kept(slate: Slate, e: Entry) {
    exists k :: k in slate.qualified + slate.fallback && k.entry == e
  }

  lemma AddsKeeps(before: Slate, after: Slate, k: Keyed)
    requires Adds(before, after, k)
    ensures forall e :: Kept(after, e) <==> Kept(before, e) || e == k.entry
  {
    assert k in after.qualified + after.fallback;
    assert forall x :: x in after.qualified + after.fallback <==> x in before.qualified + before.fallback || x == k;
    forall e | Kept(before, e) ensures Kept(after, e) {
      var x :| x in before.qualified + before.fallback && x.entry == e;
      assert x in after.qualified + after.fallback;
    }
  }

  /** The ranking keeps exactly the measured candidates that pass. */
  lemma {:induction false} KeptIffPasses(r: Race, measured: seq<Entry>)
    ensures forall e :: Kept(ConsiderAll(r, measured), e) <==> e in measured && Passes(r, e)
  {
    if measured != [] {
      var init, last := measured[..|measured| - 1], measured[|measured| - 1];
      KeptIffPasses(r, init);
      ConsiderKeeps(r, ConsiderAll(r, init), last);
      hide Consider, Passes;
      assert measured == init + [last];
      if Passes(r, last) {
        var key :| Adds(ConsiderAll(r, init), ConsiderAll(r, measured), Keyed(last, key));
        AddsKeeps(ConsiderAll(r, init), ConsiderAll(r, measured), Keyed(last, key));
      }
    }
  }

  lemma {:induction false} MeasuredMembers(all: seq<Entry>, activeId: string)
    ensures forall e :: e in Measured(all, activeId) <==> e in all && e.account.id != activeId && e.headroom.Some?
  {
    if all != [] {
      MeasuredMembers(all[..|all| - 1], activeId);
      assert all == all[..|all| - 1] + [all[|all| - 1]];
    }
  }

  lemma {:induction false} BestIsHighest(measured: seq<Entry>)
    ensures BestHeadroom(measured) <= SPENT <==> forall e :: e in measured ==> e.headroom.GetOr(0.0) <= SPENT
  {
    if measured != [] {
      BestIsHighest(measured[..|measured| - 1]);
      assert measured == measured[..|measured| - 1] + [measured[|measured| - 1]];
    }
  }

  // ----- the census, whoever is active -----------------------------------------------------------

  /** What a tick that knows its active account reads of an account, wherever it stands. */
  function Reading(w: World, a: Account): Entry { EntryFor(w, a, 0, false, false) }

  predicate Reads(w: World, e: Entry, a: Account) { e == Reading(w, a).(index := e.index) && e.account == a && !a.dead }

  lemma {:induction false} CensusReads(w: World, n: nat, activeId: string)
    requires n <= |w.accounts|
    ensures var all := Census(w, n, activeId, false, false);
            && (forall e :: e in all ==> e.account in w.accounts[..n] && Reads(w, e, e.account))
            && (forall a :: a in w.accounts[..n] && !a.dead ==> exists e :: e in all && e.account == a)
  {
    if n > 0 {
      CensusReads(w, n - 1, activeId);
      var rest, a := Census(w, n - 1, activeId, false, false), w.accounts[n - 1];
      assert w.accounts[..n] == w.accounts[..n - 1] + [a];
      if !a.dead {
        var e := EntryFor(w, a, |rest|, false, false);
        assert Census(w, n, activeId, false, false) == rest + [e];
        assert e in rest + [e] && e.account == a;
        forall b | b in w.accounts[..n] && !b.dead ensures exists e :: e in Census(w, n, activeId, false, false) && e.account == b {
          if b in w.accounts[..n - 1] {
            var f :| f in rest && f.account == b;
            assert f in rest + [e];
          }
        }
      }
    }
  }

  // ----- one voluntary switch --------------------------------------------------------------------

  predicate Voluntary(d: Decision) { d.Switch? && (d.trigger == Proactive || d.trigger == Burn) }

  ghost predicate DistinctIds(accounts: seq<Account>) {
    forall i, j :: 0 <= i < j < |accounts| ==> accounts[i].id != accounts[j].id
  }

  lemma {:induction false} FindsMember(accounts: seq<Account>, id: string)
    ensures FindAccount(accounts, id).Some? ==> FindAccount(accounts, id).value in accounts && FindAccount(accounts, id).value.id == id
    ensures DistinctIds(accounts) ==> forall a :: a in accounts && a.id == id ==> FindAccount(accounts, id) == Some(a)
  {
    if accounts != [] {
      FindsMember(accounts[1..], id);
      assert accounts == [accounts[0]] + accounts[1..];
    }
  }

  lemma {:induction false} FindsEntry(all: seq<Entry>, id: string)
    ensures FindEntry(all, id).Some? ==> FindEntry(all, id).value in all && FindEntry(all, id).value.account.id == id
    ensures FindEntry(all, id).None? ==> forall e :: e in all ==> e.account.id != id
  {
    if all != [] {
      FindsEntry(all[1..], id);
      assert all == [all[0]] + all[1..];
    }
  }

  /** The active account of a voluntary switch is known, alive and below its physical limit. */
  lemma VoluntaryReads(i: Input) returns (a: Account)
    requires Voluntary(Decide(i))
    ensures i.active.Some? && FindAccount(i.world.accounts, i.active.value) == Some(a) && !a.dead
    ensures BindingPct(a.buckets).Some? && BindingPct(a.buckets).value < 100.0
    ensures KnownTrigger(i, a, BindingPct(a.buckets).value) == Some(Decide(i).trigger)
    ensures var all := Census(i.world, |i.world.accounts|, a.id, false, false);
            var entry := FindEntry(all, a.id);
            Decide(i) == DecideWith(i, SettingsFor(i.world.settings), Decide(i).trigger, 0, all,
                                    if entry.Some? then entry.value else Entry(a, -1, None, None, None, false))
  {
    hide BindingPct, BindingFor, Census, FindEntry, FindAccount, NoReturnOf, Ranked, BreakerOf, ParkedOf, Measured, SettingsFor;
    a := FindAccount(i.world.accounts, i.active.value).value;
    var pct := if a.dead || PastIdleHold(i) || i.usageUnknown then None else BindingPct(a.buckets);
    var t := if pct.None? then Some(Failover) else KnownTrigger(i, a, pct.value);
    var all := Census(i.world, |i.world.accounts|, a.id, i.providerLimit && pct.Some?, PastIdleHold(i) || i.usageUnknown);
    var entry := FindEntry(all, a.id);
    WithTrigger(i, SettingsFor(i.world.settings), t.value, if pct.None? then i.unhealthyTicks + 1 else 0, all,
                if entry.Some? then entry.value else Entry(a, -1, None, None, None, false));
  }

  /** A switch carries the trigger it was decided for, unless it parks. */
  lemma WithTrigger(i: Input, settings: Settings, t: Trigger, ticks: int, all: seq<Entry>, active: Entry)
    ensures var d := DecideWith(i, settings, t, ticks, all, active);
            d.Switch? && d.trigger != Parking ==>
              && d.trigger == t && BreakerOf(i.suspension, i.rows, t, i.world.now, ticks).None?
              && exists barred :: var ranked := Ranked(all, active, t, barred, settings, i.world.now);
                                  ranked != [] && d.target == ranked[0].entry.account.id
  {
    hide Ranked, Measured;
    var back := NoReturnOf(i.last, t, all, active, i.world.now);
    var first := Ranked(all, active, t, back.barred, settings, i.world.now);
    var again := Ranked(all, active, t, None, settings, i.world.now);
  }

  /** A voluntary switch takes the head of some ranking of the whole fleet. */
  lemma VoluntaryShape(i: Input) returns (a: Account, active: Entry, barred: Option<string>)
    requires Voluntary(Decide(i))
    ensures i.active.Some? && FindAccount(i.world.accounts, i.active.value) == Some(a) && !a.dead
    ensures BindingPct(a.buckets).Some? && BindingPct(a.buckets).value < 100.0
    ensures KnownTrigger(i, a, BindingPct(a.buckets).value) == Some(Decide(i).trigger)
    ensures var all := Census(i.world, |i.world.accounts|, a.id, false, false);
            && FindEntry(all, a.id) == Some(active)
            && var ranked := Ranked(all, active, Decide(i).trigger, barred, SettingsFor(i.world.settings), i.world.now);
               ranked != [] && Decide(i).target == ranked[0].entry.account.id
  {
    hide Decide, Ranked, Census, BindingPct, SettingsFor, KnownTrigger, FindEntry, DecideWith;
    a := VoluntaryReads(i);
    FindsMember(i.world.accounts, i.active.value);
    var all := Census(i.world, |i.world.accounts|, a.id, false, false);
    var t := Decide(i).trigger;
    CensusReads(i.world, |i.world.accounts|, a.id);
    assert i.world.accounts[..|i.world.accounts|] == i.world.accounts;
    FindsEntry(all, a.id);
    active := FindEntry(all, a.id).value;
    WithTrigger(i, SettingsFor(i.world.settings), t, 0, all, active);
    barred :| var ranked := Ranked(all, active, t, barred, SettingsFor(i.world.settings), i.world.now);
              ranked != [] && Decide(i).target == ranked[0].entry.account.id;
  }

  // ----- the order every voluntary switch climbs ------------------------------------------------------

  ghost predicate AllOver(w: World) {
    forall a :: a in w.accounts && !a.dead && Reading(w, a).headroom.Some? ==> Over(Reading(w, a))
  }

  ghost predicate SpentFleet(w: World) {
    forall a :: a in w.accounts && !a.dead && Reading(w, a).headroom.Some? ==> Reading(w, a).headroom.value <= SPENT
  }

  /** `b` is a strictly better place to be than `a`. */
  ghost predicate Better(w: World, a: Account, b: Account) {
    var x, y := Reading(w, a), Reading(w, b);
    if !AllOver(w) then
      !Over(y) && (Over(x) || ExpiresFirst(WeeklyReset(b, w.now), WeeklyReset(a, w.now)))
    else if SpentFleet(w) then
      Sooner(y.recovery, x.recovery, 0.0)
    else if Near(x.recovery, w.now) || Near(y.recovery, w.now) then
      Near(y.recovery, w.now) && Sooner(y.recovery, x.recovery, 0.0)
    else
      || y.headroom.GetOr(0.0) > x.headroom.GetOr(0.0)
      || (y.headroom == x.headroom && Sooner(y.recovery, x.recovery, 0.0))
  }

  lemma BetterIrreflexive(w: World, a: Account)
    ensures !Better(w, a, a)
  {
  }

  lemma BetterTransitive(w: World, a: Account, b: Account, c: Account)
    requires Better(w, a, b) && Better(w, b, c)
    ensures Better(w, a, c)
  {
    hide Reading;
  }

  /** The active entry and the measured others are the whole measured fleet, as read. */
  ghost predicate IsFleet(w: World, active: Entry, measured: seq<Entry>) {
    && active.account in w.accounts && Reads(w, active, active.account)
    && (forall e :: e in measured ==> e.account in w.accounts && Reads(w, e, e.account) && e.headroom.Some?)
    && (forall b :: b in w.accounts && !b.dead && Reading(w, b).headroom.Some? && b != active.account ==>
          exists e :: e in measured && e.account == b)
  }

  lemma MeasuredIsFleet(w: World, a: Account, active: Entry, all: seq<Entry>)
    requires a in w.accounts && !a.dead && all == Census(w, |w.accounts|, a.id, false, false)
    requires DistinctIds(w.accounts) && FindEntry(all, a.id) == Some(active)
    ensures active.account == a && IsFleet(w, active, Measured(all, a.id))
  {
    hide Reading, Census, FindEntry, FindAccount, Measured, DistinctIds;
    CensusReads(w, |w.accounts|, a.id);
    assert w.accounts[..|w.accounts|] == w.accounts;
    FindsEntry(all, a.id);
    FindsMember(w.accounts, a.id);
    MeasuredMembers(all, a.id);
    forall b | b in w.accounts && !b.dead && Reading(w, b).headroom.Some? && b != a
      ensures exists e :: e in Measured(all, a.id) && e.account == b
    {
      FindsMember(w.accounts, b.id);
      var e :| e in all && e.account == b;
      assert Reads(w, e, b);
      assert e in Measured(all, a.id);
    }
  }

  /** What the race knows of the fleet is true of the whole fleet, whoever is active. */
  lemma RaceSeesFleet(w: World, active: Entry, measured: seq<Entry>)
    requires IsFleet(w, active, measured) && active.headroom.Some?
    ensures (Over(active) && forall e :: e in measured ==> Over(e)) <==> AllOver(w)
    ensures (active.headroom.value <= SPENT && BestHeadroom(measured) <= SPENT) <==> SpentFleet(w)
  {
    hide Reading;
    BestIsHighest(measured);
    assert forall e :: e in measured ==> Reads(w, e, e.account);
  }

  /** The head of a ranking passed it. */
  lemma HeadPasses(all: seq<Entry>, active: Entry, t: Trigger, barred: Option<string>, settings: Settings, now: real) returns (e: Entry)
    requires Ranked(all, active, t, barred, settings, now) != []
    ensures e == Ranked(all, active, t, barred, settings, now)[0].entry
    ensures e in Measured(all, active.account.id) && Passes(RaceOf(all, active, t, barred, settings, now), e)
  {
    var race, measured := RaceOf(all, active, t, barred, settings, now), Measured(all, active.account.id);
    var slate := ConsiderAll(race, measured);
    var kept := if slate.qualified != [] then slate.qualified else slate.fallback;
    SortMembers(kept);
    KeptIffPasses(race, measured);
    e := SortKeyed(kept)[0].entry;
    hide Passes;
    assert SortKeyed(kept)[0] in kept;
    assert SortKeyed(kept)[0] in slate.qualified + slate.fallback;
    assert Kept(slate, e);
  }

  /** A ranking is empty only when nobody measured passes. */
  lemma NobodyLeftOut(all: seq<Entry>, active: Entry, t: Trigger, barred: Option<string>, settings: Settings, now: real, e: Entry)
    requires e in Measured(all, active.account.id) && Passes(RaceOf(all, active, t, barred, settings, now), e)
    ensures Ranked(all, active, t, barred, settings, now) != []
  {
    var race, measured := RaceOf(all, active, t, barred, settings, now), Measured(all, active.account.id);
    KeptIffPasses(race, measured);
    var slate := ConsiderAll(race, measured);
    assert Kept(slate, e);
    var kept := if slate.qualified != [] then slate.qualified else slate.fallback;
    SortMembers(kept);
    assert kept[0] in SortKeyed(kept);
  }

  /** The entries a voluntary switch weighed against each other, as this world reads them. */
  lemma VoluntaryTarget(i: Input) returns (a: Account, active: Entry, barred: Option<string>, e: Entry)
    requires Voluntary(Decide(i)) && DistinctIds(i.world.accounts)
    ensures a in i.world.accounts && i.active == Some(a.id) && active.account == a && Reads(i.world, active, a)
    ensures e.account in i.world.accounts && Decide(i).target == e.account.id && Reads(i.world, e, e.account) && e.headroom.Some?
    ensures BindingPct(a.buckets).Some? && BindingPct(a.buckets).value < 100.0
    ensures KnownTrigger(i, a, BindingPct(a.buckets).value) == Some(Decide(i).trigger)
    ensures var all := Census(i.world, |i.world.accounts|, a.id, false, false);
            && IsFleet(i.world, active, Measured(all, a.id)) && Measured(all, a.id) != []
            && Passes(RaceOf(all, active, Decide(i).trigger, barred, SettingsFor(i.world.settings), i.world.now), e)
  {
    hide Decide, Ranked, Passes, Measured, IsFleet, Census, FindEntry, DistinctIds;
    var w, t := i.world, Decide(i).trigger;
    a, active, barred := VoluntaryShape(i);
    FindsMember(w.accounts, i.active.value);
    var all := Census(w, |w.accounts|, a.id, false, false);
    CensusReads(w, |w.accounts|, a.id);
    assert w.accounts[..|w.accounts|] == w.accounts;
    MeasuredIsFleet(w, a, active, all);
    FindsEntry(all, a.id);
    e := HeadPasses(all, active, t, barred, SettingsFor(w.settings), w.now);
    MeasuredMembers(all, a.id);
    assert Reads(w, active, active.account) && Reads(w, e, e.account);
  }

  /** Every voluntary switch leads to a better account. */
  lemma VoluntaryProgress(i: Input) returns (a: Account, b: Account)
    requires Voluntary(Decide(i)) && DistinctIds(i.world.accounts)
    requires i.burnRequested ==> i.world.settings.strategy == ConsumeFirst
    ensures a in i.world.accounts && i.active == Some(a.id)
    ensures b in i.world.accounts && Decide(i).target == b.id
    ensures Better(i.world, a, b)
  {
    hide Decide, Ranked, Passes, Better, Measured, AllOver, SpentFleet, IsFleet, Census, FindEntry, DistinctIds;
    var w := i.world;
    var active, barred, e;
    a, active, barred, e := VoluntaryTarget(i);
    b := e.account;
    var all := Census(w, |w.accounts|, a.id, false, false);
    RaceSeesFleet(w, active, Measured(all, a.id));
    PassingIsProgress(i, a, b, active, e, RaceOf(all, active, Decide(i).trigger, barred, SettingsFor(w.settings), w.now));
  }

  lemma PassingIsProgress(i: Input, a: Account, b: Account, active: Entry, e: Entry, race: Race)
    requires Reads(i.world, active, a) && Reads(i.world, e, b) && active.headroom.Some? && active.headroom.value > 0.0 && e.headroom.Some?
    requires race.active == active && race.now == i.world.now && race.settings.strategy == i.world.settings.strategy
    requires race.trigger == Proactive <==> Over(active)
    requires race.trigger == Proactive || (race.trigger == Burn && race.settings.strategy == ConsumeFirst)
    requires race.allAbove <==> AllOver(i.world)
    requires AllOver(i.world) ==> Over(active)
    requires (active.headroom.value <= SPENT && race.best <= SPENT) <==> SpentFleet(i.world)
    requires Passes(race, e)
    ensures Better(i.world, a, b)
  {
    hide Reading, AllOver, SpentFleet, WeeklyReset;
  }

  // ----- runs -------------------------------------------------------------------------------------------

  /** Ticks over one unchanging world: each moves voluntarily, and the next finds it there. */
  ghost predicate VoluntaryRun(w: World, burnRequested: bool, ticks: seq<Input>) {
    && (forall k :: 0 <= k < |ticks| ==> ticks[k].world == w && ticks[k].burnRequested == burnRequested && Voluntary(Decide(ticks[k])))
    && (forall k :: 0 < k < |ticks| ==> ticks[k].active == Some(Target(Decide(ticks[k - 1]))))
  }

  /** The account a run is on before its `k`th tick, or after its last. */
  ghost function Visited(ticks: seq<Input>, k: nat): string
    requires ticks != [] && k <= |ticks|
  {
    if k < |ticks| then ticks[k].active.GetOr("") else Target(Decide(ticks[|ticks| - 1]))
  }

  function Target(d: Decision): string { if d.Switch? then d.target else "" }

  /** The requested policy does not compare what it should. */
  predicate Unordered(settings: Request, burnRequested: bool) { burnRequested && settings.strategy == Best }

  lemma {:induction false} RunClimbs(w: World, burnRequested: bool, ticks: seq<Input>, j: nat, k: nat) returns (a: Account, b: Account)
    requires VoluntaryRun(w, burnRequested, ticks) && DistinctIds(w.accounts) && !Unordered(w.settings, burnRequested)
    requires j < k <= |ticks|
    ensures a in w.accounts && b in w.accounts && a.id == Visited(ticks, j) && b.id == Visited(ticks, k) && Better(w, a, b)
    decreases k
  {
    hide Decide, Better;
    var c;
    c, b := VoluntaryProgress(ticks[k - 1]);
    if j == k - 1 {
      a := c;
    } else {
      var d;
      a, d := RunClimbs(w, burnRequested, ticks, j, k - 1);
      FindsMember(w.accounts, d.id);
      BetterTransitive(w, a, c, b);
    }
  }

  /**
   No flapping: with readings, settings and clock held still, and whatever the recorded history
   of each tick says, a run of voluntary switches never visits an account twice.
   */
  lemma NoFlapping(w: World, burnRequested: bool, ticks: seq<Input>, j: nat, k: nat)
    requires VoluntaryRun(w, burnRequested, ticks) && DistinctIds(w.accounts) && !Unordered(w.settings, burnRequested)
    requires j < k <= |ticks|
    ensures Visited(ticks, j) != Visited(ticks, k)
  {
    hide Decide, Better;
    var a, b := RunClimbs(w, burnRequested, ticks, j, k);
    FindsMember(w.accounts, a.id);
    BetterIrreflexive(w, a);
  }

  lemma {:induction false} DistinctSet(ids: seq<string>, pool: set<string>)
    requires forall i, j :: 0 <= i < j < |ids| ==> ids[i] != ids[j]
    requires forall i :: 0 <= i < |ids| ==> ids[i] in pool
    ensures |ids| <= |pool|
  {
    if ids != [] {
      var last := ids[|ids| - 1];
      DistinctSet(ids[..|ids| - 1], pool - {last});
    }
  }

  lemma {:induction false} IdSet(accounts: seq<Account>)
    ensures |(set a | a in accounts :: a.id)| <= |accounts|
  {
    if accounts != [] {
      IdSet(accounts[1..]);
      assert accounts == [accounts[0]] + accounts[1..];
      assert (set a | a in accounts :: a.id) == {accounts[0].id} + (set a | a in accounts[1..] :: a.id);
    }
  }

  /** So a run ends: it is shorter than the fleet. */
  lemma RunsAreShort(w: World, burnRequested: bool, ticks: seq<Input>)
    requires VoluntaryRun(w, burnRequested, ticks) && DistinctIds(w.accounts) && !Unordered(w.settings, burnRequested)
    ensures ticks != [] ==> |ticks| < |w.accounts|
  {
    hide Decide, Better;
    if ticks != [] {
      var ids := seq(|ticks| + 1, k requires 0 <= k < |ticks| + 1 => Visited(ticks, k));
      var pool := set a | a in w.accounts :: a.id;
      forall i, j | 0 <= i < j < |ids| ensures ids[i] != ids[j] { NoFlapping(w, burnRequested, ticks, i, j); }
      forall i | 0 <= i < |ids| ensures ids[i] in pool {
        if i < |ticks| { var a, b := RunClimbs(w, burnRequested, ticks, i, |ticks|); }
        else { var a, b := RunClimbs(w, burnRequested, ticks, 0, |ticks|); }
      }
      DistinctSet(ids, pool);
      IdSet(w.accounts);
    }
  }

  /** Accounts that recover within the horizon absorb: from one of them, only to a sooner one. */
  lemma HorizonAbsorbs(i: Input) returns (a: Account, b: Account)
    requires Voluntary(Decide(i)) && DistinctIds(i.world.accounts)
    requires i.burnRequested ==> i.world.settings.strategy == ConsumeFirst
    ensures a in i.world.accounts && i.active == Some(a.id) && b in i.world.accounts && Decide(i).target == b.id
    ensures AllOver(i.world) && Near(Reading(i.world, a).recovery, i.world.now) ==>
              && Near(Reading(i.world, b).recovery, i.world.now)
              && Sooner(Reading(i.world, b).recovery, Reading(i.world, a).recovery, 0.0)
  {
    hide Decide, Reading, AllOver, SpentFleet;
    a, b := VoluntaryProgress(i);
  }

  /** Below-the-line targets must gain the hysteresis: no proactive switch for less line headroom. */
  lemma ProactiveGains(i: Input) returns (a: Account, b: Account)
    requires Voluntary(Decide(i)) && Decide(i).trigger == Proactive && DistinctIds(i.world.accounts) && i.world.settings.strategy == Best
    ensures a in i.world.accounts && i.active == Some(a.id) && b in i.world.accounts && Decide(i).target == b.id
    ensures !AllOver(i.world) ==>
              var x, y := Reading(i.world, a), Reading(i.world, b);
              x.binding.Some? && (y.binding.Some? ==>
                y.binding.value.headroom - x.binding.value.headroom >= SettingsFor(i.world.settings).hysteresis)
  {
    hide Decide, Ranked, Passes, Measured, AllOver, SpentFleet, IsFleet, Census, FindEntry, DistinctIds;
    var w := i.world;
    var active, barred, e;
    a, active, barred, e := VoluntaryTarget(i);
    b := e.account;
    RaceSeesFleet(w, active, Measured(Census(w, |w.accounts|, a.id, false, false), a.id));
    if !AllOver(w) {
      PassingGains(RaceOf(Census(w, |w.accounts|, a.id, false, false), active, Proactive, barred, SettingsFor(w.settings), w.now), e);
    }
  }

  lemma PassingGains(race: Race, e: Entry)
    requires Passes(race, e) && race.trigger == Proactive && race.settings.strategy == Best && !race.allAbove
    ensures race.active.binding.Some? && e.binding.Some? ==>
              e.binding.value.headroom - race.active.binding.value.headroom >= race.settings.hysteresis
  {
  }

  /** The account just left, while it has not recovered, is not where a voluntary switch goes. */
  lemma NoReturnUnrecovered(i: Input) returns (active: Entry)
    requires Voluntary(Decide(i))
    ensures i.active.Some? && active.account.id == i.active.value
    ensures FindEntry(Census(i.world, |i.world.accounts|, i.active.value, false, false), i.active.value) == Some(active)
    ensures i.last.from.Some? && (i.last.to.Some? ==> i.last.to == i.active)
            && !Recovered(i.last, FindEntry(Census(i.world, |i.world.accounts|, i.active.value, false, false), i.last.from.value), active, i.world.now)
            ==> Decide(i).target != i.last.from.value
  {
    hide BindingPct, BindingFor, Census, Ranked, Recovered, BreakerOf, ParkedOf, Measured, SettingsFor, KnownTrigger, Passes;
    var a := VoluntaryReads(i);
    FindsMember(i.world.accounts, i.active.value);
    var all := Census(i.world, |i.world.accounts|, a.id, false, false);
    CensusReads(i.world, |i.world.accounts|, a.id);
    assert i.world.accounts[..|i.world.accounts|] == i.world.accounts;
    FindsEntry(all, a.id);
    active := FindEntry(all, a.id).value;
    hide Decide;
    BarredIsSkipped(i, SettingsFor(i.world.settings), Decide(i).trigger, 0, all, active);
  }

  /** Barred and not recovered means not ranked at all. */
  lemma BarredIsSkipped(i: Input, settings: Settings, t: Trigger, ticks: int, all: seq<Entry>, active: Entry)
    ensures var d, back := DecideWith(i, settings, t, ticks, all, active), NoReturnOf(i.last, t, all, active, i.world.now);
            d.Switch? && d.trigger != Parking && back.barred.Some? && !back.recovered ==> d.target != back.barred.value
  {
    hide Measured, NoReturnOf, Ranked, Passes, CountSince;
    var d, back := DecideWith(i, settings, t, ticks, all, active), NoReturnOf(i.last, t, all, active, i.world.now);
    if d.Switch? && d.trigger != Parking && back.barred.Some? && !back.recovered && Ranked(all, active, t, back.barred, settings, i.world.now) != [] {
      var e := HeadPasses(all, active, t, back.barred, settings, i.world.now);
      PassesIsNotBarred(RaceOf(all, active, t, back.barred, settings, i.world.now), e);
    }
  }

  lemma PassesIsNotBarred(r: Race, e: Entry)
    requires Passes(r, e)
    ensures r.barred != Some(e.account.id)
  {
  }

  // ----- whoever is chosen --------------------------------------------------------------------------------

  lemma {:induction false} CensusMembers(w: World, n: nat, activeId: string, limit: bool, unknown: bool)
    requires n <= |w.accounts|
    ensures forall e :: e in Census(w, n, activeId, limit, unknown) ==>
              && e.account in w.accounts[..n] && !e.account.dead
              && (e.account.id != activeId ==> e.headroom == if BindingPct(e.account.buckets).None? then None
                                                              else Some(100.0 - BindingPct(e.account.buckets).value))
  {
    if n > 0 {
      CensusMembers(w, n - 1, activeId, limit, unknown);
      assert w.accounts[..n] == w.accounts[..n - 1] + [w.accounts[n - 1]];
    }
  }

  /** Every switch but a parking one goes to another living account with known room. */
  lemma SwitchesToRoom(i: Input) returns (b: Account)
    requires Decide(i).Switch? && Decide(i).trigger != Parking
    ensures i.active.Some? && b in i.world.accounts && b.id == Decide(i).target != i.active.value && !b.dead
    ensures BindingPct(b.buckets).Some? && BindingPct(b.buckets).value < 100.0
  {
    hide BindingPct, BindingFor, Census, FindEntry, FindAccount, NoReturnOf, Ranked, BreakerOf, ParkedOf, Measured, SettingsFor, DecideWith, KnownTrigger, Passes;
    var a := FindAccount(i.world.accounts, i.active.value).value;
    FindsMember(i.world.accounts, i.active.value);
    var pct := if a.dead || PastIdleHold(i) || i.usageUnknown then None else BindingPct(a.buckets);
    var t := if pct.None? then Some(Failover) else KnownTrigger(i, a, pct.value);
    var limit, unknown := i.providerLimit && pct.Some?, PastIdleHold(i) || i.usageUnknown;
    var all := Census(i.world, |i.world.accounts|, a.id, limit, unknown);
    var entry := FindEntry(all, a.id);
    FindsEntry(all, a.id);
    var active := if entry.Some? then entry.value else Entry(a, -1, None, None, None, false);
    b := RoomOfHead(i, t.value, if pct.None? then i.unhealthyTicks + 1 else 0, all, active, limit, unknown);
  }

  lemma RoomOfHead(i: Input, t: Trigger, ticks: int, all: seq<Entry>, active: Entry, limit: bool, unknown: bool) returns (b: Account)
    requires all == Census(i.world, |i.world.accounts|, active.account.id, limit, unknown)
    requires var d := DecideWith(i, SettingsFor(i.world.settings), t, ticks, all, active); d.Switch? && d.trigger != Parking
    ensures var d := DecideWith(i, SettingsFor(i.world.settings), t, ticks, all, active);
            b in i.world.accounts && b.id == d.target != active.account.id && !b.dead
    ensures BindingPct(b.buckets).Some? && BindingPct(b.buckets).value < 100.0
  {
    var settings := SettingsFor(i.world.settings);
    WithTrigger(i, settings, t, ticks, all, active);
    hide DecideWith, Ranked, Census, BindingPct, Measured, SettingsFor;
    var barred :| var ranked := Ranked(all, active, t, barred, settings, i.world.now);
                  ranked != [] && DecideWith(i, settings, t, ticks, all, active).target == ranked[0].entry.account.id;
    var e := HeadPasses(all, active, t, barred, settings, i.world.now);
    MeasuredMembers(all, active.account.id);
    CensusMembers(i.world, |i.world.accounts|, active.account.id, limit, unknown);
    b := e.account;
  }

  /** The recovery of an exhausted account is its last exhausted window's, when all are known. */
  lemma {:induction false} LatestResetMeaning(buckets: seq<Bucket>)
    ensures var r := LatestReset(buckets);
            && (r.Some? ==> exists b :: b in buckets && Spent(b) && b.resetAt == Num(r.value))
            && (forall b :: b in buckets && Spent(b) && b.resetAt.Num? ==> r.Some? && b.resetAt.v <= r.value)
  {
    if buckets != [] {
      var init, last := buckets[..|buckets| - 1], buckets[|buckets| - 1];
      assert buckets == init + [last];
      LatestResetMeaning(init);
      var r := LatestReset(buckets);
      if r.Some? {
        if r == LatestReset(init) {
          var b :| b in init && Spent(b) && b.resetAt == Num(r.value);
          assert b in buckets;
        } else {
          assert last in buckets && last.resetAt == Num(r.value);
        }
      }
    }
  }

  /** The account is back when the last of its exhausted windows is; unknown if any of them is. */
  lemma ExhaustedRecoveryMeaning(buckets: seq<Bucket>, now: real, r: real)
    ensures ExhaustedRecovery(buckets, now) == Some(r) <==>
            && (exists b :: b in buckets && Spent(b) && b.resetAt == Num(r))
            && (forall b :: b in buckets && Spent(b) ==> b.resetAt.Num? && now < b.resetAt.v <= r)
  {
    LatestResetMeaning(buckets);
  }

  lemma {:induction false} WithResetsMembers(all: seq<Entry>, now: real)
    ensures forall k :: k in WithResets(all, now) ==> k.entry in all && k.key == [ExhaustedRecovery(k.entry.account.buckets, now)] && k.key[0].Some?
    ensures forall e :: e in all && ExhaustedRecovery(e.account.buckets, now).Some? ==> Keyed(e, [ExhaustedRecovery(e.account.buckets, now)]) in WithResets(all, now)
  {
    if all != [] {
      WithResetsMembers(all[..|all| - 1], now);
      assert all == all[..|all| - 1] + [all[|all| - 1]];
    }
  }

  /** An exhausted fleet parks on the account that comes back first. */
  lemma ParksOnSoonest(all: seq<Entry>, active: Entry, parkedUntil: Option<real>, now: real, ticks: int, e: Entry)
    requires e in all && ExhaustedRecovery(e.account.buckets, now).Some?
    ensures var d := ParkedOf(all, active, parkedUntil, now, ticks);
            var soonest := ExhaustedRecovery(e.account.buckets, now).value;
            || (d.Parked? && d.resetAt <= soonest && exists t :: t in all && t.account.id == d.account && ExhaustedRecovery(t.account.buckets, now) == Some(d.resetAt))
            || (d.Switch? && d.parkedUntil.Some? && d.parkedUntil.value <= soonest && d.target != active.account.id
                && exists t :: t in all && t.account.id == d.target && ExhaustedRecovery(t.account.buckets, now) == d.parkedUntil)
  {
    hide ExhaustedRecovery;
    var items := WithResets(all, now);
    WithResetsMembers(all, now);
    var mine := Keyed(e, [ExhaustedRecovery(e.account.buckets, now)]);
    FirstIsBest(items, mine);
    var head := SortKeyed(items)[0];
    assert head.entry in all;
    assert CompareKeys(head.key, mine.key) != More;
    assert CompareTimes(head.key[0], mine.key[0]) != More;
  }

  // ----- the one policy that flaps --------------------------------------------------------------------------

  function Unused(id: string): Account {
    Account(id, [Bucket("5h", Some(0.0), Missing)], false, None, Missing, None, None)
  }

  function UnusedPair(settings: Request): World { World([Unused("a"), Unused("b")], 0.0, settings) }

  lemma UnusedReading(w: World, id: string, index: int)
    ensures var e := EntryFor(w, Unused(id), index, false, false);
            e.headroom == Some(100.0) && e.recovery.None? && !e.exhausted && e.binding.Some? && !e.binding.value.over
  {
    var bs := Unused(id).buckets;
    assert bs[..0] == [];
    assert BindingPct(bs) == Some(0.0);
    var settings := SettingsFor(w.settings);
    var weekly := if settings.weekly.None? then None else Some(Clamp(settings.weekly, settings.threshold, 50.0, 99.9));
    assert BindingOf(bs, settings.threshold, weekly, settings.threshold) == Some(WindowOf(bs[0], settings.threshold, weekly, settings.threshold));
  }

  lemma UnusedMeasured(all: seq<Entry>, active: Entry, other: Entry)
    requires all == [active, other] || all == [other, active]
    requires active.account.id != other.account.id && other.headroom.Some?
    ensures Measured(all, active.account.id) == [other]
  {
    assert all[..1] == [all[0]] && [all[0]][..0] == [];
    var first := if all[0] == other then [other] else [];
    assert Measured([all[0]], active.account.id) == Measured([], active.account.id) + first;
  }

  /** With one unused peer, the only candidate qualifies unless it is barred. */
  lemma UnusedRanking(all: seq<Entry>, active: Entry, other: Entry, barred: Option<string>, settings: Settings, now: real)
    requires Measured(all, active.account.id) == [other]
    requires other.headroom == Some(100.0) && !Over(active) && !Over(other) && settings.strategy == Best
    ensures var ranked := Ranked(all, active, Burn, barred, settings, now);
            if barred == Some(other.account.id) then ranked == [] else ranked != [] && ranked[0].entry == other
  {
    hide WeeklyReset, CompareKeyed, Measured;
    var race := RaceOf(all, active, Burn, barred, settings, now);
    var key := [Some(-LineRoom(other))];
    var items := if barred == Some(other.account.id) then [] else [Keyed(other, key)];
    assert [other][..0] == [] && items != [] ==> items[..0] == [];
    assert ConsiderAll(race, []) == Slate([], []);
    assert Consider(race, Slate([], []), other) == Slate(items, []);
    assert ConsiderAll(race, [other]) == Slate(items, []);
    assert items != [] ==> SortKeyed(items) == InsertKeyed(items[0], SortKeyed(items[..0]));
  }

  /** A tick on one of two unused accounts, long after the last switch. */
  function UnusedTick(settings: Request, on: string, last: LastSwitch): Input {
    Input(UnusedPair(settings), Some(on), false, false, false, None, None, 0, None, last, Suspension(None, None, None), [], false, true)
  }

  function Other(id: string): string { if id == "a" then "b" else "a" }

  /** The history the engine itself records when it leaves an unused account. */
  function LeftUnused(from: string): LastSwitch {
    LastSwitch(Some(from), Some(Other(from)), Number(100.0), Null, Some(Burn))
  }

  lemma UnusedCensus(settings: Request, on: string)
    ensures var w := UnusedPair(settings);
            Census(w, 2, on, false, false) == [EntryFor(w, Unused("a"), 0, false, false), EntryFor(w, Unused("b"), 1, false, false)]
  {
    var w := UnusedPair(settings);
    hide EntryFor;
    assert Census(w, 0, on, false, false) == [];
    assert Census(w, 1, on, false, false) == [EntryFor(w, Unused("a"), 0, false, false)];
  }

  /** It leaves for the other one, even straight back. */
  lemma UnusedMoves(settings: Request, on: string, last: LastSwitch)
    requires settings.strategy == Best && (on == "a" || on == "b")
    requires last.from.None? || last == LeftUnused(Other(on))
    ensures Decide(UnusedTick(settings, on, last)) == Switch(Other(on), Burn, 0, None, Some(100.0), None)
  {
    var i, w := UnusedTick(settings, on, last), UnusedPair(settings);
    var a, b := EntryFor(w, Unused("a"), 0, false, false), EntryFor(w, Unused("b"), 1, false, false);
    UnusedReading(w, "a", 0);
    UnusedReading(w, "b", 1);
    UnusedCensus(settings, on);
    var all := [a, b];
    var active, other := if on == "a" then a else b, if on == "a" then b else a;
    assert all[1..] == [b];
    assert FindEntry(all, "b") == FindEntry(all[1..], "b") && w.accounts[1..] == [Unused("b")];
    assert FindAccount(w.accounts, "b") == FindAccount(w.accounts[1..], "b");
    UnusedMeasured(all, active, other);
    UnusedRanking(all, active, other, None, SettingsFor(settings), w.now);
    UnusedRanking(all, active, other, Some(Other(on)), SettingsFor(settings), w.now);
    hide Ranked, Census, BindingPct, BindingFor, EntryFor;
    UnusedDecides(i, active, other, all);
  }

  lemma UnusedDecides(i: Input, active: Entry, other: Entry, all: seq<Entry>)
    requires i.active == Some(active.account.id) && FindAccount(i.world.accounts, active.account.id) == Some(active.account)
    requires !active.account.dead && !i.credentialExpired && !i.usageUnknown && !i.providerLimit && !i.codexUnverified
    requires i.burnRequested && i.lastSwitchAt.None? && BindingPct(active.account.buckets) == Some(0.0)
    requires BindingFor(active.account, i.world.settings).Some? && !BindingFor(active.account, i.world.settings).value.over
    requires all == Census(i.world, |i.world.accounts|, active.account.id, false, false) && FindEntry(all, active.account.id) == Some(active)
    requires FindEntry(all, other.account.id) == Some(other) && active.account.id != other.account.id
    requires active.headroom == Some(100.0) && other.headroom == Some(100.0) && active.recovery.None?
    requires i.last.from.None? || i.last == LastSwitch(Some(other.account.id), Some(active.account.id), Number(100.0), Null, Some(Burn))
    requires var s := SettingsFor(i.world.settings);
             var free := Ranked(all, active, Burn, None, s, i.world.now);
             free != [] && free[0].entry == other && Ranked(all, active, Burn, Some(other.account.id), s, i.world.now) == []
    ensures Decide(i) == Switch(other.account.id, Burn, 0, None, Some(100.0), None)
  {
    hide Ranked, Census, BindingPct, BindingFor, FindEntry, FindAccount, SettingsFor, Measured, ParkedOf;
  }

  ghost predicate Flaps(w: World, burnRequested: bool, ticks: seq<Input>) {
    && DistinctIds(w.accounts) && VoluntaryRun(w, burnRequested, ticks)
    && exists j, k :: 0 <= j < k <= |ticks| && Visited(ticks, j) == Visited(ticks, k)
  }

  /** Two voluntary ticks that lead back flap. */
  lemma ReturnFlaps(w: World, burnRequested: bool, first: Input, second: Input)
    requires DistinctIds(w.accounts) && first.world == w && second.world == w
    requires first.burnRequested == burnRequested && second.burnRequested == burnRequested
    requires Voluntary(Decide(first)) && Voluntary(Decide(second))
    requires second.active == Some(Decide(first).target) && first.active == Some(Decide(second).target)
    ensures Flaps(w, burnRequested, [first, second])
  {
    hide Decide, DistinctIds;
    var ticks := [first, second];
    assert Visited(ticks, 0) == Visited(ticks, 2);
  }

  lemma UnusedPairFlaps(settings: Request) returns (ticks: seq<Input>)
    requires settings.strategy == Best
    ensures Flaps(UnusedPair(settings), true, ticks)
  {
    hide Decide, Flaps;
    var none := LastSwitch(None, None, Unset, Unset, None);
    var first, second := UnusedTick(settings, "a", none), UnusedTick(settings, "b", LeftUnused("a"));
    UnusedMoves(settings, "a", none);
    UnusedMoves(settings, "b", LeftUnused("a"));
    ReturnFlaps(UnusedPair(settings), true, first, second);
    ticks := [first, second];
  }

  /** Some fleet and history flap exactly under consume-first requested on top of the plain strategy. */
  lemma FlappingIff(settings: Request, burnRequested: bool)
    ensures (exists w: World, ticks :: w.settings == settings && Flaps(w, burnRequested, ticks)) <==> Unordered(settings, burnRequested)
  {
    hide Decide, VoluntaryRun, Visited;
    if Unordered(settings, burnRequested) {
      var ticks := UnusedPairFlaps(settings);
      assert UnusedPair(settings).settings == settings;
    }
    forall w: World, ticks | w.settings == settings && Flaps(w, burnRequested, ticks) ensures Unordered(settings, burnRequested) {
      var j, k :| 0 <= j < k <= |ticks| && Visited(ticks, j) == Visited(ticks, k);
      if !Unordered(settings, burnRequested) { NoFlapping(w, burnRequested, ticks, j, k); }
    }
  }
}
