/**
 What a planned re-key does: exactly when its guard can fire, that nothing is stranded or
 lost, that the freshest readings win, and that planning again finds nothing to do.
 */
module CodexRekeyProofs {
  import opened Prelude
  import opened CodexRekey

  /** Slot ids are composite, the account ids they belong to are not. */
  ghost predicate WellKeyed(c: Context) {
    forall s :: s in c.slots ==> Composite(s) && !Composite(c.slots[s])
  }

  /** Legacy ids lead to composite ones: no id is both left and entered. */
  ghost predicate OneWay(moves: seq<Move>) {
    && (forall k :: 0 <= k < |moves| ==> !Composite(moves[k].from) && Composite(moves[k].to))
    && (forall j, k :: 0 <= j < k < |moves| ==> moves[j].from != moves[k].from)
  }

  /** Everything that makes an id move. */
  ghost predicate MovesTo(t: Tables, c: Context, id: string, to: string) {
    && IsCandidate(t, c, id) && Targets(c, id) == {to} && !c.recoveryPending && !c.untrusted
    && !Busy(t, c, to) && SafetyOf(c, id) == Safe && (to in t.accounts ==> t.accounts[to].provider == Some(CODEX))
  }

  lemma VerdictMeaning(t: Tables, c: Context, id: string, to: string)
    ensures VerdictFor(t, c, id) == MoveTo(to) <==> MovesTo(t, c, id, to)
  {
    hide Busy, DependentIds;
    if VerdictFor(t, c, id) == MoveTo(to) {
      forall s | s in Targets(c, id) ensures s == to { assert to in Targets(c, id); }
    }
    if MovesTo(t, c, id, to) {
      assert to in Targets(c, id);
    }
  }

  lemma CandidateIsLegacy(t: Tables, c: Context, id: string)
    requires WellKeyed(c) && IsCandidate(t, c, id)
    ensures !Composite(id)
  {
    assert !Composite(LEGACY);
  }

  lemma MoveMeans(t: Tables, c: Context, id: string, to: string)
    requires WellKeyed(c) && VerdictFor(t, c, id) == MoveTo(to)
    ensures MovesTo(t, c, id, to) && !Composite(id) && Composite(to)
  {
    VerdictMeaning(t, c, id, to);
    CandidateIsLegacy(t, c, id);
    assert to in Targets(c, id);
  }

  lemma PlanIsOneWay(t: Tables, c: Context, moves: seq<Move>)
    requires WellKeyed(c) && IsPlan(t, c, moves)
    ensures OneWay(moves)
  {
    forall k | 0 <= k < |moves| ensures !Composite(moves[k].from) && Composite(moves[k].to) {
      MoveMeans(t, c, moves[k].from, moves[k].to);
    }
  }

  // ----- ids that a move does not touch --------------------------------------------------------

  /** Every table says the same about `id` in both states. */
  ghost predicate SameFor(t: Tables, u: Tables, id: string) {
    && (id in t.claims <==> id in u.claims) && (id in t.claims ==> t.claims[id] == u.claims[id])
    && (id in t.leases <==> id in u.leases) && (id in t.leases ==> t.leases[id] == u.leases[id])
    && (id in t.polls <==> id in u.polls) && (id in t.polls ==> t.polls[id] == u.polls[id])
    && (forall b :: GaugeKey(id, b) in t.gauges <==> GaugeKey(id, b) in u.gauges)
    && (forall b :: GaugeKey(id, b) in t.gauges ==> t.gauges[GaugeKey(id, b)] == u.gauges[GaugeKey(id, b)])
    && (forall r: Loose :: r.account == id ==> (r in t.loose <==> r in u.loose))
    && (forall o: Override :: o.account == id ==> (o in t.overrides <==> o in u.overrides))
    && (id in t.accounts <==> id in u.accounts) && (id in t.accounts ==> t.accounts[id] == u.accounts[id])
  }

  lemma LooseMembers(rows: seq<Loose>, from: string, to: string, r: Loose)
    requires from != to
    ensures r in LooseAfter(rows, from, to) <==>
              (r in rows && r.account != from) || (r.account == to && r.(account := from) in rows)
  {
    var after := LooseAfter(rows, from, to);
    if r in after {
      var k :| 0 <= k < |after| && after[k] == r;
      assert rows[k] in rows && (rows[k].account == from ==> r.(account := from) == rows[k]);
    }
    if r in rows && r.account != from {
      var k :| 0 <= k < |rows| && rows[k] == r;
      assert after[k] == r;
    }
    if r.account == to && r.(account := from) in rows {
      var k :| 0 <= k < |rows| && rows[k] == r.(account := from);
      assert after[k] == r;
    }
  }

  lemma RenamedMembers(rows: seq<Override>, from: string, to: string, o: Override)
    requires from != to
    ensures o in Renamed(rows, from, to) <==>
              (o in rows && o.account != from) || (o.account == to && o.(account := from) in rows)
  {
    var after := Renamed(rows, from, to);
    if o in after {
      var k :| 0 <= k < |after| && after[k] == o;
      assert rows[k] in rows && (rows[k].account == from ==> o.(account := from) == rows[k]);
    }
    if o in rows && o.account != from {
      var k :| 0 <= k < |rows| && rows[k] == o;
      assert after[k] == o;
    }
    if o.account == to && o.(account := from) in rows {
      var k :| 0 <= k < |rows| && rows[k] == o.(account := from);
      assert after[k] == o;
    }
  }

  lemma {:induction false} DeduplicatedMembers(rows: seq<Override>, to: string)
    ensures forall o :: o in Deduplicated(rows, to) <==> o in rows
    ensures forall i, j :: 0 <= i < j < |Deduplicated(rows, to)| && Deduplicated(rows, to)[i].account == to ==>
              Deduplicated(rows, to)[i] != Deduplicated(rows, to)[j]
  {
    if rows != [] {
      DeduplicatedMembers(rows[..|rows| - 1], to);
      assert rows == rows[..|rows| - 1] + [rows[|rows| - 1]];
    }
  }

  lemma OverrideMembers(rows: seq<Override>, from: string, to: string, o: Override)
    requires from != to
    ensures o in OverridesAfter(rows, from, to) <==>
              (o in rows && o.account != from) || (o.account == to && o.(account := from) in rows)
  {
    DeduplicatedMembers(Renamed(rows, from, to), to);
    RenamedMembers(rows, from, to, o);
  }

  lemma MoveLeavesOthers(t: Tables, m: Move, now: int, id: string)
    requires m.from != m.to && id != m.from && id != m.to
    ensures SameFor(t, MoveAfter(t, m, now), id)
  {
    var u := MoveAfter(t, m, now);
    forall r: Loose | r.account == id ensures r in t.loose <==> r in u.loose { LooseMembers(t.loose, m.from, m.to, r); }
    forall o: Override | o.account == id ensures o in t.overrides <==> o in u.overrides { OverrideMembers(t.overrides, m.from, m.to, o); }
  }

  /** Nothing of the source stays, but a lease or claim that could neither move nor be dropped. */
  lemma MoveClearsSource(t: Tables, m: Move, now: int)
    requires m.from != m.to
    ensures var u := DependentsAfter(t, m.from, m.to, now);
            m.from in DependentIds(u) <==>
              || (m.from in t.claims && m.to in t.claims && !Ended(t.claims[m.from], now))
              || (m.from in t.leases && m.to in t.leases && !Ended(t.leases[m.from], now))
  {
    var u := DependentsAfter(t, m.from, m.to, now);
    forall r | r in u.loose ensures r.account != m.from { LooseMembers(t.loose, m.from, m.to, r); }
    forall o | o in u.overrides ensures o.account != m.from { OverrideMembers(t.overrides, m.from, m.to, o); }
  }

  lemma SameForDependents(t: Tables, u: Tables, id: string)
    requires SameFor(t, u, id)
    ensures id in DependentIds(t) <==> id in DependentIds(u)
  {
    forall k | k in t.gauges && k.account == id ensures exists l :: l in u.gauges && l.account == id {
      assert k == GaugeKey(id, k.bucket);
    }
    forall k | k in u.gauges && k.account == id ensures exists l :: l in t.gauges && l.account == id {
      assert k == GaugeKey(id, k.bucket);
    }
  }

  // ----- runs of moves -------------------------------------------------------------------------------

  lemma SameForTransitive(t: Tables, u: Tables, v: Tables, id: string)
    requires SameFor(t, u, id) && SameFor(u, v, id)
    ensures SameFor(t, v, id)
  {
  }

  lemma {:induction false} Untouched(t: Tables, moves: seq<Move>, now: int, n: nat, id: string)
    requires OneWay(moves) && n <= |moves|
    requires forall j :: 0 <= j < n ==> moves[j].from != id && moves[j].to != id
    ensures SameFor(t, After(t, moves[..n], now), id)
  {
    if n > 0 {
      Untouched(t, moves, now, n - 1, id);
      AfterNext(t, moves, n - 1, now);
      hide SameFor, MoveAfter, After;
      MoveLeavesOthers(After(t, moves[..n - 1], now), moves[n - 1], now, id);
      SameForTransitive(t, After(t, moves[..n - 1], now), After(t, moves[..n], now), id);
    }
  }

  ghost predicate LeaseArrives(t: Tables, moves: seq<Move>, n: nat, to: string)
    requires n <= |moves|
  {
    to in t.leases || exists j :: 0 <= j < n && moves[j].to == to && moves[j].from in t.leases
  }

  lemma LeaseIsSame(t: Tables, u: Tables, id: string)
    requires SameFor(t, u, id)
    ensures id in t.leases <==> id in u.leases
  {
  }

  lemma LeasesMove(t: Tables, m: Move, now: int)
    ensures MoveAfter(t, m, now).leases == SlotAfter(t.leases, m.from, m.to, now)
  {
  }

  lemma ArrivesNext(t: Tables, moves: seq<Move>, n: nat, to: string)
    requires n < |moves|
    ensures LeaseArrives(t, moves, n + 1, to) <==> LeaseArrives(t, moves, n, to) || (moves[n].to == to && moves[n].from in t.leases)
  {
  }

  lemma SourceUntouched(t: Tables, moves: seq<Move>, now: int, n: nat)
    requires OneWay(moves) && n < |moves|
    ensures moves[n].from != moves[n].to && SameFor(t, After(t, moves[..n], now), moves[n].from)
  {
    Untouched(t, moves, now, n, moves[n].from);
  }

  lemma {:induction false} TargetLease(t: Tables, moves: seq<Move>, now: int, n: nat, to: string)
    requires OneWay(moves) && n <= |moves| && Composite(to)
    ensures to in After(t, moves[..n], now).leases <==> LeaseArrives(t, moves, n, to)
  {
    if n == 0 {
      assert moves[..0] == [];
    } else {
      TargetLease(t, moves, now, n - 1, to);
      SourceUntouched(t, moves, now, n - 1);
      TargetLeaseStep(t, moves, now, n - 1, to);
    }
  }

  lemma TargetLeaseStep(t: Tables, moves: seq<Move>, now: int, n: nat, to: string)
    requires n < |moves| && SameFor(t, After(t, moves[..n], now), moves[n].from) && moves[n].from != moves[n].to
    requires to != moves[n].from
    requires to in After(t, moves[..n], now).leases <==> LeaseArrives(t, moves, n, to)
    ensures to in After(t, moves[..n + 1], now).leases <==> LeaseArrives(t, moves, n + 1, to)
  {
    hide *;
    AfterNext(t, moves, n, now);
    ArrivesNext(t, moves, n, to);
    var before := After(t, moves[..n], now);
    LeasesMove(before, moves[n], now);
    LeaseIsSame(t, before, moves[n].from);
    SlotKeys(before.leases, moves[n].from, moves[n].to, now, to);
  }

  lemma SlotKeys(m: map<string, Option<int>>, from: string, to: string, now: int, id: string)
    requires from != to && id != from
    ensures id in SlotAfter(m, from, to, now) <==> id in m || (id == to && from in m)
  {
  }

  /** The lease that nothing can move: held without an end, and its new place already taken. */
  ghost predicate Stuck(t: Tables, moves: seq<Move>, k: nat)
    requires k < |moves|
  {
    moves[k].from in t.leases && t.leases[moves[k].from].None? && LeaseArrives(t, moves, k, moves[k].to)
  }

  lemma PlannedIsIdle(t: Tables, c: Context, id: string, to: string)
    requires WellKeyed(c) && VerdictFor(t, c, id) == MoveTo(to)
    ensures !Occupied(t, c, id) && !Occupied(t, c, to)
  {
    MoveMeans(t, c, id, to);
    OnlyKnownIds(t, c, id);
    assert HasTarget(t, c, id, to);
  }

  /** What is left under a source right after its move is a stuck lease or nothing. */
  lemma LeftBehind(t: Tables, c: Context, moves: seq<Move>, k: nat)
    requires WellKeyed(c) && IsPlan(t, c, moves) && k < |moves|
    ensures var before := After(t, moves[..k], c.now);
            moves[k].from in DependentIds(DependentsAfter(before, moves[k].from, moves[k].to, c.now)) <==> Stuck(t, moves, k)
  {
    PlanIsOneWay(t, c, moves);
    var before, m := After(t, moves[..k], c.now), moves[k];
    Untouched(t, moves, c.now, k, m.from);
    PlannedIsIdle(t, c, m.from, m.to);
    TargetLease(t, moves, c.now, k, m.to);
    MoveClearsSource(before, m, c.now);
  }

  /**
   The guard fires exactly when a merge meets a lease without an end whose target lease exists:
   such a lease is neither seen as live by the plan nor dropped by the move.
   */
  lemma GuardFiresIff(t: Tables, c: Context, moves: seq<Move>)
    requires WellKeyed(c) && IsPlan(t, c, moves)
    ensures Trips(t, moves, c.now) <==> exists k :: 0 <= k < |moves| && moves[k].kind == Merge && Stuck(t, moves, k)
  {
    forall k | 0 <= k < |moves|
      ensures GuardTrips(After(t, moves[..k], c.now), moves[k], c.now) <==> moves[k].kind == Merge && Stuck(t, moves, k)
    {
      LeftBehind(t, c, moves, k);
    }
  }

  /** Where every lease has an end, no plan ever meets its guard. */
  lemma GuardNeverFires(t: Tables, c: Context, moves: seq<Move>)
    requires WellKeyed(c) && IsPlan(t, c, moves) && forall id :: id in t.leases ==> t.leases[id].Some?
    ensures !Trips(t, moves, c.now)
  {
    GuardFiresIff(t, c, moves);
  }

  lemma AccountsHaveNoSay(t: Tables, m: Move, now: int)
    ensures DependentIds(MoveAfter(t, m, now)) == DependentIds(DependentsAfter(t, m.from, m.to, now))
  {
  }

  lemma ClearedStep(t: Tables, moves: seq<Move>, now: int, k: nat, n: nat)
    requires OneWay(moves) && k < n < |moves|
    ensures moves[k].from in DependentIds(After(t, moves[..n + 1], now)) <==> moves[k].from in DependentIds(After(t, moves[..n], now))
  {
    var before := After(t, moves[..n], now);
    AfterNext(t, moves, n, now);
    MoveLeavesOthers(before, moves[n], now, moves[k].from);
    hide *;
    SameForDependents(before, MoveAfter(before, moves[n], now), moves[k].from);
  }

  /** One account, one slot, a refresh lease without an end beside the slot's own: the guard fires. */
  lemma GuardCanFire(t: Tables, c: Context, moves: seq<Move>)
    requires t.accounts == map["a" := Account(Some(CODEX), 0), "u:a" := Account(Some(CODEX), 0)]
    requires t.gauges == map[] && t.loose == [] && t.overrides == [] && t.claims == map[] && t.polls == map[]
    requires t.leases == map["a" := None, "u:a" := Some(0)]
    requires c == Context(5, map["u:a" := "a"], false, false, map[]) && moves == [Move("a", "u:a", Merge)]
    ensures WellKeyed(c) && IsPlan(t, c, moves) && Trips(t, moves, c.now)
  {
    assert "u:a"[1] == ':';
    assert !Composite("a") && Composite("u:a");
    assert c.slots["u:a"] == "a";
    assert Targets(c, "a") == {"u:a"};
    assert IsAccountCandidate(t, "a") && IsCandidate(t, c, "a");
    assert forall id :: HasTarget(t, c, id, "u:a") ==> id == "a" by { OnlyA(t, c); }
    assert !Busy(t, c, "u:a");
    VerdictMeaning(t, c, "a", "u:a");
    forall id | VerdictFor(t, c, id).MoveTo? ensures id == "a" {
      VerdictMeaning(t, c, id, VerdictFor(t, c, id).to);
      OnlyA(t, c);
    }
    assert moves[0].from == "a" && Planned(moves, "a");
    assert LeaseArrives(t, moves, 0, "u:a");
    assert Stuck(t, moves, 0);
    GuardFiresIff(t, c, moves);
  }

  lemma OnlyA(t: Tables, c: Context)
    requires t.accounts.Keys == {"a", "u:a"} && t.gauges == map[] && t.loose == [] && t.overrides == [] && t.claims == map[] && t.polls == map[]
    requires t.leases.Keys == {"a", "u:a"} && ':' in "u:a"
    ensures forall id :: IsCandidate(t, c, id) ==> id == "a"
  {
    assert "u:a" != LEGACY;
  }

  lemma {:induction false} StaysCleared(t: Tables, c: Context, moves: seq<Move>, k: nat, n: nat)
    requires WellKeyed(c) && IsPlan(t, c, moves) && k < n <= |moves|
    ensures moves[k].from in DependentIds(After(t, moves[..n], c.now)) <==> Stuck(t, moves, k)
  {
    hide *;
    PlanIsOneWay(t, c, moves);
    if k == n - 1 {
      AfterNext(t, moves, k, c.now);
      LeftBehind(t, c, moves, k);
      AccountsHaveNoSay(After(t, moves[..k], c.now), moves[k], c.now);
    } else {
      StaysCleared(t, c, moves, k, n - 1);
      ClearedStep(t, moves, c.now, k, n - 1);
    }
  }

  /** After the whole plan nothing is left under any source but a stuck lease. */
  lemma NothingLeftBehind(t: Tables, c: Context, moves: seq<Move>, k: nat)
    requires WellKeyed(c) && IsPlan(t, c, moves) && k < |moves|
    ensures moves[k].from in DependentIds(After(t, moves, c.now)) <==> Stuck(t, moves, k)
  {
    assert moves[..|moves|] == moves;
    StaysCleared(t, c, moves, k, |moves|);
  }

  // ----- nothing is lost ------------------------------------------------------------------------------

  /** The ids whose rows end under `to`: itself, and every source moved to it so far. */
  ghost predicate SourceOf(moves: seq<Move>, n: nat, to: string, a: string)
    requires n <= |moves|
  {
    a == to || exists k :: 0 <= k < n && moves[k].to == to && moves[k].from == a
  }

  lemma SourceNext(moves: seq<Move>, n: nat, to: string, a: string)
    requires n < |moves|
    ensures SourceOf(moves, n + 1, to, a) <==> SourceOf(moves, n, to, a) || (moves[n].to == to && moves[n].from == a)
  {
  }

  /** The newest of the readings that sources had for a bucket. */
  ghost predicate IsFreshest(t: Tables, u: Tables, moves: seq<Move>, n: nat, to: string, b: string)
    requires n <= |moves|
  {
    var k := GaugeKey(to, b);
    && (forall a :: SourceOf(moves, n, to, a) && GaugeKey(a, b) in t.gauges ==>
          k in u.gauges && !Newer(t.gauges[GaugeKey(a, b)].fetched, u.gauges[k].fetched))
    && (k in u.gauges ==> exists a :: SourceOf(moves, n, to, a) && GaugeKey(a, b) in t.gauges && t.gauges[GaugeKey(a, b)] == u.gauges[k])
  }

  lemma GaugeMoves(t: Tables, m: Move, now: int, to: string, b: string)
    requires m.from != m.to && to != m.from
    ensures var u, k, s := MoveAfter(t, m, now), GaugeKey(to, b), GaugeKey(m.from, b);
            if m.to != to || s !in t.gauges then (k in u.gauges <==> k in t.gauges) && (k in t.gauges ==> u.gauges[k] == t.gauges[k])
            else k in u.gauges && u.gauges[k] == if k in t.gauges then Fresher(t.gauges[s], t.gauges[k]) else t.gauges[s]
  {
  }

  /** After any number of moves each bucket of a target holds the freshest reading of all its sources. */
  lemma {:induction false} FreshestReadingWins(t: Tables, moves: seq<Move>, now: int, n: nat, to: string, b: string)
    requires OneWay(moves) && n <= |moves| && Composite(to)
    ensures IsFreshest(t, After(t, moves[..n], now), moves, n, to, b)
  {
    if n > 0 {
      var before, m := After(t, moves[..n - 1], now), moves[n - 1];
      FreshestReadingWins(t, moves, now, n - 1, to, b);
      SourceUntouched(t, moves, now, n - 1);
      AfterNext(t, moves, n - 1, now);
      GaugeMoves(before, m, now, to, b);
      FreshestNext(t, before, MoveAfter(before, m, now), moves, n - 1, to, b);
    } else {
      assert SourceOf(moves, 0, to, to);
    }
  }

  lemma FreshestNext(t: Tables, before: Tables, u: Tables, moves: seq<Move>, n: nat, to: string, b: string)
    requires n < |moves| && IsFreshest(t, before, moves, n, to, b)
    requires var k, s := GaugeKey(to, b), GaugeKey(moves[n].from, b);
             && (s in t.gauges <==> s in before.gauges) && (s in t.gauges ==> t.gauges[s] == before.gauges[s])
             && if moves[n].to != to || s !in before.gauges then (k in u.gauges <==> k in before.gauges) && (k in before.gauges ==> u.gauges[k] == before.gauges[k])
                else k in u.gauges && u.gauges[k] == if k in before.gauges then Fresher(before.gauges[s], before.gauges[k]) else before.gauges[s]
    ensures IsFreshest(t, u, moves, n + 1, to, b)
  {
    forall a ensures SourceOf(moves, n + 1, to, a) <==> SourceOf(moves, n, to, a) || (moves[n].to == to && moves[n].from == a) {
      SourceNext(moves, n, to, a);
    }
    hide SourceOf;
  }

  /** A target ends with exactly the overrides of all its sources. */
  lemma {:induction false} OverridesAreUnited(t: Tables, moves: seq<Move>, now: int, n: nat, to: string, o: Override)
    requires OneWay(moves) && n <= |moves| && Composite(to) && o.account == to
    ensures o in After(t, moves[..n], now).overrides <==> exists a :: SourceOf(moves, n, to, a) && o.(account := a) in t.overrides
  {
    if n > 0 {
      var before, m := After(t, moves[..n - 1], now), moves[n - 1];
      OverridesAreUnited(t, moves, now, n - 1, to, o);
      SourceUntouched(t, moves, now, n - 1);
      AfterNext(t, moves, n - 1, now);
      OverrideMembers(before.overrides, m.from, m.to, o);
      OverridesNext(t, moves, n - 1, to, o, m.to == to && o.(account := m.from) in before.overrides);
    } else {
      assert SourceOf(moves, 0, to, to) && o.(account := to) == o;
    }
  }

  lemma OverridesNext(t: Tables, moves: seq<Move>, n: nat, to: string, o: Override, added: bool)
    requires n < |moves| && (added <==> moves[n].to == to && o.(account := moves[n].from) in t.overrides)
    ensures (exists a :: SourceOf(moves, n + 1, to, a) && o.(account := a) in t.overrides) <==>
            added || exists a :: SourceOf(moves, n, to, a) && o.(account := a) in t.overrides
  {
    forall a ensures SourceOf(moves, n + 1, to, a) <==> SourceOf(moves, n, to, a) || (moves[n].to == to && moves[n].from == a) {
      SourceNext(moves, n, to, a);
    }
    hide SourceOf;
  }

  /** And holds none of them twice. */
  lemma OverridesAreDistinct(t: Tables, m: Move, now: int, i: nat, j: nat)
    requires var rows := MoveAfter(t, m, now).overrides; i < j < |rows| && rows[i].account == m.to
    ensures MoveAfter(t, m, now).overrides[i] != MoveAfter(t, m, now).overrides[j]
  {
    DeduplicatedMembers(Renamed(t.overrides, m.from, m.to), m.to);
  }

  /** No due time, hold, backoff or count of `b` is ahead of `a`'s. */
  ghost predicate NoEarlier(a: Poll, b: Poll) {
    && !Newer(b.nextDue, a.nextDue) && !Newer(b.heldUntil, a.heldUntil) && !Newer(b.backoffUntil, a.backoffUntil)
    && !Newer(b.last429, a.last429) && !Newer(b.interval, a.interval) && !Newer(b.failures, a.failures)
    && !Newer(b.attempt, a.attempt) && !Newer(b.fetch, a.fetch)
  }

  ghost predicate PollsKept(t: Tables, u: Tables, moves: seq<Move>, n: nat, to: string)
    requires n <= |moves|
  {
    forall a :: SourceOf(moves, n, to, a) && a in t.polls ==> to in u.polls && NoEarlier(u.polls[to], t.polls[a])
  }

  lemma MergedIsNoEarlier(source: Poll, target: Poll)
    ensures NoEarlier(Merged(source, target), source) && NoEarlier(Merged(source, target), target) && NoEarlier(source, source)
  {
  }

  lemma PollMoves(polls: map<string, Poll>, m: Move, to: string)
    requires m.from != m.to && to != m.from
    ensures var after := PollsAfter(polls, m.from, m.to);
            && (to in polls ==> to in after && NoEarlier(after[to], polls[to]))
            && (m.to == to && m.from in polls ==> to in after && NoEarlier(after[to], polls[m.from]))
  {
    hide NoEarlier, Merged;
    if to in polls { MergedIsNoEarlier(polls[to], polls[to]); }
    if m.from in polls {
      MergedIsNoEarlier(polls[m.from], polls[m.from]);
      if to in polls { MergedIsNoEarlier(polls[m.from], polls[to]); }
    }
  }

  lemma PollsMove(t: Tables, m: Move, now: int)
    ensures MoveAfter(t, m, now).polls == PollsAfter(t.polls, m.from, m.to)
  {
  }

  lemma PollIsSame(t: Tables, u: Tables, id: string)
    requires SameFor(t, u, id)
    ensures (id in t.polls <==> id in u.polls) && (id in t.polls ==> t.polls[id] == u.polls[id])
  {
  }

  lemma NoEarlierTransitive(a: Poll, b: Poll, c: Poll)
    requires NoEarlier(a, b) && NoEarlier(b, c)
    ensures NoEarlier(a, c)
  {
  }

  lemma SchedulesStep(t: Tables, before: Tables, u: Tables, moves: seq<Move>, n: nat, to: string)
    requires n < |moves| && moves[n].from != moves[n].to && to != moves[n].from
    requires PollsKept(t, before, moves, n, to) && SameFor(t, before, moves[n].from)
    requires u.polls == PollsAfter(before.polls, moves[n].from, moves[n].to)
    ensures PollsKept(t, u, moves, n + 1, to)
  {
    PollIsSame(t, before, moves[n].from);
    PollMoves(before.polls, moves[n], to);
    hide NoEarlier, SameFor, SourceOf, PollsAfter;
    forall a | SourceOf(moves, n + 1, to, a) && a in t.polls ensures to in u.polls && NoEarlier(u.polls[to], t.polls[a]) {
      SourceNext(moves, n, to, a);
      if SourceOf(moves, n, to, a) { NoEarlierTransitive(u.polls[to], before.polls[to], t.polls[a]); }
    }
  }

  /** A merged schedule never polls sooner than any of its sources would have. */
  lemma {:induction false} SchedulesNeverRelax(t: Tables, moves: seq<Move>, now: int, n: nat, to: string)
    requires OneWay(moves) && n <= |moves| && Composite(to)
    ensures PollsKept(t, After(t, moves[..n], now), moves, n, to)
  {
    if n > 0 {
      SchedulesNeverRelax(t, moves, now, n - 1, to);
      SourceUntouched(t, moves, now, n - 1);
      assert !Composite(moves[n - 1].from);
      AfterNext(t, moves, n - 1, now);
      hide *;
      var before := After(t, moves[..n - 1], now);
      PollsMove(before, moves[n - 1], now);
      SchedulesStep(t, before, MoveAfter(before, moves[n - 1], now), moves, n - 1, to);
    } else {
      assert moves[..0] == [];
      MergedIsNoEarlierSelf(t.polls);
    }
  }

  lemma MergedIsNoEarlierSelf(polls: map<string, Poll>)
    ensures forall id :: id in polls ==> NoEarlier(polls[id], polls[id])
  {
  }

  /** This source's last attempt is the target's, no source's is later, and the status is its own. */
  ghost predicate GivesStatus(t: Tables, u: Tables, moves: seq<Move>, n: nat, to: string, a: string)
    requires n <= |moves| && to in u.polls
  {
    && SourceOf(moves, n, to, a) && a in t.polls
    && u.polls[to].attempt == t.polls[a].attempt && u.polls[to].status == t.polls[a].status
    && forall b :: SourceOf(moves, n, to, b) && b in t.polls ==> !Newer(t.polls[b].attempt, t.polls[a].attempt)
  }

  lemma StatusMoves(polls: map<string, Poll>, m: Move, to: string)
    requires m.from != m.to && to != m.from && to in PollsAfter(polls, m.from, m.to)
    ensures var after := PollsAfter(polls, m.from, m.to)[to];
            || (to in polls && after.attempt == polls[to].attempt && after.status == polls[to].status)
            || (m.to == to && m.from in polls && after.attempt == polls[m.from].attempt && after.status == polls[m.from].status)
  {
  }

  ghost predicate HasLatestStatus(t: Tables, u: Tables, moves: seq<Move>, n: nat, to: string)
    requires n <= |moves|
  {
    to in u.polls ==> exists a :: GivesStatus(t, u, moves, n, to, a)
  }

  lemma StatusStep(t: Tables, before: Tables, u: Tables, moves: seq<Move>, n: nat, to: string)
    requires n < |moves| && moves[n].from != moves[n].to && to != moves[n].from
    requires HasLatestStatus(t, before, moves, n, to) && PollsKept(t, u, moves, n + 1, to)
    requires SameFor(t, before, moves[n].from) && u.polls == PollsAfter(before.polls, moves[n].from, moves[n].to)
    ensures HasLatestStatus(t, u, moves, n + 1, to)
  {
    if to in u.polls {
      PollIsSame(t, before, moves[n].from);
      StatusMoves(before.polls, moves[n], to);
      hide SameFor, PollsAfter, SourceOf;
      var a := moves[n].from;
      if to in before.polls && u.polls[to].attempt == before.polls[to].attempt && u.polls[to].status == before.polls[to].status {
        a :| GivesStatus(t, before, moves, n, to, a);
      }
      SourceNext(moves, n, to, a);
      assert GivesStatus(t, u, moves, n + 1, to, a);
    }
  }

  lemma OwnStatus(t: Tables, moves: seq<Move>, to: string)
    ensures HasLatestStatus(t, t, moves, 0, to)
  {
    if to in t.polls { assert GivesStatus(t, t, moves, 0, to, to); }
  }

  /** Over a whole plan, a target's status is that of a source none of the others attempted later than. */
  lemma {:induction false} StatusOfALatestAttempt(t: Tables, moves: seq<Move>, now: int, n: nat, to: string)
    requires OneWay(moves) && n <= |moves| && Composite(to)
    ensures HasLatestStatus(t, After(t, moves[..n], now), moves, n, to)
  {
    if n > 0 {
      StatusOfALatestAttempt(t, moves, now, n - 1, to);
      SchedulesNeverRelax(t, moves, now, n, to);
      SourceUntouched(t, moves, now, n - 1);
      assert !Composite(moves[n - 1].from);
      AfterNext(t, moves, n - 1, now);
      hide *;
      var before := After(t, moves[..n - 1], now);
      PollsMove(before, moves[n - 1], now);
      StatusStep(t, before, MoveAfter(before, moves[n - 1], now), moves, n - 1, to);
    } else {
      assert moves[..0] == [];
      OwnStatus(t, moves, to);
    }
  }

  lemma PointersMove(t: Tables, m: Move, now: int)
    ensures MoveAfter(t, m, now).failover == if t.failover == Some(m.from) then Some(m.to) else t.failover
    ensures MoveAfter(t, m, now).audit == t.audit[m.from := AuditEntry(m.to, m.kind, now)]
  {
  }

  lemma {:induction false} FailoverWaits(t: Tables, moves: seq<Move>, now: int, n: nat, k: nat)
    requires OneWay(moves) && n <= k < |moves| && t.failover == Some(moves[k].from)
    ensures After(t, moves[..n], now).failover == t.failover
  {
    hide MoveAfter;
    if n == 0 {
      assert moves[..0] == [];
    } else {
      FailoverWaits(t, moves, now, n - 1, k);
      assert moves[n - 1].from != moves[k].from;
      FailoverWaitsOne(t, moves, now, n - 1);
    }
  }

  lemma FailoverWaitsOne(t: Tables, moves: seq<Move>, now: int, n: nat)
    requires n < |moves| && After(t, moves[..n], now).failover == t.failover != Some(moves[n].from)
    ensures After(t, moves[..n + 1], now).failover == t.failover
  {
    hide *;
    AfterNext(t, moves, n, now);
    PointersMove(After(t, moves[..n], now), moves[n], now);
  }

  /** The failover pointer follows its account, and every move is on record. */
  lemma {:induction false} PointersFollow(t: Tables, moves: seq<Move>, now: int, n: nat, k: nat)
    requires OneWay(moves) && k < n <= |moves|
    ensures var u := After(t, moves[..n], now);
            && moves[k].from in u.audit && u.audit[moves[k].from] == AuditEntry(moves[k].to, moves[k].kind, now)
            && (t.failover == Some(moves[k].from) ==> u.failover == Some(moves[k].to))
  {
    hide After, MoveAfter;
    var before := After(t, moves[..n - 1], now);
    AfterNext(t, moves, n - 1, now);
    PointersMove(before, moves[n - 1], now);
    OneWayApart(moves, k, n - 1);
    if k < n - 1 {
      PointersFollow(t, moves, now, n - 1, k);
    } else if t.failover == Some(moves[k].from) {
      FailoverWaits(t, moves, now, k, k);
    }
  }

  // ----- planning again -----------------------------------------------------------------------------------

  lemma AccountsMove(t: Tables, m: Move, now: int)
    ensures MoveAfter(t, m, now).accounts == AccountsAfter(t.accounts, m, now)
  {
  }

  lemma AccountIsSame(t: Tables, u: Tables, id: string)
    requires SameFor(t, u, id)
    ensures (id in t.accounts <==> id in u.accounts) && (id in t.accounts ==> t.accounts[id] == u.accounts[id])
  {
  }

  /** A move takes its source's account away, whatever its kind. */
  lemma PlannedSourceLeaves(t: Tables, c: Context, moves: seq<Move>, k: nat)
    requires WellKeyed(c) && IsPlan(t, c, moves) && k < |moves|
    ensures moves[k].from !in AccountsAfter(After(t, moves[..k], c.now).accounts, moves[k], c.now)
  {
    PlanIsOneWay(t, c, moves);
    SourceUntouched(t, moves, c.now, k);
    AccountIsSame(t, After(t, moves[..k], c.now), moves[k].from);
    hide SameFor, After, VerdictFor;
  }

  lemma {:induction false} SourceAccountGone(t: Tables, c: Context, moves: seq<Move>, k: nat, n: nat)
    requires WellKeyed(c) && IsPlan(t, c, moves) && k < n <= |moves|
    ensures moves[k].from !in After(t, moves[..n], c.now).accounts
  {
    hide *;
    PlanIsOneWay(t, c, moves);
    OneWayApart(moves, n - 1, k);
    AfterNext(t, moves, n - 1, c.now);
    AccountsMove(After(t, moves[..n - 1], c.now), moves[n - 1], c.now);
    if k == n - 1 {
      PlannedSourceLeaves(t, c, moves, k);
    } else {
      SourceAccountGone(t, c, moves, k, n - 1);
      NoneAppears(After(t, moves[..n - 1], c.now).accounts, moves[n - 1], c.now, moves[k].from);
    }
  }

  lemma NoneAppears(accounts: map<string, Account>, m: Move, now: int, id: string)
    requires id !in accounts && id != m.to
    ensures id !in AccountsAfter(accounts, m, now)
  {
  }

  predicate HasCodexAccount(accounts: map<string, Account>, id: string) {
    id in accounts && accounts[id].provider == Some(CODEX)
  }

  /** A move makes its target a Codex account, or keeps it one. */
  lemma TargetStep(accounts: map<string, Account>, m: Move, now: int, to: string)
    requires m.from != m.to && to != m.from
    requires m.kind == Rename ==> HasCodexAccount(accounts, m.from)
    requires m.kind == Merge ==> HasCodexAccount(accounts, m.to)
    requires HasCodexAccount(accounts, to) || to == m.to
    requires m.to in accounts ==> HasCodexAccount(accounts, m.to)
    ensures HasCodexAccount(AccountsAfter(accounts, m, now), to)
  {
  }

  /** What the plan knows of the accounts of its sources and targets. */
  lemma PlannedAccounts(t: Tables, c: Context, moves: seq<Move>, k: nat)
    requires WellKeyed(c) && IsPlan(t, c, moves) && k < |moves|
    ensures moves[k].to in t.accounts ==> HasCodexAccount(t.accounts, moves[k].to)
    ensures moves[k].kind != Orphan ==> HasCodexAccount(t.accounts, moves[k].from)
    ensures moves[k].kind == KindAt(t, moves, k)
    ensures moves[k].kind == Merge ==> moves[k].to in t.accounts || TargetedBefore(moves, k, moves[k].to)
  {
    MoveMeans(t, c, moves[k].from, moves[k].to);
    hide VerdictFor;
  }

  /** A target has its Codex account when it had one or was moved to, and none otherwise. */
  ghost predicate AccountReady(t: Tables, accounts: map<string, Account>, moves: seq<Move>, n: nat, to: string)
    requires n <= |moves|
  {
    if to in t.accounts || TargetedBefore(moves, n, to) then HasCodexAccount(accounts, to) else to !in accounts
  }

  /** Once moved to, a target has its Codex account; one that had none before has none until then. */
  lemma {:induction false} TargetAccount(t: Tables, c: Context, moves: seq<Move>, k: nat, n: nat)
    requires WellKeyed(c) && IsPlan(t, c, moves) && k < |moves| && n <= |moves|
    ensures AccountReady(t, After(t, moves[..n], c.now).accounts, moves, n, moves[k].to)
    decreases n
  {
    hide *;
    PlanIsOneWay(t, c, moves);
    if n == 0 {
      NothingMovedYet(t, c, moves, k);
    } else {
      OneWayApart(moves, n - 1, n - 1);
      OneWayApart(moves, k, n - 1);
      TargetAccount(t, c, moves, k, n - 1);
      TargetAccount(t, c, moves, n - 1, n - 1);
      PlannedAccounts(t, c, moves, n - 1);
      SourceUntouched(t, moves, c.now, n - 1);
      AccountIsSame(t, After(t, moves[..n - 1], c.now), moves[n - 1].from);
      AfterNext(t, moves, n - 1, c.now);
      AccountsMove(After(t, moves[..n - 1], c.now), moves[n - 1], c.now);
      TargetAccountStep(t, After(t, moves[..n - 1], c.now).accounts, moves, n - 1, k, c.now);
    }
  }

  lemma NothingMovedYet(t: Tables, c: Context, moves: seq<Move>, k: nat)
    requires WellKeyed(c) && IsPlan(t, c, moves) && k < |moves|
    ensures AccountReady(t, After(t, moves[..0], c.now).accounts, moves, 0, moves[k].to)
  {
    PlannedAccounts(t, c, moves, k);
    assert moves[..0] == [];
  }

  lemma OneWayApart(moves: seq<Move>, k: nat, n: nat)
    requires OneWay(moves) && k < |moves| && n < |moves|
    ensures moves[k].to != moves[n].from
  {
    assert Composite(moves[k].to) && !Composite(moves[n].from);
  }

  lemma TargetAccountStep(t: Tables, accounts: map<string, Account>, moves: seq<Move>, n: nat, k: nat, now: int)
    requires n < |moves| && k < |moves| && moves[n].from != moves[n].to && moves[k].to != moves[n].from
    requires AccountReady(t, accounts, moves, n, moves[k].to) && AccountReady(t, accounts, moves, n, moves[n].to)
    requires moves[n].kind != Orphan ==> HasCodexAccount(t.accounts, moves[n].from)
    requires moves[n].from in t.accounts ==> moves[n].from in accounts && accounts[moves[n].from] == t.accounts[moves[n].from]
    requires moves[n].kind == Merge ==> moves[n].to in t.accounts || TargetedBefore(moves, n, moves[n].to)
    ensures AccountReady(t, AccountsAfter(accounts, moves[n], now), moves, n + 1, moves[k].to)
  {
    assert TargetedBefore(moves, n + 1, moves[k].to) <==> TargetedBefore(moves, n, moves[k].to) || moves[n].to == moves[k].to;
    hide TargetedBefore;
    if HasCodexAccount(accounts, moves[k].to) || moves[k].to == moves[n].to {
      TargetStep(accounts, moves[n], now, moves[k].to);
    } else {
      NoneAppears(accounts, moves[n], now, moves[k].to);
    }
  }

  /** A candidate the plan did not move is the same candidate afterwards. */
  lemma UnmovedIsSame(t: Tables, c: Context, moves: seq<Move>, id: string)
    requires WellKeyed(c) && IsPlan(t, c, moves) && !Planned(moves, id) && !Composite(id)
    ensures SameFor(t, After(t, moves, c.now), id)
    ensures IsCandidate(After(t, moves, c.now), c, id) <==> IsCandidate(t, c, id)
    ensures Occupied(After(t, moves, c.now), c, id) <==> Occupied(t, c, id)
  {
    PlanIsOneWay(t, c, moves);
    assert moves[..|moves|] == moves;
    Untouched(t, moves, c.now, |moves|, id);
    SameForDependents(t, After(t, moves, c.now), id);
    hide After, IsPlan, DependentIds;
  }

  lemma UntargetedIsSame(t: Tables, c: Context, moves: seq<Move>, to: string)
    requires WellKeyed(c) && IsPlan(t, c, moves) && !TargetedBefore(moves, |moves|, to) && Composite(to)
    ensures SameFor(t, After(t, moves, c.now), to)
    ensures Occupied(After(t, moves, c.now), c, to) <==> Occupied(t, c, to)
  {
    PlanIsOneWay(t, c, moves);
    assert moves[..|moves|] == moves;
    Untouched(t, moves, c.now, |moves|, to);
    hide After, IsPlan, DependentIds;
  }

  /** Only ids with this very target move to it. */
  lemma NobodyMovesTo(t: Tables, c: Context, moves: seq<Move>, to: string)
    requires WellKeyed(c) && IsPlan(t, c, moves)
    requires Busy(t, c, to) || (to in t.accounts && t.accounts[to].provider != Some(CODEX))
    ensures !TargetedBefore(moves, |moves|, to)
    ensures forall id :: Targets(c, id) == {to} ==> !Planned(moves, id)
  {
    hide VerdictFor, Busy, IsCandidate, Targets;
    forall k | 0 <= k < |moves| ensures moves[k].to != to && Targets(c, moves[k].from) != {to} {
      MoveMeans(t, c, moves[k].from, moves[k].to);
      assert moves[k].to in {moves[k].to};
    }
  }

  /** What kept a target's candidates from moving still does. */
  lemma BusyStays(t: Tables, c: Context, moves: seq<Move>, to: string)
    requires WellKeyed(c) && IsPlan(t, c, moves) && Busy(t, c, to) && Composite(to)
    ensures Busy(After(t, moves, c.now), c, to)
  {
    var u := After(t, moves, c.now);
    NobodyMovesTo(t, c, moves, to);
    var id :| id in t.accounts.Keys + DependentIds(t) && HasTarget(t, c, id, to) && (Occupied(t, c, id) || Occupied(t, c, to));
    CandidateIsLegacy(t, c, id);
    UnmovedIsSame(t, c, moves, id);
    UntargetedIsSame(t, c, moves, to);
    hide After, IsPlan, Occupied, Targets, Planned, TargetedBefore;
    assert HasTarget(u, c, id, to);
    assert id in u.accounts.Keys + DependentIds(u);
  }

  lemma NotMovedTwice(t: Tables, c: Context, moves: seq<Move>, id: string)
    requires WellKeyed(c) && IsPlan(t, c, moves) && Planned(moves, id)
    requires forall k :: 0 <= k < |moves| ==> !Stuck(t, moves, k)
    ensures !IsCandidate(After(t, moves, c.now), c, id)
  {
    var k :| 0 <= k < |moves| && moves[k].from == id;
    NothingLeftBehind(t, c, moves, k);
    assert moves[..|moves|] == moves;
    SourceAccountGone(t, c, moves, k, |moves|);
  }

  /** An unmoved id whose verdict was not to move gets no better verdict from the moves around it. */
  lemma UnmovedStays(t: Tables, c: Context, moves: seq<Move>, id: string, to: string)
    requires WellKeyed(c) && IsPlan(t, c, moves) && !Planned(moves, id)
    ensures VerdictFor(After(t, moves, c.now), c, id) != MoveTo(to)
  {
    hide VerdictFor, After, IsCandidate, Targets, Busy, TargetedBefore;
    var u := After(t, moves, c.now);
    VerdictMeaning(t, c, id, to);
    if VerdictFor(u, c, id) == MoveTo(to) {
      MoveMeans(u, c, id, to);
      UnmovedIsSame(t, c, moves, id);
      if Busy(t, c, to) { BusyStays(t, c, moves, to); }
      if to in t.accounts && t.accounts[to].provider != Some(CODEX) {
        NobodyMovesTo(t, c, moves, to);
        UntargetedIsSame(t, c, moves, to);
      }
    }
  }

  /** Planning again over what the plan left finds nothing to move. */
  lemma ReplanFindsNothing(t: Tables, c: Context, moves: seq<Move>, id: string)
    requires WellKeyed(c) && IsPlan(t, c, moves)
    requires forall k :: 0 <= k < |moves| ==> !Stuck(t, moves, k)
    ensures !VerdictFor(After(t, moves, c.now), c, id).MoveTo?
  {
    var verdict := VerdictFor(After(t, moves, c.now), c, id);
    if Planned(moves, id) {
      NotMovedTwice(t, c, moves, id);
    } else if verdict.MoveTo? {
      UnmovedStays(t, c, moves, id, verdict.to);
    }
  }

  // ----- and when it does find something -----------------------------------------------------------------

  lemma MoveKeepsIdle(t: Tables, c: Context, m: Move, id: string)
    requires m.from != m.to && !Occupied(t, c, id) && !Occupied(t, c, m.from)
    ensures !Occupied(MoveAfter(t, m, c.now), c, id)
  {
  }

  lemma IdleIsSame(t: Tables, u: Tables, c: Context, id: string)
    requires SameFor(t, u, id)
    ensures Occupied(t, c, id) <==> Occupied(u, c, id)
  {
  }

  lemma NoMovesYet(t: Tables, moves: seq<Move>, now: int)
    ensures After(t, moves[..0], now) == t
  {
  }

  lemma SourceIsIdle(t: Tables, c: Context, moves: seq<Move>, k: nat)
    requires WellKeyed(c) && IsPlan(t, c, moves) && k < |moves|
    ensures !Occupied(t, c, moves[k].from)
  {
    PlannedIsIdle(t, c, moves[k].from, moves[k].to);
  }

  lemma {:induction false} IdleStays(t: Tables, c: Context, moves: seq<Move>, n: nat, id: string)
    requires WellKeyed(c) && IsPlan(t, c, moves) && n <= |moves| && !Occupied(t, c, id)
    ensures !Occupied(After(t, moves[..n], c.now), c, id)
  {
    hide *;
    if n == 0 {
      NoMovesYet(t, moves, c.now);
    } else {
      SourceIsIdle(t, c, moves, n - 1);
      PlanIsOneWay(t, c, moves);
      IdleStays(t, c, moves, n - 1, id);
      SourceUntouched(t, moves, c.now, n - 1);
      var before := After(t, moves[..n - 1], c.now);
      IdleIsSame(t, before, c, moves[n - 1].from);
      AfterNext(t, moves, n - 1, c.now);
      MoveKeepsIdle(before, c, moves[n - 1], id);
    }
  }

  /** Nobody that leads to a planned target is in use once the plan has been carried out. */
  lemma TargetNotBusy(t: Tables, c: Context, moves: seq<Move>, k: nat)
    requires WellKeyed(c) && IsPlan(t, c, moves) && k < |moves|
    ensures !Busy(After(t, moves, c.now), c, moves[k].to)
  {
    var u, to := After(t, moves, c.now), moves[k].to;
    assert moves[..|moves|] == moves;
    PlannedIsIdle(t, c, moves[k].from, to);
    MoveMeans(t, c, moves[k].from, to);
    IdleStays(t, c, moves, |moves|, to);
    forall id | HasTarget(u, c, id, to) ensures !Occupied(u, c, id) {
      CandidateIsLegacy(u, c, id);
      if Planned(moves, id) {
        var j :| 0 <= j < |moves| && moves[j].from == id;
        PlannedIsIdle(t, c, moves[j].from, moves[j].to);
        IdleStays(t, c, moves, |moves|, id);
      } else {
        UnmovedIsSame(t, c, moves, id);
        NotBusyMeansIdle(t, c, id, to);
      }
    }
  }

  lemma NotBusyMeansIdle(t: Tables, c: Context, id: string, to: string)
    requires !Busy(t, c, to) && HasTarget(t, c, id, to)
    ensures !Occupied(t, c, id)
  {
    assert id in t.accounts.Keys + DependentIds(t);
  }

  /** A stuck lease brings its id back into the next plan. */
  lemma StuckIsPlannedAgain(t: Tables, c: Context, moves: seq<Move>, k: nat)
    requires WellKeyed(c) && IsPlan(t, c, moves) && k < |moves| && Stuck(t, moves, k)
    ensures VerdictFor(After(t, moves, c.now), c, moves[k].from) == MoveTo(moves[k].to)
  {
    var u, m := After(t, moves, c.now), moves[k];
    assert moves[..|moves|] == moves;
    MoveMeans(t, c, m.from, m.to);
    NothingLeftBehind(t, c, moves, k);
    SourceAccountGone(t, c, moves, k, |moves|);
    TargetAccount(t, c, moves, k, |moves|);
    TargetNotBusy(t, c, moves, k);
    VerdictMeaning(u, c, m.from, m.to);
    assert TargetedBefore(moves, |moves|, m.to);
    assert m.to in Targets(c, m.from);
    hide After, DependentIds, Busy, VerdictFor, Stuck;
    assert m.to != m.from;
    assert IsOrphanCandidate(u, c, m.from);
  }

  /** Planning again finds something exactly when a lease was stuck. */
  lemma ReplanIff(t: Tables, c: Context, moves: seq<Move>)
    requires WellKeyed(c) && IsPlan(t, c, moves)
    ensures (exists id :: VerdictFor(After(t, moves, c.now), c, id).MoveTo?) <==> (exists k :: 0 <= k < |moves| && Stuck(t, moves, k))
  {
    hide VerdictFor, After, Stuck, IsPlan;
    if exists k :: 0 <= k < |moves| && Stuck(t, moves, k) {
      var k :| 0 <= k < |moves| && Stuck(t, moves, k);
      StuckIsPlannedAgain(t, c, moves, k);
    } else {
      forall id ensures !VerdictFor(After(t, moves, c.now), c, id).MoveTo? { ReplanFindsNothing(t, c, moves, id); }
    }
  }
}
