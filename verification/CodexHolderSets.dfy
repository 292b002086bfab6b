/**
 The sets of identities a process started at a given moment may hold: the eras of the
 switch log, widened, completed by drift, confirmed and cut short by live observations,
 and swept into disjoint intervals.
 */
module CodexHolderSets {
  import opened Prelude
  import opened CodexHolders

  // ----- widening, drift, observations ---------------------------------------

  datatype Observation = Observation(ts: Option<int>, identity: Option<string>)

  datatype Group = Group(ts: int, identities: seq<string>)

  /** One process start is ambiguous for a second on either side of a publication. */
  function WidenOnce(e: Era, row: Event): Era {
    if row.outcome != Ok then e
    else Era(
      e.identity,
      if row.to == e.identity && e.startsAt == Some(row.time) then Some(row.time - SECOND) else e.startsAt,
      if row.from == Some(e.identity) && e.endsAt == Some(row.time) then Some(row.time + SECOND) else e.endsAt)
  }

  function Widen(e: Era, log: seq<Event>): Era {
    if log == [] then e else WidenOnce(Widen(e, log[..|log| - 1]), log[|log| - 1])
  }

  function WidenAll(eras: seq<Era>, log: seq<Event>): seq<Era> {
    seq(|eras|, k requires 0 <= k < |eras| => Widen(eras[k], log))
  }

  /** Row by row, era by era, in place. */
  method WidenEras(raw: seq<Era>, log: seq<Event>) returns (eras: seq<Era>)
    ensures eras == WidenAll(raw, log)
  {
    eras := raw;
    assert raw == WidenAll(raw, []);
    for n := 0 to |log|
      invariant eras == WidenAll(raw, log[..n])
    {
      assert log[..n + 1][..n] == log[..n];
      ghost var before := eras;
      for k := 0 to |eras|
        invariant |eras| == |before|
        invariant forall j :: 0 <= j < |eras| ==> eras[j] == if j < k then WidenOnce(before[j], log[n]) else before[j]
      {
        eras := eras[k := WidenOnce(eras[k], log[n])];
      }
      assert eras == WidenAll(raw, log[..n + 1]);
    }
    assert log[..|log|] == log;
  }

  function LastOk(log: seq<Event>): Option<Event> {
    if log == [] then None
    else if log[|log| - 1].outcome == Ok then Some(log[|log| - 1])
    else LastOk(log[..|log| - 1])
  }

  /** A source that is not the last published target proves a switch nobody logged. */
  predicate Drifted(prior: Option<Event>, e: Event) {
    IsWriting(e) && prior.Some? && e.from.Some? && e.from.value != prior.value.to
  }

  function DriftEras(log: seq<Event>): seq<Era> {
    if log == [] then []
    else
      var init, e := log[..|log| - 1], log[|log| - 1];
      DriftEras(init)
      + (if Drifted(LastOk(init), e) then [Era(e.from.value, Some(LastOk(init).value.time), Some(e.time + SECOND))] else [])
  }

  method FindDrift(log: seq<Event>) returns (eras: seq<Era>)
    ensures eras == DriftEras(log)
  {
    eras := [];
    var prior := None;
    for n := 0 to |log|
      invariant eras == DriftEras(log[..n]) && prior == LastOk(log[..n])
    {
      assert log[..n + 1][..n] == log[..n];
      var e := log[n];
      if Drifted(prior, e) {
        eras := eras + [Era(e.from.value, Some(prior.value.time), Some(e.time + SECOND))];
      }
      if e.outcome == Ok { prior := Some(e); }
    }
    assert log[..|log|] == log;
  }

  predicate BadlyObserved(o: Observation) { o.ts.None? || o.identity == Some("") }

  /** Insert an identity into a strictly sorted list. */
  function AddId(id: string, ids: seq<string>): seq<string> {
    if ids == [] then [id]
    else if id == ids[0] then ids
    else if StrLe(id, ids[0]) then [id] + ids
    else [ids[0]] + AddId(id, ids[1..])
  }

  /** Insert one observation into groups in time order. */
  function AddObservation(ts: int, id: string, groups: seq<Group>): seq<Group> {
    if groups == [] then [Group(ts, [id])]
    else if ts == groups[0].ts then [Group(ts, AddId(id, groups[0].identities))] + groups[1..]
    else if ts < groups[0].ts then [Group(ts, [id])] + groups
    else [groups[0]] + AddObservation(ts, id, groups[1..])
  }

  /** The identities observed at each instant, in time order. */
  function GroupsOf(obs: seq<Observation>): seq<Group>
    requires forall o :: o in obs ==> !BadlyObserved(o)
  {
    if obs == [] then []
    else
      var o := obs[|obs| - 1];
      assert !BadlyObserved(o);
      var groups := GroupsOf(obs[..|obs| - 1]);
      if o.identity.None? then groups else AddObservation(o.ts.value, o.identity.value, groups)
  }

  /** The first published switch from one group to the next, within their times. */
  function Explaining(log: seq<Event>, a: Group, b: Group): Option<Event> {
    if log == [] then None
    else
      var e := log[0];
      if e.outcome == Ok && e.from.Some? && e.from.value in a.identities && e.to in b.identities && a.ts <= e.time <= b.ts
      then Some(e) else Explaining(log[1..], a, b)
  }

  function LatestBoundary(log: seq<Event>, before: int): Option<int> {
    if log == [] then None
    else if IsWriting(log[|log| - 1]) && log[|log| - 1].time <= before then Some(log[|log| - 1].time - SECOND)
    else LatestBoundary(log[..|log| - 1], before)
  }

  function GroupStart(log: seq<Event>, groups: seq<Group>, k: nat): Option<int>
    requires k < |groups|
  {
    if k == 0 then LatestBoundary(log, groups[0].ts)
    else
      var incoming := Explaining(log, groups[k - 1], groups[k]);
      Some((if incoming.Some? then incoming.value.time else groups[k - 1].ts) - SECOND)
  }

  function GroupEnd(log: seq<Event>, groups: seq<Group>, k: nat): Option<int>
    requires k < |groups|
  {
    if k == |groups| - 1 then None
    else
      var outgoing := Explaining(log, groups[k], groups[k + 1]);
      Some((if outgoing.Some? then outgoing.value.time else groups[k + 1].ts) + SECOND)
  }

  function GroupEras(g: Group, startsAt: Option<int>, endsAt: Option<int>): seq<Era> {
    seq(|g.identities|, k requires 0 <= k < |g.identities| => Era(g.identities[k], startsAt, endsAt))
  }

  /** An open era that a later observation contradicts ends a second after it. */
  function Clip(e: Era, g: Group, fenced: set<string>): Era {
    if e.endsAt.None? && e.identity !in fenced
       && (e.startsAt.None? || e.startsAt.value + SECOND < g.ts) && e.identity !in g.identities
    then e.(endsAt := Some(g.ts + SECOND)) else e
  }

  function ClipAll(eras: seq<Era>, g: Group, fenced: set<string>): seq<Era> {
    seq(|eras|, k requires 0 <= k < |eras| => Clip(eras[k], g, fenced))
  }

  function Observe(eras: seq<Era>, log: seq<Event>, groups: seq<Group>, k: nat): seq<Era>
    requires k <= |groups|
  {
    if k == 0 then eras
    else
      var before := Observe(eras, log, groups, k - 1);
      var seen := GroupEras(groups[k - 1], GroupStart(log, groups, k - 1), GroupEnd(log, groups, k - 1));
      ClipAll(before + seen, groups[k - 1], Fenced(log))
  }

  /** Each group's own eras, then the clipping it proves, in place. */
  method ObserveEras(raw: seq<Era>, log: seq<Event>, groups: seq<Group>) returns (eras: seq<Era>)
    ensures eras == Observe(raw, log, groups, |groups|)
  {
    eras := raw;
    var fenced := Fenced(log);
    for n := 0 to |groups|
      invariant eras == Observe(raw, log, groups, n)
    {
      var startsAt, endsAt := GroupStart(log, groups, n), GroupEnd(log, groups, n);
      for k := 0 to |groups[n].identities|
        invariant eras == Observe(raw, log, groups, n) + GroupEras(groups[n], startsAt, endsAt)[..k]
      {
        eras := eras + [Era(groups[n].identities[k], startsAt, endsAt)];
      }
      ghost var before := eras;
      for k := 0 to |eras|
        invariant |eras| == |before|
        invariant forall j :: 0 <= j < |eras| ==> eras[j] == if j < k then Clip(before[j], groups[n], fenced) else before[j]
      {
        eras := eras[k := Clip(eras[k], groups[n], fenced)];
      }
      assert eras == ClipAll(before, groups[n], fenced);
    }
  }

  /** Every era the sweep sees. */
  function FinalEras(log: seq<Event>, groups: seq<Group>): seq<Era> {
    Observe(WidenAll(ErasOf(log), log) + DriftEras(log), log, groups, |groups|)
  }

  // ----- the sweep -------------------------------------------------------------

  datatype HolderSet = HolderSet(identities: seq<string>, startsAt: Option<int>, endsAt: Option<int>, prehistory: bool)

  function AddTime(t: int, ts: seq<int>): seq<int> {
    if ts == [] then [t]
    else if t == ts[0] then ts
    else if t < ts[0] then [t] + ts
    else [ts[0]] + AddTime(t, ts[1..])
  }

  function AddBound(t: Option<int>, ts: seq<int>): seq<int> {
    if t.None? then ts else AddTime(t.value, ts)
  }

  /** Every finite end of an era once, in order. */
  function Boundaries(eras: seq<Era>): seq<int> {
    if eras == [] then [] else AddBound(eras[0].startsAt, AddBound(eras[0].endsAt, Boundaries(eras[1..])))
  }

  /** Whether an era covers the stretch that begins at `probe`, None being the beginning of time. */
  predicate InFrom(e: Era, probe: Option<int>) {
    (e.startsAt.None? || (probe.Some? && probe.value >= e.startsAt.value))
    && (e.endsAt.None? || probe.None? || probe.value < e.endsAt.value)
  }

  function IdsFrom(eras: seq<Era>, probe: Option<int>): seq<string> {
    if eras == [] then []
    else if InFrom(eras[0], probe) then AddId(eras[0].identity, IdsFrom(eras[1..], probe))
    else IdsFrom(eras[1..], probe)
  }

  function StretchStart(bs: seq<int>, k: nat): Option<int>
    requires k <= |bs|
  { if k == 0 then None else Some(bs[k - 1]) }

  function StretchEnd(bs: seq<int>, k: nat): Option<int>
    requires k <= |bs|
  { if k == |bs| then None else Some(bs[k]) }

  /** Add the stretch to the last set when nothing changed, or begin a new one. */
  function Extend(sets: seq<HolderSet>, ids: seq<string>, startsAt: Option<int>, endsAt: Option<int>, prehistory: bool): seq<HolderSet> {
    if ids == [] then sets
    else if sets != [] && sets[|sets| - 1].endsAt == startsAt && sets[|sets| - 1].prehistory == prehistory
            && sets[|sets| - 1].identities == ids
    then sets[|sets| - 1 := sets[|sets| - 1].(endsAt := endsAt)]
    else sets + [HolderSet(ids, startsAt, endsAt, prehistory)]
  }

  function Sweep(eras: seq<Era>, bs: seq<int>, observed: bool, n: nat): seq<HolderSet>
    requires n <= |bs| + 1
  {
    if n == 0 then []
    else
      var startsAt := StretchStart(bs, n - 1);
      Extend(Sweep(eras, bs, observed, n - 1), IdsFrom(eras, startsAt), startsAt, StretchEnd(bs, n - 1), startsAt.None? && observed)
  }

  function SetsOf(eras: seq<Era>, observed: bool): seq<HolderSet> {
    Sweep(eras, Boundaries(eras), observed, |Boundaries(eras)| + 1)
  }

  method SweepSets(eras: seq<Era>, observed: bool) returns (sets: seq<HolderSet>)
    ensures sets == SetsOf(eras, observed)
  {
    var bs := Boundaries(eras);
    sets := [];
    for n := 0 to |bs| + 1
      invariant sets == Sweep(eras, bs, observed, n)
    {
      var startsAt := StretchStart(bs, n);
      sets := Extend(sets, IdsFrom(eras, startsAt), startsAt, StretchEnd(bs, n), startsAt.None? && observed);
    }
  }

  method GroupObservations(obs: seq<Observation>) returns (groups: Result<seq<Group>>)
    ensures groups == if exists o :: o in obs && BadlyObserved(o) then Failure(BadObservation) else Success(GroupsOf(obs))
  {
    for n := 0 to |obs|
      invariant forall o :: o in obs[..n] ==> !BadlyObserved(o)
    {
      if BadlyObserved(obs[n]) { return Failure(BadObservation); }
    }
    var found := [];
    for n := 0 to |obs|
      invariant found == GroupsOf(obs[..n])
    {
      assert obs[..n + 1][..n] == obs[..n] && !BadlyObserved(obs[n]);
      if obs[n].identity.Some? { found := AddObservation(obs[n].ts.value, obs[n].identity.value, found); }
    }
    assert obs[..|obs|] == obs;
    groups := Success(found);
  }

  method HolderSets(rows: seq<Row>, obs: seq<Observation>) returns (r: Result<seq<HolderSet>>)
    ensures r == HolderSetsOf(rows, obs)
  {
    hide LogOf, ErasOf, GroupsOf, SetsOf, Observe;
    var raw := HolderEras(rows);
    var log := ReadLog(rows);
    if raw.Failure? || log.Failure? { return Failure(log.error); }
    var eras := WidenEras(raw.value, log.value);
    var drift := FindDrift(log.value);
    var groups := GroupObservations(obs);
    if groups.Failure? { return Failure(groups.error); }
    eras := ObserveEras(eras + drift, log.value, groups.value);
    var sets := SweepSets(eras, obs != []);
    r := Success(sets);
  }

  function HolderSetsOf(rows: seq<Row>, obs: seq<Observation>): Result<seq<HolderSet>> {
    var log := LogOf(rows);
    if log.Failure? then Failure(log.error)
    else if exists o :: o in obs && BadlyObserved(o) then Failure(BadObservation)
    else Success(SetsOf(FinalEras(log.value, GroupsOf(obs)), obs != []))
  }
}
