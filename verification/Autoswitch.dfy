/**
 The auto-switch decision: which account, if any, one tick moves to. Percentages and
 milliseconds are reals; an optional number is None where the source has no finite number.
 */
module Autoswitch {
  import opened Prelude

  // ----- readings and settings --------------------------------------------------------

  /** A field that may be missing, present without a usable value, or a number. */
  datatype Num = Missing | Unusable | Num(v: real)

  datatype Bucket = Bucket(name: string, usedPct: Option<real>, resetAt: Num)

  /** `weekly` is Missing to inherit the setting, Unusable for no weekly line. */
  datatype Account = Account(
    id: string,
    buckets: seq<Bucket>,
    dead: bool,
    threshold: Option<real>,
    weekly: Num,
    slotNum: Option<real>,
    addedAt: Option<real>
  )

  datatype Strategy = Best | ConsumeFirst

  /** As requested; each field is None when absent or not finite. */
  datatype Request = Request(
    threshold: Option<real>,
    weekly: Option<real>,
    hysteresis: Option<real>,
    cooldown: Option<real>,
    unhealthyTicks: Option<real>,
    strategy: Strategy
  )

  datatype Settings = Settings(
    threshold: real, weekly: Option<real>, hysteresis: real, cooldown: real, unhealthyTicks: int, strategy: Strategy)

  const IDLE_HOLD := 1800000.0
  const RECOVERY_HYSTERESIS := 300000.0
  const HORIZON := 14400000.0
  const RATIO := 2.0
  const SPENT := 3.0
  const HOUR := 3600000.0
  const BREAKER_LIMIT := 3

  function Max(a: real, b: real): real { if a >= b then a else b }
  function Min(a: real, b: real): real { if a <= b then a else b }

  function Clamp(value: Option<real>, fallback: real, lo: real, hi: real): real {
    if value.None? then fallback else Min(Max(value.value, lo), hi)
  }

  function SettingsFor(r: Request): Settings {
    Settings(
      Clamp(r.threshold, 90.0, 50.0, 99.9),
      if r.weekly.None? then None else Some(Clamp(r.weekly, 90.0, 50.0, 99.9)),
      Clamp(r.hysteresis, 10.0, 0.0, 50.0),
      Clamp(r.cooldown, 300.0, 0.0, 86400.0),
      Clamp(r.unhealthyTicks, 3.0, 1.0, 100.0).Floor,
      r.strategy)
  }

  // ----- one account's windows ------------------------------------------------------------

  /** The highest used percentage, None when no window has a reading. */
  function BindingPct(buckets: seq<Bucket>): Option<real> {
    if buckets == [] then None
    else
      var rest, last := BindingPct(buckets[..|buckets| - 1]), buckets[|buckets| - 1].usedPct;
      if last.None? then rest else if rest.None? then last else Some(Max(rest.value, last.value))
  }

  datatype Binding = Binding(name: string, pct: real, line: real, headroom: real, over: bool)

  function LineHeadroom(pct: real, line: real, ruler: real): real
    requires 50.0 <= line <= 99.9
  {
    if line == ruler then 100.0 - pct
    else if pct <= line then (100.0 - ruler) + (ruler * (line - pct)) / line
    else ((100.0 - ruler) * (100.0 - pct)) / (100.0 - line)
  }

  function WindowOf(b: Bucket, threshold: real, weekly: Option<real>, ruler: real): Binding
    requires b.usedPct.Some? && 50.0 <= threshold <= 99.9 && (weekly.Some? ==> 50.0 <= weekly.value <= 99.9)
  {
    var name := if b.name == "primary" then "5h" else b.name;
    var line := if weekly.None? || name == "5h" then threshold else weekly.value;
    Binding(name, b.usedPct.value, line, LineHeadroom(b.usedPct.value, line, ruler), b.usedPct.value >= line)
  }

  /** An over-line window before any other, then the one with less headroom, then the earlier. */
  predicate Tighter(a: Binding, b: Binding) {
    if a.over == b.over then a.headroom < b.headroom else a.over
  }

  function BindingOf(buckets: seq<Bucket>, threshold: real, weekly: Option<real>, ruler: real): Option<Binding>
    requires 50.0 <= threshold <= 99.9 && (weekly.Some? ==> 50.0 <= weekly.value <= 99.9)
  {
    if buckets == [] then None
    else
      var rest, b := BindingOf(buckets[..|buckets| - 1], threshold, weekly, ruler), buckets[|buckets| - 1];
      if b.usedPct.None? then rest
      else
        var w := WindowOf(b, threshold, weekly, ruler);
        if rest.None? || Tighter(w, rest.value) then Some(w) else rest
  }

  function BindingFor(a: Account, s: Request): Option<Binding> {
    var settings := SettingsFor(s);
    var threshold := Clamp(a.threshold, settings.threshold, 50.0, 99.9);
    var weekly := match a.weekly case Missing => settings.weekly case Unusable => None case Num(v) => Some(v);
    BindingOf(a.buckets, threshold, if weekly.None? then None else Some(Clamp(weekly, threshold, 50.0, 99.9)), settings.threshold)
  }

  function Find(buckets: seq<Bucket>, name: string): Option<Bucket> {
    if buckets == [] then None else if buckets[0].name == name then Some(buckets[0]) else Find(buckets[1..], name)
  }

  function Future(reset: Num, now: real): Option<real> {
    if reset.Num? && reset.v > now then Some(reset.v) else None
  }

  function BindingRecovery(a: Account, binding: Option<Binding>, now: real): Option<real> {
    if binding.None? then None
    else
      var own := Find(a.buckets, binding.value.name);
      var b := if own.Some? then own else if binding.value.name == "5h" then Find(a.buckets, "primary") else None;
      if b.None? then None else Future(b.value.resetAt, now)
  }

  predicate Spent(b: Bucket) { b.usedPct.Some? && b.usedPct.value >= 100.0 }

  /** When the last exhausted window comes back; None when none is exhausted or one has no known reset. */
  function ExhaustedRecovery(buckets: seq<Bucket>, now: real): Option<real> {
    if exists b :: b in buckets && Spent(b) && Future(b.resetAt, now).None? then None
    else LatestReset(buckets)
  }

  function LatestReset(buckets: seq<Bucket>): Option<real> {
    if buckets == [] then None
    else
      var rest, b := LatestReset(buckets[..|buckets| - 1]), buckets[|buckets| - 1];
      if !Spent(b) || !b.resetAt.Num? then rest
      else if rest.None? then Some(b.resetAt.v) else Some(Max(rest.value, b.resetAt.v))
  }

  // ----- the census ---------------------------------------------------------------------------

  datatype Entry = Entry(
    account: Account, index: int, headroom: Option<real>, binding: Option<Binding>, recovery: Option<real>, exhausted: bool)

  datatype World = World(accounts: seq<Account>, now: real, settings: Request)

  function EntryFor(w: World, a: Account, index: int, limited: bool, unknown: bool): Entry {
    var pct := if unknown then None else BindingPct(a.buckets);
    var binding := if unknown then None else BindingFor(a, w.settings);
    Entry(a, index,
          if pct.None? then None else Some(100.0 - pct.value),
          binding,
          BindingRecovery(a, binding, w.now),
          pct.Some? && (limited || pct.value >= 100.0))
  }

  /** The accounts that are not dead, as this tick reads them. */
  function Census(w: World, n: nat, activeId: string, limit: bool, unknown: bool): seq<Entry>
    requires n <= |w.accounts|
  {
    if n == 0 then []
    else
      var rest, a := Census(w, n - 1, activeId, limit, unknown), w.accounts[n - 1];
      if a.dead then rest
      else rest + [EntryFor(w, a, |rest|, a.id == activeId && limit, a.id == activeId && unknown)]
  }

  function FindEntry(all: seq<Entry>, id: string): Option<Entry> {
    if all == [] then None else if all[0].account.id == id then Some(all[0]) else FindEntry(all[1..], id)
  }

  function FindAccount(accounts: seq<Account>, id: string): Option<Account> {
    if accounts == [] then None else if accounts[0].id == id then Some(accounts[0]) else FindAccount(accounts[1..], id)
  }

  // ----- ranking -------------------------------------------------------------------------------

  datatype Trigger = Proactive | AtLimit | Failover | Burn | Parking

  /** A sort key component; None is plus infinity. */
  type Key = seq<Option<real>>

  datatype Keyed = Keyed(entry: Entry, key: Key)

  /** Recovery times, None meaning never. */
  predicate Sooner(a: Option<real>, b: Option<real>, margin: real) {
    a.Some? && (b.None? || a.value < b.value - margin)
  }

  predicate Near(recovery: Option<real>, now: real) {
    recovery.Some? && recovery.value - now <= HORIZON
  }

  predicate RecoveryIsUseful(candidate: Option<real>, active: Option<real>, activeHeadroom: real, best: real, now: real) {
    (activeHeadroom <= SPENT && best <= SPENT) || Near(candidate, now) || Near(active, now)
  }

  function WeeklyReset(a: Account, now: real): Option<real> {
    var reset := PresentReset(a, ["7d", "weekly", "secondary"]);
    Future(reset, now)
  }

  /** The first of these windows that carries a reset at all. */
  function PresentReset(a: Account, names: seq<string>): Num {
    if names == [] then Missing
    else
      var b := Find(a.buckets, names[0]);
      if b.Some? && b.value.resetAt != Missing then b.value.resetAt else PresentReset(a, names[1..])
  }

  predicate Over(e: Entry) { e.binding.Some? && e.binding.value.over }

  function Measured(all: seq<Entry>, activeId: string): seq<Entry> {
    if all == [] then []
    else
      var e := all[|all| - 1];
      Measured(all[..|all| - 1], activeId) + (if e.account.id != activeId && e.headroom.Some? then [e] else [])
  }

  function BestHeadroom(measured: seq<Entry>): real {
    if measured == [] then 0.0
    else Max(BestHeadroom(measured[..|measured| - 1]), measured[|measured| - 1].headroom.GetOr(0.0))
  }

  datatype Slate = Slate(qualified: seq<Keyed>, fallback: seq<Keyed>)

  /** What the ranking of one candidate needs to know of the rest. */
  datatype Race = Race(active: Entry, trigger: Trigger, barred: Option<string>, settings: Settings, now: real, allAbove: bool, best: real)

  function LineRoom(e: Entry): real {
    if e.binding.Some? then e.binding.value.headroom else e.headroom.GetOr(0.0)
  }

  predicate ExpiresFirst(reset: Option<real>, activeReset: Option<real>) {
    reset.Some? && activeReset.Some? && reset.value < activeReset.value
  }

  function Consider(r: Race, slate: Slate, e: Entry): Slate {
    var h, ah := e.headroom.GetOr(0.0), r.active.headroom.GetOr(0.0);
    var voluntary := r.trigger == Proactive || r.trigger == Burn;
    var reset := WeeklyReset(e.account, r.now);
    if h <= 0.0 || r.barred == Some(e.account.id) then slate
    else if voluntary && r.allAbove then
      if RecoveryIsUseful(e.recovery, r.active.recovery, ah, r.best, r.now) then
        if Sooner(e.recovery, r.active.recovery, RECOVERY_HYSTERESIS)
        then slate.(qualified := slate.qualified + [Keyed(e, [Some(0.0), e.recovery, Some(-h)])]) else slate
      else if h >= ah * RATIO then slate.(qualified := slate.qualified + [Keyed(e, [Some(1.0), Some(-h), e.recovery])])
      else if ah <= SPENT && h >= ah && Sooner(e.recovery, r.active.recovery, RECOVERY_HYSTERESIS)
      then slate.(fallback := slate.fallback + [Keyed(e, [Some(0.0), e.recovery, Some(-h)])])
      else slate
    else if voluntary && Over(e) then slate
    else if r.settings.strategy == ConsumeFirst then
      if r.trigger == Burn && !ExpiresFirst(reset, WeeklyReset(r.active.account, r.now))
      then slate
      else slate.(qualified := slate.qualified + [Keyed(e, [reset, Some(-LineRoom(e))])])
    else if r.trigger == Proactive && r.active.binding.Some? && e.binding.Some?
            && e.binding.value.headroom - r.active.binding.value.headroom < r.settings.hysteresis then slate
    else slate.(qualified := slate.qualified
                 + [Keyed(e, if r.allAbove then [Some(1.0), Some(-h), e.recovery] else [Some(-LineRoom(e))])])
  }

  function ConsiderAll(r: Race, measured: seq<Entry>): Slate {
    if measured == [] then Slate([], [])
    else Consider(r, ConsiderAll(r, measured[..|measured| - 1]), measured[|measured| - 1])
  }

  function RaceOf(all: seq<Entry>, active: Entry, trigger: Trigger, barred: Option<string>, settings: Settings, now: real): Race {
    var measured := Measured(all, active.account.id);
    Race(active, trigger, barred, settings, now,
         Over(active) && measured != [] && (forall e :: e in measured ==> Over(e)), BestHeadroom(measured))
  }

  // ----- ordering ------------------------------------------------------------------------------

  datatype Cmp = Less | Same | More

  function CompareTimes(a: Option<real>, b: Option<real>): Cmp {
    if a == b then Same else if b.None? then Less else if a.None? then More
    else if a.value < b.value then Less else More
  }

  function CompareKeys(a: Key, b: Key): Cmp
    decreases |a| + |b|
  {
    if a == [] && b == [] then Same
    else
      var c := CompareTimes(if a == [] then Some(0.0) else a[0], if b == [] then Some(0.0) else b[0]);
      if c != Same then c else CompareKeys(if a == [] then a else a[1..], if b == [] then b else b[1..])
  }

  /** Undefined sorts last, as does None here. */
  function CompareAccounts(a: Entry, b: Entry): Cmp {
    var slot := CompareTimes(a.account.slotNum, b.account.slotNum);
    if slot != Same then slot
    else
      var added := CompareTimes(a.account.addedAt, b.account.addedAt);
      if added != Same then added
      else if a.index < b.index then Less else if a.index > b.index then More else Same
  }

  function CompareKeyed(a: Keyed, b: Keyed): Cmp {
    var c := CompareKeys(a.key, b.key);
    if c != Same then c else CompareAccounts(a.entry, b.entry)
  }

  /** After every element that is not greater: a stable insertion. */
  function InsertKeyed(k: Keyed, sorted: seq<Keyed>): seq<Keyed> {
    if sorted == [] || CompareKeyed(k, sorted[|sorted| - 1]) != Less then sorted + [k]
    else InsertKeyed(k, sorted[..|sorted| - 1]) + [sorted[|sorted| - 1]]
  }

  function SortKeyed(items: seq<Keyed>): seq<Keyed> {
    if items == [] then [] else InsertKeyed(items[|items| - 1], SortKeyed(items[..|items| - 1]))
  }

  /** Qualified candidates in order, or the fallback ones when there are none. */
  function Ranked(all: seq<Entry>, active: Entry, trigger: Trigger, barred: Option<string>, settings: Settings, now: real): seq<Keyed> {
    var slate := ConsiderAll(RaceOf(all, active, trigger, barred, settings, now), Measured(all, active.account.id));
    SortKeyed(if slate.qualified != [] then slate.qualified else slate.fallback)
  }
}
