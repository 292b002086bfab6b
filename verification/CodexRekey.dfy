/**
 Moving Codex accounts from their legacy ids to composite slot ids: the plan, and its
 application to the five dependent tables, the account rows and the audit. Only refresh
 leases and the Codex rows of the usage polls are modelled; leases are named here by the
 account they are for.
 */
module CodexRekey {
  import opened Prelude

  const CODEX := "openai-codex"
  const LEGACY := "codex-default"

  datatype Account = Account(provider: Option<string>, created: int)

  datatype GaugeKey = GaugeKey(account: string, bucket: string)

  datatype Gauge = Gauge(fetched: Option<int>, reading: int)

  /** A snapshot row without a bucket: nothing makes these unique. */
  datatype Loose = Loose(account: string, reading: int)

  datatype Override = Override(account: string, kind: string, session: Option<string>, until: Option<int>)

  datatype Poll = Poll(
    nextDue: Option<int>, heldUntil: Option<int>, backoffUntil: Option<int>, last429: Option<int>, interval: Option<int>,
    failures: Option<int>, attempt: Option<int>, fetch: Option<int>, status: Option<string>, rest: int)

  datatype Kind = Rename | Merge | Orphan

  datatype Move = Move(from: string, to: string, kind: Kind)

  datatype AuditEntry = AuditEntry(to: string, kind: Kind, at: int)

  datatype Tables = Tables(
    accounts: map<string, Account>,
    gauges: map<GaugeKey, Gauge>,
    loose: seq<Loose>,
    overrides: seq<Override>,
    claims: map<string, Option<int>>,
    polls: map<string, Poll>,
    leases: map<string, Option<int>>,
    failover: Option<string>,
    audit: map<string, AuditEntry>)

  datatype Reason = NoProvider | NoSlot | Ambiguous | RecoveryPending | JournalUntrusted | JournalNamed | ProviderMismatch | InUse

  datatype Safety = Safe | Named | Untrusted

  /** What the plan reads besides the tables it moves: slots by id, and what the migration journals say. */
  datatype Context = Context(now: int, slots: map<string, string>, recoveryPending: bool, untrusted: bool, safety: map<string, Safety>)

  predicate Composite(id: string) { ':' in id }

  // ----- the plan -------------------------------------------------------------------------

  function Targets(c: Context, id: string): set<string> {
    if id == LEGACY then c.slots.Keys else set s | s in c.slots && c.slots[s] == id
  }

  predicate IsBare(c: Context, id: string) { exists s :: s in c.slots && c.slots[s] == id }

  /** Every id that one of the five tables mentions. */
  function DependentIds(t: Tables): set<string> {
    (set k | k in t.gauges :: k.account) + (set r | r in t.loose :: r.account) + (set o | o in t.overrides :: o.account)
    + t.claims.Keys + t.polls.Keys + t.leases.Keys
  }

  predicate IsAccountCandidate(t: Tables, id: string) {
    id in t.accounts && t.accounts[id].provider == Some(CODEX) && (id == LEGACY || !Composite(id))
  }

  predicate IsOrphanCandidate(t: Tables, c: Context, id: string) {
    && id !in t.accounts && id in DependentIds(t)
    && (id == LEGACY || IsBare(c, id) || (!Composite(id) && id in t.polls))
  }

  /** A candidate that is not already its own only target. */
  predicate IsCandidate(t: Tables, c: Context, id: string) {
    (IsAccountCandidate(t, id) || IsOrphanCandidate(t, c, id)) && Targets(c, id) != {id}
  }

  /** A live refresh lease, or a poll claim that is not known to have ended. */
  predicate Occupied(t: Tables, c: Context, id: string) {
    || (id in t.leases && t.leases[id].Some? && t.leases[id].value > c.now)
    || (id in t.claims && (t.claims[id].None? || t.claims[id].value > c.now))
  }

  function SafetyOf(c: Context, id: string): Safety { if id in c.safety then c.safety[id] else Safe }

  predicate HasTarget(t: Tables, c: Context, id: string, to: string) {
    IsCandidate(t, c, id) && Targets(c, id) == {to}
  }

  /** Some candidate for this target is in use, or the target is. */
  predicate Busy(t: Tables, c: Context, to: string) {
    exists id :: id in t.accounts.Keys + DependentIds(t) && HasTarget(t, c, id, to) && (Occupied(t, c, id) || Occupied(t, c, to))
  }

  datatype Verdict = Ignore | Skip(reason: Reason) | MoveTo(to: string)

  function VerdictFor(t: Tables, c: Context, id: string): Verdict {
    if id in t.accounts && t.accounts[id].provider.None? && (id == LEGACY || IsBare(c, id)) then Skip(NoProvider)
    else if !IsCandidate(t, c, id) then Ignore
    else if c.recoveryPending then Skip(RecoveryPending)
    else if c.untrusted then Skip(JournalUntrusted)
    else if Targets(c, id) == {} then Skip(NoSlot)
    else if exists a, b :: a in Targets(c, id) && b in Targets(c, id) && a != b then Skip(Ambiguous)
    else
      var to :| to in Targets(c, id);
      if Busy(t, c, to) then Skip(InUse)
      else if SafetyOf(c, id) == Untrusted then Skip(JournalUntrusted)
      else if SafetyOf(c, id) == Named then Skip(JournalNamed)
      else if to in t.accounts && t.accounts[to].provider != Some(CODEX) then Skip(ProviderMismatch)
      else MoveTo(to)
  }

  // ----- one move ----------------------------------------------------------------------------

  predicate Newer(a: Option<int>, b: Option<int>) { a.Some? && (b.None? || a.value > b.value) }

  /** The moved row replaces the target's only when it is strictly newer. */
  function Fresher(source: Gauge, target: Gauge): Gauge {
    if Newer(source.fetched, target.fetched) then source else target
  }

  function GaugeAfter(g: map<GaugeKey, Gauge>, from: string, to: string, k: GaugeKey): Gauge
    requires k in g || (k.account == to && GaugeKey(from, k.bucket) in g)
  {
    var source := GaugeKey(from, k.bucket);
    if k.account != to || source !in g then g[k]
    else if k !in g then g[source]
    else Fresher(g[source], g[k])
  }

  function KeysAfter(g: map<GaugeKey, Gauge>, from: string, to: string): set<GaugeKey> {
    (set k | k in g && k.account != from) + (set k | k in g && k.account == from :: GaugeKey(to, k.bucket))
  }

  function GaugesAfter(g: map<GaugeKey, Gauge>, from: string, to: string): map<GaugeKey, Gauge> {
    map k | k in KeysAfter(g, from, to) :: GaugeAfter(g, from, to, k)
  }

  function LooseAfter(rows: seq<Loose>, from: string, to: string): seq<Loose> {
    seq(|rows|, k requires 0 <= k < |rows| => if rows[k].account == from then rows[k].(account := to) else rows[k])
  }

  function Renamed(rows: seq<Override>, from: string, to: string): seq<Override> {
    seq(|rows|, k requires 0 <= k < |rows| => if rows[k].account == from then rows[k].(account := to) else rows[k])
  }

  /** Of equal rows of `to`, only the oldest stays. */
  function Deduplicated(rows: seq<Override>, to: string): seq<Override> {
    if rows == [] then []
    else
      var init, last := rows[..|rows| - 1], rows[|rows| - 1];
      Deduplicated(init, to) + (if last.account == to && last in init then [] else [last])
  }

  function OverridesAfter(rows: seq<Override>, from: string, to: string): seq<Override> {
    Deduplicated(Renamed(rows, from, to), to)
  }

  predicate Ended(until: Option<int>, now: int) { until.Some? && until.value <= now }

  /** A claim or lease moves when its new place is free; otherwise it is dropped once it has ended. */
  function SlotAfter(m: map<string, Option<int>>, from: string, to: string, now: int): map<string, Option<int>> {
    if from !in m then m
    else if to !in m then (m - {from})[to := m[from]]
    else if Ended(m[from], now) then m - {from}
    else m
  }

  function Larger(a: Option<int>, b: Option<int>): Option<int> {
    if a.None? then b else if b.None? then a else if a.value >= b.value then a else b
  }

  function StatusFrom(source: Poll, target: Poll): Option<string> {
    if Newer(source.attempt, target.attempt) then source.status
    else if Newer(target.attempt, source.attempt) then target.status
    else if Newer(source.fetch, target.fetch) then source.status
    else target.status
  }

  function Merged(source: Poll, target: Poll): Poll {
    Poll(Larger(source.nextDue, target.nextDue), Larger(source.heldUntil, target.heldUntil),
         Larger(source.backoffUntil, target.backoffUntil), Larger(source.last429, target.last429),
         Larger(source.interval, target.interval), Larger(source.failures, target.failures),
         Larger(source.attempt, target.attempt), Larger(source.fetch, target.fetch),
         StatusFrom(source, target), target.rest)
  }

  function PollsAfter(m: map<string, Poll>, from: string, to: string): map<string, Poll> {
    if from !in m then m
    else if to !in m then (m - {from})[to := m[from]]
    else (m - {from})[to := Merged(m[from], m[to])]
  }

  function DependentsAfter(t: Tables, from: string, to: string, now: int): Tables {
    t.(gauges := GaugesAfter(t.gauges, from, to), loose := LooseAfter(t.loose, from, to),
       overrides := OverridesAfter(t.overrides, from, to), claims := SlotAfter(t.claims, from, to, now),
       polls := PollsAfter(t.polls, from, to), leases := SlotAfter(t.leases, from, to, now))
  }

  function AccountsAfter(accounts: map<string, Account>, m: Move, now: int): map<string, Account> {
    match m.kind
    case Rename => if m.from in accounts then (accounts - {m.from})[m.to := accounts[m.from]] else accounts
    case Merge => accounts - {m.from}
    case Orphan => if m.to in accounts then accounts else accounts[m.to := Account(Some(CODEX), now)]
  }

  /** One move, whole: its dependents, its account row, the failover pointer, the audit. */
  function MoveAfter(t: Tables, m: Move, now: int): Tables {
    DependentsAfter(t, m.from, m.to, now).(
      accounts := AccountsAfter(t.accounts, m, now),
      failover := if t.failover == Some(m.from) then Some(m.to) else t.failover,
      audit := t.audit[m.from := AuditEntry(m.to, m.kind, now)])
  }

  /** The state after a prefix of the moves, guards aside. */
  function After(t: Tables, moves: seq<Move>, now: int): Tables {
    if moves == [] then t else MoveAfter(After(t, moves[..|moves| - 1], now), moves[|moves| - 1], now)
  }

  lemma AfterNext(t: Tables, moves: seq<Move>, k: nat, now: int)
    requires k < |moves|
    ensures After(t, moves[..k + 1], now) == MoveAfter(After(t, moves[..k], now), moves[k], now)
  {
    assert moves[..k + 1][..k] == moves[..k];
  }

  /** Dependents still under the id being merged away. */
  predicate GuardTrips(t: Tables, m: Move, now: int) {
    m.kind == Merge && m.from in DependentIds(DependentsAfter(t, m.from, m.to, now))
  }

  predicate Trips(t: Tables, moves: seq<Move>, now: int) {
    exists k :: 0 <= k < |moves| && GuardTrips(After(t, moves[..k], now), moves[k], now)
  }

  datatype Outcome = Applied | SelfMove | DependentsRemain

  /** The gauges while the rows in `todo` have yet to move. */
  ghost predicate Halfway(before: map<GaugeKey, Gauge>, now: map<GaugeKey, Gauge>, from: string, to: string, todo: set<GaugeKey>) {
    && (forall k :: k in now <==>
          || (k in before && k.account != from)
          || k in todo
          || (k.account == to && GaugeKey(from, k.bucket) in before && GaugeKey(from, k.bucket) !in todo))
    && (forall k :: k in todo ==> k in before && k.account == from)
    && (forall k :: k in now && k.account != to ==> k in before && now[k] == before[k])
    && (forall k :: k in now && k.account == to && (GaugeKey(from, k.bucket) !in before || GaugeKey(from, k.bucket) in todo) ==> now[k] == before[k])
    && (forall k :: k in now && k.account == to && GaugeKey(from, k.bucket) in before && GaugeKey(from, k.bucket) !in todo ==>
          now[k] == GaugeAfter(before, from, to, k))
  }

  lemma OneRowMoved(before: map<GaugeKey, Gauge>, was: map<GaugeKey, Gauge>, now: map<GaugeKey, Gauge>, from: string, to: string,
                    todo: set<GaugeKey>, source: GaugeKey)
    requires from != to && Halfway(before, was, from, to, todo) && source in todo
    requires var target := GaugeKey(to, source.bucket);
             now == if target !in was || Newer(was[source].fetched, was[target].fetched)
                    then (was - {source})[target := was[source]] else was - {source}
    ensures Halfway(before, now, from, to, todo - {source})
  {
    var target := GaugeKey(to, source.bucket);
    assert source == GaugeKey(from, source.bucket);
    assert forall k :: k != source && k != target ==> (k in now <==> k in was) && (k in was ==> now[k] == was[k]);
  }

  // ----- the database ----------------------------------------------------------------------------

  /** The tables a caller's transaction works on, changed row by row. */
  class Database {
    var gauges: map<GaugeKey, Gauge>
    var loose: seq<Loose>
    var overrides: seq<Override>
    var claims: map<string, Option<int>>
    var polls: map<string, Poll>
    var leases: map<string, Option<int>>
    var accounts: map<string, Account>
    var failover: Option<string>
    var audit: map<string, AuditEntry>

    ghost function Contents(): Tables
      reads this
    {
      Tables(accounts, gauges, loose, overrides, claims, polls, leases, failover, audit)
    }

    constructor (t: Tables)
      ensures Contents() == t
    {
      gauges, loose, overrides, claims, polls := t.gauges, t.loose, t.overrides, t.claims, t.polls;
      leases, accounts, failover, audit := t.leases, t.accounts, t.failover, t.audit;
    }

    /** Source rows one at a time: moved, or compared with the row already there. */
    method MoveSnapshots(from: string, to: string)
      requires from != to
      modifies this`gauges
      ensures gauges == GaugesAfter(old(gauges), from, to)
    {
      ghost var before := gauges;
      var sources := set k | k in gauges && k.account == from;
      var todo := sources;
      while todo != {}
        invariant todo <= sources
        invariant Halfway(before, gauges, from, to, todo)
        decreases todo
      {
        var source :| source in todo;
        var target := GaugeKey(to, source.bucket);
        ghost var was := gauges;
        if target !in gauges || Newer(gauges[source].fetched, gauges[target].fetched) {
          gauges := (gauges - {source})[target := gauges[source]];
        } else {
          gauges := gauges - {source};
        }
        OneRowMoved(before, was, gauges, from, to, todo, source);
        todo := todo - {source};
      }
    }

    method MoveLooseSnapshots(from: string, to: string)
      modifies this`loose
      ensures loose == LooseAfter(old(loose), from, to)
    {
      for k := 0 to |loose|
        invariant |loose| == |old(loose)|
        invariant forall j :: 0 <= j < |loose| ==>
                    loose[j] == if j < k && old(loose)[j].account == from then old(loose)[j].(account := to) else old(loose)[j]
      {
        if loose[k].account == from { loose := loose[k := loose[k].(account := to)]; }
      }
    }

    method MoveOverrides(from: string, to: string)
      modifies this`overrides
      ensures overrides == OverridesAfter(old(overrides), from, to)
    {
      var rows := Renamed(overrides, from, to);
      var kept := [];
      for k := 0 to |rows|
        invariant kept == Deduplicated(rows[..k], to)
      {
        assert rows[..k + 1][..k] == rows[..k];
        if !(rows[k].account == to && rows[k] in rows[..k]) { kept := kept + [rows[k]]; }
      }
      assert rows[..|rows|] == rows;
      overrides := kept;
    }

    method MovePollClaim(from: string, to: string, now: int)
      modifies this`claims
      ensures claims == SlotAfter(old(claims), from, to, now)
    {
      if from in claims {
        if to !in claims {
          claims := (claims - {from})[to := claims[from]];
        } else if Ended(claims[from], now) {
          claims := claims - {from};
        }
      }
    }

    method MoveLease(from: string, to: string, now: int)
      modifies this`leases
      ensures leases == SlotAfter(old(leases), from, to, now)
    {
      if from in leases {
        if to !in leases {
          leases := (leases - {from})[to := leases[from]];
        } else if Ended(leases[from], now) {
          leases := leases - {from};
        }
      }
    }

    method MoveUsagePoll(from: string, to: string)
      requires from != to
      modifies this`polls
      ensures polls == PollsAfter(old(polls), from, to)
    {
      if from in polls {
        if to in polls {
          polls := polls[to := Merged(polls[from], polls[to])] - {from};
        } else {
          polls := (polls - {from})[to := polls[from]];
        }
      }
    }

    /** Every move in turn; a merge that would strand a dependent stops the whole application. */
    method Apply(moves: seq<Move>, now: int) returns (r: Outcome)
      modifies this
      ensures r == SelfMove <==> exists k :: 0 <= k < |moves| && moves[k].from == moves[k].to
      ensures r == SelfMove ==> Contents() == old(Contents())
      ensures r == DependentsRemain ==> Trips(old(Contents()), moves, now)
      ensures r == Applied ==> !Trips(old(Contents()), moves, now) && Contents() == After(old(Contents()), moves, now)
    {
      hide GuardTrips, MoveAfter;
      if exists k :: 0 <= k < |moves| && moves[k].from == moves[k].to { return SelfMove; }
      ghost var before := Contents();
      assert moves[..0] == [];
      for k := 0 to |moves|
        invariant Contents() == After(before, moves[..k], now)
        invariant forall j :: 0 <= j < k ==> !GuardTrips(After(before, moves[..j], now), moves[j], now)
      {
        AfterNext(before, moves, k, now);
        var stopped := ApplyMove(moves[k], now);
        if stopped { return DependentsRemain; }
      }
      assert moves[..|moves|] == moves;
      r := Applied;
    }

    method ApplyMove(m: Move, now: int) returns (stopped: bool)
      requires m.from != m.to
      modifies this
      ensures stopped <==> GuardTrips(old(Contents()), m, now)
      ensures !stopped ==> Contents() == MoveAfter(old(Contents()), m, now)
    {
      hide GaugesAfter, LooseAfter, OverridesAfter, SlotAfter, PollsAfter, DependentIds;
      MoveSnapshots(m.from, m.to);
      MoveLooseSnapshots(m.from, m.to);
      MoveOverrides(m.from, m.to);
      MovePollClaim(m.from, m.to, now);
      MoveUsagePoll(m.from, m.to);
      MoveLease(m.from, m.to, now);
      if m.kind == Merge {
        stopped := Remaining(m.from);
        if stopped { return; }
      }
      stopped := false;
      accounts := AccountsAfter(accounts, m, now);
      if failover == Some(m.from) { failover := Some(m.to); }
      audit := audit[m.from := AuditEntry(m.to, m.kind, now)];
    }

    /** Whether any of the five tables still mentions the id. */
    method Remaining(id: string) returns (some: bool)
      ensures some <==> id in DependentIds(Contents())
    {
      some := || (exists k :: k in gauges && k.account == id)
              || (exists r :: r in loose && r.account == id)
              || (exists o :: o in overrides && o.account == id)
              || id in claims || id in polls || id in leases;
    }
  }

  // ----- planning -----------------------------------------------------------------------------------

  /** The moves of every id whose verdict is to move, in some order, each kind as that order makes it. */
  ghost predicate IsPlan(t: Tables, c: Context, moves: seq<Move>) {
    && (forall k :: 0 <= k < |moves| ==> VerdictFor(t, c, moves[k].from) == MoveTo(moves[k].to))
    && (forall id :: VerdictFor(t, c, id).MoveTo? ==> Planned(moves, id))
    && (forall j, k :: 0 <= j < k < |moves| ==> moves[j].from != moves[k].from)
    && (forall k :: 0 <= k < |moves| ==> moves[k].kind == KindAt(t, moves, k))
  }

  predicate Planned(moves: seq<Move>, id: string) {
    exists k :: 0 <= k < |moves| && moves[k].from == id
  }

  predicate TargetedBefore(moves: seq<Move>, k: nat, to: string)
    requires k <= |moves|
  {
    exists j :: 0 <= j < k && moves[j].to == to
  }

  function KindAt(t: Tables, moves: seq<Move>, k: nat): Kind
    requires k < |moves|
  {
    if moves[k].from !in t.accounts then Orphan
    else if moves[k].to in t.accounts || TargetedBefore(moves, k, moves[k].to) then Merge
    else Rename
  }

  /** Candidates are found among the accounts and whatever the dependent tables mention. */
  method Plan(t: Tables, c: Context) returns (moves: seq<Move>, skipped: map<string, Reason>)
    ensures IsPlan(t, c, moves)
    ensures forall id :: id in skipped <==> VerdictFor(t, c, id).Skip?
    ensures forall id :: id in skipped ==> VerdictFor(t, c, id) == Skip(skipped[id])
  {
    hide VerdictFor, DependentIds;
    moves, skipped := [], map[];
    var all := t.accounts.Keys + DependentIds(t);
    var todo, targets := all, t.accounts.Keys;
    while todo != {}
      invariant todo <= all
      invariant forall k :: 0 <= k < |moves| ==> moves[k].from in all - todo && VerdictFor(t, c, moves[k].from) == MoveTo(moves[k].to)
      invariant forall id :: id in all - todo && VerdictFor(t, c, id).MoveTo? ==> Planned(moves, id)
      invariant forall j, k :: 0 <= j < k < |moves| ==> moves[j].from != moves[k].from
      invariant forall k :: 0 <= k < |moves| ==> moves[k].kind == KindAt(t, moves, k)
      invariant forall to :: to in targets <==> to in t.accounts || TargetedBefore(moves, |moves|, to)
      invariant forall id :: id in skipped <==> id in all - todo && VerdictFor(t, c, id).Skip?
      invariant forall id :: id in skipped ==> VerdictFor(t, c, id) == Skip(skipped[id])
      decreases todo
    {
      var id :| id in todo;
      var verdict := VerdictFor(t, c, id);
      todo := todo - {id};
      match verdict
      case Ignore =>
      case Skip(reason) => skipped := skipped[id := reason];
      case MoveTo(to) =>
        ghost var before := moves;
        var m := Move(id, to, if id !in t.accounts then Orphan else if to in targets then Merge else Rename);
        moves := moves + [m];
        targets := targets + {to};
        PlanGrows(t, before, m);
    }
    forall id | VerdictFor(t, c, id) != Ignore ensures id in all { OnlyKnownIds(t, c, id); }
  }

  lemma OnlyKnownIds(t: Tables, c: Context, id: string)
    requires VerdictFor(t, c, id) != Ignore
    ensures id in t.accounts.Keys + DependentIds(t)
  {
  }

  lemma PlanGrows(t: Tables, before: seq<Move>, m: Move)
    ensures var after := before + [m];
            && (forall k :: 0 <= k < |before| ==> KindAt(t, after, k) == KindAt(t, before, k))
            && (forall to :: TargetedBefore(after, |after|, to) <==> TargetedBefore(before, |before|, to) || to == m.to)
            && (forall to :: TargetedBefore(after, |before|, to) <==> TargetedBefore(before, |before|, to))
            && (forall id :: Planned(after, id) <==> Planned(before, id) || id == m.from)
  {
    var after := before + [m];
    forall k, to | 0 <= k <= |before| ensures TargetedBefore(after, k, to) <==> TargetedBefore(before, k, to) {
      if TargetedBefore(before, k, to) {
        var j :| 0 <= j < k && before[j].to == to;
        assert after[j].to == to;
      }
    }
    assert after[|before|] == m;
    forall id | Planned(before, id) ensures Planned(after, id) {
      var j :| 0 <= j < |before| && before[j].from == id;
      assert after[j].from == id;
    }
    forall to | TargetedBefore(before, |before|, to) ensures TargetedBefore(after, |after|, to) {
      var j :| 0 <= j < |before| && before[j].to == to;
      assert after[j].to == to;
    }
  }
}
