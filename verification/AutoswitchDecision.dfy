/** One tick of the auto-switch engine: hold, refuse, park or move, in the source's order. */
module AutoswitchDecision {
  import opened Prelude
  import opened Autoswitch

  /** A persisted field of the last switch: never written, written as null, or a number. */
  datatype Recorded = Unset | Null | Number(v: real)

  datatype LastSwitch = LastSwitch(from: Option<string>, to: Option<string>, headroom: Recorded, recovery: Recorded, trigger: Option<Trigger>)

  datatype BreakerRow = BreakerRow(ts: real, trigger: Trigger, ok: bool, automatic: bool, injected: bool)

  datatype Suspension = Suspension(until: Option<real>, lastEnd: Option<real>, resumedAt: Option<real>)

  datatype Input = Input(
    world: World,
    active: Option<string>,
    providerLimit: bool,
    credentialExpired: bool,
    usageUnknown: bool,
    idleHoldSince: Option<real>,
    lastSwitchAt: Option<real>,
    unhealthyTicks: int,
    parkedUntil: Option<real>,
    last: LastSwitch,
    suspension: Suspension,
    rows: seq<BreakerRow>,
    codexUnverified: bool,
    burnRequested: bool
  )

  datatype StayReason =
    | BelowThreshold | Cooldown | Unknown | ActiveIdle | NoActiveAccount | NoCandidates | NoComparison
    | NoQualifyingCandidate | ResetUnknown | Breaker | CodexUnverified

  datatype Decision =
    | Stay(reason: StayReason, ticks: int, idleHoldSince: Option<real>, suspendedUntil: Option<real>)
    | Switch(target: string, trigger: Trigger, ticks: int, parkedUntil: Option<real>, leftHeadroom: Option<real>, leftRecovery: Option<real>)
    | Parked(account: string, resetAt: real, ticks: int)

  function Hold(reason: StayReason, ticks: int): Decision { Stay(reason, ticks, None, None) }

  function MoveTo(target: Entry, trigger: Trigger, active: Entry, ticks: int, parkedUntil: Option<real>): Decision {
    Switch(target.account.id, trigger, ticks, parkedUntil, active.headroom, active.recovery)
  }

  // ----- not going back ------------------------------------------------------------------

  predicate LeftByFailover(last: LastSwitch) {
    last.trigger == Some(Failover) || (last.trigger.None? && last.headroom == Null && last.recovery == Null)
  }

  function Time(r: Recorded): Option<real> { if r.Number? then Some(r.v) else None }

  /** The account that was left is better than it was, or clearly better than this one. */
  predicate Recovered(last: LastSwitch, left: Option<Entry>, active: Entry, now: real) {
    if last.from.None? || last.headroom == Unset then true
    else if left.None? then false
    else
      var l := left.value;
      if LeftByFailover(last) then
        || (l.binding.Some? && !l.binding.value.over)
        || ((active.recovery.Some? || Near(l.recovery, now)) && Sooner(l.recovery, active.recovery, RECOVERY_HYSTERESIS))
      else
        || (l.headroom.Some? && active.headroom.Some? && l.headroom.value > active.headroom.value * RATIO + SPENT)
        || (last.headroom.Number? && l.headroom.Some? && l.headroom.value >= Min(last.headroom.v + SPENT, 100.0))
        || Sooner(l.recovery, Time(last.recovery), RECOVERY_HYSTERESIS)
  }

  datatype NoReturn = NoReturn(barred: Option<string>, recovered: bool)

  function NoReturnOf(last: LastSwitch, trigger: Trigger, all: seq<Entry>, active: Entry, now: real): NoReturn {
    if (trigger != Proactive && trigger != Burn) || last.from.None? then NoReturn(None, true)
    else if last.to.Some? && last.to.value != active.account.id then NoReturn(None, true)
    else
      var left := FindEntry(all, last.from.value);
      if !Recovered(last, left, active, now) then NoReturn(last.from, false)
      else if left.Some? && left.value.headroom.Some?
              && (if active.headroom.Some? then left.value.headroom.value >= active.headroom.value * RATIO
                  else left.value.binding.Some? && !left.value.binding.value.over)
      then NoReturn(None, true)
      else NoReturn(last.from, true)
  }

  // ----- the breaker --------------------------------------------------------------------------

  predicate Guarded(t: Trigger) { t == Failover || t == AtLimit }

  function Since(s: Suspension, now: real): real {
    Max(Max(now - HOUR, s.lastEnd.GetOr(now - HOUR)), s.resumedAt.GetOr(now - HOUR))
  }

  predicate Counts(row: BreakerRow, since: real) {
    row.ts > since && row.ok && Guarded(row.trigger) && row.automatic && !row.injected
  }

  function CountSince(rows: seq<BreakerRow>, since: real): nat {
    if rows == [] then 0
    else CountSince(rows[..|rows| - 1], since) + (if Counts(rows[|rows| - 1], since) then 1 else 0)
  }

  predicate Suspended(s: Suspension, now: real) { s.until.Some? && s.until.value > now }

  /** Why a guarded switch may not happen now, if it may not. */
  function BreakerOf(s: Suspension, rows: seq<BreakerRow>, trigger: Trigger, now: real, ticks: int): Option<Decision> {
    if !Guarded(trigger) then None
    else if Suspended(s, now) then Some(Stay(Breaker, ticks, None, s.until))
    else if CountSince(rows, Since(s, now)) >= BREAKER_LIMIT then Some(Stay(Breaker, ticks, None, Some(now + HOUR)))
    else None
  }

  // ----- parking --------------------------------------------------------------------------------

  function WithResets(all: seq<Entry>, now: real): seq<Keyed> {
    if all == [] then []
    else
      var e := all[|all| - 1];
      var reset := ExhaustedRecovery(e.account.buckets, now);
      WithResets(all[..|all| - 1], now) + (if reset.Some? then [Keyed(e, [reset])] else [])
  }

  function ParkedOf(all: seq<Entry>, active: Entry, parkedUntil: Option<real>, now: real, ticks: int): Decision {
    var sorted := SortKeyed(WithResets(all, now));
    if sorted == [] || sorted[0].key == [] || sorted[0].key[0].None? then Hold(ResetUnknown, ticks)
    else
      var target, reset := sorted[0].entry, sorted[0].key[0].value;
      if target.account.id == active.account.id || parkedUntil == Some(reset)
      then Parked(target.account.id, reset, ticks)
      else MoveTo(target, Parking, active, ticks, Some(reset))
  }

  // ----- the tick --------------------------------------------------------------------------------

  function DecideWith(i: Input, settings: Settings, trigger: Trigger, ticks: int, all: seq<Entry>, active: Entry): Decision {
    if i.codexUnverified then Hold(CodexUnverified, ticks)
    else
      var back := NoReturnOf(i.last, trigger, all, active, i.world.now);
      var first := Ranked(all, active, trigger, back.barred, settings, i.world.now);
      var ranked := if back.barred.Some? && back.recovered && first == [] then Ranked(all, active, trigger, None, settings, i.world.now) else first;
      if ranked != [] then
        var breaker := BreakerOf(i.suspension, i.rows, trigger, i.world.now, ticks);
        if breaker.Some? then breaker.value else MoveTo(ranked[0].entry, trigger, active, ticks, None)
      else if all != [] && (forall e :: e in all ==> e.exhausted) then ParkedOf(all, active, i.parkedUntil, i.world.now, ticks)
      else if forall e :: e in all ==> e.account.id == active.account.id then Hold(NoCandidates, ticks)
      else if Measured(all, active.account.id) == [] then Hold(NoComparison, ticks)
      else Hold(NoQualifyingCandidate, ticks)
  }

  predicate PastIdleHold(i: Input) {
    i.credentialExpired && i.idleHoldSince.Some? && i.world.now - i.idleHoldSince.value >= IDLE_HOLD
  }

  /** What a known reading of the active account calls for; None below its line. */
  function KnownTrigger(i: Input, active: Account, pct: real): Option<Trigger> {
    if i.providerLimit || pct >= 100.0 then Some(AtLimit)
    else
      var b := BindingFor(active, i.world.settings);
      var over := b.Some? && b.value.over;
      if (i.world.settings.strategy == ConsumeFirst || i.burnRequested) && !over then Some(Burn)
      else if over then Some(Proactive)
      else None
  }

  function Decide(i: Input): Decision {
    var settings := SettingsFor(i.world.settings);
    var found := if i.active.None? then None else FindAccount(i.world.accounts, i.active.value);
    if found.None? then Hold(NoActiveAccount, 0)
    else if i.credentialExpired && i.world.now - i.idleHoldSince.GetOr(i.world.now) < IDLE_HOLD
    then Stay(ActiveIdle, 0, Some(i.idleHoldSince.GetOr(i.world.now)), None)
    else
      var active := found.value;
      var pct := if active.dead || PastIdleHold(i) || i.usageUnknown then None else BindingPct(active.buckets);
      var ticks := if pct.None? then i.unhealthyTicks + 1 else 0;
      if pct.None? && ticks < settings.unhealthyTicks then Hold(Unknown, ticks)
      else
        var trigger := if pct.None? then Some(Failover) else KnownTrigger(i, active, pct.value);
        if trigger.None? then Hold(BelowThreshold, ticks)
        else if (trigger.value == Proactive || trigger.value == Burn)
                && i.lastSwitchAt.Some? && i.world.now - i.lastSwitchAt.value < settings.cooldown * 1000.0
        then Hold(Cooldown, ticks)
        else
          var all := Census(i.world, |i.world.accounts|, active.id, i.providerLimit && pct.Some?, PastIdleHold(i) || i.usageUnknown);
          var entry := FindEntry(all, active.id);
          DecideWith(i, settings, trigger.value, ticks, all,
                     if entry.Some? then entry.value else Entry(active, -1, None, None, None, false))
  }

  // ----- the loops ------------------------------------------------------------------------------

  method BindingPercentage(buckets: seq<Bucket>) returns (binding: Option<real>)
    ensures binding == BindingPct(buckets)
  {
    binding := None;
    for k := 0 to |buckets|
      invariant binding == BindingPct(buckets[..k])
    {
      assert buckets[..k + 1][..k] == buckets[..k];
      if buckets[k].usedPct.Some? {
        binding := if binding.None? then buckets[k].usedPct else Some(Max(binding.value, buckets[k].usedPct.value));
      }
    }
    assert buckets[..|buckets|] == buckets;
  }

  method BindingWindow(buckets: seq<Bucket>, threshold: real, weekly: Option<real>, ruler: real) returns (best: Option<Binding>)
    requires 50.0 <= threshold <= 99.9 && (weekly.Some? ==> 50.0 <= weekly.value <= 99.9)
    ensures best == BindingOf(buckets, threshold, weekly, ruler)
  {
    best := None;
    for k := 0 to |buckets|
      invariant best == BindingOf(buckets[..k], threshold, weekly, ruler)
    {
      assert buckets[..k + 1][..k] == buckets[..k];
      if buckets[k].usedPct.Some? {
        var candidate := WindowOf(buckets[k], threshold, weekly, ruler);
        if best.None? || Tighter(candidate, best.value) { best := Some(candidate); }
      }
    }
    assert buckets[..|buckets|] == buckets;
  }

  method LastRecovery(buckets: seq<Bucket>, now: real) returns (r: Option<real>)
    ensures r == ExhaustedRecovery(buckets, now)
  {
    r := None;
    for k := 0 to |buckets|
      invariant forall b :: b in buckets[..k] && Spent(b) ==> Future(b.resetAt, now).Some?
      invariant r == LatestReset(buckets[..k])
    {
      assert buckets[..k + 1][..k] == buckets[..k] && buckets[k] in buckets;
      if Spent(buckets[k]) {
        var reset := Future(buckets[k].resetAt, now);
        if reset.None? { return None; }
        r := if r.None? then reset else Some(Max(r.value, reset.value));
      }
    }
    assert buckets[..|buckets|] == buckets;
  }

  method RankCandidates(all: seq<Entry>, active: Entry, trigger: Trigger, barred: Option<string>, settings: Settings, now: real)
    returns (ordered: seq<Keyed>, anyKnown: bool)
    ensures ordered == Ranked(all, active, trigger, barred, settings, now)
    ensures anyKnown <==> Measured(all, active.account.id) != []
  {
    var measured := Measured(all, active.account.id);
    var race := RaceOf(all, active, trigger, barred, settings, now);
    var slate := Slate([], []);
    for k := 0 to |measured|
      invariant slate == ConsiderAll(race, measured[..k])
    {
      assert measured[..k + 1][..k] == measured[..k];
      slate := Consider(race, slate, measured[k]);
    }
    assert measured[..|measured|] == measured;
    ordered := SortKeyed(if slate.qualified != [] then slate.qualified else slate.fallback);
    anyKnown := measured != [];
  }

  method ParkedDecision(all: seq<Entry>, active: Entry, parkedUntil: Option<real>, now: real, ticks: int) returns (d: Decision)
    ensures d == ParkedOf(all, active, parkedUntil, now, ticks)
  {
    var known: seq<Keyed> := [];
    for k := 0 to |all|
      invariant known == WithResets(all[..k], now)
    {
      assert all[..k + 1][..k] == all[..k];
      var reset := LastRecovery(all[k].account.buckets, now);
      if reset.Some? { known := known + [Keyed(all[k], [reset])]; }
    }
    assert all[..|all|] == all;
    var sorted := SortKeyed(known);
    if sorted == [] || sorted[0].key == [] || sorted[0].key[0].None? { return Hold(ResetUnknown, ticks); }
    var target, reset := sorted[0].entry, sorted[0].key[0].value;
    if target.account.id == active.account.id || parkedUntil == Some(reset) { return Parked(target.account.id, reset, ticks); }
    d := MoveTo(target, Parking, active, ticks, Some(reset));
  }
}
