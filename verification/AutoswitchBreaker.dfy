/**
 The breaker over a whole run of ticks: what the loop persists after each decision, an
 operator's resume, and every other switch that the log may gain in between.
 */
module AutoswitchBreaker {
  import opened Prelude
  import opened Autoswitch
  import opened AutoswitchDecision

  datatype Guard = Guard(rows: seq<BreakerRow>, suspension: Suspension, clock: real)

  datatype Event =
    /** A tick that found somewhere to go when `ready`; `commit` is when its switch landed, if it did. */
    | Tick(now: real, trigger: Trigger, ready: bool, commit: Option<real>, injected: bool)
    | Resume(now: real)
    | Logged(row: BreakerRow)

  /** A failover or an at-limit switch that the loop itself made. */
  predicate Automatic(row: BreakerRow) { row.ok && Guarded(row.trigger) && row.automatic && !row.injected }

  /** Time moves forward, and a switch lands after the tick that decided it. */
  predicate InTime(g: Guard, e: Event) {
    match e
    case Tick(now, _, _, commit, _) => g.clock <= now && (commit.Some? ==> now <= commit.value)
    case Resume(now) => g.clock <= now
    case Logged(row) => !Automatic(row)
  }

  function BreakerDecision(g: Guard, e: Event): Option<Decision>
    requires e.Tick?
  {
    if e.ready then BreakerOf(g.suspension, g.rows, e.trigger, e.now, 0) else None
  }

  function Persist(s: Suspension, d: Option<Decision>, now: real): Suspension {
    if d.Some? && d.value.Stay? && d.value.suspendedUntil.Some? then s.(until := d.value.suspendedUntil)
    else if s.until.Some? && s.until.value <= now then s.(until := None, lastEnd := Some(now))
    else s
  }

  function Step(g: Guard, e: Event): Guard {
    match e
    case Tick(now, trigger, ready, commit, injected) =>
      var d := BreakerDecision(g, e);
      var switched := ready && d.None? && commit.Some?;
      Guard(
        if switched then g.rows + [BreakerRow(commit.value, trigger, true, true, injected)] else g.rows,
        Persist(g.suspension, d, now),
        if switched then commit.value else now)
    case Resume(now) => Guard(g.rows, Suspension(None, g.suspension.lastEnd, Some(now)), now)
    case Logged(row) => g.(rows := g.rows + [row])
  }

  function Run(g: Guard, events: seq<Event>): Guard {
    if events == [] then g else Step(Run(g, events[..|events| - 1]), events[|events| - 1])
  }

  ghost predicate AllInTime(g: Guard, events: seq<Event>) {
    events != [] ==>
      AllInTime(g, events[..|events| - 1]) && InTime(Run(g, events[..|events| - 1]), events[|events| - 1])
  }

  // ----- at most three an hour -----------------------------------------------------------------

  /** The automatic rows after `from`, up to and including `to`. */
  function CountWithin(rows: seq<BreakerRow>, from: real, to: real): nat {
    if rows == [] then 0
    else
      var row := rows[|rows| - 1];
      CountWithin(rows[..|rows| - 1], from, to) + (if Automatic(row) && from < row.ts <= to then 1 else 0)
  }

  /** The latest moment the breaker was reset, by a suspension's end or by an operator; `low` if never. */
  function ResetAfter(s: Suspension, low: real): real {
    Max(Max(low, s.lastEnd.GetOr(low)), s.resumedAt.GetOr(low))
  }

  ghost predicate Limited(g: Guard) {
    && (g.suspension.lastEnd.Some? ==> g.suspension.lastEnd.value <= g.clock)
    && (g.suspension.resumedAt.Some? ==> g.suspension.resumedAt.value <= g.clock)
    && forall from :: CountWithin(g.rows, ResetAfter(g.suspension, from), from + HOUR) <= BREAKER_LIMIT
  }

  lemma {:induction false} CountShrinks(rows: seq<BreakerRow>, from: real, later: real, to: real)
    requires from <= later
    ensures CountWithin(rows, later, to) <= CountWithin(rows, from, to)
  {
    if rows != [] { CountShrinks(rows[..|rows| - 1], from, later, to); }
  }

  lemma {:induction false} CountsAgree(rows: seq<BreakerRow>, from: real, to: real)
    ensures CountWithin(rows, from, to) <= CountSince(rows, from)
  {
    if rows != [] { CountsAgree(rows[..|rows| - 1], from, to); }
  }

  /** A step adds at most one row; an automatic one only after fewer than three since the reset. */
  lemma StepAddsRow(g: Guard, e: Event)
    requires InTime(g, e)
    ensures var h := Step(g, e);
            || h.rows == g.rows
            || exists row :: h.rows == g.rows + [row]
                 && (Automatic(row) ==> e.Tick? && row.ts >= e.now && CountSince(g.rows, Since(g.suspension, e.now)) < BREAKER_LIMIT)
  {
  }

  lemma StepMovesReset(g: Guard, e: Event, from: real)
    requires Limited(g) && InTime(g, e)
    ensures ResetAfter(Step(g, e).suspension, from) >= ResetAfter(g.suspension, from)
    ensures var h := Step(g, e);
            && (h.suspension.lastEnd.Some? ==> h.suspension.lastEnd.value <= h.clock)
            && (h.suspension.resumedAt.Some? ==> h.suspension.resumedAt.value <= h.clock)
  {
    hide BreakerOf;
  }

  lemma CountNext(rows: seq<BreakerRow>, row: BreakerRow, from: real, to: real)
    ensures CountWithin(rows + [row], from, to) == CountWithin(rows, from, to) + (if Automatic(row) && from < row.ts <= to then 1 else 0)
  {
    assert (rows + [row])[..|rows|] == rows;
  }

  /** An hour's window that reaches the row begins after the breaker starts counting. */
  lemma SinceIsEarlier(s: Suspension, now: real, from: real, ts: real)
    requires now <= ts <= from + HOUR
    ensures Since(s, now) <= ResetAfter(s, from)
  {
  }

  lemma WindowStaysLimited(g: Guard, e: Event, from: real)
    requires Limited(g) && InTime(g, e)
    requires CountWithin(g.rows, ResetAfter(g.suspension, from), from + HOUR) <= BREAKER_LIMIT
    ensures CountWithin(Step(g, e).rows, ResetAfter(Step(g, e).suspension, from), from + HOUR) <= BREAKER_LIMIT
  {
    StepAddsRow(g, e);
    StepMovesReset(g, e, from);
    hide *;
    var h := Step(g, e);
    var before, after, to := ResetAfter(g.suspension, from), ResetAfter(h.suspension, from), from + HOUR;
    CountShrinks(g.rows, before, after, to);
    if h.rows != g.rows {
      var row :| h.rows == g.rows + [row]
                 && (Automatic(row) ==> e.Tick? && row.ts >= e.now && CountSince(g.rows, Since(g.suspension, e.now)) < BREAKER_LIMIT);
      CountNext(g.rows, row, after, to);
      if Automatic(row) && row.ts <= to {
        SinceIsEarlier(g.suspension, e.now, from, row.ts);
        CountShrinks(g.rows, Since(g.suspension, e.now), after, to);
        CountsAgree(g.rows, Since(g.suspension, e.now), to);
      }
    }
  }

  lemma StepKeepsLimit(g: Guard, e: Event)
    requires Limited(g) && InTime(g, e)
    ensures Limited(Step(g, e))
  {
    StepMovesReset(g, e, 0.0);
    hide Step;
    forall from ensures CountWithin(Step(g, e).rows, ResetAfter(Step(g, e).suspension, from), from + HOUR) <= BREAKER_LIMIT {
      WindowStaysLimited(g, e, from);
    }
  }

  /**
   After the latest reset, every half-open hour holds at most three automatic failover or
   at-limit switches, over every run whose clock never goes back.
   */
  lemma {:induction false} AtMostThreeAnHour(g: Guard, events: seq<Event>)
    requires Limited(g) && AllInTime(g, events)
    ensures Limited(Run(g, events))
  {
    if events != [] {
      AtMostThreeAnHour(g, events[..|events| - 1]);
      StepKeepsLimit(Run(g, events[..|events| - 1]), events[|events| - 1]);
    }
  }

  /** A log without automatic rows is a place to start. */
  lemma {:induction false} FreshLogIsLimited(rows: seq<BreakerRow>, clock: real)
    requires forall row :: row in rows ==> !Automatic(row)
    ensures Limited(Guard(rows, Suspension(None, None, None), clock))
  {
    forall from: real, to: real ensures CountWithin(rows, from, to) == 0 { NoneCounted(rows, from, to); }
  }

  lemma {:induction false} NoneCounted(rows: seq<BreakerRow>, from: real, to: real)
    requires forall row :: row in rows ==> !Automatic(row)
    ensures CountWithin(rows, from, to) == 0
  {
    if rows != [] {
      assert rows[|rows| - 1] in rows;
      NoneCounted(rows[..|rows| - 1], from, to);
    }
  }

  // ----- silence while suspended ------------------------------------------------------------------

  /** No automatic row since the first `n` is earlier than `until`. */
  ghost predicate SilentUntil(rows: seq<BreakerRow>, n: nat, until: real) {
    forall k :: n <= k < |rows| && Automatic(rows[k]) ==> rows[k].ts >= until
  }

  /** A suspension that nobody resumes is kept to its end: no automatic switch lands before it. */
  lemma {:induction false} SuspensionIsKept(g: Guard, events: seq<Event>, until: real)
    requires g.suspension.until == Some(until) && AllInTime(g, events)
    requires forall e :: e in events ==> !e.Resume?
    ensures var h := Run(g, events);
            && |g.rows| <= |h.rows| && SilentUntil(h.rows, |g.rows|, until)
            && (h.suspension.until == Some(until) || h.clock >= until)
  {
    if events != [] {
      var init, e := events[..|events| - 1], events[|events| - 1];
      assert e in events;
      SuspensionIsKept(g, init, until);
      var h := Run(g, init);
      if e.Tick? && Guarded(e.trigger) && h.suspension.until == Some(until) && e.now < until {
        assert Suspended(h.suspension, e.now);
      }
    }
  }

  /** A guarded tick that finds somewhere to go when the breaker has counted its limit. */
  predicate Trips(g: Guard, e: Event) {
    e.Tick? && e.ready && Guarded(e.trigger) && !Suspended(g.suspension, e.now) && CountSince(g.rows, Since(g.suspension, e.now)) >= BREAKER_LIMIT
  }

  /** From such a tick on, over any run that nobody resumes, no automatic switch lands for an hour. */
  lemma HourOfSilence(g: Guard, e: Event, events: seq<Event>)
    requires Trips(g, e) && AllInTime(Step(g, e), events) && forall x :: x in events ==> !x.Resume?
    ensures SilentUntil(Run(Step(g, e), events).rows, |g.rows|, e.now + HOUR)
  {
    SuspensionIsKept(Step(g, e), events, e.now + HOUR);
  }
}
