/**
 Which Codex identities were possibly live when, reconstructed from the switch log alone.
 Times are milliseconds; `None` as a time is the open end of an interval.
 */
module CodexHolders {
  import opened Prelude

  datatype Stamp = Absent | NotFinite | At(ms: int)

  datatype Outcome = Ok | RolledBack | Failed | Refused | Noop | RevertedByCodex | InFlight

  /** A switch-log row as stored; `id` is None when it is not a safe integer. */
  datatype Row = Row(
    provider: string,
    id: Option<int>,
    from: Option<string>,
    to: string,
    outcome: Outcome,
    published: Stamp,
    attempted: Stamp,
    detail: Option<string>,
    involved: Option<seq<string>>
  )

  datatype Error = NotCodex | BadId | BadTime | BadObservation

  datatype Result<+T> = Success(value: T) | Failure(error: Error)

  /** A row that passed the checks, with its authoritative time. */
  datatype Event = Event(id: int, time: int, from: Option<string>, to: string, outcome: Outcome, involved: Option<seq<string>>)

  datatype Era = Era(identity: string, startsAt: Option<int>, endsAt: Option<int>)

  const PROVIDER := "openai-codex"
  const SECOND := 1000

  // ----- reading the log ----------------------------------------------------------

  predicate NotPublished(r: Row) {
    r.outcome == Failed && r.detail == Some("not-published") && r.published == Absent
  }

  function RowTime(r: Row): Stamp {
    if r.published == Absent then r.attempted else r.published
  }

  function CheckRow(r: Row): Result<Event> {
    if r.provider != PROVIDER then Failure(NotCodex)
    else if r.id.None? then Failure(BadId)
    else if !RowTime(r).At? then Failure(BadTime)
    else Success(Event(r.id.value, RowTime(r).ms, r.from, r.to, r.outcome, r.involved))
  }

  predicate Before(a: Event, b: Event) {
    a.time < b.time || (a.time == b.time && a.id < b.id)
  }

  /** After its equals: the sort is stable. */
  function Insert(e: Event, sorted: seq<Event>): seq<Event> {
    if sorted == [] || !Before(e, sorted[|sorted| - 1]) then sorted + [e]
    else Insert(e, sorted[..|sorted| - 1]) + [sorted[|sorted| - 1]]
  }

  /** The published rows in time order, or the first row's error. */
  function LogOf(rows: seq<Row>): Result<seq<Event>> {
    if rows == [] then Success([])
    else
      var log := LogOf(rows[..|rows| - 1]);
      var row := rows[|rows| - 1];
      if log.Failure? then log
      else match CheckRow(row)
        case Failure(e) => Failure(e)
        case Success(e) => if NotPublished(row) then log else Success(Insert(e, log.value))
  }

  method ReadLog(rows: seq<Row>) returns (log: Result<seq<Event>>)
    ensures log == LogOf(rows)
  {
    log := Success([]);
    var k := 0;
    while k < |rows|
      invariant k <= |rows| && log == LogOf(rows[..k]) && log.Success?
    {
      assert rows[..k + 1][..k] == rows[..k];
      var e := CheckRow(rows[k]);
      if e.Failure? {
        FirstErrorWins(rows, k + 1);
        return Failure(e.error);
      }
      if !NotPublished(rows[k]) { log := Success(Insert(e.value, log.value)); }
      k := k + 1;
    }
    assert rows[..k] == rows;
  }

  lemma {:induction false} FirstErrorWins(rows: seq<Row>, k: nat)
    requires k <= |rows| && LogOf(rows[..k]).Failure?
    ensures LogOf(rows) == LogOf(rows[..k])
    decreases |rows|
  {
    if k < |rows| {
      assert rows[..|rows| - 1][..k] == rows[..k];
      FirstErrorWins(rows[..|rows| - 1], k);
    } else {
      assert rows[..k] == rows;
    }
  }

  ghost predicate InOrder(log: seq<Event>) {
    forall i, j :: 0 <= i < j < |log| ==> log[i].time <= log[j].time
  }

  lemma {:induction false} InsertMembers(e: Event, sorted: seq<Event>)
    ensures forall x :: x in Insert(e, sorted) <==> x == e || x in sorted
  {
    if sorted != [] && Before(e, sorted[|sorted| - 1]) {
      InsertMembers(e, sorted[..|sorted| - 1]);
      assert sorted == sorted[..|sorted| - 1] + [sorted[|sorted| - 1]];
    }
  }

  lemma {:induction false} InsertKeepsOrder(e: Event, sorted: seq<Event>)
    requires InOrder(sorted)
    ensures InOrder(Insert(e, sorted))
  {
    if sorted != [] && Before(e, sorted[|sorted| - 1]) {
      var init, last := sorted[..|sorted| - 1], sorted[|sorted| - 1];
      InsertKeepsOrder(e, init);
      InsertMembers(e, init);
      assert forall x :: x in init ==> x.time <= last.time;
      assert forall x :: x in Insert(e, init) ==> x.time <= last.time;
    }
  }

  /** Nothing in the log comes before what precedes it, by time and then by row id. */
  ghost predicate Sorted(log: seq<Event>) {
    forall i, j :: 0 <= i < j < |log| ==> !Before(log[j], log[i])
  }

  lemma {:induction false} InsertKeepsSorted(e: Event, sorted: seq<Event>)
    requires Sorted(sorted)
    ensures Sorted(Insert(e, sorted))
  {
    if sorted != [] {
      var init, last := sorted[..|sorted| - 1], sorted[|sorted| - 1];
      if Before(e, last) {
        InsertKeepsSorted(e, init);
        InsertMembers(e, init);
        assert forall x :: x in init ==> !Before(last, x);
        assert forall x :: x in Insert(e, init) ==> !Before(last, x);
      } else {
        assert forall x :: x in init ==> !Before(last, x);
        assert forall x :: x in sorted ==> !Before(e, x);
      }
    }
  }

  lemma {:induction false} LogSorted(rows: seq<Row>)
    requires LogOf(rows).Success?
    ensures Sorted(LogOf(rows).value)
  {
    if rows != [] {
      LogSorted(rows[..|rows| - 1]);
      var row := rows[|rows| - 1];
      if !NotPublished(row) { InsertKeepsSorted(CheckRow(row).value, LogOf(rows[..|rows| - 1]).value); }
    }
  }

  /** The log holds exactly the rows that were not withdrawn as never published. */
  lemma {:induction false} LogMembers(rows: seq<Row>, e: Event)
    requires LogOf(rows).Success?
    ensures e in LogOf(rows).value <==> exists r :: r in rows && !NotPublished(r) && CheckRow(r) == Success(e)
  {
    if rows != [] {
      var row := rows[|rows| - 1];
      assert rows == rows[..|rows| - 1] + [row];
      LogMembers(rows[..|rows| - 1], e);
      if !NotPublished(row) { InsertMembers(CheckRow(row).value, LogOf(rows[..|rows| - 1]).value); }
      if e in LogOf(rows[..|rows| - 1]).value {
        var r :| r in rows[..|rows| - 1] && !NotPublished(r) && CheckRow(r) == Success(e);
        assert r in rows;
      }
    }
  }

  lemma {:induction false} LogInOrder(rows: seq<Row>)
    requires LogOf(rows).Success?
    ensures InOrder(LogOf(rows).value)
  {
    if rows != [] {
      LogInOrder(rows[..|rows| - 1]);
      var row := rows[|rows| - 1];
      if !NotPublished(row) {
        InsertKeepsOrder(CheckRow(row).value, LogOf(rows[..|rows| - 1]).value);
      }
    }
  }

  // ----- holder eras: the event scan ------------------------------------------------------

  predicate IsWriting(e: Event) { e.outcome != Refused && e.outcome != Noop }

  /** The identities a row makes possibly live, besides the two sides. */
  function Others(e: Event): seq<string> {
    if e.outcome == InFlight then e.involved.GetOr([]) else []
  }

  function FencedBy(e: Event): set<string> {
    if e.outcome != InFlight || e.involved.None? then {}
    else set i | i in [e.from.GetOr(""), e.to] + e.involved.value && i != ""
  }

  function Fenced(log: seq<Event>): set<string> {
    if log == [] then {} else Fenced(log[..|log| - 1]) + FencedBy(log[|log| - 1])
  }

  /** Eras that have ended, and those still running in the order they began. */
  datatype Scanner = Scanner(ended: seq<Era>, live: seq<Era>)

  predicate IsLive(live: seq<Era>, identity: string) {
    exists e :: e in live && e.identity == identity
  }

  function Start(s: Scanner, identity: string, time: int): Scanner {
    if identity == "" || IsLive(s.live, identity) then s
    else s.(live := s.live + [Era(identity, Some(time), None)])
  }

  function StartAll(s: Scanner, identities: seq<string>, time: int): Scanner {
    if identities == [] then s
    else Start(StartAll(s, identities[..|identities| - 1], time), identities[|identities| - 1], time)
  }

  function Keep(live: seq<Era>, identity: string, wanted: bool): seq<Era> {
    if live == [] then []
    else Keep(live[..|live| - 1], identity, wanted)
         + (if (live[|live| - 1].identity == identity) == wanted then [live[|live| - 1]] else [])
  }

  function EndEach(live: seq<Era>, time: int): seq<Era> {
    seq(|live|, k requires 0 <= k < |live| => live[k].(endsAt := Some(time)))
  }

  function End(s: Scanner, fenced: set<string>, identity: string, time: int): Scanner {
    if identity in fenced then s
    else Scanner(s.ended + EndEach(Keep(s.live, identity, true), time), Keep(s.live, identity, false))
  }

  function ScanRow(s: Scanner, fenced: set<string>, e: Event): Scanner {
    if !IsWriting(e) then s
    else if e.outcome == Ok then
      var begun := Start(s, e.from.GetOr(""), e.time);
      var ended := if e.from.Some? then End(begun, fenced, e.from.value, e.time) else begun;
      Start(ended, e.to, e.time)
    else
      StartAll(Start(Start(s, e.from.GetOr(""), e.time), e.to, e.time), Others(e), e.time)
  }

  function Scan(s: Scanner, fenced: set<string>, log: seq<Event>): Scanner {
    if log == [] then s else ScanRow(Scan(s, fenced, log[..|log| - 1]), fenced, log[|log| - 1])
  }

  /** The first row's source may have been live since before the log begins. */
  function Opening(log: seq<Event>): Scanner {
    Scanner([], if log != [] && log[0].from.Some? then [Era(log[0].from.value, None, None)] else [])
  }

  function ScanLog(log: seq<Event>): Scanner {
    Scan(Opening(log), Fenced(log), log)
  }

  /** The reconstructed eras, in the order the scan closes them; display order is not modelled. */
  function ErasOf(log: seq<Event>): seq<Era> {
    ScanLog(log).ended + ScanLog(log).live
  }

  method HolderEras(rows: seq<Row>) returns (r: Result<seq<Era>>)
    ensures r == match LogOf(rows) case Failure(e) => Failure(e) case Success(log) => Success(ErasOf(log))
  {
    var read := ReadLog(rows);
    if read.Failure? { return Failure(read.error); }
    var log := read.value;
    var fenced := Fenced(log);
    var s := Opening(log);
    for k := 0 to |log|
      invariant s == Scan(Opening(log), fenced, log[..k])
    {
      assert log[..k + 1][..k] == log[..k];
      s := ScanRow(s, fenced, log[k]);
    }
    assert log[..|log|] == log;
    r := Success(s.ended + s.live);
  }

  // ----- what the scan means ---------------------------------------------------------------

  predicate In(e: Era, t: int) {
    (e.startsAt.None? || t >= e.startsAt.value) && (e.endsAt.None? || t < e.endsAt.value)
  }

  ghost predicate Covers(eras: seq<Era>, identity: string, t: int) {
    exists e :: e in eras && e.identity == identity && In(e, t)
  }

  /** The row makes the identity possibly live. */
  predicate Names(e: Event, identity: string) {
    IsWriting(e) && (e.from == Some(identity) || e.to == identity || identity in Others(e))
  }

  /** The row definitely replaces the identity. */
  predicate Replaces(e: Event, identity: string) {
    e.outcome == Ok && e.from == Some(identity) && e.to != identity
  }

  ghost predicate ScannerOk(s: Scanner, past: int) {
    && (forall e :: e in s.live ==> e.endsAt.None? && (e.startsAt.Some? ==> e.startsAt.value <= past))
    && (forall e :: e in s.ended ==> e.endsAt.Some? && e.endsAt.value <= past && (e.startsAt.Some? ==> e.startsAt.value <= e.endsAt.value))
  }

  lemma {:induction false} KeepMembers(live: seq<Era>, identity: string, wanted: bool)
    ensures forall e :: e in Keep(live, identity, wanted) <==> e in live && ((e.identity == identity) == wanted)
  {
    if live != [] {
      KeepMembers(live[..|live| - 1], identity, wanted);
      assert live == live[..|live| - 1] + [live[|live| - 1]];
    }
  }

  lemma {:induction false} StartAllLive(s: Scanner, identities: seq<string>, time: int)
    ensures StartAll(s, identities, time).ended == s.ended
    ensures forall e :: e in s.live ==> e in StartAll(s, identities, time).live
    ensures forall e :: e in StartAll(s, identities, time).live ==> e in s.live || e == Era(e.identity, Some(time), None)
    ensures forall i :: IsLive(StartAll(s, identities, time).live, i) <==> IsLive(s.live, i) || (i != "" && i in identities)
  {
    if identities != [] {
      StartAllLive(s, identities[..|identities| - 1], time);
      assert identities == identities[..|identities| - 1] + [identities[|identities| - 1]];
      StartLive(StartAll(s, identities[..|identities| - 1], time), identities[|identities| - 1], time);
    }
  }

  lemma StartLive(s: Scanner, identity: string, time: int)
    ensures Start(s, identity, time).ended == s.ended
    ensures forall e :: e in s.live ==> e in Start(s, identity, time).live
    ensures forall e :: e in Start(s, identity, time).live ==> e in s.live || e == Era(e.identity, Some(time), None)
    ensures forall i :: IsLive(Start(s, identity, time).live, i) <==> IsLive(s.live, i) || (i != "" && i == identity)
  {
    var added := Era(identity, Some(time), None);
    assert added in s.live + [added];
    forall i | IsLive(s.live, i) ensures IsLive(Start(s, identity, time).live, i) {
      var e :| e in s.live && e.identity == i;
      assert e in Start(s, identity, time).live;
    }
  }

  lemma EndLive(s: Scanner, fenced: set<string>, identity: string, time: int)
    requires identity !in fenced
    ensures forall e :: e in End(s, fenced, identity, time).live <==> e in s.live && e.identity != identity
    ensures forall e :: e in End(s, fenced, identity, time).ended <==>
              e in s.ended || (e.endsAt == Some(time) && exists f :: f in s.live && f.identity == identity && e == f.(endsAt := Some(time)))
    ensures forall i :: IsLive(End(s, fenced, identity, time).live, i) <==> IsLive(s.live, i) && i != identity
  {
    KeepMembers(s.live, identity, true);
    KeepMembers(s.live, identity, false);
    var gone := Keep(s.live, identity, true);
    assert forall e :: e in EndEach(gone, time) ==> exists k :: 0 <= k < |gone| && e == gone[k].(endsAt := Some(time));
    forall f | f in gone ensures f.(endsAt := Some(time)) in EndEach(gone, time) {
      var k :| 0 <= k < |gone| && gone[k] == f;
      assert EndEach(gone, time)[k] == f.(endsAt := Some(time));
    }
    forall i | IsLive(s.live, i) && i != identity ensures IsLive(End(s, fenced, identity, time).live, i) {
      var e :| e in s.live && e.identity == i;
      assert e in Keep(s.live, identity, false);
    }
  }

  /** Who is live after a row, who was before. */
  lemma RowLive(s: Scanner, fenced: set<string>, e: Event, i: string)
    requires i != ""
    ensures IsLive(ScanRow(s, fenced, e).live, i) <==> (IsLive(s.live, i) || Names(e, i)) && !(Replaces(e, i) && i !in fenced)
  {
    if IsWriting(e) {
      var begun := Start(s, e.from.GetOr(""), e.time);
      StartLive(s, e.from.GetOr(""), e.time);
      if e.outcome == Ok {
        var ended := if e.from.Some? then End(begun, fenced, e.from.value, e.time) else begun;
        if e.from.Some? && e.from.value !in fenced { EndLive(begun, fenced, e.from.value, e.time); }
        StartLive(ended, e.to, e.time);
      } else {
        StartLive(begun, e.to, e.time);
        StartAllLive(Start(begun, e.to, e.time), Others(e), e.time);
      }
    }
  }

  lemma RowKeepsScanner(s: Scanner, fenced: set<string>, e: Event, past: int)
    requires ScannerOk(s, past) && past <= e.time
    ensures ScannerOk(ScanRow(s, fenced, e), e.time)
  {
    if IsWriting(e) {
      var begun := Start(s, e.from.GetOr(""), e.time);
      StartLive(s, e.from.GetOr(""), e.time);
      if e.outcome == Ok {
        var ended := if e.from.Some? then End(begun, fenced, e.from.value, e.time) else begun;
        if e.from.Some? && e.from.value !in fenced { EndLive(begun, fenced, e.from.value, e.time); }
        StartLive(ended, e.to, e.time);
      } else {
        StartLive(begun, e.to, e.time);
        StartAllLive(Start(begun, e.to, e.time), Others(e), e.time);
      }
    }
  }

  /** A step after instant `t` leaves what the eras say about `t` as it was. */
  ghost predicate SameAt(a: Scanner, b: Scanner, t: int) {
    forall i :: Covers(a.ended + a.live, i, t) <==> Covers(b.ended + b.live, i, t)
  }

  lemma BegunLater(a: Scanner, b: Scanner, time: int, t: int)
    requires t < time && b.ended == a.ended
    requires forall e :: e in a.live ==> e in b.live
    requires forall e :: e in b.live ==> e in a.live || e == Era(e.identity, Some(time), None)
    ensures SameAt(a, b, t)
  {
    forall i | Covers(a.ended + a.live, i, t) ensures Covers(b.ended + b.live, i, t) {
      var e :| e in a.ended + a.live && e.identity == i && In(e, t);
      assert e in b.ended + b.live;
    }
  }

  lemma EndedLater(s: Scanner, fenced: set<string>, identity: string, time: int, t: int)
    requires t < time && identity !in fenced && forall e :: e in s.live ==> e.endsAt.None?
    ensures SameAt(s, End(s, fenced, identity, time), t)
  {
    EndLive(s, fenced, identity, time);
    var after := End(s, fenced, identity, time);
    forall i | Covers(s.ended + s.live, i, t) ensures Covers(after.ended + after.live, i, t) {
      var e :| e in s.ended + s.live && e.identity == i && In(e, t);
      if e in s.live && i == identity {
        assert e.(endsAt := Some(time)) in after.ended && In(e.(endsAt := Some(time)), t);
      } else {
        assert e in after.ended + after.live;
      }
    }
    forall i | Covers(after.ended + after.live, i, t) ensures Covers(s.ended + s.live, i, t) {
      var e :| e in after.ended + after.live && e.identity == i && In(e, t);
      if e !in s.ended + s.live {
        var f :| f in s.live && f.identity == identity && e == f.(endsAt := Some(time));
        assert f in s.ended + s.live && In(f, t);
      }
    }
  }

  lemma RowLater(s: Scanner, fenced: set<string>, e: Event, t: int)
    requires t < e.time && forall f :: f in s.live ==> f.endsAt.None?
    ensures SameAt(s, ScanRow(s, fenced, e), t)
  {
    if IsWriting(e) {
      var begun := Start(s, e.from.GetOr(""), e.time);
      StartLive(s, e.from.GetOr(""), e.time);
      BegunLater(s, begun, e.time, t);
      if e.outcome == Ok {
        var ended := if e.from.Some? then End(begun, fenced, e.from.value, e.time) else begun;
        if e.from.Some? && e.from.value !in fenced { EndedLater(begun, fenced, e.from.value, e.time, t); }
        StartLive(ended, e.to, e.time);
        BegunLater(ended, Start(ended, e.to, e.time), e.time, t);
      } else {
        StartLive(begun, e.to, e.time);
        BegunLater(begun, Start(begun, e.to, e.time), e.time, t);
        StartAllLive(Start(begun, e.to, e.time), Others(e), e.time);
        BegunLater(Start(begun, e.to, e.time), ScanRow(s, fenced, e), e.time, t);
      }
    }
  }

  ghost function ScanTo(log: seq<Event>, n: nat): Scanner
    requires n <= |log|
  {
    Scan(Opening(log), Fenced(log), log[..n])
  }

  lemma ScanToNext(log: seq<Event>, n: nat)
    requires n < |log|
    ensures ScanTo(log, n + 1) == ScanRow(ScanTo(log, n), Fenced(log), log[n])
  {
    assert log[..n + 1][..n] == log[..n];
  }

  lemma {:induction false} ScanToOk(log: seq<Event>, n: nat, past: int)
    requires InOrder(log) && n <= |log| && (n > 0 ==> log[n - 1].time <= past)
    ensures ScannerOk(ScanTo(log, n), past)
  {
    if n > 0 {
      ScanToOk(log, n - 1, log[n - 1].time);
      ScanToNext(log, n - 1);
      RowKeepsScanner(ScanTo(log, n - 1), Fenced(log), log[n - 1], log[n - 1].time);
    }
  }

  lemma {:induction false} LaterRowsAgree(log: seq<Event>, n: nat, m: nat, t: int)
    requires InOrder(log) && n <= m <= |log| && (n < |log| ==> t < log[n].time)
    ensures SameAt(ScanTo(log, n), ScanTo(log, m), t)
  {
    if n < m {
      LaterRowsAgree(log, n, m - 1, t);
      ScanToOk(log, m - 1, log[m - 1].time);
      ScanToNext(log, m - 1);
      RowLater(ScanTo(log, m - 1), Fenced(log), log[m - 1], t);
    }
  }

  /** At every instant the eras are exactly who the scan had live once it passed that instant. */
  lemma ErasAreTheRunningSet(log: seq<Event>, n: nat, i: string, t: int)
    requires InOrder(log) && n <= |log|
    requires (n > 0 ==> log[n - 1].time <= t) && (n < |log| ==> t < log[n].time)
    ensures Covers(ErasOf(log), i, t) <==> IsLive(ScanTo(log, n).live, i)
  {
    assert log[..|log|] == log;
    LaterRowsAgree(log, n, |log|, t);
    ScanToOk(log, n, t);
    var s := ScanTo(log, n);
    if IsLive(s.live, i) {
      var e :| e in s.live && e.identity == i;
      assert e in s.ended + s.live && In(e, t);
    }
    if Covers(s.ended + s.live, i, t) {
      var e :| e in s.ended + s.live && e.identity == i && In(e, t);
      assert e in s.live;
    }
  }

  /** Row `k` names the identity, or it held from before the log, and nothing since replaced it. */
  ghost predicate StandingSince(log: seq<Event>, k: int, n: nat, i: string)
    requires n <= |log| && (-1 <= k < n || (k == -1 && n == 0))
  {
    && (if k < 0 then log != [] && log[0].from == Some(i) else Names(log[k], i))
    && (i in Fenced(log) || forall m :: 0 <= m < n && k <= m ==> !Replaces(log[m], i))
  }

  ghost predicate Standing(log: seq<Event>, n: nat, i: string)
    requires n <= |log|
  {
    exists k :: -1 <= k < n && StandingSince(log, k, n, i)
  }

  lemma StandingNext(log: seq<Event>, n: nat, i: string)
    requires n < |log|
    ensures Standing(log, n + 1, i) <==> (Standing(log, n, i) || Names(log[n], i)) && !(Replaces(log[n], i) && i !in Fenced(log))
  {
    if Standing(log, n, i) && !(Replaces(log[n], i) && i !in Fenced(log)) {
      var k :| -1 <= k < n && StandingSince(log, k, n, i);
      assert StandingSince(log, k, n + 1, i);
    }
    if Names(log[n], i) && !(Replaces(log[n], i) && i !in Fenced(log)) {
      assert StandingSince(log, n, n + 1, i);
    }
    if Standing(log, n + 1, i) {
      var k :| -1 <= k < n + 1 && StandingSince(log, k, n + 1, i);
      if k < n { assert StandingSince(log, k, n, i); }
    }
  }

  /** Live after `n` rows: named by some row, or before the first, and not definitely replaced since. */
  lemma {:induction false} LiveMeaning(log: seq<Event>, n: nat, i: string)
    requires n <= |log| && i != ""
    ensures IsLive(ScanTo(log, n).live, i) <==> Standing(log, n, i)
  {
    if n == 0 {
      assert log[..0] == [];
      if log != [] && log[0].from == Some(i) {
        assert Era(i, None, None) in ScanTo(log, 0).live;
        assert StandingSince(log, -1, 0, i);
      }
    } else {
      LiveMeaning(log, n - 1, i);
      ScanToNext(log, n - 1);
      RowLive(ScanTo(log, n - 1), Fenced(log), log[n - 1], i);
      StandingNext(log, n - 1, i);
    }
  }

  /** Whoever a standing recovery fence involves keeps an era that is still open. */
  lemma {:induction false} FencedStaysLive(log: seq<Event>, n: nat, i: string)
    requires n <= |log| && i in Fenced(log[..n])
    ensures i in Fenced(log) && IsLive(ScanTo(log, n).live, i)
  {
    FencedGrows(log, n);
    assert log[..n][..n - 1] == log[..n - 1];
    ScanToNext(log, n - 1);
    RowLive(ScanTo(log, n - 1), Fenced(log), log[n - 1], i);
    if i in Fenced(log[..n - 1]) {
      FencedStaysLive(log, n - 1, i);
    } else {
      assert i in FencedBy(log[n - 1]);
    }
  }

  lemma {:induction false} FencedGrows(log: seq<Event>, n: nat)
    requires n <= |log|
    ensures Fenced(log[..n]) <= Fenced(log)
    ensures "" !in Fenced(log)
    decreases |log|
  {
    if log != [] {
      FencedGrows(log[..|log| - 1], if n < |log| then n else |log| - 1);
      if n < |log| {
        assert log[..|log| - 1][..n] == log[..n];
      } else {
        assert log[..n] == log;
      }
    }
  }
}
