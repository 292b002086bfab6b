/**
 The cooperative drain of C-swap: wait, take every lock, check who is left, signal, wait, and
 give every lock back. The environment answers as it likes: lists may change or throw, locks
 may be busy or lost, a signal may find its target gone. `patience` bounds how many polls pass
 before a deadline is seen.
 */
module Drain {
  import opened Prelude

  type Pid = nat
  type Lock = nat

  /**
   What the drain did, in order, each answer with the question it answers: `at` is how many
   had been asked before. `Checked` and `Swept` are lease checks that passed.
   */
  datatype Event =
    | Listed(at: nat, pids: seq<Pid>)
    | Targeted(at: nat, pids: seq<Pid>)
    | Acquired(lock: Lock)
    | Released(lock: Lock)
    | Checked(at: nat, inodes: seq<nat>)
    | Swept(at: nat, inodes: seq<nat>)
    | Signalled(pid: Pid)
    | Gone(at: nat, pid: Pid)

  datatype Attempt = Got | Busy | TryThrows

  datatype Approached = Stop | Absent | ToSignal

  datatype Kill = Sent | NoSuchProcess | KillThrows

  /** Everything the environment may answer, by the number of questions asked before. */
  datatype World = World(
    list: nat -> Option<seq<Pid>>,
    targets: nat -> Option<seq<Pid>>,
    lock: nat -> Attempt,
    releases: nat -> bool,
    lost: nat -> bool,
    confirm: nat -> Option<nat>,
    inode: nat -> Option<nat>,
    kill: nat -> Kill,
    late: nat -> bool)

  function ToSet(locks: seq<Lock>): set<Lock> { set k | k in locks }

  // ----- evidence ---------------------------------------------------------------------------

  /** Every helper answered with an inode, its path showed that inode, and no lease was lost. */
  predicate Intact(w: World, at: nat, inodes: seq<nat>) {
    && (forall k :: 0 <= k < |inodes| ==> Shows(w, at, k, inodes[k]))
    && NoneLost(w, at + 2 * |inodes|, |inodes|)
  }

  /** The `k`th helper answered with this inode and its path showed it. */
  predicate Shows(w: World, at: nat, k: nat, inode: nat) {
    w.confirm(at + 2 * k) == Some(inode) && w.inode(at + 2 * k + 1) == Some(inode)
  }

  /** No lease was lost, and every path still showed its inode. */
  predicate StillIntact(w: World, at: nat, inodes: seq<nat>) {
    && NoneLost(w, at, |inodes|)
    && forall k :: 0 <= k < |inodes| ==> w.inode(at + |inodes| + k) == Some(inodes[k])
  }

  predicate NoneLost(w: World, at: nat, n: nat) {
    forall k :: at <= k < at + n ==> !w.lost(k)
  }

  /** The question after the last one an event rests on. */
  function End(e: Event): nat {
    match e
    case Listed(at, _) => at + 1
    case Targeted(at, _) => at + 1
    case Checked(at, inodes) => at + 3 * |inodes|
    case Swept(at, inodes) => at + 2 * |inodes|
    case Gone(at, _) => at + 1
    case _ => 0
  }

  function Latest(t: seq<Event>): nat {
    if t == [] then 0
    else
      var before, end := Latest(t[..|t| - 1]), End(t[|t| - 1]);
      if before > end then before else end
  }

  /** The inodes of the last check that passed. */
  function LastInodes(t: seq<Event>): Option<seq<nat>> {
    if t == [] then None else if t[|t| - 1].Checked? then Some(t[|t| - 1].inodes) else LastInodes(t[..|t| - 1])
  }

  // ----- what a trace says ------------------------------------------------------------------

  function HeldOf(t: seq<Event>): set<Lock> {
    if t == [] then {}
    else
      var held, e := HeldOf(t[..|t| - 1]), t[|t| - 1];
      if e.Acquired? then held + {e.lock} else if e.Released? then held - {e.lock} else held
  }

  function LastTargets(t: seq<Event>): seq<Pid> {
    if t == [] then [] else if t[|t| - 1].Targeted? then t[|t| - 1].pids else LastTargets(t[..|t| - 1])
  }

  function LastListed(t: seq<Event>): seq<Pid> {
    if t == [] then [] else if t[|t| - 1].Listed? then t[|t| - 1].pids else LastListed(t[..|t| - 1])
  }

  predicate CheckedSinceSignal(t: seq<Event>) {
    t != [] && (t[|t| - 1].Checked? || (!t[|t| - 1].Signalled? && CheckedSinceSignal(t[..|t| - 1])))
  }

  /** Before the first signal, a strict list taken right after a survivor list covered all of it. */
  ghost predicate Preflighted(t: seq<Event>, pid: Pid) {
    exists i :: 0 <= i < |t| - 1 && PreflightAt(t, i, pid)
  }

  ghost predicate PreflightAt(t: seq<Event>, i: nat, pid: Pid)
    requires i < |t| - 1
  {
    && t[i].Listed? && t[i + 1].Targeted? && pid in t[i].pids
    && (forall q :: q in t[i].pids ==> q in t[i + 1].pids)
    && (forall k :: 0 <= k <= i ==> !t[k].Signalled?)
  }

  /** All `n` locks held, the leases just swept, the target on the latest strict list. */
  ghost predicate MaySignal(t: seq<Event>, pid: Pid, n: nat) {
    && t != [] && t[|t| - 1].Swept? && |HeldOf(t)| == n
    && pid in LastTargets(t) && CheckedSinceSignal(t) && Preflighted(t, pid)
  }

  /** What may follow a trace: lists and checks that the world answered, since the last ones it answered. */
  ghost predicate EventOk(w: World, t: seq<Event>, e: Event, n: nat) {
    match e
    case Acquired(lock) => Acquired(lock) !in t
    case Released(lock) => lock in HeldOf(t)
    case Signalled(pid) => MaySignal(t, pid, n)
    case Listed(at, pids) => at >= Latest(t) && w.list(at) == Some(pids)
    case Targeted(at, pids) => at >= Latest(t) && w.targets(at) == Some(pids)
    case Gone(at, pid) => at >= Latest(t) && w.kill(at) == NoSuchProcess && t != [] && t[|t| - 1] == Signalled(pid)
    case Checked(at, inodes) => at >= Latest(t) && |inodes| == n && Intact(w, at, inodes)
    case Swept(at, inodes) => at >= Latest(t) && LastInodes(t) == Some(inodes) && |inodes| == n && StillIntact(w, at, inodes)
  }

  /** Every event was allowed by what came before it. */
  ghost predicate Disciplined(w: World, t: seq<Event>, n: nat) {
    forall k :: 0 <= k < |t| ==> EventOk(w, t[..k], t[k], n)
  }

  /**
   After the preflight at `i`: the signal found no such process, or neither the strict list nor
   the list of the living taken right after it had the process.
   */
  ghost predicate FoundGone(t: seq<Event>, i: nat, pid: Pid) {
    exists j :: i + 1 < j < |t| && GoneAt(t, j, pid)
  }

  ghost predicate GoneAt(t: seq<Event>, j: nat, pid: Pid)
    requires 0 < j < |t|
  {
    || (t[j].Gone? && t[j].pid == pid)
    || (t[j].Listed? && pid !in t[j].pids && t[j - 1].Targeted? && pid !in t[j - 1].pids)
  }

  /** Whoever is on the last list of the living passed the preflight and was found gone after it. */
  ghost predicate Cleared(t: seq<Event>, i: nat) {
    forall pid :: pid in LastListed(t) ==> i < |t| - 1 && PreflightAt(t, i, pid) && FoundGone(t, i, pid)
  }

  /** The last list is empty exactly when nobody found gone is on it again. */
  ghost predicate EmptyUnlessReused(t: seq<Event>, i: nat) {
    LastListed(t) == [] <==> forall pid :: FoundGone(t, i, pid) ==> pid !in LastListed(t)
  }

  lemma ClearedMeansReused(t: seq<Event>, i: nat)
    requires Cleared(t, i)
    ensures EmptyUnlessReused(t, i)
  {
    if LastListed(t) != [] {
      assert LastListed(t)[0] in LastListed(t);
    }
  }

  lemma DisciplineGrows(w: World, t: seq<Event>, e: Event, n: nat)
    requires Disciplined(w, t, n) && EventOk(w, t, e, n)
    ensures Disciplined(w, t + [e], n)
  {
    var after := t + [e];
    forall k | 0 <= k < |after| ensures EventOk(w, after[..k], after[k], n) {
      if k < |t| {
        assert after[..k] == t[..k] && EventOk(w, t[..k], t[k], n);
      } else {
        assert after[..k] == t;
      }
    }
  }

  lemma {:induction false} ReleasedWasHeld(w: World, t: seq<Event>, n: nat, k: nat)
    requires Disciplined(w, t, n) && k < |t| && t[k].Released?
    ensures Acquired(t[k].lock) in t[..k]
  {
    hide MaySignal, Intact, StillIntact, Latest, LastInodes;
    HeldWasAcquired(t[..k], t[k].lock);
    assert EventOk(w, t[..k], t[k], n);
  }

  lemma {:induction false} HeldWasAcquired(t: seq<Event>, lock: Lock)
    ensures lock in HeldOf(t) ==> Acquired(lock) in t
  {
    if t != [] { HeldWasAcquired(t[..|t| - 1], lock); }
  }

  /** Once released, a lock is never held again. */
  lemma {:induction false} ReleaseIsFinal(w: World, t: seq<Event>, n: nat, j: nat, m: nat, lock: Lock)
    requires Disciplined(w, t, n) && j < m <= |t| && t[j] == Released(lock)
    ensures lock !in HeldOf(t[..m])
  {
    hide MaySignal, Intact, StillIntact, Latest, LastInodes;
    var init, last := t[..m - 1], t[m - 1];
    assert t[..m][..m - 1] == init;
    if j < m - 1 {
      ReleaseIsFinal(w, t, n, j, m - 1, lock);
      ReleasedWasHeld(w, t, n, j);
      assert t[..j] <= init;
      assert Acquired(lock) in init;
      assert EventOk(w, init, last, n);
    }
  }

  lemma NoSecondRelease(w: World, t: seq<Event>, n: nat, j: nat, k: nat, lock: Lock)
    requires Disciplined(w, t, n) && j < k < |t| && t[j] == Released(lock)
    ensures t[k] != Released(lock)
  {
    hide MaySignal, Intact, StillIntact, Latest, LastInodes;
    ReleaseIsFinal(w, t, n, j, k, lock);
    assert EventOk(w, t[..k], t[k], n);
  }

  /** In a disciplined trace that ends holding nothing, every lock acquired is released exactly once. */
  lemma ReleasedExactlyOnce(w: World, t: seq<Event>, n: nat, lock: Lock)
    requires Disciplined(w, t, n) && HeldOf(t) == {} && Acquired(lock) in t
    ensures exists k :: 0 <= k < |t| && t[k] == Released(lock) && forall j :: 0 <= j < |t| && t[j] == Released(lock) ==> j == k
  {
    MissingWasReleased(t, lock);
    var k :| 0 <= k < |t| && t[k] == Released(lock);
    forall j | 0 <= j < |t| && t[j] == Released(lock) ensures j == k {
      if j < k { NoSecondRelease(w, t, n, j, k, lock); }
      if k < j { NoSecondRelease(w, t, n, k, j, lock); }
    }
  }

  lemma {:induction false} MissingWasReleased(t: seq<Event>, lock: Lock)
    requires Acquired(lock) in t && lock !in HeldOf(t)
    ensures Released(lock) in t
  {
    var init, e := t[..|t| - 1], t[|t| - 1];
    assert t == init + [e];
    if e != Released(lock) { MissingWasReleased(init, lock); }
  }

  // ----- an environment that never changes its mind ---------------------------------------------

  const REUSED: Pid := 7

  /** One pid that is always listed although every signal to it finds nothing; all else goes well. */
  ghost predicate Haunted(w: World) {
    forall k: nat ::
      && w.list(k) == Some([REUSED]) && w.targets(k) == Some([REUSED]) && w.lock(k) == Got && w.releases(k) && !w.lost(k)
      && w.confirm(k) == Some(0) && w.inode(k) == Some(0) && w.kill(k) == NoSuchProcess && !w.late(k)
  }

  /** All zeros, as the helpers and paths of such an environment answer. */
  ghost predicate AllZero(inodes: seq<nat>) {
    forall k :: 0 <= k < |inodes| ==> inodes[k] == 0
  }

  // ----- the drain ---------------------------------------------------------------------------

  class Site {
    const world: World
    var tick: nat
    /** Locks are numbered as they are acquired. */
    var acquired: nat
    ghost var trace: seq<Event>
    /** How many locks a full set is. */
    const n: nat

    constructor (world: World, n: nat)
      ensures this.world == world && this.n == n && trace == [] && Valid()
    {
      this.world, this.n := world, n;
      tick, acquired, trace := 0, 0, [];
    }

    ghost predicate Valid()
      reads this
    {
      && Disciplined(world, trace, n) && Latest(trace) <= tick
      && forall lock: Lock :: Acquired(lock) in trace ==> lock < acquired
    }

    ghost method Record(e: Event)
      requires Valid() && EventOk(world, trace, e, n) && !e.Acquired? && End(e) <= tick
      modifies this`trace
      ensures Valid() && trace == old(trace) + [e]
    {
      DisciplineGrows(world, trace, e, n);
      TailFacts(trace, e);
      trace := trace + [e];
    }

    method List() returns (pids: Option<seq<Pid>>)
      requires Valid()
      modifies this`tick, this`trace
      ensures Valid() && (Haunted(world) ==> pids == Some([REUSED]))
      ensures trace == if pids.Some? then old(trace) + [Listed(old(tick), pids.value)] else old(trace)
    {
      pids := world.list(tick);
      tick := tick + 1;
      if pids.Some? { Record(Listed(tick - 1, pids.value)); }
    }

    method Targets() returns (pids: Option<seq<Pid>>)
      requires Valid()
      modifies this`tick, this`trace
      ensures Valid() && (Haunted(world) ==> pids == Some([REUSED]))
      ensures trace == if pids.Some? then old(trace) + [Targeted(old(tick), pids.value)] else old(trace)
    {
      pids := world.targets(tick);
      tick := tick + 1;
      if pids.Some? { Record(Targeted(tick - 1, pids.value)); }
    }

    /** Whether the deadline has passed by now. */
    method Late() returns (late: bool)
      modifies this`tick
      ensures tick == old(tick) + 1 && (Haunted(world) ==> !late)
    {
      late := world.late(tick);
      tick := tick + 1;
    }

    method TryLock() returns (got: Option<Lock>)
      requires Valid()
      modifies this`tick, this`acquired, this`trace
      ensures Valid() && trace == if got.Some? then old(trace) + [Acquired(got.value)] else old(trace)
      ensures got.Some? ==> Acquired(got.value) !in old(trace)
      ensures Haunted(world) ==> got.Some?
    {
      var a := world.lock(tick);
      tick := tick + 1;
      got := None;
      if a == Got {
        got := Some(acquired);
        DisciplineGrows(world, trace, Acquired(acquired), n);
        TailFacts(trace, Acquired(acquired));
        trace := trace + [Acquired(acquired)];
        acquired := acquired + 1;
      }
    }

    /** A release that fails has still been made: it is never tried again. */
    method Release(lock: Lock) returns (ok: bool)
      requires Valid() && lock in HeldOf(trace)
      modifies this`tick, this`trace
      ensures Valid() && trace == old(trace) + [Released(lock)] && (Haunted(world) ==> ok)
    {
      ok := world.releases(tick);
      tick := tick + 1;
      Record(Released(lock));
    }

    ghost predicate Holds(locks: seq<Lock>)
      reads this`trace
    {
      HeldOf(trace) == ToSet(locks) && forall i, j :: 0 <= i < j < |locks| ==> locks[i] != locks[j]
    }

    /** Every lock, the newest first, whatever fails on the way. */
    method ReleaseAll(locks: seq<Lock>) returns (ok: bool)
      requires Valid() && Holds(locks)
      modifies this`tick, this`trace
      ensures Valid() && HeldOf(trace) == {} && old(trace) <= trace
      ensures forall e :: e in trace[|old(trace)|..] ==> e.Released?
      ensures Haunted(world) ==> ok
    {
      hide Haunted, Disciplined, HeldOf, EventOk;
      ok := true;
      var k := |locks|;
      assert locks[..k] == locks;
      while k > 0
        invariant 0 <= k <= |locks| && Valid() && old(trace) <= trace
        invariant HeldOf(trace) == ToSet(locks[..k])
        invariant forall e :: e in trace[|old(trace)|..] ==> e.Released?
        invariant Haunted(world) ==> ok
      {
        k := k - 1;
        ghost var before := trace;
        assert locks[k] in locks[..k + 1];
        var one := Release(locks[k]);
        ExtendFacts(before, Released(locks[k]));
        assert locks[..k + 1] == locks[..k] + [locks[k]];
        assert ToSet(locks[..k]) == ToSet(locks[..k + 1]) - {locks[k]};
        ok := ok && one;
      }
    }

    /** Whether any of these leases was lost, asking no further than the first that was. */
    method Lost(locks: seq<Lock>) returns (lost: bool)
      modifies this`tick
      ensures lost <==> !NoneLost(world, old(tick), |locks|)
      ensures !lost ==> tick == old(tick) + |locks|
      ensures tick >= old(tick) && (Haunted(world) ==> !lost)
    {
      lost := false;
      for k := 0 to |locks|
        invariant tick == old(tick) + k && NoneLost(world, old(tick), k)
      {
        var one := world.lost(tick);
        tick := tick + 1;
        if one { return true; }
      }
    }

    /** A round trip to each helper and the inode its path has now: it passes exactly on full evidence. */
    method LeasesIntact(locks: seq<Lock>) returns (intact: bool, inodes: seq<nat>)
      requires Valid() && |locks| == n
      modifies this`tick, this`trace
      ensures Valid() && trace == if intact then old(trace) + [Checked(old(tick), inodes)] else old(trace)
      ensures intact ==> |inodes| == n && Intact(world, old(tick), inodes)
      ensures !intact ==> forall shown: seq<nat> :: |shown| == n ==> !Intact(world, old(tick), shown)
      ensures Haunted(world) ==> intact && AllZero(inodes)
    {
      hide Disciplined, HeldOf, Latest;
      inodes := [];
      for k := 0 to |locks|
        invariant Valid() && trace == old(trace) && |inodes| == k && tick == old(tick) + 2 * k
        invariant forall j :: 0 <= j < k ==> Shows(world, old(tick), j, inodes[j])
        invariant Haunted(world) ==> AllZero(inodes)
      {
        var inode := world.confirm(tick);
        var now := world.inode(tick + 1);
        tick := tick + 2;
        if inode.None? || now != inode {
          intact := false;
          FailsAt(world, old(tick), k, n);
          return;
        }
        inodes := inodes + [inode.value];
      }
      var lost := Lost(locks);
      intact := !lost;
      if intact { Record(Checked(old(tick), inodes)); }
    }

    /** The last look, with nothing awaited after it. */
    method FinalSweep(locks: seq<Lock>, inodes: seq<nat>) returns (intact: bool)
      requires Valid() && |inodes| == |locks| == n && LastInodes(trace) == Some(inodes)
      modifies this`tick, this`trace
      ensures Valid() && trace == if intact then old(trace) + [Swept(old(tick), inodes)] else old(trace)
      ensures intact <==> StillIntact(world, old(tick), inodes)
      ensures Haunted(world) && AllZero(inodes) ==> intact
    {
      hide Disciplined, EventOk, LastInodes;
      var lost := Lost(locks);
      if lost { return false; }
      for k := 0 to |locks|
        invariant Valid() && trace == old(trace) && tick == old(tick) + |locks| + k
        invariant forall j :: 0 <= j < k ==> world.inode(old(tick) + |locks| + j) == Some(inodes[j])
      {
        var now := world.inode(tick);
        tick := tick + 1;
        if now != Some(inodes[k]) { return false; }
      }
      intact := true;
      Record(Swept(old(tick), inodes));
    }

    method Signal(pid: Pid) returns (k: Kill)
      requires Valid() && MaySignal(trace, pid, n)
      modifies this`tick, this`trace
      ensures Valid() && (Haunted(world) ==> k == NoSuchProcess)
      ensures trace == if k == NoSuchProcess then old(trace) + [Signalled(pid), Gone(old(tick), pid)] else old(trace) + [Signalled(pid)]
    {
      hide Disciplined, MaySignal, Latest;
      k := world.kill(tick);
      tick := tick + 1;
      TailFacts(trace, Signalled(pid));
      Record(Signalled(pid));
      if k == NoSuchProcess { Record(Gone(tick - 1, pid)); }
    }

    // ----- phases ---------------------------------------------------------------------------------

    /** Look until nobody is left or the deadline; None when a look throws. */
    method WaitForExit(patience: nat) returns (survivors: Option<seq<Pid>>)
      requires Valid() && HeldOf(trace) == {}
      modifies this`tick, this`trace
      ensures Valid() && HeldOf(trace) == {} && NoSignals(trace) == NoSignals(old(trace))
      ensures survivors.Some? ==> trace != [] && LastListed(trace) == survivors.value
      ensures Haunted(world) ==> survivors == Some([REUSED])
    {
      hide Disciplined, Haunted, EventOk, HeldOf, LastListed;
      survivors := List();
      if survivors.None? { return; }
      ExtendFacts(old(trace), Listed(old(tick), survivors.value));
      var left := patience;
      while left > 0 && survivors.value != []
        invariant Valid() && HeldOf(trace) == {} && NoSignals(trace) == NoSignals(old(trace))
        invariant survivors.Some? && trace != [] && LastListed(trace) == survivors.value
        invariant Haunted(world) ==> survivors == Some([REUSED])
      {
        left := left - 1;
        var late := Late();
        if late { return; }
        ghost var before, at := trace, tick;
        survivors := List();
        if survivors.None? { return; }
        ExtendFacts(before, Listed(at, survivors.value));
      }
    }

    /** One round over the paths, up to the first that is not to be had. */
    method TakeLocks() returns (taken: seq<Lock>)
      requires Valid() && HeldOf(trace) == {} && NoSignals(trace)
      modifies this`tick, this`acquired, this`trace
      ensures Valid() && NoSignals(trace) && |taken| <= n && Holds(taken)
      ensures Haunted(world) ==> |taken| == n
    {
      hide Disciplined, Haunted, EventOk, HeldOf;
      taken := [];
      assert HeldOf(trace) == ToSet(taken);
      while |taken| < n
        invariant |taken| <= n && Valid() && Holds(taken) && NoSignals(trace)
        invariant forall k :: k in taken ==> Acquired(k) in trace
      {
        ghost var before := trace;
        var got := TryLock();
        if got.None? { return; }
        ExtendFacts(before, Acquired(got.value));
        assert ToSet(taken + [got.value]) == ToSet(taken) + {got.value};
        taken := taken + [got.value];
      }
    }

    /** All of the locks, or none; each failed attempt gives back what it took. */
    method AcquireAll(patience: nat) returns (locks: Option<seq<Lock>>)
      requires Valid() && HeldOf(trace) == {} && NoSignals(trace)
      modifies this`tick, this`acquired, this`trace
      ensures Valid() && NoSignals(trace)
      ensures if locks.Some? then |locks.value| == n && Holds(locks.value) else HeldOf(trace) == {}
      ensures Haunted(world) ==> locks.Some?
    {
      hide Disciplined, Haunted, EventOk, HeldOf;
      var left := patience;
      while true
        invariant Valid() && HeldOf(trace) == {} && NoSignals(trace)
        decreases left
      {
        var taken := TakeLocks();
        var lost := false;
        if |taken| == n {
          lost := Lost(taken);
          if !lost { return Some(taken); }
        }
        ghost var held := trace;
        var ok := ReleaseAll(taken);
        QuietSuffix(held, trace);
        if lost || !ok || left == 0 { return None; }
        var late := Late();
        if late { return None; }
        left := left - 1;
      }
    }

    /** The preflight at index `i` still stands, and every lock is held. */
    ghost predicate Ready(locks: seq<Lock>, i: nat, survivors: seq<Pid>)
      reads this
    {
      && Valid() && Holds(locks) && |locks| == n && i < |trace| - 1
      && trace[i].Listed? && trace[i].pids == survivors && forall pid :: pid in survivors ==> PreflightAt(trace, i, pid)
    }

    /** Check, look the survivor up in the strict list, sweep: what is left to do about it, if anything. */
    method Approach(pid: Pid, locks: seq<Lock>, ghost i: nat, ghost survivors: seq<Pid>) returns (next: Approached)
      requires Ready(locks, i, survivors) && pid in survivors
      modifies this`tick, this`trace
      ensures Valid() && Holds(locks) && old(trace) <= trace
      ensures next != Stop ==> Ready(locks, i, survivors)
      ensures next == ToSignal ==> MaySignal(trace, pid, n)
      ensures next == Absent ==> FoundGone(trace, i, pid)
      ensures Haunted(world) && pid == REUSED ==> next == ToSignal
    {
      hide Disciplined, Haunted, EventOk, HeldOf, PreflightAt, Preflighted, CheckedSinceSignal, LastTargets, LastListed, LastInodes, Latest, MaySignal;
      ghost var t0, at := trace, tick;
      var intact, inodes := LeasesIntact(locks);
      if !intact { return Stop; }
      StepKeeps(t0, Checked(at, inodes), i, survivors);
      TailFacts(t0, Checked(at, inodes));
      ghost var t1, at1 := trace, tick;
      var targets := Targets();
      if targets.None? { return Stop; }
      StepKeeps(t1, Targeted(at1, targets.value), i, survivors);
      TailFacts(t1, Targeted(at1, targets.value));
      ghost var t2, at2 := trace, tick;
      if pid !in targets.value {
        var living := List();
        if living.None? { return Stop; }
        StepKeeps(t2, Listed(at2, living.value), i, survivors);
        if pid in living.value { return Stop; }
        assert GoneAt(trace, |t2|, pid);
        return Absent;
      }
      var swept := FinalSweep(locks, inodes);
      if !swept { return Stop; }
      StepKeeps(t2, Swept(at2, inodes), i, survivors);
      HoldsSize(locks);
      assert trace == t0 + [Checked(at, inodes), Targeted(at1, targets.value), Swept(at2, inodes)];
      SweptMaySignal(t0, Checked(at, inodes), Targeted(at1, targets.value), Swept(at2, inodes), pid, i, survivors, n);
      next := ToSignal;
    }

    /** One survivor: signalled as the discipline allows, or found gone; None ends the drain. */
    method SignalOne(pid: Pid, locks: seq<Lock>, ghost i: nat, ghost survivors: seq<Pid>) returns (gone: Option<bool>)
      requires Ready(locks, i, survivors) && pid in survivors
      modifies this`tick, this`trace
      ensures Valid() && Holds(locks) && old(trace) <= trace
      ensures gone.Some? ==> Ready(locks, i, survivors)
      ensures gone == Some(true) ==> FoundGone(trace, i, pid)
      ensures Haunted(world) && pid == REUSED ==> gone == Some(true)
    {
      hide Disciplined, Haunted, EventOk, HeldOf, PreflightAt, MaySignal, LastListed, LastInodes, Latest;
      var next := Approach(pid, locks, i, survivors);
      if next == Stop { return None; }
      if next == Absent { return Some(true); }
      ghost var t, at := trace, tick;
      var k := Signal(pid);
      StepKeeps(t, Signalled(pid), i, survivors);
      if k == NoSuchProcess {
        StepKeeps(t + [Signalled(pid)], Gone(at, pid), i, survivors);
        assert trace == t + [Signalled(pid)] + [Gone(at, pid)];
        assert GoneAt(trace, |t| + 1, pid);
        return Some(true);
      }
      gone := if k == Sent then Some(false) else None;
    }

    /** Every survivor in turn; the set of those found gone, or None when the drain must stop. */
    method SignalAll(survivors: seq<Pid>, locks: seq<Lock>, ghost i: nat) returns (gone: Option<set<Pid>>)
      requires Ready(locks, i, survivors)
      modifies this`tick, this`trace
      ensures Valid() && Holds(locks)
      ensures gone.Some? ==> Ready(locks, i, survivors) && AllGone(trace, i, gone.value)
      ensures Haunted(world) && survivors == [REUSED] ==> gone == Some({REUSED})
    {
      var exited: set<Pid> := {};
      for k := 0 to |survivors|
        invariant Ready(locks, i, survivors)
        invariant forall pid :: pid in exited ==> pid in survivors && FoundGone(trace, i, pid)
        invariant Haunted(world) && survivors == [REUSED] ==> exited == if k == 0 then {} else {REUSED}
      {
        ghost var before := trace;
        var one := SignalOne(survivors[k], locks, i, survivors);
        if one.None? { return None; }
        GoneStays(before, trace, i);
        if one.value { exited := exited + {survivors[k]}; }
      }
      gone := Some(exited);
    }

    /** Wait until nobody is listed but those already found gone; leases are checked before every look. */
    method WaitForGone(survivors: seq<Pid>, exited: set<Pid>, locks: seq<Lock>, patience: nat, ghost i: nat) returns (done: bool)
      requires Ready(locks, i, survivors) && survivors != [] && AllGone(trace, i, exited)
      modifies this`tick, this`trace
      ensures Valid() && Holds(locks)
      ensures done ==> Cleared(trace, i)
      ensures Haunted(world) && exited == {REUSED} && patience > 0 ==> done && LastListed(trace) == [REUSED]
    {
      hide Disciplined, Haunted, EventOk, HeldOf, PreflightAt, LastListed, Latest;
      var left, remaining := patience, survivors;
      while left > 0 && remaining != []
        invariant Valid() && Holds(locks) && AllGone(trace, i, exited)
        invariant remaining == [] ==> forall pid :: pid in LastListed(trace) ==> pid in exited
        invariant Haunted(world) && exited == {REUSED} && patience > 0 ==>
                    if remaining == [] then LastListed(trace) == [REUSED] else left == patience
      {
        left := left - 1;
        var late := Late();
        if late { return false; }
        ghost var t0, at := trace, tick;
        var intact, inodes := LeasesIntact(locks);
        if !intact { return false; }
        ExtendFacts(t0, Checked(at, inodes));
        ghost var t1, at1 := trace, tick;
        var living := List();
        if living.None? { return false; }
        ExtendFacts(t1, Listed(at1, living.value));
        AllGoneStays(t0, trace, i, exited);
        remaining := Without(living.value, exited);
        WithoutMembers(living.value, exited);
        assert remaining != [] ==> remaining[0] in remaining;
      }
      done := remaining == [];
    }

    /** The last proof: leases checked and swept, with nothing in between. */
    method Prove(locks: seq<Lock>, ghost i: nat) returns (ok: bool)
      requires Valid() && Holds(locks) && |locks| == n && Cleared(trace, i)
      modifies this`tick, this`trace
      ensures Valid() && Holds(locks)
      ensures ok ==> Cleared(trace, i) && trace != [] && trace[|trace| - 1].Swept? && LastListed(trace) == LastListed(old(trace))
      ensures Haunted(world) ==> ok
    {
      hide Disciplined, Haunted, EventOk, HeldOf, PreflightAt, LastListed, LastInodes, Latest;
      ghost var t0, at := trace, tick;
      var intact, inodes := LeasesIntact(locks);
      if !intact { return false; }
      ExtendFacts(t0, Checked(at, inodes));
      ghost var t1, at1 := trace, tick;
      ok := FinalSweep(locks, inodes);
      if ok {
        ExtendFacts(t1, Swept(at1, inodes));
        ClearedStays(t0, trace, i);
      }
    }

    /** Everything between taking the locks and giving them back. */
    method UnderLocks(locks: seq<Lock>, patience: nat) returns (ok: bool, ghost i: nat)
      requires Valid() && Holds(locks) && |locks| == n && NoSignals(trace)
      modifies this`tick, this`trace
      ensures Valid() && Holds(locks)
      ensures ok ==> Cleared(trace, i) && trace != [] && trace[|trace| - 1].Swept?
      ensures Haunted(world) && patience > 0 ==> ok && LastListed(trace) == [REUSED]
    {
      hide Disciplined, Haunted, EventOk, HeldOf, LastListed, Latest;
      i := |trace|;
      ghost var t0, at := trace, tick;
      var survivors := List();
      if survivors.None? { return false, i; }
      ExtendFacts(t0, Listed(at, survivors.value));
      if survivors.value == [] {
        ok := Prove(locks, i);
        return;
      }
      ghost var t1, at1 := trace, tick;
      var preflight := Targets();
      if preflight.None? { return false, i; }
      ExtendFacts(t1, Targeted(at1, preflight.value));
      if exists pid :: pid in survivors.value && pid !in preflight.value { return false, i; }
      assert trace[i] == Listed(at, survivors.value) && trace[i + 1] == Targeted(at1, preflight.value);
      var gone := SignalAll(survivors.value, locks, i);
      if gone.None? { return false, i; }
      var done := WaitForGone(survivors.value, gone.value, locks, patience, i);
      if !done { return false, i; }
      ok := Prove(locks, i);
    }

    /**
     The whole drain. Whatever the environment does, every lock acquired has been released by
     the end, and every signal went to a process on the latest strict list, after a preflight
     of every survivor, with all locks held and every lease shown intact twice. Success means
     that whoever is on the last list of the living passed the preflight and was found gone
     after it; so the list is empty exactly when nobody found gone is on it again. It need not
     be: a pid that is listed although a signal found it gone passes.
     */
    method CooperativeDrain(patience: nat) returns (ok: bool, ghost i: nat)
      requires Valid() && trace == []
      modifies this`tick, this`acquired, this`trace
      ensures Disciplined(world, trace, n) && HeldOf(trace) == {}
      ensures ok ==> trace != [] && Cleared(trace, i) && EmptyUnlessReused(trace, i)
      ensures Haunted(world) && n > 0 && patience > 0 ==> ok && LastListed(trace) == [REUSED]
    {
      hide EventOk, Haunted, PreflightAt;
      i := 0;
      var survivors := WaitForExit(patience);
      if survivors.None? { return false, i; }
      if survivors.value == [] {
        ClearedMeansReused(trace, i);
        return true, i;
      }
      if n == 0 { return false, i; }
      var locks := AcquireAll(patience);
      if locks.None? { return false, i; }
      ok, i := UnderLocks(locks.value, patience);
      ghost var before := trace;
      var released := ReleaseAll(locks.value);
      ReleasesTellNothing(before, trace, i);
      ok := ok && released;
      if ok { ClearedMeansReused(trace, i); }
    }

    lemma HoldsSize(locks: seq<Lock>)
      requires Holds(locks)
      ensures |HeldOf(trace)| == |locks|
    {
      DistinctSize(locks);
    }
  }

  // ----- traces that grow ------------------------------------------------------------------------

  /** No evidence of `n` leases contains an answer that shows nothing. */
  lemma FailsAt(w: World, at: nat, k: nat, n: nat)
    requires k < n && forall inode: nat :: !Shows(w, at, k, inode)
    ensures forall shown: seq<nat> :: |shown| == n ==> !Intact(w, at, shown)
  {
    forall shown: seq<nat> | |shown| == n ensures !Intact(w, at, shown) {
      assert !Shows(w, at, k, shown[k]);
    }
  }

  /** Everybody in the set passed the preflight and was found gone after it. */
  ghost predicate AllGone(t: seq<Event>, i: nat, exited: set<Pid>) {
    forall pid :: pid in exited ==> i < |t| - 1 && PreflightAt(t, i, pid) && FoundGone(t, i, pid)
  }

  lemma GoneStays(before: seq<Event>, after: seq<Event>, i: nat)
    requires before <= after
    ensures forall pid :: FoundGone(before, i, pid) ==> FoundGone(after, i, pid)
  {
    forall pid | FoundGone(before, i, pid) ensures FoundGone(after, i, pid) {
      var j :| i + 1 < j < |before| && GoneAt(before, j, pid);
      assert GoneAt(after, j, pid);
    }
  }

  lemma PreflightStays(before: seq<Event>, after: seq<Event>, i: nat)
    requires before <= after && i < |before| - 1
    ensures forall pid :: PreflightAt(before, i, pid) ==> PreflightAt(after, i, pid)
  {
  }

  lemma AllGoneStays(before: seq<Event>, after: seq<Event>, i: nat, exited: set<Pid>)
    requires AllGone(before, i, exited) && before <= after
    ensures AllGone(after, i, exited)
  {
    GoneStays(before, after, i);
    if i < |before| - 1 { PreflightStays(before, after, i); }
  }

  lemma ClearedStays(before: seq<Event>, after: seq<Event>, i: nat)
    requires Cleared(before, i) && before <= after && LastListed(after) == LastListed(before)
    ensures Cleared(after, i)
  {
    GoneStays(before, after, i);
    if i < |before| - 1 { PreflightStays(before, after, i); }
  }

  function Without(pids: seq<Pid>, exited: set<Pid>): seq<Pid> {
    if pids == [] then []
    else Without(pids[..|pids| - 1], exited) + (if pids[|pids| - 1] in exited then [] else [pids[|pids| - 1]])
  }

  lemma {:induction false} WithoutMembers(pids: seq<Pid>, exited: set<Pid>)
    ensures forall pid :: pid in Without(pids, exited) <==> pid in pids && pid !in exited
  {
    if pids != [] {
      WithoutMembers(pids[..|pids| - 1], exited);
      assert pids == pids[..|pids| - 1] + [pids[|pids| - 1]];
    }
  }

  /** Giving locks back says nothing about the living. */
  lemma {:induction false} ReleasesTellNothing(before: seq<Event>, after: seq<Event>, i: nat)
    requires before <= after && forall e :: e in after[|before|..] ==> e.Released?
    ensures LastListed(after) == LastListed(before)
    ensures Cleared(before, i) ==> Cleared(after, i)
    decreases |after|
  {
    if |after| > |before| {
      var init, last := after[..|after| - 1], after[|after| - 1];
      assert after == init + [last] && init[|before|..] == after[|before|..][..|init| - |before|];
      assert last in after[|before|..];
      ReleasesTellNothing(before, init, i);
      TailFacts(init, last);
      if Cleared(init, i) { ClearedStays(init, after, i); }
    } else {
      assert after == before;
    }
  }

  /** A step that keeps what is held, and a preflight made before. */
  ghost predicate Steps(before: seq<Event>, after: seq<Event>, i: nat, survivors: seq<Pid>) {
    && HeldOf(after) == HeldOf(before) && before <= after
    && (i < |before| - 1 && (forall pid :: pid in survivors ==> PreflightAt(before, i, pid)) ==>
          forall pid :: pid in survivors ==> PreflightAt(after, i, pid))
  }

  lemma StepKeeps(t: seq<Event>, e: Event, i: nat, survivors: seq<Pid>)
    requires !e.Acquired? && !e.Released?
    ensures Steps(t, t + [e], i, survivors)
  {
    TailFacts(t, e);
    if i < |t| - 1 { PreflightStays(t, t + [e], i); }
  }

  /** A check, a strict list naming the process and a sweep, in this order, allow a signal. */
  lemma SweptMaySignal(t: seq<Event>, check: Event, list: Event, sweep: Event, pid: Pid, i: nat, survivors: seq<Pid>, n: nat)
    requires check.Checked? && list.Targeted? && sweep.Swept?
    requires pid in list.pids && |HeldOf(t)| == n && pid in survivors
    requires i < |t| - 1 && forall p :: p in survivors ==> PreflightAt(t, i, p)
    ensures MaySignal(t + [check, list, sweep], pid, n)
  {
    hide HeldOf, PreflightAt, CheckedSinceSignal, LastTargets, LastListed, LastInodes, Latest;
    var a, b, c := t + [check], t + [check] + [list], t + [check] + [list] + [sweep];
    assert c == t + [check, list, sweep];
    TailFacts(t, check);
    TailFacts(a, list);
    TailFacts(b, sweep);
    PreflightStays(t, c, i);
    assert PreflightAt(c, i, pid);
  }

  /** What one more event says. */
  lemma TailFacts(t: seq<Event>, e: Event)
    ensures CheckedSinceSignal(t + [e]) <==> e.Checked? || (!e.Signalled? && CheckedSinceSignal(t))
    ensures LastTargets(t + [e]) == if e.Targeted? then e.pids else LastTargets(t)
    ensures LastListed(t + [e]) == if e.Listed? then e.pids else LastListed(t)
    ensures LastInodes(t + [e]) == if e.Checked? then Some(e.inodes) else LastInodes(t)
    ensures Latest(t + [e]) == if Latest(t) > End(e) then Latest(t) else End(e)
    ensures HeldOf(t + [e]) == if e.Acquired? then HeldOf(t) + {e.lock} else if e.Released? then HeldOf(t) - {e.lock} else HeldOf(t)
  {
    assert (t + [e])[..|t|] == t;
  }

  lemma ExtendFacts(t: seq<Event>, e: Event)
    ensures LastListed(t + [e]) == if e.Listed? then e.pids else LastListed(t)
    ensures LastInodes(t + [e]) == if e.Checked? then Some(e.inodes) else LastInodes(t)
    ensures HeldOf(t + [e]) == if e.Acquired? then HeldOf(t) + {e.lock} else if e.Released? then HeldOf(t) - {e.lock} else HeldOf(t)
    ensures NoSignals(t + [e]) <==> NoSignals(t) && !e.Signalled?
  {
    TailFacts(t, e);
    assert forall x :: x in t + [e] <==> x in t || x == e;
  }

  lemma {:induction false} DistinctSize(locks: seq<Lock>)
    requires forall i, j :: 0 <= i < j < |locks| ==> locks[i] != locks[j]
    ensures |ToSet(locks)| == |locks|
  {
    if locks != [] {
      var init, last := locks[..|locks| - 1], locks[|locks| - 1];
      DistinctSize(init);
      assert locks == init + [last];
      assert last !in ToSet(init);
      assert ToSet(locks) == ToSet(init) + {last};
    }
  }

  predicate NoSignals(t: seq<Event>) { forall e :: e in t ==> !e.Signalled? }

  lemma QuietSuffix(before: seq<Event>, after: seq<Event>)
    requires NoSignals(before) && before <= after && forall e :: e in after[|before|..] ==> e.Released?
    ensures NoSignals(after)
  {
    assert after == before + after[|before|..];
  }

  /** The same pid on every list, gone at every signal: the drain reports success with it still listed. */
  method ReusedPidPasses() returns (s: Site, ok: bool)
    ensures ok && LastListed(s.trace) == [REUSED]
  {
    var w := World(_ => Some([REUSED]), _ => Some([REUSED]), _ => Got, _ => true, _ => false, _ => Some(0), _ => Some(0), _ => NoSuchProcess, _ => false);
    s := new Site(w, 1);
    assert Haunted(s.world);
    ghost var i;
    ok, i := s.CooperativeDrain(1);
  }
}
