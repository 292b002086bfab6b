/**
 Refreshing the active Claude login: its credential stands in a slot and in the live store, and
 either may be ahead of the other. Which of them may be served, restored or spent, when one
 lineage provably succeeds another, and what must hold of slot, live store and stashes so that
 no exchanged token is ever sent.
 */
module ActiveModel {
  import opened Prelude
  import opened ClaudeSlots
  import opened ClaudeConsume

  const BUFFER: int := 300_000

  /** Within five minutes of its expiry; one without an expiry never is. */
  predicate Expired(c: Cred, now: int) { c.expires.Some? && now + BUFFER >= c.expires.value }

  /** Both tokens are there. */
  predicate Pair(c: Cred) { c.fp.Some? && c.shape == Whole }

  function Expiry(c: Cred): int { c.expires.GetOr(0) }

  // ----- decisions ---------------------------------------------------------------------------

  datatype Rotated = Unrotated | Foreign | Adopt(writeSlot: bool)

  /** Whether a live credential newer than the caller's is served, and whether it repairs the slot. */
  function AdoptRotated(creds: Cred, live: Cred, slotFp: Option<Fp>, prevFp: Option<Fp>, verdict: Option<bool>, now: int): Rotated {
    if live.fp.None? || live == creds || !Pair(live) || Expired(live, now) then Unrotated
    else if verdict == Some(false) then Foreign
    else Adopt(live.fp == slotFp || live.fp == prevFp || verdict == Some(true))
  }

  datatype Source = FromLive | FromSlot

  datatype Why = Unattributable | LiveUnattributedNewer | LiveMoved

  datatype Choice = Spend(input: Cred, slotLineage: bool, source: Source) | Restore | Defer(why: Why)

  function Spending(input: Cred, slotFp: Option<Fp>, source: Source): Choice { Spend(input, input.fp == slotFp, source) }

  function BackupDecision(creds: Cred, backup: Cred, slotFp: Option<Fp>, attributed: bool, forced: bool, now: int): Choice {
    if !Pair(backup) then (if attributed then Spending(creds, slotFp, FromLive) else Defer(Unattributable))
    else if !forced && !Expired(backup, now) then Restore
    else Spending(backup, slotFp, FromSlot)
  }

  function ChooseInput(creds: Cred, live: Cred, backup: Cred, slotFp: Option<Fp>, attributed: bool, forced: bool, now: int): Choice {
    if live.fp.None? then BackupDecision(creds, backup, slotFp, attributed, forced, now)
    else if live.fp == slotFp then Spending(live, slotFp, FromLive)
    else if live != creds then Defer(LiveMoved)
    else if live.fp == backup.fp then Spending(live, slotFp, FromLive)
    else if Expiry(live) > Expiry(backup) && Pair(live) then
      if attributed then Spending(live, slotFp, FromLive) else Defer(LiveUnattributedNewer)
    else BackupDecision(creds, backup, slotFp, attributed, forced, now)
  }

  /**
   Only the slot's own lineage is ever spent, or else the live credential itself, attributed and
   no other than the caller saw, and then it is newer than the slot's or the slot's is not usable.
   A restore puts back a usable slot credential that is not expired and nobody forced.
   */
  lemma ChoiceIsLicensed(creds: Cred, live: Cred, backup: Cred, attributed: bool, forced: bool, now: int)
    requires backup.fp.Some? && (attributed ==> live.fp.Some?)
    ensures var c := ChooseInput(creds, live, backup, backup.fp, attributed, forced, now);
            && (c.Spend? ==> (c.slotLineage <==> c.input.fp == backup.fp) && c.input == if c.source == FromLive then live else backup)
            && (c.Spend? && !c.slotLineage ==>
                  c.input == live == creds && attributed && (!Pair(backup) || (Pair(live) && Expiry(live) > Expiry(backup))))
            && (c.Restore? ==> Pair(backup) && !Expired(backup, now) && !forced && live.fp != backup.fp
                               && (live.fp.Some? && Pair(live) ==> Expiry(live) <= Expiry(backup)))
  {
  }

  // ----- which lineage succeeds which -----------------------------------------------------------

  datatype Link = Link(from: Fp, to: Fp)

  /** The recorded transitions of an account, and the slot's own predecessor. */
  function Links(m: Meta, id: string): seq<Link> {
    Recorded(m.log, id)
    + (if id in m.rows && m.rows[id].prevFp.Some? && m.rows[id].fp.Some? then [Link(m.rows[id].prevFp.value, m.rows[id].fp.value)] else [])
  }

  function Recorded(log: seq<Edge>, id: string): seq<Link> {
    if log == [] then []
    else
      Recorded(log[..|log| - 1], id)
      + (if log[|log| - 1].account == id && log[|log| - 1].from.Some? then [Link(log[|log| - 1].from.value, log[|log| - 1].to)] else [])
  }

  ghost predicate Reaches(links: seq<Link>, a: Fp, b: Fp, n: nat)
    decreases n
  {
    if n == 0 then a == b else exists l :: l in links && l.from == a && Reaches(links, l.to, b, n - 1)
  }

  /** Some chain of links leads from one to the other, and they differ. */
  ghost predicate Succeeds(links: seq<Link>, a: Fp, b: Fp) { a != b && exists n: nat :: Reaches(links, a, b, n) }

  ghost function Nodes(links: seq<Link>, a: Fp): set<Fp> { {a} + Ends(links) }

  ghost function Ends(links: seq<Link>): set<Fp> { set k | 0 <= k < |links| :: links[k].to }

  lemma {:induction false} ReachesNext(links: seq<Link>, a: Fp, l: Link, n: nat)
    requires l in links && Reaches(links, a, l.from, n)
    ensures Reaches(links, a, l.to, n + 1)
    decreases n
  {
    if n == 0 {
      assert Reaches(links, l.to, l.to, 0);
    } else {
      var m :| m in links && m.from == a && Reaches(links, m.to, l.from, n - 1);
      ReachesNext(links, m.to, l, n - 1);
    }
  }

  /** A set closed under the links cannot be left. */
  lemma {:induction false} ClosedHolds(links: seq<Link>, inside: set<Fp>, a: Fp, b: Fp, n: nat)
    requires a in inside && Reaches(links, a, b, n) && forall l :: l in links && l.from in inside ==> l.to in inside
    ensures b in inside
    decreases n
  {
    if n > 0 {
      var l :| l in links && l.from == a && Reaches(links, l.to, b, n - 1);
      ClosedHolds(links, inside, l.to, b, n - 1);
    }
  }

  ghost predicate Reached(links: seq<Link>, a: Fp, b: Fp) { exists n: nat :: Reaches(links, a, b, n) }

  /** Everybody a visited node links to, with what was pending before. */
  method Follow(links: seq<Link>, node: Fp, pending: seq<Fp>) returns (more: seq<Fp>)
    ensures forall b :: b in more <==> b in pending || exists l :: l in links && l.from == node && l.to == b
  {
    more := pending;
    for k := 0 to |links|
      invariant forall b :: b in more <==> b in pending || exists l :: l in links[..k] && l.from == node && l.to == b
    {
      assert links[..k + 1] == links[..k] + [links[k]];
      if links[k].from == node { more := more + [links[k].to]; }
    }
    assert links[..|links|] == links;
  }

  /** The search from the older lineage, one pending node at a time. */
  method IsSuccessor(links: seq<Link>, a: Fp, b: Fp) returns (found: bool)
    ensures found <==> Succeeds(links, a, b)
  {
    if a == b { return false; }
    var pending, visited: set<Fp> := [a], {};
    assert Reaches(links, a, a, 0);
    while pending != []
      invariant a in visited || a in pending
      invariant visited <= Nodes(links, a) && (forall x :: x in pending ==> x in Nodes(links, a))
      invariant forall x :: x in visited || x in pending ==> Reached(links, a, x)
      invariant forall l :: l in links && l.from in visited ==> l.to in visited || l.to in pending
      invariant b !in visited
      decreases Nodes(links, a) - visited, |pending|
    {
      var node := pending[|pending| - 1];
      var rest := pending[..|pending| - 1];
      assert pending == rest + [node];
      if node == b { return true; }
      if node in visited {
        pending := rest;
      } else {
        var more := Follow(links, node, rest);
        forall x | x in more && x !in rest ensures Reached(links, a, x) && x in Nodes(links, a) {
          var l :| l in links && l.from == node && l.to == x;
          var n: nat :| Reaches(links, a, node, n);
          ReachesNext(links, a, l, n);
        }
        pending, visited := more, visited + {node};
      }
    }
    if Succeeds(links, a, b) {
      var n: nat :| Reaches(links, a, b, n);
      ClosedHolds(links, visited, a, b, n);
    }
    found := false;
  }

  // ----- custody across slot, live store and stashes ---------------------------------------------

  predicate Spent(p: Provider, c: Cred) { c.fp.Some? && c.fp.value in p.next }

  /** Nothing is filed under the token. */
  predicate NothingFiled(stashes: seq<Stash>, t: Fp) { forall s :: s in stashes ==> s.consumed != t }

  /** The slot's token is spent, and what it was exchanged for stands in the live store, visibly newer. */
  ghost predicate Ahead(p: Provider, stashes: seq<Stash>, c: Cred, live: Option<Cred>) {
    && Spent(p, c) && Unspent(p, p.next[c.fp.value]) && NothingWaits(stashes, c) && NothingFiled(stashes, p.next[c.fp.value])
    && live.Some? && Pair(live.value) && live.value.fp == Some(p.next[c.fp.value]) && Expiry(c) < Expiry(live.value)
  }

  /** A spent live credential is not newer than what the slot holds, or is about to hold. */
  ghost predicate Outdated(stashes: seq<Stash>, c: Cred, live: Cred) {
    if NothingWaits(stashes, c) then Pair(c) && live.fp != c.fp && Expiry(live) <= Expiry(c)
    else forall s :: s in stashes && Waits(s, c) ==> live.fp != s.cred.fp && Expiry(live) <= Expiry(s.cred)
  }

  ghost predicate LiveOk(p: Provider, stashes: seq<Stash>, item: Option<Cred>, live: Cred) {
    live.fp.Some? ==>
      && live.fp.value <= p.top
      && if Spent(p, live) then item.Some? && item.value.fp.Some? ==> Outdated(stashes, item.value, live)
         else (item.Some? && item.value.fp == live.fp) || NothingFiled(stashes, live.fp.value)
  }

  ghost predicate StashesOk(p: Provider, stashes: seq<Stash>) {
    forall s :: s in stashes ==> StashOk(p, s) && Pair(s.cred) && s.cred.expires.value > 0
  }

  /** A token that can still be exchanged is in the slot, in a stash found by it, or in the live store. */
  ghost predicate Held(p: Provider, stashes: seq<Stash>, item: Option<Cred>, live: Option<Cred>) {
    && ProviderOk(p) && StashesOk(p, stashes)
    && (item.Some? && item.value.fp.Some? ==> SlotOk(p, stashes, item.value) || Ahead(p, stashes, item.value, live))
    && (live.Some? ==> LiveOk(p, stashes, item, live.value))
  }

  /** What a call finds once nothing waits for its slot. */
  ghost predicate Ready(p: Provider, stashes: seq<Stash>, item: Cred, live: Cred) {
    Held(p, stashes, Some(item), Some(live)) && item.fp.Some? && NothingWaits(stashes, item)
  }

  /**
   What the decision spends, once nothing waits, was never exchanged; and when the slot's lineage
   is not it, neither is anything filed under it.
   */
  lemma SpendsUnspent(p: Provider, stashes: seq<Stash>, item: Cred, live: Cred, creds: Cred, attributed: bool, forced: bool, now: int)
    requires Ready(p, stashes, item, live) && (attributed ==> live.fp.Some?)
    ensures var c := ChooseInput(creds, live, item, item.fp, attributed, forced, now);
            c.Spend? ==>
              && c.input.fp.Some? && Unspent(p, c.input.fp.value)
              && (!c.slotLineage ==> c.input == live && NothingFiled(stashes, live.fp.value))
  {
    ChoiceIsLicensed(creds, live, item, attributed, forced, now);
  }

  /** A first stash that waits is taken over: the live store is not ahead of it. */
  lemma AdoptionHolds(p: Provider, before: seq<Stash>, after: seq<Stash>, item: Cred, live: Option<Cred>)
    requires Held(p, before, Some(item), live) && FirstWaiting(before, item).Some? && forall s :: s in after ==> s in before
    ensures var next := FirstWaiting(before, item).value.cred;
            Held(p, after, Some(next), live) && next.fp.Some? && NothingWaits(after, next)
  {
    FirstWaitingMeans(before, item);
    var s := FirstWaiting(before, item).value;
    assert SlotOk(p, before, item);
    AdoptionIsSafe(p, before, item, s);
    if live.Some? && live.value.fp.Some? && !Spent(p, live.value) {
      assert s.cred.fp == live.value.fp || NothingFiled(after, live.value.fp.value);
    }
  }

  /** Stashes that do not wait for the slot may go. */
  lemma DroppingHolds(p: Provider, before: seq<Stash>, after: seq<Stash>, item: Option<Cred>, live: Option<Cred>)
    requires Held(p, before, item, live) && forall s :: s in after ==> s in before
    requires item.Some? ==> forall s :: s in before && Waits(s, item.value) ==> s in after
    ensures Held(p, after, item, live)
  {
    if item.Some? && item.value.fp.Some? && SlotOk(p, before, item.value) && !Unspent(p, item.value.fp.value) {
      var s :| s in before && Waits(s, item.value);
      assert s in after;
    }
  }

  /** Putting the slot's credential back into the live store. */
  lemma RestoreHolds(p: Provider, stashes: seq<Stash>, item: Cred, live: Cred, restored: Cred)
    requires Held(p, stashes, Some(item), Some(live)) && Pair(item) && item.fp != live.fp
    requires live.fp.Some? && Pair(live) ==> Expiry(live) <= Expiry(item)
    requires restored == item.(shared := restored.shared)
    ensures Held(p, stashes, Some(item), Some(restored))
  {
  }

  /** Writing the live credential into the slot. */
  lemma OwningHolds(p: Provider, stashes: seq<Stash>, item: Option<Cred>, live: Cred)
    requires Held(p, stashes, item, Some(live)) && live.fp.Some? && !Spent(p, live) && Uniform(stashes, live)
    ensures Held(p, stashes, Some(live), Some(live))
  {
  }

  // ----- after an exchange -------------------------------------------------------------------------

  /** The same tokens, beside machine-shared fields of their own. */
  predicate SameTokens(a: Cred, b: Cred) { a == b.(shared := a.shared) }

  /** The grant expires after the credential it renews, as either comparison has it. */
  predicate Outlasts(c: Cred, expires: int) { Outlives(c, expires) && Expiry(c) < expires && 0 < expires }

  ghost predicate AddsCopies(before: seq<Stash>, after: seq<Stash>, s: Stash) {
    && (forall t :: t in before ==> t in after)
    && (forall t :: t in after ==> t in before || t == s)
  }

  /** What holds of provider and stashes once the slot's token has been exchanged. */
  ghost predicate Exchanged(q: Provider, after: seq<Stash>, slot: Cred, working: Cred) {
    && ProviderOk(q) && StashesOk(q, after) && slot.fp.Some? && Pair(working) && Unspent(q, working.fp.value)
    && if Spent(q, slot) then q.next[slot.fp.value] == working.fp.value && NothingFiled(after, working.fp.value)
       else slot.fp == working.fp && Unspent(q, slot.fp.value)
  }

  lemma ExchangeHolds(p: Provider, q: Provider, before: seq<Stash>, after: seq<Stash>, w: Intruder, slot: Cred, working: Cred)
    requires ProviderOk(p) && StashesOk(p, before) && slot.fp.Some? && Unspent(p, slot.fp.value)
    requires (w.Nobody? || w.Edits?) && Pair(working) && Exchanges(p, q, w, slot.fp.value, working.fp.value)
    requires working.expires.Some? && working.expires.value > 0 && AddsCopies(before, after, Stash(working, slot.fp.value))
    ensures Exchanged(q, after, slot, working)
    ensures forall c: Cred :: c.fp.Some? && c.fp.value <= p.top ==>
              c.fp.value <= q.top && c.fp != Some(p.top + 1) && (Spent(q, c) ==> Spent(p, c) || c.fp == slot.fp)
    ensures forall c: Cred :: Spent(p, c) ==> Spent(q, c)
    ensures working.fp == slot.fp || working.fp == Some(p.top + 1)
  {
    assert Seen(p, w) == p;
  }

  /** The slot keeps or gets a token that can be exchanged, or the live store is ahead of it. */
  lemma SlotSideHolds(q: Provider, before: seq<Stash>, after: seq<Stash>, slot: Cred, found: Cred, working: Cred, item: Cred, live: Option<Cred>)
    requires Exchanged(q, after, slot, working) && AddsCopies(before, after, Stash(working, slot.fp.value))
    requires NothingWaits(before, found) && found.fp == slot.fp && found.expires == slot.expires
    requires working.expires.Some? && Outlasts(slot, working.expires.value)
    requires item == found || item == working
    requires || item == working || Stash(working, slot.fp.value) in after
             || (live.Some? && SameTokens(live.value, working))
    ensures SlotOk(q, after, item) || Ahead(q, after, item, live)
  {
    assert forall s :: s in after && Waits(s, found) ==> s == Stash(working, slot.fp.value);
    if item == working && !Spent(q, slot) {
      assert forall s :: s in after && Waits(s, working) ==> false;
    }
  }

  /** And the live store is no danger: what it holds is the successor, or older than it. */
  lemma LiveSideHolds(p: Provider, q: Provider, before: seq<Stash>, after: seq<Stash>, slot: Cred, read: Cred, found: Cred, working: Cred, item: Cred, live: Cred)
    requires Exchanged(q, after, slot, working) && AddsCopies(before, after, Stash(working, slot.fp.value))
    requires LiveOk(p, before, Some(slot), read) && NothingWaits(before, slot) && NothingWaits(before, found)
    requires found.fp == slot.fp && found.expires == slot.expires && found.shape == slot.shape && slot.fp.value <= p.top
    requires forall c: Cred :: c.fp.Some? && c.fp.value <= p.top ==>
               c.fp.value <= q.top && c.fp != Some(p.top + 1) && (Spent(q, c) ==> Spent(p, c) || c.fp == slot.fp)
    requires forall c: Cred :: Spent(p, c) ==> Spent(q, c)
    requires (working.fp == slot.fp || working.fp == Some(p.top + 1)) && working.expires.Some? && Outlasts(slot, working.expires.value)
    requires read.fp == slot.fp ==> Expiry(read) <= working.expires.value
    requires item == found || item == working
    requires live == read || SameTokens(live, working)
    requires item == working || Stash(working, slot.fp.value) in after || SameTokens(live, working)
    ensures LiveOk(q, after, Some(item), live)
  {
    assert forall s :: s in after && Waits(s, found) ==> s == Stash(working, slot.fp.value);
  }

  /** Whatever of the three writes landed, short of none, custody holds. */
  lemma SpendHolds(p: Provider, q: Provider, before: seq<Stash>, after: seq<Stash>, w: Intruder, slot: Cred, read: Cred, working: Cred, item: Cred, live: Cred)
    requires Ready(p, before, slot, read) && Unspent(p, slot.fp.value)
    requires (w.Nobody? || w.Edits?) && Pair(working) && Exchanges(p, q, w, slot.fp.value, working.fp.value)
    requires working.expires.Some? && Outlasts(slot, working.expires.value)
    requires read.fp == slot.fp ==> Expiry(read) <= working.expires.value
    requires AddsCopies(before, after, Stash(working, slot.fp.value))
    requires Some(item) == SlotAfter(p, Some(slot), w) || item == working
    requires live == read || SameTokens(live, working)
    requires item == working || Stash(working, slot.fp.value) in after || SameTokens(live, working)
    ensures Held(q, after, Some(item), Some(live))
  {
    var found := SlotAfter(p, Some(slot), w).value;
    ExchangeHolds(p, q, before, after, w, slot, working);
    assert forall s :: s in before ==> (Waits(s, found) <==> Waits(s, slot));
    SlotSideHolds(q, before, after, slot, found, working, item, Some(live));
    LiveSideHolds(p, q, before, after, slot, read, found, working, item, live);
  }

  /** An edit that leaves the slot's token and expiry alone changes nothing that counts. */
  lemma EditsHold(p: Provider, stashes: seq<Stash>, slot: Option<Cred>, live: Option<Cred>, w: Intruder)
    requires Held(p, stashes, slot, live) && (w.Nobody? || w.Edits?)
    ensures Held(p, stashes, SlotAfter(p, slot, w), live) && Seen(p, w) == p
  {
    if slot.Some? {
      var found := SlotAfter(p, slot, w).value;
      assert forall s :: Waits(s, found) <==> Waits(s, slot.value);
    }
  }

  /**
   The live credential having been written into the slot, and nothing being filed under it,
   custody holds exactly when its token was never exchanged.
   */
  lemma OwningIff(p: Provider, stashes: seq<Stash>, item: Option<Cred>, live: Cred)
    requires Held(p, stashes, item, Some(live)) && live.fp.Some? && NothingFiled(stashes, live.fp.value)
    ensures Held(p, stashes, Some(live), Some(live)) <==> !Spent(p, live)
  {
    if !Spent(p, live) { OwningHolds(p, stashes, item, live); }
  }

  // ----- other writers ---------------------------------------------------------------------------

  /**
   A write of the slot that custody may not survive: one that would upset it anyway; a new lineage
   while the live store holds a spent token, or one under which something is filed; or the slot's
   own lineage again while only the live store holds its successor.
   */
  predicate DisturbsSlot(p: Provider, stashes: seq<Stash>, item: Option<Cred>, live: Option<Cred>, w: Intruder) {
    || Upsets(p, stashes, item, w)
    || (!(w.Nobody? || w.Edits?) && live.Some? && live.value.fp.Some?
        && (Spent(p, live.value) || !(forall s :: s in stashes ==> s.consumed != live.value.fp.value)))
    || (w.Writes? && item.Some? && item.value.fp == w.c.fp && Spent(p, item.value))
  }

  /**
   A write of the live store that custody may not survive: any but an edit while the slot's token is
   spent, or one that brings a spent token or one under which something is filed.
   */
  predicate DisturbsLive(p: Provider, stashes: seq<Stash>, item: Option<Cred>, w: Intruder) {
    || (!(w.Nobody? || w.Edits?) && item.Some? && Spent(p, item.value))
    || (w.Writes? && w.c.fp.Some? && (w.c.fp.value in p.next || !(forall s :: s in stashes ==> s.consumed != w.c.fp.value)))
  }

  lemma OthersOfSlotHold(p: Provider, stashes: seq<Stash>, item: Option<Cred>, live: Option<Cred>, w: Intruder)
    requires Held(p, stashes, item, live) && !DisturbsSlot(p, stashes, item, live, w)
    ensures Held(Seen(p, w), stashes, SlotAfter(p, item, w), live)
  {
    if w.Nobody? || w.Edits? {
      EditsHold(p, stashes, item, live, w);
    } else if w.Writes? && w.c.fp.Some? && item.Some? && item.value.fp == w.c.fp {
      assert forall s :: s in stashes && Waits(s, w.c) ==> Waits(s, item.value);
    }
  }

  lemma OthersOfLiveHold(p: Provider, stashes: seq<Stash>, item: Option<Cred>, live: Option<Cred>, w: Intruder)
    requires Held(p, stashes, item, live) && !DisturbsLive(p, stashes, item, w)
    ensures Held(Seen(p, w), stashes, item, SlotAfter(p, live, w))
  {
    if w.Edits? && live.Some? {
      assert SlotAfter(p, live, w).value == live.value.(shared := w.shared, own := w.own);
    }
  }
}
