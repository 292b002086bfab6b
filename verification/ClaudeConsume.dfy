/**
 The gate that spends a Claude slot's refresh token: adopt what an earlier call stashed, post
 without holding the switch lock, then persist into the slot or stash. Any access may fail
 before or after taking effect, a lock may fail as it is taken or released, and another writer
 may change the slot while the request is on the wire.
 */
module ClaudeConsume {
  import opened Prelude
  import opened ClaudeSlots

  datatype Stash = Stash(cred: Cred, consumed: Fp)

  /** The tokens the provider has exchanged, for what, and a bound on every token in circulation. */
  datatype Provider = Provider(next: map<Fp, Fp>, top: Fp)

  datatype Reply = Rotates | Keeps | Dead | InvalidClient | Unavailable | LosesReply

  /** Another writer of the slot: a switch, a new login, an edit, a removal. */
  datatype Intruder = Nobody | Removes | Edits(shared: Option<nat>, own: nat) | LogsIn(expires: Option<int>, own: nat) | Writes(c: Cred)

  /** One exchange: the reply, the expiry it grants, and who wrote the slot meanwhile. */
  datatype Exchange = Exchange(reply: Reply, expires: int, intruder: Intruder)

  /** One turn of a run: another writer, or nobody, and then a call. */
  datatype Turn = Turn(before: Intruder, renewed: bool)

  datatype Status = Current | Refreshed | IsDead | Systemic | Transient | StashUnreadable | SlotRemoved | Stashed | Unpersisted | Busy

  datatype Adoption = Nothing | Adopted | Unreadable | Failed

  /** A stash that is not newer than the slot it would replace is taken for obsolete. */
  predicate Obsolete(s: Stash, current: Cred) {
    s.cred.expires.Some? && current.expires.Some? && s.cred.expires.value <= current.expires.value
  }

  /** The issued tokens over everything else the base holds. */
  function Renewed(base: Cred, token: Fp, expires: int): Cred {
    base.(fp := Some(token), expires := Some(expires), shape := Whole)
  }

  function Rotate(p: Provider, t: Fp): Provider { Provider(p.next[t := p.top + 1], p.top + 1) }

  // ----- custody ----------------------------------------------------------------------------

  /** A stash holds what its token was exchanged for, or a token set that kept that token. */
  predicate StashOk(p: Provider, s: Stash) {
    && s.cred.expires.Some? && s.consumed <= p.top
    && (s.cred.fp == Some(s.consumed) || (s.consumed in p.next && s.cred.fp == Some(p.next[s.consumed])))
  }

  ghost predicate ProviderOk(p: Provider) {
    forall t :: t in p.next ==> t <= p.top && p.next[t] <= p.top
  }

  /** In circulation and never exchanged. */
  predicate Unspent(p: Provider, t: Fp) { t <= p.top && t !in p.next }

  predicate Waits(s: Stash, c: Cred) { Some(s.consumed) == c.fp && !Obsolete(s, c) }

  /** Whatever still waits for this credential grants the same expiry. */
  predicate Uniform(stashes: seq<Stash>, c: Cred) {
    forall s, t :: s in stashes && t in stashes && Waits(s, c) && Waits(t, c) ==> s.cred.expires == t.cred.expires
  }

  /**
   The slot's token was never exchanged; or what it was exchanged for was not, waits in a stash,
   and nothing else waits.
   */
  ghost predicate SlotOk(p: Provider, stashes: seq<Stash>, c: Cred) {
    c.fp.Some? ==>
      if Unspent(p, c.fp.value) then Uniform(stashes, c)
      else
        && c.fp.value in p.next && Unspent(p, p.next[c.fp.value])
        && (exists s :: s in stashes && Waits(s, c))
        && (forall s :: s in stashes && Waits(s, c) ==> s.cred.fp == Some(p.next[c.fp.value]))
        && (forall s :: s in stashes ==> s.consumed != p.next[c.fp.value])
  }

  ghost predicate Custody(p: Provider, item: Option<Cred>, stashes: seq<Stash>) {
    && ProviderOk(p)
    && (forall s :: s in stashes ==> StashOk(p, s))
    && (item.Some? ==> SlotOk(p, stashes, item.value))
  }

  /** Nothing waits any more: the slot's own token is the one to send. */
  ghost predicate NothingWaits(stashes: seq<Stash>, c: Cred) {
    forall s :: s in stashes ==> !Waits(s, c)
  }

  /** The stash that is taken over first. */
  function FirstWaiting(stashes: seq<Stash>, c: Cred): Option<Stash> {
    if stashes == [] then None
    else if Waits(stashes[0], c) then Some(stashes[0])
    else FirstWaiting(stashes[1..], c)
  }

  lemma {:induction false} FirstWaitingMeans(stashes: seq<Stash>, c: Cred)
    ensures FirstWaiting(stashes, c).None? <==> NothingWaits(stashes, c)
    ensures FirstWaiting(stashes, c).Some? ==> FirstWaiting(stashes, c).value in stashes && Waits(FirstWaiting(stashes, c).value, c)
  {
    if stashes != [] {
      FirstWaitingMeans(stashes[1..], c);
      assert stashes == [stashes[0]] + stashes[1..];
    }
  }

  lemma {:induction false} FirstWaitingAt(stashes: seq<Stash>, k: nat, c: Cred)
    requires k < |stashes| && NothingWaits(stashes[..k], c) && Waits(stashes[k], c)
    ensures FirstWaiting(stashes, c) == Some(stashes[k])
  {
    if k > 0 {
      assert stashes[0] in stashes[..k];
      assert stashes[1..][..k - 1] == stashes[..k][1..];
      FirstWaitingAt(stashes[1..], k - 1, c);
    }
  }

  /** What the slot holds once an undisturbed call has adopted. */
  function ToSend(stashes: seq<Stash>, c: Cred): Cred {
    match FirstWaiting(stashes, c)
    case None => c
    case Some(s) => s.cred
  }

  /** There is a refresh token to send. */
  predicate Sendable(c: Cred) { c.fp.Some? && (c.shape == Whole || c.shape == NoAccess) }

  /** A copy of the token set that an exchange of `consumed` issued. */
  predicate Grants(s: Stash, consumed: Fp, issued: Fp, expires: int) {
    s.consumed == consumed && s.cred.fp == Some(issued) && s.cred.expires == Some(expires)
  }

  ghost predicate OnlyAdds(before: seq<Stash>, after: seq<Stash>, consumed: Fp, issued: Fp, expires: int) {
    && (forall t :: t in before ==> t in after)
    && (forall t :: t in after ==> t in before || Grants(t, consumed, issued, expires))
  }

  /** A grant outlives the credential it renews. */
  predicate Outlives(c: Cred, expires: int) { c.expires.Some? ==> c.expires.value < expires }

  predicate NotEarlier(a: Cred, b: Cred) {
    a.expires.Some? ==> b.expires.Some? && a.expires.value <= b.expires.value
  }

  /**
   A write custody cannot survive: an exchanged token comes back into a slot that did not hold
   it, or the slot's own lineage gets an expiry that changes what waits for it.
   */
  predicate Upsets(p: Provider, stashes: seq<Stash>, slot: Option<Cred>, w: Intruder) {
    && w.Writes? && w.c.fp.Some?
    && if slot.Some? && slot.value.fp == w.c.fp
       then !(NotEarlier(slot.value, w.c) && (w.c.fp.value in p.next ==> forall s :: s in stashes && Waits(s, slot.value) ==> Waits(s, w.c)))
       else w.c.fp.value in p.next || !Uniform(stashes, w.c)
  }

  /** No writer, a removal, an edit that keeps token and expiry, a login with a new token. */
  predicate Benign(w: Intruder) { !w.Writes? }

  function SlotAfter(p: Provider, slot: Option<Cred>, w: Intruder): Option<Cred> {
    match w
    case Nobody => slot
    case Removes => None
    case Edits(shared, own) => if slot.None? then None else Some(slot.value.(shared := shared, own := own))
    case LogsIn(expires, own) => Some(Cred(Some(p.top + 1), expires, Whole, Some(own), own))
    case Writes(c) => Some(c)
  }

  /** Whatever token the writer brings is in circulation from then on. */
  function Seen(p: Provider, w: Intruder): Provider {
    if w.LogsIn? then p.(top := p.top + 1)
    else if w.Writes? && w.c.fp.Some? && w.c.fp.value > p.top then p.(top := w.c.fp.value) else p
  }

  lemma OthersAreSafe(p: Provider, slot: Option<Cred>, stashes: seq<Stash>, w: Intruder)
    requires Custody(p, slot, stashes) && !Upsets(p, stashes, slot, w)
    ensures Custody(Seen(p, w), SlotAfter(p, slot, w), stashes)
  {
    if w.Writes? && w.c.fp.Some? && slot.Some? && slot.value.fp == w.c.fp {
      assert forall s :: s in stashes && Waits(s, w.c) ==> Waits(s, slot.value);
    }
  }

  /** A stash that waits can still be exchanged; once it is the slot, nothing waits. */
  lemma AdoptionIsSafe(p: Provider, stashes: seq<Stash>, c: Cred, s: Stash)
    requires Custody(p, Some(c), stashes) && s in stashes && Waits(s, c)
    ensures Custody(p, Some(s.cred), stashes) && NothingWaits(stashes, s.cred)
    ensures s.cred.fp.Some? && Unspent(p, s.cred.fp.value)
  {
    forall t | t in stashes && Waits(t, s.cred) ensures false {
      if Unspent(p, c.fp.value) { assert Waits(t, c); }
    }
  }

  /** Dropping what does not wait loses nothing. */
  lemma DroppingIsSafe(p: Provider, before: seq<Stash>, after: seq<Stash>, item: Option<Cred>)
    requires Custody(p, item, before) && forall s :: s in after ==> s in before
    requires item.Some? ==> forall s :: s in before && s !in after ==> !Waits(s, item.value)
    ensures Custody(p, item, after)
  {
    if item.Some? && item.value.fp.Some? && !Unspent(p, item.value.fp.value) {
      var s :| s in before && Waits(s, item.value);
      assert s in after;
    }
  }

  /** When nothing waits, the slot's token has never been exchanged. */
  lemma NothingWaitsMeansUnspent(p: Provider, stashes: seq<Stash>, c: Cred)
    requires Custody(p, Some(c), stashes) && NothingWaits(stashes, c) && c.fp.Some?
    ensures Unspent(p, c.fp.value)
  {
  }

  /** The slot's token has been exchanged, or kept, and the provider has seen what others wrote. */
  ghost predicate Exchanges(p: Provider, q: Provider, w: Intruder, consumed: Fp, issued: Fp) {
    || (q == Seen(p, w) && issued == consumed)
    || (q == Rotate(Seen(p, w), consumed) && issued == q.top)
  }

  lemma ExchangeKeepsStashes(p: Provider, q: Provider, before: seq<Stash>, after: seq<Stash>, w: Intruder, consumed: Fp, issued: Fp, expires: int)
    requires ProviderOk(p) && (forall s :: s in before ==> StashOk(p, s)) && Unspent(p, consumed)
    requires Exchanges(p, q, w, consumed, issued) && OnlyAdds(before, after, consumed, issued, expires)
    ensures ProviderOk(q) && (forall s :: s in after ==> StashOk(q, s)) && Unspent(q, issued)
    ensures forall t :: Unspent(Seen(p, w), t) && t != consumed ==> Unspent(q, t)
    ensures consumed in q.next ==> q.next[consumed] == issued && forall s :: s in after ==> s.consumed != issued
  {
  }

  /** Where an exchange may leave the slot's own lineage once its successor is durable. */
  lemma LineageIsSafe(q: Provider, before: seq<Stash>, after: seq<Stash>, found: Cred, item: Cred, consumed: Fp, issued: Fp, expires: int)
    requires ProviderOk(q) && (forall s :: s in after ==> StashOk(q, s)) && Unspent(q, issued)
    requires if consumed in q.next then q.next[consumed] == issued && forall s :: s in after ==> s.consumed != issued
             else issued == consumed
    requires OnlyAdds(before, after, consumed, issued, expires)
    requires found.fp == Some(consumed) && NothingWaits(before, found) && Outlives(found, expires)
    requires || item == Renewed(found, issued, expires)
             || (item == found && exists s :: s in after && Grants(s, consumed, issued, expires))
    ensures Custody(q, Some(item), after)
  {
    assert forall s :: Grants(s, consumed, issued, expires) ==> Waits(s, found);
    assert forall s :: s in after && Waits(s, found) ==> Grants(s, consumed, issued, expires);
    if item != found {
      assert forall s :: s in after && Waits(s, item) ==> s.consumed == issued;
      assert forall s :: s in after && s.consumed == issued && consumed !in q.next ==> !Waits(s, item);
    }
  }

  /** Where an exchange may leave things once its successor is durable, other writers included. */
  lemma SettledIsSafe(p: Provider, q: Provider, before: seq<Stash>, after: seq<Stash>, w: Intruder, item: Option<Cred>, base: Cred, issued: Fp, expires: int)
    requires Custody(p, Some(base), before) && NothingWaits(before, base) && base.fp.Some?
    requires Exchanges(p, q, w, base.fp.value, issued) && !Upsets(p, before, Some(base), w)
    requires OnlyAdds(before, after, base.fp.value, issued, expires)
    requires !Shortens(base, w, expires) && Settles(after, SlotAfter(p, Some(base), w), item, base.fp.value, issued, expires)
    ensures Custody(q, item, after)
  {
    var consumed := base.fp.value;
    NothingWaitsMeansUnspent(p, before, base);
    ExchangeKeepsStashes(p, q, before, after, w, consumed, issued, expires);
    var found := SlotAfter(p, Some(base), w);
    if found.Some? && found.value.fp == base.fp {
      assert forall s :: s in before && Waits(s, found.value) ==> Waits(s, base);
      LineageIsSafe(q, before, after, found.value, item.value, consumed, issued, expires);
    } else if found.Some? && found.value.fp.Some? {
      assert Unspent(Seen(p, w), found.value.fp.value);
    }
  }

  /** The grant expires no later than the credential it was given for, or than what is there by now. */
  predicate Shortens(base: Cred, w: Intruder, expires: int) {
    !Outlives(base, expires) || (w.Writes? && w.c.fp == base.fp && !Outlives(w.c, expires))
  }

  predicate Renews(found: Option<Cred>, item: Option<Cred>, consumed: Fp, issued: Fp, expires: int) {
    found.Some? && found.value.fp == Some(consumed) && item == Some(Renewed(found.value, issued, expires))
  }

  /** The slot is as it was found, with the successor stashed; or the found lineage was renewed. */
  ghost predicate Settles(stashes: seq<Stash>, found: Option<Cred>, item: Option<Cred>, consumed: Fp, issued: Fp, expires: int) {
    || Renews(found, item, consumed, issued, expires)
    || (item == found && exists s :: s in stashes && Grants(s, consumed, issued, expires))
  }

  class Gate {
    const store: SlotStore
    const id: string
    const exchanges: nat -> Exchange
    /** The durable copies that belong to this account. */
    var stashes: seq<Stash>
    var provider: Provider
    var posts: nat
    var replayed: bool
    var lostReply: bool
    /** Another writer left something custody cannot survive. */
    var upset: bool
    /** A grant expired no later than the credential it was given for. */
    var shortened: bool

    constructor (store: SlotStore, id: string, exchanges: nat -> Exchange, issued: Fp)
      requires store.saved.None? && (id in store.cur ==> store.cur[id].fp == Some(issued))
      ensures this.store == store && this.id == id && this.exchanges == exchanges
      ensures store.saved.None? && Safe() && !replayed && !lostReply && !upset && !shortened
      ensures stashes == [] && provider == Provider(map[], issued) && posts == 0
    {
      this.store, this.id, this.exchanges := store, id, exchanges;
      stashes, provider, posts := [], Provider(map[], issued), 0;
      replayed, lostReply, upset, shortened := false, false, false, false;
    }

    ghost predicate Safe()
      reads this, store
    {
      Custody(provider, Item(store.cur, id), stashes)
    }

    // ----- stashes --------------------------------------------------------------------------

    /** Index, then Keychain, then a private file. */
    method KeepSuccessor(c: Cred, consumed: Fp) returns (ok: bool)
      modifies this`stashes, store`tick
      ensures stashes == old(stashes) || stashes == old(stashes) + [Stash(c, consumed)]
      ensures ok ==> Stash(c, consumed) in stashes
      ensures store.tick == old(store.tick) + 1 && (ok <==> store.faults(old(store.tick)) == Proceed)
    {
      var f := store.Access();
      if Lands(f) { stashes := stashes + [Stash(c, consumed)]; }
      ok := f == Proceed;
    }

    method Discard(s: Stash) returns (ok: bool)
      modifies this`stashes, store`tick
      ensures forall t :: t in stashes ==> t in old(stashes)
      ensures forall t :: t in old(stashes) && t != s ==> t in stashes
      ensures ok ==> s !in stashes
      ensures store.tick >= old(store.tick) && (store.QuietFrom(old(store.tick)) ==> ok)
    {
      var f := store.Access();
      ok := f == Proceed;
      if Lands(f) {
        var kept: seq<Stash> := [];
        for k := 0 to |stashes|
          invariant forall t :: t in kept ==> t in stashes && t != s
          invariant forall t :: t in stashes[..k] && t != s ==> t in kept
        {
          if stashes[k] != s { kept := kept + [stashes[k]]; }
        }
        stashes := kept;
      }
    }

    // ----- adoption -----------------------------------------------------------------------------

    /** What discarding obsolete stashes may remove. */
    ghost predicate OnlyObsoleteGone(before: seq<Stash>, current: Cred)
      reads this`stashes
    {
      && (forall t :: t in stashes ==> t in before)
      && (forall t :: t in before && t !in stashes ==> Some(t.consumed) == current.fp && Obsolete(t, current))
    }

    /** The first successor of the slot's own token that is newer than it; older ones are discarded. */
    method FindNewer(current: Cred) returns (r: Adoption, found: Stash)
      requires current.fp.Some?
      modifies this`stashes, store`tick
      ensures OnlyObsoleteGone(old(stashes), current)
      ensures r == Nothing || r == Adopted || r == Unreadable || r == Failed
      ensures r == Adopted ==> found in stashes && Some(found.consumed) == current.fp && !Obsolete(found, current)
      ensures r == Adopted ==> FirstWaiting(old(stashes), current) == Some(found)
      ensures r == Nothing ==> NothingWaits(old(stashes), current) && forall s :: s in stashes ==> Some(s.consumed) != current.fp
      ensures old(stashes) == [] && store.faults(old(store.tick)) == Proceed ==> r == Nothing && stashes == [] && store.tick == old(store.tick) + 1
      ensures store.tick >= old(store.tick) && (store.QuietFrom(old(store.tick)) ==> r == Nothing || r == Adopted)
    {
      found := Stash(current, 0);
      var f := store.Access();
      if f != Proceed { return Unreadable, found; }
      var entries := stashes;
      for k := 0 to |entries|
        invariant OnlyObsoleteGone(entries, current) && NothingWaits(entries[..k], current)
        invariant forall s :: s in entries[..k] && Some(s.consumed) == current.fp ==> s !in stashes
        invariant forall s :: s in entries[k..] && !(Some(s.consumed) == current.fp && Obsolete(s, current)) ==> s in stashes
        invariant store.tick >= old(store.tick) && (|entries| == 0 ==> store.tick == old(store.tick) + 1)
      {
        var s := entries[k];
        f := store.Access();
        if f != Proceed { return Unreadable, found; }
        if Some(s.consumed) == current.fp {
          if !Obsolete(s, current) {
            FirstWaitingAt(entries, k, current);
            return Adopted, s;
          }
          var ok := Discard(s);
          if !ok { return Failed, found; }
        }
      }
      assert entries[..|entries|] == entries;
      assert stashes != [] ==> stashes[0] in stashes;
      r := Nothing;
    }

    /**
     A stashed successor becomes the slot. Undisturbed, the slot ends holding the first stash of
     its token that is not taken for obsolete; if every one is, they are all gone and the slot is
     unchanged.
     */
    method AdoptStashed() returns (r: Adoption)
      requires store.saved.None?
      modifies this`stashes, store`tick, store`cur, store`prev, store`meta, store`saved
      ensures store.saved.None? && store.tick >= old(store.tick)
      ensures r == Nothing ==>
                && store.cur == old(store.cur)
                && (id in store.cur && id in store.meta.rows ==> NothingWaits(stashes, store.cur[id]))
      ensures old(Safe()) ==> Safe()
      ensures old(Safe()) && id in old(store.meta).rows && id in store.cur && (r == Nothing || r == Adopted) ==> NothingWaits(stashes, store.cur[id])
      ensures old(store.meta).rows.Keys == store.meta.rows.Keys
      ensures forall s :: s in stashes ==> s in old(stashes)
      ensures store.cur == old(store.cur)
           || (id in old(store.cur) && FirstWaiting(old(stashes), old(store.cur)[id]).Some?
               && store.cur == old(store.cur)[id := FirstWaiting(old(stashes), old(store.cur)[id]).value.cred])
      ensures r != Adopted && id in old(store.cur) ==> forall s :: s in old(stashes) && Waits(s, old(store.cur)[id]) ==> s in stashes
      ensures old(stashes) == [] && id in old(store.meta).rows && id in old(store.cur) && old(store.cur)[id].fp.Some?
              && store.Proceeds(old(store.tick), old(store.tick) + 4) ==>
                r == Nothing && stashes == [] && store.meta == old(store.meta) && store.tick == old(store.tick) + 4
      ensures r == Nothing ==> store.meta == old(store.meta) && (id in store.cur && id in store.meta.rows ==> NothingWaits(old(stashes), store.cur[id]))
      ensures r == Adopted ==>
                && id in old(store.cur) && FirstWaiting(old(stashes), old(store.cur)[id]).Some?
                && store.cur == old(store.cur)[id := FirstWaiting(old(stashes), old(store.cur)[id]).value.cred]
                && id in store.meta.rows && store.meta.rows[id].fp == store.cur[id].fp
      ensures store.QuietFrom(old(store.tick)) && id in old(store.meta).rows && id in old(store.cur) && old(store.cur)[id].fp.Some?
              && ToSend(old(stashes), old(store.cur)[id]).fp.Some? ==>
                var c := old(store.cur)[id];
                if NothingWaits(old(stashes), c)
                then r == Nothing && store.cur == old(store.cur) && forall s :: s in stashes ==> Some(s.consumed) != c.fp
                else r == Adopted && store.cur == old(store.cur)[id := ToSend(old(stashes), c)]
    {
      hide Custody;
      ghost var cur0, prev0 := store.cur, store.prev;
      if Item(cur0, id).Some? { FirstWaitingMeans(stashes, cur0[id]); }
      var ok := store.Begin();
      if !ok { return Failed; }
      var done, hook, found;
      r, done, hook, found := AdoptBody();
      var healed;
      ghost var landed;
      ok, healed, landed := store.Conclude(done, hook, cur0, prev0);
      if !ok { return if r == Unreadable then Unreadable else Failed; }
      if r == Adopted {
        ghost var kept := stashes;
        var _ := Discard(found);
        if old(Safe()) { DroppingIsSafe(provider, kept, stashes, Item(store.cur, id)); }
      }
    }

    /** Inside the transaction: read the slot, look for what waits, write it. */
    method AdoptBody() returns (r: Adoption, done: bool, hook: Option<Hook>, found: Stash)
      requires store.saved.Some?
      modifies this`stashes, store`tick, store`cur, store`prev, store`meta
      ensures store.Between(hook, old(store.cur), old(store.prev)) && store.tick >= old(store.tick)
      ensures hook.Some? ==> r == Adopted && hook.value.id == id && hook.value.expectedCurrent == Some(found.cred)
      ensures done ==> r == Nothing || r == Adopted
      ensures r == Nothing ==> store.cur == old(store.cur)
      ensures r == Nothing && id in store.cur && id in store.meta.rows ==> forall s :: s in stashes ==> Some(s.consumed) != store.cur[id].fp
      ensures r == Adopted ==> found in stashes && id in old(store.cur) && FirstWaiting(old(stashes), old(store.cur)[id]) == Some(found)
      ensures r == Nothing && id in store.meta.rows && id in store.cur ==> NothingWaits(old(stashes), store.cur[id])
      ensures r == Nothing ==> store.meta == old(store.meta)
      ensures r == Adopted && done ==> id in store.meta.rows && store.meta.rows[id].fp == found.cred.fp
      ensures r == Adopted && done ==> store.cur == old(store.cur)[id := found.cred]
      ensures r == Adopted && Custody(provider, Item(old(store.cur), id), old(stashes)) ==>
                Custody(provider, Some(found.cred), stashes) && NothingWaits(stashes, found.cred)
      ensures Custody(provider, Item(old(store.cur), id), old(stashes)) ==> Custody(provider, Item(old(store.cur), id), stashes)
      ensures old(store.meta).rows.Keys == store.meta.rows.Keys
      ensures forall s :: s in stashes ==> s in old(stashes)
      ensures old(stashes) == [] && id in old(store.meta).rows && id in old(store.cur) && old(store.cur)[id].fp.Some?
              && store.Proceeds(old(store.tick), old(store.tick) + 2) ==>
                done && r == Nothing && hook.None? && stashes == [] && store.meta == old(store.meta) && store.tick == old(store.tick) + 2
      ensures id in old(store.cur) ==> OnlyObsoleteGone(old(stashes), old(store.cur)[id])
      ensures store.QuietFrom(old(store.tick)) && id in old(store.meta).rows && id in old(store.cur) && old(store.cur)[id].fp.Some?
              && ToSend(old(stashes), old(store.cur)[id]).fp.Some? ==>
                done
    {
      hide Custody;
      done, hook, found := true, None, Stash(Cred(None, None, Torn, None, 0), 0);
      r := Nothing;
      if id !in store.meta.rows { return; }
      var current;
      done, current := store.ReadCurrent(id);
      if !done { r := Failed; return; }
      if current.None? { return; }
      if current.value.fp.None? { return Failed, false, hook, found; }
      r, found := FindNewer(current.value);
      done := r == Nothing || r == Adopted;
      if Custody(provider, current, old(stashes)) {
        DroppingIsSafe(provider, old(stashes), stashes, current);
        FirstWaitingMeans(old(stashes), current.value);
        if r == Adopted { AdoptionIsSafe(provider, stashes, current.value, found); }
      }
      if r == Adopted { done, hook := store.WriteBody(id, found.cred); }
    }

    // ----- the request ----------------------------------------------------------------------------

    /** The slot is written by somebody else. */
    method Interfere(w: Intruder)
      modifies this`provider, this`upset, store`cur
      ensures Item(store.cur, id) == SlotAfter(old(provider), old(Item(store.cur, id)), w) && provider == Seen(old(provider), w)
      ensures w.Nobody? ==> store.cur == old(store.cur)
      ensures upset == (old(upset) || Upsets(old(provider), stashes, old(Item(store.cur, id)), w))
      ensures old(Safe()) && !upset ==> Safe()
    {
      var slot := Item(store.cur, id);
      if Safe() && !Upsets(provider, stashes, slot, w) { OthersAreSafe(provider, slot, stashes, w); }
      upset := upset || Upsets(provider, stashes, slot, w);
      if !w.Nobody? { store.cur := Put(store.cur, id, SlotAfter(provider, slot, w)); }
      provider := Seen(provider, w);
    }

    /** None when the provider issued nothing; else the token that now continues this lineage. */
    method Post(token: Fp) returns (status: Status, issued: Option<Fp>)
      modifies this`provider, this`posts, this`replayed, this`lostReply, this`upset, store`cur
      ensures posts == old(posts) + 1
      ensures var w := exchanges(old(posts)).intruder;
              && Item(store.cur, id) == SlotAfter(old(provider), old(Item(store.cur, id)), w) && (w.Nobody? ==> store.cur == old(store.cur))
              && upset == (old(upset) || Upsets(old(provider), stashes, old(Item(store.cur, id)), w))
      ensures replayed == (old(replayed) || token in old(provider).next)
      ensures issued.None? ==> status == IsDead || status == Systemic || status == Transient
      ensures issued.Some? ==> Exchanges(old(provider), provider, exchanges(old(posts)).intruder, token, issued.value)
      ensures var seen := Seen(old(provider), exchanges(old(posts)).intruder);
              if token in old(provider).next then provider == seen && issued.None? && lostReply == old(lostReply)
              else
                match exchanges(old(posts)).reply
                case Rotates => provider == Rotate(seen, token) && issued == Some(provider.top) && lostReply == old(lostReply)
                case Keeps => provider == seen && issued == Some(token) && lostReply == old(lostReply)
                case LosesReply => provider == Rotate(seen, token) && issued.None? && lostReply
                case _ => provider == seen && issued.None? && lostReply == old(lostReply)
    {
      var e := exchanges(posts);
      posts := posts + 1;
      issued := None;
      Interfere(e.intruder);
      if token in provider.next {
        replayed, status := true, IsDead;
      } else {
        match e.reply {
          case Rotates =>
            provider := Rotate(provider, token);
            status, issued := Refreshed, Some(provider.top);
          case Keeps => status, issued := Refreshed, Some(token);
          case Dead => status := IsDead;
          case InvalidClient => status := Systemic;
          case Unavailable => status := Transient;
          case LosesReply =>
            provider := Rotate(provider, token);
            lostReply, status := true, Transient;
        }
      }
    }

    // ----- settling a successor ----------------------------------------------------------------------

    /** Where an issued token set ends: in the slot, in a stash found by what it replaced, or reported lost. */
    ghost predicate Accounted(status: Status, consumed: Fp, issued: Fp)
      reads this`stashes, store`cur
    {
      || status == Unpersisted
      || (status == Refreshed && id in store.cur && store.cur[id].fp == Some(issued))
      || ((status == Current || status == Transient) && exists s :: s in stashes && s.consumed == consumed && s.cred.fp == Some(issued))
    }

    method StashOr(status: Status, c: Cred, consumed: Fp) returns (r: Status)
      modifies this`stashes, store`tick
      ensures stashes == old(stashes) || stashes == old(stashes) + [Stash(c, consumed)]
      ensures r == status || r == Unpersisted
      ensures r == status ==> Stash(c, consumed) in stashes || status == Unpersisted
      ensures store.tick == old(store.tick) + 1 && (store.faults(old(store.tick)) == Proceed ==> r == status)
    {
      var ok := KeepSuccessor(c, consumed);
      r := if ok then status else Unpersisted;
    }

    /** What settling an exchange may leave, given what the slot held when the reply came. */
    ghost predicate Settled(status: Status, consumed: Fp, issued: Fp, expires: int, cur0: map<string, Cred>, held: seq<Stash>)
      reads this`stashes, store`cur
    {
      && OnlyAdds(held, stashes, consumed, issued, expires)
      && (Item(store.cur, id) == Item(cur0, id) || Renews(Item(cur0, id), Item(store.cur, id), consumed, issued, expires))
      && (status != Unpersisted ==> Settles(stashes, Item(cur0, id), Item(store.cur, id), consumed, issued, expires))
    }

    /** Under the switch lock: compare all bytes, then write, merge, or stash. */
    method Persist(base: Cred, consumed: Fp, token: Fp, expires: int) returns (status: Status)
      requires store.saved.None? && base.fp == Some(consumed)
      modifies this`stashes, store`tick, store`cur, store`prev, store`meta, store`saved
      ensures store.saved.None? && Accounted(status, consumed, token) && old(store.meta).rows.Keys == store.meta.rows.Keys
      ensures Settled(status, consumed, token, expires, old(store.cur), old(stashes))
      ensures store.tick >= old(store.tick)
      ensures store.QuietFrom(old(store.tick)) && Item(old(store.cur), id) == Some(base) && id in old(store.meta).rows ==> status == Refreshed
    {
      hide WriteEffect, SavesExisting;
      var ok, current := store.ReadCurrent(id);
      if !ok || current.None? || current.value.fp.None? {
        status := StashOr(Transient, Renewed(base, token, expires), consumed);
      } else if current.value != base && current.value.fp != Some(consumed) {
        status := StashOr(Current, Renewed(base, token, expires), consumed);
      } else {
        var successor := Renewed(current.value, token, expires);
        var healed;
        ghost var landed;
        ok, healed, landed := store.WriteSlot(id, successor);
        if ok { status := Refreshed; } else { status := StashOr(Transient, successor, consumed); }
      }
    }

    /** A lock that cannot be taken, or fails as it is released, means a stash as well. */
    method Settle(base: Cred, consumed: Fp, token: Fp, expires: int) returns (status: Status)
      requires store.saved.None? && base.fp == Some(consumed)
      modifies this`stashes, store`tick, store`cur, store`prev, store`meta, store`saved
      ensures store.saved.None? && Accounted(status, consumed, token) && old(store.meta).rows.Keys == store.meta.rows.Keys
      ensures Settled(status, consumed, token, expires, old(store.cur), old(stashes))
      ensures store.QuietFrom(old(store.tick)) && Item(old(store.cur), id) == Some(base) && id in old(store.meta).rows ==> status == Refreshed
      ensures store.faults(old(store.tick)) == FailBefore && store.faults(old(store.tick) + 1) == Proceed ==>
                status == Transient && store.cur == old(store.cur) && store.tick == old(store.tick) + 2
    {
      var f := store.Access();
      if f != Proceed {
        status := StashOr(Transient, Renewed(base, token, expires), consumed);
        return;
      }
      status := Persist(base, consumed, token, expires);
      f := store.Access();
      if f != Proceed { status := StashOr(Transient, Renewed(base, token, expires), consumed); }
    }

    // ----- one call ----------------------------------------------------------------------------------

    /** An exchange was stashed beside a slot that still holds the token it spent. */
    ghost predicate LeftStashed(base: Cred, issued: Fp, expires: int)
      reads this, store
    {
      && Item(store.cur, id) == Some(base) && Sendable(base) && base.fp.value in provider.next && issued !in provider.next
      && (exists s :: s in stashes && Grants(s, base.fp.value, issued, expires))
      && (forall s :: s in stashes && Waits(s, base) ==> Grants(s, base.fp.value, issued, expires))
      && (forall s :: s in stashes ==> s.cred.fp.Some?)
    }

    /** The slot has a row and a lineage. */
    ghost predicate Managed()
      reads this, store
    {
      id in store.meta.rows && id in store.cur && store.cur[id].fp.Some?
    }

    /**
     One call: at most one request, whose issued token set is accounted for whatever fails and
     whoever interferes. From custody no exchanged token is sent, and custody holds afterwards
     unless a successor was reported lost, an answer never arrived, a grant did not outlive what
     it renewed, or another writer left what custody cannot survive. Undisturbed, custody or not,
     an exchanged token is sent exactly when the first stash that waits has one, or the slot when
     none waits.
     */
    method Consume(renewed: bool) returns (status: Status, ghost base: Option<Cred>, ghost issued: Option<Fp>)
      requires store.saved.None?
      modifies this, store
      ensures store.saved.None? && old(posts) <= posts <= old(posts) + 1 && old(store.meta).rows.Keys == store.meta.rows.Keys
      ensures (base.Some? <==> posts > old(posts)) && (base.Some? ==> Sendable(base.value))
      ensures issued.Some? ==> base.Some? && Accounted(status, base.value.fp.value, issued.value)
      ensures issued.None? ==> status != Refreshed && status != Unpersisted
      ensures lostReply ==> old(lostReply) || (base.Some? && exchanges(old(posts)).reply == LosesReply)
      ensures upset ==> old(upset) || (base.Some? && exchanges(old(posts)).intruder.Writes?)
      ensures shortened ==> old(shortened) || (issued.Some? && Shortens(base.value, exchanges(old(posts)).intruder, exchanges(old(posts)).expires))
      ensures old(Safe()) && id in old(store.meta).rows ==> replayed == old(replayed)
      ensures old(Safe()) && id in old(store.meta).rows && status != Unpersisted && !lostReply && !upset && !shortened ==> Safe()
      ensures old(Safe()) && id in old(store.meta).rows && issued.Some? && issued != base.value.fp && status != Unpersisted
              && exchanges(old(posts)).intruder.Nobody? && Item(store.cur, id) == base ==>
                LeftStashed(base.value, issued.value, exchanges(old(posts)).expires)
      ensures store.QuietFrom(old(store.tick)) && !renewed && old(Managed()) && ToSend(old(stashes), old(store.cur)[id]).fp.Some? ==>
                var c := ToSend(old(stashes), old(store.cur)[id]);
                replayed <==> old(replayed) || (Sendable(c) && c.fp.value in old(provider).next)
      ensures old(stashes) == [] && !renewed && old(Managed()) && Sendable(old(store.cur)[id]) && store.Proceeds(old(store.tick), old(store.tick) + 6)
              && exchanges(old(posts)).intruder.Nobody? ==>
                && base == Some(old(store.cur)[id])
                && (exchanges(old(posts)).reply == Rotates && old(store.cur)[id].fp.value !in old(provider).next
                    && store.faults(old(store.tick) + 6) == FailBefore && store.faults(old(store.tick) + 7) == Proceed ==>
                      && status == Transient && issued == Some(provider.top) && provider == Rotate(old(provider), base.value.fp.value)
                      && store.cur == old(store.cur) && store.tick == old(store.tick) + 8)
                && (exchanges(old(posts)).reply == LosesReply && old(store.cur)[id].fp.value !in old(provider).next ==>
                      stashes == [] && store.cur == old(store.cur) && base.value.fp.value in provider.next && store.tick == old(store.tick) + 6)
    {
      hide Custody, NothingWaits, Accounted, LeftStashed;
      base, issued := None, None;
      var stop, found := Open();
      if stop.Some? { return stop.value, base, issued; }
      if renewed { return Current, base, issued; }
      if !Sendable(found) { return if found.shape == NoRefresh then IsDead else Transient, base, issued; }
      base := Some(found);
      status, issued := Exchanged(found, found.fp.value);
    }

    /** Under the switch lock: take over what an earlier call stashed, and read the slot. */
    method Open() returns (stop: Option<Status>, base: Cred)
      requires store.saved.None?
      modifies this`stashes, store`tick, store`cur, store`prev, store`meta, store`saved
      ensures store.saved.None? && old(store.meta).rows.Keys == store.meta.rows.Keys
      ensures if stop.None? then Item(store.cur, id) == Some(base) && base.fp.Some? else stop.value != Refreshed && stop.value != Unpersisted
      ensures old(Safe()) && id in old(store.meta).rows ==> Safe() && (stop.None? ==> NothingWaits(stashes, base))
      ensures store.QuietFrom(old(store.tick)) && old(Managed()) && ToSend(old(stashes), old(store.cur)[id]).fp.Some? ==>
                stop.None? && base == ToSend(old(stashes), old(store.cur)[id])
      ensures old(stashes) == [] && old(Managed()) && store.Proceeds(old(store.tick), old(store.tick) + 6) ==>
                stop.None? && base == old(store.cur)[id] && stashes == [] && store.cur == old(store.cur) && store.tick == old(store.tick) + 6
    {
      hide Custody;
      if id in store.cur { FirstWaitingMeans(stashes, store.cur[id]); }
      base := Cred(None, None, Torn, None, 0);
      var f := store.Access();
      if f != Proceed { return Some(Busy), base; }
      var adoption := AdoptStashed();
      if adoption == Unreadable { return Some(StashUnreadable), base; }
      if adoption == Failed { return Some(Transient), base; }
      var ok, read := store.ReadCurrent(id);
      if !ok { return Some(Transient), base; }
      if read.None? { return Some(SlotRemoved), base; }
      if read.value.fp.None? { return Some(Transient), base; }
      return None, read.value;
    }

    method Exchanged(base: Cred, token: Fp) returns (status: Status, ghost issued: Option<Fp>)
      requires Sendable(base) && store.saved.None? && Item(store.cur, id) == Some(base) && base.fp == Some(token)
      modifies this, store
      ensures store.saved.None? && posts == old(posts) + 1 && old(store.meta).rows.Keys == store.meta.rows.Keys
      ensures issued.Some? ==> Accounted(status, token, issued.value)
      ensures issued.None? ==> status != Refreshed && status != Unpersisted
      ensures replayed == (old(replayed) || token in old(provider).next)
      ensures lostReply ==> old(lostReply) || exchanges(old(posts)).reply == LosesReply
      ensures upset == (old(upset) || Upsets(old(provider), old(stashes), Some(base), exchanges(old(posts)).intruder))
      ensures shortened == (old(shortened) || (issued.Some? && Shortens(base, exchanges(old(posts)).intruder, exchanges(old(posts)).expires)))
      ensures old(Safe()) && NothingWaits(old(stashes), base) ==>
                && token !in old(provider).next
                && (status != Unpersisted && !lostReply && !upset && !shortened ==> Safe())
      ensures old(Safe()) && NothingWaits(old(stashes), base) && issued.Some? && issued != base.fp && status != Unpersisted
              && exchanges(old(posts)).intruder.Nobody? && Item(store.cur, id) == Some(base) ==>
                LeftStashed(base, issued.value, exchanges(old(posts)).expires)
      ensures exchanges(old(posts)).intruder.Nobody? && token !in old(provider).next ==>
                && (exchanges(old(posts)).reply == Rotates && store.faults(old(store.tick)) == FailBefore && store.faults(old(store.tick) + 1) == Proceed ==>
                      && status == Transient && issued == Some(provider.top) && provider == Rotate(old(provider), token)
                      && store.cur == old(store.cur) && store.tick == old(store.tick) + 2)
                && (exchanges(old(posts)).reply == LosesReply ==>
                      stashes == old(stashes) && store.cur == old(store.cur) && token in provider.next && store.tick == old(store.tick))
    {
      hide Custody, StashOk, ProviderOk, SlotOk, NothingWaits, Upsets, Waits, Shortens, Accounted, Uniform, Exchanges, LeftStashed;
      ghost var p, w, safe := provider, exchanges(posts).intruder, Safe() && NothingWaits(stashes, base);
      if safe { NothingWaitsMeansUnspent(provider, stashes, base); }
      var next;
      status, next := Post(token);
      issued := next;
      if next.Some? {
        status := Keep(base, token, next.value, p);
      } else if safe && !upset {
        OthersAreSafe(p, Some(base), stashes, w);
      }
    }

    /** The reply has come with a successor; `p` is the provider as it was before the request. */
    method Keep(base: Cred, consumed: Fp, issued: Fp, ghost p: Provider) returns (status: Status)
      requires Sendable(base) && store.saved.None? && base.fp == Some(consumed) && posts > 0
      requires Exchanges(p, provider, exchanges(posts - 1).intruder, consumed, issued)
      requires Item(store.cur, id) == SlotAfter(p, Some(base), exchanges(posts - 1).intruder)
      modifies this`stashes, this`shortened, store`tick, store`cur, store`prev, store`meta, store`saved
      ensures store.saved.None? && Accounted(status, consumed, issued) && old(store.meta).rows.Keys == store.meta.rows.Keys
      ensures shortened == (old(shortened) || Shortens(base, exchanges(posts - 1).intruder, exchanges(posts - 1).expires))
      ensures Custody(p, Some(base), old(stashes)) && NothingWaits(old(stashes), base) && status != Unpersisted && !shortened
              && !Upsets(p, old(stashes), Some(base), exchanges(posts - 1).intruder) ==>
                Safe()
      ensures Custody(p, Some(base), old(stashes)) && NothingWaits(old(stashes), base) && status != Unpersisted
              && Some(issued) != base.fp && exchanges(posts - 1).intruder.Nobody? && Item(store.cur, id) == Some(base) ==>
                LeftStashed(base, issued, exchanges(posts - 1).expires)
      ensures store.faults(old(store.tick)) == FailBefore && store.faults(old(store.tick) + 1) == Proceed ==>
                status == Transient && store.cur == old(store.cur) && store.tick == old(store.tick) + 2
    {
      hide Custody, StashOk, ProviderOk, SlotOk, OnlyAdds, NothingWaits, Upsets, Waits, Shortens, Settles, Renews, Grants, Accounted, Uniform, Exchanges;
      var e := exchanges(posts - 1);
      shortened := shortened || Shortens(base, e.intruder, e.expires);
      ghost var held := stashes;
      status := Settle(base, consumed, issued, e.expires);
      if Custody(p, Some(base), held) && NothingWaits(held, base) && status != Unpersisted {
        Aftermath(p, provider, held, stashes, e.intruder, Item(store.cur, id), base, issued, e.expires);
      }
    }
  }

  lemma Aftermath(p: Provider, q: Provider, before: seq<Stash>, after: seq<Stash>, w: Intruder, item: Option<Cred>, base: Cred, issued: Fp, expires: int)
    requires Custody(p, Some(base), before) && NothingWaits(before, base) && base.fp.Some?
    requires Exchanges(p, q, w, base.fp.value, issued) && OnlyAdds(before, after, base.fp.value, issued, expires)
    requires Settles(after, SlotAfter(p, Some(base), w), item, base.fp.value, issued, expires)
    ensures !Upsets(p, before, Some(base), w) && !Shortens(base, w, expires) ==> Custody(q, item, after)
    ensures w.Nobody? && Some(issued) != base.fp && item == Some(base) ==>
              && base.fp.value in q.next && issued !in q.next
              && (exists s :: s in after && Grants(s, base.fp.value, issued, expires))
              && (forall s :: s in after && Waits(s, base) ==> Grants(s, base.fp.value, issued, expires))
              && (forall s :: s in after ==> s.cred.fp.Some?)
  {
    hide *;
    if !Upsets(p, before, Some(base), w) && !Shortens(base, w, expires) {
      SettledIsSafe(p, q, before, after, w, item, base, issued, expires);
    }
    if w.Nobody? && Some(issued) != base.fp && item == Some(base) {
      assert SlotAfter(p, Some(base), w) == Some(base) by { NobodyChangesNothing(p, Some(base)); }
      StashedBeside(p, q, before, after, base, issued, expires);
    }
  }

  lemma NobodyChangesNothing(p: Provider, slot: Option<Cred>)
    ensures SlotAfter(p, slot, Nobody) == slot
  {
  }

  /** What waits beside a slot whose token was just spent is the new grant alone, if it waits at all. */
  lemma StashedBeside(p: Provider, q: Provider, before: seq<Stash>, after: seq<Stash>, base: Cred, issued: Fp, expires: int)
    requires Custody(p, Some(base), before) && NothingWaits(before, base) && base.fp.Some?
    requires Exchanges(p, q, Nobody, base.fp.value, issued) && Some(issued) != base.fp && OnlyAdds(before, after, base.fp.value, issued, expires)
    requires Settles(after, Some(base), Some(base), base.fp.value, issued, expires)
    ensures base.fp.value in q.next && issued !in q.next
    ensures exists s :: s in after && Grants(s, base.fp.value, issued, expires)
    ensures forall s :: s in after && Waits(s, base) ==> Grants(s, base.fp.value, issued, expires)
    ensures forall s :: s in after ==> s.cred.fp.Some?
  {
    NothingWaitsMeansUnspent(p, before, base);
  }

  // ----- two calls -----------------------------------------------------------------------------------------

  /**
   An exchange whose successor was stashed beside the token it spent, and an undisturbed call
   after it: the spent token is sent again exactly when the grant does not outlive the slot's.
   `left` is what the first call left in the slot, `mid` the tick at which it ended.
   */
  method CallTwice(g: Gate) returns (first: Status, second: Status, ghost base: Option<Cred>, ghost issued: Option<Fp>, ghost left: Option<Cred>, ghost mid: nat)
    requires g.store.saved.None? && g.Safe() && g.id in g.store.meta.rows && !g.replayed
    requires g.exchanges(g.posts).intruder.Nobody?
    modifies g, g.store
    ensures issued.Some? && base.Some? && issued != base.value.fp && first != Unpersisted && left == base && g.store.QuietFrom(mid) ==>
              (g.replayed <==> !Outlives(base.value, old(g.exchanges(g.posts)).expires))
  {
    hide Custody;
    ghost var expires := g.exchanges(g.posts).expires;
    first, base, issued := g.Consume(false);
    left, mid := Item(g.store.cur, g.id), g.store.tick;
    if issued.Some? && issued != base.value.fp && first != Unpersisted && left == base {
      OnlyTheGrantWaits(g.stashes, base.value, issued.value, expires);
    }
    ghost var again, more;
    second, again, more := g.Consume(false);
  }

  lemma OnlyTheGrantWaits(stashes: seq<Stash>, base: Cred, issued: Fp, expires: int)
    requires base.fp.Some? && exists s :: s in stashes && Grants(s, base.fp.value, issued, expires)
    requires forall s :: s in stashes && Waits(s, base) ==> Grants(s, base.fp.value, issued, expires)
    ensures NothingWaits(stashes, base) <==> !Outlives(base, expires)
    ensures NothingWaits(stashes, base) ==> ToSend(stashes, base) == base
    ensures !NothingWaits(stashes, base) ==> ToSend(stashes, base).fp == Some(issued)
  {
    FirstWaitingMeans(stashes, base);
    var s :| s in stashes && Grants(s, base.fp.value, issued, expires);
    assert Waits(s, base) <==> Outlives(base, expires);
  }

  /** A slot with this credential and its row, created without a fault. */
  method OneSlot(c: Cred, faults: nat -> Fault, exchange: Exchange) returns (g: Gate)
    requires c.fp.Some? && forall n: nat :: n < 5 ==> faults(n) == Proceed
    ensures g.Managed() && g.store.saved.None? && g.Safe() && !g.replayed && g.stashes == [] && g.posts == 0
    ensures g.store.meta.rows[g.id] == Row(c.fp, None, false, false)
    ensures g.store.cur[g.id] == c && g.provider == Provider(map[], c.fp.value) && g.store.tick == 5
    ensures g.store.faults == faults && g.exchanges == (_ => exchange) && fresh(g) && fresh(g.store)
  {
    var store := new SlotStore(faults);
    ghost var landed;
    var ok, healed;
    ok, healed, landed := store.CreateSlot("a", c);
    g := new Gate(store, "a", _ => exchange, c.fp.value);
  }

  /** The failing input: the lock is not got back after the request, and the grant expires with the slot's. */
  method ObsoleteStashIsReplayed() returns (g: Gate)
    ensures g.replayed
  {
    g := OneSlot(Cred(Some(1), Some(10), Whole, None, 0), n => if n == 11 then FailBefore else Proceed, Exchange(Rotates, 10, Nobody));
    assert g.store.Proceeds(5, 11) && g.store.QuietFrom(13);
    var first, second;
    ghost var base, issued;
    first, base, issued := g.Consume(false);
    assert g.LeftStashed(base.value, issued.value, 10);
    OnlyTheGrantWaits(g.stashes, base.value, issued.value, 10);
    second, base, issued := g.Consume(false);
  }

  /** The failing input of a lost answer: the next call sends the same token. */
  method LostReplyIsReplayed() returns (g: Gate)
    ensures g.replayed
  {
    g := OneSlot(Cred(Some(1), Some(10), Whole, None, 0), _ => Proceed, Exchange(LosesReply, 20, Nobody));
    var first, second;
    ghost var base, issued;
    first, base, issued := g.Consume(false);
    second, base, issued := g.Consume(false);
  }

  // ----- runs ------------------------------------------------------------------------------------------

  /** Something has happened that nobody can make good: reported, or outside the gate's reach. */
  ghost predicate Broken(g: Gate, statuses: seq<Status>)
    reads g`lostReply, g`upset, g`shortened
  {
    g.lostReply || g.upset || g.shortened || (statuses != [] && statuses[|statuses| - 1] == Unpersisted)
  }

  /**
   Over any sequence of calls on a slot with a row, with other writers editing, replacing or
   removing the slot between the calls and while requests are on the wire, no exchanged token
   is ever sent again: until a call reports its successor unpersisted, an answer to an exchange
   is lost on the wire, a grant does not outlive the credential it renews, or another writer
   leaves what custody cannot survive. Until then custody holds. No writer is one of the last
   kind who only edits all but token and expiry, removes, or logs in anew.
   */
  method RunCalls(g: Gate, turns: seq<Turn>) returns (statuses: seq<Status>)
    requires g.store.saved.None? && g.Safe() && !g.replayed && g.id in g.store.meta.rows
    modifies g, g.store
    ensures !g.replayed && |statuses| <= |turns|
    ensures forall k :: 0 <= k < |statuses| - 1 ==> statuses[k] != Unpersisted
    ensures |statuses| < |turns| ==> Broken(g, statuses)
    ensures !Broken(g, statuses) ==> g.Safe()
    ensures !old(g.upset) && (forall n :: Benign(g.exchanges(n).intruder)) && (forall t :: t in turns ==> Benign(t.before)) ==> !g.upset
    ensures !old(g.lostReply) && (forall n :: g.exchanges(n).reply != LosesReply) ==> !g.lostReply
  {
    statuses := [];
    while |statuses| < |turns|
      invariant |statuses| <= |turns| && g.store.saved.None? && !g.replayed && g.id in g.store.meta.rows
      invariant forall k :: 0 <= k < |statuses| - 1 ==> statuses[k] != Unpersisted
      invariant !Broken(g, statuses) ==> g.Safe()
      invariant !old(g.upset) && (forall n :: Benign(g.exchanges(n).intruder)) && (forall t :: t in turns ==> Benign(t.before)) ==> !g.upset
      invariant !old(g.lostReply) && (forall n :: g.exchanges(n).reply != LosesReply) ==> !g.lostReply
      decreases |turns| - |statuses|
    {
      if g.lostReply || g.upset || g.shortened || (statuses != [] && statuses[|statuses| - 1] == Unpersisted) { return; }
      g.Interfere(turns[|statuses|].before);
      if g.upset { return; }
      ghost var base, issued;
      var status;
      status, base, issued := g.Consume(turns[|statuses|].renewed);
      statuses := statuses + [status];
    }
  }
}
