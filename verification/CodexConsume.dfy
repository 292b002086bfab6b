/**
 The gate that spends a Codex slot's single-use refresh token. Every Keychain, stash and
 database access may fail before or after taking effect, and the lock may be found lost at
 any check; the provider may rotate, keep, refuse or swallow a token, and another writer may
 replace the slot while the request is on the wire.
 */
module CodexConsume {
  import opened Prelude
  import opened CodexStash

  datatype Row = Row(fingerprint: Token, previous: Option<Token>, dead: bool, pendingAdopt: bool)

  datatype Edge = Edge(from: Token, to: Token)

  datatype Meta = Meta(row: Option<Row>, edges: set<Edge>)

  datatype Fault = Proceed | FailBefore | FailAfter

  /** How the provider treats a token it has not seen spent. */
  datatype Reply = Rotates | Keeps | Refuses(reuse: bool) | Unreachable | LosesReply

  /** Another writer of the slot: a switch, a new login, an import, a removal. */
  datatype Intruder = Nobody | Removes | Edits(content: nat) | LogsIn(content: nat) | Writes(doc: Doc)

  /** One exchange: the reply, and who wrote the slot meanwhile. */
  datatype Exchange = Exchange(reply: Reply, content: nat, intruder: Intruder)

  /** One turn of a run: another writer, or nobody, and then a call. */
  datatype Turn = Turn(before: Intruder, req: Request)

  datatype Status =
    | Refreshed | Fresh | Held | Dead | Superseded | CodexWon | Transient | Stashed | StashedLockLost
    | Unpersisted | SlotRemoved | SlotSplit | InFlight | Threw

  datatype Reading = Found(doc: Doc) | Missing | Unreadable

  datatype Finding = Nothing | Stashing(stash: Stash, id: StashId) | Unknown

  datatype Classified = Successor(doc: Doc) | Rejected(reuse: bool) | Failed

  /** What a caller brings: fences, other holders before and after, and whether its snapshot is stale. */
  datatype Request = Request(inFlight: bool, held: bool, heldAfter: bool, allowHeld: bool, renewed: bool)

  datatype Repair = Repaired | Split | Unrepaired | RepairLost

  datatype Persisted = Committed | Kept | Unkept | LockLost

  /** The tokens the provider has exchanged, for what, and a bound on every token in circulation. */
  datatype Provider = Provider(next: map<Token, Token>, top: Token)

  // ----- custody -------------------------------------------------------------------------

  /** A stash of an exchanged token holds what it was exchanged for; any other kept its token. */
  predicate StashOk(p: Provider, s: Stash) {
    if s.consumed in p.next then s.doc.token == p.next[s.consumed] else s.doc.token == s.consumed
  }

  ghost predicate ProviderOk(p: Provider) {
    forall t :: t in p.next ==> t <= p.top && p.next[t] <= p.top
  }

  /** In circulation and never exchanged. */
  predicate Unspent(p: Provider, t: Token) { t <= p.top && t !in p.next }

  /** The slot's token was never exchanged, or what it was exchanged for was not, and is stashed under it. */
  ghost predicate SlotOk(p: Provider, stashes: set<Stash>, doc: Doc) {
    || Unspent(p, doc.token)
    || (doc.token in p.next && Unspent(p, p.next[doc.token]) && exists s :: s in stashes && s.consumed == doc.token)
  }

  /** Nothing is lost: a token that can still be exchanged is in the slot, or in a stash found by it. */
  ghost predicate Custody(p: Provider, slot: Option<Doc>, stashes: set<Stash>) {
    && ProviderOk(p)
    && (forall s :: s in stashes ==> StashOk(p, s))
    && (slot.Some? ==> SlotOk(p, stashes, slot.value))
  }

  /** `successor` is what exchanging `current` gave, if it was, and can itself still be exchanged. */
  ghost predicate Owed(p: Provider, current: Doc, successor: Doc) {
    && Unspent(p, successor.token)
    && successor.token == if current.token in p.next then p.next[current.token] else current.token
  }

  /** A token that was exchanged before comes back into a slot that did not hold it. */
  predicate Reinstates(p: Provider, slot: Option<Doc>, w: Intruder) {
    w.Writes? && w.doc.token in p.next && !(slot.Some? && slot.value.token == w.doc.token)
  }

  /** Brings back nothing: no writer, a removal, an edit that keeps the token, a login with a new one. */
  predicate Benign(w: Intruder) { !w.Writes? }

  function SlotAfter(p: Provider, slot: Option<Doc>, w: Intruder): Option<Doc> {
    match w
    case Nobody => slot
    case Removes => None
    case Edits(content) => if slot.None? then None else Some(slot.value.(content := content))
    case LogsIn(content) => Some(Doc(p.top + 1, content))
    case Writes(doc) => Some(doc)
  }

  /** Whatever token the writer brings is in circulation from then on. */
  function Seen(p: Provider, w: Intruder): Provider {
    if w.LogsIn? then p.(top := p.top + 1)
    else if w.Writes? && w.doc.token > p.top then p.(top := w.doc.token) else p
  }

  /** Edits of the content, removals, new logins and lineages never exchanged keep custody. */
  lemma OthersAreSafe(p: Provider, slot: Option<Doc>, stashes: set<Stash>, w: Intruder)
    requires Custody(p, slot, stashes) && !Reinstates(p, slot, w)
    ensures Custody(Seen(p, w), SlotAfter(p, slot, w), stashes)
  {
  }

  /** The stashes from before, and at most copies of this successor. */
  ghost predicate OnlyAdds(before: set<Stash>, after: set<Stash>, s: Stash) {
    && (forall t :: t in before ==> t in after)
    && (forall t :: t in after ==> t in before || t == s)
  }

  /** Where an exchange may leave things once its successor is durable, other writers included. */
  lemma SettledIsSafe(p: Provider, before: set<Stash>, after: set<Stash>, slot: Option<Doc>, current: Doc, successor: Doc)
    requires ProviderOk(p) && (forall s :: s in before ==> StashOk(p, s)) && Owed(p, current, successor)
    requires OnlyAdds(before, after, Stash(successor, current.token))
    requires || slot.None? || slot == Some(successor) || Unspent(p, slot.value.token)
             || (slot.value.token == current.token && Stash(successor, current.token) in after)
    ensures Custody(p, slot, after)
  {
  }

  /** With nothing stashed under it, the slot's token has never been exchanged. */
  lemma NothingToAdopt(p: Provider, stashes: set<Stash>, current: Doc)
    requires Custody(p, Some(current), stashes) && forall s :: s in stashes ==> s.consumed != current.token
    ensures Unspent(p, current.token) && ProviderOk(p) && forall s :: s in stashes ==> StashOk(p, s)
  {
  }

  function Rotate(p: Provider, t: Token): Provider { Provider(p.next[t := p.top + 1], p.top + 1) }

  /** The slot's token has been exchanged, or kept, and the provider has seen what others wrote. */
  ghost predicate Exchanges(p: Provider, q: Provider, w: Intruder, consumed: Token, issued: Token) {
    || (q == Seen(p, w) && issued == consumed)
    || (q == Rotate(Seen(p, w), consumed) && issued == q.top)
  }

  /** Exchanging it leaves every stash true and owes the slot the new token. */
  lemma RotationOwes(p: Provider, stashes: set<Stash>, current: Doc, successor: Doc)
    requires Unspent(p, current.token) && ProviderOk(p) && forall s :: s in stashes ==> StashOk(p, s) && s.consumed != current.token
    requires successor.token == p.top + 1
    ensures var q := Rotate(p, current.token);
            ProviderOk(q) && (forall s :: s in stashes ==> StashOk(q, s)) && Owed(q, current, successor)
  {
  }

  /** A stash found by the slot's own token is what that token was exchanged for. */
  lemma FoundIsOwed(p: Provider, stashes: set<Stash>, current: Doc, s: Stash)
    requires Custody(p, Some(current), stashes) && s in stashes && s.consumed == current.token
    ensures Owed(p, current, s.doc)
  {
  }

  /** The metadata names this token, or something that demonstrably precedes it. */
  predicate Provable(meta: Meta, prev: Option<Doc>, token: Token) {
    && meta.row.Some?
    && (|| meta.row.value.fingerprint == token
        || (prev.Some? && prev.value.token == meta.row.value.fingerprint)
        || Edge(meta.row.value.fingerprint, token) in meta.edges)
  }

  predicate Lands(f: Fault) { f != FailBefore }

  class Backend {
    const faults: nat -> Fault
    const locked: nat -> bool
    const exchanges: nat -> Exchange
    var tick: nat
    var slot: Option<Doc>
    var prev: Option<Doc>
    /** Index, Keychain entries and private files of stashed successors. */
    var stored: CodexStash.Stashed
    var meta: Meta
    /** The metadata to go back to while a transaction is open. */
    var saved: Option<Meta>
    var provider: Provider
    var posts: nat
    /** A token already exchanged was sent again. */
    var replayed: bool
    /** The provider exchanged a token and its answer never arrived. */
    var lostReply: bool
    /** Another writer put an exchanged token back. */
    var reinstated: bool

    constructor (faults: nat -> Fault, locked: nat -> bool, exchanges: nat -> Exchange, doc: Doc)
      ensures Safe() && saved.None? && !replayed && !lostReply && !reinstated
      ensures slot == Some(doc) && Stashes() == {} && meta == Meta(Some(Row(doc.token, None, false, false)), {})
      ensures provider == Provider(map[], doc.token) && posts == 0
      ensures this.faults == faults && this.locked == locked && this.exchanges == exchanges
    {
      this.faults, this.locked, this.exchanges := faults, locked, exchanges;
      this.tick, this.slot, this.prev, this.stored := 0, Some(doc), None, Directory([], map[], map[], 0);
      this.meta, this.saved := Meta(Some(Row(doc.token, None, false, false)), {}), None;
      this.provider, this.posts, this.replayed, this.lostReply, this.reinstated := Provider(map[], doc.token), 0, false, false, false;
    }

    /** Every successor that a search can find. */
    ghost function Stashes(): set<Stash>
      reads this`stored
    {
      Bodies(stored)
    }

    ghost predicate Safe()
      reads this`slot, this`stored, this`provider
    {
      Custody(provider, slot, Stashes())
    }

    /** From this tick on nothing fails and the lock is kept. */
    ghost predicate QuietFrom(t: nat) {
      forall n :: n >= t ==> faults(n) == Proceed && locked(n)
    }

    // ----- single accesses --------------------------------------------------------------------

    method Access() returns (f: Fault)
      modifies this`tick
      ensures f == faults(old(tick)) && tick == old(tick) + 1
    {
      f := faults(tick);
      tick := tick + 1;
    }

    method StillHeld() returns (held: bool)
      modifies this`tick
      ensures held == locked(old(tick)) && tick == old(tick) + 1
    {
      held := locked(tick);
      tick := tick + 1;
    }

    method ReadSlot() returns (r: Reading)
      modifies this`tick
      ensures r.Found? ==> slot == Some(r.doc)
      ensures tick == old(tick) + 1 && (faults(old(tick)) == Proceed ==> r == if slot.Some? then Found(slot.value) else Missing)
    {
      var f := Access();
      r := if f != Proceed then Unreadable else if slot.Some? then Found(slot.value) else Missing;
    }

    /** The predecessor copy first, then the slot. */
    method WriteSlot(doc: Doc, prior: Doc) returns (ok: bool)
      modifies this`tick, this`slot, this`prev
      ensures slot == old(slot) || slot == Some(doc)
      ensures prev == old(prev) || prev == Some(prior)
      ensures slot != old(slot) ==> prev == Some(prior)
      ensures ok ==> slot == Some(doc) && prev == Some(prior)
      ensures tick >= old(tick) && (QuietFrom(old(tick)) ==> ok)
    {
      var f := Access();
      if Lands(f) { prev := Some(prior); }
      if f != Proceed { return false; }
      f := Access();
      if Lands(f) { slot := Some(doc); }
      ok := f == Proceed;
    }

    // ----- stashes -------------------------------------------------------------------------------

    /** A reservation, then the Keychain; and when that fails, a private file. */
    method KeepSuccessor(doc: Doc, consumed: Token) returns (ok: bool)
      modifies this`tick, this`stored
      ensures Stashes() == old(Stashes()) || Stashes() == old(Stashes()) + {Stash(doc, consumed)}
      ensures ok ==> Stash(doc, consumed) in Stashes()
      ensures tick >= old(tick) && (QuietFrom(old(tick)) ==> ok)
    {
      hide Bodies;
      ghost var before := Stashes();
      var s, id := Stash(doc, consumed), Regular(stored.serial);
      var f := Access();
      if Lands(f) {
        ReservedBodies(stored, consumed);
        ReservationIsFor(stored, s);
        stored := Reserved(stored, consumed);
      }
      if f != Proceed { return false; }
      f := Access();
      if f == Proceed {
        f := Access();
        if Lands(f) {
          StoredBodies(stored, id, s);
          stored := InKeychain(stored, id, s);
        }
        if f == Proceed { return true; }
      }
      ok := KeepInFile(id, s);
    }

    /** The reservation is marked as a file's, the file written and made private. */
    method KeepInFile(id: StashId, s: Stash) returns (ok: bool)
      requires ReservedFor(stored, id, s) && id.Regular?
      modifies this`tick, this`stored
      ensures Stashes() == old(Stashes()) || Stashes() == old(Stashes()) + {s}
      ensures ok ==> s in Stashes()
      ensures tick >= old(tick) && (QuietFrom(old(tick)) ==> ok)
    {
      hide Bodies;
      var f := Access();
      if f != Proceed { return false; }
      f := Access();
      if Lands(f) {
        StoredBodies(stored, id, s);
        stored := InFile(stored, id, s);
      }
      if f != Proceed { return false; }
      f := Access();
      ok := f == Proceed;
    }

    /** Without the lock: the body first, under a name that a search recognises, then its reservation. */
    method KeepEmergency(doc: Doc, consumed: Token) returns (ok: bool)
      modifies this`tick, this`stored
      ensures Stashes() == old(Stashes()) || Stashes() == old(Stashes()) + {Stash(doc, consumed)}
      ensures ok ==> Stash(doc, consumed) in Stashes()
      ensures tick >= old(tick) && (QuietFrom(old(tick)) ==> ok)
    {
      hide Bodies;
      var s, id := Stash(doc, consumed), StashId.Emergency(stored.serial);
      var f := Access();
      if Lands(f) {
        EmergencyBodies(stored, s);
        stored := InEmergency(stored, s);
      }
      if f != Proceed { return false; }
      f := Access();
      if Lands(f) {
        AdoptedBodies(stored, id);
        stored := Adopted(stored, id);
      }
      ok := f == Proceed;
    }

    /** Emergency files whose reservation never landed are reserved now. */
    method AdoptOrphans(consumed: Token) returns (ok: bool)
      modifies this`tick, this`stored
      ensures Stashes() == old(Stashes()) && stored.files == old(stored).files && stored.keychain == old(stored).keychain
      ensures ok ==> forall id :: id in stored.files && id.Emergency? && stored.files[id].consumed == consumed ==> Indexed(stored.index, id)
      ensures tick >= old(tick) && (QuietFrom(old(tick)) ==> ok)
    {
      hide Bodies;
      var f := Access();
      if f != Proceed { return false; }
      f := Access();
      if f != Proceed { return false; }
      var todo := stored.files.Keys;
      while todo != {}
        invariant Stashes() == old(Stashes()) && stored.files == old(stored).files && stored.keychain == old(stored).keychain
        invariant todo <= stored.files.Keys && tick >= old(tick)
        invariant forall id :: id in stored.files && id !in todo && id.Emergency? && stored.files[id].consumed == consumed ==> Indexed(stored.index, id)
        decreases |todo|
      {
        var id :| id in todo;
        todo := todo - {id};
        if id.Emergency? && !Indexed(stored.index, id) {
          f := Access();
          if f != Proceed { return false; }
          if stored.files[id].consumed == consumed {
            f := Access();
            if Lands(f) {
              AdoptedBodies(stored, id);
              IndexedAppend(stored.index, Entry(id, stored.files[id].consumed));
              stored := Adopted(stored, id);
            }
            if f != Proceed { return false; }
          }
        }
      }
      ok := true;
    }

    /** One reservation's body; a reservation known to have none is dropped, unless it is an emergency one. */
    method ReadBody(id: StashId) returns (known: bool, body: Option<Stash>)
      modifies this`tick, this`stored
      ensures Stashes() == old(Stashes()) && stored.files == old(stored).files && stored.keychain == old(stored).keychain
      ensures known ==> body == BodyOf(stored, id)
      ensures tick >= old(tick) && (QuietFrom(old(tick)) ==> known)
    {
      hide Bodies;
      var f := Access();
      if f == Proceed && id in stored.keychain { return true, Some(stored.keychain[id]); }
      if id in stored.files {
        var g := Access();
        return g == Proceed, BodyOf(stored, id);
      }
      if f != Proceed { return false, None; }
      if id.Regular? {
        f := Access();
        if Lands(f) {
          DroppedBodies(stored, id);
          stored := Dropped(stored, id);
        }
      }
      return true, None;
    }

    /** The first successor that the token was exchanged for, if any can be found. */
    method FindSuccessor(consumed: Token) returns (r: Finding)
      modifies this`tick, this`stored
      ensures Stashes() == old(Stashes())
      ensures r == Nothing ==> forall s :: s in Stashes() ==> s.consumed != consumed
      ensures r.Stashing? ==> r.stash in Stashes() && r.stash.consumed == consumed && BodyOf(stored, r.id) == Some(r.stash)
      ensures tick >= old(tick) && (QuietFrom(old(tick)) ==> r != Unknown)
    {
      hide Bodies;
      var ok := AdoptOrphans(consumed);
      if !ok { return Unknown; }
      var f := Access();
      if f != Proceed { return Unknown; }
      var entries := stored.index;
      ghost var listed: Directory := stored;
      for k := 0 to |entries|
        invariant Stashes() == old(Stashes()) && stored.files == listed.files && stored.keychain == listed.keychain && tick >= old(tick)
        invariant forall j :: 0 <= j < k && entries[j].consumed == consumed ==> BodyOf(stored, entries[j].id).None?
      {
        if entries[k].consumed == consumed {
          var known, body := ReadBody(entries[k].id);
          if !known { return Unknown; }
          if body.Some? {
            FoundIsHeld(listed, k, body.value);
            return Stashing(body.value, entries[k].id);
          }
        }
      }
      NothingIsHeld(listed, consumed);
      r := Nothing;
    }

    /** Both bodies, then the reservation; whatever is left of it is a safety copy or a bare reservation. */
    method RemoveSuccessor(id: StashId, ghost s: Stash)
      requires BodyOf(stored, id) == Some(s)
      modifies this`tick, this`stored
      ensures forall t :: t in Stashes() ==> t in old(Stashes())
      ensures forall t :: t in old(Stashes()) && t != s ==> t in Stashes()
      ensures QuietFrom(old(tick)) ==> BodyOf(stored, id).None? && !Indexed(stored.index, id)
    {
      hide Bodies;
      var f := Access();
      RemovedBodies(stored, id, s);
      if Lands(f) { stored := WithoutKeychain(stored, id); }
      if f != Proceed { return; }
      f := Access();
      RemovedBodies(stored, id, s);
      if Lands(f) { stored := WithoutFile(stored, id); }
      if f != Proceed { return; }
      f := Access();
      if Lands(f) {
        DroppedBodies(stored, id);
        RowsWithoutMembers(stored.index, id);
        stored := Dropped(stored, id);
      }
    }

    // ----- the metadata transaction ---------------------------------------------------------------

    method Begin() returns (ok: bool)
      requires saved.None?
      modifies this`tick, this`saved
      ensures ok ==> saved == Some(meta)
      ensures !ok ==> saved.None?
      ensures tick == old(tick) + 1 && (faults(old(tick)) == Proceed ==> ok)
    {
      var f := Access();
      ok := f == Proceed;
      if ok { saved := Some(meta); }
    }

    method Execute(update: Meta) returns (ok: bool)
      modifies this`tick, this`meta
      ensures meta == old(meta) || meta == update
      ensures ok ==> meta == update
      ensures tick == old(tick) + 1 && (faults(old(tick)) == Proceed ==> ok)
    {
      var f := Access();
      if Lands(f) { meta := update; }
      ok := f == Proceed;
    }

    method Commit() returns (ok: bool)
      modifies this`tick, this`saved
      ensures ok ==> saved.None?
      ensures saved == old(saved) || saved.None?
      ensures tick == old(tick) + 1 && (faults(old(tick)) == Proceed ==> ok)
    {
      var f := Access();
      if Lands(f) { saved := None; }
      ok := f == Proceed;
    }

    /** A rollback that fails is completed by closing the connection. */
    method Rollback()
      modifies this`meta, this`saved
      ensures saved.None? && meta == if old(saved).Some? then old(saved).value else old(meta)
    {
      if saved.Some? { meta := saved.value; }
      saved := None;
    }

    /** A row of history, or a mark on the slot's own row; never a credential. */
    method Record(update: Meta) returns (ok: bool, lost: bool)
      requires saved.None?
      modifies this`tick, this`meta, this`saved
      ensures saved.None? && !(ok && lost)
      ensures ok ==> meta == update
      ensures meta == old(meta) || meta == update
    {
      lost := false;
      var held := StillHeld();
      if !held { return false, true; }
      ok := Begin();
      if ok { ok := Execute(update); }
      if ok { ok := Commit(); }
      if !ok { Rollback(); }
    }

    // ----- the gate's steps ---------------------------------------------------------------------------

    /** Metadata is moved up to the slot only on proof that the slot succeeds it. */
    method RepairDrift(current: Doc) returns (r: Repair)
      requires saved.None?
      modifies this`tick, this`meta, this`saved
      ensures saved.None?
      ensures r == Repaired ==>
                && meta.row.Some? && meta.row.value.fingerprint == current.token && Provable(old(meta), prev, current.token)
      ensures tick >= old(tick) && (QuietFrom(old(tick)) && Provable(old(meta), prev, current.token) ==> r == Repaired)
      ensures meta != old(meta) ==>
                && Provable(old(meta), prev, current.token) && old(meta).row.value.fingerprint != current.token
                && meta.row.Some? && meta.edges == old(meta).edges + {Edge(old(meta).row.value.fingerprint, current.token)}
                && meta.row.value == old(meta).row.value.(fingerprint := current.token, previous := meta.row.value.previous)
                && (meta.row.value.previous == Some(old(meta).row.value.fingerprint) || meta.row.value.previous == old(meta).row.value.previous)
    {
      var held := StillHeld();
      if !held { return RepairLost; }
      var ok := Begin();
      if !ok { return Unrepaired; }
      if meta.row.None? { Rollback(); return Split; }
      var row := meta.row.value;
      if row.fingerprint != current.token {
        var f := Access();
        var succeeds := f == Proceed && prev.Some? && prev.value.token == row.fingerprint;
        var known := Edge(row.fingerprint, current.token) in meta.edges;
        if !succeeds && !known { Rollback(); return Split; }
        held := StillHeld();
        if !held { Rollback(); return RepairLost; }
        ok := Execute(Meta(Some(row.(fingerprint := current.token, previous := if succeeds then Some(row.fingerprint) else row.previous)), meta.edges));
        if ok && !known {
          held := StillHeld();
          if !held { Rollback(); return RepairLost; }
          ok := Execute(meta.(edges := meta.edges + {Edge(row.fingerprint, current.token)}));
        }
      }
      if ok { ok := Commit(); }
      if ok { return Repaired; }
      Rollback();
      return Unrepaired;
    }

    /** Put the predecessor back, only over this attempt's successor and only once that is stashed. */
    method Compensate(predecessor: Doc, successor: Doc)
      requires Stash(successor, predecessor.token) in Stashes()
      modifies this`tick, this`slot, this`prev
      ensures slot == old(slot) || (old(slot) == Some(successor) && slot == Some(predecessor))
    {
      var held := StillHeld();
      if !held { return; }
      var latest := ReadSlot();
      if latest == Found(successor) {
        var _ := WriteSlot(predecessor, successor);
      }
    }

    /** The last place left for a successor that could not be stashed. */
    method Retain(predecessor: Doc, successor: Doc) returns (lost: bool)
      modifies this`tick, this`slot, this`prev
      ensures slot == old(slot) || (old(slot) == Some(predecessor) && slot == Some(successor))
    {
      var held := StillHeld();
      if !held { return true; }
      var latest := ReadSlot();
      if latest == Found(predecessor) {
        var _ := WriteSlot(successor, predecessor);
      }
      lost := false;
    }

    /** After a failed write: stash first, and only then touch the slot. */
    method Recover(current: Doc, successor: Doc, wrote: bool, already: bool) returns (r: Persisted)
      requires already ==> Stash(successor, current.token) in Stashes()
      modifies this`tick, this`slot, this`prev, this`stored, this`meta, this`saved
      ensures saved.None? && r != Committed
      ensures OnlyAdds(old(Stashes()), Stashes(), Stash(successor, current.token))
      ensures r == Kept ==> Stash(successor, current.token) in Stashes()
      ensures r == LockLost ==> !already
      ensures slot == old(slot) || slot == Some(successor) || (slot == Some(current) && Stash(successor, current.token) in Stashes())
      ensures already ==> stored == old(stored)
    {
      var kept := already;
      if !already { kept := KeepSuccessor(successor, current.token); }
      if kept && wrote { Compensate(current, successor); }
      var lost := false;
      if !kept && !wrote { lost := Retain(current, successor); }
      Rollback();
      r := if lost then LockLost else if kept then Kept else Unkept;
    }

    /** Metadata checked, slot written, metadata moved, committed; anything else keeps a copy first. */
    method PersistTransition(current: Doc, successor: Doc, receipt: bool, already: bool) returns (r: Persisted)
      requires saved.None?
      requires already ==> Stash(successor, current.token) in Stashes()
      modifies this`tick, this`slot, this`prev, this`stored, this`meta, this`saved
      ensures saved.None?
      ensures OnlyAdds(old(Stashes()), Stashes(), Stash(successor, current.token))
      ensures already ==> stored == old(stored)
      ensures r == Committed ==> slot == Some(successor) && Stashes() == old(Stashes()) && meta.row.Some? && meta.row.value.fingerprint == successor.token
      ensures r == Committed ==> old(meta).row.Some? && old(meta).row.value.fingerprint == current.token
      ensures QuietFrom(old(tick)) && old(meta).row.Some? && old(meta).row.value.fingerprint == current.token ==> r == Committed
      ensures r == Kept ==> Stash(successor, current.token) in Stashes()
      ensures slot == old(slot) || slot == Some(successor) || (slot == Some(current) && Stash(successor, current.token) in Stashes())
    {
      var held := StillHeld();
      if !held { return LockLost; }
      var ok := Begin();
      if !ok { r := Recover(current, successor, false, already); return; }
      if meta.row.None? || meta.row.value.fingerprint != current.token {
        Rollback();
        if already { return Kept; }
        var kept := KeepSuccessor(successor, current.token);
        if !kept { return Unkept; }
        var _, _ := Record(meta.(edges := meta.edges + {Edge(current.token, successor.token)}));
        return Kept;
      }
      held := StillHeld();
      if !held { Rollback(); return LockLost; }
      ok := WriteSlot(successor, current);
      if !ok { r := Recover(current, successor, false, already); return; }
      r := MoveMetadata(current, successor, receipt);
      if r == Unkept { r := Recover(current, successor, true, already); }
      if r == Kept && !already {
        var _, _ := Record(meta.(edges := meta.edges + {Edge(current.token, successor.token)}));
      }
    }

    /** The slot already holds the successor; Unkept here means that the metadata did not follow. */
    method MoveMetadata(current: Doc, successor: Doc, receipt: bool) returns (r: Persisted)
      requires saved == Some(meta) && meta.row.Some? && meta.row.value.fingerprint == current.token
      modifies this`tick, this`meta, this`saved
      ensures r == Committed || r == LockLost || r == Unkept
      ensures r != Unkept ==> saved.None?
      ensures r == Committed ==> meta == Meta(Some(Row(successor.token, Some(current.token), false, false)),
                                               old(meta).edges + {Edge(current.token, successor.token)})
      ensures r == LockLost ==> meta == old(meta)
      ensures tick >= old(tick) && (QuietFrom(old(tick)) ==> r == Committed)
    {
      var ok := Execute(meta.(row := Some(Row(successor.token, Some(current.token), false, false))));
      if ok { ok := Execute(meta.(edges := meta.edges + {Edge(current.token, successor.token)})); }
      if ok && receipt {
        var f := Access();
        ok := f == Proceed;
      }
      if !ok { return Unkept; }
      var held := StillHeld();
      if !held { Rollback(); return LockLost; }
      ok := Commit();
      r := if ok then Committed else Unkept;
    }

    /** The slot is written by somebody else. */
    method Interfere(w: Intruder)
      modifies this`slot, this`provider, this`reinstated
      ensures slot == SlotAfter(old(provider), old(slot), w) && provider == Seen(old(provider), w)
      ensures reinstated == (old(reinstated) || Reinstates(old(provider), old(slot), w))
      ensures old(Safe()) && !reinstated ==> Safe()
    {
      if Safe() && !Reinstates(provider, slot, w) { OthersAreSafe(provider, slot, Stashes(), w); }
      reinstated := reinstated || Reinstates(provider, slot, w);
      slot, provider := SlotAfter(provider, slot, w), Seen(provider, w);
    }

    /** The one request of a call, and whatever another writer did meanwhile. */
    method Post(current: Doc) returns (c: Classified)
      modifies this`provider, this`posts, this`replayed, this`lostReply, this`slot, this`reinstated
      ensures posts == old(posts) + 1
      ensures slot == SlotAfter(old(provider), old(slot), exchanges(old(posts)).intruder)
      ensures reinstated == (old(reinstated) || Reinstates(old(provider), old(slot), exchanges(old(posts)).intruder))
      ensures replayed == (old(replayed) || current.token in old(provider).next)
      ensures c.Successor? ==> c.doc.content == exchanges(old(posts)).content
      ensures var seen := Seen(old(provider), exchanges(old(posts)).intruder);
              if current.token in old(provider).next then provider == seen && c == Rejected(true) && lostReply == old(lostReply)
              else
                match exchanges(old(posts)).reply
                case Rotates => provider == Rotate(seen, current.token) && c.Successor? && c.doc.token == provider.top && lostReply == old(lostReply)
                case LosesReply => provider == Rotate(seen, current.token) && c == Failed && lostReply
                case Keeps => provider == seen && c.Successor? && c.doc.token == current.token && lostReply == old(lostReply)
                case Refuses(reuse) => provider == seen && c == Rejected(reuse) && lostReply == old(lostReply)
                case Unreachable => provider == seen && c == Failed && lostReply == old(lostReply)
    {
      var e := exchanges(posts);
      posts := posts + 1;
      Interfere(e.intruder);
      if current.token in provider.next {
        replayed := true;
        c := Rejected(true);
      } else {
        match e.reply {
          case Rotates =>
            provider := Rotate(provider, current.token);
            c := Successor(Doc(provider.top, e.content));
          case LosesReply =>
            provider := Rotate(provider, current.token);
            lostReply := true;
            c := Failed;
          case Keeps => c := Successor(Doc(current.token, e.content));
          case Refuses(reuse) => c := Rejected(reuse);
          case Unreachable => c := Failed;
        }
      }
    }

    /** The safety copy when the lock is gone: beside the slot, never in it. */
    method Emergency(current: Doc, successor: Doc) returns (status: Status)
      modifies this`tick, this`stored
      ensures OnlyAdds(old(Stashes()), Stashes(), Stash(successor, current.token))
      ensures status == StashedLockLost || status == Unpersisted
      ensures status == StashedLockLost ==> Stash(successor, current.token) in Stashes()
    {
      var kept := KeepEmergency(successor, current.token);
      status := if kept then StashedLockLost else Unpersisted;
    }

    /** A stash left by an earlier call becomes the slot before anything else is asked of the provider. */
    method AdoptSuccessor(current: Doc) returns (status: Option<Status>)
      requires saved.None? && slot == Some(current)
      modifies this`tick, this`slot, this`prev, this`stored, this`meta, this`saved
      ensures saved.None?
      ensures status.None? ==> slot == old(slot) && Stashes() == old(Stashes()) && forall s :: s in Stashes() ==> s.consumed != current.token
      ensures status.Some? ==> status.value == Fresh || status.value == Stashed || status.value == Transient
      ensures status == Some(Fresh) ==> slot.Some? && meta.row.Some? && meta.row.value.fingerprint == slot.value.token
      ensures old(Safe()) ==> Safe()
      ensures (QuietFrom(old(tick)) && old(meta).row.Some? && old(meta).row.value.fingerprint == current.token
               && exists s :: s in old(Stashes()) && s.consumed == current.token) ==>
                status == Some(Fresh)
      ensures status.None? ==> tick >= old(tick) && meta == old(meta)
      ensures QuietFrom(old(tick)) && (forall s :: s in old(Stashes()) ==> s.consumed != current.token) ==> status.None?
      ensures old(Safe()) && current.token in provider.next && status == Some(Fresh) ==> slot.value.token == provider.next[current.token]
    {
      var found := FindSuccessor(current.token);
      if found == Unknown { return Some(Transient); }
      if found == Nothing { return None; }
      var s := found.stash;
      ghost var before := Stashes();
      if Safe() { FoundIsOwed(provider, Stashes(), current, s); }
      var r := PersistTransition(current, s.doc, false, true);
      if old(Safe()) { SettledIsSafe(provider, before, Stashes(), slot, current, s.doc); }
      if r == LockLost { return Some(Transient); }
      if r != Committed { return Some(Stashed); }
      RemoveSuccessor(found.id, s);
      return Some(Fresh);
    }

    /** Where an issued successor ends: in the slot, in a stash found by its predecessor, or reported lost. */
    ghost predicate Accounted(status: Status, current: Doc, successor: Doc)
      reads this`slot, this`stored, this`meta
    {
      match status
      case Refreshed => slot == Some(successor) && meta.row.Some? && meta.row.value.fingerprint == successor.token
      case Stashed => Stash(successor, current.token) in Stashes()
      case StashedLockLost => Stash(successor, current.token) in Stashes()
      case Unpersisted => true
      case _ => false
    }

    /** Everything after the provider has answered with a successor. */
    method Settle(req: Request, current: Doc, successor: Doc) returns (status: Status)
      requires saved.None?
      modifies this`tick, this`slot, this`prev, this`stored, this`meta, this`saved
      ensures saved.None? && Accounted(status, current, successor)
      ensures (QuietFrom(old(tick)) && old(slot) == Some(current) && old(meta).row.Some?
               && old(meta).row.value.fingerprint == current.token) ==>
                status == Refreshed
      ensures OnlyAdds(old(Stashes()), Stashes(), Stash(successor, current.token))
      ensures slot == old(slot) || slot == Some(successor) || (slot == Some(current) && Stash(successor, current.token) in Stashes())
    {
      var latest := ReadSlot();
      if latest != Found(current) {
        var kept := KeepSuccessor(successor, current.token);
        if !kept { return Unpersisted; }
        var _, _ := Record(meta.(edges := meta.edges + {Edge(current.token, successor.token)}));
        return Stashed;
      }
      var r := PersistTransition(current, successor, req.allowHeld, false);
      match r
      case Committed => status := Refreshed;
      case Kept => status := Stashed;
      case Unkept => status := Unpersisted;
      case LockLost => status := Emergency(current, successor);
    }

    /** The provider refused: another holder may have won, the slot may have moved on, or it is dead. */
    method MarkRefused(req: Request, current: Doc, reuse: bool) returns (status: Status)
      requires saved.None?
      modifies this`tick, this`meta, this`saved
      ensures saved.None?
      ensures status == SlotRemoved || status == Transient || status == Superseded || status == CodexWon || status == Dead || status == Threw
      ensures status == Dead || status == CodexWon ==> slot == Some(current)
    {
      var latest := ReadSlot();
      if latest == Missing { return SlotRemoved; }
      if latest == Unreadable { return Transient; }
      if latest.doc != current { return Superseded; }
      var won := !req.allowHeld && reuse && req.heldAfter;
      if meta.row.None? || meta.row.value.fingerprint != current.token { return Superseded; }
      var row := meta.row.value;
      var ok, lost := Record(meta.(row := Some(if won then row.(pendingAdopt := true) else row.(dead := true))));
      status := if lost then Transient else if !ok then Threw else if won then CodexWon else Dead;
    }

    // ----- one call ---------------------------------------------------------------------------------------

    /**
     One call through the gate. It sends at most one request; a successor it obtains is in the
     slot, in a stash under its predecessor, or reported unpersisted, whatever fails and whoever
     interferes. From custody no exchanged token is sent, and custody holds afterwards unless a
     successor was reported lost, an answer never arrived, or another writer put an exchanged
     token back. Undisturbed, a slot left holding an exchanged token is healed from its stash
     without a request; and, custody or not, an exchanged token is sent exactly when nothing is
     stashed under it.
     */
    method Consume(req: Request) returns (status: Status, ghost current: Doc, ghost successor: Option<Doc>)
      requires saved.None?
      modifies this
      ensures saved.None? && old(posts) <= posts <= old(posts) + 1
      ensures successor.Some? ==> posts == old(posts) + 1 && Accounted(status, current, successor.value)
      ensures successor.None? ==> status != Refreshed && status != StashedLockLost && status != Unpersisted
      ensures posts > old(posts) ==> forall s :: s in old(Stashes()) ==> s.consumed != current.token
      ensures lostReply ==> old(lostReply) || (posts > old(posts) && exchanges(old(posts)).reply == LosesReply)
      ensures reinstated ==> old(reinstated) || (posts > old(posts) && Reinstates(old(provider), Some(current), exchanges(old(posts)).intruder))
      ensures old(Safe()) ==> replayed == old(replayed)
      ensures old(Safe()) && status != Unpersisted && !lostReply && !reinstated ==> Safe()
      ensures old(Safe()) && QuietFrom(old(tick)) && !req.inFlight && old(slot).Some? && old(slot).value.token in old(provider).next
              && Provable(old(meta), old(prev), old(slot).value.token) ==>
                && status == Fresh && posts == old(posts) && slot.Some? && slot.value.token == old(provider.next[slot.value.token])
                && meta.row.Some? && meta.row.value.fingerprint == slot.value.token
      ensures QuietFrom(old(tick)) && Proceeds(req) && old(slot).Some? && Provable(old(meta), old(prev), old(slot).value.token) ==>
                var nothing := forall s :: s in old(Stashes()) ==> s.consumed != old(slot).value.token;
                && (replayed <==> old(replayed) || (nothing && old(slot).value.token in old(provider).next))
                && (nothing && old(slot).value.token !in old(provider).next && exchanges(old(posts)) == Exchange(Rotates, exchanges(old(posts)).content, Nobody) ==>
                      status == Refreshed && slot.Some? && slot.value.token == provider.top == old(provider).top + 1)
                && (nothing && old(slot).value.token !in old(provider).next && exchanges(old(posts)) == Exchange(LosesReply, exchanges(old(posts)).content, Nobody) ==>
                      && slot == old(slot) && Stashes() == old(Stashes()) && old(slot).value.token in provider.next
                      && meta.row.Some? && meta.row.value.fingerprint == old(slot).value.token)
    {
      hide StashOk, SlotOk, Provable;
      current, successor := Doc(0, 0), None;
      if req.inFlight { return InFlight, current, successor; }
      var stop, doc := Open();
      current := doc;
      if stop.Some? { return stop.value, current, successor; }
      if !req.allowHeld && req.held { return Held, current, successor; }
      if req.renewed { return Fresh, current, successor; }
      status, successor := Exchanged(req, doc);
    }

    /** The caller has no reason of its own to stop the call. */
    predicate Proceeds(req: Request) { !req.inFlight && !req.held && !req.renewed }

    /** Read the slot, repair its metadata, and take over what an earlier call stashed. */
    method Open() returns (stop: Option<Status>, current: Doc)
      requires saved.None?
      modifies this`tick, this`slot, this`prev, this`stored, this`meta, this`saved
      ensures saved.None? && (old(Safe()) ==> Safe())
      ensures stop.None? ==>
                && slot == Some(current) == old(slot) && Stashes() == old(Stashes())
                && forall s :: s in Stashes() ==> s.consumed != current.token
      ensures stop.Some? ==> stop.value != Refreshed && stop.value != StashedLockLost && stop.value != Unpersisted
      ensures tick >= old(tick) || stop.Some?
      ensures QuietFrom(old(tick)) && old(slot).Some? && Provable(old(meta), old(prev), old(slot).value.token) ==>
                && (stop.None? <==> forall s :: s in old(Stashes()) ==> s.consumed != old(slot).value.token)
                && (stop.None? ==> meta.row.Some? && meta.row.value.fingerprint == current.token)
                && (old(Safe()) && old(slot).value.token in provider.next ==>
                      && stop == Some(Fresh) && slot.Some? && slot.value.token == provider.next[old(slot).value.token]
                      && meta.row.Some? && meta.row.value.fingerprint == slot.value.token)
    {
      current := Doc(0, 0);
      var first := ReadSlot();
      if first == Missing { return Some(SlotRemoved), current; }
      if first == Unreadable { return Some(Transient), current; }
      current := first.doc;
      var repair := RepairDrift(current);
      if repair == Split { return Some(SlotSplit), current; }
      if repair != Repaired { return Some(Transient), current; }
      stop := AdoptSuccessor(current);
    }

    /** The request itself, once nothing is left to adopt. */
    method Exchanged(req: Request, current: Doc) returns (status: Status, ghost successor: Option<Doc>)
      requires saved.None? && slot == Some(current)
      requires forall s :: s in Stashes() ==> s.consumed != current.token
      modifies this
      ensures saved.None? && old(posts) <= posts <= old(posts) + 1
      ensures successor.Some? ==> posts == old(posts) + 1 && Accounted(status, current, successor.value)
      ensures successor.None? ==> status != Refreshed && status != StashedLockLost && status != Unpersisted
      ensures lostReply ==> old(lostReply) || (posts > old(posts) && exchanges(old(posts)).reply == LosesReply)
      ensures reinstated ==> old(reinstated) || (posts > old(posts) && Reinstates(old(provider), Some(current), exchanges(old(posts)).intruder))
      ensures old(Safe()) ==> replayed == old(replayed)
      ensures old(Safe()) && status != Unpersisted && !lostReply && !reinstated ==> Safe()
      ensures QuietFrom(old(tick)) ==> (replayed <==> old(replayed) || current.token in old(provider).next)
      ensures QuietFrom(old(tick)) && current.token !in old(provider).next && exchanges(old(posts)).intruder.Nobody?
              && old(meta).row.Some? && old(meta).row.value.fingerprint == current.token ==>
                && (exchanges(old(posts)).reply == Rotates ==>
                      status == Refreshed && slot.Some? && slot.value.token == provider.top == old(provider).top + 1)
                && (exchanges(old(posts)).reply == LosesReply ==>
                      slot == old(slot) && Stashes() == old(Stashes()) && meta == old(meta) && current.token in provider.next)
    {
      hide Custody, Reinstates, Exchanges, Provable, Accounted, SlotAfter;
      successor := None;
      var held := StillHeld();
      if !held { return Transient, successor; }
      ghost var p := provider;
      var c := Ask(current);
      if c.Successor? {
        successor := Some(c.doc);
        status := Keep(req, current, c.doc, p);
      } else {
        status := Declined(req, current, c);
      }
    }

    /** Nothing is stashed under the token that is sent: from custody, it is one that was never exchanged. */
    method Ask(current: Doc) returns (c: Classified)
      requires slot == Some(current) && forall s :: s in Stashes() ==> s.consumed != current.token
      modifies this`provider, this`posts, this`replayed, this`lostReply, this`slot, this`reinstated
      ensures posts == old(posts) + 1
      ensures replayed == (old(replayed) || current.token in old(provider).next)
      ensures lostReply ==> old(lostReply) || exchanges(old(posts)).reply == LosesReply
      ensures reinstated == (old(reinstated) || Reinstates(old(provider), Some(current), exchanges(old(posts)).intruder))
      ensures old(Safe()) ==> current.token !in old(provider).next
      ensures old(Safe()) && !c.Successor? && !lostReply && !reinstated ==> Safe()
      ensures slot == SlotAfter(old(provider), Some(current), exchanges(old(posts)).intruder)
      ensures c.Successor? ==> Exchanges(old(provider), provider, exchanges(old(posts)).intruder, current.token, c.doc.token)
      ensures exchanges(old(posts)).intruder.Nobody? && current.token !in old(provider).next ==>
                && slot == old(slot)
                && (exchanges(old(posts)).reply == Rotates ==> c.Successor? && c.doc.token == provider.top == old(provider).top + 1)
                && (exchanges(old(posts)).reply == LosesReply ==> c == Failed && current.token in provider.next)
    {
      hide StashOk, ProviderOk, Reinstates, Unspent;
      ghost var p, w, safe := provider, exchanges(posts).intruder, Safe();
      if safe { NothingToAdopt(provider, Stashes(), current); }
      c := Post(current);
      if safe && !reinstated { OthersAreSafe(p, Some(current), Stashes(), w); }
    }

    /** The reply has come with a successor; `p` is the provider as it was before the request. */
    method Keep(req: Request, current: Doc, successor: Doc, ghost p: Provider) returns (status: Status)
      requires saved.None? && posts > 0 && slot == SlotAfter(p, Some(current), exchanges(posts - 1).intruder)
      requires forall s :: s in Stashes() ==> s.consumed != current.token
      requires Exchanges(p, provider, exchanges(posts - 1).intruder, current.token, successor.token)
      modifies this`tick, this`slot, this`prev, this`stored, this`meta, this`saved
      ensures saved.None? && Accounted(status, current, successor)
      ensures status == Refreshed || status == Stashed || status == StashedLockLost || status == Unpersisted
      ensures Custody(p, Some(current), old(Stashes())) && status != Unpersisted && !Reinstates(p, Some(current), exchanges(posts - 1).intruder) ==>
                Safe()
      ensures (QuietFrom(old(tick)) && old(slot) == Some(current) && old(meta).row.Some? && old(meta).row.value.fingerprint == current.token) ==>
                status == Refreshed && slot == Some(successor)
    {
      hide Custody, StashOk, ProviderOk, OnlyAdds, Owed, Reinstates, Unspent, Provable, Exchanges, SlotAfter;
      ghost var before := Stashes();
      status := Settle(req, current, successor);
      if Custody(p, Some(current), before) && status != Unpersisted && !Reinstates(p, Some(current), exchanges(posts - 1).intruder) {
        SettlesSafely(p, provider, before, Stashes(), exchanges(posts - 1).intruder, slot, current, successor);
      }
    }

    /** No successor: an answer that decides nothing, or one that refuses the token. */
    method Declined(req: Request, current: Doc, c: Classified) returns (status: Status)
      requires saved.None? && !c.Successor?
      modifies this`tick, this`meta, this`saved
      ensures saved.None?
      ensures status != Refreshed && status != StashedLockLost && status != Unpersisted
      ensures status == Dead || status == CodexWon ==> c.Rejected? && slot == Some(current)
      ensures c == Failed ==> meta == old(meta)
    {
      if c.Rejected? {
        status := MarkRefused(req, current, c.reuse);
      } else {
        var f := Access();
        status := if f == Proceed then Transient else Threw;
      }
    }
  }

  /** Once the successor is durable, custody holds under the provider as it was or as it now is. */
  lemma SettlesSafely(p: Provider, q: Provider, before: set<Stash>, after: set<Stash>, w: Intruder, slot: Option<Doc>, current: Doc, successor: Doc)
    requires Custody(p, Some(current), before) && forall s :: s in before ==> s.consumed != current.token
    requires Exchanges(p, q, w, current.token, successor.token)
    requires OnlyAdds(before, after, Stash(successor, current.token)) && !Reinstates(p, Some(current), w)
    requires || slot == SlotAfter(p, Some(current), w) || slot == Some(successor)
             || (slot == Some(current) && Stash(successor, current.token) in after)
    requires slot == Some(successor) || Stash(successor, current.token) in after
    ensures Custody(q, slot, after)
  {
    OthersAreSafe(p, Some(current), before, w);
    NothingToAdopt(p, before, current);
    if q != Seen(p, w) { RotationOwes(Seen(p, w), before, current, successor); }
    SettledIsSafe(q, before, after, slot, current, successor);
  }

  // ----- runs -------------------------------------------------------------------------------------------------

  /** Something has happened that nobody can make good: reported, or outside the gate's reach. */
  ghost predicate Broken(b: Backend, statuses: seq<Status>)
    reads b`lostReply, b`reinstated
  {
    b.lostReply || b.reinstated || (statuses != [] && statuses[|statuses| - 1] == Unpersisted)
  }

  /**
   Over any sequence of calls, with other writers editing, replacing or removing the slot between
   the calls and while requests are on the wire, no exchanged token is ever sent again: until a
   call reports its successor unpersisted, the provider's answer to an exchange is lost on the
   wire, or another writer puts back a token that was exchanged before. Until then custody holds.
   No writer is one of the last kind who only edits, removes, or logs in anew.
   */
  method RunCalls(b: Backend, turns: seq<Turn>) returns (statuses: seq<Status>)
    requires b.saved.None? && b.Safe() && !b.replayed && !b.lostReply && !b.reinstated
    modifies b
    ensures !b.replayed && |statuses| <= |turns|
    ensures forall k :: 0 <= k < |statuses| - 1 ==> statuses[k] != Unpersisted
    ensures |statuses| < |turns| ==> Broken(b, statuses)
    ensures !Broken(b, statuses) ==> b.Safe()
    ensures (forall n :: Benign(b.exchanges(n).intruder)) && (forall t :: t in turns ==> Benign(t.before)) ==> !b.reinstated
    ensures (forall n :: b.exchanges(n).reply != LosesReply) ==> !b.lostReply
  {
    statuses := [];
    while |statuses| < |turns|
      invariant |statuses| <= |turns| && b.saved.None? && !b.replayed
      invariant forall k :: 0 <= k < |statuses| - 1 ==> statuses[k] != Unpersisted
      invariant !Broken(b, statuses) ==> b.Safe()
      invariant (forall n :: Benign(b.exchanges(n).intruder)) && (forall t :: t in turns ==> Benign(t.before)) ==> !b.reinstated
      invariant (forall n :: b.exchanges(n).reply != LosesReply) ==> !b.lostReply
      decreases |turns| - |statuses|
    {
      if b.lostReply || b.reinstated || (statuses != [] && statuses[|statuses| - 1] == Unpersisted) { return; }
      b.Interfere(turns[|statuses|].before);
      if b.reinstated { return; }
      ghost var current, successor;
      var status;
      status, current, successor := b.Consume(turns[|statuses|].req);
      statuses := statuses + [status];
    }
  }

  /** The failing input: an answer lost on the wire, and the next call sends the same token. */
  method LostReplyIsReplayed() returns (b: Backend, status: Status)
    ensures b.replayed
  {
    var req := Request(false, false, false, false, false);
    b := new Backend(_ => Proceed, _ => true, _ => Exchange(LosesReply, 0, Nobody), Doc(1, 0));
    ghost var current, successor;
    status, current, successor := b.Consume(req);
    status, current, successor := b.Consume(req);
  }
}
