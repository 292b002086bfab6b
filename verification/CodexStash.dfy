/**
 Where a Codex successor is stashed: an index of reservations, and bodies in the Keychain or in
 private files. An ordinary stash is reserved before its body is stored; an emergency one is a
 file first, found again even when its reservation never landed.
 */
module CodexStash {
  import opened Prelude

  type Token = nat

  /** An auth document: its refresh token, which is its fingerprint, and everything else. */
  datatype Doc = Doc(token: Token, content: nat)

  datatype Stash = Stash(doc: Doc, consumed: Token)

  datatype StashId = Regular(serial: nat) | Emergency(serial: nat)

  datatype Entry = Entry(id: StashId, consumed: Token)

  /** `serial` is above every id in use: ids never collide. */
  datatype Directory = Directory(index: seq<Entry>, keychain: map<StashId, Stash>, files: map<StashId, Stash>, serial: nat)

  function BodyOf(d: Directory, id: StashId): Option<Stash> {
    if id in d.keychain then Some(d.keychain[id]) else if id in d.files then Some(d.files[id]) else None
  }

  predicate Indexed(index: seq<Entry>, id: StashId) { exists k :: 0 <= k < |index| && index[k].id == id }

  predicate DirectoryOk(d: Directory) {
    && (forall e :: e in d.index ==> e.id.serial < d.serial && (BodyOf(d, e.id).Some? ==> BodyOf(d, e.id).value.consumed == e.consumed))
    && (forall id :: id in d.keychain ==> id.Regular? && id.serial < d.serial && (id in d.files ==> d.files[id] == d.keychain[id]))
    && (forall id :: id in d.files ==> id.serial < d.serial)
  }

  type Stashed = d: Directory | DirectoryOk(d) witness Directory([], map[], map[], 0)

  /** The body stands where a search will find it: reserved, or an emergency file. */
  ghost predicate Findable(d: Directory, id: StashId) {
    BodyOf(d, id).Some? && (Indexed(d.index, id) || id.Emergency?)
  }

  ghost predicate Holds(d: Directory, s: Stash) { exists id :: Findable(d, id) && BodyOf(d, id) == Some(s) }

  /** Every successor that a search can find. */
  ghost function Bodies(d: Directory): (r: set<Stash>)
    ensures forall s :: s in r <==> Holds(d, s)
  {
    var all := d.keychain.Values + d.files.Values;
    assert forall s :: Holds(d, s) ==> s in all;
    set s | s in all && Holds(d, s)
  }

  lemma SameBodies(a: Directory, b: Directory)
    requires forall id :: (Findable(a, id) <==> Findable(b, id)) && (Findable(a, id) ==> BodyOf(a, id) == BodyOf(b, id))
    ensures Bodies(a) == Bodies(b)
  {
    forall s ensures Holds(a, s) <==> Holds(b, s) {
      if Holds(a, s) {
        var id :| Findable(a, id) && BodyOf(a, id) == Some(s);
        assert Findable(b, id) && BodyOf(b, id) == Some(s);
      }
      if Holds(b, s) {
        var id :| Findable(b, id) && BodyOf(b, id) == Some(s);
        assert Findable(a, id) && BodyOf(a, id) == Some(s);
      }
    }
  }

  /** The id is new, or already stands for this very body. */
  lemma OneMoreBody(a: Directory, b: Directory, id: StashId, s: Stash)
    requires Findable(b, id) && BodyOf(b, id) == Some(s) && (Findable(a, id) ==> BodyOf(a, id) == Some(s))
    requires forall i :: i != id ==> (Findable(a, i) <==> Findable(b, i)) && (Findable(a, i) ==> BodyOf(a, i) == BodyOf(b, i))
    ensures Bodies(b) == Bodies(a) + {s}
  {
    forall t ensures Holds(b, t) <==> Holds(a, t) || t == s {
      if Holds(b, t) && t != s {
        var i :| Findable(b, i) && BodyOf(b, i) == Some(t);
        assert Findable(a, i) && BodyOf(a, i) == Some(t);
      }
      if Holds(a, t) {
        var i :| Findable(a, i) && BodyOf(a, i) == Some(t);
        assert Findable(b, i) && BodyOf(b, i) == Some(t);
      }
      if t == s { assert Holds(b, s); }
    }
  }

  lemma OneBodyLess(a: Directory, b: Directory, id: StashId, s: Stash)
    requires BodyOf(a, id).None? || BodyOf(a, id) == Some(s)
    requires Findable(b, id) ==> Findable(a, id) && BodyOf(a, id) == BodyOf(b, id)
    requires forall i :: i != id ==> (Findable(a, i) <==> Findable(b, i)) && (Findable(a, i) ==> BodyOf(a, i) == BodyOf(b, i))
    ensures forall t :: t in Bodies(b) ==> t in Bodies(a)
    ensures forall t :: t in Bodies(a) && t != s ==> t in Bodies(b)
  {
    forall t ensures (Holds(b, t) ==> Holds(a, t)) && (Holds(a, t) && t != s ==> Holds(b, t)) {
      if Holds(b, t) {
        var i :| Findable(b, i) && BodyOf(b, i) == Some(t);
        assert Findable(a, i) && BodyOf(a, i) == Some(t);
      }
      if Holds(a, t) && t != s {
        var i :| Findable(a, i) && BodyOf(a, i) == Some(t);
        assert Findable(b, i) && BodyOf(b, i) == Some(t);
      }
    }
  }

  // ----- the single effects ------------------------------------------------------------------------

  /** A reservation without a body is nothing to find. */
  function Reserved(d: Stashed, consumed: Token): (r: Stashed)
    ensures r.index == d.index + [Entry(Regular(d.serial), consumed)]
  {
    Directory(d.index + [Entry(Regular(d.serial), consumed)], d.keychain, d.files, d.serial + 1)
  }

  lemma ReservedBodies(d: Stashed, consumed: Token)
    ensures Bodies(Reserved(d, consumed)) == Bodies(d) && BodyOf(Reserved(d, consumed), Regular(d.serial)).None?
  {
    IndexedAppend(d.index, Entry(Regular(d.serial), consumed));
    SameBodies(d, Reserved(d, consumed));
  }

  lemma IndexedAppend(index: seq<Entry>, e: Entry)
    ensures forall id :: Indexed(index + [e], id) <==> Indexed(index, id) || id == e.id
  {
    forall id ensures Indexed(index + [e], id) <==> Indexed(index, id) || id == e.id {
      if Indexed(index, id) {
        var k :| 0 <= k < |index| && index[k].id == id;
        assert (index + [e])[k].id == id;
      }
      assert (index + [e])[|index|] == e;
    }
  }

  ghost predicate ReservedFor(d: Directory, id: StashId, s: Stash) {
    && id.serial < d.serial && Indexed(d.index, id) && (BodyOf(d, id).None? || BodyOf(d, id) == Some(s))
    && forall e :: e in d.index && e.id == id ==> e.consumed == s.consumed
  }

  function InKeychain(d: Stashed, id: StashId, s: Stash): Stashed
    requires ReservedFor(d, id, s) && id.Regular?
  {
    d.(keychain := d.keychain[id := s])
  }

  function InFile(d: Stashed, id: StashId, s: Stash): Stashed
    requires ReservedFor(d, id, s) && id.Regular?
  {
    d.(files := d.files[id := s])
  }

  lemma StoredBodies(d: Stashed, id: StashId, s: Stash)
    requires ReservedFor(d, id, s) && id.Regular?
    ensures Bodies(InKeychain(d, id, s)) == Bodies(d) + {s} && Bodies(InFile(d, id, s)) == Bodies(d) + {s}
    ensures ReservedFor(InKeychain(d, id, s), id, s) && ReservedFor(InFile(d, id, s), id, s)
  {
    OneMoreBody(d, InKeychain(d, id, s), id, s);
    OneMoreBody(d, InFile(d, id, s), id, s);
  }

  /** An emergency body needs no reservation. */
  function InEmergency(d: Stashed, s: Stash): Stashed {
    d.(files := d.files[Emergency(d.serial) := s], serial := d.serial + 1)
  }

  lemma EmergencyBodies(d: Stashed, s: Stash)
    ensures Bodies(InEmergency(d, s)) == Bodies(d) + {s}
  {
    OneMoreBody(d, InEmergency(d, s), Emergency(d.serial), s);
  }

  function Adopted(d: Stashed, id: StashId): Stashed
    requires id.Emergency? && id in d.files
  {
    d.(index := d.index + [Entry(id, d.files[id].consumed)])
  }

  lemma AdoptedBodies(d: Stashed, id: StashId)
    requires id.Emergency? && id in d.files
    ensures Bodies(Adopted(d, id)) == Bodies(d)
  {
    IndexedAppend(d.index, Entry(id, d.files[id].consumed));
    SameBodies(d, Adopted(d, id));
  }

  function RowsWithout(index: seq<Entry>, id: StashId): seq<Entry> {
    if index == [] then []
    else if index[0].id == id then RowsWithout(index[1..], id)
    else [index[0]] + RowsWithout(index[1..], id)
  }

  lemma {:induction false} RowsWithoutMembers(index: seq<Entry>, id: StashId)
    ensures forall e :: e in RowsWithout(index, id) <==> e in index && e.id != id
    ensures forall i :: Indexed(RowsWithout(index, id), i) <==> Indexed(index, i) && i != id
  {
    if index != [] {
      RowsWithoutMembers(index[1..], id);
      assert index == [index[0]] + index[1..];
      var rest := RowsWithout(index[1..], id);
      forall i ensures Indexed(RowsWithout(index, id), i) <==> Indexed(index, i) && i != id {
        IndexedPrepend(index[0], index[1..], i);
        IndexedPrepend(index[0], rest, i);
      }
    }
  }

  lemma IndexedPrepend(e: Entry, index: seq<Entry>, id: StashId)
    ensures Indexed([e] + index, id) <==> e.id == id || Indexed(index, id)
  {
    if Indexed(index, id) {
      var k :| 0 <= k < |index| && index[k].id == id;
      assert ([e] + index)[k + 1].id == id;
    }
    assert ([e] + index)[0] == e;
  }

  /** Dropping a reservation whose body is nowhere. */
  function Dropped(d: Stashed, id: StashId): Stashed {
    RowsWithoutMembers(d.index, id);
    d.(index := RowsWithout(d.index, id))
  }

  lemma DroppedBodies(d: Stashed, id: StashId)
    requires BodyOf(d, id).None?
    ensures Bodies(Dropped(d, id)) == Bodies(d)
  {
    RowsWithoutMembers(d.index, id);
    SameBodies(d, Dropped(d, id));
  }

  /** Removing a body: only that stash, and only if no other copy of it is left. */
  function WithoutKeychain(d: Stashed, id: StashId): Stashed { d.(keychain := d.keychain - {id}) }

  function WithoutFile(d: Stashed, id: StashId): Stashed { d.(files := d.files - {id}) }

  lemma RemovedBodies(d: Stashed, id: StashId, s: Stash)
    requires BodyOf(d, id).None? || BodyOf(d, id) == Some(s)
    ensures forall t :: t in Bodies(WithoutKeychain(d, id)) ==> t in Bodies(d)
    ensures forall t :: t in Bodies(d) && t != s ==> t in Bodies(WithoutKeychain(d, id))
    ensures forall t :: t in Bodies(WithoutFile(d, id)) ==> t in Bodies(d)
    ensures forall t :: t in Bodies(d) && t != s ==> t in Bodies(WithoutFile(d, id))
    ensures BodyOf(WithoutKeychain(d, id), id).None? || BodyOf(WithoutKeychain(d, id), id) == Some(s)
  {
    OneBodyLess(d, WithoutKeychain(d, id), id, s);
    OneBodyLess(d, WithoutFile(d, id), id, s);
  }

  lemma ReservationIsFor(d: Stashed, s: Stash)
    ensures ReservedFor(Reserved(d, s.consumed), Regular(d.serial), s)
  {
    IndexedAppend(d.index, Entry(Regular(d.serial), s.consumed));
    ReservedBodies(d, s.consumed);
  }

  // ----- what a search sees ---------------------------------------------------------------------------

  lemma FoundIsHeld(d: Stashed, k: nat, s: Stash)
    requires k < |d.index| && BodyOf(d, d.index[k].id) == Some(s)
    ensures s in Bodies(d) && s.consumed == d.index[k].consumed
  {
    assert Indexed(d.index, d.index[k].id);
    assert Holds(d, s);
  }

  /** All matching reservations bare, and all matching emergency files reserved: nothing is there. */
  lemma NothingIsHeld(d: Stashed, consumed: Token)
    requires forall j :: 0 <= j < |d.index| && d.index[j].consumed == consumed ==> BodyOf(d, d.index[j].id).None?
    requires forall id :: id in d.files && id.Emergency? && d.files[id].consumed == consumed ==> Indexed(d.index, id)
    ensures forall s :: s in Bodies(d) ==> s.consumed != consumed
  {
    forall s | Holds(d, s) ensures s.consumed != consumed {
      var id :| Findable(d, id) && BodyOf(d, id) == Some(s);
    }
  }
}
