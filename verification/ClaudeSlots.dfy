/**
 The Claude slot store: two Keychain items an account, a database row, its lineage log and a
 generation, written together although no transaction spans the two stores. Every access may
 fail before or after taking effect; a failed operation compensates the Keychain from the
 pre-image it read.
 */
module ClaudeSlots {
  import opened Prelude

  type Fp = nat

  /** Which of the two tokens a credential has; torn when it has no OAuth block at all. */
  datatype Shape = Whole | NoAccess | NoRefresh | Torn

  /**
   A stored credential: its refresh lineage (None for empty text), its expiry, its machine-shared
   fields when it parses, and its other bytes.
   */
  datatype Cred = Cred(fp: Option<Fp>, expires: Option<int>, shape: Shape, shared: Option<nat>, own: nat)

  datatype Row = Row(fp: Option<Fp>, prevFp: Option<Fp>, dead: bool, archived: bool)

  datatype Edge = Edge(account: string, from: Option<Fp>, to: Fp)

  /** `struck` holds, for each account, the lineage its latest dead mark was recorded for. */
  datatype Meta = Meta(rows: map<string, Row>, log: seq<Edge>, struck: map<string, Fp>, generation: nat)

  datatype Fault = Proceed | FailBefore | FailAfter

  predicate Lands(f: Fault) { f != FailBefore }

  /** What a rollback puts back, and what must be there for it to dare to. */
  datatype Hook = Hook(
    id: string, current: Option<Cred>, expectedCurrent: Option<Cred>,
    both: bool, previous: Option<Cred>, expectedPrevious: Option<Cred>)

  function Item(m: map<string, Cred>, id: string): Option<Cred> { if id in m then Some(m[id]) else None }

  function Put(m: map<string, Cred>, id: string, v: Option<Cred>): map<string, Cred> {
    if v.Some? then m[id := v.value] else m - {id}
  }

  // ----- the database effects -----------------------------------------------------------

  function Created(m: Meta, id: string, fp: Fp): Option<Meta> {
    if id in m.rows then None
    else Some(m.(rows := m.rows[id := Row(Some(fp), None, false, false)], log := m.log + [Edge(id, None, fp)], generation := m.generation + 1))
  }

  /** A lineage change heals a dead row; a change of bytes alone does not. */
  function Updated(m: Meta, id: string, expected: Option<Fp>, fp: Fp, prevFp: Option<Fp>, edge: bool): Option<Meta> {
    if id !in m.rows || m.rows[id].fp != expected then None
    else
      var heals := m.rows[id].dead && edge && Some(fp) != expected;
      Some(m.(rows := m.rows[id := m.rows[id].(fp := Some(fp), prevFp := prevFp, dead := m.rows[id].dead && !heals)],
              log := if edge then m.log + [Edge(id, expected, fp)] else m.log,
              generation := m.generation + 1))
  }

  function Removed(m: Meta, id: string): Option<Meta> {
    Some(m.(rows := m.rows - {id}, generation := m.generation + 1))
  }

  /** Adding starts a lineage afresh, also over an archived row; replacing continues it. */
  function Added(m: Meta, id: string, fp: Fp, replace: bool, advance: bool): Option<Meta> {
    if replace then
      if id !in m.rows then None
      else
        var row := m.rows[id];
        Some(m.(rows := m.rows[id := Row(Some(fp), if advance then row.fp else row.prevFp, false, false)],
                log := if row.fp != Some(fp) then m.log + [Edge(id, row.fp, fp)] else m.log,
                generation := m.generation + 1))
    else if id in m.rows && !m.rows[id].archived then None
    else Some(m.(rows := m.rows[id := Row(Some(fp), None, false, false)], log := m.log + [Edge(id, None, fp)], generation := m.generation + 1))
  }

  datatype Strike = Struck | AlreadyDead | LineageMoved

  function StrikeOf(m: Meta, id: string, fp: Fp): Strike {
    if id !in m.rows || m.rows[id].fp != Some(fp) then LineageMoved
    else if m.rows[id].dead then AlreadyDead else Struck
  }

  function Marked(m: Meta, id: string, fp: Fp): Option<Meta> {
    if StrikeOf(m, id, fp) != Struck then Some(m)
    else Some(m.(rows := m.rows[id := m.rows[id].(dead := true)], struck := m.struck[id := fp], generation := m.generation + 1))
  }

  predicate LineageFree(m: Meta, id: string, fp: Fp) {
    forall other :: other in m.rows && other != id && !m.rows[other].archived ==> m.rows[other].fp != Some(fp)
  }

  /** Bytes unchanged under the recorded lineage: nothing to write. */
  predicate AlreadyWritten(m: Meta, c: Cred, id: string, existing: Option<Cred>) {
    id in m.rows && m.rows[id].fp == c.fp && existing == Some(c)
  }

  predicate SavesExisting(c: Cred, existing: Option<Cred>) { existing.Some? && existing != Some(c) }

  function WriteEffect(m: Meta, id: string, c: Cred, existing: Option<Cred>): Option<Meta> {
    if id !in m.rows || c.fp.None? then None
    else if AlreadyWritten(m, c, id, existing) then Some(m)
    else
      var row := m.rows[id];
      Updated(m, id, row.fp, c.fp.value, if row.fp != c.fp || SavesExisting(c, existing) then row.fp else row.prevFp, row.fp != c.fp)
  }

  function AddEffect(m: Meta, id: string, c: Cred, replace: bool, existing: Option<Cred>): Option<Meta> {
    if c.fp.None? then None
    else
      Added(m, id, c.fp.value, replace,
            id in m.rows && ((replace && SavesExisting(c, existing)) || m.rows[id].fp != c.fp))
  }

  /** A replaced credential becomes the predecessor copy; a reactivated slot starts without one. */
  function PreviousAfterAdd(m: Meta, id: string, c: Cred, replace: bool, existing: Option<Cred>, previous: Option<Cred>): Option<Cred> {
    if replace && SavesExisting(c, existing) then existing
    else if !replace && id in m.rows then None
    else previous
  }

  // ----- what the store keeps -----------------------------------------------------------------

  /** Every live row names the lineage of its Keychain item. */
  ghost predicate Consistent(m: Meta, cur: map<string, Cred>) {
    forall id :: id in m.rows && !m.rows[id].archived ==> id in cur && m.rows[id].fp.Some? && cur[id].fp == m.rows[id].fp
  }

  /** Where an account's log has come to. */
  function Last(log: seq<Edge>, id: string): Option<Fp> {
    if log == [] then None
    else if log[|log| - 1].account == id then Some(log[|log| - 1].to)
    else Last(log[..|log| - 1], id)
  }

  /** Each edge continues its account's log or starts afresh, and goes somewhere. */
  ghost predicate EdgeOk(log: seq<Edge>, k: nat)
    requires k < |log|
  {
    && log[k].from != Some(log[k].to)
    && (log[k].from.None? || log[k].from == Last(log[..k], log[k].account))
  }

  /** The log is a chain that ends at every row, and every dead mark is for the row's own lineage. */
  ghost predicate Chained(m: Meta) {
    && (forall k :: 0 <= k < |m.log| ==> EdgeOk(m.log, k))
    && (forall id :: id in m.rows && m.rows[id].fp.Some? ==> m.rows[id].fp == Last(m.log, id))
    && (forall id :: id in m.rows && m.rows[id].dead ==> id in m.struck && m.rows[id].fp == Some(m.struck[id]))
  }

  lemma AppendChains(m: Meta, rows: map<string, Row>, e: Edge, generation: nat)
    requires Chained(m) && e.from != Some(e.to) && (e.from.None? || e.from == Last(m.log, e.account))
    requires e.account in rows && rows[e.account].fp == Some(e.to) && !rows[e.account].dead
    requires forall id :: id in rows && id != e.account ==> id in m.rows && rows[id] == m.rows[id]
    ensures Chained(m.(rows := rows, log := m.log + [e], generation := generation))
  {
    var log := m.log + [e];
    assert log[..|m.log|] == m.log;
    forall k | 0 <= k < |log| ensures EdgeOk(log, k) {
      if k < |m.log| {
        assert log[..k] == m.log[..k];
        assert EdgeOk(m.log, k);
      }
    }
  }

  lemma CreateChains(m: Meta, id: string, fp: Fp)
    requires Chained(m) && Created(m, id, fp).Some?
    ensures Chained(Created(m, id, fp).value)
  {
    AppendChains(m, m.rows[id := Row(Some(fp), None, false, false)], Edge(id, None, fp), m.generation + 1);
  }

  lemma UpdateChains(m: Meta, id: string, fp: Fp, prevFp: Option<Fp>)
    requires Chained(m) && id in m.rows
    ensures var after := Updated(m, id, m.rows[id].fp, fp, prevFp, m.rows[id].fp != Some(fp)); after.Some? && Chained(after.value)
  {
    var row := m.rows[id];
    if row.fp != Some(fp) {
      AppendChains(m, m.rows[id := row.(fp := Some(fp), prevFp := prevFp, dead := false)], Edge(id, row.fp, fp), m.generation + 1);
    }
  }

  lemma RemoveChains(m: Meta, id: string)
    requires Chained(m)
    ensures Chained(Removed(m, id).value)
  {
  }

  lemma AddChains(m: Meta, id: string, fp: Fp, replace: bool, advance: bool)
    requires Chained(m) && Added(m, id, fp, replace, advance).Some?
    ensures Chained(Added(m, id, fp, replace, advance).value)
  {
    if !replace {
      AppendChains(m, m.rows[id := Row(Some(fp), None, false, false)], Edge(id, None, fp), m.generation + 1);
    } else {
      var row := m.rows[id];
      if row.fp != Some(fp) {
        AppendChains(m, m.rows[id := Row(Some(fp), if advance then row.fp else row.prevFp, false, false)], Edge(id, row.fp, fp), m.generation + 1);
      }
    }
  }

  lemma MarkChains(m: Meta, id: string, fp: Fp)
    requires Chained(m)
    ensures Chained(Marked(m, id, fp).value)
  {
  }

  /** Putting back what a half-done write replaced gives back the store it started from. */
  lemma RestoreUndoes(before: map<string, Cred>, now: map<string, Cred>, id: string, expected: Option<Cred>)
    requires now == before || now == Put(before, id, expected)
    ensures (if Item(now, id) == expected then Put(now, id, Item(before, id)) else now) == before
  {
  }

  // ----- the store -------------------------------------------------------------------------------

  class SlotStore {
    const faults: nat -> Fault
    var tick: nat
    var cur: map<string, Cred>
    var prev: map<string, Cred>
    var meta: Meta
    /** The metadata to go back to while a transaction is open. */
    var saved: Option<Meta>

    constructor (faults: nat -> Fault)
      ensures saved.None? && meta == Meta(map[], [], map[], 0) && cur == map[] && prev == map[]
      ensures this.faults == faults && tick == 0
    {
      this.faults := faults;
      tick, cur, prev, meta, saved := 0, map[], map[], Meta(map[], [], map[], 0), None;
    }

    ghost predicate QuietFrom(t: nat) {
      forall n :: n >= t ==> faults(n) == Proceed
    }

    /** Every access from the first tick up to the second goes through. */
    ghost predicate Proceeds(first: nat, past: nat) {
      forall n :: first <= n < past ==> faults(n) == Proceed
    }

    method Access() returns (f: Fault)
      modifies this`tick
      ensures f == faults(old(tick)) && tick == old(tick) + 1
    {
      f := faults(tick);
      tick := tick + 1;
    }

    method ReadCurrent(id: string) returns (ok: bool, v: Option<Cred>)
      modifies this`tick
      ensures ok ==> v == Item(cur, id)
      ensures ok == (faults(old(tick)) == Proceed) && tick == old(tick) + 1
    {
      var f := Access();
      ok, v := f == Proceed, Item(cur, id);
    }

    method ReadPrevious(id: string) returns (ok: bool, v: Option<Cred>)
      modifies this`tick
      ensures ok ==> v == Item(prev, id)
      ensures ok == (faults(old(tick)) == Proceed) && tick == old(tick) + 1
    {
      var f := Access();
      ok, v := f == Proceed, Item(prev, id);
    }

    /** Write an item, or delete it; deleting an absent one succeeds. */
    method SetCurrent(id: string, v: Option<Cred>) returns (ok: bool)
      modifies this`tick, this`cur
      ensures ok == (faults(old(tick)) == Proceed) && tick == old(tick) + 1
      ensures cur == if Lands(faults(old(tick))) then Put(old(cur), id, v) else old(cur)
    {
      var f := Access();
      if Lands(f) { cur := Put(cur, id, v); }
      ok := f == Proceed;
    }

    method SetPrevious(id: string, v: Option<Cred>) returns (ok: bool)
      modifies this`tick, this`prev
      ensures ok == (faults(old(tick)) == Proceed) && tick == old(tick) + 1
      ensures prev == if Lands(faults(old(tick))) then Put(old(prev), id, v) else old(prev)
    {
      var f := Access();
      if Lands(f) { prev := Put(prev, id, v); }
      ok := f == Proceed;
    }

    method Begin() returns (ok: bool)
      requires saved.None?
      modifies this`tick, this`saved
      ensures ok == (faults(old(tick)) == Proceed) && tick == old(tick) + 1
      ensures saved == if ok then Some(meta) else None
    {
      var f := Access();
      ok := f == Proceed;
      if ok { saved := Some(meta); }
    }

    /** A repository statement; an effect that is None throws without doing anything. */
    method Execute(update: Option<Meta>) returns (ok: bool)
      modifies this`tick, this`meta
      ensures ok == (faults(old(tick)) == Proceed && update.Some?) && tick == old(tick) + 1
      ensures meta == if Lands(faults(old(tick))) && update.Some? then update.value else old(meta)
    {
      var f := Access();
      if Lands(f) && update.Some? { meta := update.value; }
      ok := f == Proceed && update.Some?;
    }

    // ----- compensation ----------------------------------------------------------------------

    /** Put the pre-image back, but only over exactly what this operation wrote. */
    method RestorePair(h: Hook) returns (healed: bool)
      modifies this`tick, this`cur, this`prev
      ensures healed ==> cur == if Item(old(cur), h.id) == h.expectedCurrent then Put(old(cur), h.id, h.current) else old(cur)
      ensures healed ==> prev == if h.both && Item(old(prev), h.id) == h.expectedPrevious then Put(old(prev), h.id, h.previous) else old(prev)
      ensures cur == old(cur) || (Item(old(cur), h.id) == h.expectedCurrent && cur == Put(old(cur), h.id, h.current))
      ensures QuietFrom(old(tick)) ==> healed
      ensures tick >= old(tick)
    {
      var ok, actual := ReadCurrent(h.id);
      if !ok { return false; }
      if actual == h.expectedCurrent {
        ok := SetCurrent(h.id, h.current);
        if !ok { return false; }
      }
      if !h.both { return true; }
      ok, actual := ReadPrevious(h.id);
      if !ok { return false; }
      if actual == h.expectedPrevious {
        ok := SetPrevious(h.id, h.previous);
      }
      healed := ok;
    }

    /** The half-done Keychain writes a hook can undo. */
    ghost predicate Between(h: Option<Hook>, cur0: map<string, Cred>, prev0: map<string, Cred>)
      reads this`cur, this`prev
    {
      if h.None? then cur == cur0 && prev == prev0
      else
        && (cur == cur0 || cur == Put(cur0, h.value.id, h.value.expectedCurrent))
        && h.value.current == Item(cur0, h.value.id)
        && (if h.value.both
            then (prev == prev0 || prev == Put(prev0, h.value.id, h.value.expectedPrevious)) && h.value.previous == Item(prev0, h.value.id)
            else prev == prev0)
    }

    /**
     Commit, or roll the database back and run the hook. `landed` is a commit that took effect
     and then threw: the metadata is then the new although the operation failed. A hook that
     ran to its end leaves the Keychain exactly as it was.
     */
    method Conclude(done: bool, hook: Option<Hook>, ghost cur0: map<string, Cred>, ghost prev0: map<string, Cred>)
      returns (ok: bool, healed: bool, ghost landed: bool)
      requires saved.Some? && Between(hook, cur0, prev0)
      modifies this`tick, this`cur, this`prev, this`meta, this`saved
      ensures saved.None? && tick >= old(tick) && (landed ==> done && !ok)
      ensures ok ==> done && meta == old(meta) && cur == old(cur) && prev == old(prev)
      ensures !ok ==> meta == if landed then old(meta) else old(saved).value
      ensures !ok && healed ==> cur == cur0 && prev == prev0
      ensures hook.None? ==> cur == old(cur) && prev == old(prev)
      ensures hook.Some? ==> cur == cur0 || cur == Put(cur0, hook.value.id, hook.value.expectedCurrent)
      ensures done && QuietFrom(old(tick)) ==> ok
      ensures ok <==> done && faults(old(tick)) == Proceed
      ensures ok ==> tick == old(tick) + 1
      ensures !done && QuietFrom(old(tick)) ==> healed
      ensures done && QuietFrom(old(tick) + 1) && !ok ==> healed && (landed <==> faults(old(tick)) == FailAfter)
    {
      ok, landed := false, false;
      if done {
        var f := Access();
        ok := f == Proceed;
        landed := f == FailAfter;
        if Lands(f) { saved := None; }
      }
      if ok { return ok, true, landed; }
      if saved.Some? { meta := saved.value; }
      saved := None;
      healed := true;
      if hook.Some? {
        RestoreUndoes(cur0, cur, hook.value.id, hook.value.expectedCurrent);
        if hook.value.both { RestoreUndoes(prev0, prev, hook.value.id, hook.value.expectedPrevious); }
        healed := RestorePair(hook.value);
      }
    }

    // ----- operations ---------------------------------------------------------------------------

    method CreateSlot(id: string, c: Cred) returns (ok: bool, healed: bool, ghost landed: bool)
      requires saved.None?
      modifies this`tick, this`cur, this`prev, this`meta, this`saved
      ensures saved.None? && tick >= old(tick)
      ensures c.fp.Some? && id !in old(meta).rows && LineageFree(old(meta), id, c.fp.value) && id !in old(cur) && Proceeds(old(tick), old(tick) + 4) ==>
                && (faults(old(tick) + 4) == Proceed ==> ok && tick == old(tick) + 5)
                && (faults(old(tick) + 4) == FailAfter && QuietFrom(old(tick) + 5) ==> !ok && healed && landed)
      ensures ok ==> c.fp.Some? && LineageFree(old(meta), id, c.fp.value) && id !in old(cur)
                     && Created(old(meta), id, c.fp.value) == Some(meta) && cur == old(cur)[id := c] && prev == old(prev)
      ensures !ok && healed ==> cur == old(cur) && prev == old(prev)
      ensures !ok ==> if landed then c.fp.Some? && id !in old(cur) && Created(old(meta), id, c.fp.value) == Some(meta) else meta == old(meta)
    {
      landed, healed := false, true;
      ok := Begin();
      if !ok { return; }
      var hook: Option<Hook> := None;
      var done := c.fp.Some? && id !in meta.rows && LineageFree(meta, id, c.fp.value);
      if done {
        var existing;
        done, existing := ReadCurrent(id);
        done := done && existing.None?;
        if done {
          hook := Some(Hook(id, None, Some(c), false, None, None));
          done := SetCurrent(id, Some(c));
          if done { done := Execute(Created(meta, id, c.fp.value)); }
        }
      }
      ok, healed, landed := Conclude(done, hook, old(cur), old(prev));
    }

    /** The predecessor copy, then the item, then the row and its lineage; the row is the authority. */
    method WriteBody(id: string, c: Cred) returns (done: bool, hook: Option<Hook>)
      modifies this`tick, this`cur, this`prev, this`meta
      ensures Between(hook, old(cur), old(prev)) && tick >= old(tick)
      ensures hook.Some? ==> hook.value.id == id && hook.value.expectedCurrent == Some(c)
      ensures old(meta).rows.Keys == meta.rows.Keys
      ensures done ==> WriteEffect(old(meta), id, c, Item(old(cur), id)) == Some(meta) && cur == old(cur)[id := c]
      ensures done ==> prev == if SavesExisting(c, Item(old(cur), id)) then Put(old(prev), id, Item(old(cur), id)) else old(prev)
      ensures QuietFrom(old(tick)) && id in old(meta).rows && c.fp.Some? ==> done
    {
      hook := None;
      if id !in meta.rows || c.fp.None? { return false, hook; }
      var existing, previous;
      done, existing := ReadCurrent(id);
      if !done { return; }
      if AlreadyWritten(meta, c, id, existing) { return true, hook; }
      done, previous := ReadPrevious(id);
      if !done { return; }
      var saves := SavesExisting(c, existing);
      hook := Some(Hook(id, existing, Some(c), true, previous, if saves then existing else previous));
      if saves {
        done := SetPrevious(id, existing);
        if !done { return; }
      }
      done := SetCurrent(id, Some(c));
      if done { done := Execute(WriteEffect(meta, id, c, existing)); }
    }

    method WriteSlot(id: string, c: Cred) returns (ok: bool, healed: bool, ghost landed: bool)
      requires saved.None?
      modifies this`tick, this`cur, this`prev, this`meta, this`saved
      ensures saved.None? && tick >= old(tick)
      ensures ok ==> WriteEffect(old(meta), id, c, Item(old(cur), id)) == Some(meta) && cur == old(cur)[id := c]
                     && prev == if SavesExisting(c, Item(old(cur), id)) then Put(old(prev), id, Item(old(cur), id)) else old(prev)
      ensures !ok && healed ==> cur == old(cur) && prev == old(prev)
      ensures !ok ==> if landed then WriteEffect(old(meta), id, c, Item(old(cur), id)) == Some(meta) else meta == old(meta)
      ensures (cur == old(cur) || cur == old(cur)[id := c]) && old(meta).rows.Keys == meta.rows.Keys
      ensures QuietFrom(old(tick)) && id in old(meta).rows && c.fp.Some? ==> ok
    {
      landed, healed := false, true;
      ok := Begin();
      if !ok { return; }
      var done, hook := WriteBody(id, c);
      ok, healed, landed := Conclude(done, hook, old(cur), old(prev));
    }

    /** Persist a login: a new slot, a reactivated one, or the replacement of a live one. */
    method ApplyAdd(id: string, c: Cred, replace: bool) returns (ok: bool, healed: bool, ghost landed: bool)
      requires saved.None?
      modifies this`tick, this`cur, this`prev, this`meta, this`saved
      ensures saved.None? && tick >= old(tick)
      ensures ok || landed ==> c.fp.Some? && (replace || id !in old(cur))
      ensures ok ==> AddEffect(old(meta), id, c, replace, Item(old(cur), id)) == Some(meta) && cur == old(cur)[id := c]
      ensures ok ==> prev == Put(old(prev), id, PreviousAfterAdd(old(meta), id, c, replace, Item(old(cur), id), Item(old(prev), id)))
      ensures !ok && healed ==> cur == old(cur) && prev == old(prev)
      ensures !ok ==> if landed then AddEffect(old(meta), id, c, replace, Item(old(cur), id)) == Some(meta) else meta == old(meta)
    {
      landed, healed := false, true;
      ok := Begin();
      if !ok { return; }
      var done, hook := AddBody(id, c, replace);
      ok, healed, landed := Conclude(done, hook, old(cur), old(prev));
    }

    method AddBody(id: string, c: Cred, replace: bool) returns (done: bool, hook: Option<Hook>)
      modifies this`tick, this`cur, this`prev, this`meta
      ensures Between(hook, old(cur), old(prev)) && tick >= old(tick)
      ensures done ==> c.fp.Some? && (replace || id !in old(cur)) && cur == old(cur)[id := c]
      ensures done ==> AddEffect(old(meta), id, c, replace, Item(old(cur), id)) == Some(meta)
      ensures done ==> prev == Put(old(prev), id, PreviousAfterAdd(old(meta), id, c, replace, Item(old(cur), id), Item(old(prev), id)))
    {
      hook := None;
      if c.fp.None? || (if replace then id !in meta.rows else id in meta.rows && !meta.rows[id].archived) { return false, hook; }
      var kept := id in meta.rows && meta.rows[id].fp == c.fp;
      if !kept && !LineageFree(meta, id, c.fp.value) { return false, hook; }
      var existing, previous;
      done, existing := ReadCurrent(id);
      if !done { return; }
      if !replace && existing.Some? { return false, hook; }
      done, previous := ReadPrevious(id);
      if !done { return; }
      if !(replace && kept && existing == Some(c)) {
        var saves := replace && SavesExisting(c, existing);
        var clears := !replace && id in meta.rows && previous.Some?;
        var kept_ := if saves then existing else if clears then None else previous;
        hook := Some(Hook(id, existing, Some(c), true, previous, kept_));
        if saves || clears {
          done := SetPrevious(id, kept_);
          if !done { return; }
        }
        done := SetCurrent(id, Some(c));
        if !done { return; }
      }
      done := Execute(AddEffect(meta, id, c, replace, existing));
    }

    method DeleteSlot(id: string) returns (ok: bool, healed: bool, ghost landed: bool)
      requires saved.None?
      modifies this`tick, this`cur, this`prev, this`meta, this`saved
      ensures saved.None? && tick >= old(tick)
      ensures ok ==> id in old(meta).rows && Removed(old(meta), id) == Some(meta) && cur == old(cur) - {id} && prev == old(prev) - {id}
      ensures !ok && healed ==> cur == old(cur) && prev == old(prev)
      ensures !ok ==> if landed then id in old(meta).rows && Removed(old(meta), id) == Some(meta) else meta == old(meta)
    {
      landed, healed := false, true;
      ok := Begin();
      if !ok { return; }
      var hook: Option<Hook> := None;
      var done := id in meta.rows;
      var current, previous;
      if done {
        done, current := ReadCurrent(id);
        if done {
          done, previous := ReadPrevious(id);
          if done {
            hook := Some(Hook(id, current, None, true, previous, None));
            done := SetCurrent(id, None);
            if done { done := SetPrevious(id, None); }
            if done { done := Execute(Removed(meta, id)); }
          }
        }
      }
      ok, healed, landed := Conclude(done, hook, old(cur), old(prev));
    }

    /** A dead mark lands only on the lineage it was decided for. */
    method StrikeDead(id: string, fp: Fp) returns (ok: bool, outcome: Strike, ghost landed: bool)
      requires saved.None?
      modifies this`tick, this`cur, this`prev, this`meta, this`saved
      ensures saved.None? && tick >= old(tick) && cur == old(cur) && prev == old(prev)
      ensures ok ==> outcome == StrikeOf(old(meta), id, fp) && Some(meta) == Marked(old(meta), id, fp)
      ensures !ok ==> meta == if landed then Marked(old(meta), id, fp).value else old(meta)
    {
      outcome := StrikeOf(meta, id, fp);
      landed := false;
      ok := Begin();
      if !ok { return; }
      var done := Execute(Marked(meta, id, fp));
      var healed;
      ok, healed, landed := Conclude(done, None, old(cur), old(prev));
    }
  }

  // ----- runs ----------------------------------------------------------------------------------------

  datatype Op =
    | Create(id: string, c: Cred)
    | Write(id: string, c: Cred)
    | Add(id: string, c: Cred, replace: bool)
    | Delete(id: string)
    | MarkDead(id: string, fp: Fp)

  /** The metadata an operation commits. */
  ghost predicate Commits(m: Meta, op: Op, cur: map<string, Cred>, after: Meta) {
    match op
    case Create(id, c) => c.fp.Some? && Created(m, id, c.fp.value) == Some(after)
    case Write(id, c) => WriteEffect(m, id, c, Item(cur, id)) == Some(after)
    case Add(id, c, replace) => AddEffect(m, id, c, replace, Item(cur, id)) == Some(after)
    case Delete(id) => Removed(m, id) == Some(after)
    case MarkDead(id, fp) => Marked(m, id, fp) == Some(after)
  }

  /** The Keychain item already holds the lineage the operation records, or it records none. */
  predicate KeepsLineage(m: Meta, op: Op, cur: map<string, Cred>) {
    match op
    case Create(id, c) => id in cur && cur[id].fp == c.fp
    case Write(id, c) => id in m.rows && (m.rows[id].archived || (id in cur && cur[id].fp == c.fp))
    case Add(id, c, _) => id in cur && cur[id].fp == c.fp
    case Delete(_) => true
    case MarkDead(_, _) => true
  }

  /**
   After a commit that landed and threw, the Keychain having been put back, every live row is
   right exactly if the operation did not change the lineage; one that creates or revives a row
   over an absent item always leaves a row that names a lineage found nowhere.
   */
  lemma LandedIff(m: Meta, op: Op, cur: map<string, Cred>, after: Meta)
    requires Consistent(m, cur) && Commits(m, op, cur, after)
    ensures Consistent(after, cur) <==> KeepsLineage(m, op, cur)
  {
    match op
    case Create(id, c) => OneRowDecides(m, cur, id, after);
    case Write(id, c) => OneRowDecides(m, cur, id, after);
    case Add(id, c, replace) => OneRowDecides(m, cur, id, after);
    case Delete(id) =>
    case MarkDead(id, fp) => if after != m { OneRowDecides(m, cur, id, after); }
  }

  /** What an operation that succeeds leaves in the Keychain. */
  function ItemsAfter(op: Op, cur: map<string, Cred>): map<string, Cred> {
    match op
    case Create(id, c) => cur[id := c]
    case Write(id, c) => cur[id := c]
    case Add(id, c, _) => cur[id := c]
    case Delete(id) => cur - {id}
    case MarkDead(_, _) => cur
  }

  lemma DoneIsConsistent(m: Meta, op: Op, cur: map<string, Cred>, after: Meta)
    requires Consistent(m, cur) && Commits(m, op, cur, after)
    ensures Consistent(after, ItemsAfter(op, cur))
  {
  }

  lemma OneRowDecides(m: Meta, cur: map<string, Cred>, id: string, after: Meta)
    requires Consistent(m, cur) && id in after.rows && after.rows == m.rows[id := after.rows[id]]
    ensures Consistent(after, cur) <==>
              (!after.rows[id].archived ==> id in cur && after.rows[id].fp.Some? && cur[id].fp == after.rows[id].fp)
  {
    forall other | other in after.rows && other != id ensures other in m.rows && after.rows[other] == m.rows[other] {}
  }

  /** Whatever an operation did to the metadata, the chain holds. */
  lemma OpKeepsChain(m: Meta, after: Meta, op: Op, cur: map<string, Cred>)
    requires Chained(m) && (after == m || Commits(m, op, cur, after))
    ensures Chained(after)
  {
    hide Chained;
    if after != m {
      match op
      case Create(id, c) => CreateChains(m, id, c.fp.value);
      case Write(id, c) =>
        var row := m.rows[id];
        UpdateChains(m, id, c.fp.value, if row.fp != c.fp || SavesExisting(c, Item(cur, id)) then row.fp else row.prevFp);
      case Add(id, c, replace) =>
        AddChains(m, id, c.fp.value, replace, id in m.rows && ((replace && SavesExisting(c, Item(cur, id))) || m.rows[id].fp != c.fp));
      case Delete(id) => RemoveChains(m, id);
      case MarkDead(id, fp) => MarkChains(m, id, fp);
    }
  }

  /**
   One operation. A failed one whose compensation ran to its end leaves every live row right
   unless its commit had landed; then exactly if it did not change the lineage.
   */
  method Perform(s: SlotStore, op: Op) returns (ok: bool, healed: bool, ghost landed: bool)
    requires s.saved.None? && Chained(s.meta)
    modifies s
    ensures s.saved.None? && Chained(s.meta)
    ensures (ok || (healed && !landed)) && old(Consistent(s.meta, s.cur)) ==> Consistent(s.meta, s.cur)
    ensures !ok && healed && landed && old(Consistent(s.meta, s.cur)) ==>
              (Consistent(s.meta, s.cur) <==> old(KeepsLineage(s.meta, op, s.cur)))
  {
    hide Chained, KeepsLineage, Consistent;
    ghost var m, cur := s.meta, s.cur;
    ok, healed, landed := false, true, false;
    match op {
      case Create(id, c) => ok, healed, landed := s.CreateSlot(id, c);
      case Write(id, c) => ok, healed, landed := s.WriteSlot(id, c);
      case Add(id, c, replace) => ok, healed, landed := s.ApplyAdd(id, c, replace);
      case Delete(id) => ok, healed, landed := s.DeleteSlot(id);
      case MarkDead(id, fp) =>
        var outcome;
        ok, outcome, landed := s.StrikeDead(id, fp);
    }
    OpKeepsChain(m, s.meta, op, cur);
    if ok && Consistent(m, cur) { DoneIsConsistent(m, op, cur, s.meta); }
    if landed && Consistent(m, cur) { LandedIff(m, op, cur, s.meta); }
  }

  /** The failing input: the fifth access is the commit of a first login, which lands and throws. */
  method LandedCommitSplits() returns (s: SlotStore)
    ensures !Consistent(s.meta, s.cur)
  {
    s := new SlotStore(n => if n == 4 then FailAfter else Proceed);
    var ok, healed;
    ghost var landed;
    assert s.Proceeds(0, 4) && s.QuietFrom(5);
    ok, healed, landed := s.CreateSlot("a", Cred(Some(1), None, Whole, None, 0));
    assert "a" in s.meta.rows && "a" !in s.cur;
  }

  /**
   Over every sequence of operations and every fault: the lineage log stays a chain that ends
   at each row, and dead marks stay with the lineage they were made for. While compensations
   succeed and no failed commit has landed, every live row names its Keychain item's lineage.
   */
  method Run(s: SlotStore, ops: seq<Op>) returns (ghost clean: bool)
    requires s.saved.None? && Chained(s.meta) && Consistent(s.meta, s.cur)
    modifies s
    ensures s.saved.None? && Chained(s.meta)
    ensures clean ==> Consistent(s.meta, s.cur)
  {
    clean := true;
    for k := 0 to |ops|
      invariant s.saved.None? && Chained(s.meta)
      invariant clean ==> Consistent(s.meta, s.cur)
    {
      var ok, healed;
      ghost var landed;
      ok, healed, landed := Perform(s, ops[k]);
      clean := clean && (ok || (healed && !landed));
    }
  }
}
