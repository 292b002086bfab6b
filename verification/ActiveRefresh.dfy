/**
 The refresh of the active Claude login under all its locks: read slot and live store, serve or
 restore what is newer, take over what was stashed, and otherwise spend one token and keep its
 successor in the slot, in the live store, or in a stash. Any access may fail before or after
 taking effect.
 */
module ActiveRefresh {
  import opened Prelude
  import opened ClaudeSlots
  import opened ClaudeConsume
  import opened ActiveModel

  datatype Deferral =
    | DegradedRead | Unattributed | LocksHeld | LiveReadError | IdentityMismatch | Undecided(why: Why) | SlotWriteFailed | Unexpected

  datatype Failure = RefreshFailed | ForeignCredential | InvalidClientAnswer

  datatype Outcome =
    | Posted(working: Cred)
    | PostedLiveUnwritten(working: Cred)
    | PostedSlotUnwritten(working: Cred)
    | Shelved(working: Cred)
    | Lost(working: Cred)
    | Restored(working: Cred)
    | Served(working: Cred)
    | Failure(reason: Failure)
    | DeadLogin
    | Deferred(why: Deferral)
    | Refused

  /**
   What the caller saw before the locks, why it asks, and what its checks of the environment
   answered: the store is mirrored elsewhere, C-swap runs (None: cannot tell), the config names
   this account, and the live access token is the one the caller's was.
   */
  datatype Request = Request(
    creds: Cred, forced: bool, degraded: bool, mirrored: bool, cswap: Option<bool>, identity: bool, sameAccess: bool, now: int)

  /**
   The one request of a call: what was spent, what slot and live store held just before, the
   lineage the slot's row recorded, the lineage the decision took for the slot's own, whether the
   live credential was attributed, whether this call wrote the slot first, and what was issued.
   */
  datatype Sent = Sent(
    posted: Cred, slot: Cred, read: Cred, recorded: Option<Fp>, own: Option<Fp>, attributed: bool, rewritten: bool, working: Option<Cred>)

  /** What a credential becomes in the live store, which keeps its machine-shared fields. */
  function Target(working: Cred, read: Cred): Cred {
    if read.fp.Some? && read.shared.Some? then working.(shared := read.shared) else working
  }

  class Refresher {
    const gate: Gate
    var live: Option<Cred>
    /** Which lineages a profile lookup or an own request has proved to be, or not to be, this account's. */
    var verdicts: map<Fp, bool>
    /** A live credential whose token was spent, or is filed under stashes that differ, was written into the slot. */
    var regressed: bool
    /** A grant did not outlast what it renewed, or the slot was replaced although all locks were held. */
    var strained: bool
    /** Another writer left, between calls, what custody cannot survive. */
    var disturbed: bool

    constructor (gate: Gate, live: Option<Cred>)
      ensures this.gate == gate && this.live == live && verdicts == map[] && !regressed && !strained && !disturbed
    {
      this.gate, this.live, verdicts, regressed, strained, disturbed := gate, live, map[], false, false, false;
    }

    ghost predicate Safe()
      reads this`live, gate`provider, gate`stashes, gate.store`cur
    {
      Held(gate.provider, gate.stashes, Item(gate.store.cur, gate.id), live)
    }

    /** The slot's row records the lineage of its item. */
    ghost predicate RowMatches()
      reads gate.store`meta, gate.store`cur
    {
      gate.id in gate.store.meta.rows && gate.id in gate.store.cur && gate.store.meta.rows[gate.id].fp == gate.store.cur[gate.id].fp
    }

    ghost function RowFp(): Option<Fp>
      reads gate.store`meta
    {
      if gate.id in gate.store.meta.rows then gate.store.meta.rows[gate.id].fp else None
    }

    // ----- the live store --------------------------------------------------------------------------

    method ReadLive() returns (ok: bool, v: Cred)
      modifies gate.store`tick
      ensures ok <==> gate.store.faults(old(gate.store.tick)) == Proceed && live.Some?
      ensures ok ==> live == Some(v)
      ensures gate.store.tick == old(gate.store.tick) + 1
    {
      var f := gate.store.Access();
      ok, v := f == Proceed && live.Some?, live.GetOr(Cred(None, None, Torn, None, 0));
    }

    /** Under the config lock. */
    method Publish(target: Cred) returns (ok: bool)
      modifies this`live, gate.store`tick
      ensures live == old(live) || live == Some(target)
      ensures ok ==> live == Some(target)
      ensures gate.store.tick >= old(gate.store.tick) && (gate.store.QuietFrom(old(gate.store.tick)) ==> ok)
    {
      var f := gate.store.Access();
      if f != Proceed { return false; }
      f := gate.store.Access();
      if Lands(f) { live := Some(target); }
      ok := f == Proceed;
    }

    // ----- keeping a successor --------------------------------------------------------------------------

    /** Where a successor is after the call, for each answer that speaks of one. */
    ghost predicate Kept(out: Outcome, consumed: Fp, working: Cred)
      reads this`live, gate`stashes, gate.store`cur
    {
      var inSlot := Item(gate.store.cur, gate.id) == Some(working);
      var inLive := live.Some? && SameTokens(live.value, working);
      match out
      case Posted(w) => w == working && inSlot && inLive
      case PostedLiveUnwritten(w) => w == working && inSlot
      case PostedSlotUnwritten(w) => w == working && inLive
      case Shelved(w) => w == working && Stash(working, consumed) in gate.stashes
      case Lost(w) => w == working
      case _ => false
    }

    /** Slot, then live store, then a stash when neither went through. */
    method Keep(input: Cred, working: Cred, read: Cred) returns (out: Outcome)
      requires gate.store.saved.None? && input.fp.Some? && working.fp.Some?
      modifies this`live, gate`stashes, gate.store
      ensures gate.store.saved.None? && Kept(out, input.fp.value, working)
      ensures gate.store.cur == old(gate.store.cur) || gate.store.cur == old(gate.store.cur)[gate.id := working]
      ensures live == old(live) || (live.Some? && SameTokens(live.value, working))
      ensures AddsCopies(old(gate.stashes), gate.stashes, Stash(working, input.fp.value))
      ensures old(gate.store.meta).rows.Keys == gate.store.meta.rows.Keys
      ensures gate.store.QuietFrom(old(gate.store.tick)) && gate.id in old(gate.store.meta).rows ==> out == Posted(working)
    {
      hide WriteEffect, SavesExisting;
      var written, healed;
      ghost var landed;
      written, healed, landed := gate.store.WriteSlot(gate.id, working);
      if !written { RecordTransition(input.fp.value, working.fp.value); }
      var published := Publish(if input != read then Target(working, read) else working);
      if written { return if published then Posted(working) else PostedLiveUnwritten(working); }
      if published { return PostedSlotUnwritten(working); }
      var kept := gate.KeepSuccessor(working, input.fp.value);
      out := if kept then Shelved(working) else Lost(working);
    }

    /** The transition goes on record although the slot does not hold it. */
    method RecordTransition(consumed: Fp, issued: Fp)
      modifies gate.store`tick, gate.store`meta
      ensures gate.store.meta.rows == old(gate.store.meta).rows && gate.store.tick > old(gate.store.tick)
    {
      var m := gate.store.meta;
      var _ := gate.store.Execute(Some(m.(log := m.log + [Edge(gate.id, Some(consumed), issued)])));
    }

    // ----- what to spend ------------------------------------------------------------------------------------

    /** The live credential is this account's: a verdict says so, or it succeeds the slot's lineage. */
    ghost predicate Attributed(read: Cred, slotFp: Option<Fp>)
      reads this`verdicts, gate.store`meta
    {
      && read.fp.Some?
      && (|| (read.fp.value in verdicts && verdicts[read.fp.value])
          || (slotFp.Some? && Succeeds(Links(gate.store.meta, gate.id), slotFp.value, read.fp.value)))
    }

    method Decide(req: Request, creds: Cred, read: Cred, backup: Cred) returns (c: Choice, ghost attributed: bool)
      ensures (attributed <==> Attributed(read, backup.fp)) && (attributed ==> read.fp.Some?)
      ensures c == ChooseInput(creds, read, backup, backup.fp, attributed, req.forced, req.now)
    {
      var proved := read.fp.Some? && read.fp.value in verdicts && verdicts[read.fp.value];
      if read.fp.Some? && !proved && backup.fp.Some? {
        proved := IsSuccessor(Links(gate.store.meta, gate.id), backup.fp.value, read.fp.value);
      }
      attributed := proved;
      c := ChooseInput(creds, read, backup, backup.fp, proved, req.forced, req.now);
    }

    /** A decision that spends nothing: defer, or put the slot's credential back into the live store. */
    method Settle(c: Choice, backup: Cred, read: Cred) returns (out: Outcome)
      requires !c.Spend?
      modifies this`live, gate.store`tick
      ensures gate.store.tick >= old(gate.store.tick)
      ensures live == old(live) || (c.Restore? && live == Some(Target(backup, read)))
      ensures match out
              case Restored(w) => c.Restore? && w == backup && live == Some(Target(backup, read))
              case Deferred(why) => why == Unexpected || (c.Defer? && why == Undecided(c.why))
              case _ => false
    {
      if c.Defer? { return Deferred(Undecided(c.why)); }
      var ok := Publish(Target(backup, read));
      out := if ok then Restored(backup) else Deferred(Unexpected);
    }

    /** One decision, and what follows when it spends nothing. */
    method Round(req: Request, creds: Cred, read: Cred, backup: Cred) returns (stop: Option<Outcome>, c: Choice, ghost attributed: bool)
      requires Item(gate.store.cur, gate.id) == Some(backup) && backup.fp.Some? && live == Some(read)
      modifies this`live, gate.store`tick
      ensures (attributed <==> old(Attributed(read, backup.fp))) && (attributed ==> read.fp.Some?)
      ensures c == ChooseInput(creds, read, backup, backup.fp, attributed, req.forced, req.now)
      ensures if c.Spend? then stop.None? && live == old(live) else stop.Some? && (stop.value.Deferred? || stop.value.Restored?)
      ensures stop.Some? && stop.value.Restored? ==>
                && c.Restore? && stop.value.working == backup && live == Some(Target(backup, read))
      ensures live == old(live) || live == Some(Target(backup, read))
      ensures old(Safe()) ==> Safe()
      ensures gate.store.tick >= old(gate.store.tick)
    {
      hide Held, ChooseInput, Attributed;
      c, attributed := Decide(req, creds, read, backup);
      stop := None;
      if !c.Spend? {
        var out := Settle(c, backup, read);
        stop := Some(out);
        if live != old(live) {
          ChoiceIsLicensed(creds, read, backup, attributed, req.forced, req.now);
          if old(Safe()) { RestoreHolds(gate.provider, gate.stashes, backup, read, Target(backup, read)); }
        }
      }
    }

    /** What an earlier call stashed becomes the slot before anything is spent. */
    method TakeOver(locked: Cred) returns (r: Adoption, backup: Cred)
      requires gate.store.saved.None? && Item(gate.store.cur, gate.id) == Some(locked) && locked.fp.Some?
      requires gate.id in gate.store.meta.rows
      modifies gate`stashes, gate.store
      ensures gate.store.saved.None? && old(gate.store.meta).rows.Keys == gate.store.meta.rows.Keys
      ensures r == Nothing || r == Adopted ==> backup == ToSend(old(gate.stashes), locked) && Item(gate.store.cur, gate.id) == Some(backup)
      ensures r == Nothing ==> backup == locked && gate.store.meta == old(gate.store.meta) && gate.store.cur == old(gate.store.cur)
                               && NothingWaits(old(gate.stashes), locked)
      ensures r == Adopted ==> RowMatches() && !NothingWaits(old(gate.stashes), locked)
      ensures gate.store.tick >= old(gate.store.tick)
      ensures gate.store.QuietFrom(old(gate.store.tick)) && NothingWaits(old(gate.stashes), locked) ==> r == Nothing
      ensures old(Safe()) ==> Safe() && (r == Nothing || r == Adopted ==> backup.fp.Some? && NothingWaits(gate.stashes, backup))
    {
      hide Held, SlotOk, Custody;
      ghost var before := gate.stashes;
      FirstWaitingMeans(before, locked);
      r := gate.AdoptStashed();
      backup := if r == Adopted && gate.id in gate.store.cur then gate.store.cur[gate.id] else locked;
      if old(Safe()) {
        if gate.store.cur != old(gate.store.cur) || r == Adopted {
          AdoptionHolds(gate.provider, before, gate.stashes, locked, live);
        } else {
          DroppingHolds(gate.provider, before, gate.stashes, Some(locked), live);
        }
      }
    }

    /** What a call settles on: the slot holds its lineage, which was the slot's own or the attributed live one. */
    ghost predicate Licensed(input: Cred, read: Cred, own: Option<Fp>, attributed: bool)
      reads gate.store`cur
    {
      && gate.id in gate.store.cur && gate.store.cur[gate.id].fp == input.fp && input.fp.Some?
      && (input.fp == own || (attributed && input == read))
    }

    /**
     Decide, take over what was stashed, decide again, and write an attributed live credential
     into the slot before it is spent.
     */
    method Own(req: Request, creds: Cred, read: Cred, locked: Cred)
      returns (stop: Option<Outcome>, input: Cred, source: Source, ghost own: Option<Fp>, ghost attributed: bool, ghost rewritten: bool)
      requires gate.store.saved.None? && Item(gate.store.cur, gate.id) == Some(locked) && locked.fp.Some?
      requires gate.id in gate.store.meta.rows && live == Some(read)
      modifies this`live, gate`stashes, gate.store
      ensures gate.store.saved.None? && old(gate.store.meta).rows.Keys == gate.store.meta.rows.Keys
      ensures stop.Some? ==> stop.value.Deferred? || stop.value.Restored?
      ensures stop.None? ==> Licensed(input, read, own, attributed) && live == Some(read)
      ensures stop.None? ==> own == ToSend(old(gate.stashes), locked).fp
      ensures stop.None? && attributed && NothingWaits(old(gate.stashes), locked) ==> old(Attributed(read, locked.fp))
      ensures stop.None? ==> if rewritten then RowMatches() else gate.store.meta == old(gate.store.meta) && gate.store.cur == old(gate.store.cur)
      ensures old(Safe()) ==> Safe()
      ensures gate.store.tick >= old(gate.store.tick)
      ensures gate.store.QuietFrom(old(gate.store.tick)) && NothingWaits(old(gate.stashes), locked) ==>
                var c := ChooseInput(creds, read, locked, locked.fp, old(Attributed(read, locked.fp)), req.forced, req.now);
                (stop.None? <==> c.Spend?) && (c.Spend? ==> input == c.input)
      ensures old(Safe()) && stop.None? ==>
                NothingWaits(gate.stashes, gate.store.cur[gate.id]) && Unspent(gate.provider, input.fp.value)
    {
      hide Held, ChooseInput, NothingWaits, Attributed, Unspent, NothingFiled, Custody;
      input, source, own, rewritten := locked, FromSlot, locked.fp, false;
      var choice;
      stop, choice, attributed := Round(req, creds, read, locked);
      if stop.Some? { return; }
      var adoption, backup := TakeOver(locked);
      if adoption == Unreadable || adoption == Failed { return Some(Deferred(Unexpected)), input, source, own, attributed, rewritten; }
      own := backup.fp;
      if adoption == Adopted {
        rewritten := true;
        if backup.fp.None? { return Some(Deferred(Unexpected)), input, source, own, attributed, rewritten; }
        stop, choice, attributed := Round(req, creds, read, backup);
        if stop.Some? { return; }
      }
      ChoiceIsLicensed(creds, read, backup, attributed, req.forced, req.now);
      if old(Safe()) { ReadyToSpend(creds, read, backup, attributed, req); }
      input, source := choice.input, choice.source;
      if !choice.slotLineage {
        var ok := Claim(input);
        if !ok { return Some(Deferred(SlotWriteFailed)), input, source, own, attributed, rewritten; }
        rewritten := true;
      }
    }

    lemma ReadyToSpend(creds: Cred, read: Cred, backup: Cred, attributed: bool, req: Request)
      requires Safe() && Item(gate.store.cur, gate.id) == Some(backup) && live == Some(read) && backup.fp.Some?
      requires NothingWaits(gate.stashes, backup) && (attributed ==> read.fp.Some?)
      ensures var c := ChooseInput(creds, read, backup, backup.fp, attributed, req.forced, req.now);
              c.Spend? ==>
                && c.input.fp.Some? && Unspent(gate.provider, c.input.fp.value)
                && (!c.slotLineage ==>
                      c.input == read && NothingWaits(gate.stashes, read) && Uniform(gate.stashes, read) && !Spent(gate.provider, read))
    {
      SpendsUnspent(gate.provider, gate.stashes, backup, read, creds, attributed, req.forced, req.now);
    }

    /** The live credential becomes the slot's. */
    method Claim(read: Cred) returns (ok: bool)
      requires gate.store.saved.None? && live == Some(read)
      modifies gate.store
      ensures gate.store.saved.None? && old(gate.store.meta).rows.Keys == gate.store.meta.rows.Keys
      ensures gate.store.cur == old(gate.store.cur) || gate.store.cur == old(gate.store.cur)[gate.id := read]
      ensures ok ==> read.fp.Some? && gate.store.cur == old(gate.store.cur)[gate.id := read] && RowMatches()
      ensures gate.store.QuietFrom(old(gate.store.tick)) && gate.id in old(gate.store.meta).rows && read.fp.Some? ==> ok
      ensures old(Safe()) && read.fp.Some? && !Spent(gate.provider, read) && Uniform(gate.stashes, read) ==> Safe()
      ensures gate.store.tick >= old(gate.store.tick)
    {
      hide Held, SavesExisting, Uniform;
      var healed;
      ghost var landed;
      ghost var item := Item(gate.store.cur, gate.id);
      ok, healed, landed := gate.store.WriteSlot(gate.id, read);
      if old(Safe()) && read.fp.Some? && !Spent(gate.provider, read) && Uniform(gate.stashes, read) {
        OwningHolds(gate.provider, gate.stashes, item, read);
      }
    }

    // ----- spending it -----------------------------------------------------------------------------------

    /** A dead mark, unless the row's lineage has moved. */
    method Strike(fp: Fp) returns (out: Outcome)
      requires gate.store.saved.None?
      modifies gate.store
      ensures gate.store.saved.None? && gate.store.cur == old(gate.store.cur) && old(gate.store.meta).rows.Keys == gate.store.meta.rows.Keys
      ensures out == DeadLogin || out == Failure(RefreshFailed)
      ensures out == DeadLogin ==> gate.id in gate.store.meta.rows && gate.store.meta.rows[gate.id].fp == Some(fp) && gate.store.meta.rows[gate.id].dead
    {
      var ok, strike;
      ghost var landed;
      ok, strike, landed := gate.store.StrikeDead(gate.id, fp);
      out := if ok && strike != LineageMoved then DeadLogin else Failure(RefreshFailed);
    }

    /** Where the token was read from, another lineage stands by now. */
    ghost predicate MovedOn(input: Cred, source: Source)
      reads this`live, gate.store`cur
    {
      var now := if source == FromLive then live else Item(gate.store.cur, gate.id);
      now.Some? && now.value.fp.Some? && now.value.fp != input.fp
    }

    /** The provider calls the token dead: struck only if what was spent is still where it was read. */
    method Refute(input: Cred, source: Source) returns (out: Outcome)
      requires gate.store.saved.None? && input.fp.Some?
      modifies gate.store
      ensures gate.store.saved.None? && gate.store.cur == old(gate.store.cur) && old(gate.store.meta).rows.Keys == gate.store.meta.rows.Keys
      ensures out == DeadLogin || out == Failure(RefreshFailed)
      ensures out == DeadLogin ==> gate.id in gate.store.meta.rows && gate.store.meta.rows[gate.id].fp == input.fp && gate.store.meta.rows[gate.id].dead
      ensures old(MovedOn(input, source)) && gate.store.faults(old(gate.store.tick)) == Proceed ==>
                out == Failure(RefreshFailed) && gate.store.meta == old(gate.store.meta)
    {
      var moved := false;
      if source == FromLive {
        var ok, v := ReadLive();
        moved := ok && v.fp.Some? && v.fp != input.fp;
      } else {
        var ok, v := gate.store.ReadCurrent(gate.id);
        moved := ok && v.Some? && v.value.fp.Some? && v.value.fp != input.fp;
      }
      if moved { return Failure(RefreshFailed); }
      out := Strike(input.fp.value);
    }

    /** Nobody but an edit of other fields has touched the slot, and what was granted outlasts what it renews. */
    predicate Sound(e: Exchange, issued: bool, slot: Cred, read: Cred) {
      && (e.intruder.Nobody? || e.intruder.Edits?)
      && (issued ==> Outlasts(slot, e.expires) && (read.fp == slot.fp ==> Expiry(read) <= e.expires))
    }

    /** There is a token to send, and the provider will exchange it. */
    ghost predicate Goes(input: Cred)
      reads gate`provider, gate`posts
    {
      && Sendable(input) && input.fp.value !in gate.provider.next
      && gate.exchanges(gate.posts).reply == Rotates && gate.exchanges(gate.posts).intruder.Nobody?
    }

    method Send(input: Cred, source: Source, read: Cred, ghost own: Option<Fp>, ghost attributed: bool, ghost rewritten: bool)
      returns (out: Outcome, ghost sent: Option<Sent>)
      requires gate.store.saved.None? && Licensed(input, read, own, attributed) && live == Some(read)
      modifies this, gate, gate.store
      ensures gate.store.saved.None? && old(gate.store.meta).rows.Keys == gate.store.meta.rows.Keys
      ensures gate.posts == old(gate.posts) + (if sent.Some? then 1 else 0) && !out.Served? && !out.Restored?
      ensures regressed == old(regressed) && disturbed == old(disturbed)
      ensures sent.Some? ==>
                && Sendable(input)
                && sent.value.(working := None) == Sent(input, old(gate.store.cur)[gate.id], read, old(RowFp()), own, attributed, rewritten, None)
      ensures Told(out, sent)
      ensures gate.store.QuietFrom(old(gate.store.tick)) && gate.id in old(gate.store.meta).rows && old(Goes(input)) ==> out.Posted?
      ensures gate.lostReply ==> old(gate.lostReply) || (sent.Some? && gate.exchanges(old(gate.posts)).reply == LosesReply)
      ensures strained == (old(strained) || (sent.Some? && !Sound(gate.exchanges(old(gate.posts)), sent.value.working.Some?, sent.value.slot, read)))
      ensures gate.replayed == (old(gate.replayed) || (sent.Some? && input.fp.value in old(gate.provider).next))
      ensures old(Safe()) && NothingWaits(old(gate.stashes), old(gate.store.cur)[gate.id]) && Unspent(old(gate.provider), input.fp.value)
              && !out.Lost? && !gate.lostReply && !strained ==>
                Safe()
    {
      hide Held, NothingWaits, Unspent, Kept, Owes, Sound, SlotAfter;
      sent := None;
      if input.shape == NoRefresh {
        out := Strike(input.fp.value);
        return;
      }
      if !Sendable(input) { return Failure(RefreshFailed), sent; }
      ghost var p, held, slot, w := gate.provider, gate.stashes, gate.store.cur[gate.id], gate.exchanges(gate.posts).intruder;
      sent := Some(Sent(input, slot, read, RowFp(), own, attributed, rewritten, None));
      var status, working := Ask(input, read);
      if working.Some? {
        sent := Some(sent.value.(working := working));
        out := Succeed(input, working.value, read, p, held, w, slot);
      } else {
        out := Declined(status, input, source);
      }
    }

    /** The slot's token was exchanged for this one; slot and live store are as they were, but for edits. */
    ghost predicate Owes(p: Provider, held: seq<Stash>, w: Intruder, slot: Cred, read: Cred, working: Cred)
      reads gate`provider, gate.store`cur
    {
      && Ready(p, held, slot, read) && Unspent(p, slot.fp.value) && (w.Nobody? || w.Edits?)
      && Pair(working) && Exchanges(p, gate.provider, w, slot.fp.value, working.fp.value)
      && working.expires.Some? && Outlasts(slot, working.expires.value)
      && (read.fp == slot.fp ==> Expiry(read) <= working.expires.value)
      && Item(gate.store.cur, gate.id) == SlotAfter(p, Some(slot), w)
    }

    /** The request, and the credential it yields. */
    method Ask(input: Cred, read: Cred) returns (status: Status, working: Option<Cred>)
      requires Sendable(input) && live == Some(read) && gate.id in gate.store.cur && gate.store.cur[gate.id].fp == input.fp
      modifies this`strained, gate`provider, gate`posts, gate`replayed, gate`lostReply, gate`upset, gate.store`cur
      ensures gate.posts == old(gate.posts) + 1 && (working.Some? ==> working.value.fp.Some?)
      ensures gate.lostReply ==> old(gate.lostReply) || gate.exchanges(old(gate.posts)).reply == LosesReply
      ensures strained == (old(strained) || !Sound(gate.exchanges(old(gate.posts)), working.Some?, old(gate.store.cur)[gate.id], read))
      ensures gate.replayed == (old(gate.replayed) || input.fp.value in old(gate.provider).next)
      ensures gate.exchanges(old(gate.posts)).reply == Rotates && input.fp.value !in old(gate.provider).next
              && gate.exchanges(old(gate.posts)).intruder.Nobody? ==>
                working.Some?
      ensures old(Safe()) && NothingWaits(gate.stashes, old(gate.store.cur)[gate.id]) && Unspent(old(gate.provider), input.fp.value) && !strained ==>
                if working.None? then gate.lostReply || Safe()
                else Owes(old(gate.provider), gate.stashes, gate.exchanges(old(gate.posts)).intruder, old(gate.store.cur)[gate.id], read, working.value)
    {
      hide Held, NothingWaits, StashOk, Upsets, Uniform;
      var slot, e := gate.store.cur[gate.id], gate.exchanges(gate.posts);
      ghost var p, safe := gate.provider, Safe() && NothingWaits(gate.stashes, slot) && Unspent(gate.provider, input.fp.value);
      var issued;
      status, issued := gate.Post(input.fp.value);
      strained := strained || !Sound(e, issued.Some?, slot, read);
      if safe && !strained { EditsHold(p, gate.stashes, Some(slot), live, e.intruder); }
      working := if issued.Some? then Some(Renewed(input, issued.value, e.expires)) else None;
    }

    /** A success: the new lineage is known to be this account's, and is kept wherever it can be. */
    method Succeed(input: Cred, working: Cred, read: Cred, ghost p: Provider, ghost held: seq<Stash>, ghost w: Intruder, ghost slot: Cred)
      returns (out: Outcome)
      requires gate.store.saved.None? && input.fp.Some? && working.fp.Some? && live == Some(read) && gate.stashes == held && slot.fp == input.fp
      modifies this`live, this`verdicts, gate`stashes, gate.store
      ensures gate.store.saved.None? && old(gate.store.meta).rows.Keys == gate.store.meta.rows.Keys
      ensures Kept(out, input.fp.value, working) && verdicts == old(verdicts)[working.fp.value := true]
      ensures !out.Served? && !out.Restored?
      ensures gate.store.QuietFrom(old(gate.store.tick)) && gate.id in old(gate.store.meta).rows ==> out.Posted?
      ensures old(Owes(p, held, w, slot, read, working)) && !out.Lost? ==> Safe()
    {
      hide Held, Ready, NothingWaits, Unspent, Outlasts, Exchanges;
      verdicts := verdicts[working.fp.value := true];
      out := Keep(input, working, read);
      if old(Owes(p, held, w, slot, read, working)) && !out.Lost? {
        SpendHolds(p, gate.provider, held, gate.stashes, w, slot, read, working, gate.store.cur[gate.id], live.value);
      }
    }

    /** No successor: nothing but a dead mark is written. */
    method Declined(status: Status, input: Cred, source: Source) returns (out: Outcome)
      requires gate.store.saved.None? && input.fp.Some?
      modifies gate.store
      ensures gate.store.saved.None? && gate.store.cur == old(gate.store.cur) && old(gate.store.meta).rows.Keys == gate.store.meta.rows.Keys
      ensures out == DeadLogin || out.Failure?
      ensures out == DeadLogin ==> status == IsDead && gate.id in gate.store.meta.rows && gate.store.meta.rows[gate.id].fp == input.fp
    {
      if status == IsDead {
        out := Refute(input, source);
      } else {
        out := Failure(if status == Systemic then InvalidClientAnswer else RefreshFailed);
      }
    }

    /** An answer that speaks of a successor says where it is; after a success, every answer does. */
    ghost predicate Told(out: Outcome, sent: Option<Sent>)
      reads this`live, gate`stashes, gate.store`cur
    {
      if sent.Some? && sent.value.working.Some? then sent.value.posted.fp.Some? && Kept(out, sent.value.posted.fp.value, sent.value.working.value)
      else !out.Posted? && !out.PostedLiveUnwritten? && !out.PostedSlotUnwritten? && !out.Shelved? && !out.Lost?
    }

    // ----- the whole call ------------------------------------------------------------------------------------

    ghost predicate Admitted(req: Request)
      reads this`verdicts, gate.store`meta
    {
      && !req.mirrored && !req.degraded && req.cswap == Some(false) && (Pair(req.creds) || Known(req.creds, RowFp(), RowPrevFp()))
      && (gate.id in gate.store.meta.rows ==> !gate.store.meta.rows[gate.id].dead)
    }

    ghost function RowPrevFp(): Option<Fp>
      reads gate.store`meta
    {
      if gate.id in gate.store.meta.rows then gate.store.meta.rows[gate.id].prevFp else None
    }

    /** The slot's recorded lineages or a verdict vouch for the credential. */
    predicate Known(creds: Cred, rowFp: Option<Fp>, prevFp: Option<Fp>)
      reads this`verdicts
    {
      creds.fp.Some? && (creds.fp == rowFp || creds.fp == prevFp || VerdictOf(creds) == Some(true))
    }

    function VerdictOf(c: Cred): Option<bool>
      reads this`verdicts
    {
      if c.fp.Some? && c.fp.value in verdicts then Some(verdicts[c.fp.value]) else None
    }

    /** A forced call is about the live credential while that is still what was rejected. */
    function About(req: Request, read: Cred): Cred {
      if req.forced && Pair(read) && read.fp == req.creds.fp && req.sameAccess then read else req.creds
    }

    /** What the locked reads decide about a live credential that has rotated. */
    ghost function Rotation(req: Request, read: Cred, locked: Cred): Rotated
      reads this`verdicts, gate.store`meta
    {
      AdoptRotated(About(req, read), read, locked.fp, RowPrevFp(), VerdictOf(read), req.now)
    }

    /** Slot and live store are there, and the live credential has rotated with enough provenance to repair the slot. */
    ghost predicate Serves(req: Request)
      reads this`live, this`verdicts, gate.store`meta, gate.store`cur
    {
      && gate.id in gate.store.meta.rows && !gate.store.meta.rows[gate.id].dead && gate.id in gate.store.cur && gate.store.cur[gate.id].fp.Some?
      && live.Some? && req.identity && !(req.forced && VerdictOf(live.value) == Some(false))
      && Rotation(req, live.value, gate.store.cur[gate.id]) == Adopt(true)
    }

    /** Slot and live store are there, nothing is to be served, and a token goes. */
    ghost predicate Renews(req: Request)
      reads this`live, this`verdicts, gate`provider, gate`posts, gate`stashes, gate.store`meta, gate.store`cur
    {
      && gate.id in gate.store.meta.rows && !gate.store.meta.rows[gate.id].dead && gate.id in gate.store.cur && gate.store.cur[gate.id].fp.Some?
      && live.Some? && req.identity && !(req.forced && VerdictOf(live.value) == Some(false))
      && Rotation(req, live.value, gate.store.cur[gate.id]) == Unrotated
      && Spends(req, About(req, live.value), live.value, gate.store.cur[gate.id])
    }

    /** The request of a call was licensed by what the call found. */
    twostate predicate SentOk(sent: Sent, item: Cred, read: Cred)
      reads this`verdicts, gate`stashes, gate.store`meta, gate.store`cur
    {
      && Sendable(sent.posted) && sent.posted.fp == sent.slot.fp && sent.read == read
      && sent.own == ToSend(old(gate.stashes), item).fp
      && (sent.posted.fp == sent.own || (sent.attributed && sent.posted == read))
      && (sent.attributed && NothingWaits(old(gate.stashes), item) ==> old(Attributed(read, item.fp)))
      && (sent.recorded == sent.posted.fp <==> sent.rewritten || old(RowMatches()))
    }

    /**
     What is served is the live credential as it was; it was written into the slot, if at all, only
     on evidence, and that is marked when its token was spent or stashes under it differ.
     */
    twostate predicate ServedOk(out: Outcome, req: Request)
      reads this`live, this`verdicts, this`regressed, gate`provider, gate`stashes, gate.store`meta, gate.store`cur
    {
      if !out.Served? then regressed == old(regressed)
      else
        && old(live) == Some(out.working) && live == old(live) && gate.stashes == old(gate.stashes) && gate.provider == old(gate.provider)
        && gate.id in old(gate.store.cur)
        && var r := old(Rotation(req, out.working, gate.store.cur[gate.id]));
           && r.Adopt?
           && regressed == (old(regressed) || (r.writeSlot && (Spent(gate.provider, out.working) || !Uniform(gate.stashes, out.working))))
           && (gate.store.cur == old(gate.store.cur) || (r.writeSlot && gate.store.cur == old(gate.store.cur)[gate.id := out.working]))
    }

    /** Under the consume, switch and credential locks. */
    method UnderLocks(req: Request) returns (out: Outcome, ghost sent: Option<Sent>)
      requires gate.store.saved.None?
      modifies this, gate, gate.store
      ensures gate.store.saved.None? && old(gate.store.meta).rows.Keys == gate.store.meta.rows.Keys
      ensures gate.posts == old(gate.posts) + (if sent.Some? then 1 else 0) && disturbed == old(disturbed)
      ensures Told(out, sent)
      ensures sent.Some? ==> old(live).Some? && gate.id in old(gate.store.cur) && SentOk(sent.value, old(gate.store.cur)[gate.id], old(live).value)
      ensures gate.lostReply ==> old(gate.lostReply) || (sent.Some? && gate.exchanges(old(gate.posts)).reply == LosesReply)
      ensures strained == (old(strained) || (sent.Some? && !Sound(gate.exchanges(old(gate.posts)), sent.value.working.Some?, sent.value.slot, sent.value.read)))
      ensures old(Safe()) ==> gate.replayed == old(gate.replayed)
      ensures old(Safe()) && !out.Lost? && !gate.lostReply && !strained && !regressed ==> Safe()
      ensures ServedOk(out, req)
      ensures old(Safe()) && out.Served? && out.working.fp.Some? && Item(gate.store.cur, gate.id) == Some(out.working)
              && NothingFiled(gate.stashes, out.working.fp.value) ==>
                (Safe() <==> !Spent(gate.provider, out.working))
      ensures gate.store.QuietFrom(old(gate.store.tick)) && old(Serves(req)) ==>
                out == Served(old(live).value) && Item(gate.store.cur, gate.id) == old(live)
      ensures gate.store.QuietFrom(old(gate.store.tick)) && old(Renews(req)) ==> out.Posted?
    {
      hide Held, Attributed, NothingWaits, Sound, Uniform, Kept, Rotation, RowMatches, Spent, NothingFiled;
      sent := None;
      var stop, locked, read := Look(req);
      if stop.Some? { return stop.value, sent; }
      out, sent := Act(req, locked, read);
    }

    /** The locked reads: row, slot, live store, and whose account the config names. */
    method Look(req: Request) returns (stop: Option<Outcome>, locked: Cred, read: Cred)
      modifies gate.store`tick
      ensures stop.None? ==>
                && Item(gate.store.cur, gate.id) == Some(locked) && locked.fp.Some? && live == Some(read) && gate.id in gate.store.meta.rows
                && !(req.forced && VerdictOf(read) == Some(false))
      ensures stop.Some? ==> stop.value.Deferred? || stop.value == DeadLogin || stop.value.Failure?
      ensures gate.store.tick >= old(gate.store.tick) && (gate.store.QuietFrom(old(gate.store.tick)) && (Serves(req) || Renews(req)) ==> stop.None?)
    {
      hide Rotation;
      locked, read := Cred(None, None, Torn, None, 0), Cred(None, None, Torn, None, 0);
      var f := gate.store.Access();
      if f != Proceed || gate.id !in gate.store.meta.rows { return Some(Deferred(Unexpected)), locked, read; }
      var ok, item := gate.store.ReadCurrent(gate.id);
      if !ok || item.None? || item.value.fp.None? { return Some(Deferred(Unexpected)), locked, read; }
      locked := item.value;
      if gate.store.meta.rows[gate.id].dead { return Some(DeadLogin), locked, read; }
      ok, read := ReadLive();
      if !ok { return Some(Deferred(LiveReadError)), locked, read; }
      if !req.identity { return Some(Deferred(IdentityMismatch)), locked, read; }
      if req.forced && VerdictOf(read) == Some(false) { return Some(Failure(ForeignCredential)), locked, read; }
      stop := None;
    }

    /** Serve a rotated live credential, or recover. */
    method Act(req: Request, locked: Cred, read: Cred) returns (out: Outcome, ghost sent: Option<Sent>)
      requires gate.store.saved.None? && Item(gate.store.cur, gate.id) == Some(locked) && locked.fp.Some?
      requires gate.id in gate.store.meta.rows && live == Some(read)
      modifies this, gate, gate.store
      ensures gate.store.saved.None? && old(gate.store.meta).rows.Keys == gate.store.meta.rows.Keys
      ensures gate.posts == old(gate.posts) + (if sent.Some? then 1 else 0) && disturbed == old(disturbed)
      ensures Told(out, sent)
      ensures sent.Some? ==> SentOk(sent.value, locked, read)
      ensures gate.lostReply ==> old(gate.lostReply) || (sent.Some? && gate.exchanges(old(gate.posts)).reply == LosesReply)
      ensures strained == (old(strained) || (sent.Some? && !Sound(gate.exchanges(old(gate.posts)), sent.value.working.Some?, sent.value.slot, read)))
      ensures old(Safe()) ==> gate.replayed == old(gate.replayed)
      ensures old(Safe()) && !out.Lost? && !gate.lostReply && !strained && !regressed ==> Safe()
      ensures ServedOk(out, req)
      ensures old(Safe()) && out.Served? && out.working.fp.Some? && Item(gate.store.cur, gate.id) == Some(out.working)
              && NothingFiled(gate.stashes, out.working.fp.value) ==>
                (Safe() <==> !Spent(gate.provider, out.working))
      ensures gate.store.QuietFrom(old(gate.store.tick)) && old(Rotation(req, read, locked)) == Unrotated
              && old(Spends(req, About(req, read), read, locked)) ==>
                out.Posted?
      ensures gate.store.QuietFrom(old(gate.store.tick)) && old(Rotation(req, read, locked)) == Adopt(true) ==>
                out == Served(read) && Item(gate.store.cur, gate.id) == Some(read)
    {
      hide Held, SlotOk, Attributed, NothingWaits, ChooseInput, Sound, Licensed, Uniform, Unspent, Kept, RowMatches, Spent, NothingFiled;
      sent := None;
      match AdoptRotated(About(req, read), read, locked.fp, gate.store.meta.rows[gate.id].prevFp, VerdictOf(read), req.now)
      case Foreign => out := Failure(ForeignCredential);
      case Adopt(writes) =>
        out := Served(read);
        if writes { Repair(read); }
        if old(Safe()) && read.fp.Some? && NothingFiled(gate.stashes, read.fp.value) {
          OwningIff(gate.provider, gate.stashes, Some(locked), read);
        }
      case Unrotated => out, sent := Recover(req, About(req, read), read, locked);
    }

    /** A rotated live credential with enough provenance is written into the slot; a failure is no matter. */
    method Repair(read: Cred)
      requires gate.store.saved.None? && live == Some(read) && read.fp.Some?
      modifies this`regressed, gate.store
      ensures gate.store.saved.None? && old(gate.store.meta).rows.Keys == gate.store.meta.rows.Keys
      ensures gate.store.cur == old(gate.store.cur) || gate.store.cur == old(gate.store.cur)[gate.id := read]
      ensures regressed == (old(regressed) || Spent(gate.provider, read) || !Uniform(gate.stashes, read))
      ensures gate.store.QuietFrom(old(gate.store.tick)) && gate.id in old(gate.store.meta).rows ==> Item(gate.store.cur, gate.id) == Some(read)
      ensures old(Safe()) && !regressed ==> Safe()
    {
      hide Held, Uniform;
      regressed := regressed || Spent(gate.provider, read) || !Uniform(gate.stashes, read);
      var _ := Claim(read);
    }

    /** Nothing is stashed for the slot, and the decision is to spend a token that goes. */
    ghost predicate Spends(req: Request, creds: Cred, read: Cred, locked: Cred)
      reads this`verdicts, gate`provider, gate`posts, gate`stashes, gate.store`meta
    {
      && NothingWaits(gate.stashes, locked)
      && var c := ChooseInput(creds, read, locked, locked.fp, Attributed(read, locked.fp), req.forced, req.now);
         c.Spend? && Goes(c.input)
    }

    /** Nothing to serve: settle on what to spend, and spend it. */
    method Recover(req: Request, creds: Cred, read: Cred, locked: Cred) returns (out: Outcome, ghost sent: Option<Sent>)
      requires gate.store.saved.None? && Item(gate.store.cur, gate.id) == Some(locked) && locked.fp.Some?
      requires gate.id in gate.store.meta.rows && live == Some(read)
      modifies this, gate, gate.store
      ensures gate.store.saved.None? && old(gate.store.meta).rows.Keys == gate.store.meta.rows.Keys
      ensures gate.posts == old(gate.posts) + (if sent.Some? then 1 else 0)
      ensures regressed == old(regressed) && disturbed == old(disturbed) && Told(out, sent) && !out.Served?
      ensures sent.Some? ==> SentOk(sent.value, locked, read)
      ensures gate.store.QuietFrom(old(gate.store.tick)) && old(Spends(req, creds, read, locked)) ==> out.Posted?
      ensures gate.lostReply ==> old(gate.lostReply) || (sent.Some? && gate.exchanges(old(gate.posts)).reply == LosesReply)
      ensures strained == (old(strained) || (sent.Some? && !Sound(gate.exchanges(old(gate.posts)), sent.value.working.Some?, sent.value.slot, read)))
      ensures old(Safe()) ==> gate.replayed == old(gate.replayed) && (!out.Lost? && !gate.lostReply && !strained ==> Safe())
    {
      hide Held, SlotOk, Attributed, NothingWaits, ChooseInput, Sound, Kept;
      var stop, input, source;
      ghost var own, attributed, rewritten;
      stop, input, source, own, attributed, rewritten := Own(req, creds, read, locked);
      if stop.Some? { return stop.value, None; }
      out, sent := Send(input, source, read, own, attributed, rewritten);
    }

    /**
     One call. It sends at most one token: the slot then holds its lineage, on the row too unless
     that had drifted and the call did not write it, and it is the slot's own, or the live credential
     attributed to the account. After a success the successor is where the answer says, or reported
     lost. From custody no exchanged token is sent, and custody holds afterwards unless a successor
     was reported lost, an answer never arrived, a grant did not outlast what it renewed, or a spent
     live credential was written into the slot; and once such a one stands there with nothing filed
     under it, custody holds exactly when its token was never exchanged.
     */
    method Refresh(req: Request) returns (out: Outcome, ghost sent: Option<Sent>)
      requires gate.store.saved.None?
      modifies this, gate, gate.store
      ensures gate.store.saved.None? && old(gate.store.meta).rows.Keys == gate.store.meta.rows.Keys
      ensures gate.posts == old(gate.posts) + (if sent.Some? then 1 else 0) && disturbed == old(disturbed)
      ensures Told(out, sent) && ServedOk(out, req)
      ensures sent.Some? ==>
                && old(Admitted(req)) && old(live).Some? && gate.id in old(gate.store.cur)
                && SentOk(sent.value, old(gate.store.cur)[gate.id], old(live).value)
      ensures !old(Admitted(req)) ==> live == old(live) && gate.store.cur == old(gate.store.cur) && gate.stashes == old(gate.stashes)
      ensures gate.lostReply ==> old(gate.lostReply) || (sent.Some? && gate.exchanges(old(gate.posts)).reply == LosesReply)
      ensures strained == (old(strained) || (sent.Some? && !Sound(gate.exchanges(old(gate.posts)), sent.value.working.Some?, sent.value.slot, sent.value.read)))
      ensures old(Safe()) ==> gate.replayed == old(gate.replayed)
      ensures old(Safe()) && !out.Lost? && !gate.lostReply && !strained && !regressed ==> Safe()
      ensures old(Safe()) && out.Served? && out.working.fp.Some? && Item(gate.store.cur, gate.id) == Some(out.working)
              && NothingFiled(gate.stashes, out.working.fp.value) ==>
                (Safe() <==> !Spent(gate.provider, out.working))
      ensures gate.store.QuietFrom(old(gate.store.tick)) && old(Admitted(req)) && old(Serves(req)) ==>
                out == Served(old(live).value) && Item(gate.store.cur, gate.id) == old(live)
      ensures gate.store.QuietFrom(old(gate.store.tick)) && old(Admitted(req)) && old(Renews(req)) ==> out.Posted?
    {
      hide Held, NothingWaits, Attributed, Kept, Sound, Uniform, Rotation, RowMatches, NothingFiled, Spent, Renews, Serves;
      sent := None;
      var dead := gate.id in gate.store.meta.rows && gate.store.meta.rows[gate.id].dead;
      if dead { return DeadLogin, sent; }
      if req.mirrored { return Refused, sent; }
      if req.degraded { return Deferred(DegradedRead), sent; }
      var rowFp := if gate.id in gate.store.meta.rows then gate.store.meta.rows[gate.id].fp else None;
      var prevFp := if gate.id in gate.store.meta.rows then gate.store.meta.rows[gate.id].prevFp else None;
      if !Known(req.creds, rowFp, prevFp) && !Pair(req.creds) { return Deferred(Unattributed), sent; }
      if req.cswap != Some(false) { return Refused, sent; }
      var f := gate.store.Access();
      if f != Proceed { return Deferred(LocksHeld), sent; }
      out, sent := UnderLocks(req);
    }

    // ----- other writers, between calls ----------------------------------------------------------------------

    method InterfereSlot(w: Intruder)
      modifies this`disturbed, gate`provider, gate`upset, gate.store`cur
      ensures disturbed == (old(disturbed) || DisturbsSlot(old(gate.provider), gate.stashes, old(Item(gate.store.cur, gate.id)), live, w))
      ensures old(Safe()) && !disturbed ==> Safe()
    {
      var item := if gate.id in gate.store.cur then Some(gate.store.cur[gate.id]) else None;
      var worse := DisturbsSlot(gate.provider, gate.stashes, item, live, w);
      if Safe() && !worse { OthersOfSlotHold(gate.provider, gate.stashes, item, live, w); }
      disturbed := disturbed || worse;
      gate.Interfere(w);
    }

    method InterfereLive(w: Intruder)
      modifies this`disturbed, this`live, gate`provider
      ensures live == SlotAfter(old(gate.provider), old(live), w) && gate.provider == Seen(old(gate.provider), w)
      ensures disturbed == (old(disturbed) || DisturbsLive(old(gate.provider), gate.stashes, Item(gate.store.cur, gate.id), w))
      ensures old(Safe()) && !disturbed ==> Safe()
    {
      var item := if gate.id in gate.store.cur then Some(gate.store.cur[gate.id]) else None;
      var worse := DisturbsLive(gate.provider, gate.stashes, item, w);
      if Safe() && !worse { OthersOfLiveHold(gate.provider, gate.stashes, item, live, w); }
      disturbed := disturbed || worse;
      live, gate.provider := SlotAfter(gate.provider, live, w), Seen(gate.provider, w);
    }
  }

  // ----- runs --------------------------------------------------------------------------------------------------

  /** One visit of a run: whoever wrote slot and live store meanwhile, and then a call. */
  datatype Visit = Visit(slot: Intruder, live: Intruder, req: Request)

  ghost predicate Broken(r: Refresher, outs: seq<Outcome>)
    reads r`regressed, r`strained, r`disturbed, r.gate`lostReply
  {
    r.gate.lostReply || r.regressed || r.strained || r.disturbed || (outs != [] && outs[|outs| - 1].Lost?)
  }

  predicate OnlyEdits(w: Intruder) { w.Nobody? || w.Edits? }

  /**
   Over any sequence of refreshes of the active login, with other writers of slot and live store
   between them, no exchanged token is ever sent again: until a call reports its successor lost, an
   answer is lost on the wire, a grant does not outlast what it renews or the slot is replaced under
   the locks, a spent live credential is served into the slot, or another writer leaves what custody
   may not survive, which edits never do. Until then custody holds.
   */
  method RunRefreshes(r: Refresher, visits: seq<Visit>) returns (outs: seq<Outcome>)
    requires r.gate.store.saved.None? && r.Safe() && !r.gate.replayed
    modifies r, r.gate, r.gate.store
    ensures !r.gate.replayed && |outs| <= |visits|
    ensures forall k :: 0 <= k < |outs| - 1 ==> !outs[k].Lost?
    ensures |outs| < |visits| ==> Broken(r, outs)
    ensures !Broken(r, outs) ==> r.Safe()
    ensures !old(r.disturbed) && (forall t :: t in visits ==> OnlyEdits(t.slot) && OnlyEdits(t.live)) ==> !r.disturbed
    ensures !old(r.gate.lostReply) && (forall n :: r.gate.exchanges(n).reply != LosesReply) ==> !r.gate.lostReply
  {
    hide Held, Spent, NothingFiled, Uniform, DisturbsSlot, DisturbsLive;
    outs := [];
    while |outs| < |visits|
      invariant |outs| <= |visits| && r.gate.store.saved.None? && !r.gate.replayed
      invariant forall k :: 0 <= k < |outs| - 1 ==> !outs[k].Lost?
      invariant !Broken(r, outs) ==> r.Safe()
      invariant !old(r.disturbed) && (forall t :: t in visits ==> OnlyEdits(t.slot) && OnlyEdits(t.live)) ==> !r.disturbed
      invariant !old(r.gate.lostReply) && (forall n :: r.gate.exchanges(n).reply != LosesReply) ==> !r.gate.lostReply
      decreases |visits| - |outs|
    {
      if r.gate.lostReply || r.regressed || r.strained || r.disturbed || (outs != [] && outs[|outs| - 1].Lost?) { return; }
      Others(r, visits[|outs|].slot, visits[|outs|].live);
      if r.disturbed { return; }
      ghost var sent;
      var out;
      out, sent := r.Refresh(visits[|outs|].req);
      outs := outs + [out];
    }
  }

  method Others(r: Refresher, slot: Intruder, live: Intruder)
    modifies r`disturbed, r`live, r.gate`provider, r.gate`upset, r.gate.store`cur
    ensures old(r.Safe()) && !r.disturbed ==> r.Safe()
    ensures old(r.disturbed) ==> r.disturbed
    ensures OnlyEdits(slot) && OnlyEdits(live) ==> r.disturbed == old(r.disturbed)
  {
    hide Held, DisturbsSlot, DisturbsLive, SlotAfter, Seen;
    EditsDisturb(slot, live);
    r.InterfereSlot(slot);
    r.InterfereLive(live);
  }

  lemma EditsDisturb(slot: Intruder, live: Intruder)
    ensures OnlyEdits(slot) ==> forall p, stashes, item, old_live :: !DisturbsSlot(p, stashes, item, old_live, slot)
    ensures OnlyEdits(live) ==> forall p, stashes, item :: !DisturbsLive(p, stashes, item, live)
  {
  }

  // ----- the failing input ---------------------------------------------------------------------------------------

  /** A slot whose token has been exchanged and written, as the gate does it, with nothing stashed. */
  method Refreshed(first: Cred) returns (g: Gate)
    requires first == Cred(Some(1), Some(1_000_000), Whole, None, 0)
    ensures g.Managed() && g.store.saved.None? && g.stashes == [] && g.store.QuietFrom(0) && fresh(g) && fresh(g.store)
    ensures 1 in g.provider.next && g.store.meta.rows[g.id].fp != Some(1) && g.store.meta.rows[g.id].prevFp == Some(1)
    ensures !g.store.meta.rows[g.id].dead
  {
    g := OneSlot(first, _ => Proceed, Exchange(Rotates, 2_000_000, Nobody));
    var status, issued := g.Post(1);
    var ok, healed;
    ghost var landed;
    ok, healed, landed := g.store.WriteSlot(g.id, Renewed(first, issued.value, 2_000_000));
  }

  /**
   The slot has been refreshed while the live store kept the predecessor, whose access token is
   still good. A call made with an older snapshot serves it and writes it over its successor; the
   next request for the slot sends the spent token.
   */
  method PredecessorIsServedAndReplayed() returns (g: Gate, out: Outcome)
    ensures out.Served? && g.replayed
  {
    var first := Cred(Some(1), Some(1_000_000), Whole, None, 0);
    g := Refreshed(first);
    var r := new Refresher(g, Some(first));
    var req := Request(Cred(Some(1), Some(0), Whole, None, 0), false, false, false, Some(false), true, false, 0);
    assert r.Admitted(req) && r.Serves(req);
    ghost var sent;
    out, sent := r.Refresh(req);
    Replayed(g);
  }

  /**
   A call that served the live credential into the slot, with nothing filed under it, and then an
   undisturbed request for the slot: a spent token is sent exactly when the live one was spent.
   `left` is what the first call left in the slot, `mid` the tick at which it ended.
   */
  method ServeThenSend(r: Refresher, req: Request) returns (out: Outcome, ghost left: Option<Cred>, ghost mid: nat, ghost spent: bool)
    requires r.gate.store.saved.None? && !r.gate.replayed && r.Safe() && r.gate.id in r.gate.store.meta.rows
    modifies r, r.gate, r.gate.store
    ensures out.Served? && Sendable(out.working) && left == Some(out.working) && r.gate.store.QuietFrom(mid)
            && (forall s :: s in old(r.gate.stashes) ==> Some(s.consumed) != out.working.fp) ==>
              (r.gate.replayed <==> spent) && (spent <==> out.working.fp.value in old(r.gate.provider).next)
  {
    hide Held;
    ghost var sent, base, issued;
    out, sent := r.Refresh(req);
    left, mid := Item(r.gate.store.cur, r.gate.id), r.gate.store.tick;
    spent := out.Served? && Spent(r.gate.provider, out.working);
    if left.Some? { FirstWaitingMeans(r.gate.stashes, left.value); }
    var status;
    status, base, issued := r.gate.Consume(false);
  }

  /** With nothing stashed, a spent token in the slot is what an undisturbed call sends. */
  method Replayed(g: Gate)
    requires g.store.saved.None? && g.Managed() && g.store.QuietFrom(0) && g.stashes == []
    requires Sendable(g.store.cur[g.id]) && g.store.cur[g.id].fp.value in g.provider.next
    modifies g, g.store
    ensures g.replayed
  {
    ghost var base, issued;
    var status;
    status, base, issued := g.Consume(false);
  }
}
