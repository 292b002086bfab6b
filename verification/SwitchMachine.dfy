/**
 The Claude switch transaction, its in-process rollback and the two recoveries, as
 programs over stores whose every access may fail, land and then fail, or be the last
 thing the process does. The fault schedule is arbitrary, so each contract holds for
 every one of them.
 */
module SwitchMachine {
  import opened Prelude
  import opened Json
  import opened Credentials
  import opened SwitchModel
  import Classify

  datatype Fault = Proceed | FailBefore | FailAfter | CrashBefore | CrashAfter

  datatype Reply = Done | Threw | Crashed

  predicate Lands(f: Fault) { f == Proceed || f == FailAfter || f == CrashAfter }

  function ReplyOf(f: Fault): Reply {
    match f
    case Proceed => Done
    case FailBefore => Threw
    case FailAfter => Threw
    case CrashBefore => Crashed
    case CrashAfter => Crashed
  }

  datatype JournalRead = Absent | Malformed | Readable(journal: Journal) | ReadCrashed

  datatype Outcome = Ok | Noop | Refused | Failed | WasRolledBack | RestartPhaseA | Died

  /** Ends before anything durable was published. */
  predicate Declined(o: Outcome) { o == Noop || o == Refused || o == Failed || o == RestartPhaseA }

  datatype Step = Go | Stop(outcome: Outcome)

  /** A managed slot: identity columns, its config snapshot and its Keychain item. */
  datatype Row = Row(email: Option<string>, orgUuid: Option<string>, configJson: Option<Text>, credential: Option<Text>)

  /** The lock-free snapshot taken before the locks; `preFreshen` is what this run's own refresh replaced. */
  datatype Prepared = Prepared(active: string, preFreshen: Option<Text>, slots: seq<Classify.Slot>, prefetch: Classify.Prefetched)

  datatype Request = Request(
    to: string,
    republish: bool,
    retried: bool,
    admitted: bool,
    attempt: string,
    stage: string,
    stash: string,
    probeVerdict: Option<bool>
  )

  /** Where the outgoing live bytes are after step 5, or why they need not be kept. */
  datatype Kept =
    | InOutgoingSlot
    | InForeignSlot(accountId: string)
    | InStash(stash: string)
    | WipedBlob
    | VerifiedPredecessor

  /** The account block a slot's config snapshot offers, when it is for that account. */
  function TargetOauth(configJson: Option<Text>, accountId: string): Option<Json> {
    if configJson.None? || Fields(configJson.value).None? then None
    else match ConfigAccount(Fields(configJson.value).value)
      case Some(Obj(f)) => if Get(f, "accountUuid") == Some(Str(accountId)) then Some(Obj(f)) else None
      case _ => None
  }

  /** The undo information holds on disk, or the undo is complete. */
  ghost predicate Restorable(w: World, live0: Text, config0: Option<Text>) {
    if w.journal.Some? && w.journal.value.closed == Open
    then Undoable(w, live0, config0)
    else w.live == Some(live0) && w.config == config0
  }

  /** What the running process remembers is enough to undo, whatever the disk says. */
  ghost predicate Remembers(w: World, mem: Journal, live0: Text, config0: Option<Text>) {
    && (w.live == Some(live0) || mem.credentialsStarted)
    && ConfigUndoable(w, mem, config0)
  }

  /** The credential a switch publishes keeps the outgoing one's machine-shared fields. */
  lemma ComposedKeepsMachine(target: Text, outgoing: Text)
    requires IsOauthBlob(target)
    ensures SameMachine(MergeShared(target, SharedOrEmpty(outgoing)), outgoing)
  {
    SharedOrEmptyIsList(outgoing);
    MergeKeepsMachineFields(target, SharedOrEmpty(outgoing));
  }

  lemma ConfigUndoIsExact(w: World, j: Journal, config0: Option<Text>)
    requires ConfigUndoable(w, j, config0)
    ensures var (decision, config) := RestoreConfig(w.config, j);
            decision != ConfigThrew ==> decision != ConfigResplice && config == config0
  {
  }

  class Machine {
    const faults: nat -> Fault
    var tick: nat
    var live: Option<Text>
    var config: Option<Text>
    var staged: map<string, Text>
    var journal: Option<Journal>
    var active: Option<string>
    var commits: set<string>
    var rows: map<string, Row>
    var unclaimed: map<string, Text>
    var relogins: seq<string>
    /** Observed by the model alone: a switch rolled back although its commit had reached the database. */
    var ambiguous: bool

    constructor (faults: nat -> Fault, live: Option<Text>, config: Option<Text>, active: Option<string>, rows: map<string, Row>)
      ensures StandsFor(State(), Triple(live, config, active))
      ensures this.faults == faults && this.rows == rows && !ambiguous
      ensures State() == World(live, config, map[], None, active, {}) && unclaimed == map[] && tick == 0
    {
      this.faults := faults;
      this.tick := 0;
      this.live := live;
      this.config := config;
      this.staged := map[];
      this.journal := None;
      this.active := active;
      this.commits := {};
      this.rows := rows;
      this.unclaimed := map[];
      this.relogins := [];
      this.ambiguous := false;
    }

    ghost function State(): World
      reads this
    {
      World(live, config, staged, journal, active, commits)
    }

    /** Every access from the first tick up to the second goes through. */
    ghost predicate Quiet(first: nat, past: nat) {
      forall i :: first <= i < past ==> faults(i) == Proceed
    }

    // ----- single accesses -----------------------------------------------------

    method Access() returns (f: Fault)
      modifies this`tick
      ensures f == faults(old(tick)) && tick == old(tick) + 1
    {
      f := faults(tick);
      tick := tick + 1;
    }

    method ReadLive() returns (r: Reply, v: Text)
      modifies this`tick
      ensures r == Done ==> live == Some(v)
      ensures tick == old(tick) + 1 && (faults(old(tick)) == Proceed && live.Some? ==> r == Done)
    {
      var f := Access();
      v := live.GetOr(EMPTY);
      r := if f == Proceed && live.None? then Threw else ReplyOf(f);
    }

    method WriteLive(v: Text) returns (r: Reply)
      modifies this`tick, this`live
      ensures r == ReplyOf(faults(old(tick))) && tick == old(tick) + 1
      ensures live == if Lands(faults(old(tick))) then Some(v) else old(live)
    {
      var f := Access();
      if Lands(f) { live := Some(v); }
      r := ReplyOf(f);
    }

    method ReadConfig() returns (r: Reply, v: Text)
      modifies this`tick
      ensures r == Done ==> config == Some(v)
      ensures tick == old(tick) + 1 && (faults(old(tick)) == Proceed && config.Some? ==> r == Done)
    {
      var f := Access();
      v := config.GetOr(EMPTY);
      r := if f == Proceed && config.None? then Threw else ReplyOf(f);
    }

    method WriteConfig(v: Text) returns (r: Reply)
      modifies this`tick, this`config
      ensures r == ReplyOf(faults(old(tick))) && tick == old(tick) + 1
      ensures config == if Lands(faults(old(tick))) then Some(v) else old(config)
    {
      var f := Access();
      if Lands(f) { config := Some(v); }
      r := ReplyOf(f);
    }

    method ReadStaged(stage: string) returns (r: Reply, v: Option<Text>)
      modifies this`tick
      ensures r == ReplyOf(faults(old(tick))) && tick == old(tick) + 1
      ensures v == if stage in staged then Some(staged[stage]) else None
    {
      var f := Access();
      v := if stage in staged then Some(staged[stage]) else None;
      r := ReplyOf(f);
    }

    method WriteStaged(stage: string, v: Text) returns (r: Reply)
      modifies this`tick, this`staged
      ensures r == ReplyOf(faults(old(tick))) && tick == old(tick) + 1
      ensures staged == if Lands(faults(old(tick))) then old(staged)[stage := v] else old(staged)
    {
      var f := Access();
      if Lands(f) { staged := staged[stage := v]; }
      r := ReplyOf(f);
    }

    method DeleteStaged(stage: string) returns (r: Reply)
      modifies this`tick, this`staged
      ensures r == ReplyOf(faults(old(tick))) && tick == old(tick) + 1
      ensures staged == if Lands(faults(old(tick))) then old(staged) - {stage} else old(staged)
    {
      var f := Access();
      if Lands(f) { staged := staged - {stage}; }
      r := ReplyOf(f);
    }

    /** A journal that cannot be read is never taken for an absent one. */
    method ReadJournal() returns (r: JournalRead)
      modifies this`tick
      ensures r == Absent ==> journal.None?
      ensures r.Readable? ==> journal == Some(r.journal)
      ensures tick == old(tick) + 1 && (faults(old(tick)) == Proceed ==> r == if journal.None? then Absent else Readable(journal.value))
    {
      var f := Access();
      r := if ReplyOf(f) == Crashed then ReadCrashed
           else if f != Proceed then Malformed
           else if journal.None? then Absent else Readable(journal.value);
    }

    /** Exclusive creation: an existing journal is never replaced. */
    method CreateJournal(j: Journal) returns (r: Reply)
      modifies this`tick, this`journal
      ensures r == if ReplyOf(faults(old(tick))) == Done && old(journal).Some? then Threw else ReplyOf(faults(old(tick)))
      ensures tick == old(tick) + 1
      ensures journal == if Lands(faults(old(tick))) && old(journal).None? then Some(j) else old(journal)
    {
      var f := Access();
      r := if ReplyOf(f) == Done && journal.Some? then Threw else ReplyOf(f);
      if Lands(f) && journal.None? { journal := Some(j); }
    }

    method UpdateJournal(p: Patch) returns (r: Reply)
      modifies this`tick, this`journal
      ensures r == if ReplyOf(faults(old(tick))) == Done && Updated(old(journal), p).None? then Threw else ReplyOf(faults(old(tick)))
      ensures tick == old(tick) + 1
      ensures journal == if Lands(faults(old(tick))) && Updated(old(journal), p).Some? then Updated(old(journal), p) else old(journal)
    {
      var f := Access();
      var next := Updated(journal, p);
      r := if ReplyOf(f) == Done && next.None? then Threw else ReplyOf(f);
      if Lands(f) && next.Some? { journal := next; }
    }

    method RemoveJournal() returns (r: Reply)
      modifies this`tick, this`journal
      ensures r == ReplyOf(faults(old(tick))) && tick == old(tick) + 1
      ensures journal == if Lands(faults(old(tick))) then None else old(journal)
    {
      var f := Access();
      if Lands(f) { journal := None; }
      r := ReplyOf(f);
    }

    /** An audit row: it may fail or be the last thing done, and moves nothing else. */
    method RecordRow() returns (r: Reply)
      modifies this`tick
      ensures r == ReplyOf(faults(old(tick))) && tick == old(tick) + 1
    {
      var f := Access();
      r := ReplyOf(f);
    }

    method ReadSlot(accountId: string) returns (r: Reply, v: Text)
      modifies this`tick
      ensures r == Done ==> accountId in rows && rows[accountId].credential == Some(v)
      ensures tick == old(tick) + 1
      ensures r == Done <==> faults(old(tick)) == Proceed && accountId in rows && rows[accountId].credential.Some?
    {
      var f := Access();
      var stored := if accountId in rows then rows[accountId].credential else None;
      v := stored.GetOr(EMPTY);
      r := if f == Proceed && stored.None? then Threw else ReplyOf(f);
    }

    method WriteSlot(accountId: string, v: Text) returns (r: Reply)
      requires accountId in rows
      modifies this`tick, this`rows
      ensures r == ReplyOf(faults(old(tick))) && tick == old(tick) + 1
      ensures rows == if Lands(faults(old(tick)))
                      then old(rows)[accountId := old(rows)[accountId].(credential := Some(v))] else old(rows)
    {
      var f := Access();
      if Lands(f) { rows := rows[accountId := rows[accountId].(credential := Some(v))]; }
      r := ReplyOf(f);
    }

    /** A stash id that is already taken is refused, never overwritten. */
    method StashUnclaimed(stash: string, v: Text) returns (r: Reply)
      modifies this`tick, this`unclaimed
      ensures tick == old(tick) + 1
      ensures r == Done ==> stash !in old(unclaimed) && stash in unclaimed && unclaimed[stash] == v
      ensures forall s :: s in old(unclaimed) ==> s in unclaimed && unclaimed[s] == old(unclaimed)[s]
    {
      var f := Access();
      r := if ReplyOf(f) == Done && stash in unclaimed then Threw else ReplyOf(f);
      if Lands(f) && stash !in unclaimed { unclaimed := unclaimed[stash := v]; }
    }

    method RecordRelogin(accountId: string) returns (r: Reply)
      modifies this`tick, this`relogins
      ensures r == ReplyOf(faults(old(tick))) && tick == old(tick) + 1
    {
      var f := Access();
      if Lands(f) { relogins := relogins + [accountId]; }
      r := ReplyOf(f);
    }

    /** One database transaction: the active login and the committed attempt move together. */
    method CommitSwitch(attempt: Attempt) returns (r: Reply)
      modifies this`tick, this`active, this`commits
      ensures r == ReplyOf(faults(old(tick))) && tick == old(tick) + 1
      ensures commits == if Lands(faults(old(tick))) then old(commits) + {attempt.id} else old(commits)
      ensures active == if Lands(faults(old(tick))) && !attempt.republish then Some(attempt.to) else old(active)
    {
      var f := Access();
      if Lands(f) {
        commits := commits + {attempt.id};
        if !attempt.republish { active := Some(attempt.to); }
      }
      r := ReplyOf(f);
    }

    // ----- undoing ----------------------------------------------------------------

    /** restoreConfigFromJournal under its lock, on a config nobody else has written. */
    method RestoreConfigFile(j: Journal, ghost config0: Option<Text>) returns (r: Reply)
      requires ConfigUndoable(State(), j, config0)
      modifies this`tick, this`config
      ensures config == old(config) || config == config0
      ensures r == Done ==> config == config0
      ensures Quiet(old(tick), old(tick) + 2) && (j.configStarted ==> old(config).Some? && Fields(old(config).value).Some?) ==> r == Done && old(tick) <= tick <= old(tick) + 2
    {
      ConfigUndoIsExact(State(), j, config0);
      if !j.configStarted || j.configText.None? {
        return Done;
      }
      var current: Text;
      r, current := ReadConfig();
      if r != Done { return; }
      var (decision, restored) := RestoreConfig(Some(current), j);
      if decision == ConfigThrew {
        return Threw;
      }
      if decision == ConfigRestored || decision == ConfigResplice {
        r := WriteConfig(restored.value);
      }
    }

    /** Write the outgoing bytes back, trying once more when the first attempt throws. */
    method PutLiveBack(outgoing: Text) returns (r: Reply)
      modifies this`tick, this`live
      ensures live == old(live) || live == Some(outgoing)
      ensures r == Done ==> live == Some(outgoing)
      ensures Quiet(old(tick), old(tick) + 2) && old(live).Some? ==> r == Done && old(tick) <= tick <= old(tick) + 2
    {
      var current: Text;
      r, current := ReadLive();
      if r == Crashed || (r == Done && current == outgoing) { return; }
      if r == Done {
        r := WriteLive(outgoing);
        if r != Threw { return; }
      }
      r := WriteLive(outgoing);
    }

    /** Undo what `j` says was started, newest effect first and each independently. */
    method UndoEffects(j: Journal, outgoing: Text, ghost config0: Option<Text>) returns (r: Reply)
      requires journal.Some?
      requires Undoable(State(), outgoing, config0) && Remembers(State(), j, outgoing, config0)
      modifies this`tick, this`live, this`config
      ensures Undoable(State(), outgoing, config0)
      ensures r == Done ==> live == Some(outgoing) && config == config0
      ensures Quiet(old(tick), old(tick) + 4) ==> r == Done && old(tick) <= tick <= old(tick) + 4
    {
      var failed := false;
      if j.configStarted {
        r := RestoreConfigFile(j, config0);
        if r == Crashed { return; }
        failed := r == Threw;
      }
      if j.credentialsStarted {
        r := PutLiveBack(outgoing);
        if r == Crashed { return; }
        failed := failed || r == Threw;
      }
      r := if failed then Threw else Done;
    }

    /** The journal on disk decides what to undo, or the process's memory when it cannot be read. */
    method RollBack(mem: Journal, outgoing: Text, ghost config0: Option<Text>) returns (out: Outcome)
      requires journal.Some? && journal.value.closed == Open
      requires Undoable(State(), outgoing, config0) && Remembers(State(), mem, outgoing, config0)
      modifies this`tick, this`live, this`config, this`journal, this`staged
      ensures out == WasRolledBack || out == Died
      ensures Restorable(State(), outgoing, config0)
      ensures journal.Some? ==> journal.value.attempt == old(journal).value.attempt && journal.value.committed == old(journal).value.committed
      ensures Quiet(old(tick), old(tick) + 9) ==> out == WasRolledBack && journal.None?
    {
      hide Fields, StagedHolds, SameMachine, OnlyAccountDiffers, ConfigUndoable;
      var disk := ReadJournal();
      if disk == ReadCrashed { return Died; }
      var j := if disk.Readable? then disk.journal else mem;
      var undone := UndoEffects(j, outgoing, config0);
      if undone == Crashed { return Died; }
      var row := RecordRow();
      if row == Crashed { return Died; }
      if undone == Threw { return WasRolledBack; }
      var r := CloseAndClear(RolledBack, outgoing, config0);
      out := if r == Crashed then Died else WasRolledBack;
    }

    /** Mark closed, then drop the staged copy, then the journal; stop at the first failure. */
    method CloseAndClear(how: Closed, ghost live0: Text, ghost config0: Option<Text>) returns (r: Reply)
      requires journal.Some? && journal.value.closed == Open && how != Open
      requires live == Some(live0) && config == config0 && Undoable(State(), live0, config0)
      modifies this`tick, this`journal, this`staged
      ensures Restorable(State(), live0, config0)
      ensures journal.Some? ==> journal.value.attempt == old(journal).value.attempt && journal.value.committed == old(journal).value.committed
      ensures r == Done ==> journal.None?
      ensures Quiet(old(tick), old(tick) + 3) ==> r == Done
    {
      hide Fields, SameMachine, OnlyAccountDiffers;
      r := UpdateJournal(Close(how));
      if r == Done { r := DeleteStaged(journal.value.attempt.stage); }
      if r == Done { r := RemoveJournal(); }
    }

    // ----- step 4: the gate ---------------------------------------------------------

    /** An unfinished or unreadable journal stops the switch; a finished one is cleaned up first. */
    method PassJournal(ghost cur: Triple) returns (s: Step)
      requires StandsFor(State(), cur)
      modifies this`tick, this`journal, this`staged
      ensures StandsFor(State(), cur)
      ensures tick >= old(tick) && (s == Go ==> journal.None?)
      ensures s != Go ==> s == Stop(Refused) || s == Stop(Died)
      ensures Unfinished(old(State())) ==> s != Go && State() == old(State())
      ensures old(journal).None? && faults(old(tick)) == Proceed ==> s == Go && tick == old(tick) + 1 && staged == old(staged)
    {
      var inside := ReadJournal();
      match inside
      case ReadCrashed => return Stop(Died);
      case Malformed => return Stop(Refused);
      case Absent => return Go;
      case Readable(j) =>
        if !(j.committed || j.closed != Open || j.attempt.id in commits) { return Stop(Refused); }
        var r := DeleteStaged(j.attempt.stage);
        if r == Crashed { return Stop(Died); }
        if r == Threw { return Stop(Refused); }
        r := RemoveJournal();
        if r == Crashed { return Stop(Died); }
        return if r == Threw then Stop(Refused) else Go;
    }

    /**
     The live store still holds, up to machine-shared fields, what this run's own refresh
     replaced, and the slot holds something else by now.
     */
    ghost predicate StaleHead(accountId: string, prepared: Prepared)
      reads this`live, this`rows
    {
      && live.Some? && live.value != EMPTY && accountId in rows
      && rows[accountId].credential.Some? && rows[accountId].credential.value != EMPTY
      && !SameAccount(rows[accountId].credential.value, live.value)
      && prepared.preFreshen.Some? && SameAccount(prepared.preFreshen.value, live.value)
    }

    /**
     A self-target is a no-op unless this run's own refresh left the live store on the exact
     credential it replaced; then the slot's newer head is published instead.
     */
    method SelfTarget(req: Request, prepared: Prepared) returns (s: Step)
      requires req.to in rows
      modifies this`tick
      ensures tick >= old(tick) && (s == Go ==> StaleHead(req.to, prepared))
      ensures s != Go ==> s == Stop(Noop) || s == Stop(Refused) || s == Stop(Died)
      ensures s == Stop(Refused) ==>
                && live.Some? && !StaleHead(req.to, prepared)
                && Classify.PositivelyForeign(Verdict(req, prepared, req.to, rows[req.to].credential, live.value).kind)
      ensures Quiet(old(tick), old(tick) + 2) ==> (s == Go <==> StaleHead(req.to, prepared))
    {
      var r, liveHead := ReadLive();
      if r == Crashed { return Stop(Died); }
      if r == Threw { return Stop(Noop); }
      var q, slotHead := ReadSlot(req.to);
      if q == Crashed { return Stop(Died); }
      if q == Threw || liveHead == EMPTY || slotHead == EMPTY || SameAccount(slotHead, liveHead) { return Stop(Noop); }
      if prepared.preFreshen.Some? && SameAccount(prepared.preFreshen.value, liveHead) { return Go; }
      var row := rows[req.to];
      var self := Classify.Slot(req.to, row.email, row.orgUuid, Some(slotHead));
      var c := Classify.Classification(self, prepared.slots, liveHead, prepared.prefetch, req.probeVerdict);
      return Stop(if Classify.PositivelyForeign(c.kind) then Refused else Noop);
    }

    /** An ordinary switch that every check lets through. */
    ghost predicate Admits(req: Request, prepared: Prepared)
      reads this`active, this`rows, this`live
    {
      && active.Some? && active.value in rows && prepared.active == active.value != req.to
      && req.to in rows && req.admitted && !req.republish && live.Some? && live.value != EMPTY
    }

    /** Every mutable fact is read again under the locks. `head` marks a verified stale predecessor. */
    method OpenTransaction(req: Request, prepared: Prepared, ghost cur: Triple)
      returns (s: Step, from: string, outgoing: Text, republish: bool, head: bool)
      requires StandsFor(State(), cur)
      modifies this`tick, this`journal, this`staged
      ensures StandsFor(State(), cur)
      ensures tick >= old(tick)
      ensures s == Go ==>
                && journal.None? && active == Some(from) && from in rows && req.to in rows
                && live == Some(outgoing) && outgoing != EMPTY
                && (republish <==> req.republish || head) && (republish ==> from == req.to)
                && (head <==> from == req.to && !req.republish) && (head ==> StaleHead(req.to, prepared))
      ensures s != Go ==> (Declined(s.outcome) && s.outcome != Failed) || s.outcome == Died
      ensures Unfinished(old(State())) ==> (s == Stop(Refused) || s == Stop(Died)) && State() == old(State())
      ensures old(journal).None? && Admits(req, prepared) && Quiet(old(tick), old(tick) + 2) ==>
                s == Go && !republish && !head && tick == old(tick) + 2 && staged == old(staged)
    {
      from, outgoing, republish, head := "", EMPTY, req.republish, false;
      s := PassJournal(cur);
      if s != Go { return; }
      if active.None? || active.value !in rows { return Stop(Refused), from, outgoing, republish, head; }
      from := active.value;
      if prepared.active != from && !(prepared.preFreshen.Some? && from == req.to) {
        if req.retried { return Stop(Refused), from, outgoing, republish, head; }
        if prepared.active == req.to || from == req.to { return Stop(RestartPhaseA), from, outgoing, republish, head; }
      }
      if !req.admitted || req.to !in rows || (req.republish && req.to != from) {
        return Stop(Refused), from, outgoing, republish, head;
      }
      if !req.republish && from == req.to {
        s := SelfTarget(req, prepared);
        if s != Go { return; }
        republish, head := true, true;
      }
      var r: Reply;
      r, outgoing := ReadLive();
      if r == Crashed { return Stop(Died), from, outgoing, republish, head; }
      if r == Threw || outgoing == EMPTY { return Stop(Refused), from, outgoing, republish, head; }
      if head && !SameAccount(prepared.preFreshen.value, outgoing) {
        return Stop(Refused), from, outgoing, republish, head;
      }
      s := Go;
    }

    // ----- step 5: keep the outgoing bytes ---------------------------------------------

    /** The outgoing bytes are where `kept` says, or need not be kept for the reason it gives. */
    ghost predicate Keeps(kept: Kept, prepared: Prepared, from: string, outgoing: Text)
      reads this`rows, this`unclaimed
    {
      match kept
      case InOutgoingSlot => from in rows && rows[from].credential == Some(outgoing)
      case InForeignSlot(id) => id != from && id in rows && rows[id].credential == Some(outgoing)
      case InStash(stash) => stash in unclaimed && unclaimed[stash] == outgoing
      case WipedBlob => Classify.IsWiped(outgoing)
      case VerifiedPredecessor => prepared.preFreshen.Some? && SameAccount(prepared.preFreshen.value, outgoing)
    }

    /** The stored row still holds what the lock-free snapshot lists for it. */
    ghost predicate StillListed(prepared: Prepared, accountId: string)
      reads this`rows
    {
      accountId in rows && rows[accountId].credential == SlotCredential(prepared.slots, accountId)
    }

    /** What a read of the slot at this tick gives; None when it fails or there is nothing. */
    ghost function SlotAt(t: nat, accountId: string): Option<Text>
      reads this`rows
    {
      if faults(t) == Proceed && accountId in rows then rows[accountId].credential else None
    }

    /** How the outgoing bytes are classified against what the outgoing slot was read to hold. */
    ghost function Verdict(req: Request, prepared: Prepared, from: string, read: Option<Text>, outgoing: Text): Classify.Classified
      requires from in rows
      reads this`rows
    {
      var row := rows[from];
      Classify.Classification(Classify.Slot(from, row.email, row.orgUuid, read), prepared.slots, outgoing, prepared.prefetch, req.probeVerdict)
    }

    /** Read at this tick, the bytes are the outgoing slot's own or nobody else's: it may adopt them. */
    ghost predicate AdoptsAt(t: nat, req: Request, prepared: Prepared, from: string, outgoing: Text)
      reads this`rows
    {
      from in rows && Classify.AdoptedByOutgoing(Verdict(req, prepared, from, SlotAt(t, from), outgoing).kind)
    }

    /** The bytes are another slot's, and the snapshot lists them there: nothing is stashed. */
    ghost predicate LeftToSnapshot(req: Request, prepared: Prepared, from: string, outgoing: Text)
      reads this`rows
    {
      && from in rows && rows[from].credential.Some?
      && var c := Verdict(req, prepared, from, rows[from].credential, outgoing);
         c.kind == Classify.ForeignSynced && SlotCredential(prepared.slots, c.foreignSlotId.value) == Some(outgoing)
    }

    /** Which kinds may end where. */
    ghost predicate RouteOk(kept: Kept, kind: Classify.Kind, head: bool, stash: string) {
      match kept
      case InOutgoingSlot => Classify.AdoptedByOutgoing(kind) || kind == Classify.OwnBytes
      case InForeignSlot(_) => kind == Classify.ForeignSynced
      case InStash(id) => id == stash && Classify.PositivelyForeign(kind)
      case WipedBlob => kind == Classify.Wiped
      case VerifiedPredecessor => head
    }

    /**
     Bytes left to another slot are kept exactly when its row still holds what the snapshot
     lists: the code compares with the snapshot, not with the row. All others are always kept.
     */
    method Preserve(req: Request, prepared: Prepared, from: string, outgoing: Text, republish: bool, head: bool)
      returns (s: Step, kind: Classify.Kind, ghost kept: Kept)
      requires from in rows
      requires head ==> prepared.preFreshen.Some? && SameAccount(prepared.preFreshen.value, outgoing)
      modifies this`tick, this`rows, this`unclaimed, this`relogins
      ensures s == Go && kept.InForeignSlot? ==> kept.accountId != from && SlotCredential(prepared.slots, kept.accountId) == Some(outgoing)
      ensures s == Go ==> (Keeps(kept, prepared, from, outgoing) <==> (kept.InForeignSlot? ==> StillListed(prepared, kept.accountId)))
      ensures s == Go && kept.InForeignSlot? ==> rows == old(rows)
      ensures kind == if head then Classify.OwnBytes else old(Verdict(req, prepared, from, SlotAt(tick, from), outgoing)).kind
      ensures s == Go ==> RouteOk(kept, kind, head, req.stash)
      ensures s == Go && republish ==> Classify.OwnBytes == kind || kind == Classify.OwnFamily || kind == Classify.OwnRotated
      ensures s != Go ==> s.outcome == Refused || s.outcome == Failed || s.outcome == Died
      ensures !republish && !head && old(LeftToSnapshot(req, prepared, from, outgoing)) && faults(old(tick)) == Proceed ==>
                s == Go && kept.InForeignSlot? && tick == old(tick) + 1 && unclaimed == old(unclaimed)
      ensures rows.Keys == old(rows).Keys
      ensures rows == old(rows)
           || (Classify.AdoptedByOutgoing(kind) && AdoptedAlone(old(rows), rows, from, Some(outgoing)))
      ensures s == Go && Classify.AdoptedByOutgoing(kind) ==> rows[from].credential == Some(outgoing)
    {
      hide Keeps, StillListed, SlotCredential, RouteOk, Classify.IsWiped;
      kept := WipedBlob;
      var read, credential := ReadSlot(from);
      var row := rows[from];
      var slot := Classify.Slot(from, row.email, row.orgUuid, if read == Done then Some(credential) else None);
      var raw := Classify.Classification(slot, prepared.slots, outgoing, prepared.prefetch, req.probeVerdict);
      var classified := if head then Classify.Classified(Classify.OwnBytes, None) else raw;
      kind := classified.kind;
      if read == Crashed { return Stop(Died), kind, kept; }
      if republish && kind != Classify.OwnBytes && kind != Classify.OwnFamily && kind != Classify.OwnRotated {
        return Stop(Refused), kind, kept;
      }
      Classify.WipedMeans(slot, prepared.slots, outgoing, prepared.prefetch, req.probeVerdict);
      s, kept := Route(classified, prepared, from, outgoing, head, req.stash);
    }

    /** Where bytes of each kind go. */
    method Route(c: Classify.Classified, prepared: Prepared, from: string, outgoing: Text, head: bool, stash: string)
      returns (s: Step, ghost kept: Kept)
      requires from in rows && (c.kind == Classify.OwnBytes && !head ==> rows[from].credential == Some(outgoing))
      requires head ==> c.kind == Classify.OwnBytes && prepared.preFreshen.Some? && SameAccount(prepared.preFreshen.value, outgoing)
      requires c.kind == Classify.ForeignSynced ==> c.foreignSlotId.Some? && c.foreignSlotId.value != from
      requires c.kind == Classify.Wiped ==> Classify.IsWiped(outgoing)
      modifies this`tick, this`rows, this`unclaimed, this`relogins
      ensures s == Go || s == Stop(Failed) || s == Stop(Died)
      ensures s == Go && kept.InForeignSlot? ==> rows == old(rows) && kept.accountId != from && SlotCredential(prepared.slots, kept.accountId) == Some(outgoing)
      ensures s == Go ==> (Keeps(kept, prepared, from, outgoing) <==> (kept.InForeignSlot? ==> StillListed(prepared, kept.accountId)))
      ensures s == Go ==> RouteOk(kept, c.kind, head, stash)
      ensures c.kind == Classify.ForeignSynced && SlotCredential(prepared.slots, c.foreignSlotId.value) == Some(outgoing) ==>
                s == Go && kept == InForeignSlot(c.foreignSlotId.value) && tick == old(tick) && unclaimed == old(unclaimed)
      ensures rows.Keys == old(rows).Keys
      ensures rows == old(rows) || (Classify.AdoptedByOutgoing(c.kind) && AdoptedAlone(old(rows), rows, from, Some(outgoing)))
      ensures s == Go && Classify.AdoptedByOutgoing(c.kind) ==> rows[from].credential == Some(outgoing)
    {
      hide SameAccount, Classify.IsWiped, SlotCredential;
      kept := WipedBlob;
      var r := Done;
      if Classify.AdoptedByOutgoing(c.kind) {
        r := WriteSlot(from, outgoing);
        kept := InOutgoingSlot;
      } else if c.kind == Classify.Foreign || c.kind == Classify.Alien || c.kind == Classify.KnownForeign
             || (c.kind == Classify.ForeignSynced && SlotCredential(prepared.slots, c.foreignSlotId.value) != Some(outgoing)) {
        r := StashUnclaimed(stash, outgoing);
        kept := InStash(stash);
      } else if c.kind == Classify.Wiped {
        r := RecordRelogin(from);
      } else if c.kind == Classify.ForeignSynced {
        kept := InForeignSlot(c.foreignSlotId.value);
      } else {
        kept := if head then VerifiedPredecessor else InOutgoingSlot;
      }
      s := match r case Done => Go case Threw => Stop(Failed) case Crashed => Stop(Died);
    }

    // ----- step 6: intent, then the staged copy -----------------------------------------

    method Stage(attempt: Attempt, outgoing: Text, ghost config0: Option<Text>) returns (s: Step)
      requires journal.None? && live == Some(outgoing) && config == config0
      modifies this`tick, this`journal, this`staged
      ensures Restorable(State(), outgoing, config0)
      ensures journal.Some? ==> journal.value.attempt == attempt && !journal.value.committed
      ensures s == Go ==> journal == Some(Apply(NewJournal(attempt), StagedLanded)) && Undoable(State(), outgoing, config0)
      ensures s != Go ==> s == Stop(Failed) || s == Stop(Died)
      ensures Quiet(old(tick), old(tick) + 3) ==> s == Go && tick == old(tick) + 3 && staged == old(staged)[attempt.stage := outgoing]
    {
      hide Fields, SameMachine, OnlyAccountDiffers;
      var r := CreateJournal(NewJournal(attempt));
      if r == Done { r := WriteStaged(attempt.stage, outgoing); }
      if r == Done { r := UpdateJournal(StagedLanded); }
      if r == Done { return Go; }
      if r == Crashed { return Stop(Died); }
      if journal.None? { return Stop(Failed); }
      r := CloseAndClear(StageFailed, outgoing, config0);
      return Stop(if r == Crashed then Died else Failed);
    }

    // ----- step 7: hash before effect, then the live credential ---------------------------

    method PublishLive(composed: Text, outgoing: Text, ghost config0: Option<Text>) returns (r: Reply)
      requires journal.Some? && journal.value.closed == Open && !journal.value.committed
      requires journal.value.stagedWritten && !journal.value.credentialsStarted && !journal.value.configStarted
      requires live == Some(outgoing) && config == config0 && Undoable(State(), outgoing, config0)
      requires SameMachine(composed, outgoing)
      modifies this`tick, this`journal, this`live
      ensures Undoable(State(), outgoing, config0)
      ensures journal.value.attempt == old(journal).value.attempt && journal.value.closed == Open && !journal.value.committed
      ensures !journal.value.configStarted
      ensures r == Done ==> live == Some(composed) && journal.value.credentialsStarted && journal.value.credentialsWritten
      ensures Quiet(old(tick), old(tick) + 3) ==> r == Done && tick == old(tick) + 3
    {
      hide Fields, SameMachine, OnlyAccountDiffers;
      r := UpdateJournal(CredentialsIntent(Sha256(composed)));
      if r == Done { r := WriteLive(composed); }
      if r == Done { r := UpdateJournal(CredentialsLanded); }
    }

    // ----- step 8: snapshot and plan, then the config file --------------------------------

    /** `mem` is what the process remembers, updated before the journal is. */
    method PublishConfig(mem0: Journal, oauth: Json, ghost live0: Text, ghost config0: Option<Text>)
      returns (r: Reply, mem: Journal)
      requires journal.Some? && journal.value.closed == Open && !journal.value.committed && !journal.value.configStarted
      requires mem0.credentialsStarted && !mem0.configStarted
      requires config == config0 && Undoable(State(), live0, config0)
      modifies this`tick, this`journal, this`config
      ensures Undoable(State(), live0, config0) && Remembers(State(), mem, live0, config0)
      ensures journal.value.attempt == old(journal).value.attempt && journal.value.closed == Open && !journal.value.committed
      ensures mem.attempt == mem0.attempt
      ensures r == Done ==> config0.Some? && Fields(config0.value).Some? && config == Some(Splice(Fields(config0.value).value, oauth))
      ensures Quiet(old(tick), old(tick) + 4) && config0.Some? && Fields(config0.value).Some? ==> r == Done && tick == old(tick) + 4
    {
      mem := mem0;
      var raw: Text;
      r, raw := ReadConfig();
      if r != Done { return; }
      if Fields(raw).None? { return Threw, mem; }
      var original := ConfigAccount(Fields(raw).value);
      var planned := Splice(Fields(raw).value, oauth);
      SpliceOnlyAccount(raw, oauth);
      mem := Apply(mem0, ConfigIntent(raw, original, Sha256(planned)));
      r := LandConfig(ConfigIntent(raw, original, Sha256(planned)), planned, live0, config0);
    }

    /** Journal the intent, write the planned text, journal the landing. */
    method LandConfig(intent: Patch, planned: Text, ghost live0: Text, ghost config0: Option<Text>) returns (r: Reply)
      requires intent.ConfigIntent? && config0 == Some(intent.text) && intent.planned == Sha256(planned)
      requires Fields(intent.text).Some? && OnlyAccountDiffers(planned, intent.text)
      requires journal.Some? && journal.value.closed == Open && !journal.value.committed && !journal.value.configStarted
      requires config == config0 && Undoable(State(), live0, config0)
      modifies this`tick, this`journal, this`config
      ensures Undoable(State(), live0, config0)
      ensures journal.value.attempt == old(journal).value.attempt && journal.value.closed == Open && !journal.value.committed
      ensures config == config0 || config == Some(planned)
      ensures r == Done ==> config == Some(planned)
      ensures Quiet(old(tick), old(tick) + 3) ==> r == Done && tick == old(tick) + 3
    {
      hide Fields, OnlyAccountDiffers;
      r := UpdateJournal(intent);
      if r == Done { r := WriteConfig(planned); }
      if r == Done { r := UpdateJournal(ConfigLanded); }
    }

    // ----- step 9 and the finished-marker sequence ------------------------------------------

    method Finish() returns (out: Outcome)
      requires journal.Some? && journal.value.closed == Open && !journal.value.committed
      modifies this`tick, this`journal, this`staged
      ensures out == Ok || out == Died
      ensures journal.Some? ==> journal.value.attempt == old(journal).value.attempt
      ensures Quiet(old(tick), old(tick) + 3) ==> out == Ok && journal.None? && staged == old(staged) - {old(journal).value.attempt.stage}
    {
      var r := UpdateJournal(MarkCommitted);
      if r == Done { r := DeleteStaged(journal.value.attempt.stage); }
      if r == Done { r := RemoveJournal(); }
      out := if r == Crashed then Died else Ok;
    }

    // ----- the whole transaction ---------------------------------------------------------------

    /**
     Steps 6 to 9 and their rollback. Unless the commit landed and then threw, the world
     afterwards stands for the triple it stood for before or for the switched one, the latter
     only after a landed commit. When no journal is left the triple is whole exactly when the
     commit did not land and throw, or could not be told from the switched one anyway.
     */
    method Transact(attempt: Attempt, target: Text, oauth: Json, outgoing: Text, ghost cur: Triple)
      returns (out: Outcome, ghost next: Triple)
      requires journal.None? && TripleOf(State()) == cur && live == Some(outgoing)
      requires attempt.id !in commits && !ambiguous && IsOauthBlob(target)
      requires attempt.republish ==> cur.active == Some(attempt.to)
      modifies this`tick, this`live, this`config, this`staged, this`journal, this`active, this`commits, this`ambiguous
      ensures out == Ok || out == Failed || out == WasRolledBack || out == Died
      ensures !ambiguous ==> StandsFor(State(), next)
      ensures next == cur || SwitchedTriple(cur, next, target, oauth, attempt.to)
      ensures out == Ok ==> TripleOf(State()) == next && SwitchedTriple(cur, next, target, oauth, attempt.to)
      ensures !ambiguous && out != Ok && out != Died ==> next == cur
      ensures out == Failed ==> TripleOf(State()) == cur
      ensures journal.None? ==>
                (TripleOf(State()) == cur || TripleOf(State()) == next <==>
                 !ambiguous || cur.active == next.active || (cur.live == next.live && cur.config == next.config))
      ensures Quiet(old(tick), old(tick) + 14) && cur.config.Some? && Fields(cur.config.value).Some? ==>
                out == Ok && journal.None? && staged == old(staged) - {attempt.stage}
      ensures Quiet(old(tick), old(tick) + 10) && cur.config.Some? && Fields(cur.config.value).Some?
              && faults(old(tick) + 10) == FailAfter && Quiet(old(tick) + 11, old(tick) + 20) ==>
                out == WasRolledBack && journal.None? && ambiguous && SwitchedTriple(cur, next, target, oauth, attempt.to)
    {
      hide MergeShared, SharedOrEmpty, Splice, Fields, Undoable, Remembers;
      next := cur;
      ComposedKeepsMachine(target, outgoing);
      var s := Stage(attempt, outgoing, cur.config);
      if s != Go { return s.outcome, next; }
      var r, mem := Publish(attempt, MergeShared(target, SharedOrEmpty(outgoing)), oauth, outgoing, cur.config);
      if r == Done {
        out, next := CommitOrUndo(attempt, mem, outgoing, cur);
      } else {
        out := Died;
        if r == Threw { out := RollBack(mem, outgoing, cur.config); }
      }
    }

    /** Step 9 once both effects are in place: finish, or roll back when the commit throws. */
    method CommitOrUndo(attempt: Attempt, mem: Journal, outgoing: Text, ghost cur: Triple)
      returns (out: Outcome, ghost next: Triple)
      requires journal.Some? && journal.value.closed == Open && !journal.value.committed
      requires journal.value.attempt == attempt == mem.attempt && attempt.id !in commits && !ambiguous
      requires Undoable(State(), outgoing, cur.config) && Remembers(State(), mem, outgoing, cur.config)
      requires cur.live == Some(outgoing) && active == cur.active && (attempt.republish ==> active == Some(attempt.to))
      modifies this`tick, this`live, this`config, this`staged, this`journal, this`active, this`commits, this`ambiguous
      ensures out == Ok || out == WasRolledBack || out == Died
      ensures next == cur || next == Triple(old(live), old(config), Some(attempt.to))
      ensures out == Ok ==> TripleOf(State()) == next == Triple(old(live), old(config), Some(attempt.to))
      ensures !ambiguous ==> StandsFor(State(), next) && (out == WasRolledBack ==> next == cur)
      ensures journal.None? ==>
                (TripleOf(State()) == cur || TripleOf(State()) == next <==>
                 !ambiguous || cur.active == next.active || (cur.live == next.live && cur.config == next.config))
      ensures Quiet(old(tick), old(tick) + 4) ==> out == Ok && journal.None? && staged == old(staged) - {attempt.stage}
      ensures faults(old(tick)) == FailAfter && Quiet(old(tick) + 1, old(tick) + 10) ==>
                out == WasRolledBack && journal.None? && ambiguous && next == Triple(old(live), old(config), Some(attempt.to))
    {
      hide Fields, SameMachine, OnlyAccountDiffers;
      next := cur;
      var r := CommitSwitch(attempt);
      if attempt.id in commits { next := TripleOf(State()); }
      ambiguous := r == Threw && attempt.id in commits;
      match r
      case Done => out := Finish();
      case Threw => out := RollBack(mem, outgoing, cur.config);
      case Crashed => out := Died;
    }

    /** Steps 7 and 8, with the process's own memory of what it started. */
    method Publish(attempt: Attempt, composed: Text, oauth: Json, outgoing: Text, ghost config0: Option<Text>)
      returns (r: Reply, mem: Journal)
      requires journal == Some(Apply(NewJournal(attempt), StagedLanded))
      requires live == Some(outgoing) && config == config0 && Undoable(State(), outgoing, config0)
      requires SameMachine(composed, outgoing)
      modifies this`tick, this`live, this`config, this`journal
      ensures Undoable(State(), outgoing, config0) && Remembers(State(), mem, outgoing, config0)
      ensures journal.value.attempt == attempt == mem.attempt && journal.value.closed == Open && !journal.value.committed
      ensures r == Done ==> live == Some(composed)
      ensures r == Done ==> config0.Some? && Fields(config0.value).Some? && config == Some(Splice(Fields(config0.value).value, oauth))
      ensures Quiet(old(tick), old(tick) + 7) && config0.Some? && Fields(config0.value).Some? ==> r == Done && tick == old(tick) + 7
    {
      mem := Apply(NewJournal(attempt), CredentialsIntent(Sha256(composed)));
      r := PublishLive(composed, outgoing, config0);
      if r == Done { r, mem := PublishConfig(mem, oauth, outgoing, config0); }
    }

    /**
     One switch attempt, from the journal gate to the end. An unfinished journal is never
     passed, and the live credential is overwritten only when its bytes are kept somewhere,
     except for bytes left to another slot whose row is no longer what the snapshot lists.
     Slots change at most in the outgoing one, to the outgoing bytes, and only when these were
     classified under the locks as its own or nobody else's; a self-target goes past the locks
     only over the credential this run's own refresh replaced.
     */
    method SwitchClaude(req: Request, prepared: Prepared, ghost cur: Triple)
      returns (out: Outcome, ghost next: Triple, ghost kept: Kept, ghost from: string)
      requires StandsFor(State(), cur)
      requires req.attempt !in commits && !ambiguous
      modifies this
      ensures !ambiguous ==> StandsFor(State(), next)
      ensures next == cur || IsSwitched(cur, next, req)
      ensures out == Ok ==> TripleOf(State()) == next && IsSwitched(cur, next, req)
      ensures !ambiguous && out != Ok && out != Died ==> next == cur
      ensures Declined(out) ==> TripleOf(State()) == old(TripleOf(State()))
      ensures Unfinished(old(State())) ==> (out == Refused || out == Died) && State() == old(State())
      ensures live != old(live) && kept.InForeignSlot? ==> SlotCredential(prepared.slots, kept.accountId) == old(live)
      ensures live != old(live) ==>
                && old(live).Some?
                && (Keeps(kept, prepared, from, old(live).value) <==> (kept.InForeignSlot? ==> old(StillListed(prepared, kept.accountId))))
      ensures rows != old(rows) ==>
                && old(active) == Some(from) && AdoptedAlone(old(rows), rows, from, old(live))
                && exists t :: old(tick) <= t && old(AdoptsAt(t, req, prepared, from, live.value))
      ensures old(active) == Some(req.to) && !req.republish
              && (out == Ok || out == Failed || out == WasRolledBack || live != old(live) || rows != old(rows)) ==>
                old(StaleHead(req.to, prepared)) && rows == old(rows)
      ensures old(journal).None? && Quiet(old(tick), old(tick) + 18) && old(Admits(req, prepared)) && old(Switchable(req.to))
              && old(LeftToSnapshot(req, prepared, active.value, live.value)) ==>
                out == Ok && kept.InForeignSlot? && rows == old(rows) && unclaimed == old(unclaimed) && staged == old(staged) - {req.stage}
    {
      hide Verdict, Classify.Classification, SlotCredential, AdoptsAt, AdoptedAlone, StaleHead, Keeps;
      next, kept, from := cur, WipedBlob, "";
      var s, source, outgoing, republish, head := OpenTransaction(req, prepared, cur);
      from := source;
      if s != Go { return s.outcome, next, kept, from; }
      ghost var at := tick;
      out, next, kept := SwitchAdmitted(req, prepared, source, outgoing, republish, head, cur);
      if rows != old(rows) { assert old(AdoptsAt(at, req, prepared, from, live.value)); }
    }

    /** Steps 5 to 9: keep the outgoing bytes, then move the triple. */
    method SwitchAdmitted(req: Request, prepared: Prepared, from: string, outgoing: Text, republish: bool, head: bool, ghost cur: Triple)
      returns (out: Outcome, ghost next: Triple, ghost kept: Kept)
      requires journal.None? && TripleOf(State()) == cur && live == Some(outgoing)
      requires req.attempt !in commits && !ambiguous
      requires from in rows && req.to in rows && active == Some(from) && (republish ==> from == req.to)
      requires head ==> prepared.preFreshen.Some? && SameAccount(prepared.preFreshen.value, outgoing)
      modifies this
      ensures !ambiguous ==> StandsFor(State(), next)
      ensures next == cur || IsSwitched(cur, next, req)
      ensures out == Ok ==> TripleOf(State()) == next && IsSwitched(cur, next, req)
      ensures !ambiguous && out != Ok && out != Died ==> next == cur
      ensures Declined(out) ==> TripleOf(State()) == cur
      ensures live != Some(outgoing) && kept.InForeignSlot? ==> SlotCredential(prepared.slots, kept.accountId) == Some(outgoing)
      ensures live != Some(outgoing) ==>
                (Keeps(kept, prepared, from, outgoing) <==> (kept.InForeignSlot? ==> old(StillListed(prepared, kept.accountId))))
      ensures rows != old(rows) ==>
                && !head && AdoptedAlone(old(rows), rows, from, Some(outgoing))
                && old(AdoptsAt(tick, req, prepared, from, outgoing))
      ensures Quiet(old(tick), old(tick) + 16) && !republish && !head && old(Switchable(req.to))
              && old(LeftToSnapshot(req, prepared, from, outgoing)) ==>
                out == Ok && kept.InForeignSlot? && rows == old(rows) && unclaimed == old(unclaimed) && staged == old(staged) - {req.stage}
    {
      hide MergeShared, SharedOrEmpty, Splice, TargetOauth, SameAccount, SlotCredential, Keeps, Verdict, Classify.Classification, SlotAt, RouteOk, AdoptedAlone;
      next := cur;
      var s, kind;
      s, kind, kept := Preserve(req, prepared, from, outgoing, republish, head);
      if s != Go { return s.outcome, next, kept; }
      out, next := SwitchKept(req, from, outgoing, republish, cur);
    }

    /** Steps 6 to 9, the outgoing bytes being kept: no slot changes any more. */
    method SwitchKept(req: Request, from: string, outgoing: Text, republish: bool, ghost cur: Triple) returns (out: Outcome, ghost next: Triple)
      requires journal.None? && TripleOf(State()) == cur && live == Some(outgoing)
      requires req.attempt !in commits && !ambiguous
      requires req.to in rows && active == Some(from) && (republish ==> from == req.to)
      modifies this`tick, this`live, this`config, this`staged, this`journal, this`active, this`commits, this`ambiguous
      ensures !ambiguous ==> StandsFor(State(), next)
      ensures next == cur || IsSwitched(cur, next, req)
      ensures out == Ok ==> TripleOf(State()) == next && IsSwitched(cur, next, req)
      ensures !ambiguous && out != Ok && out != Died ==> next == cur
      ensures Declined(out) ==> TripleOf(State()) == cur
      ensures Quiet(old(tick), old(tick) + 15) && old(Switchable(req.to)) ==> out == Ok && staged == old(staged) - {req.stage}
    {
      hide MergeShared, SharedOrEmpty, Splice, TargetOauth, SameAccount;
      next := cur;
      var s, target, oauth := ReadTarget(req.to);
      if s != Go { return s.outcome, next; }
      out, next := Transact(Attempt(req.attempt, from, req.to, republish, req.stage), target, oauth, outgoing, cur);
    }

    /** The target slot holds a login and a config snapshot of its own, and the config file parses. */
    ghost predicate Switchable(to: string)
      reads this`rows, this`config
    {
      && to in rows && rows[to].credential.Some? && OauthBlock(rows[to].credential.value).Some?
      && TargetOauth(rows[to].configJson, to).Some? && config.Some? && Fields(config.value).Some?
    }

    /** The slot's head and its account block, read after step 5 may have written them. */
    method ReadTarget(to: string) returns (s: Step, target: Text, oauth: Json)
      requires to in rows
      modifies this`tick
      ensures s == Go ==> rows[to].credential == Some(target) && TargetOauth(rows[to].configJson, to) == Some(oauth)
      ensures s == Go ==> OauthBlock(target).Some?
      ensures Switchable(to) && faults(old(tick)) == Proceed ==> s == Go && tick == old(tick) + 1
      ensures s != Go ==> s == Stop(Failed) || s == Stop(Died)
    {
      var r;
      r, target := ReadSlot(to);
      oauth := Null;
      if r != Done { return Stop(if r == Crashed then Died else Failed), target, oauth; }
      var offered := TargetOauth(rows[to].configJson, to);
      if OauthBlock(target).None? || offered.None? { return Stop(Failed), target, oauth; }
      return Go, target, offered.value;
    }

    /** `next` is `cur` with all three parts switched to the slot `req.to`. */
    ghost predicate IsSwitched(cur: Triple, next: Triple, req: Request)
      reads this`rows
    {
      && req.to in rows && rows[req.to].credential.Some?
      && TargetOauth(rows[req.to].configJson, req.to).Some?
      && SwitchedTriple(cur, next, rows[req.to].credential.value, TargetOauth(rows[req.to].configJson, req.to).value, req.to)
    }
  }

  /** One row has changed, and only in its credential. */
  ghost predicate AdoptedAlone(before: map<string, Row>, after: map<string, Row>, from: string, bytes: Option<Text>) {
    bytes.Some? && from in before && after == before[from := before[from].(credential := bytes)]
  }

  /** All three parts moved: the composed credential, the spliced config, the active login. */
  ghost predicate SwitchedTriple(cur: Triple, next: Triple, target: Text, oauth: Json, to: string) {
    && cur.live.Some? && cur.config.Some? && Fields(cur.config.value).Some? && IsOauthBlob(target)
    && next.live == Some(MergeShared(target, SharedOrEmpty(cur.live.value)))
    && next.config == Some(Splice(Fields(cur.config.value).value, oauth))
    && next.active == Some(to)
  }

  /** The Phase-A credential of the first listed slot with this id. */
  function SlotCredential(slots: seq<Classify.Slot>, accountId: string): Option<Text> {
    if slots == [] then None
    else if slots[0].accountId == accountId then slots[0].credential
    else SlotCredential(slots[1..], accountId)
  }
}
