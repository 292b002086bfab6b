/**
 What happens to an interrupted Claude switch afterwards: the automatic reconciliation,
 the two operator resolutions, and whole histories of switches, recoveries and crashes.
 `admitted` stands for every check on owners and foreign processes that may turn a
 recovery away before it reads the journal under its locks.
 */
module SwitchRecovery {
  import opened Prelude
  import opened Json
  import opened Credentials
  import opened SwitchModel
  import opened SwitchMachine

  /** The unfinished journal a recovery may act on. */
  method AdmitJournal(m: Machine, admitted: bool) returns (s: Step, j: Journal)
    modifies m`tick
    ensures s == Go ==> m.journal == Some(j) && Unfinished(m.State())
    ensures s != Go ==> s == Stop(Refused) || s == Stop(Died)
    ensures m.Quiet(old(m.tick), old(m.tick) + 1) && admitted && Unfinished(m.State()) ==> s == Go && m.tick == old(m.tick) + 1
  {
    j := NewJournal(Attempt("", "", "", false, ""));
    var read := m.ReadJournal();
    if read == ReadCrashed { return Stop(Died), j; }
    if !admitted || !read.Readable? { return Stop(Refused), j; }
    j := read.journal;
    s := if j.committed || j.closed != Open || j.attempt.id in m.commits then Stop(Refused) else Go;
  }

  /** restoreLiveFromStaged, on a live credential nobody else has written. */
  method RestoreLiveFile(m: Machine, j: Journal, ghost live0: Text) returns (r: Reply, d: LiveRestore)
    requires m.journal == Some(j) && j.credentialsStarted
    requires StagedHolds(m.State(), j, live0) && LiveUndoable(m.State(), j, live0)
    modifies m`tick, m`live
    ensures m.live == old(m.live) || m.live == Some(live0)
    ensures r == Done && (d == LiveRestored || d == LiveNotLanded) ==> m.live == Some(live0)
    ensures m.Quiet(old(m.tick), old(m.tick) + 3) ==>
              r == Done && (d == LiveRestored || d == LiveNotLanded) && old(m.tick) <= m.tick <= old(m.tick) + 3
  {
    hide SameMachine;
    var staged: Option<Text>;
    r, staged := m.ReadStaged(j.attempt.stage);
    if r == Crashed { return r, StagedUnreadable; }
    if r == Threw || staged.None? { return Done, StagedUnreadable; }
    var live: Text;
    r, live := m.ReadLive();
    if r == Crashed { return r, LiveMoved; }
    if r == Threw { return Done, LiveMoved; }
    var (decision, restored) := RestoreLive(Some(live), m.staged, j);
    d := decision;
    if d == LiveRestored { r := m.WriteLive(restored.value); }
  }

  /** After the effects are undone: the audit row, then close, drop the copy, drop the journal. */
  method CloseOut(m: Machine, ghost live0: Text, ghost config0: Option<Text>) returns (r: Reply)
    requires m.journal.Some? && m.journal.value.closed == Open
    requires m.live == Some(live0) && m.config == config0 && Undoable(m.State(), live0, config0)
    modifies m`tick, m`journal, m`staged
    ensures Restorable(m.State(), live0, config0)
    ensures m.journal.Some? ==> m.journal.value.attempt == old(m.journal).value.attempt && m.journal.value.committed == old(m.journal).value.committed
    ensures m.Quiet(old(m.tick), old(m.tick) + 4) ==> r == Done && m.journal.None?
  {
    hide Fields, SameMachine, OnlyAccountDiffers;
    r := m.RecordRow();
    if r == Done { r := m.CloseAndClear(RolledBack, live0, config0); }
  }

  /**
   Automatic reconciliation: live credential, then config, then the markers. Whatever fails
   on the way, the world still stands for the same triple; undisturbed, it is the triple the
   recovery function gives, and the journal is gone.
   */
  method Reconcile(m: Machine, admitted: bool, ghost cur: Triple) returns (out: Outcome)
    requires StandsFor(m.State(), cur)
    modifies m`tick, m`live, m`config, m`journal, m`staged
    ensures StandsFor(m.State(), cur)
    ensures out == Refused || out == Failed || out == WasRolledBack || out == Died
    ensures out == WasRolledBack ==> TripleOf(m.State()) == cur
    ensures m.Quiet(old(m.tick), old(m.tick) + 10) && admitted && Unfinished(old(m.State())) ==>
              out == WasRolledBack && m.journal.None? && TripleOf(m.State()) == TripleOf(Recover(old(m.State())))
  {
    hide Fields, SameMachine, Recover;
    RecoveryIsExact(m.State(), cur);
    var s, j := AdmitJournal(m, admitted);
    if s != Go { return s.outcome; }
    var r := Done;
    if j.credentialsStarted {
      var d;
      r, d := RestoreLiveFile(m, j, cur.live.value);
      if r == Done && (d == LiveMoved || d == StagedUnreadable) { return Refused; }
    }
    if r == Done { r := m.RestoreConfigFile(j, cur.config); }
    if r == Done { r := CloseOut(m, cur.live.value, cur.config); }
    out := match r case Done => WasRolledBack case Threw => Failed case Crashed => Died;
  }

  /** Both credentials a resolution backwards compares, when the live one may be replaced. */
  method ReadForBack(m: Machine, j: Journal, outgoing: set<Option<Fingerprint>>) returns (s: Step, staged: Text, live: Text)
    modifies m`tick
    ensures s == Go && j.credentialsStarted ==> m.live == Some(live) && j.attempt.stage in m.staged && staged == m.staged[j.attempt.stage]
    ensures s != Go ==> s == Stop(Refused) || s == Stop(Died)
    ensures m.Quiet(old(m.tick), old(m.tick) + 2) && m.live.Some? && j.attempt.stage in m.staged
            && (m.live.value == m.staged[j.attempt.stage] || j.credentialsHash == Some(Sha256(m.live.value))) ==>
              s == Go
    ensures m.Quiet(old(m.tick), old(m.tick) + 2) && !j.credentialsStarted ==> s == Go
    ensures old(m.tick) <= m.tick <= old(m.tick) + 2
  {
    hide CredentialFingerprint;
    staged, live := EMPTY, EMPTY;
    if !j.credentialsStarted { return Go, staged, live; }
    var r, copy := m.ReadStaged(j.attempt.stage);
    if r == Crashed { return Stop(Died), staged, live; }
    if r == Threw || copy.None? { return Stop(Refused), staged, live; }
    staged := copy.value;
    r, live := m.ReadLive();
    if r == Crashed { return Stop(Died), staged, live; }
    if r == Threw { return Stop(Refused), staged, live; }
    s := if live != staged && j.credentialsHash != Some(Sha256(live)) && CredentialFingerprint(live) !in outgoing
         then Stop(Refused) else Go;
  }

  /**
   The operator's resolution backwards: config first, then the live credential. `outgoing`
   are the recorded fingerprints of the outgoing slot.
   */
  method ResolveBack(m: Machine, admitted: bool, outgoing: set<Option<Fingerprint>>, ghost cur: Triple) returns (out: Outcome)
    requires StandsFor(m.State(), cur)
    modifies m`tick, m`live, m`config, m`journal, m`staged
    ensures StandsFor(m.State(), cur)
    ensures out == Refused || out == Failed || out == WasRolledBack || out == Died
    ensures out == WasRolledBack ==> TripleOf(m.State()) == cur
    ensures m.Quiet(old(m.tick), old(m.tick) + 10) && admitted && Unfinished(old(m.State())) ==>
              out == WasRolledBack && m.journal.None?
  {
    hide Fields, SameMachine, CredentialFingerprint;
    var s, j := AdmitJournal(m, admitted);
    if s != Go { return s.outcome; }
    var staged, live;
    s, staged, live := ReadForBack(m, j, outgoing);
    if s != Go { return s.outcome; }
    var r := m.RestoreConfigFile(j, cur.config);
    if r == Done && j.credentialsStarted && j.credentialsHash == Some(Sha256(live)) { r := m.WriteLive(staged); }
    if r == Done { r := CloseOut(m, cur.live.value, cur.config); }
    out := match r case Done => WasRolledBack case Threw => Failed case Crashed => Died;
  }

  /**
   Bring the config file to the text the switch planned, journalling the plan first when the
   switch had not got that far.
   */
  method FinishConfig(m: Machine, j: Journal, oauth: Json, ghost live0: Text, ghost config0: Option<Text>) returns (s: Step)
    requires m.journal == Some(j) && j.closed == Open && !j.committed && Undoable(m.State(), live0, config0)
    modifies m`tick, m`journal, m`config
    ensures Undoable(m.State(), live0, config0)
    ensures m.journal.value.attempt == j.attempt && m.journal.value.closed == Open && !m.journal.value.committed
    ensures s != Go ==> s == Stop(Refused) || s == Stop(Failed) || s == Stop(Died)
    ensures s == Go ==>
              && m.config.Some? && config0.Some? && OnlyAccountDiffers(m.config.value, config0.value)
              && (if j.configStarted
                  then j.configHash == Some(Sha256(m.config.value))
                  else m.config == Some(Splice(Fields(config0.value).value, oauth)))
  {
    hide Fields, SameMachine, OnlyAccountDiffers, Splice;
    var r, raw := m.ReadConfig();
    if r == Crashed { return Stop(Died); }
    if r == Threw || Fields(raw).None? { return Stop(Refused); }
    if j.configStarted && j.configHash == Some(Sha256(raw)) { return Go; }
    if j.configStarted && j.configText != Some(raw) { return Stop(Refused); }
    var planned := Splice(Fields(raw).value, oauth);
    SpliceOnlyAccount(raw, oauth);
    if j.configStarted {
      if j.configHash != Some(Sha256(planned)) { return Stop(Refused); }
      r := RewriteConfig(m, j, planned, live0, config0);
    } else {
      r := m.LandConfig(ConfigIntent(raw, ConfigAccount(Fields(raw).value), Sha256(planned)), planned, live0, config0);
    }
    s := match r case Done => Go case Threw => Stop(Failed) case Crashed => Stop(Died);
  }

  /** The journal already announces this text: write it and note the landing. */
  method RewriteConfig(m: Machine, j: Journal, planned: Text, ghost live0: Text, ghost config0: Option<Text>) returns (r: Reply)
    requires m.journal == Some(j) && j.closed == Open && !j.committed && Undoable(m.State(), live0, config0)
    requires j.configStarted && j.configHash == Some(Sha256(planned))
    modifies m`tick, m`journal, m`config
    ensures Undoable(m.State(), live0, config0)
    ensures m.journal.value.attempt == j.attempt && m.journal.value.closed == Open && !m.journal.value.committed
    ensures r == Done ==> m.config == Some(planned)
  {
    hide Fields, SameMachine, OnlyAccountDiffers;
    r := m.WriteConfig(planned);
    if r == Done { r := m.UpdateJournal(ConfigLanded); }
  }

  /** What a resolution forwards leaves: the target's account in both stores, the rest untouched. */
  ghost predicate Completed(m: Machine, cur: Triple, next: Triple, attempt: Attempt)
    reads m`rows
  {
    && Moved(cur, next)
    && attempt.to in m.rows && m.rows[attempt.to].credential.Some?
    && SameAccount(m.rows[attempt.to].credential.value, next.live.value)
    && next.active == if attempt.republish then cur.active else Some(attempt.to)
  }

  /** The machine's own fields survive, in the credential and in the config. */
  ghost predicate Moved(cur: Triple, next: Triple) {
    && cur.live.Some? && next.live.Some? && SameMachine(next.live.value, cur.live.value)
    && cur.config.Some? && next.config.Some? && OnlyAccountDiffers(next.config.value, cur.config.value)
  }

  /**
   The operator's resolution forwards. Only a switch whose credential write was journalled as
   landed, and whose live credential is the target's account, is completed.
   */
  method ResolveForward(m: Machine, admitted: bool, ghost cur: Triple) returns (out: Outcome, ghost next: Triple)
    requires StandsFor(m.State(), cur)
    modifies m`tick, m`config, m`journal, m`staged, m`active, m`commits
    ensures StandsFor(m.State(), next)
    ensures next == cur || (Unfinished(old(m.State())) && Completed(m, cur, next, old(m.journal).value.attempt))
    ensures out == Refused || out == Failed || out == Ok || out == Died
    ensures out == Ok ==> TripleOf(m.State()) == next && Unfinished(old(m.State())) && Completed(m, cur, next, old(m.journal).value.attempt)
  {
    hide Fields, SameAccount, SharedOrEmpty, OnlyAccountDiffers;
    next := cur;
    var s, j, oauth := AdmitForward(m, admitted);
    if s != Go { return s.outcome, next; }
    s := FinishConfig(m, j, oauth, cur.live.value, cur.config);
    if s != Go { return s.outcome, next; }
    var r := m.CommitSwitch(j.attempt);
    if j.attempt.id in m.commits { next := TripleOf(m.State()); }
    out := match r case Done => Ok case Threw => Failed case Crashed => Died;
    if r == Done { out := m.Finish(); }
  }

  /** The journal says the credential landed, and it is still the target's account. */
  method AdmitForward(m: Machine, admitted: bool) returns (s: Step, j: Journal, oauth: Json)
    modifies m`tick
    ensures s == Go ==> m.journal == Some(j) && Unfinished(m.State()) && j.credentialsWritten && m.live.Some?
    ensures s == Go ==> j.attempt.to in m.rows && m.rows[j.attempt.to].credential.Some?
    ensures s == Go ==> SameAccount(m.rows[j.attempt.to].credential.value, m.live.value)
                        && TargetOauth(m.rows[j.attempt.to].configJson, j.attempt.to) == Some(oauth)
    ensures s != Go ==> s == Stop(Refused) || s == Stop(Died)
  {
    hide SameAccount, TargetOauth;
    oauth := Null;
    s, j := AdmitJournal(m, admitted);
    if s != Go { return; }
    if !j.credentialsWritten { return Stop(Refused), j, oauth; }
    var r, live := m.ReadLive();
    if r == Crashed { return Stop(Died), j, oauth; }
    if r == Threw { return Stop(Refused), j, oauth; }
    var target;
    r, target := m.ReadSlot(j.attempt.to);
    if r == Crashed { return Stop(Died), j, oauth; }
    if r == Threw || !SameAccount(target, live) { return Stop(Refused), j, oauth; }
    var offered := TargetOauth(m.rows[j.attempt.to].configJson, j.attempt.to);
    if offered.None? { return Stop(Refused), j, oauth; }
    oauth := offered.value;
  }

  // ----- whole histories -----------------------------------------------------------------

  /** One process's work; each ends, by its own choice or by a crash, before the next begins. */
  datatype Event =
    | Switch(req: Request, prepared: Prepared)
    | Reconciliation(admitted: bool)
    | Back(admitted: bool, outgoing: set<Option<Fingerprint>>)
    | Forward(admitted: bool)

  lemma SwitchedMoves(cur: Triple, next: Triple, target: Text, oauth: Json, to: string)
    requires SwitchedTriple(cur, next, target, oauth, to)
    ensures Moved(cur, next)
  {
    ComposedKeepsMachine(target, cur.live.value);
    SpliceOnlyAccount(cur.config.value, oauth);
  }

  lemma MovedTransitive(a: Triple, b: Triple, c: Triple)
    requires Moved(a, b) && Moved(b, c)
    ensures Moved(a, c)
  {
  }

  method Handle(m: Machine, e: Event, ghost cur: Triple) returns (ghost next: Triple)
    requires StandsFor(m.State(), cur) && !m.ambiguous
    modifies m
    ensures !m.ambiguous ==> StandsFor(m.State(), next)
    ensures next == cur || Moved(cur, next)
  {
    hide StandsFor, Moved, SwitchedTriple;
    next := cur;
    match e
    case Reconciliation(admitted) => var _ := Reconcile(m, admitted, cur);
    case Back(admitted, outgoing) => var _ := ResolveBack(m, admitted, outgoing, cur);
    case Forward(admitted) =>
      var out;
      out, next := ResolveForward(m, admitted, cur);
    case Switch(req, prepared) =>
      if req.attempt !in m.commits {
        var out;
        ghost var kept, from;
        out, next, kept, from := m.SwitchClaude(req, prepared, cur);
        if next != cur {
          var row := m.rows[req.to];
          SwitchedMoves(cur, next, row.credential.value, TargetOauth(row.configJson, req.to).value, req.to);
        }
      }
  }

  /**
   Over every sequence of switches, recoveries and resolutions, each under any faults and any
   of them cut short by a crash: as long as no switch rolls back a landed commit, the machine
   stands for one whole triple, and through all of them neither the machine-shared fields of
   the live credential nor any config field but the account block ever changes.
   */
  method Run(m: Machine, events: seq<Event>, ghost start: Triple) returns (ghost history: seq<Triple>)
    requires StandsFor(m.State(), start) && !m.ambiguous
    modifies m
    ensures history != [] && history[0] == start
    ensures !m.ambiguous ==> StandsFor(m.State(), history[|history| - 1])
    ensures forall i :: 0 < i < |history| ==> history[i - 1] == history[i] || Moved(history[i - 1], history[i])
    ensures forall i :: 0 <= i < |history| ==> history[i] == start || Moved(start, history[i])
  {
    hide StandsFor, Moved;
    history := [start];
    var i := 0;
    while i < |events| && !m.ambiguous
      invariant i <= |events| && history != [] && history[0] == start
      invariant !m.ambiguous ==> StandsFor(m.State(), history[|history| - 1])
      invariant forall i :: 0 < i < |history| ==> history[i - 1] == history[i] || Moved(history[i - 1], history[i])
      invariant forall i :: 0 <= i < |history| ==> history[i] == start || Moved(start, history[i])
    {
      ghost var cur := history[|history| - 1];
      ghost var next;
      next := Handle(m, events[i], cur);
      if cur != start && next != cur { MovedTransitive(start, cur, next); }
      history := history + [next];
      i := i + 1;
    }
  }
}
