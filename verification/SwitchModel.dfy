/**
 The durable state of a Claude switch: live credential, config file, staged rollback
 copy, write-ahead journal and the database's active login. What a recovery does to it,
 and the invariant that makes recovery exact.
 */
module SwitchModel {
  import opened Prelude
  import opened Json
  import opened Credentials

  /** An injective digest. */
  datatype Digest = Sha256(of: Text)

  datatype Closed = Open | RolledBack | StageFailed

  /** The part of a journal that no update may touch. */
  datatype Attempt = Attempt(id: string, from: string, to: string, republish: bool, stage: string)

  datatype Journal = Journal(
    attempt: Attempt,
    stagedWritten: bool,
    credentialsHash: Option<Digest>,
    credentialsStarted: bool,
    credentialsWritten: bool,
    configText: Option<Text>,
    configHash: Option<Digest>,
    fromOauth: Option<Json>,
    configStarted: bool,
    configWritten: bool,
    closed: Closed,
    committed: bool
  )

  function NewJournal(attempt: Attempt): Journal {
    Journal(attempt, false, None, false, false, None, None, None, false, false, Open, false)
  }

  // ----- journal updates ---------------------------------------------------------

  datatype Patch =
    | StagedLanded
    | CredentialsIntent(hash: Digest)
    | CredentialsLanded
    | ConfigIntent(text: Text, oauth: Option<Json>, planned: Digest)
    | ConfigLanded
    | MarkCommitted
    | Close(how: Closed)

  function Apply(j: Journal, p: Patch): Journal {
    match p
    case StagedLanded => j.(stagedWritten := true)
    case CredentialsIntent(hash) => j.(credentialsStarted := true, credentialsHash := Some(hash))
    case CredentialsLanded => j.(credentialsWritten := true)
    case ConfigIntent(text, oauth, planned) =>
      j.(configText := Some(text), fromOauth := oauth, configHash := Some(planned), configStarted := true)
    case ConfigLanded => j.(configWritten := true)
    case MarkCommitted => j.(committed := true)
    case Close(how) => j.(closed := how)
  }

  /** The patch an update refuses: a closed marker is never changed. */
  predicate Refuses(j: Journal, p: Patch) {
    p.Close? && j.closed != Open && j.closed != p.how
  }

  /** Read, merge and persist; None when the update throws before writing. */
  function Updated(j: Option<Journal>, p: Patch): Option<Journal> {
    if j.None? || Refuses(j.value, p) then None else Some(Apply(j.value, p))
  }

  /** Progress only moves forward, and the identity of the attempt never changes. */
  predicate Advances(j: Journal, k: Journal) {
    && k.attempt == j.attempt
    && (j.stagedWritten ==> k.stagedWritten)
    && (j.credentialsStarted ==> k.credentialsStarted) && (j.credentialsWritten ==> k.credentialsWritten)
    && (j.configStarted ==> k.configStarted) && (j.configWritten ==> k.configWritten)
    && (j.committed ==> k.committed)
    && (j.closed != Open ==> k.closed == j.closed)
  }

  function UpdateAll(j: Option<Journal>, ps: seq<Patch>): Option<Journal> {
    if ps == [] then j
    else
      var before := UpdateAll(j, ps[..|ps| - 1]);
      var after := Updated(before, ps[|ps| - 1]);
      if after.Some? then after else before
  }

  lemma PatchAdvances(j: Journal, p: Patch)
    requires !Refuses(j, p)
    ensures Advances(j, Apply(j, p))
  {
    match p
    case StagedLanded => assert Advances(j, j.(stagedWritten := true));
    case CredentialsIntent(hash) => assert Advances(j, j.(credentialsStarted := true, credentialsHash := Some(hash)));
    case CredentialsLanded => assert Advances(j, j.(credentialsWritten := true));
    case ConfigIntent(text, oauth, planned) => assert Advances(j, Apply(j, ConfigIntent(text, oauth, planned)));
    case ConfigLanded => assert Advances(j, j.(configWritten := true));
    case MarkCommitted => assert Advances(j, j.(committed := true));
    case Close(how) => assert Advances(j, j.(closed := how));
  }

  lemma AdvancesTransitive(i: Journal, j: Journal, k: Journal)
    requires Advances(i, j) && Advances(j, k)
    ensures Advances(i, k)
  {
  }

  /** Over any sequence of updates, refused ones included, no marker is ever cleared. */
  lemma {:induction false} MarkersAreMonotone(j: Journal, ps: seq<Patch>)
    ensures UpdateAll(Some(j), ps).Some?
    ensures Advances(j, UpdateAll(Some(j), ps).value)
  {
    if ps != [] {
      MarkersAreMonotone(j, ps[..|ps| - 1]);
      var before, last := UpdateAll(Some(j), ps[..|ps| - 1]).value, ps[|ps| - 1];
      if !Refuses(before, last) {
        PatchAdvances(before, last);
        AdvancesTransitive(j, before, Apply(before, last));
      }
    }
  }

  // ----- the world ---------------------------------------------------------------

  datatype World = World(
    live: Option<Text>,
    config: Option<Text>,
    staged: map<string, Text>,
    journal: Option<Journal>,
    active: Option<string>,
    commits: set<string>
  )

  /** What a switch must move all at once. */
  datatype Triple = Triple(live: Option<Text>, config: Option<Text>, active: Option<string>)

  function TripleOf(w: World): Triple {
    Triple(w.live, w.config, w.active)
  }

  predicate Finished(w: World, j: Journal) {
    j.committed || j.closed != Open || j.attempt.id in w.commits
  }

  predicate Unfinished(w: World) {
    w.journal.Some? && !Finished(w, w.journal.value)
  }

  // ----- config files --------------------------------------------------------------

  const OAUTH_ACCOUNT := "oauthAccount"

  function Splice(fields: seq<Field>, oauth: Json): Text {
    Printed(Obj(Put(fields, Field(OAUTH_ACCOUNT, oauth))), Indented)
  }

  /** The account block of a config, when it is an object. */
  function ConfigAccount(fields: seq<Field>): Option<Json> {
    match Get(fields, OAUTH_ACCOUNT)
    case Some(Obj(f)) => Some(Obj(f))
    case _ => None
  }

  datatype ConfigRestore = ConfigRestored | ConfigResplice | ConfigNotLanded | ConfigThrew

  /** What restoring the config decides, and the text it leaves. */
  function RestoreConfig(config: Option<Text>, j: Journal): (ConfigRestore, Option<Text>) {
    if !j.configStarted || j.configText.None? then (ConfigNotLanded, config)
    else if config.None? || Fields(config.value).None? then (ConfigThrew, config)
    else if config == j.configText then (ConfigNotLanded, config)
    else if j.configHash == Some(Sha256(config.value)) then (ConfigRestored, j.configText)
    else
      var fields := Fields(config.value).value;
      if j.fromOauth.Some? then (ConfigResplice, Some(Splice(fields, j.fromOauth.value)))
      else if OAUTH_ACCOUNT !in KeySet(fields) then (ConfigNotLanded, config)
      else (ConfigResplice, Some(Printed(Obj(Without(fields, [OAUTH_ACCOUNT])), Indented)))
  }

  datatype LiveRestore = LiveRestored | LiveNotLanded | StagedUnreadable | LiveMoved

  function RestoreLive(live: Option<Text>, staged: map<string, Text>, j: Journal): (LiveRestore, Option<Text>) {
    if j.attempt.stage !in staged then (StagedUnreadable, live)
    else if live.None? then (LiveMoved, live)
    else if live.value == staged[j.attempt.stage] then (LiveNotLanded, live)
    else if j.credentialsHash != Some(Sha256(live.value)) then (LiveMoved, live)
    else (LiveRestored, Some(staged[j.attempt.stage]))
  }

  /** Rolling an unfinished switch back: the live credential first, then the config. */
  function Recover(w: World): World {
    if !Unfinished(w) then w
    else
      var j := w.journal.value;
      var (outcome, live) := if j.credentialsStarted then RestoreLive(w.live, w.staged, j) else (LiveNotLanded, w.live);
      if outcome == LiveMoved || outcome == StagedUnreadable then w
      else
        var (decision, config) := RestoreConfig(w.config, j);
        w.(live := live, config := if decision == ConfigThrew then w.config else config)
  }

  // ----- the invariant ---------------------------------------------------------------

  /** Two credentials with the same machine-shared fields. */
  predicate SameMachine(a: Text, b: Text) {
    SharedOrEmpty(a) == SharedOrEmpty(b)
  }

  /** Two config files that differ at most in their account block. */
  ghost predicate OnlyAccountDiffers(a: Text, b: Text) {
    && Fields(a).Some? && Fields(b).Some?
    && forall key :: key != OAUTH_ACCOUNT ==> Get(Fields(a).value, key) == Get(Fields(b).value, key)
  }

  lemma SpliceOnlyAccount(config: Text, oauth: Json)
    requires Fields(config).Some?
    ensures OnlyAccountDiffers(Splice(Fields(config).value, oauth), config)
  {
    var fields := Fields(config).value;
    forall key | key != OAUTH_ACCOUNT ensures Get(Put(fields, Field(OAUTH_ACCOUNT, oauth)), key) == Get(fields, key) {
      PutReads(fields, Field(OAUTH_ACCOUNT, oauth), key);
    }
  }

  /** The staged copy is in place whenever the journal says the live store may have been touched. */
  predicate StagedHolds(w: World, j: Journal, live0: Text) {
    && (j.stagedWritten ==> j.attempt.stage in w.staged && w.staged[j.attempt.stage] == live0)
    && (j.credentialsStarted ==> j.stagedWritten && j.credentialsHash.Some? && SameMachine(j.credentialsHash.value.of, live0))
  }

  predicate LiveUndoable(w: World, j: Journal, live0: Text) {
    w.live == Some(live0) || (j.credentialsStarted && w.live.Some? && j.credentialsHash == Some(Sha256(w.live.value)))
  }

  ghost predicate ConfigUndoable(w: World, j: Journal, config0: Option<Text>) {
    && (j.configStarted ==>
          && config0.Some? && j.configText == config0 && Fields(config0.value).Some?
          && j.configHash.Some? && OnlyAccountDiffers(j.configHash.value.of, config0.value))
    && (w.config == config0
        || (j.configStarted && w.config.Some? && j.configHash == Some(Sha256(w.config.value))))
  }

  /** Every intent was journalled before its effect, with what is needed to undo it. */
  ghost predicate Undoable(w: World, live0: Text, config0: Option<Text>) {
    && w.journal.Some?
    && StagedHolds(w, w.journal.value, live0)
    && LiveUndoable(w, w.journal.value, live0)
    && ConfigUndoable(w, w.journal.value, config0)
  }

  /**
   The world stands for the triple `cur`: it is `cur` unless a journal is unfinished, and
   then every effect made so far can be undone back to `cur`.
   */
  ghost predicate StandsFor(w: World, cur: Triple) {
    if Unfinished(w)
    then cur.live.Some? && w.active == cur.active && Undoable(w, cur.live.value, cur.config)
    else TripleOf(w) == cur
  }

  /** Recovery is exact from every state the invariant allows, and repeating it changes nothing. */
  lemma RecoveryIsExact(w: World, cur: Triple)
    requires StandsFor(w, cur)
    ensures TripleOf(Recover(w)) == cur
    ensures StandsFor(Recover(w), cur)
    ensures Recover(Recover(w)) == Recover(w)
  {
    if Unfinished(w) {
      var j := w.journal.value;
      assert j.configStarted && w.config != cur.config ==> RestoreConfig(w.config, j) == (ConfigRestored, cur.config);
      assert RestoreConfig(cur.config, j) == (ConfigNotLanded, cur.config);
    }
  }

  /** A world stands for at most one triple. */
  lemma StandsForOne(w: World, a: Triple, b: Triple)
    requires StandsFor(w, a) && StandsFor(w, b)
    ensures a == b
  {
    RecoveryIsExact(w, a);
    RecoveryIsExact(w, b);
  }

  // ----- recovery in the presence of other writers --------------------------------------

  /**
   Whatever another program wrote, recovery replaces the live credential only when it is
   byte for byte what the switch wrote, and only by the staged copy.
   */
  lemma ForeignLiveSurvives(w: World)
    requires Recover(w).live != w.live
    ensures Unfinished(w)
    ensures w.live.Some? && w.journal.value.credentialsHash == Some(Sha256(w.live.value))
    ensures w.journal.value.attempt.stage in w.staged && Recover(w).live == Some(w.staged[w.journal.value.attempt.stage])
  {
    assert Unfinished(w);
  }

  lemma {:induction false} PutReads(fields: seq<Field>, f: Field, key: string)
    ensures Get(Put(fields, f), key) == if key == f.key then Some(f.val) else Get(fields, key)
  {
    if fields == [] {
      assert [f][1..] == [];
    } else if fields[0].key == f.key {
      assert ([f] + fields[1..])[1..] == fields[1..];
    } else {
      PutReads(fields[1..], f, key);
      assert ([fields[0]] + Put(fields[1..], f))[1..] == Put(fields[1..], f);
    }
  }

  /**
   When somebody edited the config after the switch wrote it, restoring keeps every other
   field of the edited file and puts back exactly the account the config had before.
   */
  lemma RespliceKeepsEdits(config: Text, j: Journal, key: string)
    requires RestoreConfig(Some(config), j).0 == ConfigResplice
    ensures Fields(config).Some?
    ensures var after := RestoreConfig(Some(config), j).1;
            && after.Some? && Fields(after.value).Some?
            && Get(Fields(after.value).value, key)
               == if key == OAUTH_ACCOUNT then j.fromOauth else Get(Fields(config).value, key)
  {
    var fields := Fields(config).value;
    if j.fromOauth.Some? {
      PutReads(fields, Field(OAUTH_ACCOUNT, j.fromOauth.value), key);
    } else {
      WithoutGet(fields, [OAUTH_ACCOUNT], key);
    }
  }
}
