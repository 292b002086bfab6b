/**
 An undisturbed switch after which the outgoing login is nowhere. The live bytes belong to
 another slot, and the lock-free snapshot lists them there; by the time the locks are held the
 slot has moved on, so nothing is stashed and nothing is stored.
 */
module SwitchStale {
  import opened Prelude
  import opened Json
  import opened Credentials
  import opened SwitchModel
  import opened SwitchMachine
  import Classify

  function Login(token: string): Text {
    Printed(Obj([Field(OAUTH_KEY, Obj([Field("refreshToken", Str(token))]))]), Compact)
  }

  function ConfigOf(accountId: string): Text {
    Printed(Obj([Field("oauthAccount", Obj([Field("accountUuid", Str(accountId))]))]), Compact)
  }

  lemma LoginMeaning(token: string)
    requires token != ""
    ensures OauthBlock(Login(token)) == Some([Field("refreshToken", Str(token))])
    ensures CredentialFingerprint(Login(token)) == Some(OfRefreshToken(token))
    ensures !Classify.IsWiped(Login(token)) && Login(token) != EMPTY
  {
    var oauth := [Field("refreshToken", Str(token))];
    assert Fields(Login(token)) == Some([Field(OAUTH_KEY, Obj(oauth))]);
    assert Get([Field(OAUTH_KEY, Obj(oauth))], OAUTH_KEY) == Some(Obj(oauth));
    assert Get(oauth, "refreshToken") == Some(Str(token));
  }

  lemma ConfigMeaning(accountId: string)
    ensures TargetOauth(Some(ConfigOf(accountId)), accountId).Some? && Fields(ConfigOf(accountId)).Some?
  {
    var account := [Field("accountUuid", Str(accountId))];
    assert Get([Field("oauthAccount", Obj(account))], "oauthAccount") == Some(Obj(account));
    assert Get(account, "accountUuid") == Some(Str(accountId));
  }

  /** Account a is active, the live store holds the login "l" of b, and the next one is c. */
  const STALE: Prepared :=
    Prepared("a", None,
             [Classify.Slot("a", None, None, Some(Login("k"))), Classify.Slot("b", None, None, Some(Login("l"))),
              Classify.Slot("c", None, None, Some(Login("m")))],
             Classify.Prefetched(Some(Login("l")), Some(Classify.Profile("b", None, None))))

  /** What is stored once the locks are held: b has renewed its login meanwhile. */
  const STORED: map<string, Row> :=
    map["a" := Row(None, None, Some(ConfigOf("a")), Some(Login("k"))),
        "b" := Row(None, None, Some(ConfigOf("b")), Some(Login("n"))),
        "c" := Row(None, None, Some(ConfigOf("c")), Some(Login("m")))]

  const TO_C: Request := Request("c", false, false, true, "attempt", "stage", "stash", None)

  /** The bytes are the live ones, a stored slot's, a stash or a staged copy. */
  ghost predicate Somewhere(m: Machine, t: Text)
    reads m
  {
    || m.live == Some(t) || t in m.unclaimed.Values || t in m.staged.Values
    || exists id :: id in m.rows && m.rows[id].credential == Some(t)
  }

  lemma VerdictIsSynced()
    ensures var slot := Classify.Slot("a", None, None, Some(Login("k")));
            Classify.Classification(slot, STALE.slots, Login("l"), STALE.prefetch, None) == Classify.Classified(Classify.ForeignSynced, Some("b"))
    ensures SlotCredential(STALE.slots, "b") == Some(Login("l"))
  {
    LoginMeaning("k");
    LoginMeaning("l");
    hide Login;
    var p := Classify.Profile("b", None, None);
    assert Classify.Trim("a") == "a" && Classify.Trim("b") == "b" && Classify.Trim("c") == "c";
    assert Classify.NormalizedProfile(p) == p;
    assert Classify.FirstByEmail(STALE.slots, p) == None;
    assert STALE.slots[1..][0].accountId == "b";
    assert Classify.FirstByUuid(STALE.slots, p) == Some(STALE.slots[1]);
    assert Classify.ResolvedSlot(STALE.slots, p) == Some(STALE.slots[1]);
  }

  lemma TokensDiffer()
    ensures Login("l") != Login("k") && Login("l") != Login("m") && Login("l") != Login("n")
  {
    LoginMeaning("k");
    LoginMeaning("l");
    LoginMeaning("m");
    LoginMeaning("n");
    assert "l"[0] != "k"[0] && "l"[0] != "m"[0] && "l"[0] != "n"[0];
  }

  lemma MovedOn(cur: Triple, next: Triple, oauth: Json)
    requires cur.live == Some(Login("l")) && SwitchedTriple(cur, next, Login("m"), oauth, "c")
    ensures next.live != Some(Login("l"))
  {
    LoginMeaning("l");
    LoginMeaning("m");
    SharedOrEmptyIsList(Login("l"));
    MergeKeepsLineage(Login("m"), SharedOrEmpty(Login("l")));
    assert "l"[0] != "m"[0];
  }

  ghost predicate Ready(m: Machine)
    reads m
  {
    && m.rows == STORED && m.unclaimed == map[] && !m.ambiguous
    && m.State() == World(Some(Login("l")), Some(ConfigOf("a")), map[], None, Some("a"), {})
  }

  lemma EverythingIsAdmitted(m: Machine)
    requires Ready(m)
    ensures m.Admits(TO_C, STALE) && m.Switchable("c")
  {
    LoginMeaning("l");
    LoginMeaning("m");
    ConfigMeaning("a");
    ConfigMeaning("c");
    hide Login, ConfigOf, TargetOauth, Fields;
  }

  lemma NothingIsStashed(m: Machine)
    requires Ready(m)
    ensures m.LeftToSnapshot(TO_C, STALE, "a", Login("l"))
  {
    VerdictIsSynced();
    hide Login, ConfigOf, SlotCredential, Classify.Classification;
  }

  method Prepare() returns (m: Machine)
    ensures m.Quiet(0, 18) && m.tick == 0 && Ready(m) && TripleOf(m.State()) == Triple(m.live, m.config, m.active)
    ensures StandsFor(m.State(), TripleOf(m.State())) && fresh(m)
  {
    m := new Machine(_ => Proceed, Some(Login("l")), Some(ConfigOf("a")), Some("a"), STORED);
  }

  lemma NowhereIn(m: Machine)
    requires m.rows == STORED && m.unclaimed == map[] && m.staged == map[] && m.live != Some(Login("l"))
    ensures !Somewhere(m, Login("l"))
  {
    TokensDiffer();
  }

  /** Nothing fails and nobody interferes, the switch reports success, and the login is gone. */
  method StaleSnapshotLosesLogin() returns (m: Machine, out: Outcome)
    ensures out == Ok && !Somewhere(m, Login("l"))
  {
    hide Login, ConfigOf, TargetOauth, Fields, SlotCredential, Classify.Classification, Somewhere, StandsFor, Unfinished;
    m := Prepare();
    ghost var cur := TripleOf(m.State());
    EverythingIsAdmitted(m);
    NothingIsStashed(m);
    ghost var next, kept, from;
    out, next, kept, from := m.SwitchClaude(TO_C, STALE, cur);
    MovedOn(cur, next, TargetOauth(m.rows["c"].configJson, "c").value);
    NowhereIn(m);
  }
}
