/**
 Claude credential blobs: which fields belong to the account and which to the
 machine, how a target credential is composed with the machine's own fields, and
 when two blobs are the same account credential.
 */
module Credentials {
  import opened Prelude
  import opened Json

  datatype Layout = Compact | Indented | OtherLayout(tag: int)

  /** A stored text. Two texts are the same bytes exactly when they are equal here. */
  datatype Text = Printed(doc: Json, layout: Layout) | Opaque(bytes: string)

  const EMPTY: Text := Opaque("")

  const SHARED_KEYS: seq<string> :=
    ["mcpOAuth", "mcpOAuthClientConfig", "mcpXaaIdp", "mcpXaaIdpConfig", "pluginSecrets"]

  const OAUTH_KEY := "claudeAiOauth"

  lemma SharedKeysDistinct()
    ensures forall i, k :: 0 <= i < k < |SHARED_KEYS| ==> SHARED_KEYS[i] != SHARED_KEYS[k]
    ensures OAUTH_KEY !in SHARED_KEYS
  {
    assert forall i :: 0 <= i < |SHARED_KEYS| ==> |SHARED_KEYS[i]| == [8, 20, 9, 15, 13][i];
    assert |OAUTH_KEY| == 13 && OAUTH_KEY[0] == 'c' && SHARED_KEYS[4][0] == 'p';
  }

  /** The fields of a text that parses as a JSON object. */
  function Fields(t: Text): Option<seq<Field>> {
    if t.Printed? && t.doc.Obj? then Some(t.doc.fields) else None
  }

  predicate ParsedText(t: Text) {
    t.Printed? ==> Parsed(t.doc)
  }

  /** The OAuth block of a credential blob, when it is an object. */
  function OauthBlock(t: Text): Option<seq<Field>> {
    var fields := Fields(t);
    if fields.None? then None
    else match Get(fields.value, OAUTH_KEY)
      case Some(Obj(oauth)) => Some(oauth)
      case _ => None
  }

  // ----- lineage ---------------------------------------------------------------

  /** An injective digest: it names what was hashed. */
  datatype Fingerprint = OfRefreshToken(token: string) | OfBytes(bytes: Text)

  function RefreshToken(t: Text): Option<string> {
    match OauthBlock(t)
    case Some(oauth) => (match Get(oauth, "refreshToken")
                         case Some(Str(s)) => if s == "" then None else Some(s)
                         case _ => None)
    case None => None
  }

  function CredentialFingerprint(t: Text): Option<Fingerprint> {
    if t == EMPTY then None
    else match RefreshToken(t)
      case Some(token) => Some(OfRefreshToken(token))
      case None => Some(OfBytes(t))
  }

  // ----- machine-shared fields -------------------------------------------------

  function Pick(keys: seq<string>, fields: seq<Field>): seq<Field> {
    if keys == [] then []
    else match Get(fields, keys[0])
      case Some(v) => [Field(keys[0], v)] + Pick(keys[1..], fields)
      case None => Pick(keys[1..], fields)
  }

  function Without(fields: seq<Field>, keys: seq<string>): seq<Field> {
    if fields == [] then []
    else if fields[0].key in keys then Without(fields[1..], keys)
    else [fields[0]] + Without(fields[1..], keys)
  }

  /** Assignment to an object key: in place when present, appended when new. */
  function Put(fields: seq<Field>, f: Field): seq<Field> {
    if fields == [] then [f]
    else if fields[0].key == f.key then [f] + fields[1..]
    else [fields[0]] + Put(fields[1..], f)
  }

  function PutAll(fields: seq<Field>, more: seq<Field>): seq<Field>
    decreases more
  {
    if more == [] then fields else PutAll(Put(fields, more[0]), more[1..])
  }

  function SharedFields(t: Text): Option<seq<Field>> {
    match Fields(t)
    case None => None
    case Some(fields) => Some(Pick(SHARED_KEYS, fields))
  }

  /** What the switch reads from the live blob: absent fields count as an empty object. */
  function SharedOrEmpty(t: Text): seq<Field> {
    SharedFields(t).GetOr([])
  }

  function MergeShared(target: Text, shared: seq<Field>): Text {
    match Fields(target)
    case None => target
    case Some(fields) =>
      if OAUTH_KEY !in KeySet(fields) then target
      else Printed(Obj(PutAll(Without(fields, SHARED_KEYS), shared)), Compact)
  }

  method SharedCredentialFields(t: Text) returns (r: Option<seq<Field>>)
    ensures r == SharedFields(t)
  {
    var parsed := Fields(t);
    if parsed.None? {
      return None;
    }
    var fields: seq<Field> := [];
    assert SHARED_KEYS[0..] == SHARED_KEYS;
    assert [] + Pick(SHARED_KEYS, parsed.value) == Pick(SHARED_KEYS, parsed.value);
    for i := 0 to |SHARED_KEYS|
      invariant fields + Pick(SHARED_KEYS[i..], parsed.value) == Pick(SHARED_KEYS, parsed.value)
    {
      var value := Get(parsed.value, SHARED_KEYS[i]);
      assert SHARED_KEYS[i..][1..] == SHARED_KEYS[i + 1..];
      if value.Some? {
        fields := fields + [Field(SHARED_KEYS[i], value.value)];
      }
    }
    assert Pick(SHARED_KEYS[|SHARED_KEYS|..], parsed.value) == [];
    assert fields == Pick(SHARED_KEYS, parsed.value);
    return Some(fields);
  }

  method MergeSharedCredentialFields(target: Text, shared: seq<Field>) returns (r: Text)
    ensures r == MergeShared(target, shared)
  {
    var parsed := Fields(target);
    if parsed.None? || OAUTH_KEY !in KeySet(parsed.value) {
      return target;
    }
    var fields := parsed.value;
    var composed: seq<Field> := [];
    for i := 0 to |fields|
      invariant composed + Without(fields[i..], SHARED_KEYS) == Without(fields, SHARED_KEYS)
    {
      assert fields[i..][1..] == fields[i + 1..];
      if fields[i].key !in SHARED_KEYS {
        composed := composed + [fields[i]];
      }
    }
    assert Without(fields[|fields|..], SHARED_KEYS) == [];
    assert composed == Without(fields, SHARED_KEYS);
    var merged := composed;
    assert shared[0..] == shared;
    for i := 0 to |shared|
      invariant PutAll(merged, shared[i..]) == PutAll(composed, shared)
    {
      assert shared[i..][1..] == shared[i + 1..];
      merged := Put(merged, shared[i]);
    }
    return Printed(Obj(merged), Compact);
  }

  // ----- what composition keeps ------------------------------------------------

  /** A list of fields that `SharedFields` can have produced. */
  ghost predicate IsSharedList(shared: seq<Field>) {
    exists fields :: shared == Pick(SHARED_KEYS, fields)
  }

  predicate IsOauthBlob(t: Text) {
    Fields(t).Some? && OAUTH_KEY in KeySet(Fields(t).value)
  }

  lemma {:induction false} PutFresh(fields: seq<Field>, f: Field)
    requires f.key !in KeySet(fields)
    ensures Put(fields, f) == fields + [f]
  {
    if fields != [] {
      KeySetSplit(fields);
      PutFresh(fields[1..], f);
    }
  }

  lemma {:induction false} KeySetConcat(a: seq<Field>, b: seq<Field>)
    ensures KeySet(a + b) == KeySet(a) + KeySet(b)
  {
    if a == [] {
      assert a + b == b;
    } else {
      KeySetSplit(a);
      KeySetSplit(a + b);
      assert (a + b)[1..] == a[1..] + b;
      KeySetConcat(a[1..], b);
    }
  }

  lemma {:induction false} PutAllFresh(fields: seq<Field>, more: seq<Field>)
    requires DistinctKeys(more)
    requires KeySet(fields) !! KeySet(more)
    ensures PutAll(fields, more) == fields + more
    decreases more
  {
    if more != [] {
      KeySetSplit(more);
      PutFresh(fields, more[0]);
      KeySetConcat(fields, [more[0]]);
      KeySetSplit([more[0]]);
      assert forall i :: 0 <= i < |more[1..]| ==> more[1..][i] == more[i + 1];
      PutAllFresh(fields + [more[0]], more[1..]);
      assert fields + [more[0]] + more[1..] == fields + more;
    } else {
      assert fields + more == fields;
    }
  }

  lemma {:induction false} PickKeys(keys: seq<string>, fields: seq<Field>)
    requires forall i, k :: 0 <= i < k < |keys| ==> keys[i] != keys[k]
    ensures forall i :: 0 <= i < |Pick(keys, fields)| ==> Pick(keys, fields)[i].key in keys
    ensures DistinctKeys(Pick(keys, fields))
  {
    if keys != [] {
      assert forall i :: 0 <= i < |keys[1..]| ==> keys[1..][i] == keys[i + 1];
      PickKeys(keys[1..], fields);
    }
  }

  /** Picking again from what was picked changes nothing. */
  lemma {:induction false} PickOnce(keys: seq<string>, fields: seq<Field>, other: seq<Field>)
    requires forall i :: 0 <= i < |keys| ==> Get(other, keys[i]) == Get(fields, keys[i])
    ensures Pick(keys, other) == Pick(keys, fields)
  {
    if keys != [] {
      assert forall i :: 0 <= i < |keys[1..]| ==> keys[1..][i] == keys[i + 1];
      PickOnce(keys[1..], fields, other);
    }
  }

  lemma {:induction false} PickGet(keys: seq<string>, fields: seq<Field>, key: string)
    ensures Get(Pick(keys, fields), key) == if key in keys then Get(fields, key) else None
  {
    if keys != [] {
      PickGet(keys[1..], fields, key);
      assert key in keys <==> key == keys[0] || key in keys[1..];
      if Get(fields, keys[0]).Some? {
        var rest := Pick(keys[1..], fields);
        assert ([Field(keys[0], Get(fields, keys[0]).value)] + rest)[1..] == rest;
      }
    }
  }

  lemma {:induction false} GetConcat(a: seq<Field>, b: seq<Field>, key: string)
    ensures Get(a + b, key) == if Get(a, key).Some? then Get(a, key) else Get(b, key)
  {
    if a == [] {
      assert a + b == b;
    } else {
      assert (a + b)[1..] == a[1..] + b;
      GetConcat(a[1..], b, key);
    }
  }

  lemma {:induction false} WithoutGet(fields: seq<Field>, keys: seq<string>, key: string)
    ensures Get(Without(fields, keys), key) == if key in keys then None else Get(fields, key)
  {
    if fields != [] {
      WithoutGet(fields[1..], keys, key);
      if fields[0].key !in keys {
        assert ([fields[0]] + Without(fields[1..], keys))[1..] == Without(fields[1..], keys);
      }
    }
  }

  lemma {:induction false} WithoutConcat(a: seq<Field>, b: seq<Field>, keys: seq<string>)
    ensures Without(a + b, keys) == Without(a, keys) + Without(b, keys)
  {
    if a == [] {
      assert a + b == b;
    } else {
      assert (a + b)[1..] == a[1..] + b;
      WithoutConcat(a[1..], b, keys);
    }
  }

  lemma {:induction false} WithoutAll(fields: seq<Field>, keys: seq<string>)
    requires forall i :: 0 <= i < |fields| ==> fields[i].key in keys
    ensures Without(fields, keys) == []
  {
    if fields != [] {
      WithoutAll(fields[1..], keys);
    }
  }

  lemma {:induction false} WithoutTwice(fields: seq<Field>, keys: seq<string>)
    ensures Without(Without(fields, keys), keys) == Without(fields, keys)
  {
    if fields != [] {
      WithoutTwice(fields[1..], keys);
      if fields[0].key !in keys {
        assert ([fields[0]] + Without(fields[1..], keys))[1..] == Without(fields[1..], keys);
      }
    }
  }

  /** Composition is concatenation: account-owned fields in order, then the machine's. */
  lemma MergeSharedParts(target: Text, shared: seq<Field>)
    requires IsOauthBlob(target) && IsSharedList(shared)
    ensures MergeShared(target, shared)
         == Printed(Obj(Without(Fields(target).value, SHARED_KEYS) + shared), Compact)
  {
    var owned := Without(Fields(target).value, SHARED_KEYS);
    SharedListKeys(shared);
    forall k | k in KeySet(shared)
      ensures k !in KeySet(owned)
    {
      WithoutGet(Fields(target).value, SHARED_KEYS, k);
      assert Get(owned, k).None?;
    }
    PutAllFresh(owned, shared);
  }

  /** The composed blob carries exactly the machine fields it was given. */
  lemma MergeKeepsMachineFields(target: Text, shared: seq<Field>)
    requires IsOauthBlob(target) && IsSharedList(shared)
    ensures SharedFields(MergeShared(target, shared)) == Some(shared)
  {
    MergeSharedParts(target, shared);
    var owned := Without(Fields(target).value, SHARED_KEYS);
    var source :| shared == Pick(SHARED_KEYS, source);
    forall i | 0 <= i < |SHARED_KEYS|
      ensures Get(owned + shared, SHARED_KEYS[i]) == Get(source, SHARED_KEYS[i])
    {
      GetConcat(owned, shared, SHARED_KEYS[i]);
      WithoutGet(Fields(target).value, SHARED_KEYS, SHARED_KEYS[i]);
      PickGet(SHARED_KEYS, source, SHARED_KEYS[i]);
    }
    PickOnce(SHARED_KEYS, source, owned + shared);
  }

  /** A later composition overrides an earlier one exactly, byte for byte. */
  lemma MergeLastWins(target: Text, first: seq<Field>, second: seq<Field>)
    requires IsOauthBlob(target) && IsSharedList(first) && IsSharedList(second)
    ensures MergeShared(MergeShared(target, first), second) == MergeShared(target, second)
  {
    MergeStaysOauth(target, first);
    MergeSharedParts(target, first);
    MergeSharedParts(target, second);
    MergeSharedParts(MergeShared(target, first), second);
    SharedListKeys(first);
    OwnedThenShared(Fields(target).value, first);
  }

  lemma SharedListKeys(shared: seq<Field>)
    requires IsSharedList(shared)
    ensures DistinctKeys(shared)
    ensures forall i :: 0 <= i < |shared| ==> shared[i].key in SHARED_KEYS
    ensures Get(shared, OAUTH_KEY).None?
  {
    var source :| shared == Pick(SHARED_KEYS, source);
    SharedKeysDistinct();
    PickKeys(SHARED_KEYS, source);
    PickGet(SHARED_KEYS, source, OAUTH_KEY);
  }

  lemma MergeStaysOauth(target: Text, shared: seq<Field>)
    requires IsOauthBlob(target) && IsSharedList(shared)
    ensures IsOauthBlob(MergeShared(target, shared))
    ensures OauthBlock(MergeShared(target, shared)) == OauthBlock(target)
  {
    MergeSharedParts(target, shared);
    OwnedReads(Fields(target).value, shared);
  }

  lemma OwnedReads(fields: seq<Field>, shared: seq<Field>)
    ensures Get(Without(fields, SHARED_KEYS) + shared, OAUTH_KEY)
         == if Get(fields, OAUTH_KEY).Some? then Get(fields, OAUTH_KEY) else Get(shared, OAUTH_KEY)
  {
    OauthIsNotShared();
    GetConcat(Without(fields, SHARED_KEYS), shared, OAUTH_KEY);
    WithoutGet(fields, SHARED_KEYS, OAUTH_KEY);
  }

  lemma OauthIsNotShared()
    ensures OAUTH_KEY !in SHARED_KEYS
  {
    SharedKeysDistinct();
  }

  /** Dropping the machine's fields from a composed list gives back the account's. */
  lemma OwnedThenShared(fields: seq<Field>, shared: seq<Field>)
    requires forall i :: 0 <= i < |shared| ==> shared[i].key in SHARED_KEYS
    ensures Without(Without(fields, SHARED_KEYS) + shared, SHARED_KEYS) == Without(fields, SHARED_KEYS)
  {
    WithoutConcat(Without(fields, SHARED_KEYS), shared, SHARED_KEYS);
    WithoutAll(shared, SHARED_KEYS);
    WithoutTwice(fields, SHARED_KEYS);
    assert Without(fields, SHARED_KEYS) + [] == Without(fields, SHARED_KEYS);
  }

  /** Composition never moves a credential to another refresh lineage. */
  lemma MergeKeepsLineage(target: Text, shared: seq<Field>)
    requires IsOauthBlob(target) && IsSharedList(shared)
    ensures OauthBlock(MergeShared(target, shared)) == OauthBlock(target)
    ensures RefreshToken(target).Some?
        ==> CredentialFingerprint(MergeShared(target, shared)) == CredentialFingerprint(target)
  {
    MergeStaysOauth(target, shared);
    MergeSharedParts(target, shared);
  }

  // ----- the same account credential -------------------------------------------

  function CanonicalAccount(fields: seq<Field>): Json {
    Canon(Obj(Without(fields, SHARED_KEYS)))
  }

  predicate SameAccount(left: Text, right: Text) {
    && Fields(left).Some? && Fields(right).Some?
    && CanonicalAccount(Fields(left).value) == CanonicalAccount(Fields(right).value)
  }

  lemma {:induction false} WithoutFrom(fields: seq<Field>, keys: seq<string>)
    ensures forall f :: f in Without(fields, keys) ==> f in fields
  {
    if fields != [] {
      WithoutFrom(fields[1..], keys);
    }
  }

  lemma {:induction false} WithoutDistinct(fields: seq<Field>, keys: seq<string>)
    requires DistinctKeys(fields)
    ensures DistinctKeys(Without(fields, keys))
  {
    if fields != [] {
      assert forall i :: 0 <= i < |fields[1..]| ==> fields[1..][i] == fields[i + 1];
      WithoutDistinct(fields[1..], keys);
      WithoutFrom(fields[1..], keys);
      var rest := Without(fields[1..], keys);
      forall i | 0 <= i < |rest|
        ensures rest[i].key != fields[0].key
      {
        assert rest[i] in fields[1..];
        var m :| 0 <= m < |fields[1..]| && fields[1..][m] == rest[i];
        assert fields[m + 1].key != fields[0].key;
      }
    }
  }

  lemma WithoutParsed(fields: seq<Field>, keys: seq<string>)
    requires Parsed(Obj(fields))
    ensures Parsed(Obj(Without(fields, keys)))
  {
    WithoutDistinct(fields, keys);
    WithoutFrom(fields, keys);
    var rest := Without(fields, keys);
    assert forall i :: 0 <= i < |rest| ==> rest[i] in fields;
  }

  /** Two blobs are the same account exactly when their own fields agree, key order and machine fields aside. */
  lemma SameAccountMeaning(left: Text, right: Text)
    requires ParsedText(left) && ParsedText(right)
    ensures SameAccount(left, right) <==>
            && Fields(left).Some? && Fields(right).Some?
            && SameUpToKeyOrder(Obj(Without(Fields(left).value, SHARED_KEYS)), Obj(Without(Fields(right).value, SHARED_KEYS)))
  {
    if Fields(left).Some? && Fields(right).Some? {
      WithoutParsed(Fields(left).value, SHARED_KEYS);
      WithoutParsed(Fields(right).value, SHARED_KEYS);
      CanonDecides(Obj(Without(Fields(left).value, SHARED_KEYS)), Obj(Without(Fields(right).value, SHARED_KEYS)));
    }
  }

  /** The composed blob is still the target account's credential. */
  lemma MergeKeepsAccount(target: Text, shared: seq<Field>)
    requires IsOauthBlob(target) && IsSharedList(shared)
    ensures SameAccount(MergeShared(target, shared), target)
  {
    MergeSharedParts(target, shared);
    SharedListKeys(shared);
    OwnedThenShared(Fields(target).value, shared);
  }

  // ----- runs of publications --------------------------------------------------

  /** The live credential after publishing each target in turn. */
  function PublishAll(live: Text, targets: seq<Text>): Text {
    if targets == [] then live
    else
      var before := PublishAll(live, targets[..|targets| - 1]);
      MergeShared(targets[|targets| - 1], SharedOrEmpty(before))
  }

  lemma SharedOrEmptyIsList(t: Text)
    ensures IsSharedList(SharedOrEmpty(t))
  {
    if Fields(t).Some? {
      assert SharedOrEmpty(t) == Pick(SHARED_KEYS, Fields(t).value);
    } else {
      assert Pick(SHARED_KEYS, []) == [] by { PickEmpty(SHARED_KEYS); }
    }
  }

  lemma {:induction false} PickEmpty(keys: seq<string>)
    ensures Pick(keys, []) == []
  {
    if keys != [] { PickEmpty(keys[1..]); }
  }

  /**
   Over any run of switches the machine's fields never change, and the live blob is
   the last target composed with the fields the machine had before the first switch.
   */
  lemma {:induction false} MachineFieldsInvariant(live: Text, targets: seq<Text>)
    requires forall i :: 0 <= i < |targets| ==> IsOauthBlob(targets[i])
    ensures SharedOrEmpty(PublishAll(live, targets)) == SharedOrEmpty(live)
    ensures targets != [] ==>
              && PublishAll(live, targets) == MergeShared(targets[|targets| - 1], SharedOrEmpty(live))
              && SameAccount(PublishAll(live, targets), targets[|targets| - 1])
  {
    if targets != [] {
      var last := targets[|targets| - 1];
      MachineFieldsInvariant(live, targets[..|targets| - 1]);
      SharedOrEmptyIsList(live);
      MergeKeepsMachineFields(last, SharedOrEmpty(live));
      MergeKeepsAccount(last, SharedOrEmpty(live));
    }
  }
}
