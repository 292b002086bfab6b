/**
 JSON values as the switch code handles them: objects keep the insertion order of
 their keys, and two texts are the same bytes when they print the same ordered value
 with the same layout.
 */
module Json {
  import opened Prelude

  datatype Json =
    | Null
    | Bool(flag: bool)
    | Num(number: real)
    | Str(text: string)
    | Arr(items: seq<Json>)
    | Obj(fields: seq<Field>)

  datatype Field = Field(key: string, val: Json)

  // ----- ordered fields ------------------------------------------------------

  predicate DistinctKeys(fields: seq<Field>) {
    forall i, k :: 0 <= i < k < |fields| ==> fields[i].key != fields[k].key
  }

  /** What JSON.parse can return: no object repeats a key, at any depth. */
  predicate Parsed(j: Json) {
    match j
    case Arr(items) => forall i :: 0 <= i < |items| ==> Parsed(items[i])
    case Obj(fields) => DistinctKeys(fields) && forall i :: 0 <= i < |fields| ==> Parsed(fields[i].val)
    case _ => true
  }

  function KeySet(fields: seq<Field>): set<string> {
    set i | 0 <= i < |fields| :: fields[i].key
  }

  function Get(fields: seq<Field>, key: string): (r: Option<Json>)
    ensures r.Some? <==> key in KeySet(fields)
    ensures r.Some? ==> exists i :: 0 <= i < |fields| && fields[i] == Field(key, r.value)
  {
    if fields == [] then None
    else if fields[0].key == key then
      assert fields[0] == Field(key, fields[0].val);
      Some(fields[0].val)
    else
      assert KeySet(fields) == {fields[0].key} + KeySet(fields[1..]) by { KeySetSplit(fields); }
      var rest := Get(fields[1..], key);
      assert rest.Some? ==> exists i :: 0 <= i < |fields| && fields[i] == Field(key, rest.value) by {
        if rest.Some? {
          var i :| 0 <= i < |fields[1..]| && fields[1..][i] == Field(key, rest.value);
          assert fields[i + 1] == Field(key, rest.value);
        }
      }
      rest
  }

  lemma KeySetSplit(fields: seq<Field>)
    requires fields != []
    ensures KeySet(fields) == {fields[0].key} + KeySet(fields[1..])
  {
    forall k | k in KeySet(fields)
      ensures k in {fields[0].key} + KeySet(fields[1..])
    {
      var i :| 0 <= i < |fields| && fields[i].key == k;
      assert i > 0 ==> fields[1..][i - 1].key == k;
    }
    forall k | k in KeySet(fields[1..])
      ensures k in KeySet(fields)
    {
      var i :| 0 <= i < |fields[1..]| && fields[1..][i].key == k;
      assert fields[i + 1].key == k;
    }
  }

  /** With distinct keys, a field's position determines what its key reads. */
  lemma {:induction false} GetAt(fields: seq<Field>, i: nat)
    requires DistinctKeys(fields) && i < |fields|
    ensures Get(fields, fields[i].key) == Some(fields[i].val)
  {
    if i > 0 {
      assert fields[1..][i - 1] == fields[i];
      GetAt(fields[1..], i - 1);
    }
  }

  // ----- canonical form ------------------------------------------------------

  predicate SortedFields(fields: seq<Field>) {
    forall i, k :: 0 <= i < k < |fields| ==> StrLt(fields[i].key, fields[k].key)
  }

  function InsertField(f: Field, sorted: seq<Field>): (r: seq<Field>)
    ensures KeySet(r) == {f.key} + KeySet(sorted)
  {
    if sorted == [] then
      KeySetSplit([f]);
      [f]
    else if StrLe(f.key, sorted[0].key) then
      KeySetSplit([f] + sorted);
      assert ([f] + sorted)[1..] == sorted;
      [f] + sorted
    else
      var rest := InsertField(f, sorted[1..]);
      KeySetSplit(sorted);
      KeySetSplit([sorted[0]] + rest);
      assert ([sorted[0]] + rest)[1..] == rest;
      [sorted[0]] + rest
  }

  function SortFields(fields: seq<Field>): (r: seq<Field>)
    ensures KeySet(r) == KeySet(fields)
  {
    if fields == [] then []
    else
      KeySetSplit(fields);
      InsertField(fields[0], SortFields(fields[1..]))
  }

  lemma {:induction false} InsertFieldSorted(f: Field, sorted: seq<Field>)
    requires SortedFields(sorted) && f.key !in KeySet(sorted)
    ensures SortedFields(InsertField(f, sorted))
  {
    if sorted == [] {
    } else if StrLe(f.key, sorted[0].key) {
      assert sorted[0].key in KeySet(sorted);
      PrependSorted(f, sorted);
    } else {
      KeySetSplit(sorted);
      StrLeTotal(f.key, sorted[0].key);
      InsertFieldSorted(f, sorted[1..]);
      var rest := InsertField(f, sorted[1..]);
      if rest[0].key != f.key {
        assert rest[0].key in KeySet(rest);
        var m :| 0 <= m < |sorted[1..]| && sorted[1..][m].key == rest[0].key;
        assert StrLt(sorted[0].key, sorted[m + 1].key);
      }
      PrependSorted(sorted[0], rest);
    }
  }

  lemma PrependSorted(f: Field, sorted: seq<Field>)
    requires SortedFields(sorted)
    requires sorted != [] ==> StrLt(f.key, sorted[0].key)
    ensures SortedFields([f] + sorted)
  {
    forall k | 0 < k < |sorted|
      ensures StrLt(f.key, sorted[k].key)
    {
      StrLtTransitive(f.key, sorted[0].key, sorted[k].key);
    }
  }

  lemma {:induction false} InsertFieldReads(f: Field, sorted: seq<Field>, key: string)
    requires f.key !in KeySet(sorted)
    ensures Get(InsertField(f, sorted), key) == if key == f.key then Some(f.val) else Get(sorted, key)
  {
    if sorted == [] {
    } else if StrLe(f.key, sorted[0].key) {
      assert ([f] + sorted)[1..] == sorted;
    } else {
      KeySetSplit(sorted);
      InsertFieldReads(f, sorted[1..], key);
      var rest := InsertField(f, sorted[1..]);
      assert ([sorted[0]] + rest)[1..] == rest;
    }
  }

  lemma {:induction false} SortFieldsReads(fields: seq<Field>, key: string)
    requires DistinctKeys(fields)
    ensures SortedFields(SortFields(fields))
    ensures Get(SortFields(fields), key) == Get(fields, key)
  {
    if fields != [] {
      SortFieldsReads(fields[1..], key);
      assert forall i :: 0 <= i < |fields[1..]| ==> fields[1..][i] == fields[i + 1];
      InsertFieldSorted(fields[0], SortFields(fields[1..]));
      InsertFieldReads(fields[0], SortFields(fields[1..]), key);
    }
  }

  /** Sorted fields are determined by what they read. */
  lemma {:induction false} SortedFieldsUnique(a: seq<Field>, b: seq<Field>)
    requires SortedFields(a) && SortedFields(b)
    requires forall key :: Get(a, key) == Get(b, key)
    ensures a == b
  {
    assert a != [] ==> a[0].key in KeySet(a) && Get(a, a[0].key) == Get(b, a[0].key);
    assert b != [] ==> b[0].key in KeySet(b) && Get(a, b[0].key) == Get(b, b[0].key);
    if a != [] && b != [] {
      GetAt(a, 0);
      GetAt(b, 0);
      assert Get(a, b[0].key) == Get(b, b[0].key) && Get(a, a[0].key) == Get(b, a[0].key);
      SortedHeadIsLeast(a, b[0].key);
      SortedHeadIsLeast(b, a[0].key);
      if a[0].key != b[0].key {
        StrLeAntisymmetric(a[0].key, b[0].key);
      }
      forall key
        ensures Get(a[1..], key) == Get(b[1..], key)
      {
        assert Get(a, key) == Get(b, key);
        if key == a[0].key {
          SortedTailOmitsHead(a);
          SortedTailOmitsHead(b);
        }
      }
      SortedFieldsUnique(a[1..], b[1..]);
      assert a == [a[0]] + a[1..] && b == [b[0]] + b[1..];
    }
  }

  lemma SortedHeadIsLeast(a: seq<Field>, key: string)
    requires SortedFields(a) && a != [] && key in KeySet(a)
    ensures StrLe(a[0].key, key)
  {
    var i :| 0 <= i < |a| && a[i].key == key;
    StrLeTotal(a[0].key, a[0].key);
    assert i > 0 ==> StrLt(a[0].key, a[i].key);
  }

  lemma SortedTailOmitsHead(a: seq<Field>)
    requires SortedFields(a) && a != []
    ensures a[0].key !in KeySet(a[1..])
  {
    assert forall i :: 0 <= i < |a[1..]| ==> a[1..][i] == a[i + 1];
  }

  /** Sort the keys of every object, at every depth; array order is kept. */
  function Canon(j: Json): Json
    decreases j, 1
  {
    match j
    case Arr(items) => Arr(CanonItems(items))
    case Obj(fields) => Obj(SortFields(CanonFields(fields)))
    case _ => j
  }

  function CanonItems(items: seq<Json>): (r: seq<Json>)
    ensures |r| == |items|
    decreases items, 0
  {
    if items == [] then [] else [Canon(items[0])] + CanonItems(items[1..])
  }

  function CanonFields(fields: seq<Field>): (r: seq<Field>)
    ensures |r| == |fields|
    decreases fields, 0
  {
    if fields == [] then [] else [Field(fields[0].key, Canon(fields[0].val))] + CanonFields(fields[1..])
  }

  lemma {:induction false} CanonItemsAt(items: seq<Json>, i: nat)
    requires i < |items|
    ensures CanonItems(items)[i] == Canon(items[i])
  {
    if i > 0 { CanonItemsAt(items[1..], i - 1); }
  }

  lemma {:induction false} CanonFieldsAt(fields: seq<Field>, i: nat)
    requires i < |fields|
    ensures CanonFields(fields)[i] == Field(fields[i].key, Canon(fields[i].val))
  {
    if i > 0 { CanonFieldsAt(fields[1..], i - 1); }
  }

  lemma CanonFieldsKeys(fields: seq<Field>)
    ensures KeySet(CanonFields(fields)) == KeySet(fields)
    ensures DistinctKeys(fields) ==> DistinctKeys(CanonFields(fields))
  {
    forall i | 0 <= i < |fields|
      ensures CanonFields(fields)[i].key == fields[i].key
    {
      CanonFieldsAt(fields, i);
    }
    forall k | k in KeySet(fields)
      ensures k in KeySet(CanonFields(fields))
    {
      var i :| 0 <= i < |fields| && fields[i].key == k;
      assert CanonFields(fields)[i].key == k;
    }
    forall k | k in KeySet(CanonFields(fields))
      ensures k in KeySet(fields)
    {
      var i :| 0 <= i < |CanonFields(fields)| && CanonFields(fields)[i].key == k;
      assert fields[i].key == k;
    }
  }

  lemma CanonFieldsGet(fields: seq<Field>, i: nat)
    requires DistinctKeys(fields) && i < |fields|
    ensures Get(CanonFields(fields), fields[i].key) == Some(Canon(fields[i].val))
  {
    CanonFieldsKeys(fields);
    CanonFieldsAt(fields, i);
    GetAt(CanonFields(fields), i);
  }

  /** The same value up to the order of keys, compared without sorting anything. */
  ghost predicate SameUpToKeyOrder(a: Json, b: Json)
    decreases a
  {
    match a
    case Arr(x) => b.Arr? && |x| == |b.items| && forall i :: 0 <= i < |x| ==> SameUpToKeyOrder(x[i], b.items[i])
    case Obj(x) =>
      && b.Obj?
      && KeySet(x) == KeySet(b.fields)
      && forall i, k :: 0 <= i < |x| && 0 <= k < |b.fields| && x[i].key == b.fields[k].key
                        ==> SameUpToKeyOrder(x[i].val, b.fields[k].val)
    case _ => a == b
  }

  /** The canonical form decides equality up to key order. */
  lemma {:induction false} CanonDecides(a: Json, b: Json)
    requires Parsed(a) && Parsed(b)
    ensures Canon(a) == Canon(b) <==> SameUpToKeyOrder(a, b)
    decreases a
  {
    if a.Arr? && b.Arr? {
      forall i | 0 <= i < |a.items| && i < |b.items|
        ensures CanonItems(a.items)[i] == CanonItems(b.items)[i] <==> SameUpToKeyOrder(a.items[i], b.items[i])
      {
        CanonItemsAt(a.items, i);
        CanonItemsAt(b.items, i);
        CanonDecides(a.items[i], b.items[i]);
      }
    } else if a.Obj? && b.Obj? {
      forall i, k | 0 <= i < |a.fields| && 0 <= k < |b.fields|
        ensures Canon(a.fields[i].val) == Canon(b.fields[k].val) <==> SameUpToKeyOrder(a.fields[i].val, b.fields[k].val)
      {
        CanonDecides(a.fields[i].val, b.fields[k].val);
      }
      CanonObjects(a.fields, b.fields);
    }
  }

  ghost predicate SameCanonFields(x: seq<Field>, y: seq<Field>) {
    && KeySet(x) == KeySet(y)
    && forall i, k :: 0 <= i < |x| && 0 <= k < |y| && x[i].key == y[k].key ==> Canon(x[i].val) == Canon(y[k].val)
  }

  lemma CanonObjects(x: seq<Field>, y: seq<Field>)
    requires DistinctKeys(x) && DistinctKeys(y)
    ensures SortFields(CanonFields(x)) == SortFields(CanonFields(y)) <==> SameCanonFields(x, y)
  {
    if SortFields(CanonFields(x)) == SortFields(CanonFields(y)) {
      CanonObjectsAgree(x, y);
    }
    if SameCanonFields(x, y) {
      CanonObjectsMeet(x, y);
    }
  }

  lemma CanonObjectsAgree(x: seq<Field>, y: seq<Field>)
    requires DistinctKeys(x) && DistinctKeys(y)
    requires SortFields(CanonFields(x)) == SortFields(CanonFields(y))
    ensures SameCanonFields(x, y)
  {
    CanonFieldsKeys(x);
    CanonFieldsKeys(y);
    forall i, k | 0 <= i < |x| && 0 <= k < |y| && x[i].key == y[k].key
      ensures Canon(x[i].val) == Canon(y[k].val)
    {
      SortFieldsReads(CanonFields(x), x[i].key);
      SortFieldsReads(CanonFields(y), x[i].key);
      CanonFieldsGet(x, i);
      CanonFieldsGet(y, k);
    }
  }

  lemma CanonObjectsMeet(x: seq<Field>, y: seq<Field>)
    requires DistinctKeys(x) && DistinctKeys(y)
    requires SameCanonFields(x, y)
    ensures SortFields(CanonFields(x)) == SortFields(CanonFields(y))
  {
    CanonFieldsKeys(x);
    CanonFieldsKeys(y);
    SortFieldsReads(CanonFields(x), "");
    SortFieldsReads(CanonFields(y), "");
    forall key
      ensures Get(SortFields(CanonFields(x)), key) == Get(SortFields(CanonFields(y)), key)
    {
      SortFieldsReads(CanonFields(x), key);
      SortFieldsReads(CanonFields(y), key);
      if key in KeySet(x) {
        var i :| 0 <= i < |x| && x[i].key == key;
        var k :| 0 <= k < |y| && y[k].key == key;
        CanonFieldsGet(x, i);
        CanonFieldsGet(y, k);
      }
    }
    SortedFieldsUnique(SortFields(CanonFields(x)), SortFields(CanonFields(y)));
  }
}
