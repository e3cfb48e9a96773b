/**
 Payload checksums: a canonical form of JSON trees, and signing and verifying on top of it.

 Strings are sequences of UTF-16 code units. The keyed digest of a canonical tree (its compact JSON under
 HMAC-SHA256) is a parameter.
 */
module Checksum {

  type CodeUnit = c: nat | c < 0x10000
  type Text = seq<CodeUnit>

  datatype Json =
    | Undefined
    | Null
    | Bool(b: bool)
    | Num(n: real)
    | Str(s: Text)
    | Arr(items: seq<Json>)
    | Obj(fields: seq<Field>)

  /** The fields of an object in enumeration order. */
  datatype Field = Field(key: Text, value: Json)

  /** "checksum" and "checksumMethod" */
  const CHECKSUM: Text := [99, 104, 101, 99, 107, 115, 117, 109]
  const CHECKSUM_METHOD: Text := CHECKSUM + [77, 101, 116, 104, 111, 100]

  predicate IsSignature(key: Text) {
    key == CHECKSUM || key == CHECKSUM_METHOD
  }

  /** The code units of a word. */
  predicate Spells(key: Text, word: string) {
    |key| == |word| && forall i :: 0 <= i < |key| ==> key[i] == word[i] as int
  }

  lemma SignatureNames(key: Text)
    ensures key == CHECKSUM <==> Spells(key, "checksum")
    ensures IsSignature(key) <==> Spells(key, "checksum") || Spells(key, "checksumMethod")
  {
    assert Spells(CHECKSUM, "checksum") && Spells(CHECKSUM_METHOD, "checksumMethod");
    assert |CHECKSUM| == 8 && |CHECKSUM_METHOD| == 14;
    if Spells(key, "checksum") {
      assert forall i :: 0 <= i < 8 ==> key[i] == CHECKSUM[i];
    }
    if Spells(key, "checksumMethod") {
      assert forall i :: 0 <= i < 14 ==> key[i] == CHECKSUM_METHOD[i];
    }
  }

  /** An object holds each key once, all the way down. */
  ghost predicate Formed(j: Json) {
    match j
    case Arr(items) => forall i :: 0 <= i < |items| ==> Formed(items[i])
    case Obj(fields) =>
      DistinctKeys(fields) && (forall i :: 0 <= i < |fields| ==> Formed(fields[i].value))
    case _ => true
  }

  // --------------------------- The order of the keys -------------------------

  /** The default sort order: by code unit, a proper prefix first. */
  predicate Less(a: Text, b: Text) {
    if b == [] then false
    else if a == [] then true
    else if a[0] != b[0] then a[0] < b[0]
    else Less(a[1..], b[1..])
  }

  /** The two texts share their first n code units; then a ends before b does, or has the smaller unit. */
  predicate PartsAt(a: Text, b: Text, n: nat) {
    && n <= |a| && n <= |b| && a[..n] == b[..n]
    && (n == |a| < |b| || (n < |a| && n < |b| && a[n] < b[n]))
  }

  ghost predicate Precedes(a: Text, b: Text) {
    exists n: nat :: PartsAt(a, b, n)
  }

  lemma SharedHead(a: Text, b: Text, n: nat)
    ensures PartsAt(a, b, n) ==> n == 0 || (a != [] && b != [] && a[0] == b[0])
  {
    if PartsAt(a, b, n) && n > 0 {
      assert a[0] == a[..n][0] == b[..n][0] == b[0];
    }
  }

  lemma {:induction false} LessIff(a: Text, b: Text)
    ensures Less(a, b) <==> Precedes(a, b)
  {
    if a == [] || b == [] || a[0] != b[0] {
      if Less(a, b) {
        assert PartsAt(a, b, 0);
      }
      if Precedes(a, b) {
        var n: nat :| PartsAt(a, b, n);
        SharedHead(a, b, n);
      }
    } else {
      LessIff(a[1..], b[1..]);
      if Precedes(a[1..], b[1..]) {
        var n: nat :| PartsAt(a[1..], b[1..], n);
        assert a[..n + 1] == [a[0]] + a[1..][..n] && b[..n + 1] == [b[0]] + b[1..][..n];
        assert PartsAt(a, b, n + 1);
      }
      if Precedes(a, b) {
        var n: nat :| PartsAt(a, b, n);
        assert a[1..][..n - 1] == a[..n][1..] && b[1..][..n - 1] == b[..n][1..];
        assert PartsAt(a[1..], b[1..], n - 1);
      }
    }
  }

  lemma {:induction false} LessTotal(a: Text, b: Text)
    ensures a != b ==> Less(a, b) || Less(b, a)
    ensures Less(a, b) ==> a != b && !Less(b, a)
  {
    if a != [] && b != [] && a[0] == b[0] {
      LessTotal(a[1..], b[1..]);
      assert a == [a[0]] + a[1..] && b == [b[0]] + b[1..];
    }
  }

  lemma {:induction false} LessTransitive(a: Text, b: Text, c: Text)
    requires Less(a, b) && Less(b, c)
    ensures Less(a, c)
  {
    if a != [] && a[0] == b[0] == c[0] {
      LessTransitive(a[1..], b[1..], c[1..]);
    }
  }

  ghost predicate SortedFields(fields: seq<Field>) {
    forall i, k :: 0 <= i < k < |fields| ==> Less(fields[i].key, fields[k].key)
  }

  function Insert(f: Field, fields: seq<Field>): seq<Field> {
    if fields == [] || Less(f.key, fields[0].key) then [f] + fields
    else [fields[0]] + Insert(f, fields[1..])
  }

  function Sort(fields: seq<Field>): seq<Field> {
    if fields == [] then [] else Insert(fields[0], Sort(fields[1..]))
  }

  ghost predicate DistinctKeys(fields: seq<Field>) {
    forall i, k :: 0 <= i < k < |fields| ==> fields[i].key != fields[k].key
  }

  lemma {:induction false} InsertSorts(f: Field, fields: seq<Field>)
    requires SortedFields(fields) && forall g :: g in fields ==> g.key != f.key
    ensures SortedFields(Insert(f, fields))
    ensures forall g :: g in Insert(f, fields) <==> g == f || g in fields
  {
    if fields != [] {
      LessTotal(f.key, fields[0].key);
      var rest := fields[1..];
      if Less(f.key, fields[0].key) {
        forall i | 0 <= i < |rest| ensures Less(f.key, rest[i].key) {
          LessTransitive(f.key, fields[0].key, rest[i].key);
        }
      } else {
        InsertSorts(f, rest);
        forall g | g in Insert(f, rest) ensures Less(fields[0].key, g.key) {
        }
        assert forall g :: g in fields <==> g == fields[0] || g in rest;
      }
    }
  }

  lemma {:induction false} SortSorts(fields: seq<Field>)
    requires DistinctKeys(fields)
    ensures SortedFields(Sort(fields))
    ensures forall g :: g in Sort(fields) <==> g in fields
  {
    if fields != [] {
      SortSorts(fields[1..]);
      InsertSorts(fields[0], Sort(fields[1..]));
      assert forall g :: g in fields <==> g == fields[0] || g in fields[1..];
    }
  }

  lemma EmptyOrHead(fields: seq<Field>)
    ensures fields == [] || fields[0] in fields
  {
  }

  /** A sorted object is determined by its set of fields. */
  lemma {:induction false} SortedUnique(a: seq<Field>, b: seq<Field>)
    requires SortedFields(a) && SortedFields(b)
    requires forall f :: f in a <==> f in b
    ensures a == b
  {
    EmptyOrHead(a);
    EmptyOrHead(b);
    if a != [] && b != [] {
      assert b[0] in a;
      LessTotal(a[0].key, b[0].key);
      assert a[0] == b[0];
      forall f ensures f in a[1..] <==> f in b[1..] {
        SortedTail(a, f);
        SortedTail(b, f);
      }
      SortedUnique(a[1..], b[1..]);
      assert a == [a[0]] + a[1..] && b == [b[0]] + b[1..];
    }
  }

  lemma SortedTail(a: seq<Field>, f: Field)
    requires SortedFields(a) && a != []
    ensures f in a[1..] <==> f in a && f != a[0]
  {
    if i :| 0 <= i < |a[1..]| && a[1..][i] == f {
      LessTotal(a[0].key, a[i + 1].key);
      assert a[i + 1] in a;
    }
  }

  // ------------------------------ Canonical form -----------------------------

  function Canon(j: Json): Json
    decreases j, 1
  {
    match j
    case Undefined => Null
    case Null => Null
    case Bool(_) => j
    case Num(_) => j
    case Str(_) => j
    case Arr(items) => Arr(CanonAll(items))
    case Obj(fields) => Obj(Sort(CanonFields(fields)))
  }

  function CanonAll(items: seq<Json>): (r: seq<Json>)
    ensures |r| == |items| && forall i :: 0 <= i < |items| ==> r[i] == Canon(items[i])
    decreases items, 0
  {
    if items == [] then [] else [Canon(items[0])] + CanonAll(items[1..])
  }

  /** The fields that count, with canonical values, in the order given. */
  function CanonFields(fields: seq<Field>): seq<Field>
    decreases fields, 0
  {
    if fields == [] then []
    else
      var first, rest := fields[0], CanonFields(fields[1..]);
      if IsSignature(first.key) then rest else [Field(first.key, Canon(first.value))] + rest
  }

  /** f is what field i of the object becomes. */
  predicate Becomes(fields: seq<Field>, i: int, f: Field) {
    0 <= i < |fields| && !IsSignature(fields[i].key) && f == Field(fields[i].key, Canon(fields[i].value))
  }

  /** Some counting field of the object becomes f. */
  predicate InForm(fields: seq<Field>, f: Field) {
    exists i :: 0 <= i < |fields| && Becomes(fields, i, f)
  }

  lemma {:induction false} CanonFieldsMembers(fields: seq<Field>, f: Field)
    ensures f in CanonFields(fields) <==> InForm(fields, f)
  {
    if fields != [] {
      var rest := fields[1..];
      CanonFieldsMembers(rest, f);
      if InForm(rest, f) {
        var i :| 0 <= i < |rest| && Becomes(rest, i, f);
        assert Becomes(fields, i + 1, f);
      }
      if InForm(fields, f) {
        var i :| 0 <= i < |fields| && Becomes(fields, i, f);
        assert i > 0 ==> Becomes(rest, i - 1, f);
      }
      if !IsSignature(fields[0].key) && f == Field(fields[0].key, Canon(fields[0].value)) {
        assert Becomes(fields, 0, f);
      }
    }
  }

  lemma {:induction false} CanonFieldsDistinct(fields: seq<Field>)
    requires DistinctKeys(fields)
    ensures DistinctKeys(CanonFields(fields))
  {
    if fields != [] {
      CanonFieldsDistinct(fields[1..]);
      forall f | f in CanonFields(fields[1..]) ensures f.key != fields[0].key {
        CanonFieldsMembers(fields[1..], f);
      }
    }
  }

  /** The canonical fields of an object: sorted, and exactly what its counting fields become. */
  lemma {:induction false} CanonObject(fields: seq<Field>)
    requires DistinctKeys(fields)
    ensures SortedFields(Sort(CanonFields(fields)))
    ensures forall f :: f in Sort(CanonFields(fields)) <==> InForm(fields, f)
  {
    CanonFieldsDistinct(fields);
    SortSorts(CanonFields(fields));
    forall f ensures f in Sort(CanonFields(fields)) <==> InForm(fields, f) {
      CanonFieldsMembers(fields, f);
    }
  }

  // ------------------------------- Equivalence -------------------------------

  predicate Counts(fields: seq<Field>, key: Text) {
    !IsSignature(key) && exists i :: 0 <= i < |fields| && fields[i].key == key
  }

  /**
   Two payloads agree up to the order of object keys, signature fields at any depth, and the difference
   between undefined and null.
   */
  ghost predicate Agree(a: Json, b: Json)
    decreases a
  {
    match a
    case Undefined => b.Undefined? || b.Null?
    case Null => b.Undefined? || b.Null?
    case Bool(_) => a == b
    case Num(_) => a == b
    case Str(_) => a == b
    case Arr(items) =>
      b.Arr? && |items| == |b.items| && forall i :: 0 <= i < |items| ==> Agree(items[i], b.items[i])
    case Obj(fields) =>
      && b.Obj?
      && (forall key :: Counts(fields, key) <==> Counts(b.fields, key))
      && (forall i, k :: 0 <= i < |fields| && 0 <= k < |b.fields|
                         && fields[i].key == b.fields[k].key && !IsSignature(fields[i].key)
                         ==> Agree(fields[i].value, b.fields[k].value))
  }

  /** Canonicalisation decides equivalence: same canonical form if and only if the payloads agree. */
  lemma {:induction false} CanonDecides(a: Json, b: Json)
    requires Formed(a) && Formed(b)
    ensures Canon(a) == Canon(b) <==> Agree(a, b)
    decreases a
  {
    if a.Arr? && b.Arr? && |a.items| == |b.items| {
      forall i | 0 <= i < |a.items| ensures Canon(a.items[i]) == Canon(b.items[i]) <==> Agree(a.items[i], b.items[i]) {
        CanonDecides(a.items[i], b.items[i]);
      }
      assert Canon(a) == Canon(b) ==> forall i :: 0 <= i < |a.items| ==> CanonAll(a.items)[i] == CanonAll(b.items)[i];
    } else if a.Obj? && b.Obj? {
      forall i, k | 0 <= i < |a.fields| && 0 <= k < |b.fields|
        ensures Canon(a.fields[i].value) == Canon(b.fields[k].value) <==> Agree(a.fields[i].value, b.fields[k].value)
      {
        CanonDecides(a.fields[i].value, b.fields[k].value);
      }
      CanonObject(a.fields);
      CanonObject(b.fields);
      if Canon(a) == Canon(b) {
        forall f ensures InForm(a.fields, f) <==> InForm(b.fields, f) {
          assert f in Sort(CanonFields(a.fields)) <==> f in Sort(CanonFields(b.fields));
        }
        SameFormAgrees(a.fields, b.fields);
      }
      if Agree(a, b) {
        AgreeingSameForm(a.fields, b.fields);
      }
    }
  }

  ghost predicate ValuesDecided(a: seq<Field>, b: seq<Field>) {
    forall i, k :: 0 <= i < |a| && 0 <= k < |b|
      ==> (Canon(a[i].value) == Canon(b[k].value) <==> Agree(a[i].value, b[k].value))
  }

  lemma SameKey(fields: seq<Field>, i: int, k: int)
    requires DistinctKeys(fields) && 0 <= i < |fields| && 0 <= k < |fields| && fields[i].key == fields[k].key
    ensures i == k
  {
  }

  lemma SameFormAgrees(a: seq<Field>, b: seq<Field>)
    requires DistinctKeys(a) && DistinctKeys(b) && ValuesDecided(a, b)
    requires forall f :: InForm(a, f) <==> InForm(b, f)
    ensures Agree(Obj(a), Obj(b))
  {
    hide Canon;
    forall key ensures Counts(a, key) <==> Counts(b, key) {
      SameFormCounts(a, b, key);
      SameFormCounts(b, a, key);
    }
    forall i, k | 0 <= i < |a| && 0 <= k < |b| && a[i].key == b[k].key && !IsSignature(a[i].key)
      ensures Agree(a[i].value, b[k].value)
    {
      var f := Field(a[i].key, Canon(a[i].value));
      assert Becomes(a, i, f) && InForm(b, f);
      var m :| 0 <= m < |b| && Becomes(b, m, f);
      SameKey(b, m, k);
    }
  }

  lemma SameFormCounts(a: seq<Field>, b: seq<Field>, key: Text)
    requires forall f :: InForm(a, f) <==> InForm(b, f)
    ensures Counts(a, key) ==> Counts(b, key)
  {
    hide Canon;
    if Counts(a, key) {
      var i :| 0 <= i < |a| && a[i].key == key;
      var f := Field(key, Canon(a[i].value));
      assert Becomes(a, i, f) && InForm(b, f);
    }
  }

  lemma {:induction false} AgreeingSameForm(a: seq<Field>, b: seq<Field>)
    requires DistinctKeys(a) && DistinctKeys(b) && ValuesDecided(a, b) && Agree(Obj(a), Obj(b))
    ensures Sort(CanonFields(a)) == Sort(CanonFields(b))
  {
    CanonObject(a);
    CanonObject(b);
    forall f ensures InForm(a, f) <==> InForm(b, f) {
      if InForm(a, f) {
        assert Counts(a, f.key) && Counts(b, f.key);
        var k :| 0 <= k < |b| && b[k].key == f.key;
        assert Becomes(b, k, f);
      }
      if InForm(b, f) {
        assert Counts(b, f.key) && Counts(a, f.key);
        var i :| 0 <= i < |a| && a[i].key == f.key;
        assert Becomes(a, i, f);
      }
    }
    SortedUnique(Sort(CanonFields(a)), Sort(CanonFields(b)));
  }

  /** The canonical form is well formed and agrees with the payload it came from. */
  lemma {:induction false} CanonAgrees(j: Json)
    requires Formed(j)
    ensures CanonSound(j)
    decreases j
  {
    if j.Arr? {
      forall i | 0 <= i < |j.items| ensures CanonSound(j.items[i]) {
        CanonAgrees(j.items[i]);
      }
    } else if j.Obj? {
      forall i | 0 <= i < |j.fields| ensures CanonSound(j.fields[i].value) {
        CanonAgrees(j.fields[i].value);
      }
      CanonObjectAgrees(j.fields);
    }
  }

  lemma ObjectsAgree(a: seq<Field>, b: seq<Field>)
    requires forall key :: Counts(a, key) <==> Counts(b, key)
    requires forall i, k :: 0 <= i < |a| && 0 <= k < |b| && a[i].key == b[k].key ==> Agree(a[i].value, b[k].value)
    ensures Agree(Obj(a), Obj(b))
  {
  }

  lemma ObjectFormed(fields: seq<Field>)
    requires DistinctKeys(fields) && forall i :: 0 <= i < |fields| ==> Formed(fields[i].value)
    ensures Formed(Obj(fields))
  {
  }

  ghost predicate CanonSound(j: Json) {
    Formed(Canon(j)) && Agree(Canon(j), j)
  }

  lemma CanonObjectAgrees(fields: seq<Field>)
    requires DistinctKeys(fields)
    requires forall i :: 0 <= i < |fields| ==> CanonSound(fields[i].value)
    ensures CanonSound(Obj(fields))
  {
    CanonObject(fields);
    var sorted := Sort(CanonFields(fields));
    assert Canon(Obj(fields)) == Obj(sorted);
    hide Sort, CanonFields, Canon, SortedFields, Agree, Formed;
    SortedDistinct(sorted);
    forall m | 0 <= m < |sorted| ensures Formed(sorted[m].value) {
      assert sorted[m] in sorted && InForm(fields, sorted[m]);
    }
    ObjectFormed(sorted);
    forall key ensures Counts(sorted, key) <==> Counts(fields, key) {
      CanonKeys(fields, sorted, key);
    }
    forall m, k | 0 <= m < |sorted| && 0 <= k < |fields| && sorted[m].key == fields[k].key
      ensures Agree(sorted[m].value, fields[k].value)
    {
      assert sorted[m] in sorted && InForm(fields, sorted[m]);
      var i :| 0 <= i < |fields| && Becomes(fields, i, sorted[m]);
      SameKey(fields, i, k);
    }
    ObjectsAgree(sorted, fields);
  }

  lemma SortedDistinct(sorted: seq<Field>)
    requires SortedFields(sorted)
    ensures DistinctKeys(sorted)
  {
    forall m, n | 0 <= m < n < |sorted| ensures sorted[m].key != sorted[n].key {
      LessTotal(sorted[m].key, sorted[n].key);
    }
  }

  lemma CanonKeys(fields: seq<Field>, sorted: seq<Field>, key: Text)
    requires forall f :: f in sorted <==> InForm(fields, f)
    ensures Counts(sorted, key) <==> Counts(fields, key)
  {
    hide Canon;
    if Counts(fields, key) {
      var i :| 0 <= i < |fields| && fields[i].key == key;
      assert Becomes(fields, i, Field(key, Canon(fields[i].value)));
      assert Field(key, Canon(fields[i].value)) in sorted;
    }
    if Counts(sorted, key) {
      var m :| 0 <= m < |sorted| && sorted[m].key == key;
      assert sorted[m] in sorted && InForm(fields, sorted[m]);
    }
  }

  /** Canonicalising twice is canonicalising once. */
  lemma {:induction false} CanonIdempotent(j: Json)
    requires Formed(j)
    ensures Canon(Canon(j)) == Canon(j)
  {
    CanonAgrees(j);
    CanonDecides(Canon(j), j);
  }

  // ----------------------------- The normal form -----------------------------

  /** Each key precedes the next. */
  ghost predicate InOrder(fields: seq<Field>) {
    forall i :: 0 <= i < |fields| - 1 ==> Precedes(fields[i].key, fields[i + 1].key)
  }

  /** At every depth: keys in order, no signature field, and null in place of undefined. */
  ghost predicate Canonical(j: Json) {
    match j
    case Undefined => false
    case Arr(items) => forall i :: 0 <= i < |items| ==> Canonical(items[i])
    case Obj(fields) =>
      && InOrder(fields)
      && (forall i :: 0 <= i < |fields| ==>
            !Spells(fields[i].key, "checksum") && !Spells(fields[i].key, "checksumMethod"))
      && (forall i :: 0 <= i < |fields| ==> Canonical(fields[i].value))
    case _ => true
  }

  lemma InOrderIff(fields: seq<Field>)
    ensures InOrder(fields) <==> SortedFields(fields)
  {
    hide Precedes, Less;
    forall i | 0 <= i < |fields| - 1 ensures Precedes(fields[i].key, fields[i + 1].key)
                                        <==> Less(fields[i].key, fields[i + 1].key)
    {
      LessIff(fields[i].key, fields[i + 1].key);
    }
    if InOrder(fields) {
      forall i, k | 0 <= i < k < |fields| ensures Less(fields[i].key, fields[k].key) {
        OrderReaches(fields, i, k);
      }
    }
  }

  lemma {:induction false} OrderReaches(fields: seq<Field>, i: nat, k: nat)
    requires forall m :: 0 <= m < |fields| - 1 ==> Less(fields[m].key, fields[m + 1].key)
    requires i < k < |fields|
    ensures Less(fields[i].key, fields[k].key)
    decreases k
  {
    hide Less;
    if i + 1 < k {
      OrderReaches(fields, i, k - 1);
      LessTransitive(fields[i].key, fields[k - 1].key, fields[k].key);
    }
  }

  /** Every canonical form is in normal form. */
  lemma {:induction false} CanonCanonical(j: Json)
    requires Formed(j)
    ensures Canonical(Canon(j))
    decreases j
  {
    if j.Arr? {
      forall i | 0 <= i < |j.items| ensures Canonical(Canon(j.items[i])) {
        CanonCanonical(j.items[i]);
      }
    } else if j.Obj? {
      var sorted := Sort(CanonFields(j.fields));
      CanonObject(j.fields);
      InOrderIff(sorted);
      forall m | 0 <= m < |sorted|
        ensures !Spells(sorted[m].key, "checksum") && !Spells(sorted[m].key, "checksumMethod")
        ensures Canonical(sorted[m].value)
      {
        assert sorted[m] in sorted && InForm(j.fields, sorted[m]);
        var i :| 0 <= i < |j.fields| && Becomes(j.fields, i, sorted[m]);
        SignatureNames(sorted[m].key);
        CanonCanonical(j.fields[i].value);
      }
      hide InOrder, Sort, CanonFields;
    }
  }

  /** The payloads that canonicalisation leaves alone are those in normal form. */
  lemma {:induction false} CanonFixesIff(j: Json)
    requires Formed(j)
    ensures Canon(j) == j <==> Canonical(j)
    decreases j
  {
    CanonCanonical(j);
    if Canonical(j) {
      if j.Arr? {
        forall i | 0 <= i < |j.items| ensures Canon(j.items[i]) == j.items[i] {
          CanonFixesIff(j.items[i]);
        }
        assert CanonAll(j.items) == j.items;
      } else if j.Obj? {
        forall i | 0 <= i < |j.fields| ensures Canon(j.fields[i].value) == j.fields[i].value {
          CanonFixesIff(j.fields[i].value);
        }
        FixedObject(j.fields);
      }
    }
  }

  lemma {:induction false} FixedObject(fields: seq<Field>)
    requires DistinctKeys(fields) && InOrder(fields)
    requires forall i :: 0 <= i < |fields| ==> Canon(fields[i].value) == fields[i].value
    requires forall i :: 0 <= i < |fields| ==>
               !Spells(fields[i].key, "checksum") && !Spells(fields[i].key, "checksumMethod")
    ensures Sort(CanonFields(fields)) == fields
  {
    hide Canon, Precedes, Spells;
    CanonObject(fields);
    InOrderIff(fields);
    forall f ensures f in Sort(CanonFields(fields)) <==> f in fields {
      if i :| 0 <= i < |fields| && fields[i] == f {
        SignatureNames(f.key);
        assert Becomes(fields, i, f);
      }
    }
    SortedUnique(Sort(CanonFields(fields)), fields);
  }

  // --------------------------- Signing and verifying -------------------------

  /** The digest of a payload under a key: a keyed function of its canonical form. */
  type Digest = (Text, Json) -> Text

  function CreatePayloadChecksum(digest: Digest, key: Text, payload: Json): Text {
    digest(key, Canon(payload))
  }

  /** The payload's checksum field, when it is a string. */
  function Provided(fields: seq<Field>): Text {
    if fields == [] then []
    else if fields[0].key == CHECKSUM && fields[0].value.Str? then fields[0].value.s
    else Provided(fields[1..])
  }

  /** The payload with its checksum field set, where it stands or at the end. */
  function WithChecksum(fields: seq<Field>, sum: Text): seq<Field> {
    if fields == [] then [Field(CHECKSUM, Str(sum))]
    else if fields[0].key == CHECKSUM then [Field(CHECKSUM, Str(sum))] + fields[1..]
    else [fields[0]] + WithChecksum(fields[1..], sum)
  }

  /** Bitwise exclusive or, and or, of non-negative numbers. */
  function BitXor(a: nat, b: nat): nat {
    if a == 0 && b == 0 then 0 else 2 * BitXor(a / 2, b / 2) + (if a % 2 != b % 2 then 1 else 0)
  }

  function BitOr(a: nat, b: nat): nat {
    if a == 0 && b == 0 then 0 else 2 * BitOr(a / 2, b / 2) + (if a % 2 == 1 || b % 2 == 1 then 1 else 0)
  }

  lemma {:induction false} XorZero(a: nat, b: nat)
    ensures BitXor(a, b) == 0 <==> a == b
  {
    if a != 0 || b != 0 {
      XorZero(a / 2, b / 2);
    }
  }

  lemma {:induction false} OrZero(a: nat, b: nat)
    ensures BitOr(a, b) == 0 <==> a == 0 && b == 0
  {
    if a != 0 || b != 0 {
      OrZero(a / 2, b / 2);
    }
  }

  /** Accepts exactly the payloads that carry a non-empty checksum equal to the one computed for them. */
  method VerifyPayloadChecksum(digest: Digest, key: Text, fields: seq<Field>) returns (valid: bool)
    ensures valid <==> Provided(fields) != [] && Provided(fields) == CreatePayloadChecksum(digest, key, Obj(fields))
  {
    var provided := Provided(fields);
    if provided == [] {
      return false;
    }
    var expected := CreatePayloadChecksum(digest, key, Obj(fields));
    if |provided| != |expected| {
      return false;
    }
    var diff: nat := 0;
    for i := 0 to |expected|
      invariant diff == 0 <==> expected[..i] == provided[..i]
    {
      XorZero(expected[i], provided[i]);
      OrZero(diff, BitXor(expected[i], provided[i]));
      assert expected[..i + 1] == expected[..i] + [expected[i]] && provided[..i + 1] == provided[..i] + [provided[i]];
      diff := BitOr(diff, BitXor(expected[i], provided[i]));
    }
    assert expected[..|expected|] == expected && provided[..|expected|] == provided;
    return diff == 0;
  }

  /** Some field is named checksum and holds the text s. */
  ghost predicate Carries(fields: seq<Field>, s: Text) {
    exists i :: 0 <= i < |fields| && Spells(fields[i].key, "checksum") && fields[i].value == Str(s)
  }

  /** The checksum of a payload is what its field of that name holds. */
  lemma {:induction false} ProvidedIff(fields: seq<Field>, s: Text)
    requires DistinctKeys(fields) && s != []
    ensures Provided(fields) == s <==> Carries(fields, s)
  {
    if fields != [] {
      SignatureNames(fields[0].key);
      ProvidedIff(fields[1..], s);
      if Carries(fields[1..], s) {
        var i :| 0 <= i < |fields[1..]| && Spells(fields[1..][i].key, "checksum") && fields[1..][i].value == Str(s);
        assert fields[i + 1].value == Str(s);
        SignatureNames(fields[i + 1].key);
      }
      if Carries(fields, s) {
        var i :| 0 <= i < |fields| && Spells(fields[i].key, "checksum") && fields[i].value == Str(s);
        assert i > 0 ==> fields[1..][i - 1].value == Str(s);
        SignatureNames(fields[i].key);
      }
    }
  }

  lemma {:induction false} WithChecksumShape(fields: seq<Field>, sum: Text)
    requires DistinctKeys(fields)
    ensures Provided(WithChecksum(fields, sum)) == sum && DistinctKeys(WithChecksum(fields, sum))
    ensures forall f :: f in WithChecksum(fields, sum) ==> f in fields || f == Field(CHECKSUM, Str(sum))
    ensures CanonFields(WithChecksum(fields, sum)) == CanonFields(fields)
  {
    if fields != [] {
      var rest := fields[1..];
      if fields[0].key == CHECKSUM {
        assert ([Field(CHECKSUM, Str(sum))] + rest)[1..] == rest;
      } else {
        WithChecksumShape(rest, sum);
        var signed := WithChecksum(rest, sum);
        assert ([fields[0]] + signed)[1..] == signed;
        forall f | f in signed ensures f.key != fields[0].key {
        }
      }
    } else {
      assert [Field(CHECKSUM, Str(sum))][1..] == [];
    }
  }

  /** A payload that carries the checksum created for it passes verification. */
  lemma {:induction false} SignedVerifies(digest: Digest, key: Text, fields: seq<Field>)
    requires Formed(Obj(fields)) && CreatePayloadChecksum(digest, key, Obj(fields)) != []
    ensures var signed := WithChecksum(fields, CreatePayloadChecksum(digest, key, Obj(fields)));
            Provided(signed) != [] && Provided(signed) == CreatePayloadChecksum(digest, key, Obj(signed))
  {
    WithChecksumShape(fields, CreatePayloadChecksum(digest, key, Obj(fields)));
  }

  /** With a digest that tells canonical forms apart, verification accepts a checksum for agreeing payloads only. */
  lemma ForeignChecksum(digest: Digest, key: Text, a: seq<Field>, b: seq<Field>)
    requires Formed(Obj(a)) && Formed(Obj(b))
    requires digest(key, Canon(Obj(a))) == digest(key, Canon(Obj(b))) ==> Canon(Obj(a)) == Canon(Obj(b))
    ensures CreatePayloadChecksum(digest, key, Obj(a)) == CreatePayloadChecksum(digest, key, Obj(b))
       <==> Agree(Obj(a), Obj(b))
  {
    CanonDecides(Obj(a), Obj(b));
  }

  // ------------------------------- The service ------------------------------

  lemma InFormNext(order: seq<Field>, i: nat)
    requires i < |order|
    ensures forall f :: InForm(order[..i + 1], f) <==> InForm(order[..i], f) || Becomes(order, i, f)
  {
    hide Canon;
    forall f ensures InForm(order[..i + 1], f) <==> InForm(order[..i], f) || Becomes(order, i, f) {
      if InForm(order[..i], f) {
        var m :| 0 <= m < i && Becomes(order[..i], m, f);
        assert Becomes(order[..i + 1], m, f);
      }
      if Becomes(order, i, f) {
        assert Becomes(order[..i + 1], i, f);
      }
      if InForm(order[..i + 1], f) {
        var m :| 0 <= m < i + 1 && Becomes(order[..i + 1], m, f);
        assert m < i ==> Becomes(order[..i], m, f);
      }
    }
  }

  /** `sorted` rebuilds the first i fields of an ordered object. */
  ghost predicate Rebuilt(sorted: seq<Field>, order: seq<Field>, i: nat)
    requires i <= |order|
  {
    SortedFields(sorted) && forall f :: f in sorted <==> InForm(order[..i], f)
  }

  function Added(sorted: seq<Field>, key: Text, value: Json): seq<Field> {
    if IsSignature(key) then sorted else sorted + [Field(key, value)]
  }

  lemma SortedNext(sorted: seq<Field>, order: seq<Field>, i: nat)
    requires SortedFields(order) && i < |order| && Rebuilt(sorted, order, i)
    ensures forall m :: 0 <= m < |sorted| ==> Less(sorted[m].key, order[i].key)
  {
    hide Canon;
    forall m | 0 <= m < |sorted| ensures Less(sorted[m].key, order[i].key) {
      assert sorted[m] in sorted && InForm(order[..i], sorted[m]);
      var n :| 0 <= n < i && Becomes(order[..i], n, sorted[m]);
      assert Less(order[n].key, order[i].key);
    }
  }

  lemma RebuiltNext(sorted: seq<Field>, order: seq<Field>, i: nat)
    requires SortedFields(order) && i < |order| && Rebuilt(sorted, order, i)
    ensures Rebuilt(Added(sorted, order[i].key, Canon(order[i].value)), order, i + 1)
  {
    InFormNext(order, i);
    SortedNext(sorted, order, i);
    hide Canon, InForm, Less;
    var g := Field(order[i].key, Canon(order[i].value));
    var next := Added(sorted, order[i].key, Canon(order[i].value));
    forall f ensures f in next <==> InForm(order[..i + 1], f) {
      assert Becomes(order, i, f) <==> !IsSignature(order[i].key) && f == g;
      assert f in sorted + [g] <==> f in sorted || f == g;
    }
  }

  lemma {:induction false} RebuiltAll(sorted: seq<Field>, fields: seq<Field>)
    requires DistinctKeys(fields) && Rebuilt(sorted, Sort(fields), |Sort(fields)|)
    ensures sorted == Sort(CanonFields(fields))
  {
    var order := Sort(fields);
    SortSorts(fields);
    CanonObject(fields);
    assert order[..|order|] == order;
    forall f ensures f in sorted <==> f in Sort(CanonFields(fields)) {
      InFormSameSet(order, fields, f);
      InFormSameSet(fields, order, f);
    }
    SortedUnique(sorted, Sort(CanonFields(fields)));
  }

  lemma InFormSameSet(a: seq<Field>, b: seq<Field>, f: Field)
    requires forall g :: g in a <==> g in b
    ensures InForm(a, f) ==> InForm(b, f)
  {
    hide Canon;
    if InForm(a, f) {
      var i :| 0 <= i < |a| && Becomes(a, i, f);
      assert a[i] in a && a[i] in b;
      var k :| 0 <= k < |b| && b[k] == a[i];
      assert Becomes(b, k, f);
    }
  }

  /** The recursive walk: arrays item by item, objects field by field in key order. */
  method Canonicalize(payload: Json) returns (r: Json)
    requires Formed(payload)
    ensures r == Canon(payload)
    decreases payload, 1
  {
    match payload
    case Arr(items) =>
      var out := CanonicalizeItems(items);
      r := Arr(out);
    case Obj(fields) =>
      var sorted := CanonicalizeFields(fields);
      r := Obj(sorted);
    case _ =>
      r := Canon(payload);
  }

  method CanonicalizeItems(items: seq<Json>) returns (out: seq<Json>)
    requires forall i :: 0 <= i < |items| ==> Formed(items[i])
    ensures out == CanonAll(items)
    decreases items, 0
  {
    hide Formed, Canon;
    out := [];
    for i := 0 to |items|
      invariant out == CanonAll(items)[..i]
    {
      var item := Canonicalize(items[i]);
      out := out + [item];
    }
  }

  method CanonicalizeFields(fields: seq<Field>) returns (sorted: seq<Field>)
    requires DistinctKeys(fields) && forall i :: 0 <= i < |fields| ==> Formed(fields[i].value)
    ensures sorted == Sort(CanonFields(fields))
    decreases fields, 0
  {
    var order := Sort(fields);
    SortSorts(fields);
    hide Formed, Sort;
    sorted := [];
    assert Rebuilt([], order, 0);
    hide Rebuilt;
    for i := 0 to |order|
      invariant Rebuilt(sorted, order, i)
    {
      assert order[i] in order && order[i] in fields;
      var at :| 0 <= at < |fields| && fields[at] == order[i];
      var value := Canonicalize(fields[at].value);
      RebuiltNext(sorted, order, i);
      if !IsSignature(order[i].key) {
        sorted := sorted + [Field(order[i].key, value)];
      }
    }
    RebuiltAll(sorted, fields);
  }
}
