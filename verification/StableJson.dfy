/**
 * The two printers with sorted keys, and the tool-guard scope key built on one of them.
 * Printing is canonical: the text determines the value up to the order of object keys.
 */
module StableJson {
  import opened JsonText

  type KeyOrder = (Text, Text) -> bool
  type KeyFilter = Text -> bool

  ghost predicate TotalOrder(leq: KeyOrder) {
    && (forall a, b :: leq(a, b) || leq(b, a))
    && (forall a, b :: leq(a, b) && leq(b, a) ==> a == b)
    && (forall a, b, c :: leq(a, b) && leq(b, c) ==> leq(a, c))
  }

  // ---------------------------------------------------------------- sorting fields

  function Insert(f: Field, fields: seq<Field>, leq: KeyOrder): seq<Field> {
    if fields == [] || leq(f.key, fields[0].key) then [f] + fields
    else [fields[0]] + Insert(f, fields[1..], leq)
  }

  function SortFields(fields: seq<Field>, leq: KeyOrder): seq<Field> {
    if fields == [] then [] else Insert(fields[0], SortFields(fields[1..], leq), leq)
  }

  ghost predicate Sorted(fields: seq<Field>, leq: KeyOrder) {
    forall i, j :: 0 <= i < j < |fields| ==> leq(fields[i].key, fields[j].key)
  }

  lemma {:induction false} InsertSorts(f: Field, fields: seq<Field>, leq: KeyOrder)
    requires TotalOrder(leq) && Sorted(fields, leq)
    ensures var r := Insert(f, fields, leq);
      Sorted(r, leq) && |r| == |fields| + 1 && forall e :: e in r <==> e == f || e in fields
  {
    if fields != [] && !leq(f.key, fields[0].key) {
      InsertSorts(f, fields[1..], leq);
      var rest := Insert(f, fields[1..], leq);
      forall i | 0 <= i < |rest| ensures leq(fields[0].key, rest[i].key) {
        assert rest[i] in rest;
      }
    }
  }

  lemma {:induction false} SortSorts(fields: seq<Field>, leq: KeyOrder)
    requires TotalOrder(leq)
    ensures var r := SortFields(fields, leq);
      Sorted(r, leq) && |r| == |fields| && forall e :: e in r <==> e in fields
  {
    if fields != [] {
      SortSorts(fields[1..], leq);
      InsertSorts(fields[0], SortFields(fields[1..], leq), leq);
    }
  }

  lemma {:induction false} InsertDistinct(f: Field, fields: seq<Field>, leq: KeyOrder)
    requires TotalOrder(leq) && Sorted(fields, leq) && DistinctKeys(fields)
    requires forall e :: e in fields ==> e.key != f.key
    ensures DistinctKeys(Insert(f, fields, leq))
  {
    if fields != [] && !leq(f.key, fields[0].key) {
      InsertDistinct(f, fields[1..], leq);
      InsertSorts(f, fields[1..], leq);
      var rest := Insert(f, fields[1..], leq);
      forall i | 0 <= i < |rest| ensures fields[0].key != rest[i].key {
        assert rest[i] in rest;
      }
    }
  }

  lemma {:induction false} SortDistinct(fields: seq<Field>, leq: KeyOrder)
    requires TotalOrder(leq) && DistinctKeys(fields)
    ensures DistinctKeys(SortFields(fields, leq))
  {
    if fields != [] {
      SortDistinct(fields[1..], leq);
      SortSorts(fields[1..], leq);
      InsertDistinct(fields[0], SortFields(fields[1..], leq), leq);
    }
  }

  lemma SomeField(fields: seq<Field>) returns (e: Field)
    requires fields != []
    ensures e in fields
  {
    e := fields[0];
  }

  /** A sorted list with distinct keys is determined by its elements. */
  lemma {:induction false} SortedUnique(a: seq<Field>, b: seq<Field>, leq: KeyOrder)
    requires TotalOrder(leq) && Sorted(a, leq) && Sorted(b, leq) && DistinctKeys(a) && DistinctKeys(b)
    requires forall e :: e in a <==> e in b
    ensures a == b
  {
    if a == [] {
      if b != [] {
        var e := SomeField(b);
      }
    } else {
      assert a[0] in b;
      assert b[0] in a;
      var i :| 0 <= i < |b| && b[i] == a[0];
      var j :| 0 <= j < |a| && a[j] == b[0];
      assert leq(a[0].key, b[0].key) && leq(b[0].key, a[0].key);
      assert i == 0;
      var ra, rb := a[1..], b[1..];
      forall e ensures e in ra <==> e in rb {
        assert e in a <==> e == a[0] || e in ra;
        assert e in b <==> e == b[0] || e in rb;
        assert a[0] !in ra && b[0] !in rb;
      }
      SortedUnique(ra, rb, leq);
      assert a == [a[0]] + ra && b == [b[0]] + rb;
    }
  }

  // ---------------------------------------------------------------- canonical form

  /** The value with the kept keys of every object in order. */
  function Canon(v: Json, leq: KeyOrder, keep: KeyFilter): Json {
    match v
    case Arr(items) => Arr(CanonItems(items, leq, keep))
    case Obj(fields) => Obj(SortFields(CanonFields(fields, leq, keep), leq))
    case _ => v
  }

  function CanonItems(items: seq<Json>, leq: KeyOrder, keep: KeyFilter): (r: seq<Json>)
    ensures |r| == |items| && forall i :: 0 <= i < |items| ==> r[i] == Canon(items[i], leq, keep)
  {
    if items == [] then [] else [Canon(items[0], leq, keep)] + CanonItems(items[1..], leq, keep)
  }

  function CanonField(f: Field, leq: KeyOrder, keep: KeyFilter): Field {
    Field(f.key, Canon(f.value, leq, keep))
  }

  function CanonFields(fields: seq<Field>, leq: KeyOrder, keep: KeyFilter): seq<Field> {
    if fields == [] then []
    else if keep(fields[0].key) then [CanonField(fields[0], leq, keep)] + CanonFields(fields[1..], leq, keep)
    else CanonFields(fields[1..], leq, keep)
  }

  lemma {:induction false} CanonFieldsHas(fields: seq<Field>, leq: KeyOrder, keep: KeyFilter, e: Field)
    ensures e in CanonFields(fields, leq, keep) <==>
      exists i :: 0 <= i < |fields| && keep(fields[i].key) && e == CanonField(fields[i], leq, keep)
  {
    if fields != [] {
      var rest := fields[1..];
      CanonFieldsHas(rest, leq, keep, e);
      assert forall i :: 0 < i < |fields| ==> fields[i] == rest[i - 1];
      assert forall i :: 0 <= i < |rest| ==> rest[i] == fields[i + 1];
    }
  }

  lemma {:induction false} CanonFieldsDistinct(fields: seq<Field>, leq: KeyOrder, keep: KeyFilter)
    requires DistinctKeys(fields)
    ensures DistinctKeys(CanonFields(fields, leq, keep))
  {
    if fields != [] {
      var rest, r := fields[1..], CanonFields(fields[1..], leq, keep);
      CanonFieldsDistinct(rest, leq, keep);
      forall i | 0 <= i < |r| ensures r[i].key != fields[0].key {
        CanonFieldsHas(rest, leq, keep, r[i]);
        var j :| 0 <= j < |rest| && keep(rest[j].key) && r[i] == CanonField(rest[j], leq, keep);
        assert rest[j] == fields[j + 1];
      }
    }
  }

  lemma {:induction false} CanonValid(v: Json, leq: KeyOrder, keep: KeyFilter)
    requires Valid(v) && TotalOrder(leq)
    ensures Valid(Canon(v, leq, keep))
  {
    match v
    case Arr(items) =>
      forall i | 0 <= i < |items| ensures Valid(Canon(items[i], leq, keep)) {
        CanonValid(items[i], leq, keep);
      }
    case Obj(fields) =>
      var kept := CanonFields(fields, leq, keep);
      CanonFieldsDistinct(fields, leq, keep);
      SortDistinct(kept, leq);
      SortSorts(kept, leq);
      forall i | 0 <= i < |fields| ensures Valid(CanonField(fields[i], leq, keep).value) {
        CanonValid(fields[i].value, leq, keep);
      }
      var r := SortFields(kept, leq);
      forall k | 0 <= k < |r| ensures Valid(r[k].value) {
        assert r[k] in kept;
        CanonFieldsHas(fields, leq, keep, r[k]);
      }
    case _ =>
  }

  // ---------------------------------------------------------------- equality up to key order

  /** The same value, apart from the order of object keys and from the keys that are not kept. */
  ghost predicate Same(v: Json, w: Json, keep: KeyFilter) {
    match v
    case Arr(items) => w.Arr? && |items| == |w.items| && forall i :: 0 <= i < |items| ==> Same(items[i], w.items[i], keep)
    case Obj(fields) =>
      && w.Obj?
      && (forall i :: 0 <= i < |fields| && keep(fields[i].key) ==>
            exists j :: 0 <= j < |w.fields| && w.fields[j].key == fields[i].key && Same(fields[i].value, w.fields[j].value, keep))
      && KeysWithin(w.fields, fields, keep)
    case _ => v == w
  }

  ghost predicate KeysWithin(a: seq<Field>, b: seq<Field>, keep: KeyFilter) {
    forall j :: 0 <= j < |a| && keep(a[j].key) ==> exists i :: 0 <= i < |b| && b[i].key == a[j].key
  }

  lemma {:induction false} SameCanon(v: Json, w: Json, leq: KeyOrder, keep: KeyFilter)
    requires Valid(v) && Valid(w) && TotalOrder(leq) && Same(v, w, keep)
    ensures Canon(v, leq, keep) == Canon(w, leq, keep)
    decreases v
  {
    match v
    case Arr(items) =>
      forall i | 0 <= i < |items| ensures Canon(items[i], leq, keep) == Canon(w.items[i], leq, keep) {
        SameCanon(items[i], w.items[i], leq, keep);
      }
      assert CanonItems(items, leq, keep) == CanonItems(w.items, leq, keep);
    case Obj(fields) =>
      forall i | 0 <= i < |fields| && keep(fields[i].key)
        ensures exists j :: 0 <= j < |w.fields| && CanonField(fields[i], leq, keep) == CanonField(w.fields[j], leq, keep)
      {
        var j :| 0 <= j < |w.fields| && w.fields[j].key == fields[i].key && Same(fields[i].value, w.fields[j].value, keep);
        SameCanon(fields[i].value, w.fields[j].value, leq, keep);
      }
      SameFieldsCanon(fields, w.fields, leq, keep);
    case _ =>
  }

  lemma SameFieldsCanon(f: seq<Field>, g: seq<Field>, leq: KeyOrder, keep: KeyFilter)
    requires TotalOrder(leq) && DistinctKeys(f) && DistinctKeys(g) && KeysWithin(g, f, keep)
    requires forall i :: 0 <= i < |f| && keep(f[i].key) ==>
      exists j :: 0 <= j < |g| && CanonField(f[i], leq, keep) == CanonField(g[j], leq, keep)
    ensures SortFields(CanonFields(f, leq, keep), leq) == SortFields(CanonFields(g, leq, keep), leq)
  {
    var a, b := CanonFields(f, leq, keep), CanonFields(g, leq, keep);
    hide Canon, CanonFields, SortFields;
    forall e ensures e in a <==> e in b {
      CanonFieldsHas(f, leq, keep, e);
      CanonFieldsHas(g, leq, keep, e);
      if j :| 0 <= j < |g| && keep(g[j].key) && e == CanonField(g[j], leq, keep) {
        var i :| 0 <= i < |f| && f[i].key == g[j].key;
        var k :| 0 <= k < |g| && CanonField(f[i], leq, keep) == CanonField(g[k], leq, keep);
        assert g[k].key == g[j].key;
        assert k == j;
      }
    }
    CanonFieldsDistinct(f, leq, keep);
    CanonFieldsDistinct(g, leq, keep);
    SortDistinct(a, leq);
    SortDistinct(b, leq);
    SortSorts(a, leq);
    SortSorts(b, leq);
    SortedUnique(SortFields(a, leq), SortFields(b, leq), leq);
  }

  lemma {:induction false} CanonSame(v: Json, w: Json, leq: KeyOrder, keep: KeyFilter)
    requires TotalOrder(leq) && Canon(v, leq, keep) == Canon(w, leq, keep)
    ensures Same(v, w, keep)
    decreases v
  {
    match v
    case Arr(items) =>
      forall i | 0 <= i < |items| ensures Same(items[i], w.items[i], keep) {
        assert CanonItems(items, leq, keep)[i] == CanonItems(w.items, leq, keep)[i];
        CanonSame(items[i], w.items[i], leq, keep);
      }
    case Obj(fields) =>
      var a, b := CanonFields(fields, leq, keep), CanonFields(w.fields, leq, keep);
      SortSorts(a, leq);
      SortSorts(b, leq);
      assert forall e :: e in a <==> e in SortFields(a, leq);
      assert forall e :: e in a <==> e in b;
      forall i | 0 <= i < |fields| && keep(fields[i].key)
        ensures exists j :: 0 <= j < |w.fields| && w.fields[j].key == fields[i].key && Same(fields[i].value, w.fields[j].value, keep)
      {
        var e := CanonField(fields[i], leq, keep);
        CanonFieldsHas(fields, leq, keep, e);
        CanonFieldsHas(w.fields, leq, keep, e);
        var j :| 0 <= j < |w.fields| && keep(w.fields[j].key) && e == CanonField(w.fields[j], leq, keep);
        CanonSame(fields[i].value, w.fields[j].value, leq, keep);
      }
      assert KeysWithin(w.fields, fields, keep) by {
        forall j | 0 <= j < |w.fields| && keep(w.fields[j].key)
          ensures exists i :: 0 <= i < |fields| && fields[i].key == w.fields[j].key
        {
          var e := CanonField(w.fields[j], leq, keep);
          CanonFieldsHas(fields, leq, keep, e);
          CanonFieldsHas(w.fields, leq, keep, e);
        }
      }
    case _ =>
  }

  /** Two values have the same canonical text exactly when they are the same up to key order. */
  lemma TextIsCanonical(v: Json, w: Json, leq: KeyOrder, keep: KeyFilter)
    requires Valid(v) && Valid(w) && TotalOrder(leq)
    ensures Print(Canon(v, leq, keep)) == Print(Canon(w, leq, keep)) <==> Same(v, w, keep)
  {
    CanonValid(v, leq, keep);
    CanonValid(w, leq, keep);
    if Print(Canon(v, leq, keep)) == Print(Canon(w, leq, keep)) {
      PrintInjective(Canon(v, leq, keep), Canon(w, leq, keep));
      CanonSame(v, w, leq, keep);
    }
    if Same(v, w, keep) {
      SameCanon(v, w, leq, keep);
    }
  }

  // ---------------------------------------------------------------- the two printers

  /** Array.prototype.sort on strings: by code units. */
  predicate UnitLeq(a: Text, b: Text) {
    a == [] || (b != [] && (a[0] < b[0] || (a[0] == b[0] && UnitLeq(a[1..], b[1..]))))
  }

  lemma {:induction false} UnitLeqTotal(a: Text, b: Text)
    ensures UnitLeq(a, b) || UnitLeq(b, a)
    ensures UnitLeq(a, b) && UnitLeq(b, a) ==> a == b
  {
    if a != [] && b != [] {
      UnitLeqTotal(a[1..], b[1..]);
      assert a == [a[0]] + a[1..] && b == [b[0]] + b[1..];
    }
  }

  lemma {:induction false} UnitLeqTransitive(a: Text, b: Text, c: Text)
    requires UnitLeq(a, b) && UnitLeq(b, c)
    ensures UnitLeq(a, c)
  {
    if a != [] && a[0] == b[0] == c[0] {
      UnitLeqTransitive(a[1..], b[1..], c[1..]);
    }
  }

  lemma UnitOrderIsTotal()
    ensures TotalOrder(UnitLeq)
  {
    forall a, b { UnitLeqTotal(a, b); }
    forall a, b, c | UnitLeq(a, b) && UnitLeq(b, c) { UnitLeqTransitive(a, b, c); }
  }

  predicate KeepAll(key: Text) { true }

  /** The printer of the transport's semantic key. */
  function StableStringify(v: Json): Text {
    Print(Canon(v, UnitLeq, KeepAll))
  }

  ghost predicate SameUpToOrder(v: Json, w: Json) {
    Same(v, w, KeepAll)
  }

  lemma StableStringifyIsCanonical(v: Json, w: Json)
    requires Valid(v) && Valid(w)
    ensures StableStringify(v) == StableStringify(w) <==> SameUpToOrder(v, w)
  {
    UnitOrderIsTotal();
    TextIsCanonical(v, w, UnitLeq, KeepAll);
  }

  /** The property name whose assignment sets the prototype instead of a property. */
  const PROTO: Text := [0x5F, 0x5F, 0x70, 0x72, 0x6F, 0x74, 0x6F, 0x5F, 0x5F]

  predicate NotProto(key: Text) { key != PROTO }

  /**
   * The hook bridge's printer: it copies each object into a fresh one by assignment, which
   * loses a key named __proto__. The order stands for the locale collation it sorts by,
   * together with the enumeration order of the copy.
   */
  function StableJsonStringify(v: Json, leq: KeyOrder): Text {
    Print(Canon(v, leq, NotProto))
  }

  /** Exactly what the text identifies: the value up to key order and up to keys named __proto__. */
  lemma StableJsonStringifyIdentifies(v: Json, w: Json, leq: KeyOrder)
    requires Valid(v) && Valid(w) && TotalOrder(leq)
    ensures StableJsonStringify(v, leq) == StableJsonStringify(w, leq) <==> Same(v, w, NotProto)
  {
    TextIsCanonical(v, w, leq, NotProto);
  }

  predicate ProtoFree(v: Json) {
    match v
    case Arr(items) => forall i :: 0 <= i < |items| ==> ProtoFree(items[i])
    case Obj(fields) => forall i :: 0 <= i < |fields| ==> fields[i].key != PROTO && ProtoFree(fields[i].value)
    case _ => true
  }

  /** On values without the key it does not matter whether the key is kept. */
  lemma {:induction false} ProtoFreeSame(v: Json, w: Json, keep: KeyFilter, other: KeyFilter)
    requires ProtoFree(v) && ProtoFree(w) && Same(v, w, keep)
    requires forall key :: key != PROTO ==> keep(key) == other(key)
    ensures Same(v, w, other)
    decreases v
  {
    hide KeysWithin;
    match v
    case Arr(items) =>
      forall i | 0 <= i < |items| ensures Same(items[i], w.items[i], other) {
        ProtoFreeSame(items[i], w.items[i], keep, other);
      }
    case Obj(fields) =>
      forall i | 0 <= i < |fields| && other(fields[i].key)
        ensures exists j :: 0 <= j < |w.fields| && w.fields[j].key == fields[i].key && Same(fields[i].value, w.fields[j].value, other)
      {
        var j :| 0 <= j < |w.fields| && w.fields[j].key == fields[i].key && Same(fields[i].value, w.fields[j].value, keep);
        ProtoFreeSame(fields[i].value, w.fields[j].value, keep, other);
      }
      KeysWithinTransfers(w.fields, fields, keep, other);
    case _ =>
  }

  lemma KeysWithinTransfers(a: seq<Field>, b: seq<Field>, keep: KeyFilter, other: KeyFilter)
    requires KeysWithin(a, b, keep) && forall i :: 0 <= i < |a| ==> keep(a[i].key) == other(a[i].key)
    ensures KeysWithin(a, b, other)
  {
  }

  /** On values without such a key the hook bridge's printer is canonical too. */
  lemma StableJsonStringifyIsCanonical(v: Json, w: Json, leq: KeyOrder)
    requires Valid(v) && Valid(w) && TotalOrder(leq) && ProtoFree(v) && ProtoFree(w)
    ensures StableJsonStringify(v, leq) == StableJsonStringify(w, leq) <==> SameUpToOrder(v, w)
  {
    StableJsonStringifyIdentifies(v, w, leq);
    if SameUpToOrder(v, w) {
      ProtoFreeSame(v, w, KeepAll, NotProto);
    }
    if Same(v, w, NotProto) {
      ProtoFreeSame(v, w, NotProto, KeepAll);
    }
  }

  /** Without that condition it is not: these two objects differ but print alike. */
  lemma ProtoKeyIsLost(leq: KeyOrder)
    requires TotalOrder(leq)
    ensures var v, w := Obj([Field(PROTO, Null)]), Obj([]);
      Valid(v) && Valid(w) && !SameUpToOrder(v, w) && StableJsonStringify(v, leq) == StableJsonStringify(w, leq)
  {
    var v, w := Obj([Field(PROTO, Null)]), Obj([]);
    assert v.fields[0].key == PROTO;
    StableJsonStringifyIdentifies(v, w, leq);
  }
}
