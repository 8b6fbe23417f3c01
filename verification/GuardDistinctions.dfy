/**
 * The other direction of what rules can tell apart: of two parameter values that are not alike
 * some single condition on a dotted path holds of one and not of the other.
 */
module GuardDistinctions {
  import opened Options
  import opened JsonText
  import opened StableJson
  import opened GuardRules

  /** The condition holds of one of the two values and not of the other, and its path can be written with dots. */
  ghost predicate Tells(c: Check, r: Read, q: Read, env: Env) {
    && ComparesScalars(c) && (forall i :: 0 <= i < |c.path| ==> Segment(c.path[i]))
    && Passes(c, Descend(r, c.path, env.inherited), env) != Passes(c, Descend(q, c.path, env.inherited), env)
  }

  function KindOf(v: Json): Kind {
    match v
    case Null => StringKind
    case Bool(_) => BooleanKind
    case Num(_) => NumberKind
    case Str(_) => StringKind
    case Arr(_) => ArrayKind
    case Obj(_) => ObjectKind
  }

  function PresenceOrKind(v: Json): Check {
    if v == Null then Required([]) else TypeIs([], KindOf(v))
  }

  /** A value and a read that is of another kind, or missing. */
  lemma TellKinds(v: Json, q: Read, env: Env)
    requires q == Callable || (q == Absent && v != Null) || (q.Got? && KindOf(q.json) != KindOf(v))
      || (q.Got? && (q.json == Null) != (v == Null))
    ensures Tells(PresenceOrKind(v), Got(v), q, env)
  {
  }

  lemma TellsBothWays(c: Check, r: Read, q: Read, env: Env)
    requires Tells(c, r, q, env)
    ensures Tells(c, q, r, env)
  {
  }

  /** The condition on the property's value as one on the object. */
  function Under(key: Text, c: Check): Check {
    c.(path := [key] + c.path)
  }

  /** A condition on a property is one on the value that has it. */
  lemma TellsBelow(c: Check, r: Read, q: Read, key: Text, env: Env)
    requires Segment(key) && Tells(c, Property(r, key, env.inherited), Property(q, key, env.inherited), env)
    ensures Tells(Under(key, c), r, q, env)
  {
    var path := [key] + c.path;
    assert path[1..] == c.path;
    PathDoesNotMatter(c, path, Descend(r, path, env.inherited), env);
    PathDoesNotMatter(c, path, Descend(q, path, env.inherited), env);
    hide Passes, ComparesScalars, Segment, Property;
    assert Descend(r, path, env.inherited) == Descend(Property(r, key, env.inherited), path[1..], env.inherited);
    assert Descend(q, path, env.inherited) == Descend(Property(q, key, env.inherited), path[1..], env.inherited);
  }

  lemma PathDoesNotMatter(c: Check, path: Path, value: Read, env: Env)
    ensures Passes(c.(path := path), value, env) == Passes(c, value, env)
    ensures ComparesScalars(c.(path := path)) == ComparesScalars(c)
  {
    hide OccursIn;
  }

  // ---------------------------------------------------------------- array indices

  /** Only the decimal text of an index reads as one: no sign, no leading zero. */
  lemma {:induction false} IndexIsDecimal(key: Text)
    requires DigitValue(key).Some?
    ensures Decimal(DigitValue(key).value) == key
    decreases |key|
  {
    var n := |key| - 1;
    if n > 0 {
      var front := key[..n];
      IndexIsDecimal(front);
      var f, d := DigitValue(front).value, key[n] - 0x30;
      assert front[0] == key[0] != 0x30;
      assert Decimal(0) == [0x30];
      assert f > 0;
      assert (10 * f + d) / 10 == f && (10 * f + d) % 10 == d;
      assert key == front + [key[n]];
    }
  }

  lemma {:induction false} DecimalReads(n: nat)
    ensures DigitValue(Decimal(n)) == Some(n) && (n > 0 ==> Decimal(n)[0] != 0x30)
    ensures forall i :: 0 <= i < |Decimal(n)| ==> 0x30 <= Decimal(n)[i] <= 0x39
  {
    if n >= 10 {
      DecimalReads(n / 10);
      var front, last := Decimal(n / 10), 0x30 + n % 10;
      assert Decimal(n) == front + [last] && (front + [last])[..|front|] == front;
    }
  }

  lemma DecimalIsSegment(n: nat)
    ensures Segment(Decimal(n)) && Decimal(n) != LENGTH
  {
    DecimalReads(n);
    assert LENGTH[0] == 0x6C;
    var d := Decimal(n);
    assert 0x30 <= d[0] <= 0x39 && 0x30 <= d[|d| - 1] <= 0x39;
    hide Decimal;
  }

  lemma ItemProperty(v: Json, i: nat, inherited: Inherited)
    requires v.Arr? && i < |v.items|
    ensures Property(Got(v), Decimal(i), inherited) == Got(v.items[i])
  {
    DecimalReads(i);
    DecimalIsSegment(i);
    hide Decimal, DigitValue, Segment;
  }

  lemma TellLengths(v: Json, w: Json, env: Env) returns (c: Check)
    requires v.Arr? && w.Arr? && |v.items| != |w.items|
    ensures Tells(c, Got(v), Got(w), env)
  {
    DecimalReads(|v.items|);
    DecimalReads(|w.items|);
    ToolNamePath({});
    hide Decimal, DigitValue, Segment;
    var here := Equals([], Num(Decimal(|v.items|)));
    c := Under(LENGTH, here);
    TellsBelow(here, Got(v), Got(w), LENGTH, env);
  }

  // ---------------------------------------------------------------- any two values

  /** An own property that does not read as missing, against an object without it. */
  lemma TellPresent(v: Json, key: Text, value: Json, w: Json, env: Env) returns (c: Check)
    requires v.Obj? && w.Obj? && FieldValue(v.fields, key) == Some(value) && FieldValue(w.fields, key) == None && Segment(key)
    requires Valid(value) && !ReadsAsMissing(key, value, env.inherited.byObjects)
    ensures Tells(c, Got(v), Got(w), env)
  {
    var sub: Check;
    if key == PROTO {
      sub := TellPrototype(value, env);
    } else {
      sub := PresenceOrKind(value);
      TellKinds(value, Property(Got(w), key, env.inherited), env);
    }
    c := Under(key, sub);
    hide Tells, Segment, FieldValue, PresenceOrKind;
    TellsBelow(sub, Got(v), Got(w), key, env);
  }

  /** A value of __proto__ that does not read like the prototype of all objects. */
  lemma TellPrototype(v: Json, env: Env) returns (c: Check)
    requires Valid(v) && !LikeObjectPrototype(v, env.inherited.byObjects)
    ensures Tells(c, Got(v), Got(OBJECT_PROTOTYPE), env)
  {
    if !v.Obj? {
      c := PresenceOrKind(v);
      TellKinds(v, Got(OBJECT_PROTOTYPE), env);
    } else if FieldValue(v.fields, PROTO) != Some(Null) {
      PrototypeFields(PROTO);
      ProtoIsSegment();
      c := Under(PROTO, Required([]));
      TellsBelow(Required([]), Got(v), Got(OBJECT_PROTOTYPE), PROTO, env);
    } else {
      var i :| 0 <= i < |v.fields| && Segment(v.fields[i].key) && v.fields[i].key != PROTO
        && (v.fields[i].key in env.inherited.byObjects || v.fields[i].value != Null);
      var key, value := v.fields[i].key, v.fields[i].value;
      FieldValueAt(v.fields, i);
      PrototypeFields(key);
      var sub := PresenceOrKind(value);
      TellKinds(value, Property(Got(OBJECT_PROTOTYPE), key, env.inherited), env);
      c := Under(key, sub);
      hide Tells, Segment, FieldValue, PresenceOrKind;
      TellsBelow(sub, Got(v), Got(OBJECT_PROTOTYPE), key, env);
    }
  }

  lemma ProtoIsSegment()
    ensures Segment(PROTO)
  {
    assert PROTO[0] == 0x5F && PROTO[|PROTO| - 1] == 0x5F;
  }

  /** Of two values that are not alike some condition tells which is which. */
  lemma {:induction false} TellApart(v: Json, w: Json, env: Env) returns (c: Check)
    requires Valid(v) && Valid(w) && !Alike(v, w, env.inherited.byObjects)
    ensures Tells(c, Got(v), Got(w), env)
    decreases v
  {
    if KindOf(v) != KindOf(w) || (v == Null) != (w == Null) {
      c := PresenceOrKind(v);
      TellKinds(v, Got(w), env);
    } else if v.Obj? {
      c := TellObjects(v, w, env);
    } else if v.Arr? {
      if |v.items| != |w.items| {
        c := TellLengths(v, w, env);
      } else {
        var i :| 0 <= i < |v.items| && !Alike(v.items[i], w.items[i], env.inherited.byObjects);
        var sub := TellApart(v.items[i], w.items[i], env);
        ItemProperty(v, i, env.inherited);
        ItemProperty(w, i, env.inherited);
        DecimalIsSegment(i);
        c := Under(Decimal(i), sub);
        hide Tells, Segment, Decimal, Alike;
        TellsBelow(sub, Got(v), Got(w), Decimal(i), env);
      }
    } else {
      c := Equals([], v);
    }
  }

  lemma {:induction false} TellObjects(v: Json, w: Json, env: Env) returns (c: Check)
    requires Valid(v) && Valid(w) && v.Obj? && w.Obj? && !Alike(v, w, env.inherited.byObjects)
    ensures Tells(c, Got(v), Got(w), env)
    decreases v, 0
  {
    var members := env.inherited.byObjects;
    if i :| 0 <= i < |v.fields| && Segment(v.fields[i].key) && !AlikeField(v.fields[i], w.fields, members) {
      var key, value := v.fields[i].key, v.fields[i].value;
      FieldValueAt(v.fields, i);
      OwnField(w.fields, key);
      var other := FieldValue(w.fields, key);
      if other.None? {
        c := TellPresent(v, key, value, w, env);
      } else {
        var sub := TellApart(value, other.value, env);
        c := Under(key, sub);
        hide Tells, Segment, FieldValue, Alike, AlikeField;
        TellsBelow(sub, Got(v), Got(w), key, env);
      }
    } else {
      var j :| 0 <= j < |w.fields| && Segment(w.fields[j].key) && FieldValue(v.fields, w.fields[j].key).None?
        && !ReadsAsMissing(w.fields[j].key, w.fields[j].value, members);
      FieldValueAt(w.fields, j);
      c := TellPresent(w, w.fields[j].key, w.fields[j].value, v, env);
      TellsBothWays(c, Got(w), Got(v), env);
    }
  }
}
