/**
 * Which events the semantic key identifies. An event without bars in its plain fields shares its
 * key with no event of another meaning, even one that has bars: behind the plain fields of the
 * one there would have to be a bar followed by three printed values of the other, and reading
 * the printed values from inside a string never comes back out.
 */
module SemanticKeyBars {
  import opened Options
  import opened JsonText
  import opened StableJson
  import opened SemanticKeys
  import opened ScopeKeys

  // ---------------------------------------------------------------- where the plain fields end

  lemma {:induction false} BarsEnd(fields: seq<Text>, rest: Text) returns (y: Text)
    requires fields != []
    ensures WithBars(fields, rest) == y + [BAR] + rest
  {
    if |fields| == 1 {
      y := fields[0];
      assert WithBars(fields[1..], rest) == rest;
    } else {
      var z := BarsEnd(fields[1..], rest);
      y := fields[0] + [BAR] + z;
    }
  }

  lemma FirstBar(a: Text) returns (x: Text, y: Text)
    requires BAR in a
    ensures a == x + [BAR] + y && BAR !in x
    decreases |a|
  {
    if a[0] == BAR {
      x, y := [], a[1..];
    } else {
      var v, w := FirstBar(a[1..]);
      x, y := [a[0]] + v, w;
      assert a == [a[0]] + a[1..];
    }
  }

  /** The plain fields agree, or what follows the bar-free ones has what follows the others behind a bar. */
  lemma {:induction false} BarsDecode(f: seq<Text>, g: seq<Text>, s: Text, t: Text)
    requires |f| <= |g| && (forall i :: 0 <= i < |f| ==> BAR !in f[i]) && WithBars(f, s) == WithBars(g, t)
    ensures (f == g && s == t) || exists y: Text :: s == y + [BAR] + t
    decreases |f|
  {
    if f == [] {
      if g != [] {
        var y := BarsEnd(g, t);
        assert s == y + [BAR] + t;
      }
    } else if BAR !in g[0] {
      FieldDecodesAtBar(f[0], g[0], WithBars(f[1..], s), WithBars(g[1..], t));
      BarsDecode(f[1..], g[1..], s, t);
      assert f == [f[0]] + f[1..] && g == [g[0]] + g[1..];
    } else {
      var x, r := FirstBar(g[0]);
      var h := [r] + g[1..];
      assert h[1..] == g[1..];
      Assoc(x, [BAR], r, [BAR] + WithBars(g[1..], t));
      FieldDecodesAtBar(f[0], x, WithBars(f[1..], s), WithBars(h, t));
      BarsDecode(f[1..], h, s, t);
    }
  }

  lemma Assoc(a: Text, b: Text, c: Text, d: Text)
    ensures (a + b + c) + d == a + (b + (c + d))
  {
  }

  // ---------------------------------------------------------------- no payload ends with a bar and a payload

  lemma StableScans(v: Json, d: int)
    requires Valid(v)
    ensures Balanced(Out(d), StableStringify(v)) && StaysInside(StableStringify(v))
  {
    UnitOrderIsTotal();
    CanonValid(v, UnitLeq, KeepAll);
    PrintOut(d, Canon(v, UnitLeq, KeepAll));
    PrintInside(Canon(v, UnitLeq, KeepAll));
  }

  lemma OptionalScans(v: Option<Json>, d: int)
    requires v.Some? ==> Valid(v.value)
    ensures Balanced(Out(d), OptionalText(v)) && StaysInside(OptionalText(v))
  {
    if v.Some? {
      StableScans(v.value, d);
    } else {
      PlainBalanced(Out(d), []);
      PlainInside([]);
    }
  }

  lemma PayloadInside(f: Event)
    requires ValidEvent(f)
    ensures StaysInside(Payload(f))
  {
    StableScans(f.data, 0);
    OptionalScans(f.error, 0);
    OptionalScans(f.result, 0);
    PlainInside([BAR]);
    hide StaysInside, StableStringify, OptionalText, Balanced;
    InsideConcat([BAR], OptionalText(f.result));
    InsideConcat(OptionalText(f.error), [BAR] + OptionalText(f.result));
    InsideConcat([BAR], OptionalText(f.error) + ([BAR] + OptionalText(f.result)));
    InsideConcat(StableStringify(f.data), [BAR] + (OptionalText(f.error) + ([BAR] + OptionalText(f.result))));
  }

  /** A text that scans back to outside, after a bar. */
  lemma OverBar(x: Text)
    requires Run(Out(0), x) == Out(0)
    ensures Run(Out(0), x + [BAR]) == Out(0)
  {
    RunConcat(Out(0), x, [BAR]);
    RunOne(Out(0), BAR);
  }

  /** From a bar inside a value's text on, a text that stays inside does not come back out. */
  lemma BarWithinValue(p: Text, x: Text, z: Text, y: Text, t: Text)
    requires Run(Out(0), p) == Out(0) && Balanced(Out(0), x) && StaysInside(t)
    requires p + x + z == y + [BAR] + t && |p| <= |y| < |p| + |x|
    ensures Run(Out(0), p + x + z) != Out(0)
  {
    var k := |y| - |p|;
    var whole := p + x + z;
    assert y == p + x[..k] by {
      assert whole[..|y|] == y;
      assert whole[..|y|] == p + x[..k];
    }
    assert x[k] == whole[|y|] == BAR;
    BarsAreInStrings(Out(0), x, k, 0);
    hide Balanced, StaysInside;
    RunConcat(Out(0), p, x[..k]);
    RunConcat(Out(0), y, [BAR]);
    RunOne(Run(Out(0), y), BAR);
    RunConcat(Out(0), y + [BAR], t);
    InsideAfter(Run(Out(0), y + [BAR]), t);
  }

  lemma InsideAfter(st: Scan, t: Text)
    requires StaysInside(t) && st.In?
    ensures !Run(st, t).Out?
  {
    assert Inside(st);
  }

  /** A tail behind the bars of its own three parts has no room for the three parts of another payload. */
  lemma PayloadIsNotTail(f: Event, e: Event)
    requires ValidEvent(e) && ValidEvent(f)
    ensures OptionalText(e.error) + ([BAR] + OptionalText(e.result)) != Payload(f) && OptionalText(e.result) != Payload(f)
  {
    var d := [BAR] + (OptionalText(f.error) + ([BAR] + OptionalText(f.result)));
    var r, q := [BAR] + OptionalText(e.result), [BAR] + OptionalText(f.result);
    assert Delimited(d) && Delimited(r) && Delimited(q);
    EmptyIsDelimited();
    hide StableStringify, Delimited;
    var some := Some(f.data);
    assert Payload(f) == OptionalText(some) + d;
    assert OptionalText(e.result) + [] == OptionalText(e.result);
    if OptionalText(e.result) == Payload(f) {
      OptionalDecodes(e.result, some, [], d);
    }
    if OptionalText(e.error) + r == Payload(f) {
      OptionalDecodes(e.error, some, r, d);
      CancelLeft([BAR], OptionalText(e.result), OptionalText(f.error) + q);
      OptionalDecodes(e.result, f.error, [], q);
    }
  }

  lemma NoBarThenPayload(e: Event, f: Event, y: Text)
    requires ValidEvent(e) && ValidEvent(f)
    ensures Payload(e) != y + [BAR] + Payload(f)
  {
    if Payload(e) == y + [BAR] + Payload(f) {
      var d, x, r := StableStringify(e.data), OptionalText(e.error), OptionalText(e.result);
      StableScans(e.data, 0);
      OptionalScans(e.error, 0);
      OptionalScans(e.result, 0);
      PayloadInside(f);
      PayloadIsNotTail(f, e);
      PayloadParts(e, d, x, r);
      hide StableStringify, OptionalText, Payload, StaysInside, StaysAbove;
      BarIsSomewhere(d, x, r, y, Payload(f));
    }
  }

  lemma PayloadParts(e: Event, d: Text, x: Text, r: Text)
    requires d == StableStringify(e.data) && x == OptionalText(e.error) && r == OptionalText(e.result)
    ensures Payload(e) == d + [BAR] + x + [BAR] + r
  {
    Assoc(d, [BAR], x, [BAR] + r);
    assert (d + [BAR] + x) + ([BAR] + r) == d + [BAR] + x + [BAR] + r;
  }

  /** The bar lies within one of the three parts, or is one of the two between them. */
  lemma BarIsSomewhere(d: Text, x: Text, r: Text, y: Text, t: Text)
    requires d + [BAR] + x + [BAR] + r == y + [BAR] + t && StaysInside(t)
    requires Balanced(Out(0), d) && Balanced(Out(0), x) && Balanced(Out(0), r)
    ensures t == x + ([BAR] + r) || t == r
  {
    var whole := d + [BAR] + x + [BAR] + r;
    assert t == whole[|y| + 1..];
    if |y| == |d| {
      assert t == x + ([BAR] + r);
    } else if |y| == |d| + 1 + |x| {
      assert t == r;
    } else {
      ScanWhole(d, x, r);
      hide Run, Balanced, StaysInside;
      if |y| < |d| {
        assert [] + d + ([BAR] + x + [BAR] + r) == whole;
        EmptyScans();
        BarWithinValue([], d, [BAR] + x + [BAR] + r, y, t);
      } else if |y| < |d| + 1 + |x| {
        assert (d + [BAR]) + x + ([BAR] + r) == whole;
        BarWithinValue(d + [BAR], x, [BAR] + r, y, t);
      } else {
        assert (d + [BAR] + x + [BAR]) + r + [] == whole;
        BarWithinValue(d + [BAR] + x + [BAR], r, [], y, t);
      }
    }
  }

  lemma EmptyScans()
    ensures Run(Out(0), []) == Out(0)
  {
  }

  lemma ScanWhole(d: Text, x: Text, r: Text)
    requires Balanced(Out(0), d) && Balanced(Out(0), x) && Balanced(Out(0), r)
    ensures Run(Out(0), d + [BAR]) == Out(0) && Run(Out(0), d + [BAR] + x + [BAR]) == Out(0)
    ensures Run(Out(0), d + [BAR] + x + [BAR] + r) == Out(0)
  {
    hide Run, StaysAbove;
    OverBar(d);
    RunConcat(Out(0), d + [BAR], x);
    OverBar(d + [BAR] + x);
    RunConcat(Out(0), d + [BAR] + x + [BAR], r);
  }

  // ---------------------------------------------------------------- what the key identifies

  /** An event without bars in its plain fields has the key of exactly the events of the same meaning. */
  lemma KeyIdentifiesMeaning(e: Event, f: Event)
    requires ValidEvent(e) && ValidEvent(f) && BarFree(e)
    ensures KeyText(e) == KeyText(f) <==> SameMeaning(e, f)
  {
    if SameMeaning(e, f) {
      SameMeaningSameKey(e, f);
    }
    if KeyText(e) == KeyText(f) {
      hide Payload, WithBars, PlainFields;
      BarsDecode(PlainFields(e), PlainFields(f), Payload(e), Payload(f));
      if y: Text :| Payload(e) == y + [BAR] + Payload(f) {
        NoBarThenPayload(e, f, y);
      } else {
        PayloadDecodes(e, f);
      }
    }
  }

  /** The key of an event determines its meaning exactly when the event has no bar in its plain fields. */
  lemma KeyDeterminesMeaningIff(e: Event)
    requires ValidEvent(e) && BuildSemanticKey(e).Some?
    ensures BarFree(e) <==> forall f :: ValidEvent(f) && BuildSemanticKey(f) == BuildSemanticKey(e) ==> SameMeaning(e, f)
  {
    hide KeyText, SameMeaning, BarFree;
    if BarFree(e) {
      forall f | ValidEvent(f) && BuildSemanticKey(f) == BuildSemanticKey(e) ensures SameMeaning(e, f) {
        KeyIdentifiesMeaning(e, f);
      }
    } else {
      var f := BarsCollide(e);
    }
  }
}
