/**
 * The tool-guard scope key "tool:params". The tool name may contain any characters, colons
 * and braces included; the key still determines where it ends, because the text of an
 * object cannot end with a colon followed by the text of another object.
 */
module ScopeKeys {
  import opened JsonText
  import opened StableJson

  datatype ScopeMode = ToolOnly | ToolAndParams

  function ScopeKey(toolName: Text, params: Json, mode: ScopeMode, leq: KeyOrder): Text {
    if mode.ToolOnly? then toolName else toolName + [COLON] + StableJsonStringify(params, leq)
  }

  // ---------------------------------------------------------------- scanning

  /** Outside a string, inside one, or just after a backslash in one, at some bracket depth. */
  datatype Scan = Out(depth: int) | In(depth: int) | Esc(depth: int) | Bad

  function Step(st: Scan, u: Unit): Scan {
    match st
    case Out(d) =>
      if u == QUOTE then In(d)
      else if u == OPEN_BRACE || u == OPEN_BRACKET then Out(d + 1)
      else if u == CLOSE_BRACE || u == CLOSE_BRACKET then Out(d - 1)
      else if u == BACKSLASH then Bad
      else Out(d)
    case In(d) => if u == QUOTE then Out(d) else if u == BACKSLASH then Esc(d) else In(d)
    case Esc(d) => In(d)
    case Bad => Bad
  }

  function Run(st: Scan, x: Text): Scan
    decreases |x|
  {
    if x == [] then st else Run(Step(st, x[0]), x[1..])
  }

  lemma {:induction false} RunConcat(st: Scan, x: Text, y: Text)
    ensures Run(st, x + y) == Run(Run(st, x), y)
    decreases |x|
  {
    if x == [] {
      assert x + y == y;
    } else {
      assert (x + y)[1..] == x[1..] + y;
      RunConcat(Step(st, x[0]), x[1..], y);
    }
  }

  lemma RunOne(st: Scan, u: Unit)
    ensures Run(st, [u]) == Step(st, u)
  {
    assert Run(Step(st, u), [u][1..]) == Step(st, u);
  }

  /** Every state passed through is inside a text of at least the given depth, and bars are only in strings. */
  ghost predicate StaysAbove(st: Scan, x: Text, d: int)
    decreases |x|
  {
    && !st.Bad? && st.depth >= d
    && (x != [] ==> !(st.Out? && x[0] == BAR) && StaysAbove(Step(st, x[0]), x[1..], d))
  }

  lemma {:induction false} AboveConcat(st: Scan, x: Text, y: Text, d: int)
    requires StaysAbove(st, x, d) && StaysAbove(Run(st, x), y, d)
    ensures StaysAbove(st, x + y, d)
    decreases |x|
  {
    if x == [] {
      assert x + y == y;
    } else {
      assert (x + y)[1..] == x[1..] + y;
      AboveConcat(Step(st, x[0]), x[1..], y, d);
    }
  }

  lemma {:induction false} AbovePrefix(st: Scan, x: Text, k: nat, d: int)
    requires StaysAbove(st, x, d) && k <= |x|
    ensures !Run(st, x[..k]).Bad? && Run(st, x[..k]).depth >= d
    decreases k
  {
    if k > 0 {
      assert x[..k][1..] == x[1..][..k - 1];
      AbovePrefix(Step(st, x[0]), x[1..], k - 1, d);
    }
  }

  /** Just before a bar the scan is not outside strings. */
  lemma {:induction false} BarsAreInStrings(st: Scan, x: Text, k: nat, d: int)
    requires StaysAbove(st, x, d) && k < |x| && x[k] == BAR
    ensures !Run(st, x[..k]).Bad? && !Run(st, x[..k]).Out?
    decreases k
  {
    AbovePrefix(st, x, k, d);
    if k > 0 {
      assert x[..k][1..] == x[1..][..k - 1];
      BarsAreInStrings(Step(st, x[0]), x[1..], k - 1, d);
    }
  }

  lemma {:induction false} AboveLower(st: Scan, x: Text, d: int, e: int)
    requires StaysAbove(st, x, d) && e <= d
    ensures StaysAbove(st, x, e)
    decreases |x|
  {
    if x != [] {
      AboveLower(Step(st, x[0]), x[1..], d, e);
    }
  }

  /** Scanning the text from that state comes back to it without going below its depth. */
  ghost predicate Balanced(st: Scan, x: Text) {
    !st.Bad? && Run(st, x) == st && StaysAbove(st, x, st.depth)
  }

  lemma BalancedConcat(st: Scan, x: Text, y: Text)
    requires Balanced(st, x) && Balanced(st, y)
    ensures Balanced(st, x + y)
  {
    RunConcat(st, x, y);
    AboveConcat(st, x, y, st.depth);
  }

  lemma BalancedUnit(st: Scan, u: Unit)
    requires !st.Bad? && Step(st, u) == st && !(st.Out? && u == BAR)
    ensures Balanced(st, [u])
  {
    RunOne(st, u);
    assert [u][1..] == [];
    assert StaysAbove(Step(st, u), [], st.depth);
  }

  lemma BalancedTwo(st: Scan, u: Unit, v: Unit)
    requires !st.Bad? && Step(Step(st, u), v) == st && !Step(st, u).Bad? && Step(st, u).depth >= st.depth
    requires !(st.Out? && u == BAR) && !(Step(st, u).Out? && v == BAR)
    ensures Balanced(st, [u, v])
  {
    assert [u, v] == [u] + [v];
    RunOne(st, u);
    RunOne(Step(st, u), v);
    RunConcat(st, [u], [v]);
    assert [u, v][1..] == [v] && [v][1..] == [];
    assert StaysAbove(st, [], st.depth);
    assert StaysAbove(Step(st, u), [v], st.depth);
  }

  // ---------------------------------------------------------------- scanning a value from outside a string

  lemma {:induction false} PlainBalanced(st: Scan, x: Text)
    requires !st.Bad? && forall i :: 0 <= i < |x| ==> Step(st, x[i]) == st && !(st.Out? && x[i] == BAR)
    ensures Balanced(st, x)
    decreases |x|
  {
    if x != [] {
      PlainBalanced(st, x[1..]);
      BalancedUnit(st, x[0]);
      BalancedConcat(st, [x[0]], x[1..]);
      assert x == [x[0]] + x[1..];
    }
  }

  lemma HexDigitIsPlain(n: nat)
    requires n < 16
    ensures HexDigit(n) != QUOTE && HexDigit(n) != BACKSLASH
  {
  }

  lemma EscapeUnitIn(d: int, u: Unit)
    ensures Balanced(In(d), EscapeUnit(u))
  {
    var e := EscapeUnit(u);
    if |e| == 1 {
      BalancedUnit(In(d), e[0]);
      assert e == [e[0]];
    } else {
      BalancedTwo(In(d), e[0], e[1]);
      if |e| == 6 {
        var hex := e[2..];
        HexDigitIsPlain(u / 16 / 16 / 16);
        HexDigitIsPlain(u / 16 / 16 % 16);
        HexDigitIsPlain(u / 16 % 16);
        HexDigitIsPlain(u % 16);
        assert hex == [e[2], e[3], e[4], e[5]];
        hide HexDigit, EscapeUnit;
        PlainBalanced(In(d), hex);
        BalancedConcat(In(d), [e[0], e[1]], hex);
        assert e == [e[0], e[1]] + hex;
      } else {
        assert e == [e[0], e[1]];
      }
    }
  }

  lemma {:induction false} EscapeIn(d: int, s: Text)
    ensures Balanced(In(d), Escape(s))
    decreases |s|
  {
    if s == [] {
    } else if StartsWithPair(s) {
      EscapeIn(d, s[2..]);
      PlainBalanced(In(d), s[..2]);
      BalancedConcat(In(d), s[..2], Escape(s[2..]));
    } else {
      EscapeIn(d, s[1..]);
      EscapeUnitIn(d, s[0]);
      BalancedConcat(In(d), EscapeUnit(s[0]), Escape(s[1..]));
    }
  }

  /** Going to another state by one unit, through a balanced text, and back by one unit is balanced. */
  lemma BalancedAround(st: Scan, open: Unit, x: Text, close: Unit)
    requires !st.Bad? && Balanced(Step(st, open), x)
    requires Step(st, open).depth >= st.depth && Step(Step(st, open), close) == st && open != BAR && close != BAR
    ensures Balanced(st, [open] + x + [close])
    ensures StaysAbove(Step(st, open), x, Step(st, open).depth)
  {
    var inner := Step(st, open);
    RunOne(st, open);
    RunOne(inner, close);
    RunConcat(st, [open], x);
    RunConcat(st, [open] + x, [close]);
    assert [open][1..] == [] && [close][1..] == [];
    assert StaysAbove(inner, [], st.depth);
    assert StaysAbove(st, [open], st.depth);
    AboveLower(inner, x, inner.depth, st.depth);
    AboveConcat(st, [open], x, st.depth);
    assert StaysAbove(st, [], st.depth);
    assert StaysAbove(inner, [close], st.depth);
    AboveConcat(st, [open] + x, [close], st.depth);
  }

  lemma QuoteOut(d: int, s: Text)
    ensures Balanced(Out(d), Quote(s))
  {
    EscapeIn(d, s);
    BalancedAround(Out(d), QUOTE, Escape(s), QUOTE);
  }

  lemma {:induction false} PrintOut(d: int, v: Json)
    requires Valid(v)
    ensures Balanced(Out(d), Print(v))
    decreases v, 1
  {
    match v
    case Null => PlainBalanced(Out(d), NULL);
    case Bool(b) => PlainBalanced(Out(d), Print(v));
    case Num(n) => PlainBalanced(Out(d), n);
    case Str(s) => QuoteOut(d, s);
    case Arr(items) =>
      ItemsOut(d + 1, items);
      BalancedAround(Out(d), OPEN_BRACKET, ItemsBody(items), CLOSE_BRACKET);
    case Obj(fields) =>
      FieldsOut(d + 1, fields);
      BalancedAround(Out(d), OPEN_BRACE, FieldsBody(fields), CLOSE_BRACE);
  }

  lemma {:induction false} ItemsOut(d: int, items: seq<Json>)
    requires AllValid(items)
    ensures Balanced(Out(d), ItemsBody(items)) && Balanced(Out(d), ItemsTail(items))
    decreases items, 0
  {
    if items != [] {
      PrintOut(d, items[0]);
      ItemsOut(d, items[1..]);
      hide Print, Balanced;
      BalancedConcat(Out(d), Print(items[0]), ItemsTail(items[1..]));
      CommaBalanced(d);
      BalancedConcat(Out(d), [COMMA], Print(items[0]));
      BalancedConcat(Out(d), [COMMA] + Print(items[0]), ItemsTail(items[1..]));
    }
  }

  lemma CommaBalanced(d: int)
    ensures Balanced(Out(d), [COMMA]) && Balanced(Out(d), [COLON])
  {
    BalancedUnit(Out(d), COMMA);
    BalancedUnit(Out(d), COLON);
  }

  lemma {:induction false} FieldOut(d: int, f: Field)
    requires Valid(f.value)
    ensures Balanced(Out(d), PrintField(f))
    decreases f, 0
  {
    QuoteOut(d, f.key);
    PrintOut(d, f.value);
    CommaBalanced(d);
    hide Print, Balanced, Quote;
    BalancedConcat(Out(d), Quote(f.key), [COLON]);
    BalancedConcat(Out(d), Quote(f.key) + [COLON], Print(f.value));
  }

  lemma {:induction false} FieldsOut(d: int, fields: seq<Field>)
    requires AllFieldsValid(fields)
    ensures Balanced(Out(d), FieldsBody(fields)) && Balanced(Out(d), FieldsTail(fields))
    decreases fields, 0
  {
    if fields != [] {
      FieldOut(d, fields[0]);
      FieldsOut(d, fields[1..]);
      CommaBalanced(d);
      hide PrintField, Balanced;
      BalancedConcat(Out(d), PrintField(fields[0]), FieldsTail(fields[1..]));
      BalancedConcat(Out(d), [COMMA], PrintField(fields[0]));
      BalancedConcat(Out(d), [COMMA] + PrintField(fields[0]), FieldsTail(fields[1..]));
    }
  }

  /** Strictly within the text of an object the depth is at least one. */
  lemma WithinObject(v: Json, k: nat)
    requires Valid(v) && v.Obj? && 0 < k < |Print(v)|
    ensures var st := Run(Out(0), Print(v)[..k]); !st.Bad? && st.depth >= 1
  {
    var body := FieldsBody(v.fields);
    FieldsOut(1, v.fields);
    hide FieldsBody;
    assert Print(v)[..k] == [OPEN_BRACE] + body[..k - 1];
    RunOne(Out(0), OPEN_BRACE);
    RunConcat(Out(0), [OPEN_BRACE], body[..k - 1]);
    AbovePrefix(Out(1), body, k - 1, 1);
  }

  // ---------------------------------------------------------------- scanning a value from inside a string

  ghost predicate Inside(st: Scan) {
    st.In? || st.Bad?
  }

  /** Whatever the depth, a scan that starts inside a string ends inside one, or has gone bad. */
  ghost predicate StaysInside(x: Text) {
    forall st :: Inside(st) ==> Inside(Run(st, x))
  }

  lemma InsideConcat(x: Text, y: Text)
    requires StaysInside(x) && StaysInside(y)
    ensures StaysInside(x + y)
  {
    forall st | Inside(st) ensures Inside(Run(st, x + y)) { RunConcat(st, x, y); }
  }

  lemma {:induction false} PlainInside(x: Text)
    requires forall i :: 0 <= i < |x| ==> x[i] != QUOTE && x[i] != BACKSLASH
    ensures StaysInside(x)
    decreases |x|
  {
    if x != [] {
      PlainInside(x[1..]);
    }
  }

  ghost predicate Outside(st: Scan) {
    st.Out? || st.Bad?
  }

  lemma {:induction false} BadStays(x: Text)
    ensures Run(Bad, x) == Bad
    decreases |x|
  {
    if x != [] {
      BadStays(x[1..]);
    }
  }

  lemma EscapeUnitOutside(st: Scan, u: Unit)
    requires Outside(st)
    ensures Outside(Run(st, EscapeUnit(u)))
  {
    var e := EscapeUnit(u);
    EscapeUnitShape(u);
    EscapeUnitStart(u);
    hide EscapeUnit;
    if |e| == 1 {
      assert e == [e[0]];
      RunOne(st, e[0]);
    } else {
      assert e == [e[0]] + e[1..];
      RunConcat(st, [e[0]], e[1..]);
      RunOne(st, e[0]);
      BadStays(e[1..]);
    }
  }

  /** String contents read as if outside a string: escapes are errors, and quotes only occur in escapes. */
  lemma {:induction false} EscapeOutside(st: Scan, s: Text)
    requires Outside(st)
    ensures Outside(Run(st, Escape(s)))
    decreases |s|
  {
    if s == [] {
    } else if StartsWithPair(s) {
      RunConcat(st, s[..2], Escape(s[2..]));
      assert s[..2] == [s[0]] + [s[1]];
      RunConcat(st, [s[0]], [s[1]]);
      RunOne(st, s[0]);
      RunOne(Step(st, s[0]), s[1]);
      EscapeOutside(Run(st, s[..2]), s[2..]);
    } else {
      RunConcat(st, EscapeUnit(s[0]), Escape(s[1..]));
      EscapeUnitOutside(st, s[0]);
      EscapeOutside(Run(st, EscapeUnit(s[0])), s[1..]);
    }
  }

  lemma QuoteInside(s: Text)
    ensures StaysInside(Quote(s))
  {
    forall st | Inside(st) ensures Inside(Run(st, Quote(s))) {
      RunConcat(st, [QUOTE] + Escape(s), [QUOTE]);
      RunConcat(st, [QUOTE], Escape(s));
      RunOne(st, QUOTE);
      EscapeOutside(Step(st, QUOTE), s);
      RunOne(Run(Step(st, QUOTE), Escape(s)), QUOTE);
    }
  }

  lemma {:induction false} PrintInside(v: Json)
    requires Valid(v)
    ensures StaysInside(Print(v))
    decreases v, 1
  {
    match v
    case Null => PlainInside(NULL);
    case Bool(b) => PlainInside(Print(v));
    case Num(n) => PlainInside(n);
    case Str(s) => QuoteInside(s);
    case Arr(items) =>
      ItemsInside(items);
      AroundInside(OPEN_BRACKET, ItemsBody(items), CLOSE_BRACKET);
    case Obj(fields) =>
      FieldsInside(fields);
      AroundInside(OPEN_BRACE, FieldsBody(fields), CLOSE_BRACE);
  }

  lemma AroundInside(open: Unit, x: Text, close: Unit)
    requires StaysInside(x) && open != QUOTE && open != BACKSLASH && close != QUOTE && close != BACKSLASH
    ensures StaysInside([open] + x + [close])
  {
    PlainInside([open]);
    PlainInside([close]);
    hide StaysInside;
    InsideConcat([open], x);
    InsideConcat([open] + x, [close]);
  }

  lemma {:induction false} ItemsInside(items: seq<Json>)
    requires AllValid(items)
    ensures StaysInside(ItemsBody(items)) && StaysInside(ItemsTail(items))
    decreases items, 0
  {
    if items == [] {
      PlainInside([]);
    } else {
      PrintInside(items[0]);
      ItemsInside(items[1..]);
      PlainInside([COMMA]);
      hide Print, StaysInside;
      InsideConcat(Print(items[0]), ItemsTail(items[1..]));
      InsideConcat([COMMA], Print(items[0]));
      InsideConcat([COMMA] + Print(items[0]), ItemsTail(items[1..]));
    }
  }

  lemma {:induction false} FieldInside(f: Field)
    requires Valid(f.value)
    ensures StaysInside(PrintField(f))
    decreases f, 0
  {
    QuoteInside(f.key);
    PrintInside(f.value);
    PlainInside([COLON]);
    hide Print, Quote, StaysInside;
    InsideConcat(Quote(f.key), [COLON]);
    InsideConcat(Quote(f.key) + [COLON], Print(f.value));
  }

  lemma {:induction false} FieldsInside(fields: seq<Field>)
    requires AllFieldsValid(fields)
    ensures StaysInside(FieldsBody(fields)) && StaysInside(FieldsTail(fields))
    decreases fields, 0
  {
    if fields == [] {
      PlainInside([]);
    } else {
      FieldInside(fields[0]);
      FieldsInside(fields[1..]);
      PlainInside([COMMA]);
      hide PrintField, StaysInside;
      InsideConcat(PrintField(fields[0]), FieldsTail(fields[1..]));
      InsideConcat([COMMA], PrintField(fields[0]));
      InsideConcat([COMMA] + PrintField(fields[0]), FieldsTail(fields[1..]));
    }
  }

  // ---------------------------------------------------------------- the key determines its parts

  /** From within a value, the text of an object never leads out of every bracket and string. */
  lemma NeverBackOut(st: Scan, w: Json)
    requires Valid(w) && (st.Out? || st.In?) && st.depth >= 1
    ensures Run(st, Print(w)) != Out(0)
  {
    if st.Out? {
      PrintOut(st.depth, w);
    } else {
      PrintInside(w);
      assert Inside(st);
    }
  }

  lemma AfterColon(v: Json, y: Text, k: nat)
    requires Valid(v) && v.Obj? && k == |y| + 1 && k < |Print(v)| && Print(v)[..k] == y + [COLON]
    ensures var st := Run(Out(0), Print(v)[..k]); (st.Out? || st.In?) && st.depth >= 1
  {
    WithinObject(v, k);
    hide Print;
    RunConcat(Out(0), y, [COLON]);
    RunOne(Run(Out(0), y), COLON);
  }

  /** The text of an object does not end with a colon and the text of another object. */
  lemma NoColonSuffix(v: Json, w: Json, y: Text)
    requires Valid(v) && Valid(w) && v.Obj? && w.Obj?
    ensures Print(v) != y + [COLON] + Print(w)
  {
    if Print(v) == y + [COLON] + Print(w) {
      PrintStart(w);
      PrintOut(0, v);
      hide Print, StaysAbove;
      var before := y + [COLON];
      assert Print(v)[..|before|] == before;
      AfterColon(v, y, |before|);
      NeverBackOut(Run(Out(0), before), w);
      RunConcat(Out(0), before, Print(w));
    }
  }

  lemma SuffixesAgree(a: Text, b: Text, v: Json, w: Json)
    requires Valid(v) && Valid(w) && v.Obj? && w.Obj? && a + [COLON] + Print(v) == b + [COLON] + Print(w)
    ensures a == b && Print(v) == Print(w)
  {
    hide Print;
    var x := a + [COLON] + Print(v);
    if |Print(v)| > |Print(w)| {
      SuffixSplits(a, Print(v), b, Print(w));
      NoColonSuffix(v, w, b[|a| + 1..]);
    } else if |Print(w)| > |Print(v)| {
      SuffixSplits(b, Print(w), a, Print(v));
      NoColonSuffix(w, v, a[|b| + 1..]);
    } else {
      assert x[..|a|] == a && x[..|b|] == b;
      assert x[|a| + 1..] == Print(v) && x[|b| + 1..] == Print(w);
    }
  }

  lemma SuffixSplits(a: Text, p: Text, b: Text, q: Text)
    requires a + [COLON] + p == b + [COLON] + q && |p| > |q|
    ensures |b| > |a| && p == b[|a| + 1..] + [COLON] + q
  {
    var x := a + [COLON] + p;
    assert p == x[|a| + 1..];
    assert x[|a| + 1..] == (b + [COLON] + q)[|a| + 1..];
  }

  /**
   * In tool_and_params mode two calls share a scope exactly when the tool names agree and the
   * parameters are the same up to key order and keys named __proto__.
   */
  lemma ScopeKeyIdentifies(tool1: Text, params1: Json, tool2: Text, params2: Json, leq: KeyOrder)
    requires Valid(params1) && Valid(params2) && params1.Obj? && params2.Obj? && TotalOrder(leq)
    ensures ScopeKey(tool1, params1, ToolAndParams, leq) == ScopeKey(tool2, params2, ToolAndParams, leq)
      <==> tool1 == tool2 && Same(params1, params2, NotProto)
  {
    var v, w := Canon(params1, leq, NotProto), Canon(params2, leq, NotProto);
    CanonValid(params1, leq, NotProto);
    CanonValid(params2, leq, NotProto);
    StableJsonStringifyIdentifies(params1, params2, leq);
    if ScopeKey(tool1, params1, ToolAndParams, leq) == ScopeKey(tool2, params2, ToolAndParams, leq) {
      SuffixesAgree(tool1, tool2, v, w);
    }
  }

  /** By tool only, calls share a key exactly when the tool names agree, whatever the parameters are. */
  lemma ToolKeyIdentifies(a: Text, v: Json, b: Text, w: Json, leq: KeyOrder)
    ensures ScopeKey(a, v, ToolOnly, leq) == ScopeKey(b, w, ToolOnly, leq) <==> a == b
  {
  }
}
