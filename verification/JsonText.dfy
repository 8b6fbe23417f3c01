/**
 * JSON values and their text (RFC 8259, sections 3 to 7). Strings are sequences of UTF-16
 * code units, as in JavaScript. The text of a value can be read back unambiguously; this
 * is what the canonical printers and the scope keys rest on.
 */
module JsonText {
  import opened Options

  type Unit = u: nat | u < 0x10000
  type Text = seq<Unit>

  const QUOTE: Unit := 0x22
  const COMMA: Unit := 0x2C
  const COLON: Unit := 0x3A
  const OPEN_BRACKET: Unit := 0x5B
  const BACKSLASH: Unit := 0x5C
  const CLOSE_BRACKET: Unit := 0x5D
  const OPEN_BRACE: Unit := 0x7B
  const BAR: Unit := 0x7C
  const CLOSE_BRACE: Unit := 0x7D

  const NULL: Text := [0x6E, 0x75, 0x6C, 0x6C]
  const TRUE: Text := [0x74, 0x72, 0x75, 0x65]
  const FALSE: Text := [0x66, 0x61, 0x6C, 0x73, 0x65]

  /** A number is its own shortest text: two finite numbers print alike only if they are equal. */
  datatype Json =
    | Null
    | Bool(b: bool)
    | Num(numeral: Text)
    | Str(text: Text)
    | Arr(items: seq<Json>)
    | Obj(fields: seq<Field>)

  datatype Field = Field(key: Text, value: Json)

  /** Digits, sign, point and exponent mark. */
  predicate NumeralUnit(u: Unit) {
    0x30 <= u <= 0x39 || u == 0x2B || u == 0x2D || u == 0x2E || u == 0x65
  }

  predicate Numeral(text: Text) {
    text != [] && (0x30 <= text[0] <= 0x39 || text[0] == 0x2D) && forall i :: 0 <= i < |text| ==> NumeralUnit(text[i])
  }

  ghost predicate DistinctKeys(fields: seq<Field>) {
    forall i, j :: 0 <= i < j < |fields| ==> fields[i].key != fields[j].key
  }

  /** Numbers are numerals and no object has a key twice. */
  ghost predicate Valid(v: Json) {
    match v
    case Num(numeral) => Numeral(numeral)
    case Arr(items) => forall i :: 0 <= i < |items| ==> Valid(items[i])
    case Obj(fields) => DistinctKeys(fields) && forall i :: 0 <= i < |fields| ==> Valid(fields[i].value)
    case _ => true
  }

  // ---------------------------------------------------------------- strings

  predicate Lead(u: Unit) { 0xD800 <= u <= 0xDBFF }
  predicate Trail(u: Unit) { 0xDC00 <= u <= 0xDFFF }

  function HexDigit(d: nat): Unit
    requires d < 16
  {
    if d < 10 then 0x30 + d else 0x57 + d
  }

  /** One code unit of a string literal that is not part of a surrogate pair. */
  function EscapeUnit(u: Unit): Text {
    if u == 0x08 then [BACKSLASH, 0x62]
    else if u == 0x09 then [BACKSLASH, 0x74]
    else if u == 0x0A then [BACKSLASH, 0x6E]
    else if u == 0x0C then [BACKSLASH, 0x66]
    else if u == 0x0D then [BACKSLASH, 0x72]
    else if u == QUOTE || u == BACKSLASH then [BACKSLASH, u]
    else if u < 0x20 || Lead(u) || Trail(u) then
      [BACKSLASH, 0x75, HexDigit(u / 16 / 16 / 16), HexDigit(u / 16 / 16 % 16), HexDigit(u / 16 % 16), HexDigit(u % 16)]
    else [u]
  }

  predicate StartsWithPair(s: Text) {
    |s| >= 2 && Lead(s[0]) && Trail(s[1])
  }

  function Escape(s: Text): Text {
    if s == [] then []
    else if StartsWithPair(s) then s[..2] + Escape(s[2..])
    else EscapeUnit(s[0]) + Escape(s[1..])
  }

  function Quote(s: Text): Text {
    [QUOTE] + Escape(s) + [QUOTE]
  }

  // ---------------------------------------------------------------- values

  function Print(v: Json): Text {
    match v
    case Null => NULL
    case Bool(b) => if b then TRUE else FALSE
    case Num(numeral) => numeral
    case Str(text) => Quote(text)
    case Arr(items) => [OPEN_BRACKET] + ItemsBody(items) + [CLOSE_BRACKET]
    case Obj(fields) => [OPEN_BRACE] + FieldsBody(fields) + [CLOSE_BRACE]
  }

  function PrintField(f: Field): Text {
    Quote(f.key) + [COLON] + Print(f.value)
  }

  /** Items joined by commas. */
  function ItemsBody(items: seq<Json>): Text {
    if items == [] then [] else Print(items[0]) + ItemsTail(items[1..])
  }

  function FieldsBody(fields: seq<Field>): Text {
    if fields == [] then [] else PrintField(fields[0]) + FieldsTail(fields[1..])
  }

  function ItemsTail(items: seq<Json>): Text {
    if items == [] then [] else [COMMA] + Print(items[0]) + ItemsTail(items[1..])
  }

  function FieldsTail(fields: seq<Field>): Text {
    if fields == [] then [] else [COMMA] + PrintField(fields[0]) + FieldsTail(fields[1..])
  }

  // ---------------------------------------------------------------- reading strings back

  function HexValue(u: Unit): int {
    if u < 0x40 then u - 0x30 else u - 0x57
  }

  /** The code unit that an escaped or plain unit stands for. */
  function Unescape(x: Text): int {
    if |x| >= 2 && x[0] == BACKSLASH then
      if x[1] == 0x75 && |x| >= 6 then
        4096 * HexValue(x[2]) + 256 * HexValue(x[3]) + 16 * HexValue(x[4]) + HexValue(x[5])
      else UnescapeLetter(x[1])
    else if x != [] then x[0] else 0
  }

  function UnescapeLetter(u: Unit): Unit {
    if u == 0x62 then 0x08 else if u == 0x74 then 0x09 else if u == 0x6E then 0x0A
    else if u == 0x66 then 0x0C else if u == 0x72 then 0x0D else u
  }

  lemma HexRoundTrip(u: Unit)
    ensures u == 4096 * HexValue(HexDigit(u / 16 / 16 / 16)) + 256 * HexValue(HexDigit(u / 16 / 16 % 16))
                 + 16 * HexValue(HexDigit(u / 16 % 16)) + HexValue(HexDigit(u % 16))
  {
    HexDigitRoundTrip(u / 16 / 16 / 16);
    HexDigitRoundTrip(u / 16 / 16 % 16);
    HexDigitRoundTrip(u / 16 % 16);
    HexDigitRoundTrip(u % 16);
    hide HexValue, HexDigit;
    var a, b := u / 16, u / 16 / 16;
    assert u == 16 * a + u % 16 && a == 16 * b + a % 16 && b == 16 * (b / 16) + b % 16;
  }

  lemma HexDigitRoundTrip(d: nat)
    requires d < 16
    ensures HexValue(HexDigit(d)) == d
  {
  }

  lemma UnescapeEscape(u: Unit)
    ensures Unescape(EscapeUnit(u)) == u
  {
    HexRoundTrip(u);
    hide HexValue, HexDigit;
  }

  /** Unescaping looks at nothing beyond the escape. */
  lemma UnescapePrefix(u: Unit, rest: Text)
    ensures Unescape(EscapeUnit(u) + rest) == u
  {
    UnescapeEscape(u);
    var e := EscapeUnit(u);
    EscapeUnitShape(u);
    hide EscapeUnit, HexValue, HexDigit, UnescapeLetter;
    assert forall i :: 0 <= i < |e| ==> (e + rest)[i] == e[i];
  }

  lemma EscapeUnitShape(u: Unit)
    ensures var e := EscapeUnit(u);
      || (|e| == 1 && e[0] != BACKSLASH)
      || (|e| == 2 && e[0] == BACKSLASH && e[1] != 0x75)
      || (|e| == 6 && e[0] == BACKSLASH && e[1] == 0x75)
  {
  }

  lemma EscapeUnitStart(u: Unit)
    ensures EscapeUnit(u) != [] && EscapeUnit(u)[0] != QUOTE && !Lead(EscapeUnit(u)[0])
  {
  }

  /** The first unit of an escaped string tells whether it starts with a surrogate pair. */
  lemma EscapeStart(a: Text)
    ensures a != [] ==> Escape(a) != [] && Escape(a)[0] != QUOTE && (Lead(Escape(a)[0]) <==> StartsWithPair(a))
  {
    if a != [] && !StartsWithPair(a) {
      EscapeUnitStart(a[0]);
      hide EscapeUnit;
      assert Escape(a)[0] == EscapeUnit(a[0])[0];
    }
  }

  lemma HeadOf(p: Text, r: Text)
    requires p != []
    ensures p + r != [] && (p + r)[0] == p[0]
  {
  }

  lemma Assoc(p: Text, q: Text, r: Text)
    ensures p + q + r == p + (q + r)
  {
  }

  /** Two literals that agree up to whatever follows them are the same literal. */
  lemma {:induction false} EscapeDecodes(a: Text, b: Text, s: Text, t: Text)
    requires s != [] && s[0] == QUOTE && t != [] && t[0] == QUOTE && Escape(a) + s == Escape(b) + t
    ensures a == b && s == t
    decreases |a| + |b|
  {
    EscapeStart(a);
    EscapeStart(b);
    if a != [] { HeadOf(Escape(a), s); } else { assert Escape(a) + s == s; }
    if b != [] { HeadOf(Escape(b), t); } else { assert Escape(b) + t == t; }
    hide EscapeUnit, Unescape, Lead, Trail;
    if StartsWithPair(a) {
      hide StartsWithPair;
      var pa, pb, ra, rb := a[..2], b[..2], Escape(a[2..]) + s, Escape(b[2..]) + t;
      Assoc(pa, Escape(a[2..]), s);
      Assoc(pb, Escape(b[2..]), t);
      assert pa == (pa + ra)[..2] == (pb + rb)[..2] == pb;
      CancelLeft(pa, ra, rb);
      EscapeDecodes(a[2..], b[2..], s, t);
      assert a == pa + a[2..] && b == pb + b[2..];
    } else if a != [] {
      hide StartsWithPair;
      var ra, rb := Escape(a[1..]) + s, Escape(b[1..]) + t;
      Assoc(EscapeUnit(a[0]), Escape(a[1..]), s);
      Assoc(EscapeUnit(b[0]), Escape(b[1..]), t);
      UnescapePrefix(a[0], ra);
      UnescapePrefix(b[0], rb);
      CancelLeft(EscapeUnit(a[0]), ra, rb);
      EscapeDecodes(a[1..], b[1..], s, t);
      assert a == [a[0]] + a[1..] && b == [b[0]] + b[1..];
    }
  }

  lemma QuoteDecodes(a: Text, b: Text, s: Text, t: Text)
    requires Quote(a) + s == Quote(b) + t
    ensures a == b && s == t
  {
    assert Quote(a) + s == [QUOTE] + (Escape(a) + ([QUOTE] + s));
    assert Quote(b) + t == [QUOTE] + (Escape(b) + ([QUOTE] + t));
    CancelLeft([QUOTE], Escape(a) + ([QUOTE] + s), Escape(b) + ([QUOTE] + t));
    EscapeDecodes(a, b, [QUOTE] + s, [QUOTE] + t);
    CancelLeft([QUOTE], s, t);
  }

  // ---------------------------------------------------------------- reading values back

  /** What can follow a value inside a text, or inside a list of texts separated by bars. */
  predicate Delimited(s: Text) {
    s == [] || s[0] == COMMA || s[0] == CLOSE_BRACKET || s[0] == CLOSE_BRACE || s[0] == BAR
  }

  lemma CancelLeft(p: Text, a: Text, b: Text)
    requires p + a == p + b
    ensures a == b
  {
    assert a == (p + a)[|p|..] && b == (p + b)[|p|..];
  }

  /** The length of the numeral a text starts with. */
  function NumeralLength(x: Text): nat {
    if x != [] && NumeralUnit(x[0]) then 1 + NumeralLength(x[1..]) else 0
  }

  lemma {:induction false} NumeralEnds(a: Text, s: Text)
    requires Delimited(s) && forall i :: 0 <= i < |a| ==> NumeralUnit(a[i])
    ensures NumeralLength(a + s) == |a|
  {
    if a == [] {
      assert a + s == s;
    } else {
      NumeralEnds(a[1..], s);
      assert (a + s)[1..] == a[1..] + s;
    }
  }

  lemma NumeralDecodes(a: Text, b: Text, s: Text, t: Text)
    requires Numeral(a) && Numeral(b) && Delimited(s) && Delimited(t) && a + s == b + t
    ensures a == b && s == t
  {
    NumeralEnds(a, s);
    NumeralEnds(b, t);
    assert a == (a + s)[..|a|] && b == (b + t)[..|b|];
    CancelLeft(a, s, t);
  }

  /** The first unit of a value's text gives away its kind. */
  function Kind(v: Json): nat {
    match v
    case Null => 0
    case Bool(true) => 1
    case Bool(false) => 2
    case Num(_) => 3
    case Str(_) => 4
    case Arr(_) => 5
    case Obj(_) => 6
  }

  function KindOfUnit(u: Unit): nat {
    if u == 0x6E then 0 else if u == 0x74 then 1 else if u == 0x66 then 2
    else if u == QUOTE then 4 else if u == OPEN_BRACKET then 5 else if u == OPEN_BRACE then 6 else 3
  }

  lemma PrintStart(v: Json)
    requires Valid(v)
    ensures Print(v) != [] && KindOfUnit(Print(v)[0]) == Kind(v) && !Delimited(Print(v))
  {
  }

  /** Texts of values are prefix-free: what follows a value does not change which value it is. */
  lemma {:induction false} PrintDecodes(v: Json, w: Json, s: Text, t: Text)
    requires Valid(v) && Valid(w) && Delimited(s) && Delimited(t) && Print(v) + s == Print(w) + t
    ensures v == w && s == t
    decreases v, 1
  {
    PrintStart(v);
    PrintStart(w);
    assert (Print(v) + s)[0] == Print(v)[0] == Print(w)[0];
    match v
    case Null => CancelLeft(Print(v), s, t);
    case Bool(b) => CancelLeft(Print(v), s, t);
    case Num(n) => NumeralDecodes(n, w.numeral, s, t);
    case Str(a) => QuoteDecodes(a, w.text, s, t);
    case Arr(items) =>
      ArrayOpens(items, s);
      ArrayOpens(w.items, t);
      CancelLeft([OPEN_BRACKET], ItemsBody(items) + ([CLOSE_BRACKET] + s), ItemsBody(w.items) + ([CLOSE_BRACKET] + t));
      ItemsDecode(items, w.items, s, t);
    case Obj(fields) =>
      ObjectOpens(fields, s);
      ObjectOpens(w.fields, t);
      CancelLeft([OPEN_BRACE], FieldsBody(fields) + ([CLOSE_BRACE] + s), FieldsBody(w.fields) + ([CLOSE_BRACE] + t));
      FieldsDecode(fields, w.fields, s, t);
  }

  lemma ArrayOpens(items: seq<Json>, s: Text)
    ensures Print(Arr(items)) + s == [OPEN_BRACKET] + (ItemsBody(items) + ([CLOSE_BRACKET] + s))
  {
  }

  lemma ObjectOpens(fields: seq<Field>, s: Text)
    ensures Print(Obj(fields)) + s == [OPEN_BRACE] + (FieldsBody(fields) + ([CLOSE_BRACE] + s))
  {
  }

  ghost predicate AllValid(items: seq<Json>) {
    forall i :: 0 <= i < |items| ==> Valid(items[i])
  }

  ghost predicate AllFieldsValid(fields: seq<Field>) {
    forall i :: 0 <= i < |fields| ==> Valid(fields[i].value)
  }

  /** What is left after the first item: the rest of the items, the bracket and what follows. */
  ghost function AfterItem(rest: seq<Json>, s: Text): Text {
    ItemsTail(rest) + ([CLOSE_BRACKET] + s)
  }

  lemma AfterItemOpens(rest: seq<Json>, s: Text)
    ensures rest == [] ==> AfterItem(rest, s) == [CLOSE_BRACKET] + s
    ensures rest != [] ==> AfterItem(rest, s) == [COMMA] + (Print(rest[0]) + AfterItem(rest[1..], s))
    ensures AfterItem(rest, s) != [] && (AfterItem(rest, s)[0] == CLOSE_BRACKET <==> rest == [])
    ensures Delimited(AfterItem(rest, s))
  {
    hide Print;
    if rest != [] {
      Assoc([COMMA], Print(rest[0]), ItemsTail(rest[1..]));
      Assoc([COMMA], Print(rest[0]) + ItemsTail(rest[1..]), [CLOSE_BRACKET] + s);
      Assoc(Print(rest[0]), ItemsTail(rest[1..]), [CLOSE_BRACKET] + s);
    } else {
      assert [] + ([CLOSE_BRACKET] + s) == [CLOSE_BRACKET] + s;
    }
  }

  lemma {:induction false} ItemsDecode(a: seq<Json>, b: seq<Json>, s: Text, t: Text)
    requires AllValid(a) && AllValid(b)
    requires ItemsBody(a) + ([CLOSE_BRACKET] + s) == ItemsBody(b) + ([CLOSE_BRACKET] + t)
    ensures a == b && s == t
    decreases a, 0
  {
    ItemsBodyOpens(a, s);
    ItemsBodyOpens(b, t);
    if a == [] {
      CancelLeft([CLOSE_BRACKET], s, t);
    } else {
      AfterItemOpens(a[1..], s);
      AfterItemOpens(b[1..], t);
      hide Print, ItemsBody, AfterItem, Delimited;
      PrintDecodes(a[0], b[0], AfterItem(a[1..], s), AfterItem(b[1..], t));
      AfterItemDecodes(a[1..], b[1..], s, t);
      assert a == [a[0]] + a[1..] && b == [b[0]] + b[1..];
    }
  }

  lemma ItemsBodyOpens(a: seq<Json>, s: Text)
    requires AllValid(a)
    ensures var x := ItemsBody(a) + ([CLOSE_BRACKET] + s);
      && x != [] && (x[0] == CLOSE_BRACKET <==> a == [])
      && (if a == [] then x == [CLOSE_BRACKET] + s else x == Print(a[0]) + AfterItem(a[1..], s))
  {
    if a != [] {
      PrintStart(a[0]);
      hide Print;
      Assoc(Print(a[0]), ItemsTail(a[1..]), [CLOSE_BRACKET] + s);
      HeadOf(Print(a[0]), AfterItem(a[1..], s));
    } else {
      assert [] + ([CLOSE_BRACKET] + s) == [CLOSE_BRACKET] + s;
    }
  }

  lemma {:induction false} AfterItemDecodes(a: seq<Json>, b: seq<Json>, s: Text, t: Text)
    requires AllValid(a) && AllValid(b) && AfterItem(a, s) == AfterItem(b, t)
    ensures a == b && s == t
    decreases a, 0
  {
    AfterItemOpens(a, s);
    AfterItemOpens(b, t);
    if a == [] {
      CancelLeft([CLOSE_BRACKET], s, t);
    } else {
      AfterItemOpens(a[1..], s);
      AfterItemOpens(b[1..], t);
      hide Print, AfterItem, Delimited;
      CancelLeft([COMMA], Print(a[0]) + AfterItem(a[1..], s), Print(b[0]) + AfterItem(b[1..], t));
      PrintDecodes(a[0], b[0], AfterItem(a[1..], s), AfterItem(b[1..], t));
      AfterItemDecodes(a[1..], b[1..], s, t);
      assert a == [a[0]] + a[1..] && b == [b[0]] + b[1..];
    }
  }

  lemma {:induction false} FieldDecodes(f: Field, g: Field, s: Text, t: Text)
    requires Valid(f.value) && Valid(g.value) && Delimited(s) && Delimited(t) && PrintField(f) + s == PrintField(g) + t
    ensures f == g && s == t
    decreases f, 0
  {
    FieldOpens(f, s);
    FieldOpens(g, t);
    hide PrintField, Quote, Print;
    QuoteDecodes(f.key, g.key, [COLON] + (Print(f.value) + s), [COLON] + (Print(g.value) + t));
    CancelLeft([COLON], Print(f.value) + s, Print(g.value) + t);
    PrintDecodes(f.value, g.value, s, t);
  }

  lemma FieldOpens(f: Field, s: Text)
    ensures PrintField(f) + s == Quote(f.key) + ([COLON] + (Print(f.value) + s))
    ensures PrintField(f) != [] && PrintField(f)[0] == QUOTE
  {
    hide Print, Escape;
    Assoc(Quote(f.key) + [COLON], Print(f.value), s);
    Assoc(Quote(f.key), [COLON], Print(f.value) + s);
    HeadOf(Quote(f.key) + [COLON], Print(f.value));
  }

  ghost function AfterField(rest: seq<Field>, s: Text): Text {
    FieldsTail(rest) + ([CLOSE_BRACE] + s)
  }

  lemma AfterFieldOpens(rest: seq<Field>, s: Text)
    ensures rest == [] ==> AfterField(rest, s) == [CLOSE_BRACE] + s
    ensures rest != [] ==> AfterField(rest, s) == [COMMA] + (PrintField(rest[0]) + AfterField(rest[1..], s))
    ensures AfterField(rest, s) != [] && (AfterField(rest, s)[0] == CLOSE_BRACE <==> rest == [])
    ensures Delimited(AfterField(rest, s))
  {
    hide PrintField;
    if rest != [] {
      Assoc([COMMA], PrintField(rest[0]), FieldsTail(rest[1..]));
      Assoc([COMMA], PrintField(rest[0]) + FieldsTail(rest[1..]), [CLOSE_BRACE] + s);
      Assoc(PrintField(rest[0]), FieldsTail(rest[1..]), [CLOSE_BRACE] + s);
    } else {
      assert [] + ([CLOSE_BRACE] + s) == [CLOSE_BRACE] + s;
    }
  }

  lemma FieldsBodyOpens(a: seq<Field>, s: Text)
    ensures var x := FieldsBody(a) + ([CLOSE_BRACE] + s);
      && x != [] && (x[0] == CLOSE_BRACE <==> a == [])
      && (if a == [] then x == [CLOSE_BRACE] + s else x == PrintField(a[0]) + AfterField(a[1..], s))
  {
    if a != [] {
      FieldOpens(a[0], []);
      hide PrintField;
      Assoc(PrintField(a[0]), FieldsTail(a[1..]), [CLOSE_BRACE] + s);
      HeadOf(PrintField(a[0]), AfterField(a[1..], s));
    } else {
      assert [] + ([CLOSE_BRACE] + s) == [CLOSE_BRACE] + s;
    }
  }

  lemma {:induction false} FieldsDecode(a: seq<Field>, b: seq<Field>, s: Text, t: Text)
    requires AllFieldsValid(a) && AllFieldsValid(b)
    requires FieldsBody(a) + ([CLOSE_BRACE] + s) == FieldsBody(b) + ([CLOSE_BRACE] + t)
    ensures a == b && s == t
    decreases a, 0
  {
    FieldsBodyOpens(a, s);
    FieldsBodyOpens(b, t);
    if a == [] {
      CancelLeft([CLOSE_BRACE], s, t);
    } else {
      AfterFieldOpens(a[1..], s);
      AfterFieldOpens(b[1..], t);
      hide PrintField, FieldsBody, AfterField, Delimited;
      FieldDecodes(a[0], b[0], AfterField(a[1..], s), AfterField(b[1..], t));
      AfterFieldDecodes(a[1..], b[1..], s, t);
      assert a == [a[0]] + a[1..] && b == [b[0]] + b[1..];
    }
  }

  lemma {:induction false} AfterFieldDecodes(a: seq<Field>, b: seq<Field>, s: Text, t: Text)
    requires AllFieldsValid(a) && AllFieldsValid(b) && AfterField(a, s) == AfterField(b, t)
    ensures a == b && s == t
    decreases a, 0
  {
    AfterFieldOpens(a, s);
    AfterFieldOpens(b, t);
    if a == [] {
      CancelLeft([CLOSE_BRACE], s, t);
    } else {
      AfterFieldOpens(a[1..], s);
      AfterFieldOpens(b[1..], t);
      hide PrintField, AfterField, Delimited;
      CancelLeft([COMMA], PrintField(a[0]) + AfterField(a[1..], s), PrintField(b[0]) + AfterField(b[1..], t));
      FieldDecodes(a[0], b[0], AfterField(a[1..], s), AfterField(b[1..], t));
      AfterFieldDecodes(a[1..], b[1..], s, t);
      assert a == [a[0]] + a[1..] && b == [b[0]] + b[1..];
    }
  }

  /** Two valid values with the same text are the same value, key order included. */
  lemma PrintInjective(v: Json, w: Json)
    requires Valid(v) && Valid(w) && Print(v) == Print(w)
    ensures v == w
  {
    assert Print(v) + [] == Print(v) && Print(w) + [] == Print(w);
    PrintDecodes(v, w, [], []);
  }

  /** White space to String.prototype.trim. */
  predicate SpaceUnit(u: Unit) {
    0x09 <= u <= 0x0D || u == 0x20 || u == 0xA0 || u == 0x1680 || 0x2000 <= u <= 0x200A
    || u == 0x2028 || u == 0x2029 || u == 0x202F || u == 0x205F || u == 0x3000 || u == 0xFEFF
  }

  // ---------------------------------------------------------------- fields of an object

  function FieldValue(fields: seq<Field>, key: Text): Option<Json> {
    if fields == [] then None
    else if fields[0].key == key then Some(fields[0].value)
    else FieldValue(fields[1..], key)
  }

  predicate HasKey(fields: seq<Field>, key: Text) {
    exists i :: 0 <= i < |fields| && fields[i].key == key
  }

  lemma {:induction false} FieldValueAt(fields: seq<Field>, i: nat)
    requires DistinctKeys(fields) && i < |fields|
    ensures FieldValue(fields, fields[i].key) == Some(fields[i].value)
  {
    if i > 0 {
      assert fields[0].key != fields[i].key;
      FieldValueAt(fields[1..], i - 1);
    }
  }

  lemma {:induction false} FieldValueMissing(fields: seq<Field>, key: Text)
    requires !HasKey(fields, key)
    ensures FieldValue(fields, key) == None
  {
    if fields != [] {
      assert fields[0].key != key;
      assert forall i :: 0 <= i < |fields[1..]| ==> fields[1..][i] == fields[i + 1];
      FieldValueMissing(fields[1..], key);
    }
  }
}
