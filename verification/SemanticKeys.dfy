/**
 * The key under which the owner recognises events of equal meaning, and what equal keys say
 * about the events.
 */
module SemanticKeys {
  import opened Options
  import opened JsonText
  import opened StableJson

  /** The parts of an event that the key is built from, its id, and its metadata. */
  datatype Event = Event(
    eventId: Text, kind: Text, eventName: Option<Text>,
    correlationId: Option<Text>, toolCallId: Option<Text>, runId: Option<Text>,
    sessionId: Option<Text>, sessionKey: Option<Text>, agentId: Option<Text>,
    data: Json, error: Option<Json>, result: Option<Json>, metadata: Option<Json>)

  ghost predicate ValidEvent(e: Event) {
    Valid(e.data) && (e.error.Some? ==> Valid(e.error.value)) && (e.result.Some? ==> Valid(e.result.value))
  }

  predicate Meaningful(value: Option<Text>) {
    value.Some? && exists i :: 0 <= i < |value.value| && !SpaceUnit(value.value[i])
  }

  /** The eight plain fields; an undefined one counts as empty. */
  function PlainFields(e: Event): seq<Text> {
    [e.kind, e.eventName.GetOr([]), e.correlationId.GetOr([]), e.toolCallId.GetOr([]), e.runId.GetOr([]),
     e.sessionId.GetOr([]), e.sessionKey.GetOr([]), e.agentId.GetOr([])]
  }

  /** An undefined value joins as the empty text. */
  function OptionalText(v: Option<Json>): Text {
    if v.Some? then StableStringify(v.value) else []
  }

  /** The fields, each followed by a bar, and then the rest. */
  function WithBars(fields: seq<Text>, rest: Text): Text {
    if fields == [] then rest else fields[0] + ([BAR] + WithBars(fields[1..], rest))
  }

  /** Data, error and result, joined with bars. */
  function Payload(e: Event): Text {
    StableStringify(e.data) + ([BAR] + (OptionalText(e.error) + ([BAR] + OptionalText(e.result))))
  }

  function KeyText(e: Event): Text {
    WithBars(PlainFields(e), Payload(e))
  }

  /** No key at all for an event without any identifying value. */
  function BuildSemanticKey(e: Event): Option<Text> {
    if Meaningful(e.correlationId) || Meaningful(e.toolCallId) || Meaningful(e.runId)
       || Meaningful(e.sessionId) || Meaningful(e.sessionKey) || Meaningful(e.agentId)
    then Some(KeyText(e)) else None
  }

  // ---------------------------------------------------------------- reading a key back

  lemma FieldDecodesAtBar(a: Text, b: Text, s: Text, t: Text)
    requires BAR !in a && BAR !in b && a + ([BAR] + s) == b + ([BAR] + t)
    ensures a == b && s == t
    decreases |a|
  {
    var x, y := a + ([BAR] + s), b + ([BAR] + t);
    if a == [] { assert x == [BAR] + s; } else { assert x[0] == a[0] && a[0] in a; }
    if b == [] { assert y == [BAR] + t; } else { assert y[0] == b[0] && b[0] in b; }
    if a == [] {
      CancelLeft([BAR], s, t);
    } else {
      assert x[1..] == a[1..] + ([BAR] + s) && y[1..] == b[1..] + ([BAR] + t);
      assert x[0] == a[0] && y[0] == b[0];
      FieldDecodesAtBar(a[1..], b[1..], s, t);
      assert a == [a[0]] + a[1..] && b == [b[0]] + b[1..];
    }
  }

  /** Both undefined, or both defined and the same up to key order. */
  ghost predicate SameOptional(v: Option<Json>, w: Option<Json>) {
    (v.None? && w.None?) || (v.Some? && w.Some? && SameUpToOrder(v.value, w.value))
  }

  lemma StableDecodes(v: Json, w: Json, s: Text, t: Text)
    requires Valid(v) && Valid(w) && Delimited(s) && Delimited(t) && StableStringify(v) + s == StableStringify(w) + t
    ensures SameUpToOrder(v, w) && s == t
  {
    UnitOrderIsTotal();
    CanonValid(v, UnitLeq, KeepAll);
    CanonValid(w, UnitLeq, KeepAll);
    PrintDecodes(Canon(v, UnitLeq, KeepAll), Canon(w, UnitLeq, KeepAll), s, t);
    StableStringifyIsCanonical(v, w);
  }

  lemma StableStart(v: Json, s: Text)
    requires Valid(v) && Delimited(s)
    ensures StableStringify(v) + s != s && !Delimited(StableStringify(v) + s)
  {
    UnitOrderIsTotal();
    CanonValid(v, UnitLeq, KeepAll);
    PrintStart(Canon(v, UnitLeq, KeepAll));
    hide Print;
    HeadOfText(StableStringify(v), s);
  }

  lemma HeadOfText(p: Text, s: Text)
    requires p != []
    ensures (p + s)[0] == p[0]
  {
  }

  lemma OptionalDecodes(v: Option<Json>, w: Option<Json>, s: Text, t: Text)
    requires (v.Some? ==> Valid(v.value)) && (w.Some? ==> Valid(w.value)) && Delimited(s) && Delimited(t)
    requires OptionalText(v) + s == OptionalText(w) + t
    ensures SameOptional(v, w) && s == t
  {
    assert [] + s == s && [] + t == t;
    if v.Some? { StableStart(v.value, s); }
    if w.Some? { StableStart(w.value, t); }
    hide StableStringify, Delimited;
    if v.Some? && w.Some? {
      StableDecodes(v.value, w.value, s, t);
    }
  }

  lemma OptionalSame(v: Option<Json>, w: Option<Json>)
    requires (v.Some? ==> Valid(v.value)) && (w.Some? ==> Valid(w.value)) && SameOptional(v, w)
    ensures OptionalText(v) == OptionalText(w)
  {
    if v.Some? {
      StableStringifyIsCanonical(v.value, w.value);
    }
  }

  ghost predicate BarFree(e: Event) {
    forall i :: 0 <= i < |PlainFields(e)| ==> BAR !in PlainFields(e)[i]
  }

  /** Data, error and result are the same up to key order. */
  ghost predicate SamePayload(e: Event, f: Event) {
    SameUpToOrder(e.data, f.data) && SameOptional(e.error, f.error) && SameOptional(e.result, f.result)
  }

  ghost predicate SameMeaning(e: Event, f: Event) {
    PlainFields(e) == PlainFields(f) && SamePayload(e, f)
  }

  lemma PayloadDecodes(e: Event, f: Event)
    requires ValidEvent(e) && ValidEvent(f) && Payload(e) == Payload(f)
    ensures SamePayload(e, f)
  {
    var s1, t1 := [BAR] + OptionalText(e.result), [BAR] + OptionalText(f.result);
    var s0, t0 := [BAR] + (OptionalText(e.error) + s1), [BAR] + (OptionalText(f.error) + t1);
    assert Delimited(s1) && Delimited(t1) && Delimited(s0) && Delimited(t0);
    EmptyIsDelimited();
    hide StableStringify, OptionalText, Delimited;
    StableDecodes(e.data, f.data, s0, t0);
    CancelLeft([BAR], OptionalText(e.error) + s1, OptionalText(f.error) + t1);
    OptionalDecodes(e.error, f.error, s1, t1);
    CancelLeft([BAR], OptionalText(e.result), OptionalText(f.result));
    assert OptionalText(e.result) + [] == OptionalText(e.result) && OptionalText(f.result) + [] == OptionalText(f.result);
    OptionalDecodes(e.result, f.result, [], []);
  }

  /** Events of the same meaning have the same key, bars or not. */
  lemma SameMeaningSameKey(e: Event, f: Event)
    requires ValidEvent(e) && ValidEvent(f) && SameMeaning(e, f)
    ensures BuildSemanticKey(e) == BuildSemanticKey(f) && KeyText(e) == KeyText(f)
  {
    StableStringifyIsCanonical(e.data, f.data);
    OptionalSame(e.error, f.error);
    OptionalSame(e.result, f.result);
    var p, q := PlainFields(e), PlainFields(f);
    assert p[2] == q[2] && p[3] == q[3] && p[4] == q[4] && p[5] == q[5] && p[6] == q[6] && p[7] == q[7];
    hide WithBars, StableStringify, OptionalText;
    MeaningfulAsEmpty(e.correlationId, f.correlationId);
    MeaningfulAsEmpty(e.toolCallId, f.toolCallId);
    MeaningfulAsEmpty(e.runId, f.runId);
    MeaningfulAsEmpty(e.sessionId, f.sessionId);
    MeaningfulAsEmpty(e.sessionKey, f.sessionKey);
    MeaningfulAsEmpty(e.agentId, f.agentId);
    hide Meaningful;
  }

  /** Events have the same meaning if they say the same, an undefined field counting as an empty one. */
  lemma SameMeaningIs(e: Event, f: Event)
    ensures SameMeaning(e, f) <==>
      && e.kind == f.kind && e.eventName.GetOr([]) == f.eventName.GetOr([]) && e.correlationId.GetOr([]) == f.correlationId.GetOr([])
      && e.toolCallId.GetOr([]) == f.toolCallId.GetOr([]) && e.runId.GetOr([]) == f.runId.GetOr([])
      && e.sessionId.GetOr([]) == f.sessionId.GetOr([]) && e.sessionKey.GetOr([]) == f.sessionKey.GetOr([])
      && e.agentId.GetOr([]) == f.agentId.GetOr([])
      && SameUpToOrder(e.data, f.data) && SameOptional(e.error, f.error) && SameOptional(e.result, f.result)
  {
    var p, q := PlainFields(e), PlainFields(f);
    assert p == q <==> p[0] == q[0] && p[1] == q[1] && p[2] == q[2] && p[3] == q[3] && p[4] == q[4] && p[5] == q[5] && p[6] == q[6] && p[7] == q[7];
    hide SameUpToOrder, SameOptional;
  }

  /** An event has a key exactly if one of the fields that identify its context is not blank. */
  lemma HasKeyIff(e: Event)
    ensures BuildSemanticKey(e).Some? <==>
      exists v: Text, i: nat :: i < |v| && !SpaceUnit(v[i])
        && (e.correlationId == Some(v) || e.toolCallId == Some(v) || e.runId == Some(v)
            || e.sessionId == Some(v) || e.sessionKey == Some(v) || e.agentId == Some(v))
  {
  }

  lemma SameMeaningIsSymmetric(e: Event, f: Event)
    requires ValidEvent(e) && ValidEvent(f) && SameMeaning(e, f)
    ensures SameMeaning(f, e)
  {
    StableStringifyIsCanonical(e.data, f.data);
    StableStringifyIsCanonical(f.data, e.data);
    if e.error.Some? {
      StableStringifyIsCanonical(e.error.value, f.error.value);
      StableStringifyIsCanonical(f.error.value, e.error.value);
    }
    if e.result.Some? {
      StableStringifyIsCanonical(e.result.value, f.result.value);
      StableStringifyIsCanonical(f.result.value, e.result.value);
    }
    hide StableStringify, SameUpToOrder;
  }

  lemma MeaningfulAsEmpty(a: Option<Text>, b: Option<Text>)
    requires a.GetOr([]) == b.GetOr([])
    ensures Meaningful(a) == Meaningful(b)
  {
  }

  lemma EmptyIsDelimited()
    ensures Delimited([])
  {
  }

  // ---------------------------------------------------------------- bars in plain fields

  /** Moving a bar over the border between field i and the next one does not change the joined text. */
  lemma {:induction false} BarMoves(fields: seq<Text>, i: nat, x: Text, y: Text, rest: Text)
    requires i + 1 < |fields| && fields[i] == x + [BAR] + y
    ensures WithBars(fields[i := x][i + 1 := y + [BAR] + fields[i + 1]], rest) == WithBars(fields, rest)
  {
    var moved := fields[i := x][i + 1 := y + [BAR] + fields[i + 1]];
    if i == 0 {
      assert moved[1..][1..] == fields[1..][1..];
      var tail := [BAR] + WithBars(fields[1..][1..], rest);
      OpenTwo(moved, rest);
      OpenTwo(fields, rest);
      hide WithBars;
      Associate(x, [BAR], y);
      MoveBar(x, y, fields[1], tail);
    } else {
      assert moved[1..] == fields[1..][i - 1 := x][i := y + [BAR] + fields[1..][i]];
      BarMoves(fields[1..], i - 1, x, y, rest);
    }
  }

  lemma OpenTwo(fields: seq<Text>, rest: Text)
    requires |fields| >= 2
    ensures WithBars(fields, rest) == fields[0] + ([BAR] + (fields[1] + ([BAR] + WithBars(fields[1..][1..], rest))))
  {
    assert WithBars(fields[1..], rest) == fields[1] + ([BAR] + WithBars(fields[1..][1..], rest));
  }

  lemma MoveBar(a: Text, b: Text, c: Text, tail: Text)
    ensures (a + [BAR] + b) + ([BAR] + (c + tail)) == a + ([BAR] + ((b + [BAR] + c) + tail))
  {
    Associate(b, [BAR], c + tail);
    Associate(b + [BAR], c, tail);
    Associate(a, [BAR], b + ([BAR] + (c + tail)));
    Associate(a + [BAR], b, [BAR] + (c + tail));
  }

  lemma Associate(a: Text, b: Text, c: Text)
    ensures (a + b) + c == a + (b + c)
  {
  }

  /** The event with other plain fields. */
  function WithPlainFields(e: Event, fields: seq<Text>): Event
    requires |fields| == 8
  {
    e.(kind := fields[0], eventName := Some(fields[1]), correlationId := Some(fields[2]), toolCallId := Some(fields[3]),
       runId := Some(fields[4]), sessionId := Some(fields[5]), sessionKey := Some(fields[6]), agentId := Some(fields[7]))
  }

  lemma SplitAtBar(a: Text) returns (x: Text, y: Text)
    requires BAR in a
    ensures a == x + [BAR] + y
  {
    var i :| 0 <= i < |a| && a[i] == BAR;
    x, y := a[..i], a[i + 1..];
  }

  /** A field with a bar is not blank. */
  lemma BarIsMeaningful(value: Text)
    requires BAR in value
    ensures Meaningful(Some(value))
  {
    var i :| 0 <= i < |value| && value[i] == BAR;
    assert !SpaceUnit(value[i]);
  }

  /** The bar at the end of field i moved over to the next field, or from the last field to the one before. */
  lemma MovedFields(fields: seq<Text>, rest: Text) returns (moved: seq<Text>)
    requires |fields| == 8 && exists i :: 0 <= i < |fields| && BAR in fields[i]
    ensures |moved| == 8 && moved != fields && WithBars(moved, rest) == WithBars(fields, rest)
    ensures moved[2..] == fields[2..] || exists j :: 2 <= j < 8 && BAR in moved[j]
  {
    var i :| 0 <= i < |fields| && BAR in fields[i];
    var x, y := SplitAtBar(fields[i]);
    if i < 7 {
      moved := fields[i := x][i + 1 := y + [BAR] + fields[i + 1]];
      BarMoves(fields, i, x, y, rest);
      assert moved[i + 1][|y|] == BAR;
    } else {
      moved := fields[i - 1 := fields[i - 1] + [BAR] + x][i := y];
      assert moved[i - 1 := fields[i - 1]][i := x + [BAR] + y] == fields;
      BarMoves(moved, i - 1, fields[i - 1], x, rest);
      assert moved[6][|fields[6]|] == BAR;
    }
    assert |moved[i]| != |fields[i]|;
  }

  /** Every event with a bar in a plain field and with a key shares it with a valid one of different meaning. */
  lemma BarsCollide(e: Event) returns (f: Event)
    requires ValidEvent(e) && !BarFree(e) && BuildSemanticKey(e).Some?
    ensures ValidEvent(f) && BuildSemanticKey(f) == BuildSemanticKey(e) && !SameMeaning(e, f)
  {
    hide WithBars, StableStringify, OptionalText, Valid, Payload;
    var fields := PlainFields(e);
    var moved := MovedFields(fields, Payload(e));
    f := WithPlainFields(e, moved);
    assert PlainFields(f) == moved;
    PayloadIgnoresPlain(e, moved);
    if moved[2..] == fields[2..] {
      SameTailMeaningful(e, moved);
    } else {
      var j :| 2 <= j < 8 && BAR in moved[j];
      BarIsMeaningful(moved[j]);
    }
    hide Meaningful;
  }

  lemma PayloadIgnoresPlain(e: Event, fields: seq<Text>)
    requires |fields| == 8
    ensures Payload(WithPlainFields(e, fields)) == Payload(e)
  {
    hide StableStringify, OptionalText;
  }

  lemma SameTailMeaningful(e: Event, moved: seq<Text>)
    requires |moved| == 8 && moved[2..] == PlainFields(e)[2..] && BuildSemanticKey(e).Some?
    ensures BuildSemanticKey(WithPlainFields(e, moved)).Some?
  {
    hide KeyText;
    var f, fields := WithPlainFields(e, moved), PlainFields(e);
    assert forall j :: 2 <= j < 8 ==> moved[j] == moved[2..][j - 2] == fields[2..][j - 2] == fields[j];
    MeaningfulAsEmpty(e.correlationId, f.correlationId);
    MeaningfulAsEmpty(e.toolCallId, f.toolCallId);
    MeaningfulAsEmpty(e.runId, f.runId);
    MeaningfulAsEmpty(e.sessionId, f.sessionId);
    MeaningfulAsEmpty(e.sessionKey, f.sessionKey);
    MeaningfulAsEmpty(e.agentId, f.agentId);
    hide Meaningful;
  }
}
