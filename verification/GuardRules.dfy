/**
 * Tool-guard rules: reading dotted paths of an event and matching a rule against it. A rule
 * that reads only the tool name and the parameters cannot tell two calls apart whose
 * parameters are alike, and parameters that differ in key order only are.
 */
module GuardRules {
  import opened Options
  import opened JsonText
  import opened StableJson

  // ---------------------------------------------------------------- events and paths

  type Path = seq<Text>  // the segments of a dotted path

  const DATA: Text := [0x64, 0x61, 0x74, 0x61]
  const TOOL_NAME: Text := [0x74, 0x6F, 0x6F, 0x6C, 0x4E, 0x61, 0x6D, 0x65]
  const PARAMS: Text := [0x70, 0x61, 0x72, 0x61, 0x6D, 0x73]
  const LENGTH: Text := [0x6C, 0x65, 0x6E, 0x67, 0x74, 0x68]

  /** A tool call. */
  datatype Call = Call(toolName: Text, params: Json)

  /** The event built for a call: its data, and every other property, present but perhaps undefined. */
  datatype Event = Event(head: map<Text, Option<Json>>, data: Json)

  function CallData(call: Call): Json {
    Obj([Field(TOOL_NAME, Str(call.toolName)), Field(PARAMS, call.params)])
  }

  function DigitValue(key: Text): Option<nat> {
    if key == [] || !(0x30 <= key[|key| - 1] <= 0x39) then None
    else if |key| == 1 then Some(key[0] - 0x30)
    else
      var front := DigitValue(key[..|key| - 1]);
      if front.None? || key[0] == 0x30 then None else Some(10 * front.value + key[|key| - 1] - 0x30)
  }

  function Decimal(n: nat): Text {
    if n < 10 then [0x30 + n] else Decimal(n / 10) + [0x30 + n % 10]
  }

  /**
   * What reading a property or a path gives: nothing, a JSON value, one of the functions that
   * every object or array inherits, or the prototype of all arrays.
   */
  datatype Read = Absent | Got(json: Json) | Callable | ArrayPrototype

  /** The prototype of all objects: its own prototype is null, and otherwise it only inherits. */
  const OBJECT_PROTOTYPE := Obj([Field(PROTO, Null)])

  /** The names of the functions that objects inherit, and of those that only arrays do. */
  datatype Inherited = Inherited(byObjects: set<Text>, byArrays: set<Text>)

  function InheritedByArrays(key: Text, inherited: Inherited): Read {
    if key in inherited.byArrays || key in inherited.byObjects then Callable else Absent
  }

  /** Reading a property; only objects and arrays have any. */
  function Property(v: Read, key: Text, inherited: Inherited): Read {
    match v
    case Got(Obj(fields)) =>
      var own := FieldValue(fields, key);
      if own.Some? then Got(own.value)
      else if key == PROTO then Got(OBJECT_PROTOTYPE)
      else if key in inherited.byObjects then Callable
      else Absent
    case Got(Arr(items)) =>
      var i := DigitValue(key);
      if key == LENGTH then Got(Num(Decimal(|items|)))
      else if i.Some? && i.value < |items| then Got(items[i.value])
      else if key == PROTO then ArrayPrototype
      else InheritedByArrays(key, inherited)
    case ArrayPrototype =>
      if key == LENGTH then Got(Num(Decimal(0)))
      else if key == PROTO then Got(OBJECT_PROTOTYPE)
      else InheritedByArrays(key, inherited)
    case _ => Absent
  }

  function Descend(v: Read, path: Path, inherited: Inherited): Read
    decreases |path|
  {
    if path == [] then v else Descend(Property(v, path[0], inherited), path[1..], inherited)
  }

  function Present(v: Option<Json>): Read {
    if v.Some? then Got(v.value) else Absent
  }

  function ReadPath(e: Event, path: Path, inherited: Inherited): Read {
    if path == [] then Absent
    else
      var first := if path[0] == DATA then Got(e.data)
                   else if path[0] in e.head then Present(e.head[path[0]])
                   else if path[0] == PROTO then Got(OBJECT_PROTOTYPE)
                   else if path[0] in inherited.byObjects then Callable
                   else Property(Got(e.data), path[0], inherited);
      Descend(first, path[1..], inherited)
  }

  // ---------------------------------------------------------------- matching

  datatype Kind = StringKind | NumberKind | BooleanKind | ObjectKind | ArrayKind

  /** One condition on the value at a path. */
  datatype Check =
    | Contains(path: Path, part: Text)
    | Equals(path: Path, expected: Json)
    | Required(path: Path)
    | TypeIs(path: Path, kind: Kind)
    | InList(path: Path, values: seq<Json>)
    | NotInList(path: Path, values: seq<Json>)
    | MatchesRegex(path: Path, pattern: Text)
    | NotMatchesRegex(path: Path, pattern: Text)
    | InDomains(path: Path, domains: seq<Text>)
    | AtLeast(path: Path, least: Text)
    | StatusOf(path: Path, status: Text)

  /** What strings mean to regular expressions, URLs and numbers, the known agent statuses, and what objects inherit. */
  datatype Env = Env(
    regexValid: Text -> bool, regexTest: (Text, Text) -> bool, hostOf: Text -> Option<Text>,
    hostMatches: (Text, seq<Text>) -> bool, atLeast: (Text, Text) -> bool, statusOf: map<Text, Text>, inherited: Inherited)

  predicate Scalar(v: Json) {
    v.Str? || v.Num? || v.Bool?
  }

  predicate OccursIn(part: Text, text: Text) {
    exists i :: 0 <= i <= |text| && part <= text[i..]
  }

  predicate HasKind(v: Read, kind: Kind) {
    match kind
    case StringKind => v.Got? && v.json.Str?
    case NumberKind => v.Got? && v.json.Num?
    case BooleanKind => v.Got? && v.json.Bool?
    case ObjectKind => v.Got? && v.json.Obj?
    case ArrayKind => v.ArrayPrototype? || (v.Got? && v.json.Arr?)
  }

  function TextOf(v: Read): Option<Text> {
    if v.Got? && v.json.Str? then Some(v.json.text) else None
  }

  predicate Passes(c: Check, value: Read, env: Env) {
    match c
    case Contains(_, part) => TextOf(value).Some? && OccursIn(part, TextOf(value).value)
    case Equals(_, expected) => value == Got(expected)
    case Required(_) => value != Absent && value != Got(Null)
    case TypeIs(_, kind) => HasKind(value, kind)
    case InList(_, values) => value.Got? && value.json in values
    case NotInList(_, values) => !(value.Got? && value.json in values)
    case MatchesRegex(_, pattern) =>
      TextOf(value).Some? && env.regexValid(pattern) && env.regexTest(pattern, TextOf(value).value)
    case NotMatchesRegex(_, pattern) =>
      TextOf(value).None? || (env.regexValid(pattern) && !env.regexTest(pattern, TextOf(value).value))
    case InDomains(_, domains) =>
      TextOf(value).Some? && var host := env.hostOf(TextOf(value).value); host.Some? && env.hostMatches(host.value, domains)
    case AtLeast(_, least) => value.Got? && value.json.Num? && env.atLeast(value.json.numeral, least)
    case StatusOf(_, status) =>
      TextOf(value).Some? && TextOf(value).value in env.statusOf && env.statusOf[TextOf(value).value] == status
  }

  /** Absent, or one of the listed strings. */
  datatype Matcher = Anything | OneOf(values: seq<Text>)

  predicate Matches(m: Matcher, value: Read) {
    m.Anything? || (TextOf(value).Some? && TextOf(value).value in m.values)
  }

  datatype When = When(toolName: Matcher, others: seq<(Path, Matcher)>, checks: seq<Check>)

  predicate MatchesRule(e: Event, when: When, env: Env) {
    && Matches(when.toolName, ReadPath(e, [DATA, TOOL_NAME], env.inherited))
    && (forall i :: 0 <= i < |when.others| ==> Matches(when.others[i].1, ReadPath(e, when.others[i].0, env.inherited)))
    && (forall i :: 0 <= i < |when.checks| ==> Passes(when.checks[i], ReadPath(e, when.checks[i].path, env.inherited), env))
  }

  // ---------------------------------------------------------------- rules that read only the call

  /** The expected values of comparisons are strings, numbers and booleans. */
  predicate ComparesScalars(c: Check) {
    match c
    case Equals(_, expected) => Scalar(expected)
    case InList(_, values) => forall i :: 0 <= i < |values| ==> Scalar(values[i])
    case NotInList(_, values) => forall i :: 0 <= i < |values| ==> Scalar(values[i])
    case _ => true
  }

  const DOT: Unit := 0x2E

  /** A segment of a dotted path: not empty, without dots, and without white space at its ends. */
  predicate Segment(key: Text) {
    key != [] && DOT !in key && !SpaceUnit(key[0]) && !SpaceUnit(key[|key| - 1])
  }

  /** A dotted path that reads within the call's data, or a property that is the same for every call. */
  predicate CallPath(path: Path, head: set<Text>) {
    (forall i :: 0 <= i < |path| ==> Segment(path[i])) && (path != [] ==> path[0] == DATA || path[0] !in head)
  }

  /** The rule's conditions are on the tool name and the parameters only. */
  predicate ReadsOnlyCall(when: When, head: set<Text>) {
    && (forall i :: 0 <= i < |when.others| ==> CallPath(when.others[i].0, head))
    && (forall i :: 0 <= i < |when.checks| ==> CallPath(when.checks[i].path, head) && ComparesScalars(when.checks[i]))
  }

  // ---------------------------------------------------------------- values that read alike

  /** The value of a property that reads like the missing property: inherited or undefined. */
  predicate ReadsAsMissing(key: Text, value: Json, members: set<Text>) {
    if key == PROTO then LikeObjectPrototype(value, members) else key !in members && value == Null
  }

  predicate LikeObjectPrototype(v: Json, members: set<Text>) {
    && v.Obj? && FieldValue(v.fields, PROTO) == Some(Null)
    && forall i :: 0 <= i < |v.fields| && Segment(v.fields[i].key) && v.fields[i].key != PROTO ==>
         v.fields[i].key !in members && v.fields[i].value == Null
  }

  /** Whatever dotted path is read and checked, the two values are the same to it. */
  predicate Alike(v: Json, w: Json, members: set<Text>)
    decreases v
  {
    match v
    case Arr(items) => w.Arr? && |items| == |w.items| && forall i :: 0 <= i < |items| ==> Alike(items[i], w.items[i], members)
    case Obj(fields) =>
      && w.Obj?
      && (forall i :: 0 <= i < |fields| && Segment(fields[i].key) ==> AlikeField(fields[i], w.fields, members))
      && (forall j :: 0 <= j < |w.fields| && Segment(w.fields[j].key) && FieldValue(fields, w.fields[j].key).None? ==>
            ReadsAsMissing(w.fields[j].key, w.fields[j].value, members))
    case _ => v == w
  }

  predicate AlikeField(f: Field, others: seq<Field>, members: set<Text>)
    decreases f
  {
    var other := FieldValue(others, f.key);
    if other.Some? then Alike(f.value, other.value, members) else ReadsAsMissing(f.key, f.value, members)
  }

  predicate AlikeReads(r: Read, q: Read, members: set<Text>) {
    if r == Absent || r == Got(Null) then q == Absent || q == Got(Null)
    else if r.Got? then q.Got? && Alike(r.json, q.json, members)
    else r == q
  }

  lemma {:induction false} OwnField(fields: seq<Field>, key: Text)
    ensures var own := FieldValue(fields, key);
      if own.Some? then exists i :: 0 <= i < |fields| && fields[i].key == key && own == Some(fields[i].value)
      else forall i :: 0 <= i < |fields| ==> fields[i].key != key
  {
    if HasKey(fields, key) {
      var i := FirstWith(fields, key);
    } else {
      FieldValueMissing(fields, key);
    }
  }

  lemma {:induction false} FirstWith(fields: seq<Field>, key: Text) returns (i: nat)
    requires HasKey(fields, key)
    ensures i < |fields| && fields[i].key == key && FieldValue(fields, key) == Some(fields[i].value)
  {
    if fields[0].key == key {
      i := 0;
    } else {
      var j :| 0 <= j < |fields| && fields[j].key == key;
      assert fields[1..][j - 1].key == key;
      i := FirstWith(fields[1..], key);
      i := i + 1;
    }
  }

  lemma PrototypeFields(key: Text)
    ensures FieldValue(OBJECT_PROTOTYPE.fields, key) == if key == PROTO then Some(Null) else None
    ensures Valid(OBJECT_PROTOTYPE)
  {
    assert OBJECT_PROTOTYPE.fields[1..] == [];
    assert Valid(Null);
  }

  /** The own value of __proto__ that reads as if it were missing is alike to what is inherited. */
  lemma LikePrototypeIsAlike(v: Json, members: set<Text>)
    requires Valid(v) && LikeObjectPrototype(v, members)
    ensures Alike(v, OBJECT_PROTOTYPE, members) && Alike(OBJECT_PROTOTYPE, v, members)
  {
    var proto := OBJECT_PROTOTYPE.fields;
    forall i | 0 <= i < |v.fields| && Segment(v.fields[i].key) ensures AlikeField(v.fields[i], proto, members) {
      PrototypeFields(v.fields[i].key);
      FieldValueAt(v.fields, i);
    }
    PrototypeFields(PROTO);
    OwnField(v.fields, PROTO);
    assert AlikeField(proto[0], v.fields, members);
    forall j | 0 <= j < |v.fields| && Segment(v.fields[j].key) && FieldValue(proto, v.fields[j].key).None?
      ensures ReadsAsMissing(v.fields[j].key, v.fields[j].value, members)
    {
      PrototypeFields(v.fields[j].key);
    }
  }

  ghost predicate ValidRead(r: Read) {
    r.Got? ==> Valid(r.json)
  }

  lemma MissingReads(key: Text, value: Json, inherited: Inherited)
    requires Valid(value) && ReadsAsMissing(key, value, inherited.byObjects)
    ensures var missing := Property(Got(Obj([])), key, inherited);
      AlikeReads(Got(value), missing, inherited.byObjects) && AlikeReads(missing, Got(value), inherited.byObjects)
  {
    if key == PROTO {
      LikePrototypeIsAlike(value, inherited.byObjects);
    }
  }

  /** A property that the object does not have itself reads as on an empty object. */
  lemma MissingProperty(fields: seq<Field>, key: Text, inherited: Inherited)
    requires FieldValue(fields, key).None?
    ensures Property(Got(Obj(fields)), key, inherited) == Property(Got(Obj([])), key, inherited)
    ensures AlikeReads(Property(Got(Obj([])), key, inherited), Property(Got(Obj([])), key, inherited), inherited.byObjects)
  {
    PrototypeFields(PROTO);
    if key == PROTO {
      LikePrototypeIsAlike(OBJECT_PROTOTYPE, inherited.byObjects);
    }
  }

  lemma ObjectPropertyAlike(v: Json, w: Json, key: Text, inherited: Inherited)
    requires Valid(v) && Valid(w) && v.Obj? && Alike(v, w, inherited.byObjects) && Segment(key)
    ensures AlikeReads(Property(Got(v), key, inherited), Property(Got(w), key, inherited), inherited.byObjects)
  {
    OwnField(v.fields, key);
    OwnField(w.fields, key);
    var own, other := FieldValue(v.fields, key), FieldValue(w.fields, key);
    if own.Some? {
      var i :| 0 <= i < |v.fields| && v.fields[i].key == key && own == Some(v.fields[i].value);
      assert AlikeField(v.fields[i], w.fields, inherited.byObjects);
      if other.None? {
        MissingReads(key, own.value, inherited);
        MissingProperty(w.fields, key, inherited);
      } else {
        GotAlike(own.value, other.value, inherited.byObjects);
      }
    } else if other.Some? {
      var j :| 0 <= j < |w.fields| && w.fields[j].key == key && other == Some(w.fields[j].value);
      MissingReads(key, other.value, inherited);
      MissingProperty(v.fields, key, inherited);
    } else {
      MissingProperty(v.fields, key, inherited);
      MissingProperty(w.fields, key, inherited);
    }
  }

  lemma GotAlike(v: Json, w: Json, members: set<Text>)
    requires Alike(v, w, members)
    ensures AlikeReads(Got(v), Got(w), members)
  {
  }

  lemma PropertyAlike(r: Read, q: Read, key: Text, inherited: Inherited)
    requires ValidRead(r) && ValidRead(q) && AlikeReads(r, q, inherited.byObjects) && Segment(key)
    ensures AlikeReads(Property(r, key, inherited), Property(q, key, inherited), inherited.byObjects)
  {
    if r.Got? && r.json.Obj? {
      ObjectPropertyAlike(r.json, q.json, key, inherited);
    } else if r.Got? && r.json.Arr? {
      var i := DigitValue(key);
      if i.Some? && i.value < |r.json.items| {
        GotAlike(r.json.items[i.value], q.json.items[i.value], inherited.byObjects);
      }
    } else if r.ArrayPrototype? {
      PrototypeFields(PROTO);
      LikePrototypeIsAlike(OBJECT_PROTOTYPE, inherited.byObjects);
    }
    hide Decimal, DigitValue, FieldValue, Segment;
  }

  lemma PropertyValid(r: Read, key: Text, inherited: Inherited)
    requires ValidRead(r)
    ensures ValidRead(Property(r, key, inherited))
  {
    PrototypeFields(PROTO);
    DecimalIsNumeral(0);
    if r.Got? && r.json.Obj? {
      OwnField(r.json.fields, key);
    } else if r.Got? && r.json.Arr? {
      DecimalIsNumeral(|r.json.items|);
    }
    hide Decimal, DigitValue, FieldValue;
  }

  lemma {:induction false} DecimalIsNumeral(n: nat)
    ensures Numeral(Decimal(n)) && Valid(Num(Decimal(n)))
  {
    if n >= 10 {
      DecimalIsNumeral(n / 10);
      var front := Decimal(n / 10);
      assert forall i :: 0 <= i < |front| ==> Decimal(n)[i] == front[i];
    }
  }

  lemma {:induction false} DescendAlike(r: Read, q: Read, path: Path, inherited: Inherited)
    requires ValidRead(r) && ValidRead(q) && AlikeReads(r, q, inherited.byObjects)
    requires forall i :: 0 <= i < |path| ==> Segment(path[i])
    ensures AlikeReads(Descend(r, path, inherited), Descend(q, path, inherited), inherited.byObjects)
    decreases |path|
  {
    hide Property, Segment, AlikeReads, ValidRead;
    if path != [] {
      PropertyAlike(r, q, path[0], inherited);
      PropertyValid(r, path[0], inherited);
      PropertyValid(q, path[0], inherited);
      DescendAlike(Property(r, path[0], inherited), Property(q, path[0], inherited), path[1..], inherited);
    }
  }

  // ---------------------------------------------------------------- rules on alike calls

  lemma ReadAlike(e: Event, f: Event, path: Path, inherited: Inherited)
    requires Valid(e.data) && Valid(f.data) && Alike(e.data, f.data, inherited.byObjects)
    requires e.head.Keys == f.head.Keys && CallPath(path, e.head.Keys)
    ensures AlikeReads(ReadPath(e, path, inherited), ReadPath(f, path, inherited), inherited.byObjects)
  {
    if path != [] {
      PrototypeFields(PROTO);
      LikePrototypeIsAlike(OBJECT_PROTOTYPE, inherited.byObjects);
      GotAlike(e.data, f.data, inherited.byObjects);
      hide Alike, Segment;
      if path[0] == DATA {
        DescendAlike(Got(e.data), Got(f.data), path[1..], inherited);
      } else if path[0] == PROTO {
        DescendAlike(Got(OBJECT_PROTOTYPE), Got(OBJECT_PROTOTYPE), path[1..], inherited);
      } else if path[0] in inherited.byObjects {
        DescendAlike(Callable, Callable, path[1..], inherited);
      } else {
        PropertyAlike(Got(e.data), Got(f.data), path[0], inherited);
        PropertyValid(Got(e.data), path[0], inherited);
        PropertyValid(Got(f.data), path[0], inherited);
        DescendAlike(Property(Got(e.data), path[0], inherited), Property(Got(f.data), path[0], inherited), path[1..], inherited);
      }
    }
  }

  lemma AlikeKinds(v: Json, w: Json, members: set<Text>)
    requires Alike(v, w, members)
    ensures v.Str? == w.Str? && v.Num? == w.Num? && v.Bool? == w.Bool? && v.Obj? == w.Obj? && v.Arr? == w.Arr? && v.Null? == w.Null?
    ensures Scalar(v) || Scalar(w) || v == Null ==> v == w
  {
  }

  lemma PassesAlike(c: Check, r: Read, q: Read, env: Env)
    requires AlikeReads(r, q, env.inherited.byObjects) && ComparesScalars(c)
    ensures Passes(c, r, env) == Passes(c, q, env)
  {
    if r.Got? && r.json != Null {
      AlikeKinds(r.json, q.json, env.inherited.byObjects);
    }
    hide OccursIn, Alike;
  }

  lemma MatchesAlike(m: Matcher, r: Read, q: Read, members: set<Text>)
    requires AlikeReads(r, q, members)
    ensures Matches(m, r) == Matches(m, q)
  {
    if r.Got? && r.json != Null {
      AlikeKinds(r.json, q.json, members);
    }
    hide Alike;
  }

  lemma CallFields(call: Call)
    requires Valid(call.params)
    ensures var fields := CallData(call).fields;
      && Valid(CallData(call)) && |fields| == 2 && fields[0].key == TOOL_NAME && fields[1].key == PARAMS
      && FieldValue(fields, TOOL_NAME) == Some(Str(call.toolName)) && FieldValue(fields, PARAMS) == Some(call.params)
  {
    var fields := CallData(call).fields;
    assert fields[0].key == TOOL_NAME && fields[1].key == PARAMS && TOOL_NAME[0] != PARAMS[0];
    assert Valid(Str(call.toolName));
    FieldValueAt(fields, 0);
    FieldValueAt(fields, 1);
  }

  lemma CallDataAlike(a: Call, b: Call, members: set<Text>)
    requires a.toolName == b.toolName && Valid(a.params) && Valid(b.params) && Alike(a.params, b.params, members)
    ensures Valid(CallData(a)) && Valid(CallData(b)) && Alike(CallData(a), CallData(b), members)
  {
    var f, g := CallData(a).fields, CallData(b).fields;
    CallFields(a);
    CallFields(b);
    assert Alike(f[0].value, g[0].value, members) && Alike(f[1].value, g[1].value, members);
    hide FieldValue, Segment;
    forall i | 0 <= i < |f| ensures AlikeField(f[i], g, members) {
      assert i == 0 || i == 1;
    }
  }

  /** Such a rule matches both of two calls of the same tool with alike parameters, or neither. */
  lemma MatchDependsOnCall(e: Event, f: Event, a: Call, b: Call, when: When, env: Env)
    requires e.data == CallData(a) && f.data == CallData(b) && e.head.Keys == f.head.Keys
    requires a.toolName == b.toolName && Valid(a.params) && Valid(b.params) && Alike(a.params, b.params, env.inherited.byObjects)
    requires ReadsOnlyCall(when, e.head.Keys)
    ensures MatchesRule(e, when, env) == MatchesRule(f, when, env)
  {
    CallDataAlike(a, b, env.inherited.byObjects);
    ToolNamePath(e.head.Keys);
    hide CallData, ReadPath, Passes, Valid, Alike, AlikeReads, CallPath;
    ReadAlike(e, f, [DATA, TOOL_NAME], env.inherited);
    MatchesAlike(when.toolName, ReadPath(e, [DATA, TOOL_NAME], env.inherited), ReadPath(f, [DATA, TOOL_NAME], env.inherited), env.inherited.byObjects);
    forall i | 0 <= i < |when.others|
      ensures Matches(when.others[i].1, ReadPath(e, when.others[i].0, env.inherited))
           == Matches(when.others[i].1, ReadPath(f, when.others[i].0, env.inherited))
    {
      var path := when.others[i].0;
      ReadAlike(e, f, path, env.inherited);
      MatchesAlike(when.others[i].1, ReadPath(e, path, env.inherited), ReadPath(f, path, env.inherited), env.inherited.byObjects);
    }
    forall i | 0 <= i < |when.checks|
      ensures Passes(when.checks[i], ReadPath(e, when.checks[i].path, env.inherited), env)
           == Passes(when.checks[i], ReadPath(f, when.checks[i].path, env.inherited), env)
    {
      var path := when.checks[i].path;
      ReadAlike(e, f, path, env.inherited);
      PassesAlike(when.checks[i], ReadPath(e, path, env.inherited), ReadPath(f, path, env.inherited), env);
    }
  }

  lemma ToolNamePath(head: set<Text>)
    ensures CallPath([DATA, TOOL_NAME], head) && Segment(DATA) && Segment(TOOL_NAME) && Segment(PARAMS) && Segment(LENGTH)
  {
    assert DATA[0] == 0x64 && DATA[|DATA| - 1] == 0x61 && TOOL_NAME[0] == 0x74 && TOOL_NAME[|TOOL_NAME| - 1] == 0x65;
    assert PARAMS[0] == 0x70 && PARAMS[|PARAMS| - 1] == 0x73 && LENGTH[0] == 0x6C && LENGTH[|LENGTH| - 1] == 0x68;
  }

  /** Values that are the same up to key order are alike. */
  lemma {:induction false} SameIsAlike(v: Json, w: Json, members: set<Text>)
    requires Valid(v) && Valid(w) && SameUpToOrder(v, w)
    ensures Alike(v, w, members)
    decreases v
  {
    match v
    case Arr(items) =>
      forall i | 0 <= i < |items| ensures Alike(items[i], w.items[i], members) {
        SameIsAlike(items[i], w.items[i], members);
      }
    case Obj(fields) =>
      forall i | 0 <= i < |fields| ensures AlikeField(fields[i], w.fields, members) {
        var j := FieldOfSame(v, w, i);
        FieldValueAt(w.fields, j);
        SameIsAlike(fields[i].value, w.fields[j].value, members);
      }
      forall j | 0 <= j < |w.fields| ensures FieldValue(fields, w.fields[j].key).Some? {
        KeysOfSame(v, w, w.fields[j].key);
        assert HasKey(w.fields, w.fields[j].key);
        var i :| 0 <= i < |fields| && fields[i].key == w.fields[j].key;
        FieldValueAt(fields, i);
      }
    case _ =>
  }

  lemma FieldOfSame(v: Json, w: Json, i: nat) returns (j: nat)
    requires SameUpToOrder(v, w) && v.Obj? && i < |v.fields|
    ensures w.Obj? && j < |w.fields| && w.fields[j].key == v.fields[i].key && SameUpToOrder(v.fields[i].value, w.fields[j].value)
  {
    assert KeepAll(v.fields[i].key);
    j :| 0 <= j < |w.fields| && w.fields[j].key == v.fields[i].key && Same(v.fields[i].value, w.fields[j].value, KeepAll);
  }

  lemma KeysOfSame(v: Json, w: Json, key: Text)
    requires SameUpToOrder(v, w) && v.Obj?
    ensures w.Obj? && (HasKey(w.fields, key) ==> HasKey(v.fields, key))
  {
    if HasKey(w.fields, key) {
      var j :| 0 <= j < |w.fields| && w.fields[j].key == key;
      assert KeysWithin(w.fields, v.fields, KeepAll);
    }
  }
}
