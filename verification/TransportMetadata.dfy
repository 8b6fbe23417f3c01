/**
 * Annotating a relayed event with the route it took. The identity of the runtime that emitted
 * the event is written once and survives every later annotation.
 */
module TransportMetadata {
  import opened Options
  import opened JsonText
  import opened StableJson
  import opened SemanticKeys

  const TRANSPORT: Text := [0x74, 0x72, 0x61, 0x6E, 0x73, 0x70, 0x6F, 0x72, 0x74]
  const RUNTIME_ID: Text := [0x72, 0x75, 0x6E, 0x74, 0x69, 0x6D, 0x65, 0x49, 0x64]
  const PID: Text := [0x70, 0x69, 0x64]
  const HOSTNAME: Text := [0x68, 0x6F, 0x73, 0x74, 0x6E, 0x61, 0x6D, 0x65]
  const EMITTED_BY_ROLE: Text := [0x65, 0x6D, 0x69, 0x74, 0x74, 0x65, 0x64, 0x42, 0x79, 0x52, 0x6F, 0x6C, 0x65]
  const ROUTE: Text := [0x72, 0x6F, 0x75, 0x74, 0x65]
  const OWNER_RUNTIME_ID: Text := [0x6F, 0x77, 0x6E, 0x65, 0x72, 0x52, 0x75, 0x6E, 0x74, 0x69, 0x6D, 0x65, 0x49, 0x64]

  /** The keys that say who emitted the event. */
  predicate OfEmitter(key: Text) {
    key == RUNTIME_ID || key == PID || key == HOSTNAME || key == EMITTED_BY_ROLE
  }

  /** The annotating runtime: its identity as JSON values, the route, and perhaps the owner. */
  datatype Annotation = Annotation(runtimeId: Text, pid: Json, hostname: Text, role: Text, route: Text, ownerRuntimeId: Option<Text>)

  /** The fields of an object value; other values have none. */
  function RecordFields(v: Option<Json>): seq<Field> {
    if v.Some? && v.value.Obj? then v.value.fields else []
  }

  /** Sets a property: in place if it exists, else at the end. */
  function SetField(fields: seq<Field>, key: Text, value: Json): seq<Field> {
    if fields == [] then [Field(key, value)]
    else if fields[0].key == key then [Field(key, value)] + fields[1..]
    else [fields[0]] + SetField(fields[1..], key, value)
  }

  /** Sets a property unless it has a value other than null. */
  function KeepOrSet(fields: seq<Field>, key: Text, value: Json): seq<Field> {
    var current := FieldValue(fields, key);
    SetField(fields, key, if current.None? || current.value == Null then value else current.value)
  }

  function Annotate(transport: seq<Field>, a: Annotation): seq<Field> {
    var named := KeepOrSet(transport, RUNTIME_ID, Str(a.runtimeId));
    var placed := KeepOrSet(KeepOrSet(named, PID, a.pid), HOSTNAME, Str(a.hostname));
    var routed := SetField(KeepOrSet(placed, EMITTED_BY_ROLE, Str(a.role)), ROUTE, Str(a.route));
    if a.ownerRuntimeId.Some? && a.ownerRuntimeId.value != [] then SetField(routed, OWNER_RUNTIME_ID, Str(a.ownerRuntimeId.value))
    else routed
  }

  function TransportOf(e: Event): seq<Field> {
    RecordFields(FieldValue(RecordFields(e.metadata), TRANSPORT))
  }

  function CloneEventWithTransportMetadata(e: Event, a: Annotation): Event {
    e.(metadata := Some(Obj(SetField(RecordFields(e.metadata), TRANSPORT, Obj(Annotate(TransportOf(e), a))))))
  }

  lemma {:induction false} ValueAfterSet(fields: seq<Field>, key: Text, value: Json, other: Text)
    ensures FieldValue(SetField(fields, key, value), other) == if other == key then Some(value) else FieldValue(fields, other)
  {
    if fields != [] {
      ValueAfterSet(fields[1..], key, value, other);
      var updated := SetField(fields, key, value);
      assert updated[1..] == if fields[0].key == key then fields[1..] else SetField(fields[1..], key, value);
    } else {
      assert [Field(key, value)][1..] == [];
    }
  }

  lemma ValueAfterKeep(fields: seq<Field>, key: Text, value: Json, other: Text)
    ensures var current := FieldValue(fields, key);
      FieldValue(KeepOrSet(fields, key, value), other)
      == if other != key then FieldValue(fields, other)
         else if current.None? || current.value == Null then Some(value) else current
  {
    var current := FieldValue(fields, key);
    ValueAfterSet(fields, key, if current.None? || current.value == Null then value else current.value, other);
  }

  function Emitter(a: Annotation, key: Text): Json {
    if key == RUNTIME_ID then Str(a.runtimeId) else if key == PID then a.pid
    else if key == HOSTNAME then Str(a.hostname) else Str(a.role)
  }

  lemma KeysDiffer()
    ensures RUNTIME_ID[1] == 0x75 && HOSTNAME[1] == 0x6F && ROUTE[1] == 0x6F && EMITTED_BY_ROLE[1] == 0x6D
    ensures OWNER_RUNTIME_ID[1] == 0x77 && PID[1] == 0x69
    ensures HOSTNAME[0] == 0x68 && ROUTE[0] == 0x72
  {
  }

  /** What each property of the transport record is afterwards. */
  lemma AnnotatedValue(transport: seq<Field>, a: Annotation, key: Text)
    ensures var before, after := FieldValue(transport, key), FieldValue(Annotate(transport, a), key);
      if OfEmitter(key) then after == if before.None? || before.value == Null then Some(Emitter(a, key)) else before
      else if key == ROUTE then after == Some(Str(a.route))
      else if key == OWNER_RUNTIME_ID && a.ownerRuntimeId.Some? && a.ownerRuntimeId.value != [] then
        after == Some(Str(a.ownerRuntimeId.value))
      else after == before
  {
    KeysDiffer();
    hide FieldValue, SetField, KeepOrSet;
    var named := KeepOrSet(transport, RUNTIME_ID, Str(a.runtimeId));
    var numbered := KeepOrSet(named, PID, a.pid);
    var placed := KeepOrSet(numbered, HOSTNAME, Str(a.hostname));
    var roled := KeepOrSet(placed, EMITTED_BY_ROLE, Str(a.role));
    var routed := SetField(roled, ROUTE, Str(a.route));
    ValueAfterKeep(transport, RUNTIME_ID, Str(a.runtimeId), key);
    ValueAfterKeep(named, PID, a.pid, key);
    ValueAfterKeep(numbered, HOSTNAME, Str(a.hostname), key);
    ValueAfterKeep(placed, EMITTED_BY_ROLE, Str(a.role), key);
    ValueAfterSet(roled, ROUTE, Str(a.route), key);
    if a.ownerRuntimeId.Some? {
      ValueAfterSet(routed, OWNER_RUNTIME_ID, Str(a.ownerRuntimeId.value), key);
    }
  }

  /** Everything but the transport record stays, so the semantic key does too. */
  lemma OnlyTransportChanges(e: Event, a: Annotation, key: Text)
    ensures var c := CloneEventWithTransportMetadata(e, a);
      && c.(metadata := e.metadata) == e && BuildSemanticKey(c) == BuildSemanticKey(e)
      && TransportOf(c) == Annotate(TransportOf(e), a)
      && (key != TRANSPORT ==> FieldValue(RecordFields(c.metadata), key) == FieldValue(RecordFields(e.metadata), key))
  {
    ValueAfterSet(RecordFields(e.metadata), TRANSPORT, Obj(Annotate(TransportOf(e), a)), key);
    ValueAfterSet(RecordFields(e.metadata), TRANSPORT, Obj(Annotate(TransportOf(e), a)), TRANSPORT);
    hide FieldValue, SetField, Annotate, StableStringify;
  }

  /** An event annotated again keeps the emitter it was first annotated with, and takes the new route. */
  lemma EmitterIsKept(e: Event, first: Annotation, second: Annotation, key: Text)
    requires OfEmitter(key) && first.pid != Null
    ensures var c := CloneEventWithTransportMetadata(e, first);
      var d := CloneEventWithTransportMetadata(c, second);
      && FieldValue(TransportOf(d), key) == FieldValue(TransportOf(c), key)
      && FieldValue(TransportOf(d), ROUTE) == Some(Str(second.route))
      && BuildSemanticKey(d) == BuildSemanticKey(e)
  {
    var c := CloneEventWithTransportMetadata(e, first);
    OnlyTransportChanges(e, first, key);
    OnlyTransportChanges(c, second, key);
    AnnotatedValue(TransportOf(e), first, key);
    AnnotatedValue(TransportOf(c), second, key);
    AnnotatedValue(TransportOf(c), second, ROUTE);
    KeysDiffer();
    hide FieldValue, Annotate, TransportOf, CloneEventWithTransportMetadata, BuildSemanticKey;
  }
}
