/**
 * Redaction of payloads. A payload is a value in a graph of arrays and records that may share
 * nodes and contain cycles. Records already visited are replaced, which cuts the cycles through
 * records; arrays are not remembered.
 */
module Redaction {
  import opened Options

  type Id = nat

  /** Strings, and everything else that is neither an array nor a record. */
  datatype Scalar = Text(chars: string) | Other(token: nat)

  datatype Value = Plain(scalar: Scalar) | Ref(id: Id)

  datatype Entry = Entry(key: string, value: Value)

  datatype Node = List(items: seq<Value>) | Record(entries: seq<Entry>)

  type Graph = map<Id, Node>

  /** What redaction builds: new arrays and records, shared with nothing. */
  datatype Tree = Leaf(scalar: Scalar) | Items(items: seq<Tree>) | Fields(fields: seq<Field>)

  datatype Field = Field(key: string, value: Tree)

  /** The normalized sensitive names, the replacement text, and lower-casing. */
  datatype Policy = Policy(names: set<string>, replacement: string, lower: string -> string)

  predicate Sensitive(p: Policy, key: string) {
    p.lower(key) in p.names
  }

  /** Assigning this property sets a prototype instead of storing a value. */
  const PROTO := "__proto__"

  function Replaced(p: Policy): Tree {
    Leaf(Text(p.replacement))
  }

  // ---------------------------------------------------------------- graphs without array-only cycles

  predicate InGraph(g: Graph, v: Value) {
    v.Ref? ==> v.id in g
  }

  ghost predicate Closed(g: Graph) {
    forall id :: id in g ==>
      && (g[id].List? ==> forall i :: 0 <= i < |g[id].items| ==> InGraph(g, g[id].items[i]))
      && (g[id].Record? ==> forall i :: 0 <= i < |g[id].entries| ==> InGraph(g, g[id].entries[i].value))
  }

  predicate IsList(g: Graph, v: Value) {
    v.Ref? && v.id in g && g[v.id].List?
  }

  predicate IsArray(g: Graph, id: Id) {
    id in g && g[id].List?
  }

  /** The arrays directly in an array. */
  function Inner(g: Graph, a: Id): set<Id>
    requires IsArray(g, a)
  {
    set i | 0 <= i < |g[a].items| && IsList(g, g[a].items[i]) :: g[a].items[i].id
  }

  /** A rank of the arrays that falls from an array to the arrays directly in it, and a bound on it. */
  datatype Measure = Measure(rank: map<Id, nat>, top: nat)

  ghost predicate Ranked(g: Graph, m: Measure) {
    forall a :: IsArray(g, a) ==>
      a in m.rank && m.rank[a] < m.top && forall b :: b in Inner(g, a) ==> b in m.rank && m.rank[b] < m.rank[a]
  }

  /** Arrays each of which contains another one of them: among finitely many there is a cycle. */
  ghost predicate SelfFeeding(g: Graph, arrays: set<Id>) {
    arrays != {} && forall a :: a in arrays ==> IsArray(g, a) && Inner(g, a) * arrays != {}
  }

  /** The rank falls from each of the arrays to those among them that are directly in it. */
  ghost predicate Falls(g: Graph, rest: set<Id>, rank: map<Id, nat>) {
    forall a :: a in rest ==> a in rank && IsArray(g, a) && forall b :: b in rest && b in Inner(g, a) ==> b in rank && rank[b] < rank[a]
  }

  lemma RankLowest(g: Graph, rest: set<Id>, lowest: Id, above: map<Id, nat>) returns (rank: map<Id, nat>)
    requires lowest in rest && IsArray(g, lowest) && Inner(g, lowest) * rest == {}
    requires above.Keys == rest - {lowest} && Falls(g, rest - {lowest}, above)
    requires forall a :: a in above ==> above[a] < |rest| - 1
    ensures rank.Keys == rest && Falls(g, rest, rank) && forall a :: a in rest ==> rank[a] < |rest|
  {
    hide Inner;
    rank := map a | a in rest :: if a == lowest then 0 else above[a] + 1;
    forall a | a in rest
      ensures IsArray(g, a) && forall b :: b in rest && b in Inner(g, a) ==> rank[b] < rank[a]
    {
      if a == lowest {
        assert forall b :: b in rest && b in Inner(g, a) ==> b in Inner(g, a) * rest;
      } else {
        assert a in rest - {lowest};
      }
    }
  }

  lemma {:induction false} RankExists(g: Graph, rest: set<Id>) returns (rank: map<Id, nat>)
    requires forall a :: a in rest ==> IsArray(g, a)
    requires forall arrays :: arrays <= rest ==> !SelfFeeding(g, arrays)
    ensures rank.Keys == rest && Falls(g, rest, rank) && forall a :: a in rest ==> rank[a] < |rest|
    decreases |rest|
  {
    if rest == {} {
      rank := map[];
    } else {
      assert !SelfFeeding(g, rest);
      var lowest :| lowest in rest && Inner(g, lowest) * rest == {};
      hide SelfFeeding, Falls, Inner;
      var above := RankExists(g, rest - {lowest});
      rank := RankLowest(g, rest, lowest, above);
    }
  }

  lemma {:induction false} NoRank(g: Graph, m: Measure, arrays: set<Id>, a: Id)
    requires Ranked(g, m) && SelfFeeding(g, arrays) && a in arrays
    ensures false
    decreases m.rank[a]
  {
    hide Inner;
    var b :| b in Inner(g, a) * arrays;
    NoRank(g, m, arrays, b);
  }

  /** The arrays can be ranked exactly when no cycle goes through arrays only. */
  lemma RankedIffNoArrayCycle(g: Graph)
    ensures (exists m :: Ranked(g, m)) <==> !(exists arrays :: SelfFeeding(g, arrays))
  {
    if m, arrays :| Ranked(g, m) && SelfFeeding(g, arrays) {
      var a :| a in arrays;
      NoRank(g, m, arrays, a);
    }
    if !exists arrays :: SelfFeeding(g, arrays) {
      var all := set a | a in g && IsArray(g, a);
      var rank := RankExists(g, all);
      assert Ranked(g, Measure(rank, |all|));
    }
  }

  /** Redacting the array makes calls nested at least n deep. */
  ghost predicate Nests(g: Graph, a: Id, n: nat)
    decreases n
  {
    n == 0 || (IsArray(g, a) && exists b :: b in Inner(g, a) && Nests(g, b, n - 1))
  }

  /** On a cycle of arrays only, which nothing cuts, the nesting has no bound. */
  lemma {:induction false} ArrayCycleNestsForever(g: Graph, arrays: set<Id>, a: Id, n: nat)
    requires SelfFeeding(g, arrays) && a in arrays
    ensures Nests(g, a, n)
    decreases n
  {
    hide Inner;
    if n > 0 {
      var b :| b in Inner(g, a) * arrays;
      ArrayCycleNestsForever(g, arrays, b, n - 1);
    }
  }

  // ---------------------------------------------------------------- redaction of a value in a graph

  ghost function Unseen(g: Graph, seen: set<Id>): set<Id> {
    set id | id in g && g[id].Record? && id !in seen
  }

  lemma UnseenShrinks(g: Graph, seen: set<Id>, more: set<Id>)
    requires seen <= more
    ensures |Unseen(g, more)| <= |Unseen(g, seen)|
    ensures forall id :: id in more && id in Unseen(g, seen) ==> |Unseen(g, more)| < |Unseen(g, seen)|
  {
    SubsetSize(Unseen(g, more), Unseen(g, seen));
  }

  lemma {:induction false} SubsetSize<T>(a: set<T>, b: set<T>)
    requires a <= b
    ensures |a| <= |b| && (a < b ==> |a| < |b|)
  {
    assert b == a + (b - a);
  }

  ghost function Height(g: Graph, m: Measure, v: Value): nat {
    if IsList(g, v) && v.id in m.rank then m.rank[v.id] + 1 else 0
  }

  ghost predicate Below(g: Graph, m: Measure, items: seq<Value>, h: nat) {
    forall i :: 0 <= i < |items| ==> InGraph(g, items[i]) && Height(g, m, items[i]) < h
  }

  function EntryValues(entries: seq<Entry>): seq<Value> {
    seq(|entries|, i requires 0 <= i < |entries| => entries[i].value)
  }

  /** Terminates because either a record becomes seen or the rank of the array falls. */
  ghost function RedactValue(g: Graph, m: Measure, p: Policy, v: Value, seen: set<Id>): (out: (Tree, set<Id>))
    requires Closed(g) && Ranked(g, m) && InGraph(g, v)
    ensures seen <= out.1
    decreases |Unseen(g, seen)|, Height(g, m, v), if IsList(g, v) then |g[v.id].items| + 1 else 0
  {
    match v
    case Plain(x) => (Leaf(x), seen)
    case Ref(id) =>
      match g[id]
      case List(items) =>
        assert forall i :: 0 <= i < |items| && IsList(g, items[i]) ==> items[i].id in Inner(g, id);
        var rest := RedactItems(g, m, p, items, 0, Height(g, m, v), seen);
        (Items(rest.0), rest.1)
      case Record(entries) =>
        if id in seen then (Replaced(p), seen)
        else
          UnseenShrinks(g, seen, seen + {id});
          var rest := RedactEntries(g, m, p, entries, 0, seen + {id});
          (Fields(rest.0), rest.1)
  }

  ghost function RedactItems(g: Graph, m: Measure, p: Policy, items: seq<Value>, i: nat, h: nat, seen: set<Id>): (out: (seq<Tree>, set<Id>))
    requires Closed(g) && Ranked(g, m) && Below(g, m, items, h) && i <= |items|
    ensures seen <= out.1
    decreases |Unseen(g, seen)|, h, |items| - i
  {
    if i == |items| then ([], seen)
    else
      var first := RedactValue(g, m, p, items[i], seen);
      UnseenShrinks(g, seen, first.1);
      var rest := RedactItems(g, m, p, items, i + 1, h, first.1);
      ([first.0] + rest.0, rest.1)
  }

  ghost function RedactEntries(g: Graph, m: Measure, p: Policy, entries: seq<Entry>, i: nat, seen: set<Id>): (out: (seq<Field>, set<Id>))
    requires Closed(g) && Ranked(g, m) && Below(g, m, EntryValues(entries), m.top + 1) && i <= |entries|
    ensures seen <= out.1
    decreases |Unseen(g, seen)|, m.top + 1, |entries| - i
  {
    if i == |entries| then ([], seen)
    else
      assert entries[i].value == EntryValues(entries)[i];
      var first := if Sensitive(p, entries[i].key) then (Replaced(p), seen) else RedactValue(g, m, p, entries[i].value, seen);
      UnseenShrinks(g, seen, first.1);
      var rest := RedactEntries(g, m, p, entries, i + 1, first.1);
      (Stored(entries[i].key, first.0) + rest.0, rest.1)
  }

  /** Assigning a property of the new record. */
  function Stored(key: string, t: Tree): seq<Field> {
    if key == PROTO then [] else [Field(key, t)]
  }

  lemma RedactItemsStep(g: Graph, m: Measure, p: Policy, items: seq<Value>, i: nat, h: nat, seen: set<Id>)
    requires Closed(g) && Ranked(g, m) && Below(g, m, items, h) && i < |items|
    ensures var first := RedactValue(g, m, p, items[i], seen);
      var rest := RedactItems(g, m, p, items, i + 1, h, first.1);
      RedactItems(g, m, p, items, i, h, seen) == ([first.0] + rest.0, rest.1)
  {
  }

  lemma RedactEntriesStep(g: Graph, m: Measure, p: Policy, entries: seq<Entry>, i: nat, seen: set<Id>)
    requires Closed(g) && Ranked(g, m) && Below(g, m, EntryValues(entries), m.top + 1) && i < |entries|
    ensures InGraph(g, entries[i].value) && Height(g, m, entries[i].value) < m.top + 1
    ensures var first := if Sensitive(p, entries[i].key) then (Replaced(p), seen) else RedactValue(g, m, p, entries[i].value, seen);
      var rest := RedactEntries(g, m, p, entries, i + 1, first.1);
      RedactEntries(g, m, p, entries, i, seen) == (Stored(entries[i].key, first.0) + rest.0, rest.1)
  {
    assert entries[i].value == EntryValues(entries)[i];
  }

  // ---------------------------------------------------------------- redaction of a tree

  function RedactTree(p: Policy, t: Tree): Tree
    decreases t
  {
    match t
    case Leaf(x) => t
    case Items(items) => Items(RedactTrees(p, items))
    case Fields(fields) => Fields(RedactFields(p, fields))
  }

  function RedactTrees(p: Policy, ts: seq<Tree>): (out: seq<Tree>)
    ensures |out| == |ts|
    decreases ts
  {
    if ts == [] then [] else [RedactTree(p, ts[0])] + RedactTrees(p, ts[1..])
  }

  function RedactFields(p: Policy, fs: seq<Field>): seq<Field>
    decreases fs
  {
    if fs == [] then []
    else Stored(fs[0].key, RedactField(p, fs[0])) + RedactFields(p, fs[1..])
  }

  function RedactField(p: Policy, f: Field): Tree
    decreases f
  {
    if Sensitive(p, f.key) then Replaced(p) else RedactTree(p, f.value)
  }

  /** No sensitive key, at any depth, has a value other than the replacement. */
  predicate Clean(p: Policy, t: Tree)
    decreases t
  {
    match t
    case Leaf(x) => true
    case Items(items) => AllClean(p, items)
    case Fields(fields) => FieldsClean(p, fields)
  }

  predicate AllClean(p: Policy, ts: seq<Tree>)
    decreases ts
  {
    ts == [] || (Clean(p, ts[0]) && AllClean(p, ts[1..]))
  }

  predicate FieldsClean(p: Policy, fs: seq<Field>)
    decreases fs
  {
    fs == [] || (FieldClean(p, fs[0]) && FieldsClean(p, fs[1..]))
  }

  predicate FieldClean(p: Policy, f: Field)
    decreases f
  {
    f.key != PROTO && (if Sensitive(p, f.key) then f.value == Replaced(p) else Clean(p, f.value))
  }

  /** Redaction leaves exactly the clean trees as they are. */
  lemma {:induction false} CleanIffUnchanged(p: Policy, t: Tree)
    ensures Clean(p, t) <==> RedactTree(p, t) == t
    decreases t
  {
    match t
    case Leaf(x) =>
    case Items(items) => AllCleanIffUnchanged(p, items);
    case Fields(fields) => FieldsCleanIffUnchanged(p, fields);
  }

  lemma {:induction false} AllCleanIffUnchanged(p: Policy, ts: seq<Tree>)
    ensures AllClean(p, ts) <==> RedactTrees(p, ts) == ts
    decreases ts
  {
    if ts != [] {
      CleanIffUnchanged(p, ts[0]);
      AllCleanIffUnchanged(p, ts[1..]);
      assert RedactTrees(p, ts)[1..] == RedactTrees(p, ts[1..]);
      assert ts == [ts[0]] + ts[1..];
    }
  }

  lemma {:induction false} FieldsShrink(p: Policy, fs: seq<Field>)
    ensures |RedactFields(p, fs)| <= |fs|
    decreases |fs|
  {
    if fs != [] {
      FieldsShrink(p, fs[1..]);
    }
  }

  lemma {:induction false} FieldsCleanIffUnchanged(p: Policy, fs: seq<Field>)
    ensures FieldsClean(p, fs) <==> RedactFields(p, fs) == fs
    decreases fs
  {
    if fs != [] {
      CleanIffUnchanged(p, fs[0].value);
      FieldsCleanIffUnchanged(p, fs[1..]);
      FieldsShrink(p, fs[1..]);
      if fs[0].key != PROTO {
        assert RedactFields(p, fs)[1..] == RedactFields(p, fs[1..]);
        assert RedactFields(p, fs)[0] == Field(fs[0].key, RedactField(p, fs[0]));
        assert fs == [fs[0]] + fs[1..];
      }
    }
  }

  // ---------------------------------------------------------------- what redaction of a graph gives

  /** Whatever the graph shares and however it loops, the result is clean. */
  lemma {:induction false} RedactedIsClean(g: Graph, m: Measure, p: Policy, v: Value, seen: set<Id>)
    requires Closed(g) && Ranked(g, m) && InGraph(g, v)
    ensures Clean(p, RedactValue(g, m, p, v, seen).0)
    decreases |Unseen(g, seen)|, Height(g, m, v), if IsList(g, v) then |g[v.id].items| + 1 else 0
  {
    if v.Ref? {
      match g[v.id]
      case List(items) =>
        assert forall i :: 0 <= i < |items| && IsList(g, items[i]) ==> items[i].id in Inner(g, v.id);
        RedactedItemsClean(g, m, p, items, 0, Height(g, m, v), seen);
      case Record(entries) =>
        if v.id !in seen {
          UnseenShrinks(g, seen, seen + {v.id});
          RedactedEntriesClean(g, m, p, entries, 0, seen + {v.id});
        }
    }
  }

  lemma {:induction false} RedactedItemsClean(g: Graph, m: Measure, p: Policy, items: seq<Value>, i: nat, h: nat, seen: set<Id>)
    requires Closed(g) && Ranked(g, m) && Below(g, m, items, h) && i <= |items|
    ensures AllClean(p, RedactItems(g, m, p, items, i, h, seen).0)
    decreases |Unseen(g, seen)|, h, |items| - i
  {
    if i < |items| {
      var first := RedactValue(g, m, p, items[i], seen);
      UnseenShrinks(g, seen, first.1);
      RedactedIsClean(g, m, p, items[i], seen);
      RedactedItemsClean(g, m, p, items, i + 1, h, first.1);
      var rest := RedactItems(g, m, p, items, i + 1, h, first.1).0;
      hide RedactValue, Clean;
      assert ([first.0] + rest)[1..] == rest;
    }
  }

  lemma {:induction false} RedactedEntriesClean(g: Graph, m: Measure, p: Policy, entries: seq<Entry>, i: nat, seen: set<Id>)
    requires Closed(g) && Ranked(g, m) && Below(g, m, EntryValues(entries), m.top + 1) && i <= |entries|
    ensures FieldsClean(p, RedactEntries(g, m, p, entries, i, seen).0)
    decreases |Unseen(g, seen)|, m.top + 1, |entries| - i
  {
    if i < |entries| {
      assert entries[i].value == EntryValues(entries)[i];
      var first := if Sensitive(p, entries[i].key) then (Replaced(p), seen) else RedactValue(g, m, p, entries[i].value, seen);
      UnseenShrinks(g, seen, first.1);
      if !Sensitive(p, entries[i].key) {
        RedactedIsClean(g, m, p, entries[i].value, seen);
      }
      RedactedEntriesClean(g, m, p, entries, i + 1, first.1);
      hide RedactValue, Clean, Closed, Ranked, Below;
      StoredClean(p, entries[i].key, first.0, RedactEntries(g, m, p, entries, i + 1, first.1).0);
    }
  }

  lemma StoredClean(p: Policy, key: string, t: Tree, rest: seq<Field>)
    requires FieldsClean(p, rest) && if Sensitive(p, key) then t == Replaced(p) else Clean(p, t)
    ensures FieldsClean(p, Stored(key, t) + rest)
  {
    if key == PROTO {
      assert Stored(key, t) + rest == rest;
    } else {
      assert (Stored(key, t) + rest)[1..] == rest;
    }
  }

  // ---------------------------------------------------------------- paths into a payload

  datatype Step = At(index: nat) | Under(key: string)

  function FieldAt(fs: seq<Field>, key: string): Option<Tree> {
    if fs == [] then None else if fs[0].key == key then Some(fs[0].value) else FieldAt(fs[1..], key)
  }

  function Child(t: Tree, step: Step): Option<Tree> {
    if t.Items? && step.At? && step.index < |t.items| then Some(t.items[step.index])
    else if t.Fields? && step.Under? then FieldAt(t.fields, step.key)
    else None
  }

  function Lookup(t: Tree, path: seq<Step>): Option<Tree>
    decreases |path|
  {
    if path == [] then Some(t)
    else
      var child := Child(t, path[0]);
      if child.None? then None else Lookup(child.value, path[1..])
  }

  /** The step is to an element or to a key that is neither sensitive nor __proto__. */
  predicate Open(p: Policy, step: Step) {
    step.Under? ==> step.key != PROTO && !Sensitive(p, step.key)
  }

  function MapTree(p: Policy, t: Option<Tree>): Option<Tree> {
    if t.None? then None else Some(RedactTree(p, t.value))
  }

  lemma {:induction false} RedactedFieldAt(p: Policy, fs: seq<Field>, key: string)
    ensures FieldAt(RedactFields(p, fs), key)
         == if key == PROTO || FieldAt(fs, key).None? then None
            else if Sensitive(p, key) then Some(Replaced(p)) else MapTree(p, FieldAt(fs, key))
    decreases |fs|
  {
    if fs != [] {
      RedactedFieldAt(p, fs[1..], key);
      var rest := RedactFields(p, fs[1..]);
      if fs[0].key == PROTO {
        assert Stored(fs[0].key, RedactField(p, fs[0])) + rest == rest;
      } else {
        assert RedactFields(p, fs)[1..] == rest;
      }
    }
  }

  lemma {:induction false} RedactedItemAt(p: Policy, ts: seq<Tree>, i: nat)
    requires i < |ts|
    ensures RedactTrees(p, ts)[i] == RedactTree(p, ts[i])
    decreases |ts|
  {
    if i > 0 {
      RedactedItemAt(p, ts[1..], i - 1);
    }
  }

  lemma OpenChild(p: Policy, t: Tree, step: Step)
    requires Open(p, step)
    ensures Child(RedactTree(p, t), step) == MapTree(p, Child(t, step))
  {
    match t
    case Leaf(x) =>
    case Items(items) =>
      if step.At? && step.index < |items| {
        RedactedItemAt(p, items, step.index);
      }
    case Fields(fields) =>
      if step.Under? {
        RedactedFieldAt(p, fields, step.key);
      }
  }

  /**
   * Whatever a path without such keys led to, it leads to the redaction of that; nothing appears
   * where there was nothing, and values survive.
   */
  lemma {:induction false} OpenPathsSurvive(p: Policy, t: Tree, path: seq<Step>)
    requires forall i :: 0 <= i < |path| ==> Open(p, path[i])
    ensures Lookup(RedactTree(p, t), path) == MapTree(p, Lookup(t, path))
    decreases |path|
  {
    if path != [] {
      OpenChild(p, t, path[0]);
      hide RedactTree, Open;
      if Child(t, path[0]).Some? {
        OpenPathsSurvive(p, Child(t, path[0]).value, path[1..]);
      }
    }
  }

  lemma {:induction false} LookupLast(t: Tree, path: seq<Step>, last: Step)
    ensures Lookup(t, path + [last]) == if Lookup(t, path).None? then None else Child(Lookup(t, path).value, last)
    decreases |path|
  {
    if path == [] {
      assert path + [last] == [last] && [last][1..] == [];
    } else {
      assert (path + [last])[1..] == path[1..] + [last];
      if Child(t, path[0]).Some? {
        LookupLast(Child(t, path[0]).value, path[1..], last);
      }
    }
  }

  /** A sensitive key keeps its place and holds the replacement; only a key __proto__ is lost. */
  lemma SensitiveKeysSurvive(p: Policy, t: Tree, path: seq<Step>, key: string)
    requires (forall i :: 0 <= i < |path| ==> Open(p, path[i])) && Sensitive(p, key)
    ensures Lookup(RedactTree(p, t), path + [Under(key)])
         == if key != PROTO && Lookup(t, path + [Under(key)]).Some? then Some(Replaced(p)) else None
  {
    OpenPathsSurvive(p, t, path);
    LookupLast(t, path, Under(key));
    LookupLast(RedactTree(p, t), path, Under(key));
    if Lookup(t, path).Some? && Lookup(t, path).value.Fields? {
      RedactedFieldAt(p, Lookup(t, path).value.fields, key);
    }
    hide Lookup, RedactFields;
  }

  // ---------------------------------------------------------------- the recursion over records and arrays in memory

  /** The set of visited records, shared by all calls. */
  class SeenSet {
    var ids: set<Id>

    constructor ()
      ensures ids == {}
    {
      ids := {};
    }
  }

  method Redact(g: Graph, p: Policy, v: Value, seen: SeenSet, ghost m: Measure) returns (out: Tree)
    requires Closed(g) && Ranked(g, m) && InGraph(g, v)
    modifies seen
    ensures (out, seen.ids) == RedactValue(g, m, p, v, old(seen.ids))
    decreases |Unseen(g, seen.ids)|, Height(g, m, v), if IsList(g, v) then |g[v.id].items| + 1 else 0
  {
    if v.Plain? {
      return Leaf(v.scalar);
    }
    match g[v.id]
    case List(items) =>
      assert forall i :: 0 <= i < |items| && IsList(g, items[i]) ==> items[i].id in Inner(g, v.id);
      var mapped := RedactEach(g, p, items, seen, m, Height(g, m, v));
      out := Items(mapped);
    case Record(entries) =>
      if v.id in seen.ids {
        return Leaf(Text(p.replacement));
      }
      UnseenShrinks(g, seen.ids, seen.ids + {v.id});
      seen.ids := seen.ids + {v.id};
      var fields := RedactProperties(g, p, entries, seen, m);
      out := Fields(fields);
  }

  lemma Regroup<T>(a: seq<T>, b: seq<T>, c: seq<T>)
    ensures a + (b + c) == (a + b) + c && [] + c == c && c + [] == c
  {
  }

  method RedactEach(g: Graph, p: Policy, items: seq<Value>, seen: SeenSet, ghost m: Measure, ghost h: nat) returns (mapped: seq<Tree>)
    requires Closed(g) && Ranked(g, m) && Below(g, m, items, h)
    modifies seen
    ensures (mapped, seen.ids) == RedactItems(g, m, p, items, 0, h, old(seen.ids))
    decreases |Unseen(g, seen.ids)|, h, |items|
  {
    hide RedactValue, Ranked, Closed;
    mapped := [];
    ghost var whole := RedactItems(g, m, p, items, 0, h, seen.ids);
    Regroup([], [], whole.0);
    for i := 0 to |items|
      invariant old(seen.ids) <= seen.ids
      invariant var rest := RedactItems(g, m, p, items, i, h, seen.ids); whole.0 == mapped + rest.0 && whole.1 == rest.1
    {
      UnseenShrinks(g, old(seen.ids), seen.ids);
      RedactItemsStep(g, m, p, items, i, h, seen.ids);
      var item := Redact(g, p, items[i], seen, m);
      Regroup(mapped, [item], RedactItems(g, m, p, items, i + 1, h, seen.ids).0);
      mapped := mapped + [item];
    }
    assert RedactItems(g, m, p, items, |items|, h, seen.ids) == ([], seen.ids);
    Regroup([], [], mapped);
    assert whole == (mapped, seen.ids);
  }

  method RedactProperties(g: Graph, p: Policy, entries: seq<Entry>, seen: SeenSet, ghost m: Measure) returns (redacted: seq<Field>)
    requires Closed(g) && Ranked(g, m) && Below(g, m, EntryValues(entries), m.top + 1)
    modifies seen
    ensures (redacted, seen.ids) == RedactEntries(g, m, p, entries, 0, old(seen.ids))
    decreases |Unseen(g, seen.ids)|, m.top + 1, |entries|
  {
    hide RedactValue, Ranked, Closed, Stored;
    redacted := [];
    ghost var whole := RedactEntries(g, m, p, entries, 0, seen.ids);
    Regroup([], [], whole.0);
    for i := 0 to |entries|
      invariant old(seen.ids) <= seen.ids
      invariant var rest := RedactEntries(g, m, p, entries, i, seen.ids); whole.0 == redacted + rest.0 && whole.1 == rest.1
    {
      var key := entries[i].key;
      UnseenShrinks(g, old(seen.ids), seen.ids);
      RedactEntriesStep(g, m, p, entries, i, seen.ids);
      var nested := Leaf(Text(p.replacement));
      if !Sensitive(p, key) {
        nested := Redact(g, p, entries[i].value, seen, m);
      }
      Regroup(redacted, Stored(key, nested), RedactEntries(g, m, p, entries, i + 1, seen.ids).0);
      redacted := redacted + Stored(key, nested);
    }
    assert RedactEntries(g, m, p, entries, |entries|, seen.ids) == ([], seen.ids);
    Regroup([], [], redacted);
    assert whole == (redacted, seen.ids);
  }
}
