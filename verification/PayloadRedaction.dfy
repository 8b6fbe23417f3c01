/**
 * Redaction of a whole payload, stated on what the configuration lists: whatever a listed name
 * holds is replaced, at every depth, and everything else arrives as it was.
 */
module PayloadRedaction {
  import opened Options
  import opened Redaction
  import opened RedactionSharing

  // ---------------------------------------------------------------- the whole payload

  function NormalizeFieldSet(fields: seq<string>, trim: string -> string, lower: string -> string): set<string> {
    set i | 0 <= i < |fields| && lower(trim(fields[i])) != "" :: lower(trim(fields[i]))
  }

  /** The payload itself, or a redacted copy of it. */
  datatype Payload = Original(value: Value) | Copy(tree: Tree)

  /** The key is one of the listed names, up to case and white space around the listed one. */
  predicate Listed(key: string, fields: seq<string>, trim: string -> string, lower: string -> string) {
    exists i :: 0 <= i < |fields| && lower(trim(fields[i])) != "" && lower(key) == lower(trim(fields[i]))
  }

  // ---------------------------------------------------------------- nothing listed is left

  /** The tree has the field, at some depth. */
  predicate HasField(t: Tree, f: Field)
    decreases t
  {
    match t
    case Leaf(x) => false
    case Items(items) => exists i :: 0 <= i < |items| && HasField(items[i], f)
    case Fields(fields) => exists i :: 0 <= i < |fields| && (fields[i] == f || HasFieldBelow(fields[i], f))
  }

  predicate HasFieldBelow(f: Field, g: Field)
    decreases f
  {
    HasField(f.value, g)
  }

  lemma {:induction false} CleanFields(p: Policy, t: Tree, f: Field)
    requires Clean(p, t) && HasField(t, f)
    ensures FieldClean(p, f)
    decreases t
  {
    match t
    case Leaf(x) =>
    case Items(items) =>
      var i :| 0 <= i < |items| && HasField(items[i], f);
      AllCleanAt(p, items, i);
      CleanFields(p, items[i], f);
    case Fields(fields) =>
      var i :| 0 <= i < |fields| && (fields[i] == f || HasFieldBelow(fields[i], f));
      FieldsCleanAt(p, fields, i);
      if fields[i] != f {
        ReplacedHasNothing(p, fields[i], f);
        CleanFields(p, fields[i].value, f);
      }
  }

  lemma ReplacedHasNothing(p: Policy, f: Field, g: Field)
    requires FieldClean(p, f) && HasFieldBelow(f, g)
    ensures Clean(p, f.value) && HasField(f.value, g)
  {
    hide Clean;
  }

  lemma {:induction false} AllCleanAt(p: Policy, ts: seq<Tree>, i: nat)
    requires AllClean(p, ts) && i < |ts|
    ensures Clean(p, ts[i])
    decreases |ts|
  {
    if i > 0 {
      AllCleanAt(p, ts[1..], i - 1);
    }
  }

  lemma {:induction false} FieldsCleanAt(p: Policy, fs: seq<Field>, i: nat)
    requires FieldsClean(p, fs) && i < |fs|
    ensures FieldClean(p, fs[i])
    decreases |fs|
  {
    if i > 0 {
      FieldsCleanAt(p, fs[1..], i - 1);
    }
  }

  lemma SensitiveIffListed(key: string, fields: seq<string>, replacement: string, trim: string -> string, lower: string -> string)
    ensures Sensitive(Policy(NormalizeFieldSet(fields, trim, lower), replacement, lower), key) <==> Listed(key, fields, trim, lower)
  {
  }

  /** No listed key, at any depth, holds anything but the replacement. */
  ghost predicate NothingListedLeft(t: Tree, replacement: string, fields: seq<string>, trim: string -> string, lower: string -> string) {
    forall f :: HasField(t, f) && Listed(f.key, fields, trim, lower) ==> f.value == Leaf(Text(replacement))
  }

  lemma NothingListed(p: Policy, t: Tree, fields: seq<string>, trim: string -> string)
    requires Clean(p, t) && p.names == NormalizeFieldSet(fields, trim, p.lower)
    ensures NothingListedLeft(t, p.replacement, fields, trim, p.lower)
  {
    forall f | HasField(t, f) && Listed(f.key, fields, trim, p.lower) ensures f.value == Leaf(Text(p.replacement)) {
      CleanFields(p, t, f);
      SensitiveIffListed(f.key, fields, p.replacement, trim, p.lower);
    }
  }

  // ---------------------------------------------------------------- everything else arrives

  /** The records in the payload, once for each path that leads to them. */
  ghost function RecordsIn(g: Graph, v: Value, t: Tree): seq<Id>
    requires Unfolds(g, v, t)
    decreases t
  {
    match v
    case Plain(x) => []
    case Ref(id) =>
      match g[id]
      case List(items) => RecordsInItems(g, items, 0, t.items)
      case Record(entries) => [id] + RecordsInFields(g, entries, 0, t.fields)
  }

  ghost function RecordsInItems(g: Graph, items: seq<Value>, i: nat, ts: seq<Tree>): seq<Id>
    requires i <= |items| && UnfoldsAll(g, items, i, ts)
    decreases ts
  {
    if i == |items| then [] else RecordsIn(g, items[i], ts[0]) + RecordsInItems(g, items, i + 1, ts[1..])
  }

  ghost function RecordsInFields(g: Graph, entries: seq<Entry>, i: nat, fs: seq<Field>): seq<Id>
    requires i <= |entries| && UnfoldsFields(g, entries, i, fs)
    decreases fs
  {
    if i == |entries| then [] else RecordsInField(g, entries[i], fs[0]) + RecordsInFields(g, entries, i + 1, fs[1..])
  }

  ghost function RecordsInField(g: Graph, e: Entry, f: Field): seq<Id>
    requires UnfoldsField(g, e, f)
    decreases f
  {
    RecordsIn(g, e.value, f.value)
  }

  ghost predicate Unshared(ids: seq<Id>) {
    forall i, j :: 0 <= i < j < |ids| ==> ids[i] != ids[j]
  }

  function IdSet(ids: seq<Id>): set<Id> {
    set i | 0 <= i < |ids| :: ids[i]
  }

  lemma UnsharedSplits(a: seq<Id>, b: seq<Id>)
    requires Unshared(a + b)
    ensures Unshared(a) && Unshared(b) && IdSet(a) !! IdSet(b) && IdSet(a + b) == IdSet(a) + IdSet(b)
  {
    var c := a + b;
    assert forall i :: 0 <= i < |a| ==> c[i] == a[i];
    assert forall i :: 0 <= i < |b| ==> c[|a| + i] == b[i];
    forall i, j | 0 <= i < j < |b| ensures b[i] != b[j] {
      assert c[|a| + i] != c[|a| + j];
    }
  }

  /** The visits are of records in the payload, none of them twice. */
  ghost predicate VisitsOnce(vs: seq<Visit>, ids: seq<Id>, seen: set<Id>) {
    Ids(vs) <= IdSet(ids) && (IdSet(ids) !! seen ==> ShownFirst(vs, seen))
  }

  lemma VisitsOnceJoins(a: seq<Visit>, b: seq<Visit>, x: seq<Id>, y: seq<Id>, seen: set<Id>)
    requires Unshared(x + y) && VisitsOnce(a, x, seen) && VisitsOnce(b, y, seen + Ids(a))
    ensures VisitsOnce(a + b, x + y, seen)
  {
    UnsharedSplits(x, y);
    IdsOfBoth(a, b);
    ShownFirstSplits(a, b, seen);
    hide Ids, IdSet, ShownFirst, Unshared;
  }

  lemma {:induction false} VisitedOnce(g: Graph, p: Policy, v: Value, t: Tree, seen: set<Id>)
    requires Unfolds(g, v, t) && Unshared(RecordsIn(g, v, t))
    ensures VisitsOnce(Visits(g, p, v, t), RecordsIn(g, v, t), seen)
    decreases t
  {
    if v.Ref? {
      match g[v.id]
      case List(items) => ItemsVisitedOnce(g, p, items, 0, t.items, seen);
      case Record(entries) =>
        var rest, below := VisitsInFields(g, p, entries, 0, t.fields), RecordsInFields(g, entries, 0, t.fields);
        UnsharedSplits([v.id], below);
        IdsOfOne(v.id, true, seen);
        assert IdSet([v.id]) == {v.id} by { assert [v.id][0] == v.id; }
        hide Ids, IdSet, ShownFirst, Unshared;
        FieldsVisitedOnce(g, p, entries, 0, t.fields, seen + {v.id});
        VisitsOnceJoins([Visit(v.id, true)], rest, [v.id], below, seen);
    }
  }

  lemma {:induction false} ItemsVisitedOnce(g: Graph, p: Policy, items: seq<Value>, i: nat, ts: seq<Tree>, seen: set<Id>)
    requires i <= |items| && UnfoldsAll(g, items, i, ts) && Unshared(RecordsInItems(g, items, i, ts))
    ensures VisitsOnce(VisitsInItems(g, p, items, i, ts), RecordsInItems(g, items, i, ts), seen)
    decreases ts
  {
    if i < |items| {
      var first, rest := Visits(g, p, items[i], ts[0]), VisitsInItems(g, p, items, i + 1, ts[1..]);
      var x, y := RecordsIn(g, items[i], ts[0]), RecordsInItems(g, items, i + 1, ts[1..]);
      UnsharedSplits(x, y);
      hide Ids, IdSet, ShownFirst, Unshared, VisitsOnce;
      VisitedOnce(g, p, items[i], ts[0], seen);
      ItemsVisitedOnce(g, p, items, i + 1, ts[1..], seen + Ids(first));
      VisitsOnceJoins(first, rest, x, y, seen);
    }
  }

  lemma {:induction false} FieldsVisitedOnce(g: Graph, p: Policy, entries: seq<Entry>, i: nat, fs: seq<Field>, seen: set<Id>)
    requires i <= |entries| && UnfoldsFields(g, entries, i, fs) && Unshared(RecordsInFields(g, entries, i, fs))
    ensures VisitsOnce(VisitsInFields(g, p, entries, i, fs), RecordsInFields(g, entries, i, fs), seen)
    decreases fs
  {
    if i < |entries| {
      var first, rest := VisitsInField(g, p, entries[i], fs[0]), VisitsInFields(g, p, entries, i + 1, fs[1..]);
      var x, y := RecordsInField(g, entries[i], fs[0]), RecordsInFields(g, entries, i + 1, fs[1..]);
      UnsharedSplits(x, y);
      FieldVisitedOnce(g, p, entries[i], fs[0], seen);
      hide Ids, IdSet, ShownFirst, Unshared, VisitsOnce;
      FieldsVisitedOnce(g, p, entries, i + 1, fs[1..], seen + Ids(first));
      VisitsOnceJoins(first, rest, x, y, seen);
    }
  }

  lemma {:induction false} FieldVisitedOnce(g: Graph, p: Policy, e: Entry, f: Field, seen: set<Id>)
    requires UnfoldsField(g, e, f) && Unshared(RecordsInField(g, e, f))
    ensures VisitsOnce(VisitsInField(g, p, e, f), RecordsInField(g, e, f), seen)
    decreases f
  {
    VisitedOnce(g, p, e.value, f.value, seen);
    NothingSeen(seen);
    IdsOfHidden(Visits(g, p, e.value, f.value), seen);
    hide Visits;
  }

  /** The step is to an element, or to a key that is neither listed nor __proto__. */
  predicate Passed(step: Step, fields: seq<string>, trim: string -> string, lower: string -> string) {
    step.Under? ==> step.key != "__proto__" && !Listed(step.key, fields, trim, lower)
  }

  /**
   * At the end of the path the copy has a scalar exactly where the payload has that one, and
   * something exactly where the payload has something; a listed key there holds the replacement.
   */
  ghost predicate ArrivesAt(path: seq<Step>, before: Tree, after: Tree, replacement: string, fields: seq<string>,
                            trim: string -> string, lower: string -> string) {
    && (forall x :: Lookup(after, path) == Some(Leaf(x)) <==> Lookup(before, path) == Some(Leaf(x)))
    && (Lookup(after, path).Some? <==> Lookup(before, path).Some?)
    && (forall key :: Listed(key, fields, trim, lower) && key != "__proto__" && Lookup(before, path + [Under(key)]).Some? ==>
          Lookup(after, path + [Under(key)]) == Some(Leaf(Text(replacement))))
  }

  ghost predicate Arrives(before: Tree, after: Tree, replacement: string, fields: seq<string>, trim: string -> string, lower: string -> string) {
    forall path: seq<Step> :: (forall i :: 0 <= i < |path| ==> Passed(path[i], fields, trim, lower)) ==>
      ArrivesAt(path, before, after, replacement, fields, trim, lower)
  }

  lemma RedactedArrivesAt(p: Policy, t: Tree, path: seq<Step>, fields: seq<string>, trim: string -> string)
    requires p.names == NormalizeFieldSet(fields, trim, p.lower)
    requires forall i :: 0 <= i < |path| ==> Passed(path[i], fields, trim, p.lower)
    ensures ArrivesAt(path, t, RedactTree(p, t), p.replacement, fields, trim, p.lower)
  {
    forall key ensures Sensitive(p, key) <==> Listed(key, fields, trim, p.lower) {
      SensitiveIffListed(key, fields, p.replacement, trim, p.lower);
    }
    hide Sensitive, Listed, Lookup, RedactTree, NormalizeFieldSet;
    assert forall i :: 0 <= i < |path| ==> Open(p, path[i]) by {
      forall i | 0 <= i < |path| ensures Open(p, path[i]) { assert Passed(path[i], fields, trim, p.lower); }
    }
    OpenPathsSurvive(p, t, path);
    LeafIffLeaf(p, t, path);
    forall key | Listed(key, fields, trim, p.lower) && key != "__proto__" && Lookup(t, path + [Under(key)]).Some?
      ensures Lookup(RedactTree(p, t), path + [Under(key)]) == Some(Leaf(Text(p.replacement)))
    {
      SensitiveKeysSurvive(p, t, path, key);
    }
  }

  lemma UnsharedArrives(g: Graph, m: Measure, v: Value, t: Tree, replacement: string, fields: seq<string>,
                        trim: string -> string, lower: string -> string)
    requires Closed(g) && Ranked(g, m) && InGraph(g, v) && Unfolds(g, v, t) && Unshared(RecordsIn(g, v, t))
    ensures var p := Policy(NormalizeFieldSet(fields, trim, lower), replacement, lower);
      Arrives(t, RedactValue(g, m, p, v, {}).0, replacement, fields, trim, lower)
  {
    var p := Policy(NormalizeFieldSet(fields, trim, lower), replacement, lower);
    VisitedOnce(g, p, v, t, {});
    TreesAreRedacted(g, m, p, v, t);
    hide Sensitive, Listed, Lookup, RedactValue, RedactTree, ArrivesAt, Passed, NormalizeFieldSet;
    forall path: seq<Step> | forall i :: 0 <= i < |path| ==> Passed(path[i], fields, trim, lower)
      ensures ArrivesAt(path, t, RedactTree(p, t), replacement, fields, trim, lower)
    {
      RedactedArrivesAt(p, t, path, fields, trim);
    }
  }

  lemma LeafIffLeaf(p: Policy, t: Tree, path: seq<Step>)
    requires Lookup(RedactTree(p, t), path) == MapTree(p, Lookup(t, path))
    ensures forall x :: Lookup(RedactTree(p, t), path) == Some(Leaf(x)) <==> Lookup(t, path) == Some(Leaf(x))
    ensures Lookup(RedactTree(p, t), path).Some? <==> Lookup(t, path).Some?
  {
    hide Lookup;
  }

  // ---------------------------------------------------------------- the payload

  /**
   * Disabled or without a name to look for, the payload goes through. Otherwise a copy does: no
   * listed key of it holds anything else than the replacement, and if no record of the payload is
   * shared, everything else is as it was.
   */
  method RedactPayload(g: Graph, v: Value, enabled: bool, replacement: string, fields: seq<string>,
                       trim: string -> string, lower: string -> string, ghost m: Measure) returns (out: Payload)
    requires Closed(g) && Ranked(g, m) && InGraph(g, v)
    ensures out.Original? <==> !enabled || forall i :: 0 <= i < |fields| ==> lower(trim(fields[i])) == ""
    ensures out.Original? ==> out.value == v
    ensures out.Copy? ==> var p := Policy(NormalizeFieldSet(fields, trim, lower), replacement, lower);
      out.tree == RedactValue(g, m, p, v, {}).0 && Clean(p, out.tree)
    ensures out.Copy? ==> NothingListedLeft(out.tree, replacement, fields, trim, lower)
    ensures out.Copy? ==>
      forall t :: Unfolds(g, v, t) && Unshared(RecordsIn(g, v, t)) ==> Arrives(t, out.tree, replacement, fields, trim, lower)
  {
    if !enabled {
      return Original(v);
    }
    var names := NormalizeFieldSet(fields, trim, lower);
    if names == {} {
      assert forall i :: 0 <= i < |fields| && lower(trim(fields[i])) != "" ==> lower(trim(fields[i])) in names;
      return Original(v);
    }
    var p := Policy(names, replacement, lower);
    var seen := new SeenSet();
    var tree := Redact(g, p, v, seen, m);
    RedactedIsClean(g, m, p, v, {});
    out := Copy(tree);
    NothingListed(p, tree, fields, trim);
    forall t | Unfolds(g, v, t) && Unshared(RecordsIn(g, v, t)) ensures Arrives(t, tree, replacement, fields, trim, lower) {
      UnsharedArrives(g, m, v, t, replacement, fields, trim, lower);
    }
  }
}
