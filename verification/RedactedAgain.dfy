/**
 * Redacting what redaction built. The result is a tree, so in memory it is a payload that shares
 * nothing: every tree is laid out here with ids in postorder, which makes it one.
 */
module RedactedAgain {
  import opened Redaction
  import opened RedactionSharing

  /** Ids lie in the range, and every node refers to nodes of the graph with lower ids. */
  ghost predicate LaidOut(g: Graph, low: nat, high: nat) {
    && (forall id :: id in g ==> low <= id < high)
    && (forall id, i :: id in g && g[id].List? && 0 <= i < |g[id].items| ==> RefersBelow(g, g[id].items[i], id))
    && (forall id, i :: id in g && g[id].Record? && 0 <= i < |g[id].entries| ==> RefersBelow(g, g[id].entries[i].value, id))
  }

  predicate RefersBelow(g: Graph, v: Value, id: Id) {
    v.Ref? ==> v.id in g && v.id < id
  }

  /** The nodes of the one graph are in the other as they are. */
  ghost predicate Extends(g: Graph, h: Graph) {
    forall id :: id in h ==> id in g && g[id] == h[id]
  }

  lemma {:induction false} ExtendsUnfolds(g: Graph, h: Graph, p: Policy, v: Value, t: Tree)
    requires Extends(g, h) && Unfolds(h, v, t)
    ensures Unfolds(g, v, t) && Visits(g, p, v, t) == Visits(h, p, v, t)
    decreases t
  {
    if v.Ref? {
      match h[v.id]
      case List(items) => ExtendsUnfoldsAll(g, h, p, items, 0, t.items);
      case Record(entries) => ExtendsUnfoldsFields(g, h, p, entries, 0, t.fields);
    }
  }

  lemma {:induction false} ExtendsUnfoldsAll(g: Graph, h: Graph, p: Policy, items: seq<Value>, i: nat, ts: seq<Tree>)
    requires Extends(g, h) && i <= |items| && UnfoldsAll(h, items, i, ts)
    ensures UnfoldsAll(g, items, i, ts) && VisitsInItems(g, p, items, i, ts) == VisitsInItems(h, p, items, i, ts)
    decreases ts
  {
    if i < |items| {
      ExtendsUnfolds(g, h, p, items[i], ts[0]);
      ExtendsUnfoldsAll(g, h, p, items, i + 1, ts[1..]);
    }
  }

  lemma {:induction false} ExtendsUnfoldsFields(g: Graph, h: Graph, p: Policy, entries: seq<Entry>, i: nat, fs: seq<Field>)
    requires Extends(g, h) && i <= |entries| && UnfoldsFields(h, entries, i, fs)
    ensures UnfoldsFields(g, entries, i, fs) && VisitsInFields(g, p, entries, i, fs) == VisitsInFields(h, p, entries, i, fs)
    decreases fs
  {
    if i < |entries| {
      ExtendsUnfolds(g, h, p, entries[i].value, fs[0].value);
      ExtendsUnfoldsFields(g, h, p, entries, i + 1, fs[1..]);
    }
  }

  lemma {:induction false} ConsUnfoldsAll(g: Graph, p: Policy, v: Value, items: seq<Value>, i: nat, ts: seq<Tree>)
    requires i <= |items| && UnfoldsAll(g, items, i, ts)
    ensures UnfoldsAll(g, [v] + items, i + 1, ts) && VisitsInItems(g, p, [v] + items, i + 1, ts) == VisitsInItems(g, p, items, i, ts)
    decreases ts
  {
    if i < |items| {
      ConsUnfoldsAll(g, p, v, items, i + 1, ts[1..]);
    }
  }

  lemma {:induction false} ConsUnfoldsFields(g: Graph, p: Policy, e: Entry, entries: seq<Entry>, i: nat, fs: seq<Field>)
    requires i <= |entries| && UnfoldsFields(g, entries, i, fs)
    ensures UnfoldsFields(g, [e] + entries, i + 1, fs)
    ensures VisitsInFields(g, p, [e] + entries, i + 1, fs) == VisitsInFields(g, p, entries, i, fs)
    decreases fs
  {
    if i < |entries| {
      ConsUnfoldsFields(g, p, e, entries, i + 1, fs[1..]);
    }
  }

  lemma SideBySide(g: Graph, h: Graph, low: nat, mid: nat, high: nat)
    requires low <= mid <= high && LaidOut(g, low, mid) && LaidOut(h, mid, high)
    ensures LaidOut(g + h, low, high) && Extends(g + h, g) && Extends(g + h, h)
  {
    var both := g + h;
    assert forall id :: id in g ==> id !in h && both[id] == g[id];
    assert forall id :: id in h ==> both[id] == h[id];
    forall id, i | id in both && both[id].List? && 0 <= i < |both[id].items| ensures RefersBelow(both, both[id].items[i], id) {
      assert id in h ==> RefersBelow(h, h[id].items[i], id);
      assert id in g ==> RefersBelow(g, g[id].items[i], id);
    }
    forall id, i | id in both && both[id].Record? && 0 <= i < |both[id].entries| ensures RefersBelow(both, both[id].entries[i].value, id) {
      assert id in h ==> RefersBelow(h, h[id].entries[i].value, id);
      assert id in g ==> RefersBelow(g, g[id].entries[i].value, id);
    }
  }

  /** A node on top of what it refers to. */
  lemma OnTop(g: Graph, low: nat, high: nat, node: Node)
    requires low <= high && LaidOut(g, low, high)
    requires node.List? ==> forall i :: 0 <= i < |node.items| ==> InGraph(g, node.items[i])
    requires node.Record? ==> forall i :: 0 <= i < |node.entries| ==> InGraph(g, node.entries[i].value)
    ensures LaidOut(g[high := node], low, high + 1) && Extends(g[high := node], g)
  {
    var all := g[high := node];
    assert forall id :: id in g ==> id != high && all[id] == g[id];
    forall id, i | id in all && all[id].List? && 0 <= i < |all[id].items| ensures RefersBelow(all, all[id].items[i], id) {
      assert id in g ==> RefersBelow(g, g[id].items[i], id);
    }
    forall id, i | id in all && all[id].Record? && 0 <= i < |all[id].entries| ensures RefersBelow(all, all[id].entries[i].value, id) {
      assert id in g ==> RefersBelow(g, g[id].entries[i].value, id);
    }
  }

  /** All values are in the graph. */
  predicate AllIn(g: Graph, items: seq<Value>) {
    forall i :: 0 <= i < |items| ==> InGraph(g, items[i])
  }

  /** No id is visited twice, and all lie in the range. */
  ghost predicate Once(vs: seq<Visit>, low: nat, high: nat) {
    && (forall i, j :: 0 <= i < j < |vs| ==> vs[i].id != vs[j].id)
    && (forall i :: 0 <= i < |vs| ==> low <= vs[i].id < high)
  }

  lemma OnceIsFirst(vs: seq<Visit>, low: nat, high: nat)
    requires Once(vs, low, high)
    ensures ShownFirst(vs, {})
  {
  }

  lemma OnceJoins(a: seq<Visit>, b: seq<Visit>, low: nat, mid: nat, high: nat)
    requires low <= mid <= high && Once(a, low, mid) && Once(b, mid, high)
    ensures Once(a + b, low, high)
  {
  }

  lemma OnceHidden(vs: seq<Visit>, low: nat, high: nat)
    requires Once(vs, low, high)
    ensures Once(Hidden(vs), low, high)
  {
  }

  lemma OnceOnTop(vs: seq<Visit>, id: Id, low: nat)
    requires low <= id && Once(vs, low, id)
    ensures Once([Visit(id, true)] + vs, low, id + 1) && Once(vs, low, id + 1)
  {
  }

  // ---------------------------------------------------------------- laying out a tree

  /** The value unfolds to the tree, and under every policy visits each record once. */
  ghost predicate Holds(g: Graph, v: Value, t: Tree, low: nat, high: nat) {
    InGraph(g, v) && Unfolds(g, v, t) && forall p :: Once(Visits(g, p, v, t), low, high)
  }

  ghost predicate HoldsAll(g: Graph, items: seq<Value>, ts: seq<Tree>, low: nat, high: nat) {
    AllIn(g, items) && UnfoldsAll(g, items, 0, ts) && forall p :: Once(VisitsInItems(g, p, items, 0, ts), low, high)
  }

  ghost predicate HoldsFields(g: Graph, entries: seq<Entry>, fs: seq<Field>, low: nat, high: nat) {
    && (forall i :: 0 <= i < |entries| ==> InGraph(g, entries[i].value))
    && UnfoldsFields(g, entries, 0, fs) && forall p :: Once(VisitsInFields(g, p, entries, 0, fs), low, high)
  }

  lemma {:induction false} LayOut(t: Tree, low: nat) returns (g: Graph, v: Value, high: nat)
    ensures low <= high && LaidOut(g, low, high) && Holds(g, v, t, low, high)
    decreases t
  {
    match t
    case Leaf(x) => g, v, high := map[], Plain(x), low;
    case Items(items) =>
      var h, vs, top := LayOutAll(items, low);
      g, v, high := h[top := List(vs)], Ref(top), top + 1;
      OnTop(h, low, top, List(vs));
      ListOnTop(g, h, vs, items, low, top);
    case Fields(fields) =>
      var h, es, top := LayOutFields(fields, low);
      g, v, high := h[top := Record(es)], Ref(top), top + 1;
      OnTop(h, low, top, Record(es));
      RecordOnTop(g, h, es, fields, low, top);
  }

  const NO_POLICY := Policy({}, "", (s: string) => s)

  lemma ListOnTop(g: Graph, h: Graph, vs: seq<Value>, items: seq<Tree>, low: nat, top: nat)
    requires low <= top && Extends(g, h) && top in g && g[top] == List(vs) && HoldsAll(h, vs, items, low, top)
    ensures Holds(g, Ref(top), Items(items), low, top + 1)
  {
    hide Once, Extends;
    ExtendsUnfoldsAll(g, h, NO_POLICY, vs, 0, items);
    forall p ensures Once(Visits(g, p, Ref(top), Items(items)), low, top + 1) {
      ExtendsUnfoldsAll(g, h, p, vs, 0, items);
      OnceOnTop(VisitsInItems(h, p, vs, 0, items), top, low);
    }
  }

  lemma RecordOnTop(g: Graph, h: Graph, es: seq<Entry>, fields: seq<Field>, low: nat, top: nat)
    requires low <= top && Extends(g, h) && top in g && g[top] == Record(es) && HoldsFields(h, es, fields, low, top)
    ensures Holds(g, Ref(top), Fields(fields), low, top + 1)
  {
    hide Once, Extends;
    ExtendsUnfoldsFields(g, h, NO_POLICY, es, 0, fields);
    forall p ensures Once(Visits(g, p, Ref(top), Fields(fields)), low, top + 1) {
      ExtendsUnfoldsFields(g, h, p, es, 0, fields);
      OnceOnTop(VisitsInFields(h, p, es, 0, fields), top, low);
    }
  }

  lemma {:induction false} LayOutAll(ts: seq<Tree>, low: nat) returns (g: Graph, vs: seq<Value>, high: nat)
    ensures low <= high && LaidOut(g, low, high) && HoldsAll(g, vs, ts, low, high)
    decreases ts
  {
    if ts == [] {
      g, vs, high := map[], [], low;
    } else {
      var h, v, mid := LayOut(ts[0], low);
      var k, rest, top := LayOutAll(ts[1..], mid);
      g, vs, high := h + k, [v] + rest, top;
      SideBySide(h, k, low, mid, high);
      ItemsSideBySide(g, h, k, v, rest, ts, low, mid, high);
    }
  }

  lemma ItemsSideBySide(g: Graph, h: Graph, k: Graph, v: Value, rest: seq<Value>, ts: seq<Tree>, low: nat, mid: nat, high: nat)
    requires low <= mid <= high && Extends(g, h) && Extends(g, k) && ts != []
    requires Holds(h, v, ts[0], low, mid) && HoldsAll(k, rest, ts[1..], mid, high)
    ensures HoldsAll(g, [v] + rest, ts, low, high)
  {
    assert AllIn(g, [v] + rest);
    hide Once, Extends;
    ItemsUnfold(g, h, k, NO_POLICY, v, rest, ts);
    forall p ensures Once(VisitsInItems(g, p, [v] + rest, 0, ts), low, high) {
      ItemsUnfold(g, h, k, p, v, rest, ts);
      OnceJoins(Visits(h, p, v, ts[0]), VisitsInItems(k, p, rest, 0, ts[1..]), low, mid, high);
    }
  }

  lemma ItemsUnfold(g: Graph, h: Graph, k: Graph, p: Policy, v: Value, rest: seq<Value>, ts: seq<Tree>)
    requires Extends(g, h) && Extends(g, k) && ts != [] && Unfolds(h, v, ts[0]) && UnfoldsAll(k, rest, 0, ts[1..])
    ensures UnfoldsAll(g, [v] + rest, 0, ts)
    ensures VisitsInItems(g, p, [v] + rest, 0, ts) == Visits(h, p, v, ts[0]) + VisitsInItems(k, p, rest, 0, ts[1..])
  {
    ExtendsUnfolds(g, h, p, v, ts[0]);
    ExtendsUnfoldsAll(g, k, p, rest, 0, ts[1..]);
    ConsUnfoldsAll(g, p, v, rest, 0, ts[1..]);
    assert ([v] + rest)[0] == v;
  }

  lemma {:induction false} LayOutFields(fs: seq<Field>, low: nat) returns (g: Graph, es: seq<Entry>, high: nat)
    ensures low <= high && LaidOut(g, low, high) && HoldsFields(g, es, fs, low, high)
    decreases fs
  {
    if fs == [] {
      g, es, high := map[], [], low;
    } else {
      var h, v, mid := LayOutField(fs[0], low);
      var k, rest, top := LayOutFields(fs[1..], mid);
      g, es, high := h + k, [Entry(fs[0].key, v)] + rest, top;
      SideBySide(h, k, low, mid, high);
      FieldsSideBySide(g, h, k, v, rest, fs, low, mid, high);
    }
  }

  lemma {:induction false} LayOutField(f: Field, low: nat) returns (g: Graph, v: Value, high: nat)
    ensures low <= high && LaidOut(g, low, high) && Holds(g, v, f.value, low, high)
    decreases f
  {
    g, v, high := LayOut(f.value, low);
  }

  lemma OnceInField(g: Graph, p: Policy, e: Entry, f: Field, low: nat, high: nat)
    requires UnfoldsField(g, e, f) && Once(Visits(g, p, e.value, f.value), low, high)
    ensures Once(VisitsInField(g, p, e, f), low, high)
  {
    OnceHidden(Visits(g, p, e.value, f.value), low, high);
  }

  lemma FieldsSideBySide(g: Graph, h: Graph, k: Graph, v: Value, rest: seq<Entry>, fs: seq<Field>, low: nat, mid: nat, high: nat)
    requires low <= mid <= high && Extends(g, h) && Extends(g, k) && fs != []
    requires Holds(h, v, fs[0].value, low, mid) && HoldsFields(k, rest, fs[1..], mid, high)
    ensures HoldsFields(g, [Entry(fs[0].key, v)] + rest, fs, low, high)
  {
    var e := Entry(fs[0].key, v);
    var es := [e] + rest;
    assert forall i :: 0 <= i < |es| ==> InGraph(g, es[i].value);
    hide Once, Extends;
    FieldsUnfold(g, h, k, NO_POLICY, e, rest, fs);
    forall p ensures Once(VisitsInFields(g, p, es, 0, fs), low, high) {
      FieldsUnfold(g, h, k, p, e, rest, fs);
      OnceInField(g, p, e, fs[0], low, mid);
      OnceJoins(VisitsInField(g, p, e, fs[0]), VisitsInFields(k, p, rest, 0, fs[1..]), low, mid, high);
    }
  }

  lemma FieldsUnfold(g: Graph, h: Graph, k: Graph, p: Policy, e: Entry, rest: seq<Entry>, fs: seq<Field>)
    requires Extends(g, h) && Extends(g, k) && fs != [] && e.key == fs[0].key
    requires Unfolds(h, e.value, fs[0].value) && UnfoldsFields(k, rest, 0, fs[1..])
    ensures UnfoldsField(g, e, fs[0]) && Visits(g, p, e.value, fs[0].value) == Visits(h, p, e.value, fs[0].value)
    ensures UnfoldsFields(g, [e] + rest, 0, fs)
    ensures VisitsInFields(g, p, [e] + rest, 0, fs) == VisitsInField(g, p, e, fs[0]) + VisitsInFields(k, p, rest, 0, fs[1..])
  {
    ExtendsUnfolds(g, h, p, e.value, fs[0].value);
    ExtendsUnfoldsFields(g, k, p, rest, 0, fs[1..]);
    ConsUnfoldsFields(g, p, e, rest, 0, fs[1..]);
    assert ([e] + rest)[0] == e;
  }

  /** A layout is closed, and the ids themselves rank its arrays. */
  lemma LayoutIsRanked(g: Graph, high: nat)
    requires LaidOut(g, 0, high)
    ensures Closed(g) && Ranked(g, Measure(map id | id in g :: id, high))
  {
    forall id: Id, b: Id | IsArray(g, id) && b in Inner(g, id) ensures b in g && b < id {
      var i :| 0 <= i < |g[id].items| && IsList(g, g[id].items[i]) && g[id].items[i].id == b;
      assert RefersBelow(g, g[id].items[i], id);
    }
    assert forall id, i :: id in g && g[id].List? && 0 <= i < |g[id].items| ==> RefersBelow(g, g[id].items[i], id);
    assert forall id, i :: id in g && g[id].Record? && 0 <= i < |g[id].entries| ==> RefersBelow(g, g[id].entries[i].value, id);
    hide Inner;
  }

  // ---------------------------------------------------------------- redacting again

  /** Redacting a payload that unfolds to what redaction built, and shares nothing, changes nothing. */
  lemma RedactingTwiceIsRedactingOnce(g: Graph, m: Measure, p: Policy, v: Value, h: Graph, n: Measure, w: Value)
    requires Closed(g) && Ranked(g, m) && InGraph(g, v)
    requires Closed(h) && Ranked(h, n) && InGraph(h, w) && Unfolds(h, w, RedactValue(g, m, p, v, {}).0)
    requires ShownFirst(Visits(h, p, w, RedactValue(g, m, p, v, {}).0), {})
    ensures RedactValue(h, n, p, w, {}).0 == RedactValue(g, m, p, v, {}).0
  {
    var out := RedactValue(g, m, p, v, {}).0;
    RedactedIsClean(g, m, p, v, {});
    CleanIffUnchanged(p, out);
    TreesAreRedacted(h, n, p, w, out);
  }

  /** What redaction built is such a payload: it can be redacted again, which gives the same. */
  lemma ResultIsPayload(g: Graph, m: Measure, p: Policy, v: Value) returns (h: Graph, n: Measure, w: Value)
    requires Closed(g) && Ranked(g, m) && InGraph(g, v)
    ensures Closed(h) && Ranked(h, n) && InGraph(h, w) && Unfolds(h, w, RedactValue(g, m, p, v, {}).0)
    ensures RedactValue(h, n, p, w, {}).0 == RedactValue(g, m, p, v, {}).0
  {
    var out, high := RedactValue(g, m, p, v, {}).0, 0;
    h, w, high := LayOut(out, 0);
    n := Measure(map id | id in h :: id, high);
    LayoutIsRanked(h, high);
    OnceIsFirst(Visits(h, p, w, out), 0, high);
    RedactingTwiceIsRedactingOnce(g, m, p, v, h, n, w);
  }
}
