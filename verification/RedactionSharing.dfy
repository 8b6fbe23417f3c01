/**
 * Redaction of payloads that share nodes. A record is replaced when it has been visited before,
 * wherever that was: shown in the result, or below a key __proto__ that the result loses. The
 * lemmas say when this is the redaction of the tree that the payload unfolds to, and that
 * redacting what redaction built changes nothing.
 */
module RedactionSharing {
  import opened Redaction

  // ---------------------------------------------------------------- payloads with sharing

  /** The value unfolds to the tree; nodes may be shared. */
  ghost predicate Unfolds(g: Graph, v: Value, t: Tree)
    decreases t
  {
    match v
    case Plain(x) => t == Leaf(x)
    case Ref(id) =>
      id in g &&
      match g[id]
      case List(items) => t.Items? && UnfoldsAll(g, items, 0, t.items)
      case Record(entries) => t.Fields? && UnfoldsFields(g, entries, 0, t.fields)
  }

  ghost predicate UnfoldsAll(g: Graph, items: seq<Value>, i: nat, ts: seq<Tree>)
    requires i <= |items|
    decreases ts
  {
    if i == |items| then ts == []
    else ts != [] && Unfolds(g, items[i], ts[0]) && UnfoldsAll(g, items, i + 1, ts[1..])
  }

  ghost predicate UnfoldsFields(g: Graph, entries: seq<Entry>, i: nat, fs: seq<Field>)
    requires i <= |entries|
    decreases fs
  {
    if i == |entries| then fs == []
    else fs != [] && UnfoldsField(g, entries[i], fs[0]) && UnfoldsFields(g, entries, i + 1, fs[1..])
  }

  ghost predicate UnfoldsField(g: Graph, e: Entry, f: Field)
    decreases f
  {
    f.key == e.key && Unfolds(g, e.value, f.value)
  }

  /** A visit of a record, and whether the result shows what it gives. */
  datatype Visit = Visit(id: Id, shown: bool)

  /** The records visited along paths without sensitive keys, once for each such path, in order. */
  ghost function Visits(g: Graph, p: Policy, v: Value, t: Tree): seq<Visit>
    requires Unfolds(g, v, t)
    decreases t
  {
    match v
    case Plain(x) => []
    case Ref(id) =>
      match g[id]
      case List(items) => VisitsInItems(g, p, items, 0, t.items)
      case Record(entries) => [Visit(id, true)] + VisitsInFields(g, p, entries, 0, t.fields)
  }

  ghost function VisitsInItems(g: Graph, p: Policy, items: seq<Value>, i: nat, ts: seq<Tree>): seq<Visit>
    requires i <= |items| && UnfoldsAll(g, items, i, ts)
    decreases ts
  {
    if i == |items| then []
    else Visits(g, p, items[i], ts[0]) + VisitsInItems(g, p, items, i + 1, ts[1..])
  }

  ghost function VisitsInFields(g: Graph, p: Policy, entries: seq<Entry>, i: nat, fs: seq<Field>): seq<Visit>
    requires i <= |entries| && UnfoldsFields(g, entries, i, fs)
    decreases fs
  {
    if i == |entries| then []
    else VisitsInField(g, p, entries[i], fs[0]) + VisitsInFields(g, p, entries, i + 1, fs[1..])
  }

  ghost function VisitsInField(g: Graph, p: Policy, e: Entry, f: Field): seq<Visit>
    requires UnfoldsField(g, e, f)
    decreases f
  {
    if Sensitive(p, e.key) then []
    else if e.key == PROTO then Hidden(Visits(g, p, e.value, f.value))
    else Visits(g, p, e.value, f.value)
  }

  function Hidden(vs: seq<Visit>): seq<Visit> {
    seq(|vs|, i requires 0 <= i < |vs| => Visit(vs[i].id, false))
  }

  function Ids(vs: seq<Visit>): set<Id> {
    set i | 0 <= i < |vs| :: vs[i].id
  }

  /** Every record that is shown is visited there for the first time. */
  ghost predicate ShownFirst(vs: seq<Visit>, seen: set<Id>) {
    forall j :: 0 <= j < |vs| && vs[j].shown ==> vs[j].id !in seen && forall i :: 0 <= i < j ==> vs[i].id != vs[j].id
  }

  lemma ShownFirstSplits(a: seq<Visit>, b: seq<Visit>, seen: set<Id>)
    ensures ShownFirst(a + b, seen) <==> ShownFirst(a, seen) && ShownFirst(b, seen + Ids(a))
  {
    var c := a + b;
    assert forall i :: 0 <= i < |a| ==> c[i] == a[i];
    assert forall i :: 0 <= i < |b| ==> c[|a| + i] == b[i];
    if ShownFirst(c, seen) {
      forall j | 0 <= j < |b| && b[j].shown ensures b[j].id !in seen + Ids(a) && forall i :: 0 <= i < j ==> b[i].id != b[j].id {
        assert c[|a| + j] == b[j];
        forall i | 0 <= i < j ensures b[i].id != b[j].id {
          assert c[|a| + i] == b[i];
        }
      }
    }
  }

  lemma IdsOfBoth(a: seq<Visit>, b: seq<Visit>)
    ensures Ids(a + b) == Ids(a) + Ids(b)
  {
    var c := a + b;
    assert forall i :: 0 <= i < |a| ==> c[i] == a[i];
    assert forall i :: 0 <= i < |b| ==> c[|a| + i] == b[i];
  }

  lemma IdsOfOne(id: Id, shown: bool, seen: set<Id>)
    ensures Ids([Visit(id, shown)]) == {id} && (ShownFirst([Visit(id, shown)], seen) <==> !shown || id !in seen)
  {
    assert [Visit(id, shown)][0].id == id;
  }

  lemma IdsOfHidden(vs: seq<Visit>, seen: set<Id>)
    ensures Ids(Hidden(vs)) == Ids(vs) && ShownFirst(Hidden(vs), seen)
  {
    assert forall i :: 0 <= i < |vs| ==> Hidden(vs)[i].id == vs[i].id;
  }

  // ---------------------------------------------------------------- a record does not contain itself

  lemma {:induction false} UnfoldsToOne(g: Graph, v: Value, t: Tree, u: Tree)
    requires Unfolds(g, v, t) && Unfolds(g, v, u)
    ensures t == u
    decreases t
  {
    if v.Ref? {
      match g[v.id]
      case List(items) => UnfoldsAllToOne(g, items, 0, t.items, u.items);
      case Record(entries) => UnfoldsFieldsToOne(g, entries, 0, t.fields, u.fields);
    }
  }

  lemma {:induction false} UnfoldsAllToOne(g: Graph, items: seq<Value>, i: nat, ts: seq<Tree>, us: seq<Tree>)
    requires i <= |items| && UnfoldsAll(g, items, i, ts) && UnfoldsAll(g, items, i, us)
    ensures ts == us
    decreases ts
  {
    if i < |items| {
      UnfoldsToOne(g, items[i], ts[0], us[0]);
      UnfoldsAllToOne(g, items, i + 1, ts[1..], us[1..]);
      assert ts == [ts[0]] + ts[1..] && us == [us[0]] + us[1..];
    }
  }

  lemma {:induction false} UnfoldsFieldsToOne(g: Graph, entries: seq<Entry>, i: nat, fs: seq<Field>, us: seq<Field>)
    requires i <= |entries| && UnfoldsFields(g, entries, i, fs) && UnfoldsFields(g, entries, i, us)
    ensures fs == us
    decreases fs
  {
    if i < |entries| {
      UnfoldsToOne(g, entries[i].value, fs[0].value, us[0].value);
      UnfoldsFieldsToOne(g, entries, i + 1, fs[1..], us[1..]);
      assert fs == [fs[0]] + fs[1..] && us == [us[0]] + us[1..];
    }
  }

  function Size(t: Tree): nat
    decreases t
  {
    match t
    case Leaf(x) => 1
    case Items(items) => 1 + SizeOfAll(items)
    case Fields(fields) => 1 + SizeOfFields(fields)
  }

  function SizeOfAll(ts: seq<Tree>): nat
    decreases ts
  {
    if ts == [] then 0 else Size(ts[0]) + SizeOfAll(ts[1..])
  }

  function SizeOfFields(fs: seq<Field>): nat
    decreases fs
  {
    if fs == [] then 0 else SizeOfField(fs[0]) + SizeOfFields(fs[1..])
  }

  function SizeOfField(f: Field): nat
    decreases f
  {
    Size(f.value)
  }

  ghost predicate UnfoldsWithin(g: Graph, id: Id, n: nat) {
    exists s :: Unfolds(g, Ref(id), s) && Size(s) <= n
  }

  lemma {:induction false} VisitedWithin(g: Graph, p: Policy, v: Value, t: Tree, id: Id)
    requires Unfolds(g, v, t) && id in Ids(Visits(g, p, v, t))
    ensures UnfoldsWithin(g, id, Size(t))
    decreases t
  {
    if v.Ref? {
      match g[v.id]
      case List(items) => VisitedWithinItems(g, p, items, 0, t.items, id);
      case Record(entries) =>
        IdsOfBoth([Visit(v.id, true)], VisitsInFields(g, p, entries, 0, t.fields));
        IdsOfOne(v.id, true, {});
        hide Ids;
        if id != v.id {
          VisitedWithinFields(g, p, entries, 0, t.fields, id);
        }
    }
  }

  lemma {:induction false} VisitedWithinItems(g: Graph, p: Policy, items: seq<Value>, i: nat, ts: seq<Tree>, id: Id)
    requires i <= |items| && UnfoldsAll(g, items, i, ts) && id in Ids(VisitsInItems(g, p, items, i, ts))
    ensures UnfoldsWithin(g, id, SizeOfAll(ts))
    decreases ts
  {
    if i < |items| {
      IdsOfBoth(Visits(g, p, items[i], ts[0]), VisitsInItems(g, p, items, i + 1, ts[1..]));
      hide Ids;
      if id in Ids(Visits(g, p, items[i], ts[0])) {
        VisitedWithin(g, p, items[i], ts[0], id);
      } else {
        VisitedWithinItems(g, p, items, i + 1, ts[1..], id);
      }
    }
  }

  lemma {:induction false} VisitedWithinFields(g: Graph, p: Policy, entries: seq<Entry>, i: nat, fs: seq<Field>, id: Id)
    requires i <= |entries| && UnfoldsFields(g, entries, i, fs) && id in Ids(VisitsInFields(g, p, entries, i, fs))
    ensures UnfoldsWithin(g, id, SizeOfFields(fs))
    decreases fs
  {
    if i < |entries| {
      var first := VisitsInField(g, p, entries[i], fs[0]);
      IdsOfBoth(first, VisitsInFields(g, p, entries, i + 1, fs[1..]));
      if id in Ids(first) {
        NothingSeen({});
        assert !Sensitive(p, entries[i].key);
        IdsOfHidden(Visits(g, p, entries[i].value, fs[0].value), {});
        VisitedWithin(g, p, entries[i].value, fs[0].value, id);
        assert SizeOfFields(fs) >= SizeOfField(fs[0]) == Size(fs[0].value);
      } else {
        VisitedWithinFields(g, p, entries, i + 1, fs[1..], id);
      }
    }
  }

  /** A record is not visited again below itself. */
  lemma NotBelowItself(g: Graph, p: Policy, id: Id, t: Tree)
    requires id in g && g[id].Record? && Unfolds(g, Ref(id), t)
    ensures id !in Ids(VisitsInFields(g, p, g[id].entries, 0, t.fields))
  {
    if id in Ids(VisitsInFields(g, p, g[id].entries, 0, t.fields)) {
      VisitedWithinFields(g, p, g[id].entries, 0, t.fields, id);
      var s :| Unfolds(g, Ref(id), s) && Size(s) <= SizeOfFields(t.fields);
      UnfoldsToOne(g, Ref(id), s, t);
      assert false;
    }
  }

  // ---------------------------------------------------------------- what has been seen afterwards

  /** Of every seen record, except those that are being redacted, all that it leads to is seen. */
  ghost predicate Done(g: Graph, p: Policy, seen: set<Id>, busy: set<Id>) {
    forall id, t :: id in seen && id !in busy && Unfolds(g, Ref(id), t) ==> Ids(Visits(g, p, Ref(id), t)) <= seen
  }

  /** Redacting a value makes exactly the visited records seen, whether they were replaced or not. */
  lemma {:induction false} SeenAfter(g: Graph, m: Measure, p: Policy, v: Value, seen: set<Id>, busy: set<Id>, t: Tree)
    requires Closed(g) && Ranked(g, m) && InGraph(g, v) && Unfolds(g, v, t)
    requires Done(g, p, seen, busy) && Ids(Visits(g, p, v, t)) !! busy
    ensures RedactValue(g, m, p, v, seen).1 == seen + Ids(Visits(g, p, v, t))
    ensures Done(g, p, seen + Ids(Visits(g, p, v, t)), busy)
    decreases t
  {
    if v.Ref? {
      match g[v.id]
      case List(items) =>
        assert forall i :: 0 <= i < |items| && IsList(g, items[i]) ==> items[i].id in Inner(g, v.id);
        SeenAfterItems(g, m, p, items, 0, Height(g, m, v), seen, busy, t.items);
      case Record(entries) =>
        var rest := VisitsInFields(g, p, entries, 0, t.fields);
        IdsOfBoth([Visit(v.id, true)], rest);
        IdsOfOne(v.id, true, seen);
        NotBelowItself(g, p, v.id, t);
        hide Ids;
        if v.id in seen {
          assert Ids(Visits(g, p, v, t)) <= seen;
        } else {
          assert Done(g, p, seen + {v.id}, busy + {v.id});
          SeenAfterFields(g, m, p, entries, 0, seen + {v.id}, busy + {v.id}, t.fields);
          FinishRecord(g, p, v.id, seen + {v.id} + Ids(rest), busy, t);
          assert seen + {v.id} + Ids(rest) == seen + ({v.id} + Ids(rest));
          hide RedactEntries, Done;
        }
    } else {
      NothingSeen(seen);
    }
  }

  lemma FinishRecord(g: Graph, p: Policy, id: Id, seen: set<Id>, busy: set<Id>, t: Tree)
    requires Unfolds(g, Ref(id), t) && Ids(Visits(g, p, Ref(id), t)) <= seen && Done(g, p, seen, busy + {id})
    ensures Done(g, p, seen, busy)
  {
    hide Ids, Visits, Unfolds;
    forall x, u | x in seen && x !in busy && Unfolds(g, Ref(x), u) ensures Ids(Visits(g, p, Ref(x), u)) <= seen {
      if x == id {
        UnfoldsToOne(g, Ref(id), t, u);
      }
    }
  }

  lemma NothingSeen(seen: set<Id>)
    ensures Ids([]) == {} && seen + Ids([]) == seen && ShownFirst([], seen)
  {
  }

  lemma {:induction false} SeenAfterItems(g: Graph, m: Measure, p: Policy, items: seq<Value>, i: nat, h: nat, seen: set<Id>, busy: set<Id>, ts: seq<Tree>)
    requires Closed(g) && Ranked(g, m) && Below(g, m, items, h) && i <= |items| && UnfoldsAll(g, items, i, ts)
    requires Done(g, p, seen, busy) && Ids(VisitsInItems(g, p, items, i, ts)) !! busy
    ensures RedactItems(g, m, p, items, i, h, seen).1 == seen + Ids(VisitsInItems(g, p, items, i, ts))
    ensures Done(g, p, seen + Ids(VisitsInItems(g, p, items, i, ts)), busy)
    decreases ts
  {
    if i < |items| {
      var first, rest := Visits(g, p, items[i], ts[0]), VisitsInItems(g, p, items, i + 1, ts[1..]);
      IdsOfBoth(first, rest);
      RedactItemsStep(g, m, p, items, i, h, seen);
      hide Ids, RedactValue, RedactItems, Done;
      SeenAfter(g, m, p, items[i], seen, busy, ts[0]);
      SeenAfterItems(g, m, p, items, i + 1, h, seen + Ids(first), busy, ts[1..]);
      assert seen + Ids(first) + Ids(rest) == seen + (Ids(first) + Ids(rest));
    } else {
      NothingSeen(seen);
    }
  }

  ghost function SeenAt(g: Graph, m: Measure, p: Policy, e: Entry, seen: set<Id>): set<Id>
    requires Closed(g) && Ranked(g, m) && InGraph(g, e.value)
  {
    if Sensitive(p, e.key) then seen else RedactValue(g, m, p, e.value, seen).1
  }

  lemma EntriesSeen(g: Graph, m: Measure, p: Policy, entries: seq<Entry>, i: nat, seen: set<Id>)
    requires Closed(g) && Ranked(g, m) && Below(g, m, EntryValues(entries), m.top + 1) && i < |entries|
    ensures InGraph(g, entries[i].value)
    ensures RedactEntries(g, m, p, entries, i, seen).1 == RedactEntries(g, m, p, entries, i + 1, SeenAt(g, m, p, entries[i], seen)).1
  {
    RedactEntriesStep(g, m, p, entries, i, seen);
    hide RedactEntries, RedactValue;
  }

  lemma {:induction false} SeenAfterFields(g: Graph, m: Measure, p: Policy, entries: seq<Entry>, i: nat, seen: set<Id>, busy: set<Id>, fs: seq<Field>)
    requires Closed(g) && Ranked(g, m) && Below(g, m, EntryValues(entries), m.top + 1) && i <= |entries| && UnfoldsFields(g, entries, i, fs)
    requires Done(g, p, seen, busy) && Ids(VisitsInFields(g, p, entries, i, fs)) !! busy
    ensures RedactEntries(g, m, p, entries, i, seen).1 == seen + Ids(VisitsInFields(g, p, entries, i, fs))
    ensures Done(g, p, seen + Ids(VisitsInFields(g, p, entries, i, fs)), busy)
    decreases fs
  {
    if i < |entries| {
      var first, rest := VisitsInField(g, p, entries[i], fs[0]), VisitsInFields(g, p, entries, i + 1, fs[1..]);
      IdsOfBoth(first, rest);
      EntriesSeen(g, m, p, entries, i, seen);
      SeenAfterField(g, m, p, entries[i], seen, busy, fs[0]);
      hide Ids, RedactEntries, Done, VisitsInField, SeenAt;
      SeenAfterFields(g, m, p, entries, i + 1, seen + Ids(first), busy, fs[1..]);
      assert seen + Ids(first) + Ids(rest) == seen + (Ids(first) + Ids(rest));
    } else {
      NothingSeen(seen);
    }
  }

  lemma {:induction false} SeenAfterField(g: Graph, m: Measure, p: Policy, e: Entry, seen: set<Id>, busy: set<Id>, f: Field)
    requires Closed(g) && Ranked(g, m) && InGraph(g, e.value) && UnfoldsField(g, e, f)
    requires Done(g, p, seen, busy) && Ids(VisitsInField(g, p, e, f)) !! busy
    ensures SeenAt(g, m, p, e, seen) == seen + Ids(VisitsInField(g, p, e, f))
    ensures Done(g, p, seen + Ids(VisitsInField(g, p, e, f)), busy)
    decreases f
  {
    hide Ids, RedactValue, Done, Visits;
    if Sensitive(p, e.key) {
      NothingSeen(seen);
    } else {
      IdsOfHidden(Visits(g, p, e.value, f.value), seen);
      SeenAfter(g, m, p, e.value, seen, busy, f.value);
    }
  }

  // ---------------------------------------------------------------- records shown once

  /** If every shown record is visited there first, redacting the graph is redacting the tree it unfolds to. */
  lemma {:induction false} FirstsAreRedacted(g: Graph, m: Measure, p: Policy, v: Value, seen: set<Id>, busy: set<Id>, t: Tree)
    requires Closed(g) && Ranked(g, m) && InGraph(g, v) && Unfolds(g, v, t)
    requires Done(g, p, seen, busy) && Ids(Visits(g, p, v, t)) !! busy && ShownFirst(Visits(g, p, v, t), seen)
    ensures RedactValue(g, m, p, v, seen).0 == RedactTree(p, t)
    decreases t
  {
    if v.Ref? {
      match g[v.id]
      case List(items) =>
        assert forall i :: 0 <= i < |items| && IsList(g, items[i]) ==> items[i].id in Inner(g, v.id);
        hide ShownFirst, Ids, Done;
        FirstItemsAreRedacted(g, m, p, items, 0, Height(g, m, v), seen, busy, t.items);
      case Record(entries) =>
        EnterRecord(g, p, v.id, seen, busy, t);
        hide ShownFirst, Ids, Done, RedactEntries, RedactFields;
        FirstFieldsAreRedacted(g, m, p, entries, 0, seen + {v.id}, busy + {v.id}, t.fields);
    }
  }

  /** Entering a record: it is shown, and what it leads to is not being redacted. */
  lemma EnterRecord(g: Graph, p: Policy, id: Id, seen: set<Id>, busy: set<Id>, t: Tree)
    requires id in g && g[id].Record? && Unfolds(g, Ref(id), t)
    requires Done(g, p, seen, busy) && Ids(Visits(g, p, Ref(id), t)) !! busy
    ensures var rest := VisitsInFields(g, p, g[id].entries, 0, t.fields);
      && Done(g, p, seen + {id}, busy + {id}) && Ids(rest) !! busy + {id}
      && (ShownFirst(Visits(g, p, Ref(id), t), seen) <==> id !in seen && ShownFirst(rest, seen + {id}))
  {
    var rest := VisitsInFields(g, p, g[id].entries, 0, t.fields);
    IdsOfBoth([Visit(id, true)], rest);
    IdsOfOne(id, true, seen);
    NotBelowItself(g, p, id, t);
    ShownFirstSplits([Visit(id, true)], rest, seen);
    hide Ids, ShownFirst;
    forall x, u | x in seen + {id} && x !in busy + {id} && Unfolds(g, Ref(x), u) ensures Ids(Visits(g, p, Ref(x), u)) <= seen + {id} {
      assert x in seen && x !in busy;
    }
  }

  lemma {:induction false} FirstItemsAreRedacted(g: Graph, m: Measure, p: Policy, items: seq<Value>, i: nat, h: nat, seen: set<Id>, busy: set<Id>,
                                                 ts: seq<Tree>)
    requires Closed(g) && Ranked(g, m) && Below(g, m, items, h) && i <= |items| && UnfoldsAll(g, items, i, ts)
    requires Done(g, p, seen, busy) && Ids(VisitsInItems(g, p, items, i, ts)) !! busy
    requires ShownFirst(VisitsInItems(g, p, items, i, ts), seen)
    ensures RedactItems(g, m, p, items, i, h, seen).0 == RedactTrees(p, ts)
    decreases ts
  {
    if i < |items| {
      var first, rest := Visits(g, p, items[i], ts[0]), VisitsInItems(g, p, items, i + 1, ts[1..]);
      IdsOfBoth(first, rest);
      ShownFirstSplits(first, rest, seen);
      RedactItemsStep(g, m, p, items, i, h, seen);
      hide Ids, RedactValue, RedactTree, RedactItems, Done, ShownFirst;
      FirstsAreRedacted(g, m, p, items[i], seen, busy, ts[0]);
      SeenAfter(g, m, p, items[i], seen, busy, ts[0]);
      FirstItemsAreRedacted(g, m, p, items, i + 1, h, seen + Ids(first), busy, ts[1..]);
    }
  }

  lemma {:induction false} FirstFieldsAreRedacted(g: Graph, m: Measure, p: Policy, entries: seq<Entry>, i: nat, seen: set<Id>, busy: set<Id>,
                                                  fs: seq<Field>)
    requires Closed(g) && Ranked(g, m) && Below(g, m, EntryValues(entries), m.top + 1) && i <= |entries| && UnfoldsFields(g, entries, i, fs)
    requires Done(g, p, seen, busy) && Ids(VisitsInFields(g, p, entries, i, fs)) !! busy
    requires ShownFirst(VisitsInFields(g, p, entries, i, fs), seen)
    ensures RedactEntries(g, m, p, entries, i, seen).0 == RedactFields(p, fs)
    decreases fs
  {
    if i < |entries| {
      var first, rest := VisitsInField(g, p, entries[i], fs[0]), VisitsInFields(g, p, entries, i + 1, fs[1..]);
      IdsOfBoth(first, rest);
      ShownFirstSplits(first, rest, seen);
      RedactEntriesStep(g, m, p, entries, i, seen);
      hide Ids, RedactValue, RedactEntries, RedactTree, Done, ShownFirst, Visits;
      SeenAfterField(g, m, p, entries[i], seen, busy, fs[0]);
      FirstFieldsAreRedacted(g, m, p, entries, i + 1, seen + Ids(first), busy, fs[1..]);
      if !Sensitive(p, fs[0].key) && fs[0].key != PROTO {
        FirstsAreRedacted(g, m, p, entries[i].value, seen, busy, fs[0].value);
      }
    }
  }

  // ---------------------------------------------------------------- records shown again

  /** If redacting the graph is redacting the tree, every shown record was visited there first. */
  lemma {:induction false} RedactedAsTree(g: Graph, m: Measure, p: Policy, v: Value, seen: set<Id>, busy: set<Id>, t: Tree)
    requires Closed(g) && Ranked(g, m) && InGraph(g, v) && Unfolds(g, v, t)
    requires Done(g, p, seen, busy) && Ids(Visits(g, p, v, t)) !! busy && RedactValue(g, m, p, v, seen).0 == RedactTree(p, t)
    ensures ShownFirst(Visits(g, p, v, t), seen)
    decreases t
  {
    if v.Ref? {
      match g[v.id]
      case List(items) =>
        assert forall i :: 0 <= i < |items| && IsList(g, items[i]) ==> items[i].id in Inner(g, v.id);
        hide ShownFirst, Ids, Done;
        ItemsRedactedAsTrees(g, m, p, items, 0, Height(g, m, v), seen, busy, t.items);
      case Record(entries) =>
        EnterRecord(g, p, v.id, seen, busy, t);
        hide ShownFirst, Ids, Done, RedactEntries, RedactFields;
        FieldsRedactedAsTrees(g, m, p, entries, 0, seen + {v.id}, busy + {v.id}, t.fields);
    }
  }

  lemma SameHeadAndTail<T>(a: T, x: seq<T>, b: T, y: seq<T>)
    requires [a] + x == [b] + y
    ensures a == b && x == y
  {
    assert ([a] + x)[0] == a && ([b] + y)[0] == b && ([a] + x)[1..] == x && ([b] + y)[1..] == y;
  }

  lemma {:induction false} ItemsRedactedAsTrees(g: Graph, m: Measure, p: Policy, items: seq<Value>, i: nat, h: nat, seen: set<Id>, busy: set<Id>,
                                                ts: seq<Tree>)
    requires Closed(g) && Ranked(g, m) && Below(g, m, items, h) && i <= |items| && UnfoldsAll(g, items, i, ts)
    requires Done(g, p, seen, busy) && Ids(VisitsInItems(g, p, items, i, ts)) !! busy
    requires RedactItems(g, m, p, items, i, h, seen).0 == RedactTrees(p, ts)
    ensures ShownFirst(VisitsInItems(g, p, items, i, ts), seen)
    decreases ts
  {
    if i < |items| {
      var first, rest := Visits(g, p, items[i], ts[0]), VisitsInItems(g, p, items, i + 1, ts[1..]);
      IdsOfBoth(first, rest);
      ShownFirstSplits(first, rest, seen);
      RedactItemsStep(g, m, p, items, i, h, seen);
      var one := RedactValue(g, m, p, items[i], seen);
      SameHeadAndTail(one.0, RedactItems(g, m, p, items, i + 1, h, one.1).0, RedactTree(p, ts[0]), RedactTrees(p, ts[1..]));
      hide Ids, RedactValue, RedactTree, RedactTrees, RedactItems, Done, ShownFirst;
      RedactedAsTree(g, m, p, items[i], seen, busy, ts[0]);
      SeenAfter(g, m, p, items[i], seen, busy, ts[0]);
      ItemsRedactedAsTrees(g, m, p, items, i + 1, h, seen + Ids(first), busy, ts[1..]);
    } else {
      NothingSeen(seen);
    }
  }

  lemma StoredAlike(key: string, a: Tree, x: seq<Field>, b: Tree, y: seq<Field>)
    requires Stored(key, a) + x == Stored(key, b) + y
    ensures x == y && (key != PROTO ==> a == b)
  {
    if key == PROTO {
      assert Stored(key, a) + x == x && Stored(key, b) + y == y;
    } else {
      SameHeadAndTail(Field(key, a), x, Field(key, b), y);
    }
  }

  lemma {:induction false} FieldsRedactedAsTrees(g: Graph, m: Measure, p: Policy, entries: seq<Entry>, i: nat, seen: set<Id>, busy: set<Id>,
                                                 fs: seq<Field>)
    requires Closed(g) && Ranked(g, m) && Below(g, m, EntryValues(entries), m.top + 1) && i <= |entries| && UnfoldsFields(g, entries, i, fs)
    requires Done(g, p, seen, busy) && Ids(VisitsInFields(g, p, entries, i, fs)) !! busy
    requires RedactEntries(g, m, p, entries, i, seen).0 == RedactFields(p, fs)
    ensures ShownFirst(VisitsInFields(g, p, entries, i, fs), seen)
    decreases fs
  {
    if i < |entries| {
      var first, rest := VisitsInField(g, p, entries[i], fs[0]), VisitsInFields(g, p, entries, i + 1, fs[1..]);
      IdsOfBoth(first, rest);
      ShownFirstSplits(first, rest, seen);
      RedactEntriesStep(g, m, p, entries, i, seen);
      var one := if Sensitive(p, entries[i].key) then (Replaced(p), seen) else RedactValue(g, m, p, entries[i].value, seen);
      StoredAlike(fs[0].key, one.0, RedactEntries(g, m, p, entries, i + 1, one.1).0, RedactField(p, fs[0]), RedactFields(p, fs[1..]));
      hide Ids, RedactValue, RedactTree, RedactFields, RedactEntries, Done, ShownFirst, Visits, Stored;
      SeenAfterField(g, m, p, entries[i], seen, busy, fs[0]);
      FieldsRedactedAsTrees(g, m, p, entries, i + 1, seen + Ids(first), busy, fs[1..]);
      if Sensitive(p, fs[0].key) {
        NothingSeen(seen);
      } else if fs[0].key == PROTO {
        IdsOfHidden(Visits(g, p, entries[i].value, fs[0].value), seen);
      } else {
        RedactedAsTree(g, m, p, entries[i].value, seen, busy, fs[0].value);
      }
    } else {
      NothingSeen(seen);
    }
  }

  lemma NothingSeenIsDone(g: Graph, p: Policy)
    ensures Done(g, p, {}, {})
  {
  }

  /** If every shown record is visited there for the first time, redaction is that of the tree. */
  lemma TreesAreRedacted(g: Graph, m: Measure, p: Policy, v: Value, t: Tree)
    requires Closed(g) && Ranked(g, m) && InGraph(g, v) && Unfolds(g, v, t) && ShownFirst(Visits(g, p, v, t), {})
    ensures RedactValue(g, m, p, v, {}).0 == RedactTree(p, t)
  {
    NothingSeenIsDone(g, p);
    hide Done, ShownFirst;
    FirstsAreRedacted(g, m, p, v, {}, {}, t);
  }

  /**
   * Sharing changes the result exactly when some record is shown that was visited before. A record
   * that is visited again only below a sensitive key or below __proto__ does no harm.
   */
  lemma SharingIsHarmlessIff(g: Graph, m: Measure, p: Policy, v: Value, t: Tree)
    requires Closed(g) && Ranked(g, m) && InGraph(g, v) && Unfolds(g, v, t)
    ensures RedactValue(g, m, p, v, {}).0 == RedactTree(p, t) <==> ShownFirst(Visits(g, p, v, t), {})
  {
    NothingSeenIsDone(g, p);
    hide Done, ShownFirst;
    if ShownFirst(Visits(g, p, v, t), {}) {
      TreesAreRedacted(g, m, p, v, t);
    }
    if RedactValue(g, m, p, v, {}).0 == RedactTree(p, t) {
      RedactedAsTree(g, m, p, v, {}, {}, t);
    }
  }

  /** A record reached a second time is replaced even where there is no cycle. */
  lemma SharedRecordIsReplaced(p: Policy)
    ensures var g: Graph := map[0 := List([Ref(1), Ref(1)]), 1 := Record([])];
      exists m :: Closed(g) && Ranked(g, m) && RedactValue(g, m, p, Ref(0), {}).0 == Items([Fields([]), Replaced(p)])
  {
    var g: Graph := map[0 := List([Ref(1), Ref(1)]), 1 := Record([])];
    var m := Measure(map[0 := 0], 1);
    assert Inner(g, 0) == {};
    assert Ranked(g, m) && Closed(g);
    assert RedactValue(g, m, p, Ref(1), {}).0 == Fields([]);
    assert RedactItems(g, m, p, g[0].items, 2, 1, {1}).0 == [];
    assert RedactItems(g, m, p, g[0].items, 1, 1, {1}).0 == [Replaced(p)];
    assert RedactItems(g, m, p, g[0].items, 0, 1, {}).0 == [Fields([])] + [Replaced(p)];
  }
}
