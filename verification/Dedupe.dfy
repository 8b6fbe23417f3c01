/**
 * The owner's duplicate suppression: two tables from event id and semantic key to expiry
 * time, and what they guarantee over a whole run of arrivals.
 */
module Dedupe {
  import opened Options
  import JsonText

  type Token = JsonText.Text  // an event id or a semantic key

  datatype Config = Config(ttl: int, semantic: bool)

  datatype Tables = Tables(ids: map<Token, int>, keys: map<Token, int>)

  /** An event at the owner: when it arrives, its id and its semantic key if it has one. */
  datatype Arrival = Arrival(now: int, id: Token, key: Option<Token>)

  function Live(seen: map<Token, int>, now: int): map<Token, int> {
    map k | k in seen && seen[k] > now :: seen[k]
  }

  function Prune(t: Tables, now: int): Tables {
    Tables(Live(t.ids, now), Live(t.keys, now))
  }

  predicate KnownId(t: Tables, a: Arrival) {
    a.id in Live(t.ids, a.now)
  }

  predicate KnownKey(t: Tables, a: Arrival, c: Config) {
    c.semantic && a.key.Some? && a.key.value in Live(t.keys, a.now)
  }

  predicate Accepts(t: Tables, a: Arrival, c: Config) {
    !KnownId(t, a) && !KnownKey(t, a, c)
  }

  /** The tables after one arrival. */
  function Register(t: Tables, a: Arrival, c: Config): Tables {
    var live := Prune(t, a.now);
    if KnownId(t, a) then live
    else
      var marked := live.(ids := live.ids[a.id := a.now + c.ttl]);
      if !c.semantic || a.key.None? || KnownKey(t, a, c) then marked
      else marked.(keys := live.keys[a.key.value := a.now + c.ttl])
  }

  // ---------------------------------------------------------------- the tables in place

  class DedupeTables {
    var seenEventIds: map<Token, int>
    var seenSemanticKeys: map<Token, int>

    ghost function View(): Tables
      reads this
    {
      Tables(seenEventIds, seenSemanticKeys)
    }

    constructor ()
      ensures View() == Tables(map[], map[])
    {
      seenEventIds, seenSemanticKeys := map[], map[];
    }

    method PruneEntries(now: int)
      modifies this
      ensures View() == Prune(old(View()), now)
    {
      seenEventIds := DeleteExpired(seenEventIds, now);
      seenSemanticKeys := DeleteExpired(seenSemanticKeys, now);
    }

    /** Whether the owner handles the event; marks it as seen. */
    method ShouldProcess(a: Arrival, c: Config) returns (process: bool)
      modifies this
      ensures process == Accepts(old(View()), a, c)
      ensures View() == Register(old(View()), a, c)
    {
      PruneEntries(a.now);
      if a.id in seenEventIds {
        return false;
      }
      seenEventIds := seenEventIds[a.id := a.now + c.ttl];
      if !c.semantic || a.key.None? {
        return true;
      }
      if a.key.value in seenSemanticKeys {
        return false;
      }
      seenSemanticKeys := seenSemanticKeys[a.key.value := a.now + c.ttl];
      return true;
    }
  }

  method DeleteExpired(seen: map<Token, int>, now: int) returns (live: map<Token, int>)
    ensures live == Live(seen, now)
  {
    live := seen;
    var rest := seen.Keys;
    while rest != {}
      invariant rest <= seen.Keys
      invariant live == map k | k in seen && (k in rest || seen[k] > now) :: seen[k]
      decreases rest
    {
      var k :| k in rest;
      if seen[k] <= now {
        live := live - {k};
      }
      rest := rest - {k};
    }
  }

  // ---------------------------------------------------------------- runs

  /** The tables before the n-th arrival of the run. */
  function Before(run: seq<Arrival>, c: Config, n: nat): Tables
    requires n <= |run|
  {
    if n == 0 then Tables(map[], map[]) else Register(Before(run, c, n - 1), run[n - 1], c)
  }

  /** The i-th arrival of the run is handled. */
  predicate Accepted(run: seq<Arrival>, c: Config, i: nat)
    requires i < |run|
  {
    Accepts(Before(run, c, i), run[i], c)
  }

  /** The i-th arrival's id was not live, so it is marked from now on. */
  predicate Marked(run: seq<Arrival>, c: Config, i: nat)
    requires i < |run|
  {
    !KnownId(Before(run, c, i), run[i])
  }

  ghost predicate ClockForward(run: seq<Arrival>) {
    forall i, j :: 0 <= i <= j < |run| ==> run[i].now <= run[j].now
  }

  lemma RegisterKeeps(t: Tables, a: Arrival, c: Config)
    ensures forall id :: id in t.ids && t.ids[id] > a.now ==>
      id in Register(t, a, c).ids && Register(t, a, c).ids[id] == t.ids[id]
    ensures forall k :: k in t.keys && t.keys[k] > a.now ==>
      k in Register(t, a, c).keys && Register(t, a, c).keys[k] == t.keys[k]
    ensures !KnownId(t, a) ==> a.id in Register(t, a, c).ids && Register(t, a, c).ids[a.id] == a.now + c.ttl
    ensures Accepts(t, a, c) && c.semantic && a.key.Some? ==>
      a.key.value in Register(t, a, c).keys && Register(t, a, c).keys[a.key.value] == a.now + c.ttl
  {
  }

  /** A marked id stays in the table until its time to live has passed. */
  lemma {:induction false} IdStays(run: seq<Arrival>, c: Config, i: nat, j: nat)
    requires i < j <= |run| && ClockForward(run) && Marked(run, c, i)
    requires run[j - 1].now < run[i].now + c.ttl
    ensures var ids := Before(run, c, j).ids; run[i].id in ids && ids[run[i].id] == run[i].now + c.ttl
    decreases j
  {
    RegisterKeeps(Before(run, c, j - 1), run[j - 1], c);
    hide Register;
    if i < j - 1 {
      IdStays(run, c, i, j - 1);
    }
  }

  lemma {:induction false} KeyStays(run: seq<Arrival>, c: Config, i: nat, j: nat)
    requires i < j <= |run| && ClockForward(run) && Accepted(run, c, i) && c.semantic && run[i].key.Some?
    requires run[j - 1].now < run[i].now + c.ttl
    ensures var keys := Before(run, c, j).keys;
      run[i].key.value in keys && keys[run[i].key.value] == run[i].now + c.ttl
    decreases j
  {
    RegisterKeeps(Before(run, c, j - 1), run[j - 1], c);
    hide Register;
    if i < j - 1 {
      KeyStays(run, c, i, j - 1);
    }
  }

  /** Two handled events with the same id, or the same semantic key when enabled, are a time to live apart. */
  lemma AcceptedAreApart(run: seq<Arrival>, c: Config, i: nat, j: nat)
    requires i < j < |run| && ClockForward(run) && Accepted(run, c, i) && Accepted(run, c, j)
    requires run[i].id == run[j].id || (c.semantic && run[i].key.Some? && run[i].key == run[j].key)
    ensures run[j].now - run[i].now >= c.ttl
  {
    if run[j].now < run[i].now + c.ttl {
      assert run[j - 1].now <= run[j].now;
      if run[i].id == run[j].id {
        IdStays(run, c, i, j);
      } else {
        KeyStays(run, c, i, j);
      }
    }
  }

  /** Every id in the table was marked by an earlier arrival. */
  lemma {:induction false} IdOrigin(run: seq<Arrival>, c: Config, n: nat, id: Token) returns (i: nat)
    requires n <= |run| && id in Before(run, c, n).ids
    ensures i < n && run[i].id == id && Marked(run, c, i) && Before(run, c, n).ids[id] == run[i].now + c.ttl
  {
    if run[n - 1].id == id && Marked(run, c, n - 1) {
      i := n - 1;
    } else {
      i := IdOrigin(run, c, n - 1, id);
    }
  }

  /** Every key in the table belongs to an earlier handled arrival. */
  lemma {:induction false} KeyOrigin(run: seq<Arrival>, c: Config, n: nat, key: Token) returns (i: nat)
    requires n <= |run| && key in Before(run, c, n).keys
    ensures i < n && run[i].key == Some(key) && Accepted(run, c, i) && Before(run, c, n).keys[key] == run[i].now + c.ttl
  {
    if run[n - 1].key == Some(key) && c.semantic && Accepted(run, c, n - 1) {
      i := n - 1;
    } else {
      i := KeyOrigin(run, c, n - 1, key);
    }
  }

  /** Events with the same id carry the same content, hence the same semantic key. */
  ghost predicate IdsDetermineKeys(run: seq<Arrival>) {
    forall i, j :: 0 <= i < |run| && 0 <= j < |run| && run[i].id == run[j].id ==> run[i].key == run[j].key
  }

  ghost predicate Equivalent(a: Arrival, b: Arrival) {
    a.id == b.id || (a.key.Some? && a.key == b.key)
  }

  /**
   * A dropped event repeats one that was handled: of the same id or key, less than two times
   * to live earlier, and less than one when semantic matching is off.
   */
  lemma DroppedRepeatsAccepted(run: seq<Arrival>, c: Config, j: nat) returns (i: nat)
    requires j < |run| && !Accepted(run, c, j) && IdsDetermineKeys(run) && ClockForward(run)
    ensures i < j && Accepted(run, c, i) && Equivalent(run[i], run[j])
    ensures run[j].now - run[i].now < if c.semantic then 2 * c.ttl else c.ttl
  {
    if !Marked(run, c, j) {
      var k := IdOrigin(run, c, j, run[j].id);
      if Accepted(run, c, k) {
        i := k;
      } else {
        i := KeyOrigin(run, c, k, run[k].key.value);
      }
    } else {
      i := KeyOrigin(run, c, j, run[j].key.value);
    }
    assert run[i].now <= run[j].now;
  }

  /**
   * One time to live is not enough in general: an event dropped for its key marks its own id,
   * and a repeat of it is dropped for its id although nothing was handled for almost two.
   */
  lemma DropOutlivesOneWindow(ttl: int, a: Token, b: Token, key: Token)
    requires ttl >= 3 && a != b
    ensures var run := [Arrival(0, a, Some(key)), Arrival(ttl - 1, b, Some(key)), Arrival(2 * ttl - 2, b, Some(key))];
      var c := Config(ttl, true);
      && Accepted(run, c, 0) && !Accepted(run, c, 1) && !Accepted(run, c, 2)
      && run[2].now - run[0].now >= ttl + 1
  {
    var run := [Arrival(0, a, Some(key)), Arrival(ttl - 1, b, Some(key)), Arrival(2 * ttl - 2, b, Some(key))];
    var c := Config(ttl, true);
    assert Before(run, c, 0) == Tables(map[], map[]);
    assert Before(run, c, 1) == Tables(map[a := ttl], map[key := ttl]);
    assert Before(run, c, 2).ids[b] == 2 * ttl - 1;
  }
}
