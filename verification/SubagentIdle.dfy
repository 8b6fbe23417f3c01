/** Subagents: spawning, activity, ending, and the idle announcements. */
module SubagentSteps {
  import opened Options

  type ChildKey = string

  /** Parents, child agent, run and mode, as far as they are known. */
  type Details = map<string, string>

  datatype Record = Record(details: Details, spawnedAt: int, lastActiveAt: int, idleEmittedAt: Option<int>, endedAt: Option<int>)

  type Tracker = map<ChildKey, Record>

  datatype Op =
    | RegisterSpawn(key: ChildKey, details: Details, at: int)
    | ObserveActivity(keyGiven: Option<ChildKey>, at: int)
    | MarkEnded(keyGiven: Option<ChildKey>, at: int)
    | EvaluateIdle(idleAfterMs: int, now: int)
    | Clear

  predicate Known(t: Tracker, key: Option<ChildKey>) {
    key.Some? && key.value != "" && key.value in t
  }

  /** A time that is set and not zero. */
  predicate Truthy(time: Option<int>) {
    time.Some? && time.value != 0
  }

  function Spawned(t: Tracker, key: ChildKey, details: Details, at: int): Record {
    if key in t then Record(t[key].details + details, t[key].spawnedAt, at, None, None)
    else Record(details, at, at, None, None)
  }

  /** The record is announced idle by an evaluation. */
  predicate TurnsIdle(r: Record, idleAfterMs: int, now: int) {
    r.endedAt.None? && r.idleEmittedAt.None? && now - r.lastActiveAt >= idleAfterMs
  }

  function Step(t: Tracker, op: Op): Tracker {
    match op
    case RegisterSpawn(key, details, at) => t[key := Spawned(t, key, details, at)]
    case ObserveActivity(key, at) =>
      if !Known(t, key) || Truthy(t[key.value].endedAt) then t
      else t[key.value := t[key.value].(lastActiveAt := at, idleEmittedAt := None)]
    case MarkEnded(key, at) => if !Known(t, key) then t else t[key.value := t[key.value].(endedAt := Some(at))]
    case EvaluateIdle(idleAfterMs, now) =>
      map k | k in t :: if TurnsIdle(t[k], idleAfterMs, now) then t[k].(idleEmittedAt := Some(now)) else t[k]
    case Clear => map[]
  }

  function After(ops: seq<Op>, n: nat): Tracker
    requires n <= |ops|
  {
    if n == 0 then map[] else Step(After(ops, n - 1), ops[n - 1])
  }

  /** Operation i announces the child idle. */
  predicate Emits(ops: seq<Op>, i: nat, key: ChildKey)
    requires i < |ops|
  {
    ops[i].EvaluateIdle? && key in After(ops, i) && TurnsIdle(After(ops, i)[key], ops[i].idleAfterMs, ops[i].now)
  }

  predicate Respawns(op: Op, key: ChildKey) {
    op.RegisterSpawn? && op.key == key
  }

  predicate Touches(op: Op, key: ChildKey) {
    Respawns(op, key) || (op.ObserveActivity? && op.keyGiven == Some(key) && key != "")
  }

  /** Once announced, a child stays announced until it is touched. */
  lemma {:induction false} StaysAnnounced(ops: seq<Op>, i: nat, n: nat, key: ChildKey)
    requires i < n <= |ops| && Emits(ops, i, key) && forall m :: i < m < n ==> !Touches(ops[m], key)
    ensures key in After(ops, n) ==> After(ops, n)[key].idleEmittedAt.Some?
    decreases n
  {
    if n > i + 1 {
      StaysAnnounced(ops, i, n - 1, key);
      assert !Touches(ops[n - 1], key);
    }
  }

  /** Between two idle announcements of a child there is an activity or a spawn of it. */
  lemma IdleAgainOnlyAfterActivity(ops: seq<Op>, i: nat, j: nat, key: ChildKey)
    requires i < j < |ops| && Emits(ops, i, key) && Emits(ops, j, key)
    ensures exists m :: i < m < j && Touches(ops[m], key)
  {
    if forall m :: i < m < j ==> !Touches(ops[m], key) {
      StaysAnnounced(ops, i, j, key);
    }
  }

  /** The child is unknown or has ended. */
  predicate Silent(t: Tracker, key: ChildKey) {
    key in t ==> t[key].endedAt.Some?
  }

  lemma {:induction false} StaysSilent(ops: seq<Op>, i: nat, n: nat, key: ChildKey)
    requires i <= n <= |ops| && Silent(After(ops, i), key) && forall m :: i <= m < n ==> !Respawns(ops[m], key)
    ensures Silent(After(ops, n), key)
    decreases n
  {
    if n > i {
      StaysSilent(ops, i, n - 1, key);
      assert !Respawns(ops[n - 1], key);
    }
  }

  /** An ended child is not announced idle until it is spawned again. */
  lemma EndedIsSilent(ops: seq<Op>, i: nat, j: nat, key: ChildKey)
    requires i < j < |ops| && ops[i].MarkEnded? && ops[i].keyGiven == Some(key) && key != ""
    requires Emits(ops, j, key)
    ensures exists m :: i < m < j && Respawns(ops[m], key)
  {
    assert Silent(After(ops, i + 1), key);
    if forall m :: i < m < j ==> !Respawns(ops[m], key) {
      StaysSilent(ops, i + 1, j, key);
    }
  }

  /** The last activity noted for a child came from a spawn or an activity of it; activities since came after its end. */
  lemma {:induction false} ActivityHasOrigin(ops: seq<Op>, n: nat, key: ChildKey) returns (i: nat)
    requires n <= |ops| && key in After(ops, n)
    ensures i < n && Touches(ops[i], key) && ops[i].at == After(ops, n)[key].lastActiveAt
    ensures forall m :: i < m < n && Touches(ops[m], key) ==> !Respawns(ops[m], key) && Silent(After(ops, m), key)
    decreases n
  {
    var op, t := ops[n - 1], After(ops, n - 1);
    if Respawns(op, key) || (Touches(op, key) && !Truthy(t[key].endedAt)) {
      i := n - 1;
    } else {
      i := ActivityHasOrigin(ops, n - 1, key);
    }
  }

  /** An idle announcement comes at least the idle time after the last spawn or activity of the child. */
  lemma IdleIsDeserved(ops: seq<Op>, j: nat, key: ChildKey) returns (i: nat)
    requires j < |ops| && Emits(ops, j, key)
    ensures i < j && Touches(ops[i], key) && ops[j].now - ops[i].at >= ops[j].idleAfterMs
    ensures forall m :: i < m < j ==> !Touches(ops[m], key)
  {
    i := ActivityHasOrigin(ops, j, key);
    forall m | i < m < j && Touches(ops[m], key) ensures false {
      StaysSilent(ops, m, j, key);
    }
  }
}

/** The subagent tracker as a class. */
module SubagentIdle {
  import opened Options
  import opened SubagentSteps

  class SubagentTracker {
    var byChildSessionKey: Tracker

    constructor ()
      ensures byChildSessionKey == map[]
    {
      byChildSessionKey := map[];
    }

    method RegisterSpawn(key: ChildKey, details: Details, now: int) returns (merged: Record)
      modifies this
      ensures byChildSessionKey == Step(old(byChildSessionKey), Op.RegisterSpawn(key, details, now))
      ensures merged == byChildSessionKey[key]
    {
      merged := Record(details, now, now, None, None);
      if key in byChildSessionKey {
        var current := byChildSessionKey[key];
        merged := merged.(details := current.details + details, spawnedAt := current.spawnedAt);
      }
      byChildSessionKey := byChildSessionKey[key := merged];
    }

    method ObserveActivity(key: Option<ChildKey>, at: int)
      modifies this
      ensures byChildSessionKey == Step(old(byChildSessionKey), Op.ObserveActivity(key, at))
    {
      if !Known(byChildSessionKey, key) || Truthy(byChildSessionKey[key.value].endedAt) {
        return;
      }
      var current := byChildSessionKey[key.value];
      byChildSessionKey := byChildSessionKey[key.value := current.(lastActiveAt := at, idleEmittedAt := None)];
    }

    method MarkEnded(key: Option<ChildKey>, at: int)
      modifies this
      ensures byChildSessionKey == Step(old(byChildSessionKey), Op.MarkEnded(key, at))
    {
      if Known(byChildSessionKey, key) {
        byChildSessionKey := byChildSessionKey[key.value := byChildSessionKey[key.value].(endedAt := Some(at))];
      }
    }

    /** Marks and returns exactly the children that turn idle. */
    method EvaluateIdleTransitions(idleAfterMs: int, now: int) returns (transitions: map<ChildKey, Record>)
      modifies this
      ensures byChildSessionKey == Step(old(byChildSessionKey), EvaluateIdle(idleAfterMs, now))
      ensures forall k :: k in transitions <==> k in old(byChildSessionKey) && TurnsIdle(old(byChildSessionKey)[k], idleAfterMs, now)
      ensures forall k :: k in transitions ==> transitions[k] == byChildSessionKey[k]
    {
      transitions := map[];
      ghost var was := byChildSessionKey;
      var rest := byChildSessionKey.Keys;
      while rest != {}
        invariant rest <= was.Keys == byChildSessionKey.Keys
        invariant forall k :: k in was ==>
          byChildSessionKey[k] == if k !in rest && TurnsIdle(was[k], idleAfterMs, now) then was[k].(idleEmittedAt := Some(now)) else was[k]
        invariant forall k :: k in transitions <==> k in was && k !in rest && TurnsIdle(was[k], idleAfterMs, now)
        invariant forall k :: k in transitions ==> transitions[k] == byChildSessionKey[k]
        decreases rest
      {
        hide TurnsIdle;
        var k :| k in rest;
        rest := rest - {k};
        if !TurnsIdle(byChildSessionKey[k], idleAfterMs, now) {
          continue;
        }
        var marked := byChildSessionKey[k].(idleEmittedAt := Some(now));
        byChildSessionKey := byChildSessionKey[k := marked];
        transitions := transitions[k := marked];
      }
    }
  }
}
