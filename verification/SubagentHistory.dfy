/**
 * When a subagent is announced idle, read off what was reported of it: it was spawned, has not
 * ended, was last touched long enough ago, and was not announced since.
 */
module SubagentHistory {
  import opened Options
  import opened SubagentSteps

  predicate Ends(op: Op, key: ChildKey) {
    op.MarkEnded? && op.keyGiven == Some(key) && key != ""
  }

  /** The child was spawned by operation s and neither ended nor spawned again nor cleared since. */
  ghost predicate Alive(ops: seq<Op>, n: nat, key: ChildKey, s: nat)
    requires n <= |ops|
  {
    s < n && Respawns(ops[s], key) && forall j :: s < j < n ==> !ops[j].Clear? && !Ends(ops[j], key) && !Respawns(ops[j], key)
  }

  /** The last touch of the child. */
  ghost predicate LastTouch(ops: seq<Op>, n: nat, key: ChildKey, i: nat)
    requires n <= |ops|
  {
    i < n && Touches(ops[i], key) && forall j :: i < j < n ==> !Touches(ops[j], key)
  }

  ghost predicate AnnouncedSince(ops: seq<Op>, i: nat, n: nat, key: ChildKey)
    requires i <= n <= |ops|
  {
    exists j :: i < j < n && Emits(ops, j, key)
  }

  /** A child that is alive has a record that says when it was touched last and whether it was announced since. */
  lemma {:induction false} AliveRecord(ops: seq<Op>, n: nat, key: ChildKey, s: nat) returns (i: nat)
    requires n <= |ops| && Alive(ops, n, key, s)
    ensures s <= i && LastTouch(ops, n, key, i)
    ensures key in After(ops, n) && After(ops, n)[key].endedAt == None && After(ops, n)[key].lastActiveAt == ops[i].at
    ensures After(ops, n)[key].idleEmittedAt.Some? <==> AnnouncedSince(ops, i, n, key)
    decreases n
  {
    var t, op := After(ops, n - 1), ops[n - 1];
    if s == n - 1 {
      i := s;
    } else {
      assert Alive(ops, n - 1, key, s);
      i := AliveRecord(ops, n - 1, key, s);
      assert !op.Clear? && !Ends(op, key) && !Respawns(op, key);
      if Touches(op, key) {
        i := n - 1;
      } else {
        SinceStep(ops, i, n, key);
        hide AnnouncedSince, After;
        assert After(ops, n) == Step(t, op) by { AfterStep(ops, n); }
        assert Emits(ops, n - 1, key) <==> op.EvaluateIdle? && TurnsIdle(t[key], op.idleAfterMs, op.now);
      }
    }
  }

  lemma AfterStep(ops: seq<Op>, n: nat)
    requires 0 < n <= |ops|
    ensures After(ops, n) == Step(After(ops, n - 1), ops[n - 1])
  {
  }

  lemma SinceStep(ops: seq<Op>, i: nat, n: nat, key: ChildKey)
    requires i < n - 1 && n <= |ops|
    ensures AnnouncedSince(ops, i, n, key) <==> AnnouncedSince(ops, i, n - 1, key) || Emits(ops, n - 1, key)
  {
    hide Emits;
  }

  /** Without a live spawn there is no record, or one that has ended. */
  lemma {:induction false} NotAliveRecord(ops: seq<Op>, n: nat, key: ChildKey)
    requires n <= |ops| && forall s: nat :: !Alive(ops, n, key, s)
    ensures Silent(After(ops, n), key)
  {
    if n > 0 {
      var t, op := After(ops, n - 1), ops[n - 1];
      assert !Respawns(op, key) by {
        if Respawns(op, key) { assert Alive(ops, n, key, n - 1); }
      }
      if op.Clear? || Ends(op, key) {
      } else {
        var m := n - 1;
        forall s: nat ensures !Alive(ops, m, key, s) {
          assert !Alive(ops, n, key, s);
        }
        NotAliveRecord(ops, n - 1, key);
      }
    }
  }

  /**
   * An evaluation announces a child idle exactly if it is alive, was last touched at least the idle
   * time ago, and was not announced since that touch.
   */
  lemma IdleIffDue(ops: seq<Op>, n: nat, key: ChildKey)
    requires n < |ops| && ops[n].EvaluateIdle?
    ensures Emits(ops, n, key) <==>
      exists s: nat, i: nat :: Alive(ops, n, key, s) && LastTouch(ops, n, key, i)
        && ops[n].now - ops[i].at >= ops[n].idleAfterMs && !AnnouncedSince(ops, i, n, key)
  {
    if s: nat :| Alive(ops, n, key, s) {
      var i := AliveRecord(ops, n, key, s);
      hide After, AnnouncedSince, Alive;
      forall j: nat | LastTouch(ops, n, key, j) ensures j == i {
        OneLastTouch(ops, n, key, i, j);
      }
    } else {
      NotAliveRecord(ops, n, key);
    }
  }

  lemma OneLastTouch(ops: seq<Op>, n: nat, key: ChildKey, i: nat, j: nat)
    requires n <= |ops| && LastTouch(ops, n, key, i) && LastTouch(ops, n, key, j)
    ensures i == j
  {
    hide Touches;
  }

  /** A child's record dates from its first spawn since the last clear, with all details told, newer ones first. */
  lemma RespawnMerges(ops: seq<Op>, n: nat, key: ChildKey)
    requires n < |ops| && Respawns(ops[n], key)
    ensures var after := After(ops, n + 1);
      && key in after && after[key].lastActiveAt == ops[n].at && after[key].idleEmittedAt == None && after[key].endedAt == None
      && (forall d :: d in ops[n].details ==> d in after[key].details && after[key].details[d] == ops[n].details[d])
      && (if key in After(ops, n) then
            && after[key].spawnedAt == After(ops, n)[key].spawnedAt
            && (forall d :: d in After(ops, n)[key].details && d !in ops[n].details ==>
                  d in after[key].details && after[key].details[d] == After(ops, n)[key].details[d])
            && after[key].details.Keys == After(ops, n)[key].details.Keys + ops[n].details.Keys
          else after[key].spawnedAt == ops[n].at && after[key].details == ops[n].details)
  {
  }

  /** A record keeps its spawn time and details through everything but a respawn and a clear. */
  lemma OthersKeepSpawn(ops: seq<Op>, n: nat, key: ChildKey)
    requires n < |ops| && key in After(ops, n) && !Respawns(ops[n], key) && !ops[n].Clear?
    ensures key in After(ops, n + 1)
    ensures After(ops, n + 1)[key].spawnedAt == After(ops, n)[key].spawnedAt && After(ops, n + 1)[key].details == After(ops, n)[key].details
  {
  }
}
