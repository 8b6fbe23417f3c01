/**
 * The status of an agent, read off what was reported of it: the last word on errors and on being
 * offline, and the last activity of each of its sessions.
 */
module StatusHistory {
  import opened Options
  import opened StatusSteps

  /** Nothing is cleared from operation i to before operation n. */
  ghost predicate Unbroken(ops: seq<Op>, i: nat, n: nat)
    requires i <= n <= |ops|
  {
    forall j :: i <= j < n ==> !ops[j].Clear?
  }

  predicate Mentions(op: Op, a: AgentId) {
    match op
    case ObserveActivity(b, _, _) => b == a
    case MarkError(b, _) => b == a
    case MarkOffline(b, _) => b == a
    case _ => false
  }

  /** The agent was mentioned since the last clear. */
  ghost predicate Known(ops: seq<Op>, n: nat, a: AgentId)
    requires n <= |ops|
  {
    exists i :: 0 <= i < n && Mentions(ops[i], a) && Unbroken(ops, i, n)
  }

  /** The last word about the session is an activity at that time. */
  ghost predicate ActiveAt(ops: seq<Op>, n: nat, a: AgentId, session: SessionRef, at: int)
    requires n <= |ops|
  {
    exists i :: 0 <= i < n && ops[i] == Op.ObserveActivity(a, Some(session), at) && session != "" && Unbroken(ops, i, n)
      && forall j :: i < j < n ==> !OfSession(ops[j], a, session)
  }

  predicate OfSession(op: Op, a: AgentId, session: SessionRef) {
    (op.ObserveActivity? && op.agentId == a && op.session == Some(session))
    || (op.RemoveSession? && op.agentId == a && op.session == Some(session))
  }

  /** The last word about errors is that there is one. */
  ghost predicate InError(ops: seq<Op>, n: nat, a: AgentId)
    requires n <= |ops|
  {
    exists i :: 0 <= i < n && ops[i] == MarkError(a, true) && Unbroken(ops, i, n)
      && forall j :: i < j < n ==> !(ops[j].MarkError? && ops[j].agentId == a)
  }

  /** The agent, or all known ones, were reported offline. */
  ghost predicate TakesOffline(ops: seq<Op>, i: nat, a: AgentId)
    requires i < |ops|
  {
    ops[i] == MarkOffline(a, true) || (ops[i].MarkAllOffline? && Known(ops, i, a))
  }

  predicate BringsBack(op: Op, a: AgentId) {
    op == MarkOffline(a, false) || (op.ObserveActivity? && op.agentId == a && op.session != None && op.session != Some(""))
  }

  /** It was, and neither an activity nor a report brought it back since. */
  ghost predicate IsOffline(ops: seq<Op>, n: nat, a: AgentId)
    requires n <= |ops|
  {
    exists i :: 0 <= i < n && TakesOffline(ops, i, a) && Unbroken(ops, i, n) && forall j :: i < j < n ==> !BringsBack(ops[j], a)
  }

  // ---------------------------------------------------------------- one more operation

  lemma KnownStep(ops: seq<Op>, n: nat, a: AgentId)
    requires n < |ops|
    ensures Known(ops, n + 1, a) <==> !ops[n].Clear? && (Mentions(ops[n], a) || Known(ops, n, a))
  {
    if Known(ops, n, a) && !ops[n].Clear? {
      var i :| 0 <= i < n && Mentions(ops[i], a) && Unbroken(ops, i, n);
      assert Unbroken(ops, i, n + 1);
    }
    if Mentions(ops[n], a) && !ops[n].Clear? {
      assert Unbroken(ops, n, n + 1);
    }
    if Known(ops, n + 1, a) {
      var i :| 0 <= i < n + 1 && Mentions(ops[i], a) && Unbroken(ops, i, n + 1);
      assert i < n ==> Unbroken(ops, i, n);
    }
  }

  lemma ActiveStep(ops: seq<Op>, n: nat, a: AgentId, session: SessionRef, at: int)
    requires n < |ops|
    ensures ActiveAt(ops, n + 1, a, session, at) <==>
      if ops[n].ObserveActivity? && OfSession(ops[n], a, session) then session != "" && ops[n].at == at
      else !ops[n].Clear? && !OfSession(ops[n], a, session) && ActiveAt(ops, n, a, session, at)
  {
    if ActiveAt(ops, n, a, session, at) && !ops[n].Clear? && !OfSession(ops[n], a, session) {
      var i :| 0 <= i < n && ops[i] == Op.ObserveActivity(a, Some(session), at) && session != "" && Unbroken(ops, i, n)
        && forall j :: i < j < n ==> !OfSession(ops[j], a, session);
      assert Unbroken(ops, i, n + 1);
    }
    if ops[n] == Op.ObserveActivity(a, Some(session), at) && session != "" {
      assert Unbroken(ops, n, n + 1);
    }
    if ActiveAt(ops, n + 1, a, session, at) {
      var i :| 0 <= i < n + 1 && ops[i] == Op.ObserveActivity(a, Some(session), at) && session != "" && Unbroken(ops, i, n + 1)
        && forall j :: i < j < n + 1 ==> !OfSession(ops[j], a, session);
      assert i < n ==> Unbroken(ops, i, n);
    }
  }

  lemma ErrorStep(ops: seq<Op>, n: nat, a: AgentId)
    requires n < |ops|
    ensures InError(ops, n + 1, a) <==>
      if ops[n].MarkError? && ops[n].agentId == a then ops[n].hasError else !ops[n].Clear? && InError(ops, n, a)
  {
    if InError(ops, n, a) && !ops[n].Clear? && !(ops[n].MarkError? && ops[n].agentId == a) {
      var i :| 0 <= i < n && ops[i] == MarkError(a, true) && Unbroken(ops, i, n)
        && forall j :: i < j < n ==> !(ops[j].MarkError? && ops[j].agentId == a);
      assert Unbroken(ops, i, n + 1);
    }
    if ops[n] == MarkError(a, true) {
      assert Unbroken(ops, n, n + 1);
    }
    if InError(ops, n + 1, a) {
      var i :| 0 <= i < n + 1 && ops[i] == MarkError(a, true) && Unbroken(ops, i, n + 1)
        && forall j :: i < j < n + 1 ==> !(ops[j].MarkError? && ops[j].agentId == a);
      assert i < n ==> Unbroken(ops, i, n);
    }
  }

  lemma OfflineStep(ops: seq<Op>, n: nat, a: AgentId)
    requires n < |ops|
    ensures IsOffline(ops, n + 1, a) <==> TakesOffline(ops, n, a) || (!ops[n].Clear? && !BringsBack(ops[n], a) && IsOffline(ops, n, a))
  {
    hide Known;
    if IsOffline(ops, n, a) && !ops[n].Clear? && !BringsBack(ops[n], a) {
      var i :| 0 <= i < n && TakesOffline(ops, i, a) && Unbroken(ops, i, n) && forall j :: i < j < n ==> !BringsBack(ops[j], a);
      assert Unbroken(ops, i, n + 1);
    }
    if TakesOffline(ops, n, a) {
      assert Unbroken(ops, n, n + 1);
    }
    if IsOffline(ops, n + 1, a) {
      var i :| 0 <= i < n + 1 && TakesOffline(ops, i, a) && Unbroken(ops, i, n + 1) && forall j :: i < j < n + 1 ==> !BringsBack(ops[j], a);
      assert i < n ==> Unbroken(ops, i, n);
    }
  }

  // ---------------------------------------------------------------- the reducer's state is the history

  /** The reducer knows of the agent exactly what was reported. */
  ghost predicate Reported(ops: seq<Op>, n: nat, r: Reducer, a: AgentId)
    requires n <= |ops|
  {
    && (a in r.agents <==> Known(ops, n, a))
    && (a in r.agents ==>
          && (r.agents[a].hasError <==> InError(ops, n, a)) && (r.agents[a].offline <==> IsOffline(ops, n, a))
          && forall k, at :: k in r.agents[a].sessions && r.agents[a].sessions[k] == at <==> ActiveAt(ops, n, a, k, at))
    && (a !in r.agents ==> !InError(ops, n, a) && !IsOffline(ops, n, a) && forall k, at :: !ActiveAt(ops, n, a, k, at))
  }

  lemma {:induction false} StateIsHistory(ops: seq<Op>, n: nat, w: Windows, a: AgentId)
    requires n <= |ops|
    ensures Reported(ops, n, After(ops, n, w), a)
  {
    hide After, Reported;
    if n == 0 {
      NothingReported(ops, w, a);
    } else {
      StateIsHistory(ops, n - 1, w, a);
      StepIsReported(ops, n - 1, After(ops, n - 1, w), w, a);
      NextIsStep(ops, n, w);
    }
  }

  lemma NothingReported(ops: seq<Op>, w: Windows, a: AgentId)
    ensures Reported(ops, 0, After(ops, 0, w), a)
  {
    hide Unbroken, Step;
    assert After(ops, 0, w) == EMPTY;
  }

  lemma NextIsStep(ops: seq<Op>, n: nat, w: Windows)
    requires 0 < n <= |ops|
    ensures After(ops, n, w) == Step(After(ops, n - 1, w), ops[n - 1], w)
  {
    hide Step;
  }

  /** What an operation does to what the reducer holds of the agent. */
  lemma AgentStep(r: Reducer, op: Op, w: Windows, a: AgentId)
    ensures var after := Step(r, op, w).agents;
      && (a in after <==> !op.Clear? && (Mentions(op, a) || a in r.agents))
      && (a in after ==>
            var s := if a in r.agents then r.agents[a] else NEW_AGENT;
            && after[a].hasError == (if op.MarkError? && op.agentId == a then op.hasError else s.hasError)
            && after[a].offline == ((op == MarkOffline(a, true) || op.MarkAllOffline?) || (!BringsBack(op, a) && s.offline))
            && forall k :: SessionStep(s, after[a], op, a, k))
  {
    hide StatusOf;
    var after := Step(r, op, w).agents;
    if a in after {
      var s := if a in r.agents then r.agents[a] else NEW_AGENT;
      forall k ensures SessionStep(s, after[a], op, a, k) {
      }
    }
  }

  ghost predicate SessionStep(s: AgentState, after: AgentState, op: Op, a: AgentId, k: SessionRef) {
    if op.ObserveActivity? && OfSession(op, a, k) && k != "" then k in after.sessions && after.sessions[k] == op.at
    else if OfSession(op, a, k) && k != "" then k !in after.sessions
    else (k in after.sessions <==> k in s.sessions) && (k in s.sessions ==> after.sessions[k] == s.sessions[k])
  }

  lemma StepIsReported(ops: seq<Op>, n: nat, r: Reducer, w: Windows, a: AgentId)
    requires n < |ops| && Reported(ops, n, r, a)
    ensures Reported(ops, n + 1, Step(r, ops[n], w), a)
  {
    KnownStep(ops, n, a);
    ErrorStep(ops, n, a);
    OfflineStep(ops, n, a);
    AgentStep(r, ops[n], w, a);
    var after, m := Step(r, ops[n], w).agents, n + 1;
    hide Known, ActiveAt, InError, IsOffline, StatusOf, Unbroken, Step, SessionStep;
    if a in after {
      var s := if a in r.agents then r.agents[a] else NEW_AGENT;
      forall k, at ensures k in after[a].sessions && after[a].sessions[k] == at <==> ActiveAt(ops, m, a, k, at) {
        SessionIsReported(ops, n, s, after[a], a, k, at);
      }
    } else {
      forall k, at ensures !ActiveAt(ops, m, a, k, at) {
        ActiveStep(ops, n, a, k, at);
      }
    }
  }

  lemma SessionIsReported(ops: seq<Op>, n: nat, s: AgentState, after: AgentState, a: AgentId, k: SessionRef, at: int)
    requires n < |ops| && !ops[n].Clear? && SessionStep(s, after, ops[n], a, k)
    requires k in s.sessions && s.sessions[k] == at <==> ActiveAt(ops, n, a, k, at)
    ensures k in after.sessions && after.sessions[k] == at <==> ActiveAt(ops, n + 1, a, k, at)
  {
    ActiveStep(ops, n, a, k, at);
    BlankIsNoSession(ops, n, a, at);
    hide ActiveAt;
  }

  lemma BlankIsNoSession(ops: seq<Op>, n: nat, a: AgentId, at: int)
    requires n <= |ops|
    ensures !ActiveAt(ops, n, a, "", at)
  {
  }

  // ---------------------------------------------------------------- the status

  /** Some session of the agent was active at most that long ago. */
  ghost predicate ActiveSince(ops: seq<Op>, n: nat, a: AgentId, now: int, window: int)
    requires n <= |ops|
  {
    exists k, at :: ActiveAt(ops, n, a, k, at) && now - at <= window
  }

  /**
   * An evaluation notes for every known agent: offline if the last word says so, else error, else
   * working, idle or sleeping by its latest activity.
   */
  lemma StatusFromHistory(ops: seq<Op>, n: nat, w: Windows, a: AgentId)
    requires n < |ops| && ops[n].Evaluate?
    ensures Noted(After(ops, n + 1, w), a) ==
      if !Known(ops, n, a) then None
      else if IsOffline(ops, n, a) then Some(Offline)
      else if InError(ops, n, a) then Some(Error)
      else if ActiveSince(ops, n, a, ops[n].now, w.workingMs) then Some(Working)
      else if ActiveSince(ops, n, a, ops[n].now, w.sleepingMs) then Some(Idle)
      else Some(Sleeping)
  {
    StateIsHistory(ops, n, w, a);
    EvaluateNotes(After(ops, n, w), ops[n].now, w, a);
    NextIsStep(ops, n + 1, w);
    hide After, Step, Known, IsOffline, InError, ActiveAt, Noted;
    if a in After(ops, n, w).agents {
      var s := After(ops, n, w).agents[a];
      forall window ensures ActiveWithin(s, ops[n].now, window) <==> ActiveSince(ops, n, a, ops[n].now, window) {
        if k :| k in s.sessions && ops[n].now - s.sessions[k] <= window {
          assert ActiveAt(ops, n, a, k, s.sessions[k]);
        }
      }
    }
  }
}
