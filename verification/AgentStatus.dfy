/** Agent status: what the reducer's operations do to the agents' states and what it announces. */
module StatusSteps {
  import opened Options

  type AgentId = string
  type SessionRef = string

  datatype Status = Working | Idle | Sleeping | Error | Offline

  datatype AgentState = AgentState(sessions: map<SessionRef, int>, hasError: bool, offline: bool, lastStatus: Option<Status>)

  datatype Windows = Windows(workingMs: int, sleepingMs: int)

  datatype Transition = Transition(agentId: AgentId, status: Status)

  /** The agents, and their ids in the order of their creation. */
  datatype Reducer = Reducer(agents: map<AgentId, AgentState>, order: seq<AgentId>)

  const NEW_AGENT := AgentState(map[], false, false, None)

  const EMPTY := Reducer(map[], [])

  ghost predicate Valid(r: Reducer) {
    && (forall a :: a in r.agents <==> a in r.order)
    && forall i, j :: 0 <= i < j < |r.order| ==> r.order[i] != r.order[j]
  }

  /** Some session was active at most that long ago. */
  ghost predicate ActiveWithin(s: AgentState, now: int, window: int) {
    exists k :: k in s.sessions && now - s.sessions[k] <= window
  }

  ghost function StatusOf(s: AgentState, now: int, w: Windows): Status {
    if s.offline then Offline
    else if s.hasError then Error
    else if ActiveWithin(s, now, w.workingMs) then Working
    else if ActiveWithin(s, now, w.sleepingMs) then Idle
    else Sleeping
  }

  // ---------------------------------------------------------------- operations

  datatype Op =
    | ObserveActivity(agentId: AgentId, session: Option<SessionRef>, at: int)
    | RemoveSession(agentId: AgentId, session: Option<SessionRef>)
    | MarkError(agentId: AgentId, hasError: bool)
    | MarkOffline(agentId: AgentId, isOffline: bool)
    | MarkAllOffline
    | Evaluate(now: int)
    | Clear

  function Ensure(r: Reducer, a: AgentId): Reducer {
    if a in r.agents then r else Reducer(r.agents[a := NEW_AGENT], r.order + [a])
  }

  function Update(r: Reducer, a: AgentId, s: AgentState): Reducer {
    r.(agents := r.agents[a := s])
  }

  ghost function Step(r: Reducer, op: Op, w: Windows): Reducer {
    match op
    case ObserveActivity(a, session, at) =>
      var e := Ensure(r, a);
      var s := e.agents[a];
      if session.None? || session.value == "" then e
      else Update(e, a, s.(sessions := s.sessions[session.value := at], offline := false))
    case RemoveSession(a, session) =>
      if session.None? || session.value == "" || a !in r.agents then r
      else Update(r, a, r.agents[a].(sessions := r.agents[a].sessions - {session.value}))
    case MarkError(a, hasError) => Update(Ensure(r, a), a, Ensure(r, a).agents[a].(hasError := hasError))
    case MarkOffline(a, isOffline) => Update(Ensure(r, a), a, Ensure(r, a).agents[a].(offline := isOffline))
    case MarkAllOffline => r.(agents := map a | a in r.agents :: r.agents[a].(offline := true))
    case Evaluate(now) =>
      r.(agents := map a | a in r.agents :: r.agents[a].(lastStatus := Some(StatusOf(r.agents[a], now, w))))
    case Clear => EMPTY
  }

  /** What evaluating announces, for the agents from position i of the order on. */
  ghost function Announced(r: Reducer, now: int, w: Windows, i: nat): seq<Transition>
    requires Valid(r) && i <= |r.order|
    decreases |r.order| - i
  {
    if i == |r.order| then []
    else
      var a := r.order[i];
      var next := StatusOf(r.agents[a], now, w);
      (if r.agents[a].lastStatus == Some(next) then [] else [Transition(a, next)]) + Announced(r, now, w, i + 1)
  }

  lemma StepKeepsValid(r: Reducer, op: Op, w: Windows)
    requires Valid(r)
    ensures Valid(Step(r, op, w))
  {
    hide StatusOf;
  }

  // ---------------------------------------------------------------- replaying the announcements

  ghost function After(ops: seq<Op>, n: nat, w: Windows): (r: Reducer)
    requires n <= |ops|
    ensures Valid(r)
  {
    if n == 0 then EMPTY
    else
      StepKeepsValid(After(ops, n - 1, w), ops[n - 1], w);
      Step(After(ops, n - 1, w), ops[n - 1], w)
  }

  /** What operation n announces. */
  ghost function AnnouncedBy(ops: seq<Op>, n: nat, w: Windows): seq<Transition>
    requires n < |ops|
  {
    if ops[n].Evaluate? then Announced(After(ops, n, w), ops[n].now, w, 0) else []
  }

  /** Everything announced by the first n operations since the last clear among them. */
  ghost function Log(ops: seq<Op>, n: nat, w: Windows): seq<Transition>
    requires n <= |ops|
  {
    if n == 0 || ops[n - 1].Clear? then [] else Log(ops, n - 1, w) + AnnouncedBy(ops, n - 1, w)
  }

  /** The status last announced for the agent. */
  function Replay(log: seq<Transition>, a: AgentId): Option<Status> {
    if log == [] then None
    else if log[|log| - 1].agentId == a then Some(log[|log| - 1].status)
    else Replay(log[..|log| - 1], a)
  }

  lemma {:induction false} ReplayConcat(log: seq<Transition>, more: seq<Transition>, a: AgentId)
    ensures Replay(log + more, a) == Replay(more, a).OrElse(Replay(log, a))
    decreases |more|
  {
    if more == [] {
      assert log + more == log;
    } else {
      var front := more[..|more| - 1];
      assert (log + more)[..|log + more| - 1] == log + front;
      ReplayConcat(log, front, a);
    }
  }

  lemma ReplayOne(a: AgentId, t: Transition)
    ensures Replay([t], a) == if t.agentId == a then Some(t.status) else None
  {
    assert [t][..0] == [];
    assert Replay([], a) == None;
  }

  /** The announcements of one evaluation name each agent once, with its new status if that changed. */
  lemma {:induction false} AnnouncedFor(r: Reducer, now: int, w: Windows, i: nat, a: AgentId)
    requires Valid(r) && i <= |r.order|
    ensures Replay(Announced(r, now, w, i), a)
         == if a in r.order[i..] && r.agents[a].lastStatus != Some(StatusOf(r.agents[a], now, w))
            then Some(StatusOf(r.agents[a], now, w)) else None
    decreases |r.order| - i
  {
    hide StatusOf, Replay;
    if i < |r.order| {
      var b := r.order[i];
      var t := Transition(b, StatusOf(r.agents[b], now, w));
      AnnouncedFor(r, now, w, i + 1, a);
      assert r.order[i..] == [b] + r.order[i + 1..];
      assert a == b ==> a !in r.order[i + 1..];
      assert b in r.agents;
      var rest := Announced(r, now, w, i + 1);
      assert [] + rest == rest;
      ReplayConcat([t], rest, a);
      ReplayOne(a, t);
    } else {
      assert Replay([], a) == None by { ReplayNothing(a); }
    }
  }

  lemma ReplayNothing(a: AgentId)
    ensures Replay([], a) == None
  {
  }

  /** The status noted for the agent. */
  function Noted(r: Reducer, a: AgentId): Option<Status> {
    if a in r.agents then r.agents[a].lastStatus else None
  }

  lemma OthersKeepNoted(r: Reducer, op: Op, w: Windows, a: AgentId)
    requires !op.Evaluate? && !op.Clear?
    ensures Noted(Step(r, op, w), a) == Noted(r, a)
  {
    hide StatusOf;
  }

  lemma EvaluateNotes(r: Reducer, now: int, w: Windows, a: AgentId)
    ensures Noted(Step(r, Evaluate(now), w), a) == if a in r.agents then Some(StatusOf(r.agents[a], now, w)) else None
  {
    hide StatusOf;
  }

  /** Replaying what was announced since the last clear gives, for every agent, the status noted for it. */
  lemma {:induction false} ReplayIsNoted(ops: seq<Op>, n: nat, w: Windows, a: AgentId)
    requires n <= |ops|
    ensures Replay(Log(ops, n, w), a) == Noted(After(ops, n, w), a)
  {
    hide StatusOf, Announced;
    if n > 0 {
      ReplayIsNoted(ops, n - 1, w, a);
      ReplayNothing(a);
      hide Replay;
      var r, op := After(ops, n - 1, w), ops[n - 1];
      if op.Clear? {
        assert After(ops, n, w) == EMPTY;
      } else if op.Evaluate? {
        AnnouncedFor(r, op.now, w, 0, a);
        assert r.order[0..] == r.order;
        ReplayConcat(Log(ops, n - 1, w), Announced(r, op.now, w, 0), a);
        EvaluateNotes(r, op.now, w, a);
      } else {
        assert Log(ops, n - 1, w) + [] == Log(ops, n - 1, w);
        OthersKeepNoted(r, op, w, a);
      }
    }
  }

  /** After an evaluation the announcements replay to every agent's computed status. */
  lemma ReplayIsComputed(ops: seq<Op>, n: nat, w: Windows, a: AgentId)
    requires n < |ops| && ops[n].Evaluate?
    ensures a in After(ops, n, w).agents ==>
      Replay(Log(ops, n + 1, w), a) == Some(StatusOf(After(ops, n, w).agents[a], ops[n].now, w))
  {
    hide StatusOf, Step, Announced, Replay, Log;
    ReplayIsNoted(ops, n + 1, w, a);
    EvaluateNotes(After(ops, n, w), ops[n].now, w, a);
  }

  /** No two consecutive announcements for an agent are equal. */
  ghost predicate NoRepeats(log: seq<Transition>) {
    forall i :: 0 <= i < |log| ==> Replay(log[..i], log[i].agentId) != Some(log[i].status)
  }

  /** What an agent's part of an evaluation announces differs from what is noted, and comes once. */
  lemma {:induction false} AnnouncedAt(r: Reducer, now: int, w: Windows, i: nat, k: nat)
    requires Valid(r) && i <= |r.order| && k < |Announced(r, now, w, i)|
    ensures var ts := Announced(r, now, w, i); var a := ts[k].agentId;
      a in r.order[i..] && a in r.agents && r.agents[a].lastStatus != Some(ts[k].status) && Replay(ts[..k], a) == None
    decreases |r.order| - i
  {
    hide StatusOf, Replay;
    var ts, b, rest := Announced(r, now, w, i), r.order[i], Announced(r, now, w, i + 1);
    var t := Transition(b, StatusOf(r.agents[b], now, w));
    assert ts == rest || (ts == [t] + rest && r.agents[b].lastStatus != Some(t.status));
    assert b in r.agents && b in r.order[i..] && b !in r.order[i + 1..] && r.order[i..] == [b] + r.order[i + 1..];
    hide Announced, Valid;
    if ts == rest {
      AnnouncedAt(r, now, w, i + 1, k);
    } else if k == 0 {
      assert ts[..0] == [];
      ReplayNothing(b);
    } else {
      AnnouncedAt(r, now, w, i + 1, k - 1);
      AnnouncedAfter(t, rest, k);
    }
  }

  lemma AnnouncedAfter(t: Transition, rest: seq<Transition>, k: nat)
    requires 0 < k <= |rest| && rest[k - 1].agentId != t.agentId
    ensures Replay(([t] + rest)[..k], rest[k - 1].agentId) == Replay(rest[..k - 1], rest[k - 1].agentId)
  {
    var a := rest[k - 1].agentId;
    assert ([t] + rest)[..k] == [t] + rest[..k - 1];
    hide Replay;
    ReplayConcat([t], rest[..k - 1], a);
    ReplayOne(a, t);
  }

  lemma {:induction false} AnnouncementsNeverRepeat(ops: seq<Op>, n: nat, w: Windows)
    requires n <= |ops|
    ensures NoRepeats(Log(ops, n, w))
  {
    hide Replay, Announced, After;
    if n > 0 && !ops[n - 1].Clear? {
      AnnouncementsNeverRepeat(ops, n - 1, w);
      if ops[n - 1].Evaluate? {
        EvaluationNeverRepeats(ops, n - 1, w);
      } else {
        assert Log(ops, n, w) == Log(ops, n - 1, w);
      }
    }
  }

  lemma EvaluationNeverRepeats(ops: seq<Op>, n: nat, w: Windows)
    requires n < |ops| && ops[n].Evaluate? && NoRepeats(Log(ops, n, w))
    ensures NoRepeats(Log(ops, n + 1, w))
  {
    var r, log := After(ops, n, w), Log(ops, n, w);
    var ts := Announced(r, ops[n].now, w, 0);
    var all := Log(ops, n + 1, w);
    assert all == log + ts;
    hide After, Log, Replay, Announced;
    forall i | 0 <= i < |all| ensures Replay(all[..i], all[i].agentId) != Some(all[i].status) {
      if i < |log| {
        assert all[..i] == log[..i];
      } else {
        var k := i - |log|;
        assert all[..i] == log + ts[..k] && all[i] == ts[k];
        AnnouncedAt(r, ops[n].now, w, 0, k);
        ReplayConcat(log, ts[..k], ts[k].agentId);
        ReplayIsNoted(ops, n, w, ts[k].agentId);
      }
    }
  }

  /** The operation announces the status for the agent. */
  ghost predicate Announces(ops: seq<Op>, n: nat, w: Windows, a: AgentId, status: Status)
    requires n < |ops|
  {
    Transition(a, status) in AnnouncedBy(ops, n, w)
  }

  lemma AnnouncedIsNoted(ops: seq<Op>, n: nat, w: Windows, a: AgentId, status: Status)
    requires n < |ops|
    ensures Announces(ops, n, w, a, status) ==> Noted(After(ops, n, w), a) != Some(status) && Noted(After(ops, n + 1, w), a) == Some(status)
    ensures !ops[n].Clear? && Noted(After(ops, n + 1, w), a) != Noted(After(ops, n, w), a) ==>
      exists other :: Announces(ops, n, w, a, other) && Noted(After(ops, n + 1, w), a) == Some(other)
  {
    var r, op := After(ops, n, w), ops[n];
    hide StatusOf, Step;
    if op.Evaluate? {
      EvaluateNotes(r, op.now, w, a);
      if a in r.agents {
        MembersAnnounced(r, op.now, w, 0, a);
        assert r.order[0..] == r.order;
      }
      if Announces(ops, n, w, a, status) {
        var k :| 0 <= k < |AnnouncedBy(ops, n, w)| && AnnouncedBy(ops, n, w)[k] == Transition(a, status);
        AnnouncedAt(r, op.now, w, 0, k);
        MembersAnnounced(r, op.now, w, 0, a);
        assert r.order[0..] == r.order;
      }
    } else if !op.Clear? {
      OthersKeepNoted(r, op, w, a);
    }
  }

  /** The announcements for one agent: its new status if that differs from the noted one. */
  lemma {:induction false} MembersAnnounced(r: Reducer, now: int, w: Windows, i: nat, a: AgentId)
    requires Valid(r) && i <= |r.order| && a in r.agents
    ensures forall status :: Transition(a, status) in Announced(r, now, w, i) <==>
      a in r.order[i..] && status == StatusOf(r.agents[a], now, w) && r.agents[a].lastStatus != Some(status)
    decreases |r.order| - i
  {
    hide StatusOf;
    if i < |r.order| {
      MembersAnnounced(r, now, w, i + 1, a);
      var b, rest := r.order[i], Announced(r, now, w, i + 1);
      assert r.order[i..] == [b] + r.order[i + 1..] && b in r.agents && b !in r.order[i + 1..];
      var t := Transition(b, StatusOf(r.agents[b], now, w));
      assert Announced(r, now, w, i) == rest || Announced(r, now, w, i) == [t] + rest;
    }
  }

  /** The operation neither clears nor announces anything for the agent. */
  ghost predicate Quiet(ops: seq<Op>, n: nat, w: Windows, a: AgentId)
    requires n < |ops|
  {
    !ops[n].Clear? && forall status :: !Announces(ops, n, w, a, status)
  }

  lemma QuietKeepsNoted(ops: seq<Op>, n: nat, w: Windows, a: AgentId)
    requires n < |ops| && Quiet(ops, n, w, a)
    ensures Noted(After(ops, n + 1, w), a) == Noted(After(ops, n, w), a)
  {
    AnnouncedIsNoted(ops, n, w, a, Idle);
    hide Announces, Noted, After;
  }

  lemma {:induction false} NotedStays(ops: seq<Op>, m: nat, n: nat, w: Windows, a: AgentId)
    requires m <= n <= |ops| && forall k :: m <= k < n ==> Quiet(ops, k, w, a)
    ensures Noted(After(ops, n, w), a) == Noted(After(ops, m, w), a)
    decreases n
  {
    hide Quiet, Noted, After;
    if m < n {
      NotedStays(ops, m, n - 1, w, a);
      QuietKeepsNoted(ops, n - 1, w, a);
    }
  }

  /** Between two announcements of the same status for an agent lies another one for it, or a clear. */
  lemma EqualAnnouncementsAreApart(ops: seq<Op>, m: nat, n: nat, w: Windows, a: AgentId, status: Status)
    requires m < n < |ops| && Announces(ops, m, w, a, status) && Announces(ops, n, w, a, status)
    ensures exists k :: m < k < n && !Quiet(ops, k, w, a)
  {
    hide Quiet, Noted, After, Announces;
    AnnouncedIsNoted(ops, m, w, a, status);
    AnnouncedIsNoted(ops, n, w, a, status);
    if forall k :: m + 1 <= k < n ==> Quiet(ops, k, w, a) {
      NotedStays(ops, m + 1, n, w, a);
    }
  }

  /** A clear does make an announcement repeat: the forgotten agent starts anew. */
  lemma ClearRepeatsAnnouncement(a: AgentId, session: SessionRef, w: Windows)
    requires session != "" && w.workingMs >= 0
    ensures var ops := [ObserveActivity(a, Some(session), 0), Evaluate(0), Clear, ObserveActivity(a, Some(session), 0), Evaluate(0)];
      AnnouncedBy(ops, 1, w) == [Transition(a, Working)] && AnnouncedBy(ops, 2, w) == [] && AnnouncedBy(ops, 3, w) == []
      && AnnouncedBy(ops, 4, w) == [Transition(a, Working)]
  {
    var seen := ObserveActivity(a, Some(session), 0);
    var ops := [seen, Evaluate(0), Clear, seen, Evaluate(0)];
    assert After(ops, 0, w) == EMPTY;
    assert After(ops, 1, w) == Step(EMPTY, seen, w);
    assert After(ops, 3, w) == EMPTY;
    assert After(ops, 4, w) == Step(EMPTY, seen, w);
    FirstAnnouncement(a, session, w);
  }

  lemma FirstAnnouncement(a: AgentId, session: SessionRef, w: Windows)
    requires session != "" && w.workingMs >= 0
    ensures var r := Step(EMPTY, ObserveActivity(a, Some(session), 0), w); Valid(r) && Announced(r, 0, w, 0) == [Transition(a, Working)]
  {
    var r := Step(EMPTY, ObserveActivity(a, Some(session), 0), w);
    var s := r.agents[a];
    assert r.order == [a] && r.agents.Keys == {a};
    assert session in s.sessions && s.sessions[session] == 0 && !s.offline && !s.hasError && s.lastStatus == None;
    hide Step;
    assert ActiveWithin(s, 0, w.workingMs);
    assert StatusOf(s, 0, w) == Working;
    hide StatusOf;
    assert Announced(r, 0, w, 1) == [];
  }

  // ---------------------------------------------------------------- ageing

  /** Without new input a status stays or moves from working to idle to sleeping. */
  predicate AgesTo(earlier: Status, later: Status) {
    later == earlier || (earlier == Working && later != Error && later != Offline) || (earlier == Idle && later == Sleeping)
  }

  lemma StatusAges(s: AgentState, now: int, later: int, w: Windows)
    requires now <= later
    ensures AgesTo(StatusOf(s, now, w), StatusOf(s, later, w))
  {
    if ActiveWithin(s, later, w.workingMs) {
      var k :| k in s.sessions && later - s.sessions[k] <= w.workingMs;
      assert now - s.sessions[k] <= w.workingMs;
    }
    if ActiveWithin(s, later, w.sleepingMs) {
      var k :| k in s.sessions && later - s.sessions[k] <= w.sleepingMs;
      assert now - s.sessions[k] <= w.sleepingMs;
    }
  }

  lemma EvaluateKeepsInput(r: Reducer, now: int, w: Windows, a: AgentId)
    requires a in r.agents
    ensures var e := Step(r, Evaluate(now), w); a in e.agents && e.agents[a].(lastStatus := None) == r.agents[a].(lastStatus := None)
  {
    hide StatusOf;
  }

  /** Evaluations in a row change nothing but the noted statuses. */
  lemma {:induction false} EvaluationsKeepInput(ops: seq<Op>, m: nat, n: nat, w: Windows, a: AgentId)
    requires m <= n <= |ops| && a in After(ops, m, w).agents && forall i :: m <= i < n ==> ops[i].Evaluate?
    ensures a in After(ops, n, w).agents
    ensures After(ops, n, w).agents[a].(lastStatus := None) == After(ops, m, w).agents[a].(lastStatus := None)
    decreases n
  {
    hide Step;
    if m < n {
      EvaluationsKeepInput(ops, m, n - 1, w, a);
      assert ops[n - 1].Evaluate?;
      EvaluateKeepsInput(After(ops, n - 1, w), ops[n - 1].now, w, a);
    }
  }

  /** Over evaluations in a row on a clock that does not go back, the announced status only ages. */
  lemma AnnouncedStatusOnlyAges(ops: seq<Op>, m: nat, n: nat, w: Windows, a: AgentId)
    requires m < n < |ops| && a in After(ops, m, w).agents && forall i :: m <= i <= n ==> ops[i].Evaluate?
    requires ops[m].now <= ops[n].now
    ensures Replay(Log(ops, m + 1, w), a).Some? && Replay(Log(ops, n + 1, w), a).Some?
    ensures AgesTo(Replay(Log(ops, m + 1, w), a).value, Replay(Log(ops, n + 1, w), a).value)
  {
    EvaluationsKeepInput(ops, m, n, w, a);
    ReplayIsComputed(ops, m, w, a);
    ReplayIsComputed(ops, n, w, a);
    var s, t := After(ops, m, w).agents[a], After(ops, n, w).agents[a];
    NotedDoesNotMatter(s, t, ops[n].now, w);
    StatusAges(s, ops[m].now, ops[n].now, w);
  }

  lemma NotedDoesNotMatter(s: AgentState, t: AgentState, now: int, w: Windows)
    requires s.(lastStatus := None) == t.(lastStatus := None)
    ensures StatusOf(s, now, w) == StatusOf(t, now, w)
  {
    assert s.sessions == t.sessions && s.hasError == t.hasError && s.offline == t.offline;
    assert forall window :: ActiveWithin(s, now, window) == ActiveWithin(t, now, window);
  }
}

/** The status reducer as a class. */
module AgentStatus {
  import opened Options
  import opened StatusSteps

  class AgentStatusReducer {
    const windows: Windows
    var agents: map<AgentId, AgentState>
    var order: seq<AgentId>

    ghost function View(): Reducer
      reads this
    {
      Reducer(agents, order)
    }

    constructor (windows: Windows)
      ensures View() == EMPTY && this.windows == windows
    {
      this.windows := windows;
      agents, order := map[], [];
    }

    method Clear()
      modifies this
      ensures View() == Step(old(View()), Op.Clear, windows)
    {
      agents, order := map[], [];
    }

    method EnsureAgent(a: AgentId)
      modifies this
      ensures View() == Ensure(old(View()), a)
    {
      if a !in agents {
        agents := agents[a := NEW_AGENT];
        order := order + [a];
      }
    }

    method ObserveActivity(a: AgentId, session: Option<SessionRef>, at: int)
      modifies this
      ensures View() == Step(old(View()), Op.ObserveActivity(a, session, at), windows)
    {
      EnsureAgent(a);
      if session.None? || session.value == "" {
        return;
      }
      agents := agents[a := agents[a].(sessions := agents[a].sessions[session.value := at])];
      agents := agents[a := agents[a].(offline := false)];
    }

    method RemoveSession(a: AgentId, session: Option<SessionRef>)
      modifies this
      ensures View() == Step(old(View()), Op.RemoveSession(a, session), windows)
    {
      if session.None? || session.value == "" || a !in agents {
        return;
      }
      agents := agents[a := agents[a].(sessions := agents[a].sessions - {session.value})];
    }

    method MarkAgentError(a: AgentId, hasError: bool)
      modifies this
      ensures View() == Step(old(View()), MarkError(a, hasError), windows)
    {
      EnsureAgent(a);
      agents := agents[a := agents[a].(hasError := hasError)];
    }

    method MarkAgentOffline(a: AgentId, isOffline: bool)
      modifies this
      ensures View() == Step(old(View()), MarkOffline(a, isOffline), windows)
    {
      EnsureAgent(a);
      agents := agents[a := agents[a].(offline := isOffline)];
    }

    method MarkAllOffline()
      requires Valid(View())
      modifies this`agents
      ensures View() == Step(old(View()), Op.MarkAllOffline, windows)
    {
      for i := 0 to |order|
        invariant agents.Keys == old(agents).Keys
        invariant forall a :: a in agents ==> agents[a] == if a in order[..i] then old(agents)[a].(offline := true) else old(agents)[a]
      {
        agents := agents[order[i] := agents[order[i]].(offline := true)];
      }
      assert order[..|order|] == order;
    }

    /** Announces every agent whose status changed, in the order of the agents, and notes all statuses. */
    method EvaluateTransitions(now: int) returns (transitions: seq<Transition>)
      requires Valid(View())
      modifies this`agents
      ensures View() == Step(old(View()), Evaluate(now), windows)
      ensures transitions == Announced(old(View()), now, windows, 0)
    {
      hide StatusOf, Announced, Step;
      ghost var was := View();
      transitions := [];
      NothingNoted(was, now, windows);
      for i := 0 to |order|
        invariant PartlyNoted(was, agents, i, now, windows)
        invariant transitions + Announced(was, now, windows, i) == Announced(was, now, windows, 0)
      {
        var a := order[i];
        NoteOne(was, agents, i, now, windows);
        var next := ComputeStatus(agents[a], now);
        AnnounceOne(was, transitions, i, now, windows);
        if agents[a].lastStatus != Some(next) {
          agents := agents[a := agents[a].(lastStatus := Some(next))];
          transitions := transitions + [Transition(a, next)];
        }
      }
      AllNoted(was, agents, now, windows);
      assert transitions + [] == transitions;
    }

    /** The status follows from the latest activity alone. */
    method ComputeStatus(s: AgentState, now: int) returns (status: Status)
      ensures status == StatusOf(s, now, windows)
    {
      var latest := GetLatestSessionActivity(s);
      if s.offline {
        return Offline;
      }
      if s.hasError {
        return Error;
      }
      if latest.None? {
        return Sleeping;
      }
      LatestDecides(s, now, windows.workingMs, latest.value);
      LatestDecides(s, now, windows.sleepingMs, latest.value);
      var age := now - latest.value;
      return if age <= windows.workingMs then Working else if age <= windows.sleepingMs then Idle else Sleeping;
    }

    method GetLatestSessionActivity(s: AgentState) returns (latest: Option<int>)
      ensures latest.None? <==> s.sessions == map[]
      ensures latest.Some? ==> IsLatest(s, latest.value)
    {
      latest := None;
      var rest := s.sessions.Keys;
      while rest != {}
        invariant rest <= s.sessions.Keys
        invariant latest.None? ==> rest == s.sessions.Keys
        invariant latest.Some? ==> exists k :: k in s.sessions && s.sessions[k] == latest.value
        invariant latest.Some? ==> forall k :: k in s.sessions && k !in rest ==> s.sessions[k] <= latest.value
        decreases rest
      {
        var k :| k in rest;
        if latest.None? || s.sessions[k] > latest.value {
          latest := Some(s.sessions[k]);
        }
        rest := rest - {k};
      }
    }
  }

  predicate IsLatest(s: AgentState, t: int) {
    (exists k :: k in s.sessions && s.sessions[k] == t) && forall k :: k in s.sessions ==> s.sessions[k] <= t
  }

  lemma LatestDecides(s: AgentState, now: int, window: int, latest: int)
    requires IsLatest(s, latest)
    ensures ActiveWithin(s, now, window) <==> now - latest <= window
  {
    var k :| k in s.sessions && s.sessions[k] == latest;
    if now - latest <= window {
      assert k in s.sessions && now - s.sessions[k] <= window;
    }
  }

  /** The statuses of the first i agents are noted. */
  ghost predicate PartlyNoted(was: Reducer, agents: map<AgentId, AgentState>, i: nat, now: int, w: Windows)
    requires i <= |was.order|
  {
    agents.Keys == was.agents.Keys && forall a :: a in agents ==>
      agents[a] == if a in was.order[..i] then was.agents[a].(lastStatus := Some(StatusOf(was.agents[a], now, w))) else was.agents[a]
  }

  lemma NothingNoted(was: Reducer, now: int, w: Windows)
    requires Valid(was)
    ensures PartlyNoted(was, was.agents, 0, now, w) && [] + Announced(was, now, w, 0) == Announced(was, now, w, 0)
  {
    hide StatusOf, Announced;
  }

  lemma NoteOne(was: Reducer, agents: map<AgentId, AgentState>, i: nat, now: int, w: Windows)
    requires Valid(was) && i < |was.order| && PartlyNoted(was, agents, i, now, w)
    ensures was.order[i] in agents && agents[was.order[i]] == was.agents[was.order[i]]
    ensures var s := agents[was.order[i]];
      PartlyNoted(was, agents[was.order[i] := s.(lastStatus := Some(StatusOf(s, now, w)))], i + 1, now, w)
    ensures agents[was.order[i]].lastStatus == Some(StatusOf(agents[was.order[i]], now, w)) ==> PartlyNoted(was, agents, i + 1, now, w)
  {
    hide StatusOf;
    var a := was.order[i];
    assert a in was.order && a !in was.order[..i] && was.order[..i + 1] == was.order[..i] + [a];
  }

  lemma AnnounceOne(was: Reducer, transitions: seq<Transition>, i: nat, now: int, w: Windows)
    requires Valid(was) && i < |was.order|
    ensures var a := was.order[i]; var next := StatusOf(was.agents[a], now, w); var rest := Announced(was, now, w, i + 1);
      transitions + Announced(was, now, w, i)
      == if was.agents[a].lastStatus == Some(next) then transitions + rest else (transitions + [Transition(a, next)]) + rest
  {
    hide StatusOf;
  }

  lemma AllNoted(was: Reducer, agents: map<AgentId, AgentState>, now: int, w: Windows)
    requires Valid(was) && PartlyNoted(was, agents, |was.order|, now, w)
    ensures Reducer(agents, was.order) == Step(was, Evaluate(now), w) && Announced(was, now, w, |was.order|) == []
  {
    hide StatusOf;
    assert was.order[..|was.order|] == was.order;
  }
}
