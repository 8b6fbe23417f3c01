/**
 * One runtime's transport manager: its role, its queue of events waiting to be relayed, and
 * its timers. Every segment of code between two awaits is one step.
 */
module ManagerSteps {
  import opened TransportLock
  import JsonText

  type Event = JsonText.Text  // an event is represented by its id

  datatype Role = Owner | Follower
  datatype Mode = OwnerMode | FollowerMode

  /** What a running flush loop is waiting for. */
  datatype Await = Sending(event: Event) | Handling(event: Event)

  datatype Phase = Created | Running | Stopping | Stopped

  datatype Manager = Manager(
    me: Runtime, mode: Mode, maxPending: nat,
    phase: Phase, role: Role, ownsLock: bool, server: bool,
    pending: seq<Event>, flushing: bool, loops: seq<Await>,
    retryTimer: bool, recoveryTimer: bool, heartbeatTimer: bool)
  {
    predicate IsStopped() { phase.Stopping? || phase.Stopped? }
  }

  function NewManager(me: Runtime, mode: Mode, maxPending: nat): Manager {
    Manager(me, mode, maxPending, Created, Follower, false, false, [], false, [], false, false, false)
  }

  // ---------------------------------------------------------------- timers and the flush loop

  function ScheduleFlush(m: Manager): Manager {
    if m.retryTimer || m.IsStopped() then m else m.(retryTimer := true)
  }

  function ScheduleOwnerRecovery(m: Manager): Manager {
    if m.mode.FollowerMode? || m.IsStopped() || m.recoveryTimer then m else m.(recoveryTimer := true)
  }

  /** Leaving the loop, normally or by an exception. */
  function EndFlush(m: Manager): Manager {
    var idle := m.(flushing := false);
    if idle.pending != [] && !idle.retryTimer && !idle.IsStopped() then ScheduleFlush(idle) else idle
  }

  /** The head of the loop: up to the next await, or out of the loop. */
  function LoopHead(m: Manager): Manager {
    if m.pending == [] || m.IsStopped() then EndFlush(m)
    else if m.role.Owner? then m.(pending := m.pending[1..], loops := m.loops + [Handling(m.pending[0])])
    else m.(loops := m.loops + [Sending(m.pending[0])])
  }

  function WithoutLoop(m: Manager, i: nat): Manager
    requires i < |m.loops|
  {
    m.(loops := m.loops[..i] + m.loops[i + 1..])
  }

  // ---------------------------------------------------------------- steps without the lock

  function Enqueue(m: Manager, e: Event): Manager {
    var room := if |m.pending| >= m.maxPending && m.pending != [] then m.pending[1..] else m.pending;
    ScheduleFlush(m.(pending := room + [e]))
  }

  /** The owner handles an event itself; a follower queues it. */
  function Dispatch(m: Manager, e: Event): Manager {
    if m.role.Owner? then m else Enqueue(m, e)
  }

  function RetryFires(m: Manager): Manager
    requires m.retryTimer
  {
    var fired := m.(retryTimer := false);
    if fired.flushing || fired.IsStopped() then fired else LoopHead(fired.(flushing := true))
  }

  function SendSucceeded(m: Manager, i: nat): Manager
    requires i < |m.loops| && m.loops[i].Sending?
  {
    var rest := if m.pending == [] then [] else m.pending[1..];
    LoopHead(WithoutLoop(m, i).(pending := rest))
  }

  function SendFailed(m: Manager, i: nat): Manager
    requires i < |m.loops| && m.loops[i].Sending?
  {
    EndFlush(ScheduleFlush(WithoutLoop(m, i)))
  }

  function HandlerFinished(m: Manager, i: nat): Manager
    requires i < |m.loops| && m.loops[i].Handling?
  {
    LoopHead(WithoutLoop(m, i))
  }

  function HandlerFailed(m: Manager, i: nat): Manager
    requires i < |m.loops| && m.loops[i].Handling?
  {
    EndFlush(WithoutLoop(m, i))
  }

  // ---------------------------------------------------------------- steps on the lock

  /** The faults one attempt to become owner may meet: in acquiring, and in the first heartbeat. */
  function TryBecomeOwner(m: Manager, lock: LockFile, host: Host, faults: Faults, beatFault: bool): (Manager, LockFile) {
    var (taken, result) := Acquire(lock, m.me, host, faults);
    if !result.Acquired? then (m.(role := Follower), taken)
    else (m.(ownsLock := true, recoveryTimer := false, role := Owner, server := true, heartbeatTimer := !beatFault),
          Refresh(taken, m.me, host.now, beatFault))
  }

  function Start(m: Manager, lock: LockFile, host: Host, faults: Faults, beatFault: bool): (Manager, LockFile)
    requires m.phase.Created?
  {
    var running := m.(phase := Running);
    if m.mode.FollowerMode? then (running.(role := Follower), lock)
    else
      var (tried, after) := TryBecomeOwner(running, lock, host, faults, beatFault);
      if tried.role.Owner? then (tried, after) else (ScheduleOwnerRecovery(tried), after)
  }

  function RecoveryFires(m: Manager, lock: LockFile, host: Host, faults: Faults, beatFault: bool): (Manager, LockFile)
    requires m.recoveryTimer
  {
    var fired := m.(recoveryTimer := false);
    if fired.IsStopped() || fired.role.Owner? then (fired, lock)
    else
      var (tried, after) := TryBecomeOwner(fired, lock, host, faults, beatFault);
      if tried.role.Owner? then (tried, after) else (ScheduleOwnerRecovery(tried), after)
  }

  /** The owner's server closed or failed, or a heartbeat could not be written. */
  function OwnerFails(m: Manager, lock: LockFile, releaseFault: bool): (Manager, LockFile) {
    if m.IsStopped() || m.role.Follower? then (m, lock)
    else
      var after := if m.ownsLock then Release(lock, m.me, releaseFault) else lock;
      var demoted := ScheduleOwnerRecovery(m.(server := false, heartbeatTimer := false, ownsLock := false, role := Follower));
      (if demoted.pending != [] then ScheduleFlush(demoted) else demoted, after)
  }

  function HeartbeatFires(m: Manager, lock: LockFile, now: int, fault: bool, releaseFault: bool): (Manager, LockFile)
    requires m.heartbeatTimer
  {
    if m.ownsLock && !fault then (m, Refresh(lock, m.me, now, false)) else OwnerFails(m, lock, releaseFault)
  }

  /** Stopping clears the timers, waits for the server to close, and then gives the lock up. */
  function StopBegins(m: Manager): Manager {
    m.(phase := Stopping, recoveryTimer := false, retryTimer := false, heartbeatTimer := false, server := false)
  }

  function StopEnds(m: Manager, lock: LockFile, releaseFault: bool): (Manager, LockFile)
    requires m.phase.Stopping?
  {
    if m.ownsLock then (m.(phase := Stopped, ownsLock := false), Release(lock, m.me, releaseFault))
    else (m.(phase := Stopped), lock)
  }

  // ---------------------------------------------------------------- what every step keeps

  /** The timers are what the phase and role ask for; the queue is bounded. */
  ghost predicate TimersFit(m: Manager) {
    && m.maxPending >= 1
    && |m.pending| <= m.maxPending
    && (m.phase.Created? ==> !m.recoveryTimer && !m.heartbeatTimer && m.role.Follower?)
    && (m.phase.Running? && m.mode.OwnerMode? && m.role.Follower? ==> m.recoveryTimer)
    && (m.IsStopped() ==> !m.retryTimer && !m.recoveryTimer && !m.heartbeatTimer)
  }

  /**
   * No lost wakeups: waiting events are being flushed or will be retried, one flush loop at most
   * runs, the queue is bounded, and an owner-mode runtime that is not the owner will try again.
   */
  ghost predicate Awake(m: Manager) {
    && TimersFit(m)
    && |m.loops| == (if m.flushing then 1 else 0)
    && (!m.IsStopped() && m.pending != [] ==> m.flushing || m.retryTimer)
  }

  /** Between two awaits of the only loop. */
  ghost predicate InLoop(m: Manager) {
    TimersFit(m) && m.flushing && m.loops == []
  }

  datatype Step =
    | Dispatches(e: Event)
    | Retries
    | Sent(i: nat)
    | Failed(i: nat)
    | Handled(i: nat)
    | Threw(i: nat)
    | Starts(host: Host, faults: Faults, beatFault: bool)
    | Recovers(host: Host, faults: Faults, beatFault: bool)
    | Breaks(releaseFault: bool)
    | Beats(now: int, fault: bool, releaseFault: bool)
    | Stops
    | Closes(releaseFault: bool)

  predicate Enabled(m: Manager, s: Step) {
    match s
    case Dispatches(_) => true
    case Retries => m.retryTimer
    case Sent(i) => i < |m.loops| && m.loops[i].Sending?
    case Failed(i) => i < |m.loops| && m.loops[i].Sending?
    case Handled(i) => i < |m.loops| && m.loops[i].Handling?
    case Threw(i) => i < |m.loops| && m.loops[i].Handling?
    case Starts(_, _, _) => m.phase.Created?
    case Recovers(_, _, _) => m.recoveryTimer
    case Breaks(_) => true
    case Beats(_, _, _) => m.heartbeatTimer
    case Stops => true
    case Closes(_) => m.phase.Stopping?
  }

  function Take(m: Manager, lock: LockFile, s: Step): (Manager, LockFile)
    requires Enabled(m, s)
  {
    match s
    case Dispatches(e) => (Dispatch(m, e), lock)
    case Retries => (RetryFires(m), lock)
    case Sent(i) => (SendSucceeded(m, i), lock)
    case Failed(i) => (SendFailed(m, i), lock)
    case Handled(i) => (HandlerFinished(m, i), lock)
    case Threw(i) => (HandlerFailed(m, i), lock)
    case Starts(host, faults, beatFault) => Start(m, lock, host, faults, beatFault)
    case Recovers(host, faults, beatFault) => RecoveryFires(m, lock, host, faults, beatFault)
    case Breaks(releaseFault) => OwnerFails(m, lock, releaseFault)
    case Beats(now, fault, releaseFault) => HeartbeatFires(m, lock, now, fault, releaseFault)
    case Stops => (StopBegins(m), lock)
    case Closes(releaseFault) => StopEnds(m, lock, releaseFault)
  }

  lemma LoopHeadIsAwake(m: Manager)
    requires InLoop(m)
    ensures Awake(LoopHead(m)) && Awake(EndFlush(m))
  {
  }

  lemma LoopEndsAlone(m: Manager, i: nat)
    requires Awake(m) && i < |m.loops|
    ensures InLoop(WithoutLoop(m, i))
  {
  }

  lemma EnqueueKeepsAwake(m: Manager, e: Event)
    requires Awake(m)
    ensures Awake(Enqueue(m, e))
  {
  }

  lemma LoopStepKeepsAwake(m: Manager, i: nat)
    requires Awake(m) && i < |m.loops|
    ensures m.loops[i].Sending? ==> Awake(SendSucceeded(m, i)) && Awake(SendFailed(m, i))
    ensures m.loops[i].Handling? ==> Awake(HandlerFinished(m, i)) && Awake(HandlerFailed(m, i))
  {
    LoopEndsAlone(m, i);
    var w := WithoutLoop(m, i);
    assert w.pending == m.pending && w.me == m.me;
    hide LoopHead, EndFlush, WithoutLoop, Awake;
    LoopHeadIsAwake(w);
    var shifted := w.(pending := if m.pending == [] then [] else m.pending[1..]);
    LoopHeadIsAwake(shifted);
    LoopHeadIsAwake(ScheduleFlush(w));
  }

  lemma RetryKeepsAwake(m: Manager)
    requires Awake(m) && m.retryTimer
    ensures Awake(RetryFires(m))
  {
    if !m.flushing && !m.IsStopped() {
      LoopHeadIsAwake(m.(retryTimer := false, flushing := true));
    }
    hide LoopHead;
  }

  /** Trying for the lock leaves the queue and the loop alone. */
  lemma TryKeeps(m: Manager, lock: LockFile, host: Host, faults: Faults, beatFault: bool)
    ensures var t := TryBecomeOwner(m, lock, host, faults, beatFault).0;
      && t.pending == m.pending && t.flushing == m.flushing && t.loops == m.loops && t.retryTimer == m.retryTimer
      && t.phase == m.phase && t.mode == m.mode && t.maxPending == m.maxPending && t.me == m.me
      && (t.role.Follower? ==> t.recoveryTimer == m.recoveryTimer && t.ownsLock == m.ownsLock)
  {
    hide Acquire, Refresh;
  }

  lemma StartKeepsAwake(m: Manager, lock: LockFile, host: Host, faults: Faults, beatFault: bool)
    requires Awake(m) && m.phase.Created?
    ensures Awake(Start(m, lock, host, faults, beatFault).0)
  {
    TryKeeps(m.(phase := Running), lock, host, faults, beatFault);
    hide TryBecomeOwner;
  }

  lemma RecoveryKeepsAwake(m: Manager, lock: LockFile, host: Host, faults: Faults, beatFault: bool)
    requires Awake(m) && m.recoveryTimer
    ensures Awake(RecoveryFires(m, lock, host, faults, beatFault).0)
  {
    TryKeeps(m.(recoveryTimer := false), lock, host, faults, beatFault);
    hide TryBecomeOwner;
  }

  lemma StopKeepsAwake(m: Manager, lock: LockFile, releaseFault: bool)
    requires Awake(m)
    ensures Awake(StopBegins(m))
    ensures m.phase.Stopping? ==> Awake(StopEnds(m, lock, releaseFault).0)
  {
    hide Release;
  }

  lemma FailureKeepsAwake(m: Manager, lock: LockFile, releaseFault: bool)
    requires Awake(m)
    ensures Awake(OwnerFails(m, lock, releaseFault).0)
  {
    hide Release;
  }

  lemma StepKeepsAwake(m: Manager, lock: LockFile, s: Step)
    requires Awake(m) && Enabled(m, s)
    ensures Awake(Take(m, lock, s).0)
  {
    hide Awake, Acquire, Refresh, Release, LoopHead, EndFlush;
    match s
    case Dispatches(e) => EnqueueKeepsAwake(m, e);
    case Retries => RetryKeepsAwake(m);
    case Sent(i) => LoopStepKeepsAwake(m, i);
    case Failed(i) => LoopStepKeepsAwake(m, i);
    case Handled(i) => LoopStepKeepsAwake(m, i);
    case Threw(i) => LoopStepKeepsAwake(m, i);
    case Starts(host, faults, beatFault) => StartKeepsAwake(m, lock, host, faults, beatFault);
    case Recovers(host, faults, beatFault) => RecoveryKeepsAwake(m, lock, host, faults, beatFault);
    case Breaks(releaseFault) => FailureKeepsAwake(m, lock, releaseFault);
    case Beats(_, _, releaseFault) => FailureKeepsAwake(m, lock, releaseFault);
    case Stops => StopKeepsAwake(m, lock, false);
    case Closes(releaseFault) => StopKeepsAwake(m, lock, releaseFault);
  }

  /** A run of one manager; the lock may change in any way between its steps. */
  ghost predicate IsRun(states: seq<Manager>, locks: seq<LockFile>, steps: seq<Step>) {
    && |states| == |steps| + 1 && |locks| == |steps|
    && (forall i :: 0 <= i < |steps| ==> Enabled(states[i], steps[i]) && states[i + 1] == Take(states[i], locks[i], steps[i]).0)
  }

  /** In every interleaving, whatever the other runtimes do to the lock. */
  lemma {:induction false} NoLostWakeups(states: seq<Manager>, locks: seq<LockFile>, steps: seq<Step>, n: nat)
    requires IsRun(states, locks, steps) && n < |states|
    requires states[0].phase.Created? && Awake(states[0])
    ensures Awake(states[n])
  {
    if n > 0 {
      NoLostWakeups(states, locks, steps, n - 1);
      StepKeepsAwake(states[n - 1], locks[n - 1], steps[n - 1]);
    }
  }

  // ---------------------------------------------------------------- role and ownership

  /** Role, ownership and phase of one manager fit together. */
  ghost predicate RoleFits(m: Manager) {
    && (m.phase.Created? ==> m.role.Follower? && !m.ownsLock)
    && (m.phase.Running? ==> (m.role.Owner? <==> m.ownsLock))
    && (m.phase.Stopped? ==> !m.ownsLock)
    && (m.mode.FollowerMode? ==> m.role.Follower? && !m.ownsLock)
    && (m.recoveryTimer ==> m.phase.Running? && m.mode.OwnerMode?)
  }

  /** The parts of a manager that have to do with owning. */
  function Standing(m: Manager): (Runtime, Mode, Phase, Role, bool, bool) {
    (m.me, m.mode, m.phase, m.role, m.ownsLock, m.recoveryTimer)
  }

  predicate QueueStep(s: Step) {
    s.Dispatches? || s.Retries? || s.Sent? || s.Failed? || s.Handled? || s.Threw?
  }

  lemma EndFlushKeepsStanding(m: Manager)
    ensures Standing(EndFlush(m)) == Standing(m)
  {
  }

  lemma LoopHeadKeepsStanding(m: Manager)
    ensures Standing(LoopHead(m)) == Standing(m)
  {
    EndFlushKeepsStanding(m);
    hide EndFlush;
  }

  lemma QueueStepsKeepStanding(m: Manager, lock: LockFile, s: Step)
    requires Enabled(m, s) && QueueStep(s)
    ensures Standing(Take(m, lock, s).0) == Standing(m) && Take(m, lock, s).1 == lock
  {
    forall x { LoopHeadKeepsStanding(x); }
    forall x { EndFlushKeepsStanding(x); }
    hide LoopHead, EndFlush;
  }

  lemma TryKeepsRole(m: Manager, lock: LockFile, host: Host, faults: Faults, beatFault: bool)
    requires m.phase.Running? && m.mode.OwnerMode? && m.role.Follower? && !m.ownsLock
    ensures var t := TryBecomeOwner(m, lock, host, faults, beatFault).0; RoleFits(t) && (t.role.Owner? ==> !t.recoveryTimer)
  {
    hide Acquire, Refresh;
  }

  lemma StartKeepsRole(m: Manager, lock: LockFile, host: Host, faults: Faults, beatFault: bool)
    requires RoleFits(m) && m.phase.Created?
    ensures RoleFits(Start(m, lock, host, faults, beatFault).0)
  {
    var running := m.(phase := Running);
    if m.mode.OwnerMode? {
      TryKeepsRole(running, lock, host, faults, beatFault);
      TryKeeps(running, lock, host, faults, beatFault);
    }
    hide TryBecomeOwner;
  }

  lemma RecoveryKeepsRole(m: Manager, lock: LockFile, host: Host, faults: Faults, beatFault: bool)
    requires RoleFits(m) && m.recoveryTimer
    ensures RoleFits(RecoveryFires(m, lock, host, faults, beatFault).0)
  {
    var fired := m.(recoveryTimer := false);
    if m.role.Follower? {
      TryKeepsRole(fired, lock, host, faults, beatFault);
      TryKeeps(fired, lock, host, faults, beatFault);
    }
    hide TryBecomeOwner;
  }

  lemma FailureKeepsRole(m: Manager, lock: LockFile, releaseFault: bool)
    requires RoleFits(m)
    ensures RoleFits(OwnerFails(m, lock, releaseFault).0)
  {
    hide Release;
  }

  /** Every step keeps role and ownership together, whatever the lock holds. */
  lemma StepKeepsRole(m: Manager, lock: LockFile, s: Step)
    requires RoleFits(m) && Enabled(m, s)
    ensures RoleFits(Take(m, lock, s).0)
  {
    if QueueStep(s) {
      QueueStepsKeepStanding(m, lock, s);
      hide Take;
    } else {
      hide Start, RecoveryFires, OwnerFails, Release, Refresh;
      match s
      case Starts(host, faults, beatFault) => StartKeepsRole(m, lock, host, faults, beatFault);
      case Recovers(host, faults, beatFault) => RecoveryKeepsRole(m, lock, host, faults, beatFault);
      case Breaks(releaseFault) => FailureKeepsRole(m, lock, releaseFault);
      case Beats(now, fault, releaseFault) => FailureKeepsRole(m, lock, releaseFault);
      case Stops =>
      case Closes(releaseFault) =>
      case _ =>
    }
  }

  /** What holds of a manager between its steps. */
  ghost predicate Sound(m: Manager) {
    Awake(m) && RoleFits(m)
  }

  lemma StepKeepsSound(m: Manager, lock: LockFile, s: Step)
    requires Sound(m) && Enabled(m, s)
    ensures Sound(Take(m, lock, s).0)
  {
    StepKeepsAwake(m, lock, s);
    StepKeepsRole(m, lock, s);
    hide Take, Awake, RoleFits, Enabled;
  }
}
