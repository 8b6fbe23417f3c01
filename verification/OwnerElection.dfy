/**
 * Any number of runtimes on one host, each with its transport manager, sharing one lock file.
 * Runtimes start, act, crash and are joined by new ones; process ids are not reused.
 */
module OwnerElection {
  import opened TransportLock
  import opened ManagerSteps

  datatype World = World(lock: LockFile, managers: map<Runtime, Manager>, alive: set<int>, used: set<Runtime>)

  datatype Event =
    | Acts(r: Runtime, step: Step)
    | Joins(r: Runtime, mode: Mode, maxPending: nat)
    | Crashes(r: Runtime)
    | OtherExits(pid: int)

  /** Acquiring looks at the processes that are running at that moment. */
  predicate SeesHost(w: World, s: Step) {
    match s
    case Starts(host, _, _) => host.alive == w.alive
    case Recovers(host, _, _) => host.alive == w.alive
    case _ => true
  }

  ghost predicate Possible(w: World, e: Event) {
    match e
    case Acts(r, s) => r in w.managers && Enabled(w.managers[r], s) && SeesHost(w, s)
    case Joins(r, _, _) => r.pid > 0 && forall u :: u in w.used ==> u.id != r.id && u.pid != r.pid
    case Crashes(r) => r in w.managers
    case OtherExits(pid) => forall r :: r in w.managers ==> r.pid != pid
  }

  ghost function Next(w: World, e: Event): World
    requires Possible(w, e)
  {
    match e
    case Acts(r, s) =>
      var (m, lock) := Take(w.managers[r], w.lock, s);
      w.(lock := lock, managers := w.managers[r := m])
    case Joins(r, mode, maxPending) =>
      w.(managers := w.managers[r := NewManager(r, mode, maxPending)], alive := w.alive + {r.pid}, used := w.used + {r})
    case Crashes(r) => w.(managers := w.managers - {r}, alive := w.alive - {r.pid})
    case OtherExits(pid) => w.(alive := w.alive - {pid})
  }

  ghost predicate Identified(w: World) {
    && (forall r, q :: r in w.used && q in w.used && (r.id == q.id || r.pid == q.pid) ==> r == q)
    && (forall r :: r in w.managers ==> r in w.used && r.pid > 0 && r.pid in w.alive && w.managers[r].me == r)
    && (w.lock.Named? ==> w.lock.holder in w.used)
  }

  /** Whoever believes to own the lock is named by it. */
  ghost predicate Inv(w: World) {
    && Identified(w)
    && (forall r :: r in w.managers ==> RoleFits(w.managers[r]))
    && (forall r :: r in w.managers && w.managers[r].ownsLock ==> w.lock.Named? && w.lock.holder == r)
  }

  /** A manager that holds the lock is named by it; one that does not cannot take it from a live holder. */
  ghost predicate Respects(m: Manager, lock: LockFile, after: Manager, file: LockFile, alive: set<int>) {
    && after.me == m.me && RoleFits(after)
    && (after.ownsLock ==> file.Named? && file.holder == m.me)
    && (file.Named? ==> file.holder == m.me || file == lock)
    && (!m.ownsLock && lock.Named? && ProcessAlive(lock.holder.pid, Host(0, alive, 0)) ==> file == lock && !after.ownsLock)
  }

  ghost predicate Holds(m: Manager, lock: LockFile) {
    m.ownsLock ==> lock.Named? && lock.holder == m.me
  }

  lemma TryRespects(m: Manager, lock: LockFile, host: Host, faults: Faults, beatFault: bool)
    requires m.phase.Running? && m.mode.OwnerMode? && m.role.Follower? && !m.ownsLock
    ensures var (t, file) := TryBecomeOwner(m, lock, host, faults, beatFault);
      && t.me == m.me && t.phase.Running? && t.mode.OwnerMode? && (t.role.Owner? <==> t.ownsLock)
      && (t.ownsLock ==> file.Named? && file.holder == m.me)
      && (file.Named? ==> file.holder == m.me || file == lock)
      && (lock.Named? && ProcessAlive(lock.holder.pid, host) ==> file == lock && !t.ownsLock)
  {
    AcquiredMeansFree(lock, m.me, host, faults);
    hide Acquire;
  }

  lemma FailureRespects(m: Manager, lock: LockFile, releaseFault: bool, alive: set<int>)
    requires RoleFits(m) && Holds(m, lock)
    ensures Respects(m, lock, OwnerFails(m, lock, releaseFault).0, OwnerFails(m, lock, releaseFault).1, alive)
  {
  }

  lemma BeatRespects(m: Manager, lock: LockFile, now: int, fault: bool, releaseFault: bool, alive: set<int>)
    requires RoleFits(m) && Holds(m, lock) && m.heartbeatTimer
    ensures var (after, file) := HeartbeatFires(m, lock, now, fault, releaseFault); Respects(m, lock, after, file, alive)
  {
    FailureRespects(m, lock, releaseFault, alive);
    hide OwnerFails;
  }

  lemma StartRespects(m: Manager, lock: LockFile, host: Host, faults: Faults, beatFault: bool)
    requires RoleFits(m) && m.phase.Created?
    ensures var (after, file) := Start(m, lock, host, faults, beatFault); Respects(m, lock, after, file, host.alive)
  {
    if m.mode.OwnerMode? {
      TryRespects(m.(phase := Running), lock, host, faults, beatFault);
    }
    hide TryBecomeOwner;
  }

  lemma RecoveryRespects(m: Manager, lock: LockFile, host: Host, faults: Faults, beatFault: bool)
    requires RoleFits(m) && Holds(m, lock) && m.recoveryTimer
    ensures var (after, file) := RecoveryFires(m, lock, host, faults, beatFault); Respects(m, lock, after, file, host.alive)
  {
    if m.role.Follower? {
      TryRespects(m.(recoveryTimer := false), lock, host, faults, beatFault);
    }
    hide TryBecomeOwner;
  }

  lemma StopRespects(m: Manager, lock: LockFile, releaseFault: bool, alive: set<int>)
    requires RoleFits(m) && Holds(m, lock)
    ensures Respects(m, lock, StopBegins(m), lock, alive)
    ensures m.phase.Stopping? ==>
      Respects(m, lock, StopEnds(m, lock, releaseFault).0, StopEnds(m, lock, releaseFault).1, alive)
  {
  }

  /** One manager's step never takes the lock away from another running owner. */
  lemma StepRespectsLock(m: Manager, lock: LockFile, s: Step, alive: set<int>)
    requires Enabled(m, s) && RoleFits(m) && Holds(m, lock)
    requires (s.Starts? || s.Recovers?) ==> s.host.alive == alive
    ensures Respects(m, lock, Take(m, lock, s).0, Take(m, lock, s).1, alive)
  {
    if QueueStep(s) {
      QueueStepsKeepStanding(m, lock, s);
      hide Take;
    } else {
      hide Start, RecoveryFires, OwnerFails, HeartbeatFires, StopBegins, StopEnds, Respects, RoleFits, Holds;
      match s
      case Starts(host, faults, beatFault) => StartRespects(m, lock, host, faults, beatFault);
      case Recovers(host, faults, beatFault) => RecoveryRespects(m, lock, host, faults, beatFault);
      case Breaks(releaseFault) => FailureRespects(m, lock, releaseFault, alive);
      case Beats(now, fault, releaseFault) => BeatRespects(m, lock, now, fault, releaseFault, alive);
      case Stops => StopRespects(m, lock, false, alive);
      case Closes(releaseFault) => StopRespects(m, lock, releaseFault, alive);
      case _ =>
    }
  }

  lemma RespectedKeepsInv(w: World, r: Runtime, after: Manager, file: LockFile)
    requires Inv(w) && r in w.managers && Respects(w.managers[r], w.lock, after, file, w.alive)
    ensures Inv(w.(lock := file, managers := w.managers[r := after]))
  {
    hide RoleFits;
    forall q | q in w.managers && q != r && w.managers[q].ownsLock ensures file.Named? && file.holder == q {
      assert q.pid in w.alive && q.pid > 0;
    }
  }

  lemma ActKeepsInv(w: World, r: Runtime, s: Step)
    requires Inv(w) && Possible(w, Acts(r, s))
    ensures Inv(Next(w, Acts(r, s)))
  {
    var m := w.managers[r];
    StepRespectsLock(m, w.lock, s, w.alive);
    RespectedKeepsInv(w, r, Take(m, w.lock, s).0, Take(m, w.lock, s).1);
    hide Take;
  }

  lemma NextKeepsInv(w: World, e: Event)
    requires Inv(w) && Possible(w, e)
    ensures Inv(Next(w, e))
  {
    hide Take, Enabled, RoleFits;
    match e
    case Acts(r, s) => ActKeepsInv(w, r, s);
    case Joins(r, mode, maxPending) => JoinKeepsInv(w, r, mode, maxPending);
    case Crashes(r) =>
    case OtherExits(pid) =>
  }

  lemma JoinKeepsInv(w: World, r: Runtime, mode: Mode, maxPending: nat)
    requires Inv(w) && Possible(w, Joins(r, mode, maxPending))
    ensures Inv(Next(w, Joins(r, mode, maxPending)))
  {
    hide Take, Enabled;
  }

  ghost predicate IsRun(worlds: seq<World>, events: seq<Event>) {
    && |worlds| == |events| + 1
    && forall i :: 0 <= i < |events| ==> Possible(worlds[i], events[i]) && worlds[i + 1] == Next(worlds[i], events[i])
  }

  /** At the start there are no managers; an old lock file may lie around. */
  ghost predicate Initial(w: World) {
    && w.managers == map[]
    && (forall r, q :: r in w.used && q in w.used && (r.id == q.id || r.pid == q.pid) ==> r == q)
    && (w.lock.Named? ==> w.lock.holder in w.used)
  }

  lemma {:induction false} RunKeepsInv(worlds: seq<World>, events: seq<Event>, n: nat)
    requires IsRun(worlds, events) && Initial(worlds[0]) && n < |worlds|
    ensures Inv(worlds[n])
  {
    if n > 0 {
      RunKeepsInv(worlds, events, n - 1);
      NextKeepsInv(worlds[n - 1], events[n - 1]);
    }
  }

  /** In every run at most one live runtime holds the lock, and the lock names it. */
  lemma AtMostOneOwner(worlds: seq<World>, events: seq<Event>, n: nat, r: Runtime, q: Runtime)
    requires IsRun(worlds, events) && Initial(worlds[0]) && n < |worlds|
    requires r in worlds[n].managers && worlds[n].managers[r].ownsLock
    requires q in worlds[n].managers && worlds[n].managers[q].ownsLock
    ensures r == q && worlds[n].lock.Named? && worlds[n].lock.holder == r
  {
    RunKeepsInv(worlds, events, n);
  }

  /** In every run a running manager is in role owner exactly when it holds the lock; follower-mode and stopped ones never do. */
  lemma OwnersHoldTheLock(worlds: seq<World>, events: seq<Event>, n: nat, r: Runtime)
    requires IsRun(worlds, events) && Initial(worlds[0]) && n < |worlds| && r in worlds[n].managers
    ensures var m := worlds[n].managers[r];
      && (m.phase.Running? ==> (m.role.Owner? <==> m.ownsLock))
      && (m.mode.FollowerMode? || m.phase.Created? || m.phase.Stopped? ==> !m.ownsLock)
      && (m.phase.Running? && m.role.Owner? ==> worlds[n].lock.Named? && worlds[n].lock.holder == r)
  {
    RunKeepsInv(worlds, events, n);
  }

  // ---------------------------------------------------------------- the lock names only owners

  /** The step does not fail in deleting the lock file. */
  predicate Releases(e: Event) {
    e.Acts? ==>
      match e.step
      case Breaks(fault) => !fault
      case Beats(_, _, fault) => !fault
      case Closes(fault) => !fault
      case _ => true
  }

  /** A live runtime named by the lock believes to own it. */
  ghost predicate NoOrphan(w: World) {
    w.lock.Named? && w.lock.holder in w.managers ==> w.managers[w.lock.holder].ownsLock
  }

  lemma StepLeavesNoOrphan(m: Manager, lock: LockFile, s: Step)
    requires Enabled(m, s) && RoleFits(m) && Releases(Acts(m.me, s)) && Holds(m, lock)
    requires lock.Named? && lock.holder == m.me ==> m.ownsLock
    ensures var (after, file) := Take(m, lock, s); file.Named? && file.holder == m.me ==> after.ownsLock
  {
    if QueueStep(s) {
      QueueStepsKeepStanding(m, lock, s);
      hide Take;
    } else {
      hide ScheduleFlush, ScheduleOwnerRecovery;
      OwnerRecoveryKeepsOwnership();
    }
  }

  lemma OwnerRecoveryKeepsOwnership()
    ensures forall m :: ScheduleOwnerRecovery(m).ownsLock == m.ownsLock && ScheduleFlush(m).ownsLock == m.ownsLock
  {
  }

  lemma NextLeavesNoOrphan(w: World, e: Event)
    requires Inv(w) && NoOrphan(w) && Possible(w, e) && Releases(e)
    ensures NoOrphan(Next(w, e))
  {
    if e.Acts? {
      StepLeavesNoOrphan(w.managers[e.r], w.lock, e.step);
      StepRespectsLock(w.managers[e.r], w.lock, e.step, w.alive);
      hide Take, RoleFits, Enabled;
    }
  }

  /** As long as releasing never fails, a running manager is in role owner exactly when the lock names it. */
  lemma {:induction false} RoleMatchesLock(worlds: seq<World>, events: seq<Event>, n: nat)
    requires IsRun(worlds, events) && Initial(worlds[0]) && n < |worlds|
    requires forall i :: 0 <= i < |events| ==> Releases(events[i])
    ensures NoOrphan(worlds[n])
    ensures forall r :: r in worlds[n].managers && worlds[n].managers[r].phase.Running? ==>
      (worlds[n].managers[r].role.Owner? <==> worlds[n].lock.Named? && worlds[n].lock.holder == r)
  {
    if n > 0 {
      RoleMatchesLock(worlds, events, n - 1);
      RunKeepsInv(worlds, events, n - 1);
      NextLeavesNoOrphan(worlds[n - 1], events[n - 1]);
    }
    RunKeepsInv(worlds, events, n);
    hide Next, Possible, Releases;
  }

  /**
   * When the owner's process dies, the next recovery attempt of any other running owner-mode
   * runtime makes it the owner, whatever the staleness limit is.
   */
  lemma TakeoverAfterCrash(w: World, owner: Runtime, heir: Runtime, host: Host, beatFault: bool)
    requires Inv(w) && owner in w.managers && w.managers[owner].ownsLock
    requires heir in w.managers && heir != owner && w.managers[heir].phase.Running? && w.managers[heir].mode.OwnerMode?
    requires Awake(w.managers[heir]) && host.alive == w.alive - {owner.pid}
    ensures var crashed := Next(w, Crashes(owner));
      var attempt := Acts(heir, Recovers(host, NO_FAULTS, beatFault));
      && Possible(crashed, attempt)
      && var after := Next(crashed, attempt);
      after.managers[heir].role.Owner? && after.managers[heir].ownsLock && after.lock == Named(heir, host.now)
  {
    assert !w.managers[heir].ownsLock;
    DeadHolderIsReplaced(w.lock, heir, host);
    hide Acquire;
  }

  /** A runtime that competes for the lock and can try now: it starts, or its recovery timer fires. */
  ghost predicate CanTry(w: World, r: Runtime, e: Event, host: Host, beatFault: bool) {
    && r in w.managers && w.managers[r].mode.OwnerMode? && host.alive == w.alive
    && (if w.managers[r].phase.Created? then e == Acts(r, Starts(host, NO_FAULTS, beatFault))
        else w.managers[r].phase.Running? && w.managers[r].role.Follower? && Awake(w.managers[r])
             && e == Acts(r, Recovers(host, NO_FAULTS, beatFault)))
  }

  /**
   * Where no file operation fails, a start or a recovery makes the runtime the owner exactly when
   * the lock names no running process and is not an unreadable fresh one; if not, it will try again.
   */
  lemma BecomesOwnerIffUnguarded(w: World, r: Runtime, e: Event, host: Host, beatFault: bool)
    requires Inv(w) && CanTry(w, r, e, host, beatFault)
    ensures Possible(w, e)
    ensures var after := Next(w, e);
      && (after.managers[r].phase.Running? && after.managers[r].role.Owner? <==>
            (w.lock.Named? ==> !(w.lock.holder.pid > 0 && w.lock.holder.pid in w.alive))
            && (w.lock.Unreadable? ==> host.now - w.lock.modifiedAt > host.staleMs))
      && (after.managers[r].role.Owner? ==> after.managers[r].ownsLock && after.managers[r].server && after.lock == Named(r, host.now))
      && (after.managers[r].role.Follower? ==> after.managers[r].recoveryTimer && after.lock == w.lock)
  {
    AcquiredIffUnguarded(w.lock, r, host, NO_FAULTS);
    assert RoleFits(w.managers[r]);
    hide Acquire;
  }

  /** As long as its heartbeats are written an owner stays the owner and its lock is fresh; otherwise it steps down. */
  lemma HeartbeatsKeepTheLock(w: World, r: Runtime, now: int, fault: bool, releaseFault: bool)
    requires Inv(w) && Possible(w, Acts(r, Beats(now, fault, releaseFault))) && w.managers[r].phase.Running? && w.managers[r].role.Owner?
    ensures var after := Next(w, Acts(r, Beats(now, fault, releaseFault)));
      if !fault then after.managers[r] == w.managers[r] && after.lock == Named(r, now)
      else
        && after.managers[r].role.Follower? && !after.managers[r].ownsLock && !after.managers[r].server && !after.managers[r].heartbeatTimer
        && (after.managers[r].mode.OwnerMode? ==> after.managers[r].recoveryTimer)
        && after.lock == if releaseFault then w.lock else Absent
  {
    assert RoleFits(w.managers[r]);
    ReleasedUnlessForeign(w.lock, r);
  }

  /** A runtime that stops gives its lock up when its server has closed, and its queue is flushed no more. */
  lemma StoppingReleases(w: World, r: Runtime, releaseFault: bool)
    requires Inv(w) && r in w.managers && w.managers[r].phase.Running?
    ensures var stopping := Next(w, Acts(r, Stops));
      && stopping.lock == w.lock && stopping.managers[r].IsStopped() && Possible(stopping, Acts(r, Closes(releaseFault)))
      && !stopping.managers[r].retryTimer && !stopping.managers[r].recoveryTimer && !stopping.managers[r].heartbeatTimer
      && var closed := Next(stopping, Acts(r, Closes(releaseFault)));
      && !closed.managers[r].ownsLock && closed.managers[r].phase.Stopped?
      && closed.lock == if w.managers[r].ownsLock && !releaseFault then Absent else w.lock
  {
    assert RoleFits(w.managers[r]);
    ReleasedUnlessForeign(w.lock, r);
  }
}
