/**
 * The transport manager as a class whose methods update its fields and the shared lock cell.
 * Each callback is one segment of code between two awaits; it does exactly the step of the
 * same purpose in ManagerSteps.dfy and keeps the manager valid. The methods without that
 * clause are parts of callbacks.
 */
module TransportManagement {
  import opened TransportLock
  import opened ManagerSteps

  class TransportManager {
    const me: Runtime
    const mode: Mode
    const maxPendingEvents: nat
    var phase: Phase
    var role: Role
    var ownsLock: bool
    var server: bool
    var pendingEvents: seq<Event>
    var flushing: bool
    var loops: seq<Await>  // the suspended flush loops
    var retryTimer: bool
    var ownerRecoveryTimer: bool
    var heartbeatTimer: bool

    ghost function View(): Manager
      reads this
    {
      Manager(me, mode, maxPendingEvents, phase, role, ownsLock, server, pendingEvents, flushing, loops,
              retryTimer, ownerRecoveryTimer, heartbeatTimer)
    }

    /** No waiting event is forgotten, and role, ownership and timers fit together. */
    ghost predicate Valid()
      reads this
    {
      Sound(View())
    }

    predicate IsStopped()
      reads this`phase
    {
      phase.Stopping? || phase.Stopped?
    }

    constructor (me: Runtime, mode: Mode, maxPendingEvents: nat)
      requires maxPendingEvents >= 1
      ensures Valid() && View() == NewManager(me, mode, maxPendingEvents)
    {
      this.me, this.mode, this.maxPendingEvents := me, mode, maxPendingEvents;
      phase, role, ownsLock, server := Created, Follower, false, false;
      pendingEvents, flushing, loops := [], false, [];
      retryTimer, ownerRecoveryTimer, heartbeatTimer := false, false, false;
    }

    // -------------------------------------------------------------- relaying

    method ScheduleFlush()
      modifies this`retryTimer
      ensures View() == ManagerSteps.ScheduleFlush(old(View()))
    {
      if retryTimer || IsStopped() {
        return;
      }
      retryTimer := true;
    }

    method EnqueueForFollowerRelay(e: Event)
      modifies this`pendingEvents, this`retryTimer
      ensures View() == Enqueue(old(View()), e)
    {
      if |pendingEvents| >= maxPendingEvents && pendingEvents != [] {
        pendingEvents := pendingEvents[1..];
      }
      pendingEvents := pendingEvents + [e];
      ScheduleFlush();
    }

    /** Whether the caller must handle the event itself, as the owner. */
    method Dispatch(e: Event) returns (handleLocally: bool)
      requires Valid()
      modifies this`pendingEvents, this`retryTimer
      ensures Valid()
      ensures View() == ManagerSteps.Dispatch(old(View()), e) && handleLocally == old(role).Owner?
      ensures !IsStopped() && !handleLocally ==> pendingEvents != [] && pendingEvents[|pendingEvents| - 1] == e && (flushing || retryTimer)
      ensures |pendingEvents| <= maxPendingEvents
    {
      StepKeepsSound(View(), Absent, Dispatches(e));
      handleLocally := role.Owner?;
      if !handleLocally {
        EnqueueForFollowerRelay(e);
      }
    }

    /** The finally block of the flush. */
    method EndFlush()
      modifies this`flushing, this`retryTimer
      ensures View() == ManagerSteps.EndFlush(old(View()))
    {
      flushing := false;
      if pendingEvents != [] && !retryTimer && !IsStopped() {
        ScheduleFlush();
      }
    }

    /** The flush loop from its head to the next await. */
    method ContinueFlush()
      modifies this`pendingEvents, this`flushing, this`loops, this`retryTimer
      ensures View() == LoopHead(old(View()))
    {
      if pendingEvents == [] || IsStopped() {
        EndFlush();
      } else if role.Owner? {
        var next := pendingEvents[0];
        pendingEvents := pendingEvents[1..];
        loops := loops + [Handling(next)];
      } else {
        loops := loops + [Sending(pendingEvents[0])];
      }
    }

    /** The retry timer's callback. */
    method FlushPendingFollowerEvents()
      requires Valid()
      requires retryTimer
      modifies this`pendingEvents, this`flushing, this`loops, this`retryTimer
      ensures Valid()
      ensures View() == RetryFires(old(View()))
      ensures |loops| <= 1 && (!IsStopped() && pendingEvents != [] ==> loops != [] || retryTimer)
    {
      StepKeepsSound(View(), Absent, Retries);
      retryTimer := false;
      if flushing || IsStopped() {
        return;
      }
      flushing := true;
      ContinueFlush();
    }

    method OnSendSucceeded(i: nat)
      requires Valid()
      requires i < |loops| && loops[i].Sending?
      modifies this`pendingEvents, this`flushing, this`loops, this`retryTimer
      ensures Valid()
      ensures View() == SendSucceeded(old(View()), i)
      ensures |loops| <= 1 && (!IsStopped() && pendingEvents != [] ==> loops != [] || retryTimer)
    {
      StepKeepsSound(View(), Absent, Sent(i));
      loops := loops[..i] + loops[i + 1..];
      if pendingEvents != [] {
        pendingEvents := pendingEvents[1..];
      }
      ContinueFlush();
    }

    method OnSendFailed(i: nat)
      requires Valid()
      requires i < |loops| && loops[i].Sending?
      modifies this`flushing, this`loops, this`retryTimer
      ensures Valid()
      ensures View() == SendFailed(old(View()), i)
      ensures pendingEvents == old(pendingEvents) && loops == [] && (!IsStopped() ==> retryTimer)
    {
      StepKeepsSound(View(), Absent, Failed(i));
      loops := loops[..i] + loops[i + 1..];
      ScheduleFlush();
      EndFlush();
    }

    method OnHandlerFinished(i: nat)
      requires Valid()
      requires i < |loops| && loops[i].Handling?
      modifies this`pendingEvents, this`flushing, this`loops, this`retryTimer
      ensures Valid()
      ensures View() == HandlerFinished(old(View()), i)
      ensures |loops| <= 1 && (!IsStopped() && pendingEvents != [] ==> loops != [] || retryTimer)
    {
      StepKeepsSound(View(), Absent, Handled(i));
      loops := loops[..i] + loops[i + 1..];
      ContinueFlush();
    }

    method OnHandlerFailed(i: nat)
      requires Valid()
      requires i < |loops| && loops[i].Handling?
      modifies this`flushing, this`loops, this`retryTimer
      ensures Valid()
      ensures View() == HandlerFailed(old(View()), i)
      ensures loops == [] && (!IsStopped() && pendingEvents != [] ==> retryTimer)
    {
      StepKeepsSound(View(), Absent, Threw(i));
      loops := loops[..i] + loops[i + 1..];
      EndFlush();
    }

    // -------------------------------------------------------------- owning

    method ScheduleOwnerRecovery()
      modifies this`ownerRecoveryTimer
      ensures View() == ManagerSteps.ScheduleOwnerRecovery(old(View()))
    {
      if mode.FollowerMode? || IsStopped() || ownerRecoveryTimer {
        return;
      }
      ownerRecoveryTimer := true;
    }

    method TryBecomeOwner(cell: LockCell, host: Host, faults: Faults, beatFault: bool) returns (became: bool)
      modifies this`role, this`ownsLock, this`server, this`ownerRecoveryTimer, this`heartbeatTimer, cell
      ensures (View(), cell.file) == ManagerSteps.TryBecomeOwner(old(View()), old(cell.file), host, faults, beatFault)
      ensures became == Acquire(old(cell.file), me, host, faults).1.Acquired?
    {
      hide Acquire, Refresh;
      var result := cell.AcquireTransportLock(me, host, faults);
      if !result.Acquired? {
        role := Follower;
        return false;
      }
      ownsLock := true;
      ownerRecoveryTimer := false;
      role := Owner;
      server := true;
      var written := cell.WriteHeartbeat(me, host.now, beatFault);
      heartbeatTimer := written;
      return true;
    }

    method Start(cell: LockCell, host: Host, faults: Faults, beatFault: bool)
      requires Valid()
      requires phase.Created?
      modifies this`phase, this`role, this`ownsLock, this`server, this`ownerRecoveryTimer, this`heartbeatTimer, cell
      ensures Valid()
      ensures (View(), cell.file) == ManagerSteps.Start(old(View()), old(cell.file), host, faults, beatFault)
      ensures (role.Owner? <==> ownsLock) && (mode.OwnerMode? ==> role.Owner? || ownerRecoveryTimer)
    {
      StepKeepsSound(View(), cell.file, Starts(host, faults, beatFault));
      hide Acquire, Refresh;
      phase := Running;
      if mode.FollowerMode? {
        role := Follower;
        return;
      }
      var became := TryBecomeOwner(cell, host, faults, beatFault);
      if became {
        return;
      }
      role := Follower;
      ScheduleOwnerRecovery();
    }

    /** The recovery timer's callback. */
    method AttemptOwnerRecovery(cell: LockCell, host: Host, faults: Faults, beatFault: bool)
      requires Valid()
      requires ownerRecoveryTimer
      modifies this`role, this`ownsLock, this`server, this`ownerRecoveryTimer, this`heartbeatTimer, cell
      ensures Valid()
      ensures (View(), cell.file) == RecoveryFires(old(View()), old(cell.file), host, faults, beatFault)
      ensures phase.Running? ==> (role.Owner? <==> ownsLock) && (role.Owner? || ownerRecoveryTimer)
    {
      StepKeepsSound(View(), cell.file, Recovers(host, faults, beatFault));
      hide Acquire, Refresh;
      ownerRecoveryTimer := false;
      if IsStopped() || role.Owner? {
        return;
      }
      var became := TryBecomeOwner(cell, host, faults, beatFault);
      if !became {
        ScheduleOwnerRecovery();
      }
    }

    method HandleOwnerFailure(cell: LockCell, releaseFault: bool)
      requires Valid()
      modifies this`role, this`ownsLock, this`server, this`ownerRecoveryTimer, this`heartbeatTimer, this`retryTimer, cell
      ensures Valid()
      ensures (View(), cell.file) == OwnerFails(old(View()), old(cell.file), releaseFault)
      ensures phase.Running? ==> role.Follower? && !ownsLock && (mode.OwnerMode? ==> ownerRecoveryTimer)
      ensures phase.Running? && pendingEvents != [] ==> flushing || retryTimer
    {
      StepKeepsSound(View(), cell.file, Breaks(releaseFault));
      hide Release;
      if IsStopped() || role.Follower? {
        return;
      }
      server := false;
      heartbeatTimer := false;
      if ownsLock {
        cell.ReleaseTransportLock(me, releaseFault);
        ownsLock := false;
      }
      role := Follower;
      ScheduleOwnerRecovery();
      if pendingEvents != [] {
        ScheduleFlush();
      }
    }

    /** The heartbeat timer's callback. */
    method Heartbeat(cell: LockCell, now: int, fault: bool, releaseFault: bool)
      requires Valid()
      requires heartbeatTimer
      modifies this`role, this`ownsLock, this`server, this`ownerRecoveryTimer, this`heartbeatTimer, this`retryTimer, cell
      ensures Valid()
      ensures (View(), cell.file) == HeartbeatFires(old(View()), old(cell.file), now, fault, releaseFault)
      ensures phase.Running? ==> (role.Owner? <==> ownsLock)
    {
      StepKeepsSound(View(), cell.file, Beats(now, fault, releaseFault));
      hide Release;
      var written := false;
      if ownsLock {
        written := cell.WriteHeartbeat(me, now, fault);
      }
      if !written {
        HandleOwnerFailure(cell, releaseFault);
      }
    }

    /** Stop, up to waiting for the server to close. */
    method BeginStop()
      requires Valid()
      modifies this`phase, this`ownerRecoveryTimer, this`retryTimer, this`heartbeatTimer, this`server
      ensures Valid()
      ensures View() == StopBegins(old(View()))
    {
      StepKeepsSound(View(), Absent, Stops);
      phase := Stopping;
      ownerRecoveryTimer, retryTimer, heartbeatTimer := false, false, false;
      server := false;
    }

    method FinishStop(cell: LockCell, releaseFault: bool)
      requires Valid()
      requires phase.Stopping?
      modifies this`phase, this`ownsLock, cell
      ensures Valid()
      ensures (View(), cell.file) == StopEnds(old(View()), old(cell.file), releaseFault)
      ensures !ownsLock
    {
      StepKeepsSound(View(), cell.file, Closes(releaseFault));
      hide Release;
      phase := Stopped;
      if ownsLock {
        cell.ReleaseTransportLock(me, releaseFault);
        ownsLock := false;
      }
    }
  }
}
