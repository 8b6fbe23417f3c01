/**
 * The cross-process owner lock: one file that is absent, names a runtime and its process, or
 * holds something unreadable. Acquiring, refreshing and releasing are single steps.
 */
module TransportLock {

  /** A runtime and the process it lives in. */
  datatype Runtime = Runtime(id: nat, pid: int)

  datatype LockFile =
    | Absent
    | Named(holder: Runtime, updatedAt: int)
    | Unreadable(modifiedAt: int)

  datatype AcquireResult = Acquired | LiveOwner(holder: Runtime) | BusyLock | AcquireError

  /** File operations that fail for reasons other than the lock protocol. */
  datatype Faults = Faults(create: bool, unlink: bool, recreate: bool)

  /** What a runtime sees of its host: the time, the running processes, the staleness limit. */
  datatype Host = Host(now: int, alive: set<int>, staleMs: int)

  predicate ProcessAlive(pid: int, host: Host) {
    pid > 0 && pid in host.alive
  }

  predicate Stale(lock: LockFile, host: Host) {
    match lock
    case Named(holder, updatedAt) => !ProcessAlive(holder.pid, host) || host.now - updatedAt > host.staleMs
    case Unreadable(modifiedAt) => host.now - modifiedAt > host.staleMs
    case Absent => true
  }

  function Acquire(lock: LockFile, me: Runtime, host: Host, faults: Faults): (LockFile, AcquireResult) {
    if faults.create then (lock, AcquireError)
    else if lock.Absent? then (Named(me, host.now), Acquired)
    else if lock.Named? && ProcessAlive(lock.holder.pid, host) then (lock, LiveOwner(lock.holder))
    else if !Stale(lock, host) then (lock, BusyLock)
    else if faults.unlink then (lock, AcquireError)
    else if faults.recreate then (Absent, AcquireError)
    else (Named(me, host.now), Acquired)
  }

  /** The heartbeat overwrites the file unless writing fails. */
  function Refresh(lock: LockFile, me: Runtime, now: int, fault: bool): LockFile {
    if fault then lock else Named(me, now)
  }

  /** Releasing leaves another runtime's lock alone and removes anything else. */
  function Release(lock: LockFile, me: Runtime, fault: bool): LockFile {
    if lock.Named? && lock.holder.id != me.id then lock
    else if fault then lock
    else Absent
  }

  // ---------------------------------------------------------------- the lock file in place

  class LockCell {
    var file: LockFile

    constructor ()
      ensures file == Absent
    {
      file := Absent;
    }

    /** Exclusive creation: fails when the file exists, or for any other reason. */
    method WriteNew(me: Runtime, now: int, fault: bool) returns (created: bool)
      modifies this
      ensures created == (!fault && old(file).Absent?)
      ensures file == if created then Named(me, now) else old(file)
    {
      created := !fault && file.Absent?;
      if created {
        file := Named(me, now);
      }
    }

    method AcquireTransportLock(me: Runtime, host: Host, faults: Faults) returns (result: AcquireResult)
      modifies this
      ensures (file, result) == Acquire(old(file), me, host, faults)
    {
      var created := WriteNew(me, host.now, faults.create);
      if created {
        return Acquired;
      }
      if faults.create {
        return AcquireError;
      }
      if file.Named? && ProcessAlive(file.holder.pid, host) {
        return LiveOwner(file.holder);
      }
      if !Stale(file, host) {
        return BusyLock;
      }
      if faults.unlink {
        return AcquireError;
      }
      file := Absent;
      created := WriteNew(me, host.now, faults.recreate);
      return if created then Acquired else AcquireError;
    }

    method WriteHeartbeat(me: Runtime, now: int, fault: bool) returns (written: bool)
      modifies this
      ensures file == Refresh(old(file), me, now, fault) && written == !fault
    {
      if !fault {
        file := Named(me, now);
      }
      written := !fault;
    }

    method ReleaseTransportLock(me: Runtime, fault: bool)
      modifies this
      ensures file == Release(old(file), me, fault)
    {
      if file.Named? && file.holder.id != me.id {
        return;
      }
      if !fault {
        file := Absent;
      }
    }
  }

  // ---------------------------------------------------------------- what acquiring means

  /** A lock is handed out only when no running process is named by it, and it then names the taker. */
  lemma AcquiredMeansFree(lock: LockFile, me: Runtime, host: Host, faults: Faults)
    ensures var (after, result) := Acquire(lock, me, host, faults);
      && (result.Acquired? ==> after == Named(me, host.now) && (lock.Named? ==> !ProcessAlive(lock.holder.pid, host)))
      && (!result.Acquired? ==> after == lock || after == Absent)
      && (lock.Named? && ProcessAlive(lock.holder.pid, host) ==> after == lock && !result.Acquired?)
  {
  }

  const NO_FAULTS := Faults(false, false, false)

  /** A running process is named in the lock, or its contents cannot be read and were written lately. */
  predicate Guarded(lock: LockFile, host: Host) {
    || (lock.Named? && lock.holder.pid > 0 && lock.holder.pid in host.alive)
    || (lock.Unreadable? && host.now - lock.modifiedAt <= host.staleMs)
  }

  /**
   * Exactly an unguarded lock is acquired. What then stays of an unguarded lock, and what the
   * taker is told, depends on which file operation failed.
   */
  lemma AcquiredIffUnguarded(lock: LockFile, me: Runtime, host: Host, faults: Faults)
    ensures var (after, result) := Acquire(lock, me, host, faults);
      && (result.Acquired? <==> !Guarded(lock, host) && !faults.create && (lock.Absent? || (!faults.unlink && !faults.recreate)))
      && after == (if result.Acquired? then Named(me, host.now)
                   else if !Guarded(lock, host) && !faults.create && !faults.unlink then Absent else lock)
      && (Guarded(lock, host) && !faults.create ==> result == if lock.Named? then LiveOwner(lock.holder) else BusyLock)
      && (!Guarded(lock, host) && !result.Acquired? ==> result == AcquireError)
  {
  }

  /** Without faults a free lock is taken, an unreadable one once it is older than the limit. */
  lemma FreeLockIsTaken(me: Runtime, host: Host, modifiedAt: int)
    ensures Acquire(Absent, me, host, NO_FAULTS) == (Named(me, host.now), Acquired)
    ensures Acquire(Unreadable(modifiedAt), me, host, NO_FAULTS) == (Named(me, host.now), Acquired) <==> host.now - modifiedAt > host.staleMs
  {
    AcquiredIffUnguarded(Absent, me, host, NO_FAULTS);
    AcquiredIffUnguarded(Unreadable(modifiedAt), me, host, NO_FAULTS);
    hide Acquire;
  }

  /** A release that does not fail leaves exactly the locks of other runtimes. */
  lemma ReleasedUnlessForeign(lock: LockFile, me: Runtime)
    ensures Release(lock, me, false) == if exists r, at :: lock == Named(r, at) && r.id != me.id then lock else Absent
    ensures Release(lock, me, true) == lock
  {
  }

  /** A lock whose process is gone is taken over at once, however fresh its heartbeat is. */
  lemma DeadHolderIsReplaced(lock: LockFile, me: Runtime, host: Host)
    requires lock.Named? && !ProcessAlive(lock.holder.pid, host)
    ensures Acquire(lock, me, host, NO_FAULTS) == (Named(me, host.now), Acquired)
  {
  }
}
