/** The cache-wide lock (tools/cache.py): a module-level count of nested acquisitions, the
    EM_CACHE_IS_LOCKED variable that child processes inherit, and one UnixFileLock underneath. */
module CacheLocks {
  import opened Options
  import opened FileLockProtocol
  import opened UnixFileLocks

  datatype Status =
    | Entered
    | FrozenCache        // raises: the cache is frozen
    | NotWritable        // exits with an error
    | LockedByParent     // assertion: a parent process holds the lock
    | Waiting            // the described attempts are used up, still waiting for the lock

  /** What the world does while a process waits for the lock: the ten-minute attempts, then the
      ones without a deadline; and what it does while the lock is let go. */
  datatype Weather = Weather(timed: seq<Attempt>, untimed: seq<Attempt>, release: seq<seq<Event>>) {
    predicate Foreign(me: Process) {
      && (forall a :: a in timed ==> a.Foreign(me))
      && (forall a :: a in untimed ==> a.Foreign(me) && !a.timedOut)
      && |release| == 3 && (forall i :: 0 <= i < 3 ==> ByOthers(me, release[i]))
    }
  }

  /** `with cache.lock(...)` around a body that opens further such blocks. */
  datatype Block = Block(weather: Weather, body: seq<Block>)
  {
    predicate Foreign(me: Process) {
      weather.Foreign(me) && forall b :: b in body ==> b.Foreign(me)
    }
  }

  class CacheLock {
    const frozen: bool
    const writable: bool
    const inherited: bool   // EM_CACHE_IS_LOCKED was set by a parent process
    const cachelock: UnixFileLock
    var acquiredCount: int
    var envLocked: bool

    constructor (frozen: bool, writable: bool, inherited: bool, cachelock: UnixFileLock)
      requires cachelock.Valid() && cachelock.lockCounter == 0
      ensures Valid() && acquiredCount == 0
      ensures this.frozen == frozen && this.writable == writable && this.inherited == inherited && this.cachelock == cachelock
    {
      this.frozen := frozen;
      this.writable := writable;
      this.inherited := inherited;
      this.cachelock := cachelock;
      acquiredCount := 0;
      envLocked := inherited;
    }

    /** The count, the environment variable and the file lock agree. */
    ghost predicate Valid()
      reads this, cachelock, cachelock.kernel
    {
      && cachelock.Valid()
      && acquiredCount >= 0
      && cachelock.lockCounter == (if acquiredCount > 0 then 1 else 0)
      && envLocked == (inherited || acquiredCount > 0)
      && (acquiredCount > 0 ==> !inherited && !frozen && writable)
    }

    method AcquireCacheLock(w: Weather) returns (status: Status)
      requires Valid() && w.Foreign(cachelock.me)
      modifies this, cachelock, cachelock.kernel
      ensures !status.Waiting? ==> Valid()
      ensures status.FrozenCache? <==> frozen
      ensures status.NotWritable? <==> !frozen && !writable
      ensures status.LockedByParent? <==> !frozen && writable && old(acquiredCount) == 0 && inherited
      ensures status.Entered? ==>
        acquiredCount == old(acquiredCount) + 1 && envLocked && cachelock.lockFileFd.Some? && cachelock.Exclusive()
      ensures !frozen && writable && !inherited && old(acquiredCount) == 0 ==>
        var first := Tries(old(cachelock.kernel.state), cachelock.me, w.timed);
        var second := Tries(first.state, cachelock.me, w.untimed);
        status.Entered? <==> first.outcome.Acquired? || (first.outcome.TimedOut? && second.outcome.Acquired?)
      ensures !status.Entered? ==> acquiredCount == old(acquiredCount) && envLocked == old(envLocked)
      ensures old(acquiredCount) > 0 ==>
        status.Entered? && cachelock.lockFileFd == old(cachelock.lockFileFd) && cachelock.kernel.state == old(cachelock.kernel.state)
    {
      if frozen {
        return FrozenCache;
      }
      if !writable {
        return NotWritable;
      }
      if acquiredCount == 0 {
        if envLocked {
          return LockedByParent;
        }
        var outcome := cachelock.Acquire(w.timed);
        if outcome.TimedOut? {
          outcome := cachelock.Acquire(w.untimed);
        }
        if !outcome.Acquired? {
          return Waiting;
        }
        envLocked := true;
      }
      acquiredCount := acquiredCount + 1;
      cachelock.HoldingExcludes();
      status := Entered;
    }

    /** Releasing more often than acquiring trips the assertion, after the count has gone to -1. */
    method ReleaseCacheLock(w: Weather) returns (balanced: bool)
      requires Valid() && w.Foreign(cachelock.me)
      modifies this, cachelock, cachelock.kernel
      ensures balanced <==> old(acquiredCount) > 0
      ensures acquiredCount == old(acquiredCount) - 1
      ensures balanced ==> Valid()
      ensures old(acquiredCount) != 1 ==>
        envLocked == old(envLocked) && cachelock.lockFileFd == old(cachelock.lockFileFd)
      ensures old(acquiredCount) == 1 ==> !envLocked && cachelock.lockFileFd.None?
      ensures old(acquiredCount) > 1 ==> cachelock.kernel.state == old(cachelock.kernel.state)
    {
      acquiredCount := acquiredCount - 1;
      if acquiredCount < 0 {
        return false;
      }
      if acquiredCount == 0 {
        assert envLocked;
        envLocked := false;
        cachelock.Release(w.release);
      }
      balanced := true;
    }

    /** Runs a block with everything nested in it. Unless the lock cannot be had, the process ends as
        it began; while the body runs, the variable is set and the file lock is held by nobody else. */
    method RunBlock(b: Block) returns (status: Status)
      requires Valid() && b.Foreign(cachelock.me)
      modifies this, cachelock, cachelock.kernel
      ensures !status.Waiting? ==> Valid()
      ensures acquiredCount == old(acquiredCount) && envLocked == old(envLocked)
      ensures status.Entered? ==> (cachelock.lockFileFd.Some? <==> acquiredCount > 0)
      ensures old(acquiredCount) > 0 ==>
        status.Entered? && cachelock.lockFileFd == old(cachelock.lockFileFd) && cachelock.kernel.state == old(cachelock.kernel.state)
      decreases b
    {
      status := AcquireCacheLock(b.weather);
      if !status.Entered? {
        return;
      }
      ghost var fd, kernel := cachelock.lockFileFd, cachelock.kernel.state;
      var i := 0;
      while i < |b.body|
        invariant 0 <= i <= |b.body|
        invariant Valid() && acquiredCount == old(acquiredCount) + 1 && envLocked
        invariant cachelock.lockFileFd == fd && cachelock.kernel.state == kernel
      {
        assert b.body[i] in b.body;
        var inner := RunBlock(b.body[i]);
        assert inner.Entered?;
        i := i + 1;
      }
      var balanced := ReleaseCacheLock(b.weather);
      assert balanced;
    }
  }
}
