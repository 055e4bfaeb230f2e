/** The lock object itself (tools/filelock.py): `_acquire`, `_release` and the nested counter of
    `acquire`/`release`, written against a kernel that other processes use between any two of its
    system calls. One thread uses the object; FileLockThreads covers several. */
module UnixFileLocks {
  import opened Options
  import opened FileLockProtocol

  predicate ByOthers(me: Process, events: seq<Event>) {
    forall e :: e in events ==> e.p != me
  }

  lemma {:induction false} OthersLeaveMe(s: State, me: Process, events: seq<Event>)
    requires ByOthers(me, events)
    ensures Exec(s, events).At(me) == s.At(me)
    decreases |events|
  {
    if events != [] {
      assert events[0] in events;
      StepMovesOnlyActor(s, events[0], me);
      assert forall e :: e in events[1..] ==> e in events;
      OthersLeaveMe(Step(s, events[0]), me, events[1..]);
    }
  }

  lemma ExecNext(s: State, events: seq<Event>, i: nat)
    requires i < |events|
    ensures Exec(s, events[i..]) == Exec(Step(s, events[i]), events[i + 1..])
    ensures events[..i] + [events[i]] == events[..i + 1]
  {
    assert events[i..][0] == events[i] && events[i..][1..] == events[i + 1..];
  }

  /** The file system and the flock table, shared by all processes. */
  class Kernel {
    var state: State
    ghost const start: State
    ghost var history: seq<Event>

    /** The state is the outcome of protocol steps alone, from a state in which nobody had the lock. */
    ghost predicate Valid()
      reads this
    {
      Initial(start) && state == Exec(start, history) && Inv(state)
    }

    constructor (state: State)
      requires Initial(state)
      ensures Valid() && this.state == state
    {
      this.state := state;
      start := state;
      history := [];
    }

    /** Accounts for the step `e` that led from `before` to the present state. */
    ghost method Record(before: State, e: Event)
      requires Initial(start) && before == Exec(start, history) && Inv(before) && state == Step(before, e)
      modifies this`history
      ensures Valid() && history == old(history) + [e]
    {
      ExecConcat(start, history, [e]);
      ExecOne(before, e);
      ExecKeepsInv(before, [e]);
      history := history + [e];
    }

    /** The other processes run for a while. */
    method Others(me: Process, events: seq<Event>)
      requires Valid() && ByOthers(me, events)
      modifies this
      ensures Valid() && history == old(history) + events
      ensures state == Exec(old(state), events) && state.At(me) == old(state).At(me)
    {
      var i := 0;
      while i < |events|
        invariant 0 <= i <= |events|
        invariant Valid() && history == old(history) + events[..i]
        invariant Exec(state, events[i..]) == Exec(old(state), events)
      {
        ghost var before := state;
        ExecNext(before, events, i);
        state := Step(state, events[i]);
        Record(before, events[i]);
        i := i + 1;
      }
      OthersLeaveMe(old(state), me, events);
    }

    /** The caller sets or clears its descriptor field, which is no system call. */
    method Mark(me: Process)
      requires Valid() && (state.At(me).Checked? || state.At(me).Held?)
      modifies this
      ensures Valid() && history == old(history) + [Run(me)] && state == RunStep(old(state), me)
      ensures state.At(me) == if old(state).At(me).Checked? then Held(old(state).At(me).ino) else Releasing(old(state).At(me).ino)
      ensures state.link == old(state).link
    {
      state := state.Goto(me, if state.At(me).Checked? then Held(state.At(me).ino) else Releasing(state.At(me).ino));
      Record(old(state), Run(me));
    }

    method Open(me: Process) returns (fd: Inode)
      requires Valid() && state.At(me).Idle?
      modifies this
      ensures Valid() && history == old(history) + [Run(me)] && state == RunStep(old(state), me)
      ensures state.At(me) == Opened(fd) && state.link == Some(fd)
      ensures fd in state.owner <==> !LockFree(old(state))
    {
      if state.link.None? {
        fd := state.next;
        state := state.(link := Some(fd), next := fd + 1);
      } else {
        fd := state.link.value;
      }
      state := state.Goto(me, Opened(fd));
      Record(old(state), Run(me));
    }

    method Flock(me: Process, fd: Inode) returns (granted: bool)
      requires Valid() && state.At(me) == Opened(fd)
      modifies this
      ensures Valid() && history == old(history) + [Run(me)] && state == RunStep(old(state), me)
      ensures granted == (fd !in old(state).owner)
      ensures state.At(me) == if granted then Flocked(fd) else Refused(fd)
      ensures state.link == old(state).link
    {
      granted := fd !in state.owner;
      if granted {
        state := state.(owner := state.owner[fd := me]).Goto(me, Flocked(fd));
      } else {
        state := state.Goto(me, Refused(fd));
      }
      Record(old(state), Run(me));
    }

    method Fstat(me: Process, fd: Inode) returns (linkCount: nat)
      requires Valid() && state.At(me) == Flocked(fd)
      modifies this
      ensures Valid() && history == old(history) + [Run(me)] && state == RunStep(old(state), me)
      ensures linkCount == 0 <==> old(state).link != Some(fd)
      ensures state.At(me) == if linkCount == 0 then Stale(fd) else Checked(fd)
    {
      linkCount := state.LinkCount(fd);
      state := state.Goto(me, if linkCount == 0 then Stale(fd) else Checked(fd));
      Record(old(state), Run(me));
    }

    method Unlink(me: Process, fd: Inode) returns (found: bool)
      requires Valid() && state.At(me) == Releasing(fd)
      modifies this
      ensures found && old(state).link == Some(fd)
      ensures Valid() && history == old(history) + [Run(me)] && state == RunStep(old(state), me)
      ensures state.At(me) == Unlinked(fd) && state.link == None
    {
      found := state.link.Some?;
      state := state.(link := None).Goto(me, Unlinked(fd));
      Record(old(state), Run(me));
    }

    method Unlock(me: Process, fd: Inode)
      requires Valid() && state.At(me) == Unlinked(fd)
      modifies this
      ensures Valid() && history == old(history) + [Run(me)] && state == RunStep(old(state), me)
      ensures state.At(me) == Unlocked(fd) && fd !in state.owner
    {
      state := state.(owner := state.owner - {fd}).Goto(me, Unlocked(fd));
      Record(old(state), Run(me));
    }

    /** Closing the descriptor also drops a flock taken through it. */
    method Close(me: Process, fd: Inode)
      requires Valid() && state.At(me) in {Refused(fd), Stale(fd), Unlocked(fd)}
      modifies this
      ensures Valid() && history == old(history) + [Run(me)] && state == RunStep(old(state), me)
      ensures state.At(me).Idle?
      ensures fd in state.owner ==> state.owner[fd] != me
    {
      if state.At(me).Stale? {
        state := state.(owner := DropFlock(state.owner, fd, me));
      }
      state := state.Goto(me, Idle);
      Record(old(state), Run(me));
    }
  }

  /** What the other processes do between the system calls of one attempt (`sleep`: after it), and
      whether the deadline has then passed. */
  datatype Attempt = Attempt(beforeFlock: seq<Event>, beforeFstat: seq<Event>, beforeSet: seq<Event>,
                             sleep: seq<Event>, timedOut: bool)
  {
    predicate Foreign(me: Process) {
      ByOthers(me, beforeFlock) && ByOthers(me, beforeFstat) && ByOthers(me, beforeSet) && ByOthers(me, sleep)
    }
  }

  /** The kernel after one attempt: open, ask for the flock, look at the link count and set the descriptor,
      or close, with what the others do in between. */
  ghost function Attempted(s: State, me: Process, a: Attempt): State {
    var asked := RunStep(Exec(RunStep(s, me), a.beforeFlock), me);
    if !asked.At(me).Flocked? then RunStep(asked, me)
    else
      var checked := RunStep(Exec(asked, a.beforeFstat), me);
      if !checked.At(me).Checked? then RunStep(checked, me)
      else RunStep(Exec(checked, a.beforeSet), me)
  }

  /** `StillWaiting`: the described attempts are used up and acquire is still in its loop. */
  datatype Outcome = Acquired | TimedOut | StillWaiting

  /** How the loop of acquire ends that begins here without the lock, and the kernel then. */
  datatype Ending = Ending(outcome: Outcome, state: State)

  ghost function Tries(s: State, me: Process, attempts: seq<Attempt>): Ending
    decreases |attempts|
  {
    if attempts == [] then Ending(StillWaiting, s)
    else
      var t := Attempted(s, me, attempts[0]);
      if t.At(me).Held? then Ending(Acquired, t)
      else if attempts[0].timedOut then Ending(TimedOut, t)
      else Tries(Exec(t, attempts[0].sleep), me, attempts[1..])
  }

  /** An acquire that has got the lock or run out of time is over; one that is still waiting goes on with the
      next attempt, from the kernel as it is then. */
  lemma {:induction false} TriesOn(s: State, me: Process, attempts: seq<Attempt>, more: seq<Attempt>)
    ensures var e := Tries(s, me, attempts);
      Tries(s, me, attempts + more) == if e.outcome.StillWaiting? then Tries(e.state, me, more) else e
    decreases |attempts|
  {
    if attempts == [] {
      assert attempts + more == more;
    } else {
      assert (attempts + more)[0] == attempts[0] && (attempts + more)[1..] == attempts[1..] + more;
      var t := Attempted(s, me, attempts[0]);
      TriesOn(Exec(t, attempts[0].sleep), me, attempts[1..], more);
    }
  }

  /** One attempt: it gets the lock, is the last in time, or leaves acquire waiting. */
  lemma TriesOnce(s: State, me: Process, a: Attempt)
    ensures var t := Attempted(s, me, a);
      Tries(s, me, [a]) ==
        if t.At(me).Held? then Ending(Acquired, t)
        else if a.timedOut then Ending(TimedOut, t)
        else Ending(StillWaiting, Exec(t, a.sleep))
  {
    var t := Attempted(s, me, a);
    assert Tries(Exec(t, a.sleep), me, [a][1..]) == Ending(StillWaiting, Exec(t, a.sleep));
  }

  /** While acquire is waiting no attempt has run out of time. */
  lemma {:induction false} WaitingIsInTime(s: State, me: Process, attempts: seq<Attempt>)
    requires Tries(s, me, attempts).outcome.StillWaiting?
    ensures forall a :: a in attempts ==> !a.timedOut
    decreases |attempts|
  {
    if attempts != [] {
      var t := Attempted(s, me, attempts[0]);
      WaitingIsInTime(Exec(t, attempts[0].sleep), me, attempts[1..]);
    }
  }

  class UnixFileLock {
    const me: Process
    const kernel: Kernel
    var lockFileFd: Option<Inode>
    var lockCounter: int

    constructor (me: Process, kernel: Kernel)
      requires kernel.Valid() && kernel.state.At(me).Idle?
      ensures this.me == me && this.kernel == kernel && Valid() && lockCounter == 0
    {
      this.me := me;
      this.kernel := kernel;
      lockFileFd := None;
      lockCounter := 0;
    }

    /** The descriptor and the kernel agree. */
    ghost predicate Synced()
      reads this, kernel
    {
      && kernel.Valid()
      && kernel.state.At(me) == if lockFileFd.Some? then Held(lockFileFd.value) else Idle
    }

    ghost predicate Valid()
      reads this, kernel
    {
      Synced() && lockCounter >= 0 && (lockCounter == 0 <==> lockFileFd.None?)
    }

    /** No other lock object on this path has its descriptor set. */
    ghost predicate Exclusive()
      reads this, kernel
    {
      forall p: Process :: p != me ==> !kernel.state.At(p).Held?
    }

    lemma HoldingExcludes()
      requires Synced() && lockFileFd.Some?
      ensures Exclusive()
    {
      forall p: Process | kernel.state.At(p).Held? ensures p == me {
        OnlyOnePastCheck(kernel.state, p, me);
      }
    }

    method TryAcquire(a: Attempt)
      requires Synced() && lockFileFd.None? && a.Foreign(me)
      modifies this`lockFileFd, kernel
      ensures Synced()
      ensures kernel.state == Attempted(old(kernel.state), me, a)
      ensures lockFileFd.Some? ==> Exclusive() && kernel.state.link == lockFileFd
      ensures a.beforeFlock == a.beforeFstat == [] ==> (lockFileFd.Some? <==> LockFree(old(kernel.state)))
    {
      var fd := kernel.Open(me);
      kernel.Others(me, a.beforeFlock);
      var granted := kernel.Flock(me, fd);
      if !granted {
        kernel.Close(me, fd);
      } else {
        kernel.Others(me, a.beforeFstat);
        var linkCount := kernel.Fstat(me, fd);
        if linkCount == 0 {
          kernel.Close(me, fd);
        } else {
          kernel.Others(me, a.beforeSet);
          kernel.Mark(me);
          lockFileFd := Some(fd);
          HoldingExcludes();
        }
      }
    }

    /** `others` is what happens between the four steps of the release. */
    method DoRelease(others: seq<seq<Event>>)
      requires Synced() && lockFileFd.Some?
      requires |others| == 3 && forall i :: 0 <= i < 3 ==> ByOthers(me, others[i])
      modifies this`lockFileFd, kernel
      ensures Synced() && lockFileFd.None?
    {
      var fd := lockFileFd.value;
      lockFileFd := None;
      kernel.Mark(me);
      kernel.Others(me, others[0]);
      var found := kernel.Unlink(me, fd);
      assert found;
      kernel.Others(me, others[1]);
      kernel.Unlock(me, fd);
      kernel.Others(me, others[2]);
      kernel.Close(me, fd);
    }

    method Acquire(attempts: seq<Attempt>) returns (outcome: Outcome)
      requires Valid() && forall a :: a in attempts ==> a.Foreign(me)
      modifies this, kernel
      ensures outcome.Acquired? ==> Valid() && lockCounter == old(lockCounter) + 1 && Exclusive()
      ensures outcome.TimedOut? ==> Valid() && lockCounter == old(lockCounter) == 0
      ensures outcome.TimedOut? ==> exists a :: a in attempts && a.timedOut
      ensures outcome.StillWaiting? ==> forall a :: a in attempts ==> !a.timedOut
      ensures outcome.StillWaiting? ==> Synced() && lockFileFd.None? && lockCounter == 1
      ensures old(lockFileFd).Some? ==>
        outcome.Acquired? && lockFileFd == old(lockFileFd) && kernel.state == old(kernel.state)
      ensures |attempts| > 0 && attempts[0].beforeFlock == attempts[0].beforeFstat == [] && LockFree(old(kernel.state))
        ==> outcome.Acquired?
      ensures old(lockFileFd).None? ==> Ending(outcome, kernel.state) == Tries(old(kernel.state), me, attempts)
    {
      lockCounter := lockCounter + 1;
      var i := 0;
      assert attempts[0..] == attempts;
      while true
        invariant 0 <= i <= |attempts| && Synced()
        invariant lockCounter == old(lockCounter) + 1
        invariant i == 0 ==> lockFileFd == old(lockFileFd) && kernel.state == old(kernel.state)
        invariant i > 0 ==> lockFileFd.None? && old(lockFileFd).None?
        invariant old(lockFileFd).None? ==> Tries(kernel.state, me, attempts[i..]) == Tries(old(kernel.state), me, attempts)
        invariant i > 0 && attempts[0].beforeFlock == attempts[0].beforeFstat == [] ==> !LockFree(old(kernel.state))
        decreases |attempts| - i
      {
        if lockFileFd.None? {
          if i == |attempts| {
            WaitingIsInTime(old(kernel.state), me, attempts);
            return StillWaiting;
          }
          assert attempts[i] in attempts;
          TryAcquire(attempts[i]);
        }
        if lockFileFd.Some? {
          HoldingExcludes();
          return Acquired;
        } else if attempts[i].timedOut {
          lockCounter := if lockCounter - 1 > 0 then lockCounter - 1 else 0;
          return TimedOut;
        }
        kernel.Others(me, attempts[i].sleep);
        assert attempts[i..][1..] == attempts[i + 1..];
        i := i + 1;
      }
    }

    method Release(others: seq<seq<Event>>)
      requires Valid()
      requires |others| == 3 && forall i :: 0 <= i < 3 ==> ByOthers(me, others[i])
      modifies this, kernel
      ensures Valid()
      ensures lockCounter == if old(lockCounter) == 0 then 0 else old(lockCounter) - 1
      ensures old(lockCounter) != 1 ==> lockFileFd == old(lockFileFd) && kernel.state == old(kernel.state)
    {
      if lockFileFd.Some? {
        lockCounter := lockCounter - 1;
        if lockCounter == 0 {
          DoRelease(others);
          lockCounter := 0;
        }
      }
    }
  }
}
