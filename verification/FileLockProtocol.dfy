/** The inter-process protocol of UnixFileLock (tools/filelock.py): every process may open or
    create the lock file, flock it, reject an inode that was unlinked in between, and on release
    unlink the path before unlocking. Each system call is one atomic step, so a schedule is a
    sequence of events and a reachable state is the result of executing one. */
module FileLockProtocol {
  import opened Options

  type Process = nat
  type Inode = nat

  /** How far one lock object is inside _acquire or _release. The inode is the file that its
      descriptor refers to. `Held` is the only point at which `_lock_file_fd` is set. */
  datatype Pc =
    | Idle
    | Opened(ino: Inode)     // os.open returned
    | Refused(ino: Inode)    // flock failed, about to close
    | Flocked(ino: Inode)    // flock succeeded, about to fstat
    | Stale(ino: Inode)      // st_nlink was 0, about to close
    | Checked(ino: Inode)    // st_nlink was not 0, about to set the descriptor
    | Held(ino: Inode)       // _lock_file_fd is set
    | Releasing(ino: Inode)  // _lock_file_fd cleared, about to unlink
    | Unlinked(ino: Inode)   // path removed, about to unlock
    | Unlocked(ino: Inode)   // flock dropped, about to close
    | Raised(ino: Inode)     // os.unlink found no file
  {
    predicate OwnsFlock() {
      Flocked? || Stale? || Checked? || Held? || Releasing? || Unlinked? || Raised?
    }

    predicate PastCheck() {
      Checked? || Held? || Releasing?
    }
  }

  /** `link` is the inode the lock path names, `next` the next inode the file system will create,
      `owner` the process whose open file description holds the flock of an inode. */
  datatype State = State(link: Option<Inode>, next: Inode, owner: map<Inode, Process>, pc: map<Process, Pc>) {
    function At(p: Process): Pc {
      if p in pc then pc[p] else Idle
    }

    function LinkCount(i: Inode): nat {
      if link == Some(i) then 1 else 0
    }

    function Goto(p: Process, c: Pc): State {
      this.(pc := pc[p := c])
    }
  }

  /** A process executes its next system call, or dies: the kernel then closes its descriptor. */
  datatype Event = Run(p: Process) | Crash(p: Process)

  function DropFlock(owner: map<Inode, Process>, i: Inode, p: Process): map<Inode, Process> {
    if i in owner && owner[i] == p then owner - {i} else owner
  }

  function RunStep(s: State, p: Process): State {
    match s.At(p)
    case Idle =>
      if s.link.Some? then s.Goto(p, Opened(s.link.value))
      else s.(link := Some(s.next), next := s.next + 1).Goto(p, Opened(s.next))
    case Opened(i) =>
      if i in s.owner then s.Goto(p, Refused(i))
      else s.(owner := s.owner[i := p]).Goto(p, Flocked(i))
    case Refused(_) => s.Goto(p, Idle)
    case Flocked(i) => s.Goto(p, if s.LinkCount(i) == 0 then Stale(i) else Checked(i))
    case Stale(i) => s.(owner := DropFlock(s.owner, i, p)).Goto(p, Idle)
    case Checked(i) => s.Goto(p, Held(i))
    case Held(i) => s.Goto(p, Releasing(i))
    case Releasing(i) =>
      if s.link.Some? then s.(link := None).Goto(p, Unlinked(i)) else s.Goto(p, Raised(i))
    case Unlinked(i) => s.(owner := DropFlock(s.owner, i, p)).Goto(p, Unlocked(i))
    case Unlocked(_) => s.Goto(p, Idle)
    case Raised(_) => s
  }

  function CrashStep(s: State, p: Process): State {
    match s.At(p)
    case Idle => s
    case c => s.(owner := DropFlock(s.owner, c.ino, p)).Goto(p, Idle)
  }

  function Step(s: State, e: Event): State {
    match e
    case Run(p) => RunStep(s, p)
    case Crash(p) => CrashStep(s, p)
  }

  function Exec(s: State, events: seq<Event>): State
    decreases |events|
  {
    if events == [] then s else Exec(Step(s, events[0]), events[1..])
  }

  /** No process is using the lock; the lock file may have been left behind by a dead process. */
  ghost predicate Initial(s: State) {
    && (s.link.Some? ==> s.link.value < s.next)
    && s.owner == map[] && s.pc == map[]
  }

  ghost predicate Reachable(s: State) {
    exists s0: State, events: seq<Event> :: Initial(s0) && s == Exec(s0, events)
  }

  ghost predicate InodesExist(s: State) {
    && (s.link.Some? ==> s.link.value < s.next)
    && (forall p: Process :: !s.At(p).Idle? ==> s.At(p).ino < s.next)
  }

  ghost predicate FlocksMatch(s: State) {
    && (forall p: Process :: s.At(p).OwnsFlock() ==> s.At(p).ino in s.owner && s.owner[s.At(p).ino] == p)
    && (forall i :: i in s.owner ==> s.At(s.owner[i]).OwnsFlock() && s.At(s.owner[i]).ino == i)
  }

  ghost predicate LinksMatch(s: State) {
    && (forall p: Process :: s.At(p).PastCheck() ==> s.link == Some(s.At(p).ino))
    && (forall p: Process :: !s.At(p).Raised?)
  }

  ghost predicate Inv(s: State) {
    InodesExist(s) && FlocksMatch(s) && LinksMatch(s)
  }

  lemma OnlyOnePastCheck(s: State, p: Process, q: Process)
    requires Inv(s) && s.At(p).PastCheck() && s.At(q).PastCheck()
    ensures p == q
  {
    assert s.At(p).ino == s.At(q).ino;
  }

  /** The other processes' program counters do not move when `p` makes a system call. */
  lemma RunMovesOnlyCaller(s: State, p: Process, q: Process)
    requires q != p
    ensures RunStep(s, p).At(q) == s.At(q)
  {
  }

  lemma RunKeepsInodes(s: State, p: Process)
    requires Inv(s)
    ensures InodesExist(RunStep(s, p))
  {
    forall q: Process | q != p ensures RunStep(s, p).At(q) == s.At(q) {
      RunMovesOnlyCaller(s, p, q);
    }
  }

  lemma RunKeepsFlocks(s: State, p: Process)
    requires Inv(s)
    ensures FlocksMatch(RunStep(s, p))
  {
    var t := RunStep(s, p);
    forall q: Process ensures t.At(q).OwnsFlock() ==> t.At(q).ino in t.owner && t.owner[t.At(q).ino] == q {
      RunKeepsHolder(s, p, q);
    }
    forall i | i in t.owner ensures t.At(t.owner[i]).OwnsFlock() && t.At(t.owner[i]).ino == i {
      RunKeepsOwner(s, p, i);
    }
  }

  lemma RunKeepsHolder(s: State, p: Process, q: Process)
    requires FlocksMatch(s)
    ensures var t := RunStep(s, p); t.At(q).OwnsFlock() ==> t.At(q).ino in t.owner && t.owner[t.At(q).ino] == q
  {
    if q != p {
      RunMovesOnlyCaller(s, p, q);
    }
  }

  lemma RunKeepsOwner(s: State, p: Process, i: Inode)
    requires FlocksMatch(s)
    ensures var t := RunStep(s, p); i in t.owner ==> t.At(t.owner[i]).OwnsFlock() && t.At(t.owner[i]).ino == i
  {
    var t := RunStep(s, p);
    if i in t.owner && t.owner[i] != p {
      RunMovesOnlyCaller(s, p, t.owner[i]);
    }
  }

  lemma RunKeepsLinks(s: State, p: Process)
    requires Inv(s)
    ensures LinksMatch(RunStep(s, p))
  {
    var t := RunStep(s, p);
    forall q: Process ensures !t.At(q).Raised? && (t.At(q).PastCheck() ==> t.link == Some(t.At(q).ino)) {
      if q != p {
        RunMovesOnlyCaller(s, p, q);
        if s.At(p).Releasing? && s.At(q).PastCheck() {
          OnlyOnePastCheck(s, p, q);
        }
      }
    }
  }

  lemma RunKeepsInv(s: State, p: Process)
    requires Inv(s)
    ensures Inv(RunStep(s, p))
  {
    RunKeepsInodes(s, p);
    RunKeepsFlocks(s, p);
    RunKeepsLinks(s, p);
  }

  lemma CrashKeepsInv(s: State, p: Process)
    requires Inv(s)
    ensures Inv(CrashStep(s, p))
  {
    var t := CrashStep(s, p);
    forall q: Process ensures q != p ==> t.At(q) == s.At(q) {}
  }

  lemma {:induction false} ExecKeepsInv(s: State, events: seq<Event>)
    requires Inv(s)
    ensures Inv(Exec(s, events))
    decreases |events|
  {
    if events != [] {
      match events[0] {
        case Run(p) => RunKeepsInv(s, p);
        case Crash(p) => CrashKeepsInv(s, p);
      }
      ExecKeepsInv(Step(s, events[0]), events[1..]);
    }
  }

  lemma {:induction false} ExecConcat(s: State, a: seq<Event>, b: seq<Event>)
    ensures Exec(s, a + b) == Exec(Exec(s, a), b)
    decreases |a|
  {
    if a == [] {
      assert a + b == b;
    } else {
      assert (a + b)[1..] == a[1..] + b;
      ExecConcat(Step(s, a[0]), a[1..], b);
    }
  }

  lemma ReachableInv(s: State)
    requires Reachable(s)
    ensures Inv(s)
  {
    var s0, events :| Initial(s0) && s == Exec(s0, events);
    ExecKeepsInv(s0, events);
  }

  /** Mutual exclusion for any number of processes, any schedule and any crashes. */
  lemma MutualExclusion(s: State, p: Process, q: Process)
    requires Reachable(s) && s.At(p).Held? && s.At(q).Held?
    ensures p == q
  {
    ReachableInv(s);
    OnlyOnePastCheck(s, p, q);
  }

  /** A releasing process always finds the path, the path names the very inode it holds, and after
      the unlink no other process is left past its link-count check on a file that is gone. */
  lemma UnlinkRemovesOwnFile(s: State, p: Process)
    requires Reachable(s) && s.At(p).Releasing?
    ensures s.link == Some(s.At(p).ino)
    ensures var t := RunStep(s, p);
      t.At(p) == Unlinked(s.At(p).ino) && t.link == None && forall q: Process :: !t.At(q).PastCheck()
  {
    ReachableInv(s);
    forall q: Process | RunStep(s, p).At(q).PastCheck() ensures false {
      OnlyOnePastCheck(s, p, q);
    }
  }

  /** The exception that os.unlink would raise for a missing file never happens. */
  lemma ReleaseNeverRaises(s: State, p: Process)
    requires Reachable(s)
    ensures !s.At(p).Raised?
  {
    ReachableInv(s);
  }

  predicate LockFree(s: State) {
    s.link.None? || s.link.value !in s.owner
  }

  lemma SoloTakes(s: State, p: Process)
    requires s.At(p).Idle? && LockFree(s) && s.next !in s.owner
    ensures RunStep(RunStep(RunStep(RunStep(s, p), p), p), p).At(p).Held?
  {
    var s1 := RunStep(s, p);
    var s2 := RunStep(s1, p);
    assert s1.At(p).Opened? && s1.link == Some(s1.At(p).ino) && s1.At(p).ino !in s1.owner;
    assert s2.At(p) == Flocked(s1.At(p).ino) && s2.link == s1.link;
    assert RunStep(s2, p).At(p).Checked?;
  }

  lemma SoloRefused(s: State, p: Process)
    requires s.At(p).Idle? && !LockFree(s)
    ensures var t := RunStep(RunStep(RunStep(s, p), p), p);
      t.(pc := s.pc) == s && t.At(p).Idle? && forall q: Process :: t.At(q) == s.At(q)
  {
    var s1 := RunStep(s, p);
    var s2 := RunStep(s1, p);
    assert s1.At(p).Opened? && s1.At(p).ino in s1.owner;
    assert s2.At(p).Refused?;
  }

  /** Run alone, an acquire takes the lock exactly when nobody holds the flock of the file at the
      path: in particular a lock file left behind by a dead process never blocks anybody. When
      somebody does hold it, three system calls later everything is as it was. */
  lemma SoloAcquire(s: State, p: Process)
    requires Reachable(s) && s.At(p).Idle?
    ensures LockFree(s) <==> Exec(s, [Run(p), Run(p), Run(p), Run(p)]).At(p).Held?
    ensures !LockFree(s) ==>
      var t := Exec(s, [Run(p), Run(p), Run(p)]);
      t.(pc := s.pc) == s && forall q: Process :: t.At(q) == s.At(q)
  {
    assert s.next !in s.owner by {
      ReachableInv(s);
    }
    var three := [Run(p), Run(p), Run(p)];
    var t := RunStep(RunStep(RunStep(s, p), p), p);
    assert Exec(s, three) == t by {
      ExecThree(s, Run(p), Run(p), Run(p));
    }
    assert Exec(s, [Run(p), Run(p), Run(p), Run(p)]) == RunStep(t, p) by {
      assert [Run(p), Run(p), Run(p), Run(p)] == three + [Run(p)];
      ExecConcat(s, three, [Run(p)]);
      ExecOne(t, Run(p));
    }
    if LockFree(s) {
      SoloTakes(s, p);
    } else {
      SoloRefused(s, p);
      OpenFromIdle(t, p);
    }
  }

  lemma OpenFromIdle(s: State, p: Process)
    requires s.At(p).Idle?
    ensures RunStep(s, p).At(p).Opened?
  {
  }

  lemma ExecOne(s: State, e: Event)
    ensures Exec(s, [e]) == Step(s, e)
  {
    assert Exec(s, [e]) == Exec(Step(s, e), []);
  }

  lemma ExecThree(s: State, a: Event, b: Event, c: Event)
    ensures Exec(s, [a, b, c]) == Step(Step(Step(s, a), b), c)
  {
    assert [a, b, c][1..] == [b, c];
    assert [b, c][1..] == [c];
    ExecOne(Step(Step(s, a), b), c);
  }

  /** The abstract lock that the rest of the program relies on: who holds it, if anybody. */
  ghost predicate HolderIs(s: State, h: Option<Process>) {
    forall p: Process :: s.At(p).Held? <==> h == Some(p)
  }

  datatype MutexStep = Taken(p: Process) | Freed(p: Process) | Unchanged

  ghost predicate MutexAllows(before: Option<Process>, step: MutexStep, after: Option<Process>) {
    match step
    case Taken(p) => before == None && after == Some(p)
    case Freed(p) => before == Some(p) && after == None
    case Unchanged => before == after
  }

  lemma HolderExists(s: State) returns (h: Option<Process>)
    requires Reachable(s)
    ensures HolderIs(s, h)
  {
    ReachableInv(s);
    if p :| s.At(p).Held? {
      h := Some(p);
      forall q: Process | s.At(q).Held? ensures q == p {
        OnlyOnePastCheck(s, p, q);
      }
    } else {
      h := None;
    }
  }

  lemma StepMovesOnlyActor(s: State, e: Event, q: Process)
    requires q != e.p
    ensures Step(s, e).At(q) == s.At(q)
  {
  }

  lemma CrashReleases(s: State, p: Process)
    ensures !CrashStep(s, p).At(p).Held?
  {
  }

  /** Every event of every schedule is one step of a mutex: it takes a free lock, frees the lock by
      the act (or the death) of its holder, or leaves the holder alone. */
  lemma RefinesMutex(s: State, e: Event) returns (before: Option<Process>, step: MutexStep, after: Option<Process>)
    requires Reachable(s)
    ensures HolderIs(s, before) && HolderIs(Step(s, e), after) && MutexAllows(before, step, after)
    ensures step.Taken? ==> e == Run(step.p)
    ensures step.Freed? ==> e.p == step.p
  {
    var t := Step(s, e);
    before := HolderExists(s);
    StepReachable(s, e);
    after := HolderExists(t);
    CrashReleases(s, e.p);
    var wasHeld, isHeld := s.At(e.p).Held?, t.At(e.p).Held?;
    assert wasHeld <==> before == Some(e.p);
    assert isHeld <==> after == Some(e.p);
    assert isHeld ==> e.Run?;
    step := if wasHeld && !isHeld then Freed(e.p) else if !wasHeld && isHeld then Taken(e.p) else Unchanged;
    if before.Some? && before.value != e.p {
      StepMovesOnlyActor(s, e, before.value);
      assert t.At(before.value).Held?;
    }
    if after.Some? && after.value != e.p {
      StepMovesOnlyActor(s, e, after.value);
      assert s.At(after.value).Held?;
    }
  }

  lemma StepReachable(s: State, e: Event)
    requires Reachable(s)
    ensures Reachable(Step(s, e))
  {
    var s0, events :| Initial(s0) && s == Exec(s0, events);
    ExecConcat(s0, events, [e]);
    ExecOne(s, e);
    assert Step(s, e) == Exec(s0, events + [e]);
  }

  /** Run alone, a release leaves the lock free and the path without a file, and touches nobody else. */
  lemma SoloRelease(s: State, p: Process)
    requires Reachable(s) && s.At(p).Held?
    ensures var t := Exec(s, [Run(p), Run(p), Run(p)] + [Run(p)]);
      && t.At(p).Idle? && t.link.None? && LockFree(t) && t.next == s.next
      && t.owner == s.owner - {s.At(p).ino} && forall q: Process :: q != p ==> t.At(q) == s.At(q)
  {
    ReachableInv(s);
    ExecThree(s, Run(p), Run(p), Run(p));
    ExecConcat(s, [Run(p), Run(p), Run(p)], [Run(p)]);
    ReleasesAlone(s, p, RunStep(s, p), RunStep(RunStep(s, p), p));
    ExecOne(RunStep(RunStep(RunStep(s, p), p), p), Run(p));
  }

  lemma ReleasesAlone(s: State, p: Process, t: State, u: State)
    requires Inv(s) && s.At(p).Held? && t == RunStep(s, p) && u == RunStep(t, p)
    ensures var v := RunStep(u, p); var w := RunStep(v, p);
      && w.At(p).Idle? && w.link.None? && w.next == s.next
      && w.owner == s.owner - {s.At(p).ino} && forall q: Process :: q != p ==> w.At(q) == s.At(q)
  {
    var i := s.At(p).ino;
    assert s.link == Some(i) && i in s.owner && s.owner[i] == p;
    assert u.At(p) == Unlinked(i) && u.owner == s.owner && u.link.None?;
  }
}
