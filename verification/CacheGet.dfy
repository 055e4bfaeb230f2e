/** `cache.get` (tools/cache.py) run by any number of processes in any interleaving, with creators
    that call `get` again for the parts they need. The cache-wide file lock appears as the mutex
    that FileLockProtocol.RefinesMutex shows it to be; it counts nested acquisitions. Nothing is
    erased and no call forces a rebuild. */
module CacheGet {
  import opened Options

  type Process = nat
  type Name = string

  datatype Stage =
    | FirstLook          // about to test for the file without the lock
    | Acquiring          // about to take the cache lock
    | SecondLook         // about to test for the file again
    | Creating           // the creator runs
    | Created            // the creator has returned
    | Leaving(ok: bool)  // about to release the lock, then to return the path (ok) or to raise

  datatype Frame = Frame(name: Name, stage: Stage) {
    predicate Locked() {
      !stage.FirstLook? && !stage.Acquiring?
    }
  }

  /** The calls of `get` in progress: the innermost one, and the names whose creators, outermost
      first, called it; and `acquired_count`. */
  datatype Activity = Activity(outer: seq<Name>, current: Option<Frame>, acquired: int) {
    predicate Creating() {
      current.Some? && current.value.stage.Creating?
    }

    function Goto(stage: Stage): Activity
      requires current.Some?
    {
      this.(current := Some(current.value.(stage := stage)))
    }

    /** The innermost call is over; the creator that made it, if any, goes on. */
    function Pop(): Activity {
      if outer == [] then this.(current := None)
      else this.(outer := outer[..|outer| - 1], current := Some(Frame(outer[|outer| - 1], Stage.Creating)))
    }

    /** A creator must not ask for a file that is being created on its behalf. */
    predicate MayCall(name: Name) {
      && (current.Some? ==> current.value.stage.Creating? && current.value.name != name)
      && name !in outer
    }

    function Push(name: Name): Activity {
      this.(outer := if current.Some? then outer + [current.value.name] else outer,
            current := Some(Frame(name, FirstLook)))
    }
  }

  /** What has happened so far, as far as the properties speak of it. */
  datatype Fact =
    | Start(p: Process, name: Name)
    | Finish(p: Process, name: Name, made: bool)    // the creator returned; is the file there?
    | Return(p: Process, name: Name, exists_: bool) // `get` returned the path; is the file there?

  /** `deferred` is the build mode in which creators only note what is to be built. */
  datatype State = State(deferred: bool, files: set<Name>, holder: Option<Process>,
                         procs: map<Process, Activity>, log: seq<Fact>)
  {
    function At(p: Process): Activity {
      if p in procs then procs[p] else Activity([], None, 0)
    }

    function With(p: Process, a: Activity): State {
      this.(procs := procs[p := a])
    }

    function Note(f: Fact): State {
      this.(log := log + [f])
    }
  }

  datatype Event =
    | Call(p: Process, name: Name)
    | Go(p: Process)                    // the next step of get itself
    | Write(p: Process)                 // a running creator makes its file appear
    | CreatorReturns(p: Process)
    | CreatorRaises(p: Process)
    | Crash(p: Process)

  function GoStep(s: State, p: Process): State
    requires s.At(p).current.Some?
  {
    var a := s.At(p);
    var n := a.current.value.name;
    match a.current.value.stage
    case FirstLook =>
      if n in s.files then s.With(p, a.Pop()).Note(Return(p, n, true))
      else s.With(p, a.Goto(Acquiring))
    case Acquiring =>
      if a.acquired == 0 then
        if s.holder.Some? then s
        else s.(holder := Some(p)).With(p, a.Goto(SecondLook).(acquired := 1))
      else s.With(p, a.Goto(SecondLook).(acquired := a.acquired + 1))
    case SecondLook =>
      if n in s.files then s.With(p, a.Goto(Leaving(true)))
      else s.With(p, a.Goto(Stage.Creating)).Note(Start(p, n))
    case Creating => s
    case Created => s.With(p, a.Goto(Leaving(s.deferred || n in s.files)))
    case Leaving(ok) =>
      var t := s.(holder := if a.acquired - 1 == 0 then None else s.holder)
               .With(p, a.Pop().(acquired := a.acquired - 1));
      if ok then t.Note(Return(p, n, n in s.files)) else t
  }

  function Step(s: State, e: Event): State {
    var a := s.At(e.p);
    match e
    case Call(p, n) => if a.MayCall(n) then s.With(p, a.Push(n)) else s
    case Go(p) => if a.current.Some? then GoStep(s, p) else s
    case Write(p) => if a.Creating() then s.(files := s.files + {a.current.value.name}) else s
    case CreatorReturns(p) =>
      if a.Creating() then
        s.With(p, a.Goto(Created)).Note(Finish(p, a.current.value.name, a.current.value.name in s.files))
      else s
    case CreatorRaises(p) => if a.Creating() then s.With(p, a.Goto(Leaving(false))) else s
    case Crash(p) =>
      s.(holder := if s.holder == Some(p) then None else s.holder).With(p, Activity([], None, 0))
  }

  function Exec(s: State, events: seq<Event>): State
    decreases |events|
  {
    if events == [] then s else Exec(Step(s, events[0]), events[1..])
  }

  ghost predicate Initial(s: State) {
    s.holder.None? && s.procs == map[] && s.log == []
  }

  ghost predicate Reachable(s: State) {
    exists s0: State, events: seq<Event> :: Initial(s0) && s == Exec(s0, events)
  }

  /** The count is the number of calls that have the lock, and no name is wanted twice. */
  ghost predicate StackOk(a: Activity) {
    && a.acquired == |a.outer| + (if a.current.Some? && a.current.value.Locked() then 1 else 0)
    && (a.current.None? ==> a.outer == [])
    && (a.current.Some? ==> a.current.value.name !in a.outer)
    && (forall i, j :: 0 <= i < j < |a.outer| ==> a.outer[i] != a.outer[j])
  }

  ghost predicate LockOk(s: State) {
    && (forall p: Process :: StackOk(s.At(p)))
    && (forall p: Process :: s.At(p).acquired > 0 <==> s.holder == Some(p))
  }

  predicate MadeIn(log: seq<Fact>, n: Name) {
    exists i :: 0 <= i < |log| && log[i].Finish? && log[i].made && log[i].name == n
  }

  /** `p` has a creator for `n` running, perhaps waiting for one that it called. */
  ghost predicate CreatingIn(a: Activity, n: Name) {
    n in a.outer || (a.Creating() && a.current.value.name == n)
  }

  ghost predicate FilesOk(s: State) {
    && (forall n :: MadeIn(s.log, n) ==> n in s.files)
    && (forall p: Process, n :: CreatingIn(s.At(p), n) ==> !MadeIn(s.log, n))
    && (forall p: Process :: s.At(p).current.Some? && s.At(p).current.value.stage == Leaving(true) && !s.deferred
          ==> s.At(p).current.value.name in s.files)
  }

  /** After a creator has returned with its file in place, no creator for that name starts or
      returns again; and every returned path exists. */
  ghost predicate LogOk(s: State) {
    && (forall i, j :: 0 <= i < j < |s.log| && s.log[i].Finish? && s.log[i].made && !s.log[j].Return?
          ==> s.log[j].name != s.log[i].name)
    && (!s.deferred ==> forall i :: 0 <= i < |s.log| && s.log[i].Return? ==> s.log[i].exists_)
  }

  ghost predicate Inv(s: State) {
    LockOk(s) && FilesOk(s) && LogOk(s)
  }

  lemma StepMovesOnlyActor(s: State, e: Event, q: Process)
    requires q != e.p
    ensures Step(s, e).At(q) == s.At(q)
  {
  }

  lemma PopKeepsStack(a: Activity)
    requires StackOk(a) && a.current.Some?
    ensures StackOk(a.Pop().(acquired := |a.outer|))
    ensures forall n :: CreatingIn(a.Pop(), n) <==> n in a.outer
  {
    if a.outer != [] {
      assert a.outer == a.Pop().outer + [a.Pop().current.value.name];
    }
  }

  lemma PushKeepsStack(a: Activity, n: Name)
    requires StackOk(a) && a.MayCall(n)
    ensures StackOk(a.Push(n))
    ensures forall m :: CreatingIn(a.Push(n), m) <==> CreatingIn(a, m)
  {
  }

  lemma GotoKeepsStack(a: Activity, stage: Stage)
    requires StackOk(a) && a.current.Some?
    ensures StackOk(a.Goto(stage).(acquired := |a.outer| + if Frame("", stage).Locked() then 1 else 0))
    ensures forall m :: CreatingIn(a.Goto(stage), m) <==> m in a.outer || (stage.Creating? && a.current.value.name == m)
  {
  }

  lemma GoKeepsStack(s: State, p: Process)
    requires StackOk(s.At(p)) && s.At(p).current.Some?
    ensures StackOk(GoStep(s, p).At(p))
  {
    var a := s.At(p);
    if a.current.value.stage.FirstLook? || a.current.value.stage.Leaving? {
      PopKeepsStack(a);
    } else {
      var b := GoStep(s, p).At(p);
      assert b.outer == a.outer && b.current.Some? && b.current.value.name == a.current.value.name;
    }
  }

  lemma StepKeepsStack(s: State, e: Event)
    requires StackOk(s.At(e.p))
    ensures StackOk(Step(s, e).At(e.p))
  {
    var a := s.At(e.p);
    match e
    case Call(_, n) => if a.MayCall(n) { PushKeepsStack(a, n); }
    case Go(p) => if a.current.Some? { GoKeepsStack(s, p); }
    case _ =>
  }

  lemma StepKeepsLock(s: State, e: Event)
    requires LockOk(s)
    ensures LockOk(Step(s, e))
  {
    var t := Step(s, e);
    forall q: Process | q != e.p ensures t.At(q) == s.At(q) {
      StepMovesOnlyActor(s, e, q);
    }
    StepKeepsStack(s, e);
  }

  lemma CreatorsAlone(s: State, p: Process, q: Process, m: Name, n: Name)
    requires LockOk(s) && CreatingIn(s.At(p), m) && CreatingIn(s.At(q), n)
    ensures p == q
  {
    assert s.holder == Some(p);
  }

  lemma MadeInAppend(log: seq<Fact>, f: Fact, n: Name)
    ensures MadeIn(log + [f], n) <==> MadeIn(log, n) || (f.Finish? && f.made && f.name == n)
  {
    if MadeIn(log, n) {
      var i :| 0 <= i < |log| && log[i].Finish? && log[i].made && log[i].name == n;
      assert (log + [f])[i] == log[i];
    }
    if f.Finish? && f.made && f.name == n {
      assert (log + [f])[|log|] == f;
    }
  }

  /** What one step may add to the log. */
  ghost predicate Adds(s: State, e: Event, f: Fact) {
    var a := s.At(e.p);
    && a.current.Some? && f.name == a.current.value.name && Step(s, e).log == s.log + [f]
    && match f {
         case Start(_, n) => a.current.value.stage.SecondLook? && n !in s.files
         case Finish(_, n, made) => a.Creating() && made == (n in s.files) && Step(s, e).At(e.p) == a.Goto(Created)
         case Return(_, n, found) =>
           && found == (n in s.files) && Step(s, e).At(e.p).outer == a.Pop().outer
           && (a.current.value.stage == Leaving(true) || (a.current.value.stage.FirstLook? && found))
       }
  }

  lemma StepAddsOneFact(s: State, e: Event)
    ensures Step(s, e).log == s.log || exists f :: Adds(s, e, f)
    ensures s.files <= Step(s, e).files && Step(s, e).deferred == s.deferred
  {
    var t := Step(s, e);
    if t.log != s.log {
      assert Adds(s, e, t.log[|t.log| - 1]);
    }
  }

  /** A name comes under creation only when its file is missing. */
  lemma CreationStarts(s: State, e: Event, n: Name)
    requires LockOk(s) && CreatingIn(Step(s, e).At(e.p), n) && !CreatingIn(s.At(e.p), n)
    ensures n !in s.files
  {
    var a := s.At(e.p);
    if e.Call? {
      if a.MayCall(e.name) {
        PushKeepsStack(a, e.name);
      }
    } else if a.current.Some? {
      PopKeepsStack(a);
    }
  }

  lemma StepKeepsCreating(s: State, e: Event, q: Process, n: Name)
    requires Inv(s) && CreatingIn(Step(s, e).At(q), n)
    ensures !MadeIn(Step(s, e).log, n)
  {
    var t := Step(s, e);
    StepAddsOneFact(s, e);
    assert !MadeIn(s.log, n) by {
      if q != e.p {
        StepMovesOnlyActor(s, e, q);
      } else if !CreatingIn(s.At(q), n) {
        CreationStarts(s, e, n);
      }
    }
    if t.log != s.log {
      var f :| Adds(s, e, f);
      MadeInAppend(s.log, f, n);
      if f.Finish? && f.name == n {
        var a := s.At(e.p);
        assert CreatingIn(a, n);
        if q != e.p {
          StepMovesOnlyActor(s, e, q);
          CreatorsAlone(s, q, e.p, n, n);
        } else {
          GotoKeepsStack(a, Created);
        }
      }
    }
  }

  lemma StepKeepsFiles(s: State, e: Event)
    requires Inv(s)
    ensures FilesOk(Step(s, e))
  {
    var t := Step(s, e);
    StepAddsOneFact(s, e);
    forall n | MadeIn(t.log, n) ensures n in t.files {
      if t.log != s.log {
        var f :| Adds(s, e, f);
        MadeInAppend(s.log, f, n);
      }
    }
    forall q: Process, n | CreatingIn(t.At(q), n) ensures !MadeIn(t.log, n) {
      StepKeepsCreating(s, e, q, n);
    }
    forall q: Process | q != e.p ensures t.At(q) == s.At(q) {
      StepMovesOnlyActor(s, e, q);
    }
  }

  lemma StepKeepsLog(s: State, e: Event)
    requires Inv(s)
    ensures LogOk(Step(s, e))
  {
    var t := Step(s, e);
    StepAddsOneFact(s, e);
    if t.log != s.log {
      var f :| Adds(s, e, f);
      if !f.Return? {
        assert !MadeIn(s.log, f.name) by {
          if f.Finish? {
            assert CreatingIn(s.At(e.p), f.name);
          }
        }
      }
    }
  }

  lemma {:induction false} ExecKeepsInv(s: State, events: seq<Event>)
    requires Inv(s)
    ensures Inv(Exec(s, events)) && Exec(s, events).deferred == s.deferred
    decreases |events|
  {
    if events != [] {
      StepKeepsLock(s, events[0]);
      StepKeepsFiles(s, events[0]);
      StepKeepsLog(s, events[0]);
      StepAddsOneFact(s, events[0]);
      ExecKeepsInv(Step(s, events[0]), events[1..]);
    }
  }

  lemma ReachableInv(s: State)
    requires Reachable(s)
    ensures Inv(s)
  {
    var s0, events :| Initial(s0) && s == Exec(s0, events);
    ExecKeepsInv(s0, events);
  }

  /** No two processes ever have a creator running, whatever the names. */
  lemma OneCreatorAtATime(s: State, p: Process, q: Process, m: Name, n: Name)
    requires Reachable(s) && CreatingIn(s.At(p), m) && CreatingIn(s.At(q), n)
    ensures p == q && s.holder == Some(p)
  {
    ReachableInv(s);
    CreatorsAlone(s, p, q, m, n);
  }

  /** Over a whole run, once a creator has returned and left its file, no creator for that name is
      started or returns ever again: it runs to completion at most once. */
  lemma CreatedAtMostOnce(s: State, i: nat, j: nat)
    requires Reachable(s) && i < j < |s.log|
    requires s.log[i].Finish? && s.log[i].made && !s.log[j].Return?
    ensures s.log[j].name != s.log[i].name
  {
    ReachableInv(s);
  }

  /** Every path that `get` returned named an existing file at that moment, unless building is
      deferred. */
  lemma ReturnedPathsExist(s: State, i: nat)
    requires Reachable(s) && !s.deferred && i < |s.log| && s.log[i].Return?
    ensures s.log[i].exists_
  {
    ReachableInv(s);
  }

  /** A creator that has returned leads to a returned path that does not exist exactly when building
      is deferred and its file is missing. */
  lemma MissingOnlyWhenDeferred(s: State, p: Process)
    requires Reachable(s) && s.At(p).current.Some? && s.At(p).current.value.stage.Created?
    ensures var n := s.At(p).current.value.name;
      var t := GoStep(GoStep(s, p), p);
      t.log == s.log + [Return(p, n, false)] <==> s.deferred && n !in s.files
  {
    var n := s.At(p).current.value.name;
    var ok := s.deferred || n in s.files;
    var t := GoStep(s, p);
    assert t.log == s.log && t.files == s.files && t.At(p).current == Some(Frame(n, Leaving(ok)));
    var u := GoStep(t, p);
    assert u.log == if ok then s.log + [Return(p, n, n in s.files)] else s.log;
    assert u.log == s.log + [Return(p, n, false)] ==> ok && u.log[|s.log|].exists_ == false;
  }

  // ----- what a call comes to

  /** `p` is at this stage of its call for `n`. */
  ghost predicate IsAt(s: State, p: Process, n: Name, stage: Stage) {
    s.At(p).current == Some(Frame(n, stage))
  }

  /** The call in progress is over, and whatever called it goes on. */
  ghost predicate CallEnded(s: State, t: State, p: Process) {
    && t.files == s.files && t.deferred == s.deferred && t.At(p).outer == s.At(p).Pop().outer
    && t.At(p).current == s.At(p).Pop().current
    && forall q: Process :: q != p ==> t.At(q) == s.At(q)
  }

  /** A file that is there when `get` looks is returned: without the lock at once, with the lock after
      giving it up. */
  lemma FoundIsReturned(s: State, p: Process, n: Name)
    requires n in s.files
    ensures IsAt(s, p, n, FirstLook) ==>
      var t := Exec(s, [Go(p)]);
      CallEnded(s, t, p) && t.holder == s.holder && t.log == s.log + [Return(p, n, true)]
    ensures IsAt(s, p, n, SecondLook) ==>
      var t := Exec(s, [Go(p), Go(p)]);
      CallEnded(s, t, p) && t.log == s.log + [Return(p, n, true)]
  {
    ExecOne(s, Go(p));
    ExecTwo(s, Go(p), Go(p));
  }

  /** After its creator has returned, a call returns its path exactly when building is deferred or the
      file is there; otherwise it raises: it ends, and nothing is returned. */
  lemma ReturnsAfterCreator(s: State, p: Process, n: Name)
    requires IsAt(s, p, n, Created)
    ensures var t := Exec(s, [Go(p), Go(p)]);
      && CallEnded(s, t, p)
      && (s.deferred || n in s.files <==> t.log == s.log + [Return(p, n, n in s.files)])
      && (!s.deferred && n !in s.files <==> t.log == s.log)
  {
    ExecTwo(s, Go(p), Go(p));
    var t := Exec(s, [Go(p), Go(p)]);
    assert |t.log| == |s.log| || t.log[|s.log|] == Return(p, n, n in s.files);
  }

  /** A creator's exception passes through `get`: the call ends and returns nothing. */
  lemma CreatorsExceptionPasses(s: State, p: Process, n: Name)
    requires IsAt(s, p, n, Stage.Creating)
    ensures var t := Exec(s, [CreatorRaises(p), Go(p)]);
      CallEnded(s, t, p) && t.log == s.log
  {
    ExecTwo(s, CreatorRaises(p), Go(p));
  }

  /** The step after which a call can only raise: its creator raised, or has returned without a file
      while building is not deferred. */
  ghost predicate Dooms(s: State, e: Event, p: Process, n: Name) {
    || (e == CreatorRaises(p) && IsAt(s, p, n, Stage.Creating))
    || (e == Go(p) && IsAt(s, p, n, Created) && !s.deferred && n !in s.files)
  }

  /** In every run, whatever other processes do: a call that is about to raise was doomed by such a step,
      and has not moved since. */
  lemma {:induction false} RaisesOnlyWhen(s0: State, events: seq<Event>, p: Process, n: Name) returns (k: nat)
    requires Initial(s0) && IsAt(Exec(s0, events), p, n, Leaving(false))
    ensures k < |events| && Dooms(Exec(s0, events[..k]), events[k], p, n)
    ensures forall j :: k < j <= |events| ==> IsAt(Exec(s0, events[..j]), p, n, Leaving(false))
    decreases |events|
  {
    if events == [] {
      assert false;
    } else {
      var init, e := events[..|events| - 1], events[|events| - 1];
      assert events == init + [e] && events[..|events|] == events;
      ExecOn(s0, init, e);
      var s := Exec(s0, init);
      if e.p != p {
        StepMovesOnlyActor(s, e, p);
      }
      if IsAt(s, p, n, Leaving(false)) {
        k := RaisesOnlyWhen(s0, init, p, n);
        assert events[..k] == init[..k];
        forall j | k < j <= |events| ensures IsAt(Exec(s0, events[..j]), p, n, Leaving(false)) {
          if j < |events| {
            assert events[..j] == init[..j];
          }
        }
      } else {
        EntersLeaving(s, e, p, n);
        k := |init|;
        assert events[..k] == init;
      }
    }
  }

  lemma EntersLeaving(s: State, e: Event, p: Process, n: Name)
    requires IsAt(Step(s, e), p, n, Leaving(false)) && !IsAt(s, p, n, Leaving(false))
    ensures Dooms(s, e, p, n)
  {
    if e.p != p {
      StepMovesOnlyActor(s, e, p);
    }
  }

  lemma ExecOne(s: State, e: Event)
    ensures Exec(s, [e]) == Step(s, e)
  {
    assert Exec(s, [e]) == Exec(Step(s, e), []);
  }

  lemma ExecTwo(s: State, d: Event, e: Event)
    ensures Exec(s, [d, e]) == Step(Step(s, d), e)
  {
    assert [d, e][1..] == [e];
    ExecOne(Step(s, d), e);
  }

  lemma {:induction false} ExecMore(s: State, first: seq<Event>, then': seq<Event>)
    ensures Exec(s, first + then') == Exec(Exec(s, first), then')
    decreases |first|
  {
    if first == [] {
      assert first + then' == then';
    } else {
      assert (first + then')[1..] == first[1..] + then';
      ExecMore(Step(s, first[0]), first[1..], then');
    }
  }

  /** A whole first call when nobody else interferes and the lock can be had: it runs the creator. */
  lemma CallRunsCreator(s: State, p: Process, n: Name)
    requires Reachable(s) && s.At(p).MayCall(n) && n !in s.files && (s.holder.None? || s.holder == Some(p))
    ensures var t := Exec(s, [Call(p, n), Go(p), Go(p), Go(p)]);
      && t.log == s.log + [Start(p, n)] && t.files == s.files && t.holder == Some(p)
      && t.At(p) == s.At(p).Push(n).Goto(Stage.Creating).(acquired := s.At(p).acquired + 1)
      && t.deferred == s.deferred && forall q: Process :: q != p ==> t.At(q) == s.At(q)
  {
    ReachableStack(s, p);
    assert [Call(p, n), Go(p), Go(p), Go(p)] == [Call(p, n), Go(p)] + [Go(p), Go(p)];
    ExecMore(s, [Call(p, n), Go(p)], [Go(p), Go(p)]);
    CallLooks(s, p, n);
    var t := Exec(s, [Call(p, n), Go(p)]);
    TakesLockAndLooks(t, p, n);
  }

  lemma ReachableStack(s: State, p: Process)
    requires Reachable(s)
    ensures StackOk(s.At(p)) && (s.At(p).acquired > 0 <==> s.holder == Some(p))
  {
    ReachableInv(s);
  }

  lemma CallLooks(s: State, p: Process, n: Name)
    requires s.At(p).MayCall(n) && n !in s.files
    ensures var t := Exec(s, [Call(p, n), Go(p)]);
      t == s.With(p, t.At(p)) && t.At(p) == s.At(p).Push(n).Goto(Acquiring)
  {
    ExecTwo(s, Call(p, n), Go(p));
    var t := Step(s, Call(p, n));
    assert t == s.With(p, s.At(p).Push(n));
  }

  lemma TakesLockAndLooks(s: State, p: Process, n: Name)
    requires IsAt(s, p, n, Acquiring) && n !in s.files
    requires if s.At(p).acquired == 0 then s.holder.None? else s.holder == Some(p)
    ensures var t := Exec(s, [Go(p), Go(p)]);
      && t == State(s.deferred, s.files, Some(p), t.procs, s.log + [Start(p, n)])
      && t.At(p) == s.At(p).Goto(Stage.Creating).(acquired := s.At(p).acquired + 1)
      && forall q: Process :: q != p ==> t.At(q) == s.At(q)
  {
    ExecTwo(s, Go(p), Go(p));
    var t := GoStep(s, p);
    assert t == s.(holder := Some(p)).With(p, s.At(p).Goto(SecondLook).(acquired := s.At(p).acquired + 1));
  }

  /** A creator makes its file and returns. */
  lemma CreatorMakes(s: State, p: Process, n: Name)
    requires IsAt(s, p, n, Stage.Creating)
    ensures var t := Exec(s, [Write(p), CreatorReturns(p)]);
      && t.files == s.files + {n} && t.log == s.log + [Finish(p, n, true)] && t.At(p) == s.At(p).Goto(Created)
      && t.holder == s.holder && t.deferred == s.deferred && forall q: Process :: q != p ==> t.At(q) == s.At(q)
  {
    ExecTwo(s, Write(p), CreatorReturns(p));
    var t := Step(s, Write(p));
    assert t == s.(files := s.files + {n});
  }

  /** Leaving gives back one level of the lock. */
  lemma LeavingUnlocks(s: State, p: Process, n: Name)
    requires IsAt(s, p, n, Created)
    ensures var t := Exec(s, [Go(p), Go(p)]);
      && t.At(p) == s.At(p).Pop().(acquired := s.At(p).acquired - 1)
      && t.holder == if s.At(p).acquired == 1 then None else s.holder
  {
    ExecTwo(s, Go(p), Go(p));
    var a, t := s.At(p), GoStep(s, p);
    assert t.At(p) == a.Goto(t.At(p).current.value.stage);
    PopIgnoresStage(a, t.At(p).current.value.stage);
  }

  lemma PopIgnoresStage(a: Activity, stage: Stage)
    requires a.current.Some?
    ensures a.Goto(stage).Pop() == a.Pop()
  {
  }

  lemma PopUndoesPush(a: Activity, n: Name, stage: Stage)
    requires StackOk(a) && a.MayCall(n)
    ensures a.Push(n).Goto(stage).(acquired := a.acquired + 1).Pop().(acquired := a.acquired) == a
  {
    if a.current.Some? {
      assert (a.outer + [a.current.value.name])[..|a.outer|] == a.outer;
    }
  }

  lemma MakesAndLeaves(s: State, p: Process, n: Name)
    requires IsAt(s, p, n, Stage.Creating)
    ensures var t := Exec(s, [Write(p), CreatorReturns(p)] + [Go(p), Go(p)]);
      && t.log == s.log + [Finish(p, n, true), Return(p, n, true)]
      && t.files == s.files + {n} && t.deferred == s.deferred
      && t.holder == (if s.At(p).acquired == 1 then None else s.holder)
      && t.At(p) == s.At(p).Pop().(acquired := s.At(p).acquired - 1)
      && forall q: Process :: q != p ==> t.At(q) == s.At(q)
  {
    ExecMore(s, [Write(p), CreatorReturns(p)], [Go(p), Go(p)]);
    CreatorMakes(s, p, n);
    var t := Exec(s, [Write(p), CreatorReturns(p)]);
    ReturnsAfterCreator(t, p, n);
    LeavingUnlocks(t, p, n);
    PopIgnoresStage(s.At(p), Created);
  }

  /** A creator that makes its file leads to exactly this: the file, three facts in the log, and
      everything else, the caller's own state and the lock included, as it was before the call. */
  lemma CallBuilds(s: State, p: Process, n: Name)
    requires Reachable(s) && s.At(p).MayCall(n) && n !in s.files && (s.holder.None? || s.holder == Some(p))
    ensures var t := Exec(s, [Call(p, n), Go(p), Go(p), Go(p)] + [Write(p), CreatorReturns(p), Go(p), Go(p)]);
      && t.log == s.log + [Start(p, n), Finish(p, n, true), Return(p, n, true)]
      && t.files == s.files + {n} && t.holder == s.holder && t.deferred == s.deferred
      && forall q: Process :: t.At(q) == s.At(q)
  {
    var start, rest := [Call(p, n), Go(p), Go(p), Go(p)], [Write(p), CreatorReturns(p)] + [Go(p), Go(p)];
    assert [Write(p), CreatorReturns(p), Go(p), Go(p)] == rest;
    ReachableStack(s, p);
    ExecMore(s, start, rest);
    CallRunsCreator(s, p, n);
    MakesAndLeaves(Exec(s, start), p, n);
    PopUndoesPush(s.At(p), n, Stage.Creating);
  }

  /** One process at one stage of one call, alone, with no file there and building deferred. */
  function AloneAt(name: Name, stage: Stage, log: seq<Fact>): State {
    var locked := Frame(name, stage).Locked();
    State(true, {}, if locked then Some(1) else None,
          map[1 := Activity([], Some(Frame(name, stage)), if locked then 1 else 0)], log)
  }

  lemma AloneStep(name: Name, stage: Stage, log: seq<Fact>)
    ensures var s := AloneAt(name, stage, log);
      match stage
      case FirstLook => Step(s, Go(1)) == AloneAt(name, Acquiring, log)
      case Acquiring => Step(s, Go(1)) == AloneAt(name, SecondLook, log)
      case SecondLook => Step(s, Go(1)) == AloneAt(name, Stage.Creating, log + [Start(1, name)])
      case Creating => Step(s, CreatorReturns(1)) == AloneAt(name, Created, log + [Finish(1, name, false)])
      case Created => Step(s, Go(1)) == AloneAt(name, Leaving(true), log)
      case Leaving(ok) => ok ==> Step(s, Go(1)).log == log + [Return(1, name, false)]
  {
    var s := AloneAt(name, stage, log);
    forall a: Activity ensures s.procs[1 := a] == map[1 := a] {}
  }

  lemma ExecOn(s0: State, events: seq<Event>, e: Event)
    ensures Exec(s0, events + [e]) == Step(Exec(s0, events), e)
    decreases |events|
  {
    if events == [] {
      assert [] + [e] == [e] && [e][1..] == [];
      assert Exec(s0, [e]) == Exec(Step(s0, e), []);
    } else {
      assert (events + [e])[1..] == events[1..] + [e];
      ExecOn(Step(s0, events[0]), events[1..], e);
    }
  }

  lemma NextReachable(s: State, e: Event)
    requires Reachable(s)
    ensures Reachable(Step(s, e))
  {
    var s0, events :| Initial(s0) && s == Exec(s0, events);
    ExecOn(s0, events, e);
  }

  lemma AloneReaches(name: Name, stage: Stage, log: seq<Fact>, e: Event, next: Stage, more: seq<Fact>)
    requires Reachable(AloneAt(name, stage, log)) && Step(AloneAt(name, stage, log), e) == AloneAt(name, next, more)
    ensures Reachable(AloneAt(name, next, more))
  {
    NextReachable(AloneAt(name, stage, log), e);
  }

  lemma AloneReachesCreator(name: Name)
    ensures Reachable(AloneAt(name, Stage.Creating, [Start(1, name)]))
  {
    var s0 := State(true, {}, None, map[], []);
    assert s0 == Exec(s0, []);
    NextReachable(s0, Call(1, name));
    assert Step(s0, Call(1, name)) == AloneAt(name, FirstLook, []);
    AloneStep(name, FirstLook, []);
    AloneReaches(name, FirstLook, [], Go(1), Acquiring, []);
    AloneStep(name, Acquiring, []);
    AloneReaches(name, Acquiring, [], Go(1), SecondLook, []);
    AloneStep(name, SecondLook, []);
    assert [] + [Start(1, name)] == [Start(1, name)];
    AloneReaches(name, SecondLook, [], Go(1), Stage.Creating, [Start(1, name)]);
  }

  /** In deferred mode a path that does not exist is returned: one process calls for a file that is not
      there, and its creator makes nothing. */
  lemma MissingPathIsReturned(name: Name)
    ensures exists s: State :: Reachable(s) && s.log == [Start(1, name), Finish(1, name, false), Return(1, name, false)]
  {
    var log := [Start(1, name)];
    var more := log + [Finish(1, name, false)];
    AloneReachesCreator(name);
    AloneStep(name, Stage.Creating, log);
    AloneReaches(name, Stage.Creating, log, CreatorReturns(1), Created, more);
    AloneStep(name, Created, more);
    AloneReaches(name, Created, more, Go(1), Leaving(true), more);
    AloneStep(name, Leaving(true), more);
    NextReachable(AloneAt(name, Leaving(true), more), Go(1));
    var end := Step(AloneAt(name, Leaving(true), more), Go(1));
    assert end.log == [Start(1, name), Finish(1, name, false), Return(1, name, false)];
  }

  /** `acquired_count` is positive exactly while the process holds the cache lock, and it counts the
      nested calls that are past taking it. */
  lemma CountTracksLock(s: State, p: Process)
    requires Reachable(s)
    ensures s.At(p).acquired > 0 <==> s.holder == Some(p)
    ensures s.At(p).acquired == |s.At(p).outer| +
      (if s.At(p).current.Some? && s.At(p).current.value.Locked() then 1 else 0)
  {
    ReachableInv(s);
  }
}
