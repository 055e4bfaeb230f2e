/** Several threads share one lock object (tools/filelock.py): `acquire` increments the counter and
    polls outside the object's mutex, `release` only lets go when the counter returns to 0. Each
    region guarded by the mutex, and the unguarded look at `is_locked`, is one atomic step. */
module FileLockThreads {
  import opened MapSums

  type Thread = nat

  /** Where a thread is inside `acquire`. */
  datatype Stage =
    | Between  // not inside acquire
    | Counted  // counter incremented, next: try under the mutex
    | Tried    // next: look at is_locked without the mutex
    | Failing  // an exception is on its way to the except branch

  /** `depth` acquisitions have returned and are not yet released. */
  datatype Activity = Activity(depth: nat, stage: Stage) {
    function Weight(): int {
      depth + if stage.Between? then 0 else 1
    }
  }

  datatype State = State(locked: bool, counter: int, threads: map<Thread, Activity>) {
    function At(t: Thread): Activity {
      if t in threads then threads[t] else Activity(0, Between)
    }

    function With(t: Thread, a: Activity): State {
      this.(threads := threads[t := a])
    }

    ghost function Weights(): map<Thread, int> {
      map t: Thread | t in threads :: threads[t].Weight()
    }
  }

  const START := State(false, 0, map[])

  datatype Event =
    | Enter(t: Thread)
    | Try(t: Thread, granted: bool)   // _acquire sets the descriptor or not
    | TryRaises(t: Thread)            // _acquire raises, for example in os.open
    | Look(t: Thread, expired: bool)
    | GiveUp(t: Thread)
    | Leave(t: Thread)

  function Max(a: int, b: int): int {
    if a > b then a else b
  }

  /** An event that does not fit the stage its thread is in changes nothing. */
  function Step(s: State, e: Event): State {
    var a := s.At(e.t);
    match e
    case Enter(t) =>
      if a.stage.Between? then s.(counter := s.counter + 1).With(t, a.(stage := Counted)) else s
    case Try(t, granted) =>
      if a.stage.Counted? then s.(locked := s.locked || granted).With(t, a.(stage := Tried)) else s
    case TryRaises(t) =>
      if a.stage.Counted? && !s.locked then s.With(t, a.(stage := Failing)) else s
    case Look(t, expired) =>
      if !a.stage.Tried? then s
      else if s.locked then s.With(t, Activity(a.depth + 1, Between))
      else s.With(t, a.(stage := if expired then Failing else Counted))
    case GiveUp(t) =>
      if a.stage.Failing? then s.(counter := Max(0, s.counter - 1)).With(t, a.(stage := Between)) else s
    case Leave(t) =>
      if !a.stage.Between? || a.depth == 0 then s
      else if !s.locked then s.With(t, a.(depth := a.depth - 1))
      else s.(counter := s.counter - 1, locked := s.counter - 1 != 0).With(t, a.(depth := a.depth - 1))
  }

  function Exec(s: State, events: seq<Event>): State
    decreases |events|
  {
    if events == [] then s else Exec(Step(s, events[0]), events[1..])
  }

  ghost predicate Reachable(s: State) {
    exists events: seq<Event> :: s == Exec(START, events)
  }

  ghost predicate Inv(s: State) {
    && s.counter == Sum(s.Weights())
    && (forall t: Thread :: s.At(t).depth > 0 ==> s.locked)
  }

  lemma MoveWeight(s: State, t: Thread, a: Activity)
    ensures Sum(s.With(t, a).Weights()) == Sum(s.Weights()) - s.At(t).Weight() + a.Weight()
  {
    assert s.With(t, a).Weights() == s.Weights()[t := a.Weight()];
    SumUpdate(s.Weights(), t, a.Weight());
  }

  lemma OneWeight(s: State, t: Thread)
    ensures s.At(t).Weight() <= Sum(s.Weights())
  {
    SumPositive(s.Weights());
    if t in s.threads {
      assert s.Weights()[t] == s.At(t).Weight();
    }
  }

  /** A thread that has not fully let go keeps the counter away from zero. */
  lemma LastOneOut(s: State, t: Thread)
    requires s.At(t).Weight() == Sum(s.Weights())
    ensures forall u: Thread :: u != t ==> s.At(u).Weight() == 0
  {
    forall u: Thread | u != t ensures s.At(u).Weight() == 0 {
      var rest: map<Thread, int> := s.Weights() - {t};
      if t in s.threads {
        SumRemove(s.Weights(), t);
        assert s.Weights()[t] == s.At(t).Weight();
      } else {
        assert rest == s.Weights();
      }
      SumPositive(rest);
      if u in s.threads {
        assert s.Weights()[u] == s.At(u).Weight();
        assert u in rest && rest[u] == s.At(u).Weight();
      }
    }
  }

  lemma StepKeepsInv(s: State, e: Event)
    requires Inv(s)
    ensures Inv(Step(s, e))
  {
    var t := Step(s, e);
    MoveWeight(s, e.t, t.At(e.t));
    OneWeight(s, e.t);
    if t != s {
      assert t.threads == s.With(e.t, t.At(e.t)).threads;
      assert t.Weights() == s.With(e.t, t.At(e.t)).Weights();
    }
    forall u: Thread ensures u != e.t ==> t.At(u) == s.At(u) {}
    if s.locked && !t.locked {
      assert t.counter == 0;
      OneWeight(t, e.t);
      LastOneOut(t, e.t);
    }
  }

  lemma {:induction false} ExecKeepsInv(s: State, events: seq<Event>)
    requires Inv(s)
    ensures Inv(Exec(s, events))
    decreases |events|
  {
    if events != [] {
      StepKeepsInv(s, events[0]);
      ExecKeepsInv(Step(s, events[0]), events[1..]);
    }
  }

  /** The counter is the number of unreleased acquisitions plus the number of threads still inside
      acquire, and whoever has acquired and not released finds the OS lock held. */
  lemma CounterCountsHoldersAndWaiters(s: State)
    requires Reachable(s)
    ensures s.counter == Sum(s.Weights())
    ensures forall t: Thread :: s.At(t).depth > 0 ==> s.locked
  {
    var events :| s == Exec(START, events);
    assert START.Weights() == map[];
    ExecKeepsInv(START, events);
  }

  /** The max(0, ...) of the except branch and the `if self.is_locked` of release never matter. */
  lemma NeverClamps(s: State, t: Thread)
    requires Reachable(s)
    ensures s.At(t).stage.Failing? ==> s.counter >= 1
    ensures s.At(t).depth > 0 ==> s.locked && s.counter >= 1
  {
    CounterCountsHoldersAndWaiters(s);
    OneWeight(s, t);
  }

  /** The OS lock is held although nobody holds or wants it. */
  predicate Leaked(s: State) {
    s.locked && s.counter == 0
  }

  /** "counter 0 implies not locked" is false of threads: thread 1 sees the lock free and its time
      run out; thread 2 takes and releases the lock, which stays held because thread 1 still
      counts; then thread 1 gives up. */
  lemma TimeoutRaceLeaks()
    ensures exists s: State :: Reachable(s) && Leaked(s)
  {
    var head := [Enter(1), Try(1, false), Look(1, true)];
    var middle := [Enter(2), Try(2, true), Look(2, false)];
    var tail := [Leave(2), GiveUp(1)];
    var s1 := ExecThree(START, head[0], head[1], head[2]);
    assert s1.At(1) == Activity(0, Failing) && s1.counter == 1 && !s1.locked && s1.At(2) == Activity(0, Between);
    var s2 := ExecThree(s1, middle[0], middle[1], middle[2]);
    assert s2.locked && s2.counter == 2 && s2.At(1) == Activity(0, Failing) && s2.At(2) == Activity(1, Between);
    var s3 := Step(s2, tail[0]);
    var s4 := Step(s3, tail[1]);
    assert Leaked(s4);
    assert Exec(s2, tail) == s4 by {
      assert tail[1..] == [GiveUp(1)];
      assert Exec(s3, [GiveUp(1)]) == Exec(s4, []);
    }
    ExecConcat(START, head, middle);
    ExecConcat(START, head + middle, tail);
    assert s4 == Exec(START, head + middle + tail);
  }

  lemma ExecThree(s: State, a: Event, b: Event, c: Event) returns (t: State)
    ensures t == Step(Step(Step(s, a), b), c) == Exec(s, [a, b, c])
  {
    t := Step(Step(Step(s, a), b), c);
    assert [a, b, c][1..] == [b, c];
    assert [b, c][1..] == [c];
    assert Exec(Step(Step(s, a), b), [c]) == Exec(t, []);
  }

  lemma {:induction false} ExecConcat(s: State, a: seq<Event>, b: seq<Event>)
    ensures Exec(s, a + b) == Exec(Exec(s, a), b)
    decreases |a|
  {
    if a == [] {
      assert a + b == b;
    } else {
      assert (a + b)[1..] == a[1..] + b;
      ExecConcat(Step(s, a[0]), a[1..], b);
    }
  }

  /** The leak arises by exactly one kind of step: the last thread that counts gives up while the
      lock is held. */
  lemma LeakExactly(s: State, e: Event)
    requires Reachable(s) && !Leaked(s)
    ensures Leaked(Step(s, e)) <==> e.GiveUp? && s.At(e.t).stage.Failing? && s.counter == 1 && s.locked
  {
    NeverClamps(s, e.t);
    CounterCountsHoldersAndWaiters(s);
    OneWeight(s, e.t);
  }

  ghost predicate OneThread(s: State, t: Thread) {
    && (forall u: Thread :: u != t ==> s.At(u) == Activity(0, Between))
    && (s.At(t).depth > 0 ==> s.locked)
    && (s.locked && s.At(t).depth == 0 ==> s.At(t).stage.Tried?)
    && s.counter == s.At(t).Weight()
  }

  lemma {:induction false} OneThreadRun(s: State, t: Thread, events: seq<Event>)
    requires OneThread(s, t) && forall e :: e in events ==> e.t == t
    ensures OneThread(Exec(s, events), t)
    decreases |events|
  {
    if events != [] {
      var s' := Step(s, events[0]);
      assert events[0].t == t;
      forall u: Thread | u != t ensures s'.At(u) == s.At(u) {}
      OneThreadRun(s', t, events[1..]);
    }
  }

  /** One thread alone: outside acquire, the OS lock is held exactly while the counter is positive. */
  lemma SingleThreadNeverLeaks(t: Thread, events: seq<Event>)
    requires forall e :: e in events ==> e.t == t
    ensures var s := Exec(START, events);
      && !Leaked(s)
      && (s.At(t).stage.Between? ==> (s.locked <==> s.counter > 0) && s.counter == s.At(t).depth)
  {
    OneThreadRun(START, t, events);
  }

  /** A thread that nobody disturbs acquires the lock: when it is free and the operating system grants it, or
      when another thread or an outer acquire of this one has it already. */
  lemma AcquireSucceeds(s: State, t: Thread, granted: bool, expired: bool)
    requires s.At(t).stage.Between? && (s.locked || granted)
    ensures var u := Exec(s, [Enter(t), Try(t, granted), Look(t, expired)]);
      && u.locked && u.counter == s.counter + 1
      && u.At(t) == Activity(s.At(t).depth + 1, Between) && forall v: Thread :: v != t ==> u.At(v) == s.At(v)
  {
    var s1 := EntersAndTries(s, t, granted);
    var u := ExecThree(s, Enter(t), Try(t, granted), Look(t, expired));
    assert u == s1.With(t, Activity(s1.At(t).depth + 1, Between));
  }

  lemma EntersAndTries(s: State, t: Thread, granted: bool) returns (u: State)
    requires s.At(t).stage.Between?
    ensures u == Step(Step(s, Enter(t)), Try(t, granted))
    ensures u.locked == (s.locked || granted) && u.counter == s.counter + 1
    ensures u.At(t) == Activity(s.At(t).depth, Tried) && forall v: Thread :: v != t ==> u.At(v) == s.At(v)
  {
    var s1 := Step(s, Enter(t));
    assert s1.At(t) == s.At(t).(stage := Counted) && s1.locked == s.locked;
    u := Step(s1, Try(t, granted));
  }

  /** A release undoes an acquire, and gives the lock up exactly when nothing else is counted. */
  lemma LeaveUndoesAcquire(s: State, t: Thread, granted: bool, expired: bool)
    requires s.At(t).stage.Between? && (s.locked || granted)
    ensures var u := Exec(s, [Enter(t), Try(t, granted), Look(t, expired)] + [Leave(t)]);
      && u.counter == s.counter && (u.locked <==> s.counter != 0) && forall v: Thread :: u.At(v) == s.At(v)
  {
    AcquireSucceeds(s, t, granted, expired);
    ExecConcat(s, [Enter(t), Try(t, granted), Look(t, expired)], [Leave(t)]);
    var w := Exec(s, [Enter(t), Try(t, granted), Look(t, expired)]);
    assert Exec(w, [Leave(t)]) == Exec(Step(w, Leave(t)), []);
  }

  /** An attempt that is not granted and out of time leaves everything as it was. */
  lemma TimeoutRestores(s: State, t: Thread)
    requires Reachable(s) && s.At(t).stage.Between? && !s.locked
    ensures var u := Exec(s, [Enter(t), Try(t, false), Look(t, true)] + [GiveUp(t)]);
      u.counter == s.counter && u.locked == s.locked && forall v: Thread :: u.At(v) == s.At(v)
  {
    NeverClamps(s, t);
    CounterCountsHoldersAndWaiters(s);
    OneWeight(s, t);
    var s1 := EntersAndTries(s, t, false);
    var w := ExecThree(s, Enter(t), Try(t, false), Look(t, true));
    assert w == s1.With(t, s1.At(t).(stage := Failing));
    ExecConcat(s, [Enter(t), Try(t, false), Look(t, true)], [GiveUp(t)]);
    assert Exec(w, [GiveUp(t)]) == Exec(Step(w, GiveUp(t)), []);
  }
}
