/** What pruning does to the cached files of CachedFiles: which files its victims are, over all
    interleavings, and what a call that nobody disturbs comes to. */
module CachePruning {
  import opened Options
  import opened Lists
  import opened StableSorts
  import opened PruneOrder
  import opened CachedFiles
  import opened CacheDirectories

  // ----- the victims, in every run

  /** `v` are the files to delete of those timed: each a timed one, once; none newer than a file that
      stays; so many that `limit` stay, or none when the limit is 0 or not exceeded; and among files of
      one age those listed first. */
  ghost predicate Prunes(v: seq<Key>, timed: seq<Stamped>, limit: nat) {
    && Distinct(v) && (forall k :: k in v ==> k in Keys(timed))
    && (forall f, g :: f in timed && g in timed && f.key in v && g.key !in v ==> f.mtime <= g.mtime)
    && |v| == (if limit == 0 || |timed| <= limit then 0 else |timed| - limit)
    && (forall i, j :: 0 <= i < j < |timed| && timed[i].mtime == timed[j].mtime && timed[j].key in v ==> timed[i].key in v)
  }

  lemma VictimsPrune(timed: seq<Stamped>, limit: nat)
    requires Distinct(Keys(timed))
    ensures Prunes(Victims(timed, limit), timed, limit)
  {
    var v := Victims(timed, limit);
    VictimsAreOldest(timed, limit);
    SortByTimeSorts(timed);
    forall i, j | 0 <= i < j < |timed| && timed[i].mtime == timed[j].mtime && timed[j].key in v ensures timed[i].key in v {
      SurvivesExactly(timed, limit, i);
      SurvivesExactly(timed, limit, j);
      AheadGrows(timed, i, j);
    }
  }

  lemma AheadGrows(timed: seq<Stamped>, i: nat, j: nat)
    requires i < j < |timed| && timed[i].mtime == timed[j].mtime
    ensures |Ahead(timed, Time, i)| <= |Ahead(timed, Time, j)|
  {
    SubsetCount(Ahead(timed, Time, i), Ahead(timed, Time, j));
  }

  lemma SubsetCount(a: set<int>, b: set<int>)
    requires a <= b
    ensures |a| <= |b|
  {
    assert b == a + (b - a);
  }

  /** In every reachable state: the call that has timed the last file goes on to delete the oldest, so
      many that the limit is met. */
  lemma ChoosesOldest(s: State, p: Process, order: seq<Key>)
    requires Reachable(s) && p in s.calls && s.calls[p].stage.Timing? && s.calls[p].stage.todo == []
    ensures var t := Step(s, Go(p, order));
      && p in t.calls && t.calls[p].stage.Pruning? && t.files == s.files
      && Prunes(t.calls[p].stage.victims, s.calls[p].stage.timed, s.limit)
  {
    ReachableInv(s);
    var timed := s.calls[p].stage.timed;
    assert CallOk(s.calls[p], s.files);
    assert Keys(timed) + [] == Keys(timed);
    VictimsPrune(timed, s.limit);
  }

  /** What is left to delete. */
  function Left(stage: Stage): Option<seq<Key>> {
    match stage
    case Pruning(v) => Some(v)
    case Deleting(v) => Some(v)
    case Deleted(v) => Some(v)
    case _ => None
  }

  /** Earlier in the run `p` had timed files, and `v` is the end of a list of victims chosen from them. */
  ghost predicate Chosen(s0: State, events: seq<Event>, p: Process, v: seq<Key>) {
    exists j, timed, w, d :: ChosenAt(s0, events, p, v, j, timed, w, d)
  }

  ghost predicate ChosenAt(s0: State, events: seq<Event>, p: Process, v: seq<Key>,
                           j: nat, timed: seq<Stamped>, w: seq<Key>, d: nat) {
    && j < |events| && p in Exec(s0, events[..j]).calls && Exec(s0, events[..j]).calls[p].stage == Timing([], timed)
    && Prunes(w, timed, s0.limit) && d <= |w| && v == w[d..]
  }

  lemma ChosenStays(s0: State, events: seq<Event>, e: Event, p: Process, v: seq<Key>, from: nat)
    requires Chosen(s0, events, p, v) && from <= |v|
    ensures Chosen(s0, events + [e], p, v[from..])
  {
    var j: nat, timed, w, d: nat :| ChosenAt(s0, events, p, v, j, timed, w, d);
    assert (events + [e])[..j] == events[..j];
    assert w[d..][from..] == w[d + from..];
    assert ChosenAt(s0, events + [e], p, v[from..], j, timed, w, d + from);
  }

  lemma ExecKeepsLimit(s: State, events: seq<Event>)
    ensures Exec(s, events).limit == s.limit
    decreases |events|
  {
    if events != [] {
      StepKeepsLimit(s, events[0]);
      ExecKeepsLimit(Step(s, events[0]), events[1..]);
    }
  }

  lemma StepKeepsLimit(s: State, e: Event)
    ensures Step(s, e).limit == s.limit
  {
  }

  /** The victims `after` a step are those `before` it, or all but the first of them. */
  ghost predicate Fewer(before: Option<seq<Key>>, after: Option<seq<Key>>) {
    after.Some? && before.Some? && (after == before || (before.value != [] && after.value == before.value[1..]))
  }

  lemma FetchLeft(s: State, p: Process)
    requires p in s.calls && s.calls[p].Fetching()
    ensures p in FetchStep(s, p).calls && Left(FetchStep(s, p).calls[p].stage).None?
  {
  }

  lemma ListLeft(s: State, p: Process, order: seq<Key>)
    requires p in s.calls && s.calls[p].Surveying() && p in ListStep(s, p, order).calls
    requires Left(ListStep(s, p, order).calls[p].stage).Some?
    ensures s.calls[p].stage.Timing? && s.calls[p].stage.todo == []
  {
  }

  lemma DeleteLeft(s: State, p: Process)
    requires p in s.calls && p in DeleteStep(s, p).calls && Left(DeleteStep(s, p).calls[p].stage).Some?
    ensures Fewer(Left(s.calls[p].stage), Left(DeleteStep(s, p).calls[p].stage))
  {
  }

  /** Other calls stay where they are. */
  lemma StepLeaves(s: State, e: Event, p: Process)
    requires p in Step(s, e).calls && (e.Clock? || e.p != p)
    ensures p in s.calls && Step(s, e).calls[p] == s.calls[p]
  {
    if e.Go? && e.p in s.calls && s.calls[e.p].Surveying() {
      ListLeavesAlone(s, e.p, e.order, p);
    }
  }

  /** Where the victims that are left come from, in one step. */
  lemma LeftFrom(s: State, e: Event, p: Process)
    requires p in Step(s, e).calls && Left(Step(s, e).calls[p].stage).Some?
    ensures p in s.calls
    ensures Fewer(Left(s.calls[p].stage), Left(Step(s, e).calls[p].stage))
      || (e.Go? && e.p == p && s.calls[p].stage.Timing? && s.calls[p].stage.todo == [])
  {
    if e.Clock? || e.p != p {
      StepLeaves(s, e, p);
    } else if e.Go? && p in s.calls {
      if s.calls[p].Fetching() {
        FetchLeft(s, p);
      } else if s.calls[p].Surveying() {
        ListLeft(s, p, e.order);
      } else {
        DeleteLeft(s, p);
      }
    }
  }

  /** In every run, whatever a call still has to delete is what is left of the victims that it chose. */
  lemma {:induction false} LeftWereChosen(s0: State, events: seq<Event>, p: Process)
    requires Initial(s0) && p in Exec(s0, events).calls && Left(Exec(s0, events).calls[p].stage).Some?
    ensures Chosen(s0, events, p, Left(Exec(s0, events).calls[p].stage).value)
    decreases |events|
  {
    if events == [] {
      assert false;
    } else {
      var init, e := events[..|events| - 1], events[|events| - 1];
      assert events == init + [e];
      ExecSnoc(s0, init, e);
      var s := Exec(s0, init);
      var v := Left(Step(s, e).calls[p].stage).value;
      LeftFrom(s, e, p);
      if Left(s.calls[p].stage).Some? {
        var before := Left(s.calls[p].stage).value;
        LeftWereChosen(s0, init, p);
        assert before[0..] == before;
        ChosenStays(s0, init, e, p, before, if before == v then 0 else 1);
      } else {
        assert Reachable(s);
        ChoosesOldest(s, p, e.order);
        ExecKeepsLimit(s0, init);
        assert events[..|init|] == init && v[0..] == v;
        assert ChosenAt(s0, events, p, v, |init|, s.calls[p].stage.timed, v, 0);
      }
    }
  }

  /** In every run, a file disappears only because some call deletes it that has timed the files of the
      directory and found it to be a victim. */
  lemma GoesOnlyAsVictim(s0: State, events: seq<Event>, e: Event, k: Key)
    requires Initial(s0) && k in Exec(s0, events).files && k !in Step(Exec(s0, events), e).files
    ensures e.Go? && e.p in Exec(s0, events).calls
    ensures var stage := Exec(s0, events).calls[e.p].stage;
      stage.Deleting? && stage.victims != [] && stage.victims[0] == k && Chosen(s0, events, e.p, stage.victims)
  {
    OnlyDeletingRemoves(Exec(s0, events), e, k);
    LeftWereChosen(s0, events, e.p);
  }

  lemma OnlyDeletingRemoves(s: State, e: Event, k: Key)
    requires k in s.files && k !in Step(s, e).files
    ensures e.Go? && e.p in s.calls && s.calls[e.p].stage.Deleting?
    ensures s.calls[e.p].stage.victims != [] && s.calls[e.p].stage.victims[0] == k
  {
    if e.Go? && e.p in s.calls && s.calls[e.p].Surveying() {
      ListKeepsFiles(s, e.p, e.order);
    }
  }

  // ----- a call that nobody disturbs

  function Gos(p: Process, order: seq<Key>, m: nat): seq<Event> {
    seq(m, _ => Go(p, order))
  }

  predicate Position(i: int) { true }

  /** A run of `p` alone, state by state. */
  ghost predicate IsRun(run: seq<State>, p: Process, order: seq<Key>) {
    && run != []
    && forall i {:trigger Position(i)} :: Position(i) && 0 <= i < |run| - 1 ==> run[i + 1] == Step(run[i], Go(p, order))
  }

  /** Undisturbed, `p` gets from `s` to `t`. */
  ghost predicate Leads(s: State, p: Process, order: seq<Key>, t: State) {
    exists run: seq<State> :: IsRun(run, p, order) && run[0] == s && run[|run| - 1] == t
  }

  lemma LeadsSame(s: State, p: Process, order: seq<Key>)
    ensures Leads(s, p, order, s)
  {
    assert IsRun([s], p, order);
  }

  lemma LeadsOne(s: State, p: Process, order: seq<Key>, t: State)
    requires t == Step(s, Go(p, order))
    ensures Leads(s, p, order, t)
  {
    assert IsRun([s, t], p, order);
  }

  lemma LeadsThen(s: State, p: Process, order: seq<Key>, t: State, u: State)
    requires Leads(s, p, order, t) && Leads(t, p, order, u)
    ensures Leads(s, p, order, u)
  {
    var a: seq<State> :| IsRun(a, p, order) && a[0] == s && a[|a| - 1] == t;
    var b: seq<State> :| IsRun(b, p, order) && b[0] == t && b[|b| - 1] == u;
    var run := a + b[1..];
    RunsJoin(a, b, p, order);
    assert run[0] == s && run[|run| - 1] == u;
  }

  lemma RunsJoin(a: seq<State>, b: seq<State>, p: Process, order: seq<Key>)
    requires IsRun(a, p, order) && IsRun(b, p, order) && a[|a| - 1] == b[0]
    ensures IsRun(a + b[1..], p, order)
  {
    var run, m := a + b[1..], |a| - 1;
    forall i | Position(i) && 0 <= i < |run| - 1 ensures run[i + 1] == Step(run[i], Go(p, order)) {
      if i < m {
        assert run[i] == a[i] && run[i + 1] == a[i + 1];
      } else {
        assert Position(i - m);
        assert run[i] == b[i - m] && run[i + 1] == b[i - m + 1];
      }
    }
  }

  /** Such a run is the execution of as many steps of `p`. */
  lemma LeadsByGos(s: State, p: Process, order: seq<Key>, t: State) returns (m: nat)
    requires Leads(s, p, order, t)
    ensures Exec(s, Gos(p, order, m)) == t
  {
    var run: seq<State> :| IsRun(run, p, order) && run[0] == s && run[|run| - 1] == t;
    m := |run| - 1;
    RunByGos(run, p, order, m);
  }

  lemma {:induction false} RunByGos(run: seq<State>, p: Process, order: seq<Key>, m: nat)
    requires IsRun(run, p, order) && m < |run|
    ensures Exec(run[0], Gos(p, order, m)) == run[m]
  {
    if m == 0 {
      assert Gos(p, order, 0) == [];
    } else {
      RunByGos(run, p, order, m - 1);
      assert Gos(p, order, m) == Gos(p, order, m - 1) + [Go(p, order)];
      ExecSnoc(run[0], Gos(p, order, m - 1), Go(p, order));
      assert Position(m - 1);
    }
  }

  // ----- the steps of such a call

  lemma WithTwice(s: State, p: Process, c: Call, d: Call)
    ensures s.With(p, c).With(p, d) == s.With(p, d)
  {
    assert s.calls[p := c][p := d] == s.calls[p := d];
  }

  lemma LockedAndUnlocked(s: State, p: Process, id: LockId)
    requires id !in s.locks
    ensures s.Lock(id, p).Unlock(id) == s
  {
    assert s.locks[id := p] - {id} == s.locks;
  }

  /** One file is timed. */
  lemma TimesOne(s: State, p: Process, order: seq<Key>, c: Call, todo: seq<Key>, timed: seq<Stamped>)
    requires todo != [] && todo[0] in s.files
    ensures Leads(s.With(p, c.At(Timing(todo, timed))), p, order,
                  s.With(p, c.At(Timing(todo[1..], timed + [Stamped(todo[0], s.files[todo[0]].mtime)]))))
  {
    var d := c.At(Timing(todo[1..], timed + [Stamped(todo[0], s.files[todo[0]].mtime)]));
    WithTwice(s, p, c.At(Timing(todo, timed)), d);
    LeadsOne(s.With(p, c.At(Timing(todo, timed))), p, order, s.With(p, d));
  }

  lemma {:induction false} TimesAll(s: State, p: Process, order: seq<Key>, c: Call, todo: seq<Key>, timed: seq<Stamped>)
    requires forall k :: k in todo ==> k in s.files
    ensures Leads(s.With(p, c.At(Timing(todo, timed))), p, order,
                  s.With(p, c.At(Timing([], timed + Times(todo, s.files)))))
    decreases |todo|
  {
    if todo == [] {
      assert timed + Times(todo, s.files) == timed;
      LeadsSame(s.With(p, c.At(Timing([], timed))), p, order);
    } else {
      var more := timed + [Stamped(todo[0], s.files[todo[0]].mtime)];
      TimesOne(s, p, order, c, todo, timed);
      TimesAll(s, p, order, c, todo[1..], more);
      assert more + Times(todo[1..], s.files) == timed + Times(todo, s.files);
      LeadsThen(s.With(p, c.At(Timing(todo, timed))), p, order, s.With(p, c.At(Timing(todo[1..], more))),
                s.With(p, c.At(Timing([], timed + Times(todo, s.files)))));
    }
  }

  /** The same state without some of its files. */
  ghost function Less(s: State, v: seq<Key>): State {
    s.(files := Without(s.files, v), torn := set k | k in s.torn && k !in v)
  }

  /** One victim is deleted in three steps, its lock taken and given back. */
  lemma DeletesOne(s: State, p: Process, order: seq<Key>, c: Call, v: seq<Key>)
    requires v != [] && KeyLock(v[0]) !in s.locks
    ensures Leads(s.With(p, c.At(Pruning(v))), p, order, Less(s, [v[0]]).With(p, c.At(Pruning(v[1..]))))
  {
    var s0, s3 := s.With(p, c.At(Pruning(v))), Less(s, [v[0]]).With(p, c.At(Pruning(v[1..])));
    var s1 := s.Lock(KeyLock(v[0]), p).With(p, c.At(Deleting(v)));
    var s2 := Less(s, [v[0]]).Lock(KeyLock(v[0]), p).With(p, c.At(Deleted(v)));
    TakesVictim(s, p, order, c, v);
    DeletesVictim(s, p, order, c, v);
    LeavesVictim(Less(s, [v[0]]), p, order, c, v);
    LeadsThen(s0, p, order, s1, s2);
    LeadsThen(s0, p, order, s2, s3);
  }

  lemma TakesVictim(s: State, p: Process, order: seq<Key>, c: Call, v: seq<Key>)
    requires v != [] && KeyLock(v[0]) !in s.locks
    ensures Leads(s.With(p, c.At(Pruning(v))), p, order, s.Lock(KeyLock(v[0]), p).With(p, c.At(Deleting(v))))
  {
    var t := s.Lock(KeyLock(v[0]), p).With(p, c.At(Deleting(v)));
    WithTwice(s.Lock(KeyLock(v[0]), p), p, c.At(Pruning(v)), c.At(Deleting(v)));
    LeadsOne(s.With(p, c.At(Pruning(v))), p, order, t);
  }

  lemma DeletesVictim(s: State, p: Process, order: seq<Key>, c: Call, v: seq<Key>)
    requires v != []
    ensures Leads(s.Lock(KeyLock(v[0]), p).With(p, c.At(Deleting(v))), p, order,
                  Less(s, [v[0]]).Lock(KeyLock(v[0]), p).With(p, c.At(Deleted(v))))
  {
    var t := Less(s, [v[0]]).Lock(KeyLock(v[0]), p);
    assert s.files - {v[0]} == t.files && s.torn - {v[0]} == t.torn;
    WithTwice(t, p, c.At(Deleting(v)), c.At(Deleted(v)));
    LeadsOne(s.Lock(KeyLock(v[0]), p).With(p, c.At(Deleting(v))), p, order, t.With(p, c.At(Deleted(v))));
  }

  lemma LeavesVictim(s: State, p: Process, order: seq<Key>, c: Call, v: seq<Key>)
    requires v != [] && KeyLock(v[0]) !in s.locks
    ensures Leads(s.Lock(KeyLock(v[0]), p).With(p, c.At(Deleted(v))), p, order, s.With(p, c.At(Pruning(v[1..]))))
  {
    LockedAndUnlocked(s, p, KeyLock(v[0]));
    WithTwice(s, p, c.At(Deleted(v)), c.At(Pruning(v[1..])));
    LeadsOne(s.Lock(KeyLock(v[0]), p).With(p, c.At(Deleted(v))), p, order, s.With(p, c.At(Pruning(v[1..]))));
  }

  lemma {:induction false} DeletesAll(s: State, p: Process, order: seq<Key>, c: Call, v: seq<Key>)
    requires forall k :: k in v ==> KeyLock(k) !in s.locks
    ensures Leads(s.With(p, c.At(Pruning(v))), p, order, Less(s, v).With(p, c.At(Pruning([]))))
    decreases |v|
  {
    if v == [] {
      LessNothing(s);
      LeadsSame(s.With(p, c.At(Pruning([]))), p, order);
    } else {
      DeletesOne(s, p, order, c, v);
      DeletesAll(Less(s, [v[0]]), p, order, c, v[1..]);
      LessAgain(s, v);
      LeadsThen(s.With(p, c.At(Pruning(v))), p, order, Less(s, [v[0]]).With(p, c.At(Pruning(v[1..]))),
                Less(s, v).With(p, c.At(Pruning([]))));
    }
  }

  lemma LessNothing(s: State)
    ensures Less(s, []) == s
  {
    assert Without(s.files, []) == s.files && (set k | k in s.torn && k !in []) == s.torn;
  }

  lemma LessAgain(s: State, v: seq<Key>)
    requires v != []
    ensures Less(Less(s, [v[0]]), v[1..]) == Less(s, v)
  {
    assert forall k :: k in v <==> k in [v[0]] || k in v[1..];
    assert Without(Without(s.files, [v[0]]), v[1..]) == Without(s.files, v);
    assert Less(Less(s, [v[0]]), v[1..]).torn == Less(s, v).torn;
  }

  // ----- pruning and the whole call

  /** Nobody holds a lock that pruning these files needs. */
  ghost predicate LocksFree(s: State, files: map<Key, Entry>) {
    TypeLock !in s.locks && forall k :: k in files ==> KeyLock(k) !in s.locks
  }

  /** The state when the call of `p` has returned `r` and these files are left. */
  ghost function Ended(s: State, p: Process, r: Returned, files: map<Key, Entry>): State {
    State(s.limit, files, (set k | k in s.torn && k in files), s.clock, s.locks, s.calls - {p}, s.log + [r])
  }

  lemma ReachableTornExist(s: State)
    requires Reachable(s)
    ensures s.torn <= s.files.Keys
  {
    ReachableInv(s);
  }

  /** A call that has its content, undisturbed: afterwards the directory is the pruned one, and the call
      has returned what it had. */
  lemma PrunesAlone(s: State, p: Process, order: seq<Key>, c: Call)
    requires s.torn <= s.files.Keys && LocksFree(s, s.files) && IsListing(order, s.files.Keys)
    ensures Leads(s.With(p, c.At(Counting)), p, order,
                  Ended(s, p, Returned(p, c.key, c.content, c.torn), Pruned(s.files, order, s.limit)))
  {
    if |s.files| <= s.limit {
      ReturnsAtOnce(s, p, order, c);
    } else {
      var s0, v := s.With(p, c.At(Counting)), Victims(Times(order, s.files), s.limit);
      var s1 := s.Lock(TypeLock, p).With(p, c.At(Timing([], Times(order, s.files))));
      var s2 := s.Lock(TypeLock, p).With(p, c.At(Pruning(v)));
      var s3 := Less(s, v).Lock(TypeLock, p).With(p, c.At(Pruning([])));
      ListsAndTimes(s, p, order, c);
      Chooses(s, p, order, c, Times(order, s.files));
      VictimsAreListed(s, order, v);
      DeletesAll(s.Lock(TypeLock, p), p, order, c, v);
      LessLocked(s, p, v);
      Ends(s, p, order, c, v);
      LeadsThen(s0, p, order, s1, s2);
      LeadsThen(s0, p, order, s2, s3);
      LeadsThen(s0, p, order, s3, Ended(s, p, Returned(p, c.key, c.content, c.torn), Without(s.files, v)));
    }
  }

  lemma LessLocked(s: State, p: Process, v: seq<Key>)
    ensures Less(s.Lock(TypeLock, p), v) == Less(s, v).Lock(TypeLock, p)
  {
  }

  lemma ReturnsAtOnce(s: State, p: Process, order: seq<Key>, c: Call)
    requires s.torn <= s.files.Keys && |s.files| <= s.limit
    ensures Leads(s.With(p, c.At(Counting)), p, order, Ended(s, p, Returned(p, c.key, c.content, c.torn), s.files))
  {
    var t := s.With(p, c.At(Counting));
    FewEnough(t, p, order);
    NothingPruned(s, p, c);
    LeadsOne(t, p, order, t.Finish(p, t.calls[p]));
  }

  lemma NothingPruned(s: State, p: Process, c: Call)
    requires s.torn <= s.files.Keys
    ensures s.With(p, c.At(Counting)).Finish(p, c.At(Counting)) == Ended(s, p, Returned(p, c.key, c.content, c.torn), s.files)
  {
    assert s.With(p, c.At(Counting)).calls - {p} == s.calls - {p};
    assert (set k | k in s.torn && k in s.files) == s.torn;
  }

  lemma FewEnough(s: State, p: Process, order: seq<Key>)
    requires p in s.calls && s.calls[p].stage.Counting? && |s.files| <= s.limit
    ensures Step(s, Go(p, order)) == s.Finish(p, s.calls[p])
  {
  }

  lemma VictimsAreListed(s: State, order: seq<Key>, v: seq<Key>)
    requires LocksFree(s, s.files) && IsListing(order, s.files.Keys) && v == Victims(Times(order, s.files), s.limit)
    ensures forall k :: k in v ==> KeyLock(k) !in s.locks
  {
    assert Keys(Times(order, s.files)) == order;
    VictimsAreOldest(Times(order, s.files), s.limit);
  }

  lemma ListsAndTimes(s: State, p: Process, order: seq<Key>, c: Call)
    requires |s.files| > s.limit && TypeLock !in s.locks && IsListing(order, s.files.Keys)
    ensures Leads(s.With(p, c.At(Counting)), p, order,
                  s.Lock(TypeLock, p).With(p, c.At(Timing([], Times(order, s.files)))))
  {
    var t, timed := s.Lock(TypeLock, p), Times(order, s.files);
    Starts(s, p, order, c);
    ListsDirectory(s, p, order, c);
    TimesAll(t, p, order, c, order, []);
    assert [] + timed == timed;
    LeadsThen(s.With(p, c.At(Counting)), p, order, t.With(p, c.At(Listing)), t.With(p, c.At(Timing(order, []))));
    LeadsThen(s.With(p, c.At(Counting)), p, order, t.With(p, c.At(Timing(order, []))), t.With(p, c.At(Timing([], timed))));
  }

  lemma Starts(s: State, p: Process, order: seq<Key>, c: Call)
    requires |s.files| > s.limit && TypeLock !in s.locks
    ensures Leads(s.With(p, c.At(Counting)), p, order, s.Lock(TypeLock, p).With(p, c.At(Listing)))
  {
    WithTwice(s, p, c.At(Counting), c.At(WantPrune));
    LeadsOne(s.With(p, c.At(Counting)), p, order, s.With(p, c.At(WantPrune)));
    Waits(s, p, order, c);
    LeadsThen(s.With(p, c.At(Counting)), p, order, s.With(p, c.At(WantPrune)), s.Lock(TypeLock, p).With(p, c.At(Listing)));
  }

  lemma Waits(s: State, p: Process, order: seq<Key>, c: Call)
    requires TypeLock !in s.locks
    ensures Leads(s.With(p, c.At(WantPrune)), p, order, s.Lock(TypeLock, p).With(p, c.At(Listing)))
  {
    WithTwice(s.Lock(TypeLock, p), p, c.At(WantPrune), c.At(Listing));
    LeadsOne(s.With(p, c.At(WantPrune)), p, order, s.Lock(TypeLock, p).With(p, c.At(Listing)));
  }

  lemma ListsDirectory(s: State, p: Process, order: seq<Key>, c: Call)
    requires IsListing(order, s.files.Keys)
    ensures Leads(s.Lock(TypeLock, p).With(p, c.At(Listing)), p, order, s.Lock(TypeLock, p).With(p, c.At(Timing(order, []))))
  {
    var t := s.Lock(TypeLock, p);
    WithTwice(t, p, c.At(Listing), c.At(Timing(order, [])));
    LeadsOne(t.With(p, c.At(Listing)), p, order, t.With(p, c.At(Timing(order, []))));
  }

  lemma Chooses(s: State, p: Process, order: seq<Key>, c: Call, timed: seq<Stamped>)
    ensures Leads(s.Lock(TypeLock, p).With(p, c.At(Timing([], timed))), p, order,
                  s.Lock(TypeLock, p).With(p, c.At(Pruning(Victims(timed, s.limit)))))
  {
    var t, d := s.Lock(TypeLock, p), c.At(Pruning(Victims(timed, s.limit)));
    WithTwice(t, p, c.At(Timing([], timed)), d);
    LeadsOne(t.With(p, c.At(Timing([], timed))), p, order, t.With(p, d));
  }

  lemma Ends(s: State, p: Process, order: seq<Key>, c: Call, v: seq<Key>)
    requires s.torn <= s.files.Keys && TypeLock !in s.locks
    ensures Leads(Less(s, v).Lock(TypeLock, p).With(p, c.At(Pruning([]))), p, order,
                  Ended(s, p, Returned(p, c.key, c.content, c.torn), Without(s.files, v)))
  {
    var t := Less(s, v).Lock(TypeLock, p);
    WithTwice(t, p, c.At(Pruning([])), c.At(EndPrune));
    LeadsOne(t.With(p, c.At(Pruning([]))), p, order, t.With(p, c.At(EndPrune)));
    Returns(s, p, order, c, v);
    LeadsThen(t.With(p, c.At(Pruning([]))), p, order, t.With(p, c.At(EndPrune)),
              Ended(s, p, Returned(p, c.key, c.content, c.torn), Without(s.files, v)));
  }

  lemma Returns(s: State, p: Process, order: seq<Key>, c: Call, v: seq<Key>)
    requires s.torn <= s.files.Keys && TypeLock !in s.locks
    ensures Leads(Less(s, v).Lock(TypeLock, p).With(p, c.At(EndPrune)), p, order,
                  Ended(s, p, Returned(p, c.key, c.content, c.torn), Without(s.files, v)))
  {
    var t, u := Less(s, v), Ended(s, p, Returned(p, c.key, c.content, c.torn), Without(s.files, v));
    LockedAndUnlocked(t, p, TypeLock);
    assert t.torn == u.torn && t.With(p, c.At(EndPrune)).calls - {p} == u.calls;
    LeadsOne(t.Lock(TypeLock, p).With(p, c.At(EndPrune)), p, order, u);
  }

  /** What a call returns for this key, from these files. */
  function Wanted(s: State, p: Process, k: Key): Returned {
    if k in s.files then Returned(p, k, s.files[k].content, k in s.torn) else Returned(p, k, Whole(k), false)
  }

  /** The part under the key's lock, undisturbed. */
  lemma FetchesAlone(s: State, p: Process, k: Key, order: seq<Key>)
    requires KeyLock(k) !in s.locks
    ensures Leads(s.With(p, Call(k, Partial, false, WantKey)), p, order,
                  s.(files := Stored(s.files, s.clock, k)).With(p, Call(k, Wanted(s, p, k).content, Wanted(s, p, k).torn, Counting)))
  {
    if k in s.files {
      ReadsAlone(s, p, k, order);
    } else {
      WritesAlone(s, p, k, order);
    }
  }

  /** After taking the key's lock and looking for the file. */
  lemma LooksAlone(s: State, p: Process, k: Key, order: seq<Key>)
    requires KeyLock(k) !in s.locks
    ensures Leads(s.With(p, Call(k, Partial, false, WantKey)), p, order,
                  s.Lock(KeyLock(k), p).With(p, Call(k, Partial, false, if k in s.files then Reading else Generating)))
  {
    var t := s.Lock(KeyLock(k), p);
    var c, d := Call(k, Partial, false, WantKey), Call(k, Partial, false, if k in s.files then Reading else Generating);
    WithTwice(t, p, c, c.At(Looking));
    LeadsOne(s.With(p, c), p, order, t.With(p, c.At(Looking)));
    WithTwice(t, p, c.At(Looking), d);
    LeadsOne(t.With(p, c.At(Looking)), p, order, t.With(p, d));
    LeadsThen(s.With(p, c), p, order, t.With(p, c.At(Looking)), t.With(p, d));
  }

  lemma UnlocksAlone(s: State, p: Process, c: Call, order: seq<Key>)
    requires KeyLock(c.key) !in s.locks && c.stage.Unlocking?
    ensures Leads(s.Lock(KeyLock(c.key), p).With(p, c), p, order, s.With(p, c.At(Counting)))
  {
    LockedAndUnlocked(s, p, KeyLock(c.key));
    WithTwice(s, p, c, c.At(Counting));
    LeadsOne(s.Lock(KeyLock(c.key), p).With(p, c), p, order, s.With(p, c.At(Counting)));
  }

  lemma ReadsAlone(s: State, p: Process, k: Key, order: seq<Key>)
    requires KeyLock(k) !in s.locks && k in s.files
    ensures Leads(s.With(p, Call(k, Partial, false, WantKey)), p, order,
                  s.With(p, Call(k, s.files[k].content, k in s.torn, Counting)))
  {
    var t, b, c := s.Lock(KeyLock(k), p), Call(k, Partial, false, Reading), Call(k, s.files[k].content, k in s.torn, Unlocking);
    LooksAlone(s, p, k, order);
    WithTwice(t, p, b, c);
    LeadsOne(t.With(p, b), p, order, t.With(p, c));
    UnlocksAlone(s, p, c, order);
    LeadsThen(t.With(p, b), p, order, t.With(p, c), s.With(p, c.At(Counting)));
    LeadsThen(s.With(p, b.At(WantKey)), p, order, t.With(p, b), s.With(p, c.At(Counting)));
  }

  lemma WritesAlone(s: State, p: Process, k: Key, order: seq<Key>)
    requires KeyLock(k) !in s.locks && k !in s.files
    ensures Leads(s.With(p, Call(k, Partial, false, WantKey)), p, order,
                  s.(files := s.files[k := Entry(Whole(k), s.clock)]).With(p, Call(k, Whole(k), false, Counting)))
  {
    var b, c := Call(k, Partial, false, Generating), Call(k, Whole(k), false, Unlocking);
    var t, u := s.Lock(KeyLock(k), p), s.(files := s.files[k := Entry(Whole(k), s.clock)]);
    LooksAlone(s, p, k, order);
    Generates(t, p, k, order);
    UnlocksAlone(u, p, c, order);
    LeadsThen(t.With(p, b), p, order, u.Lock(KeyLock(k), p).With(p, c), u.With(p, c.At(Counting)));
    LeadsThen(s.With(p, b.At(WantKey)), p, order, t.With(p, b), u.With(p, c.At(Counting)));
  }

  /** The file is created, then written. */
  lemma Generates(s: State, p: Process, k: Key, order: seq<Key>)
    requires k !in s.files
    ensures Leads(s.With(p, Call(k, Partial, false, Generating)), p, order,
                  s.(files := s.files[k := Entry(Whole(k), s.clock)]).With(p, Call(k, Whole(k), false, Unlocking)))
  {
    var b, c := Call(k, Partial, false, Generating), Call(k, Whole(k), false, Unlocking);
    var t, u := s.(files := s.files[k := Entry(Partial, s.clock)]), s.(files := s.files[k := Entry(Whole(k), s.clock)]);
    WithTwice(t, p, b, b.At(Writing));
    LeadsOne(s.With(p, b), p, order, t.With(p, b.At(Writing)));
    assert t.files[k := Entry(Whole(k), s.clock)] == u.files;
    WithTwice(u, p, b.At(Writing), c);
    LeadsOne(t.With(p, b.At(Writing)), p, order, u.With(p, c));
    LeadsThen(s.With(p, b), p, order, t.With(p, b.At(Writing)), u.With(p, c));
  }

  /** A whole call for `k`, undisturbed: it returns what is stored or what the generator makes, and leaves
      the directory that holds its file, pruned, and all else as it was. */
  lemma CallsAlone(s: State, p: Process, k: Key, order: seq<Key>) returns (m: nat)
    requires Reachable(s) && p !in s.calls
    requires LocksFree(s, Stored(s.files, s.clock, k)) && IsListing(order, Stored(s.files, s.clock, k).Keys)
    ensures Exec(s, [Begin(p, k)] + Gos(p, order, m))
         == Ended(s, p, Wanted(s, p, k), Pruned(Stored(s.files, s.clock, k), order, s.limit))
  {
    BegunAlone(s, p, k, order);
    var s1 := s.With(p, Call(k, Partial, false, WantKey));
    var t := Ended(s, p, Wanted(s, p, k), Pruned(Stored(s.files, s.clock, k), order, s.limit));
    m := LeadsByGos(s1, p, order, t);
    BeginFirst(s, p, k, Gos(p, order, m));
  }

  lemma BeginFirst(s: State, p: Process, k: Key, events: seq<Event>)
    requires p !in s.calls
    ensures Exec(s, [Begin(p, k)] + events) == Exec(s.With(p, Call(k, Partial, false, WantKey)), events)
  {
    assert ([Begin(p, k)] + events)[1..] == events;
  }

  lemma BegunAlone(s: State, p: Process, k: Key, order: seq<Key>)
    requires Reachable(s)
    requires LocksFree(s, Stored(s.files, s.clock, k)) && IsListing(order, Stored(s.files, s.clock, k).Keys)
    ensures Leads(s.With(p, Call(k, Partial, false, WantKey)), p, order,
                  Ended(s, p, Wanted(s, p, k), Pruned(Stored(s.files, s.clock, k), order, s.limit)))
  {
    var t, r := s.(files := Stored(s.files, s.clock, k)), Wanted(s, p, k);
    var c := Call(k, r.content, r.torn, Counting);
    ReachableTornExist(s);
    FetchesAlone(s, p, k, order);
    PrunesAlone(t, p, order, c);
    LeadsThen(s.With(p, c.At(WantKey).(content := Partial, torn := false)), p, order, t.With(p, c),
              Ended(s, p, r, Pruned(t.files, order, s.limit)));
  }
}
