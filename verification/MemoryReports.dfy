/** What the books hold, told from the reported events alone: which pointers are live, with which size
    and from which call site, and what that adds up to. */
module MemoryReports {
  import opened MapSums
  import opened MemoryBooks

  /** The event reports `p` as allocated, or as free. A realloc frees before it allocates. */
  predicate Reports(e: Event, p: Pointer) {
    (e.Malloc? && e.ptr == p) || (e.Realloc? && e.newAddress == p)
  }

  predicate Releases(e: Event, p: Pointer) {
    (e.Free? && e.ptr == p) || (e.Realloc? && e.oldAddress == p)
  }

  ghost predicate ReleasedIn(events: seq<Event>, from: int, to: int, p: Pointer) {
    exists k :: 0 <= k < |events| && from < k < to && Releases(events[k], p)
  }

  /** Report `i` counts: `p` has not been reported before with a size other than 0, or it has been
      released since then. */
  ghost predicate Opens(events: seq<Event>, i: nat, p: Pointer)
    decreases i
  {
    && i < |events| && p != 0 && Reports(events[i], p)
    && (Releases(events[i], p)
        || forall j: nat :: j < i && Opens(events, j, p) && events[j].size > 0 ==> ReleasedIn(events, j, i, p))
  }

  /** `p` is live because of report `i`: the last one that counts, and not released since. */
  ghost predicate Holds(events: seq<Event>, i: nat, p: Pointer) {
    && Opens(events, i, p) && !ReleasedIn(events, i, |events|, p)
    && forall j: nat :: i < j < |events| ==> !Opens(events, j, p)
  }

  ghost predicate Live(events: seq<Event>, p: Pointer) {
    exists i: nat :: Holds(events, i, p)
  }

  ghost predicate ClearedAfter(events: seq<Event>, i: nat) {
    exists k :: i < k < |events| && events[k].ClearStats?
  }

  /** The ledger says of `p` what the events reported. */
  ghost predicate Follows(b: Books, events: seq<Event>, p: Pointer) {
    && (p in b.sizes <==> Live(events, p))
    && (p in b.sites ==> p in b.sizes)
    && forall i: nat :: Holds(events, i, p) ==> Entered(b, events, i, p)
  }

  ghost predicate Entered(b: Books, events: seq<Event>, i: nat, p: Pointer)
    requires i < |events| && Reports(events[i], p)
  {
    && p in b.sizes && b.sizes[p] == events[i].size
    && (p in b.sites <==> !ClearedAfter(events, i))
    && (p in b.sites ==> b.sites[p] == events[i].loc)
  }

  // ----- one event more

  lemma {:induction false} OpensAsBefore(events: seq<Event>, e: Event, i: nat, p: Pointer)
    requires i < |events|
    ensures Opens(events + [e], i, p) <==> Opens(events, i, p)
    decreases i
  {
    var more := events + [e];
    forall j: nat | j < i ensures Opens(more, j, p) <==> Opens(events, j, p) {
      OpensAsBefore(events, e, j, p);
    }
    forall j: nat | j < i ensures ReleasedIn(more, j, i, p) <==> ReleasedIn(events, j, i, p) {
      ReleasedAsBefore(events, e, j, i, p);
    }
  }

  lemma ReleasedAsBefore(events: seq<Event>, e: Event, from: int, to: int, p: Pointer)
    ensures to <= |events| ==> (ReleasedIn(events + [e], from, to, p) <==> ReleasedIn(events, from, to, p))
    ensures from < |events| ==>
      (ReleasedIn(events + [e], from, |events| + 1, p) <==> ReleasedIn(events, from, |events|, p) || Releases(e, p))
  {
    var more := events + [e];
    if k :| 0 <= k < |events| && from < k < to && Releases(events[k], p) {
      assert more[k] == events[k];
    }
    if k :| 0 <= k < |events| && from < k < |events| && Releases(events[k], p) {
      assert more[k] == events[k];
    }
    assert more[|events|] == e;
  }

  /** The next report counts unless the ledger has the pointer with a size other than 0. */
  lemma OpensNow(b: Books, events: seq<Event>, e: Event, p: Pointer)
    requires Follows(b, events, p)
    ensures Opens(events + [e], |events|, p) <==>
      p != 0 && Reports(e, p) && (Releases(e, p) || !(p in b.sizes && b.sizes[p] > 0))
  {
    var more, n := events + [e], |events|;
    assert more[n] == e;
    forall j: nat | j < n ensures Opens(more, j, p) <==> Opens(events, j, p) {
      OpensAsBefore(events, e, j, p);
    }
    if p in b.sizes && b.sizes[p] > 0 {
      var i: nat :| Holds(events, i, p);
      ReleasedAsBefore(events, e, i, n, p);
      assert Entered(b, events, i, p) && Opens(more, i, p) && more[i].size > 0 && !ReleasedIn(more, i, n, p);
    } else {
      forall j: nat | j < n && Opens(more, j, p) && more[j].size > 0 ensures ReleasedIn(more, j, n, p) {
        if !ReleasedIn(events, j, n, p) {
          LargeReportHolds(events, j, p);
          assert false;
        }
        ReleasedAsBefore(events, e, j, n, p);
      }
    }
  }

  /** A report with a size other than 0 keeps counting until the pointer is released. */
  lemma LargeReportHolds(events: seq<Event>, j: nat, p: Pointer)
    requires Opens(events, j, p) && events[j].size > 0 && !ReleasedIn(events, j, |events|, p)
    ensures Holds(events, j, p)
  {
    forall i: nat | j < i < |events| ensures !Opens(events, i, p) {
      if Opens(events, i, p) {
        assert false;
      }
    }
  }

  /** What one event does to one pointer of the ledger. */
  lemma AfterAtPointer(b: Books, e: Event, p: Pointer)
    requires p in b.sites ==> p in b.sizes
    ensures var c := After(b, e);
      if p != 0 && Reports(e, p) && (Releases(e, p) || !b.Tracked(p)) then
        p in c.sizes && c.sizes[p] == e.size && p in c.sites && c.sites[p] == e.loc
      else if p != 0 && Releases(e, p) then p !in c.sizes && p !in c.sites
      else
        && (p in c.sizes <==> p in b.sizes) && (p in b.sizes ==> c.sizes[p] == b.sizes[p])
        && (p in c.sites <==> p in b.sites && !e.ClearStats?) && (p in c.sites ==> c.sites[p] == b.sites[p])
  {
    match e
    case Malloc(ptr, size, loc) => MallocAtPointer(b, ptr, size, loc, p);
    case Free(ptr) => FreeAtPointer(b, ptr, p);
    case Realloc(oldAddress, newAddress, size, loc) =>
      FreeAtPointer(b, oldAddress, p);
      MallocAtPointer(AfterFree(b, oldAddress), newAddress, size, loc, p);
    case _ =>
  }

  lemma MallocAtPointer(b: Books, ptr: Pointer, size: nat, loc: Site, p: Pointer)
    ensures var c := AfterMalloc(b, ptr, size, loc);
      if p != 0 && p == ptr && !b.Tracked(p) then p in c.sizes && c.sizes[p] == size && p in c.sites && c.sites[p] == loc
      else SameAt(b, c, p)
  {
  }

  lemma FreeAtPointer(b: Books, ptr: Pointer, p: Pointer)
    requires p in b.sites ==> p in b.sizes
    ensures var c := AfterFree(b, ptr);
      if p != 0 && p == ptr then p !in c.sizes && p !in c.sites else SameAt(b, c, p)
  {
  }

  ghost predicate SameAt(b: Books, c: Books, p: Pointer) {
    && (p in c.sizes <==> p in b.sizes) && (p in b.sizes ==> c.sizes[p] == b.sizes[p])
    && (p in c.sites <==> p in b.sites) && (p in b.sites ==> c.sites[p] == b.sites[p])
  }

  lemma FollowsOneMore(b: Books, events: seq<Event>, e: Event, p: Pointer)
    requires Follows(b, events, p)
    ensures Follows(After(b, e), events + [e], p)
  {
    var c, more, n := After(b, e), events + [e], |events|;
    OpensNow(b, events, e, p);
    AfterAtPointer(b, e, p);
    assert p in b.sizes ==> b.sizes[p] >= 0 by {
      if p in b.sizes {
        var i: nat :| Holds(events, i, p);
        assert Entered(b, events, i, p);
      }
    }
    if Opens(more, n, p) {
      NewReportHolds(more, n, p);
      forall i: nat | Holds(more, i, p) ensures i == n {}
      assert Holds(more, n, p) && Entered(c, more, n, p);
    } else {
      forall i: nat ensures Holds(more, i, p) <==> Holds(events, i, p) && !Releases(e, p) {
        HoldsAsBefore(events, e, i, p);
      }
      forall i: nat | Holds(more, i, p) ensures Entered(c, more, i, p) {
        assert Entered(b, events, i, p);
        ClearedAsBefore(events, e, i);
      }
      if Live(more, p) {
        var i: nat :| Holds(more, i, p);
      }
      if Live(events, p) && !Releases(e, p) {
        var i: nat :| Holds(events, i, p);
        assert Holds(more, i, p);
      }
    }
  }

  lemma NewReportHolds(events: seq<Event>, n: nat, p: Pointer)
    requires Opens(events, n, p) && n == |events| - 1
    ensures Holds(events, n, p)
  {
  }

  lemma HoldsAsBefore(events: seq<Event>, e: Event, i: nat, p: Pointer)
    requires !Opens(events + [e], |events|, p)
    ensures Holds(events + [e], i, p) <==> Holds(events, i, p) && !Releases(e, p)
  {
    var more := events + [e];
    forall j: nat | j < |events| ensures Opens(more, j, p) <==> Opens(events, j, p) {
      OpensAsBefore(events, e, j, p);
    }
    if i < |events| {
      ReleasedAsBefore(events, e, i, |events|, p);
    }
  }

  lemma ClearedAsBefore(events: seq<Event>, e: Event, i: nat)
    requires i < |events|
    ensures ClearedAfter(events + [e], i) <==> ClearedAfter(events, i) || e.ClearStats?
  {
    var more := events + [e];
    if k :| i < k < |events| && events[k].ClearStats? {
      assert more[k] == events[k];
    }
    assert more[|events|] == e;
  }

  // ----- the ledger

  /** After any run of a new profiler, whatever is reported, exactly the live pointers are in the ledger,
      each with the size and, unless the statistics were cleared since, the call site of the report that
      it is live by. */
  lemma {:induction false} LedgerFollows(events: seq<Event>)
    ensures forall p: Pointer :: Follows(AfterAll(NEW, events), events, p)
    decreases |events|
  {
    if events == [] {
    } else {
      var init, e := events[..|events| - 1], events[|events| - 1];
      assert events == init + [e];
      LedgerFollows(init);
      AfterOneMore(NEW, init, e);
      forall p: Pointer ensures Follows(AfterAll(NEW, events), events, p) {
        FollowsOneMore(AfterAll(NEW, init), init, e, p);
      }
    }
  }

  // ----- what it adds up to

  /** The live pointers with their sizes, and those among them that still belong to a call site. */
  ghost predicate SizesAre(events: seq<Event>, sizes: map<Pointer, int>) {
    && (forall p: Pointer :: p in sizes <==> Live(events, p))
    && (forall p: Pointer, i: nat :: Holds(events, i, p) ==> p in sizes && sizes[p] == events[i].size)
  }

  ghost predicate SitesAre(events: seq<Event>, sites: map<Pointer, Site>) {
    && (forall p: Pointer :: p in sites <==> exists i: nat :: Holds(events, i, p) && !ClearedAfter(events, i))
    && (forall p: Pointer, i: nat :: Holds(events, i, p) && !ClearedAfter(events, i) ==> p in sites && sites[p] == events[i].loc)
  }

  /** The ledger is that of the events, and the only one. */
  lemma LedgerIsReported(events: seq<Event>)
    ensures SizesAre(events, AfterAll(NEW, events).sizes) && SitesAre(events, AfterAll(NEW, events).sites)
    ensures forall sizes :: SizesAre(events, sizes) ==> sizes == AfterAll(NEW, events).sizes
  {
    var b := AfterAll(NEW, events);
    LedgerFollows(events);
    forall p: Pointer, i: nat | Holds(events, i, p) ensures Entered(b, events, i, p) {
      assert Follows(b, events, p);
    }
    forall p: Pointer ensures p in b.sizes <==> Live(events, p) {
      assert Follows(b, events, p);
    }
    forall p: Pointer ensures p in b.sites <==> exists i: nat :: Holds(events, i, p) && !ClearedAfter(events, i) {
      assert Follows(b, events, p);
      if p in b.sites {
        var i: nat :| Holds(events, i, p);
        assert Entered(b, events, i, p);
      }
    }
    forall sizes | SizesAre(events, sizes) ensures sizes == b.sizes {
      SameSizes(events, sizes, b.sizes);
    }
  }

  lemma SameSizes(events: seq<Event>, a: map<Pointer, int>, b: map<Pointer, int>)
    requires SizesAre(events, a) && SizesAre(events, b)
    ensures a == b
  {
    forall p | p in a ensures a[p] == b[p] {
      var i: nat :| Holds(events, i, p);
    }
  }

  /** The number of reports that count, and of releases of live pointers. */
  ghost function Allocations(events: seq<Event>): nat {
    if events == [] then 0
    else
      var n := |events| - 1;
      Allocations(events[..n]) + if exists p: Pointer :: Opens(events, n, p) then 1 else 0
  }

  ghost function Frees(events: seq<Event>): nat {
    if events == [] then 0
    else
      var init, e := events[..|events| - 1], events[|events| - 1];
      Frees(init) + if exists p: Pointer :: Releases(e, p) && Live(init, p) then 1 else 0
  }

  /** The two call counters. */
  lemma {:induction false} CallsAreCounted(events: seq<Event>)
    ensures AfterAll(NEW, events).mallocs == Allocations(events) && AfterAll(NEW, events).frees == Frees(events)
    decreases |events|
  {
    if events != [] {
      var init, e := events[..|events| - 1], events[|events| - 1];
      var b := AfterAll(NEW, init);
      assert events == init + [e];
      CallsAreCounted(init);
      LedgerFollows(init);
      AfterOneMore(NEW, init, e);
      NothingAtNull(init);
      forall p: Pointer ensures Opens(events, |init|, p) <==> p != 0 && Reports(e, p) && (Releases(e, p) || !b.Tracked(p)) {
        assert Follows(b, init, p);
        OpensNow(b, init, e, p);
        LedgerIsNatural(b, init, p);
      }
      forall p: Pointer ensures Live(init, p) <==> p in b.sizes {
        assert Follows(b, init, p);
      }
      CountsOneMore(b, e);
    }
  }

  lemma LedgerIsNatural(b: Books, events: seq<Event>, p: Pointer)
    requires Follows(b, events, p)
    ensures p in b.sizes ==> b.sizes[p] >= 0
  {
    if p in b.sizes {
      var i: nat :| Holds(events, i, p);
      assert Entered(b, events, i, p);
    }
  }

  lemma NothingAtNull(events: seq<Event>)
    ensures !Live(events, 0)
  {
  }

  lemma CountsOneMore(b: Books, e: Event)
    requires 0 !in b.sizes
    ensures After(b, e).mallocs ==
      b.mallocs + if exists p: Pointer :: p != 0 && Reports(e, p) && (Releases(e, p) || !b.Tracked(p)) then 1 else 0
    ensures After(b, e).frees == b.frees + if exists p: Pointer :: Releases(e, p) && p in b.sizes then 1 else 0
  {
    var p := match e case Malloc(ptr, _, _) => ptr case Realloc(_, newAddress, _, _) => newAddress case _ => 0;
    var q := match e case Free(ptr) => ptr case Realloc(oldAddress, _, _, _) => oldAddress case _ => 0;
    assert forall r: Pointer :: Reports(e, r) ==> r == p;
    assert forall r: Pointer :: Releases(e, r) ==> r == q;
    assert e.Malloc? || e.Realloc? ==> Reports(e, p);
    assert e.Free? || e.Realloc? ==> Releases(e, q);
  }

  /** A report of a pointer that is live already, with size 0. */
  ghost predicate Redoubles(events: seq<Event>, i: nat, p: Pointer) {
    Opens(events, i, p) && !Releases(events[i], p) && Live(events[..i], p)
  }

  lemma {:induction false} DoublesOneMore(b: Books, events: seq<Event>, e: Event)
    ensures NoneDoubles(b, events + [e]) <==> NoneDoubles(b, events) && !Doubles(AfterAll(b, events), e)
    decreases |events|
  {
    if events == [] {
      assert [] + [e] == [e] && [e][1..] == [];
      assert NoneDoubles(b, [e]) <==> !Doubles(b, e) && NoneDoubles(After(b, e), []);
    } else {
      assert (events + [e])[1..] == events[1..] + [e];
      DoublesOneMore(After(b, events[0]), events[1..], e);
    }
  }

  /** A run is free of double reports exactly when no report counts for a live pointer. */
  lemma {:induction false} NoneDoublesExactlyWhen(events: seq<Event>)
    ensures NoneDoubles(NEW, events) <==> forall i: nat, p: Pointer :: !Redoubles(events, i, p)
    decreases |events|
  {
    if events != [] {
      var init, e := events[..|events| - 1], events[|events| - 1];
      var n := |init|;
      assert events == init + [e] && events[..n] == init;
      NoneDoublesExactlyWhen(init);
      DoublesOneMore(NEW, init, e);
      forall i: nat, p: Pointer | i < n ensures Redoubles(events, i, p) <==> Redoubles(init, i, p) {
        assert events[..i] == init[..i];
        OpensAsBefore(init, e, i, p);
      }
      LedgerFollows(init);
      DoublesNow(AfterAll(NEW, init), init, e);
      if forall i: nat, p: Pointer :: !Redoubles(events, i, p) {
        forall i: nat, p: Pointer ensures !Redoubles(init, i, p) {
          if i < n {
            assert !Redoubles(events, i, p);
          }
        }
      }
    }
  }

  lemma DoublesNow(b: Books, init: seq<Event>, e: Event)
    requires forall p: Pointer :: Follows(b, init, p)
    ensures Doubles(b, e) <==> exists p: Pointer :: Redoubles(init + [e], |init|, p)
  {
    var events, n := init + [e], |init|;
    assert events[n] == e && events[..n] == init;
    NothingAtNull(init);
    forall p: Pointer
      ensures Redoubles(events, n, p) <==> Reports(e, p) && !Releases(e, p) && p in b.sizes && b.sizes[p] == 0
    {
      assert Follows(b, init, p);
      OpensNow(b, init, e, p);
      LedgerIsNatural(b, init, p);
    }
    if Doubles(b, e) {
      var p := if e.Malloc? then e.ptr else e.newAddress;
      assert Redoubles(events, n, p);
    }
  }

  /** Throughout a run of a new profiler that reports no live pointer twice: the memory counted is the sum
      of the sizes that the live pointers were reported with, the calls counted differ by their number,
      and every call site's statistics are the number and the sum over the live pointers reported from
      it since the last clearing. */
  lemma RunAddsUp(events: seq<Event>, sizes: map<Pointer, int>, sites: map<Pointer, Site>)
    requires (forall e :: e in events ==> Reported(e)) && forall i: nat, p: Pointer :: !Redoubles(events, i, p)
    requires SizesAre(events, sizes) && SitesAre(events, sites)
    ensures var b := AfterAll(NEW, events);
      && b.total == Sum(sizes) && b.mallocs - b.frees == |sizes|
      && forall loc :: SiteAddsUp(At(sizes, sites, loc), loc, b.atLoc)
  {
    var b := AfterAll(NEW, events);
    NoneDoublesExactlyWhen(events);
    BalancedFromNew(events);
    LedgerIsReported(events);
    SameSites(events, sites, b.sites);
  }

  lemma {:induction false} BalancedFromNew(events: seq<Event>)
    requires NoneDoubles(NEW, events) && forall e :: e in events ==> Reported(e)
    ensures AfterAll(NEW, events).Balanced()
    decreases |events|
  {
    if events == [] {
      NewIsBalanced(AfterAll(NEW, events));
    } else {
      var init, e := events[..|events| - 1], events[|events| - 1];
      assert events == init + [e];
      AfterOneMore(NEW, init, e);
      DoublesOneMore(NEW, init, e);
      BalancedFromNew(init);
      StepKeepsBalance(AfterAll(NEW, init), e);
    }
  }

  lemma SameSites(events: seq<Event>, a: map<Pointer, Site>, b: map<Pointer, Site>)
    requires SitesAre(events, a) && SitesAre(events, b)
    ensures a == b
  {
    forall p | p in a ensures a[p] == b[p] {
      var i: nat :| Holds(events, i, p) && !ClearedAfter(events, i);
    }
  }

  // ----- allocations made before the run

  ghost predicate CompleteBefore(events: seq<Event>, i: nat) {
    exists k :: 0 <= k < |events| && k < i && events[k].PreloadComplete?
  }

  /** Report `i` is the last one that counts for `p` before the page is loaded, and `p` has not been
      released since. */
  ghost predicate HoldsEarly(events: seq<Event>, i: nat, p: Pointer) {
    && Opens(events, i, p) && !CompleteBefore(events, i) && !ReleasedIn(events, i, |events|, p)
    && forall j: nat :: i < j < |events| && Opens(events, j, p) ==> CompleteBefore(events, j)
  }

  ghost predicate FollowsEarly(b: Books, events: seq<Event>, p: Pointer) {
    && (p in b.preRun <==> exists i: nat :: HoldsEarly(events, i, p))
    && (forall i: nat :: HoldsEarly(events, i, p) ==> p in b.preRun && b.preRun[p] == events[i].size)
    && (p in b.preRun ==> p in b.sizes)
    && (b.preRunDone <==> CompleteBefore(events, |events|))
  }

  lemma EarlyAtPointer(b: Books, e: Event, p: Pointer)
    requires p in b.preRun ==> p in b.sizes
    ensures var c := After(b, e);
      && (p in c.preRun ==> p in c.sizes) && (c.preRunDone <==> b.preRunDone || e.PreloadComplete?)
      && if p != 0 && Reports(e, p) && (Releases(e, p) || !b.Tracked(p)) && !b.preRunDone then
           p in c.preRun && c.preRun[p] == e.size
         else if p != 0 && Releases(e, p) then p !in c.preRun
         else (p in c.preRun <==> p in b.preRun) && (p in b.preRun ==> c.preRun[p] == b.preRun[p])
  {
    match e
    case Malloc(ptr, size, loc) => EarlyAtMalloc(b, ptr, size, loc, p);
    case Free(ptr) => EarlyAtFree(b, ptr, p);
    case Realloc(oldAddress, newAddress, size, loc) =>
      EarlyAtFree(b, oldAddress, p);
      EarlyAtMalloc(AfterFree(b, oldAddress), newAddress, size, loc, p);
    case _ =>
  }

  lemma EarlyAtMalloc(b: Books, ptr: Pointer, size: nat, loc: Site, p: Pointer)
    requires p in b.preRun ==> p in b.sizes
    ensures var c := AfterMalloc(b, ptr, size, loc);
      && (p in c.preRun ==> p in c.sizes) && c.preRunDone == b.preRunDone
      && if p != 0 && p == ptr && !b.Tracked(p) && !b.preRunDone then p in c.preRun && c.preRun[p] == size
         else (p in c.preRun <==> p in b.preRun) && (p in b.preRun ==> c.preRun[p] == b.preRun[p])
  {
  }

  lemma EarlyAtFree(b: Books, ptr: Pointer, p: Pointer)
    requires p in b.preRun ==> p in b.sizes
    ensures var c := AfterFree(b, ptr);
      && (p in c.preRun ==> p in c.sizes) && c.preRunDone == b.preRunDone
      && if p != 0 && p == ptr then p !in c.preRun && p !in c.sizes
         else
           && (p in c.preRun <==> p in b.preRun) && (p in b.preRun ==> c.preRun[p] == b.preRun[p])
           && (p in c.sizes <==> p in b.sizes) && (p in b.sizes ==> c.sizes[p] == b.sizes[p])
  {
  }

  lemma CompleteAsBefore(events: seq<Event>, e: Event, i: nat)
    ensures i <= |events| ==> (CompleteBefore(events + [e], i) <==> CompleteBefore(events, i))
    ensures CompleteBefore(events + [e], |events| + 1) <==> CompleteBefore(events, |events|) || e.PreloadComplete?
  {
    var more := events + [e];
    if k :| 0 <= k < |events| && k < i && events[k].PreloadComplete? {
      assert more[k] == events[k];
    }
    if k :| 0 <= k < |events| && k < |events| && events[k].PreloadComplete? {
      assert more[k] == events[k];
    }
    assert more[|events|] == e;
  }

  lemma HoldsEarlyAsBefore(events: seq<Event>, e: Event, i: nat, p: Pointer)
    requires !Opens(events + [e], |events|, p) || CompleteBefore(events, |events|)
    ensures HoldsEarly(events + [e], i, p) <==> HoldsEarly(events, i, p) && !Releases(e, p)
  {
    var more := events + [e];
    forall j: nat | j <= |events|
      ensures (j < |events| ==> (Opens(more, j, p) <==> Opens(events, j, p)))
      ensures CompleteBefore(more, j) <==> CompleteBefore(events, j)
    {
      CompleteAsBefore(events, e, j);
      if j < |events| {
        OpensAsBefore(events, e, j, p);
      }
    }
    if i < |events| {
      ReleasedAsBefore(events, e, i, |events|, p);
    }
  }

  lemma EarlyOneMore(b: Books, events: seq<Event>, e: Event, p: Pointer)
    requires Follows(b, events, p) && FollowsEarly(b, events, p)
    ensures FollowsEarly(After(b, e), events + [e], p)
  {
    var more, n := events + [e], |events|;
    OpensNow(b, events, e, p);
    LedgerIsNatural(b, events, p);
    EarlyAtPointer(b, e, p);
    CompleteAsBefore(events, e, n);
    if Opens(more, n, p) && !b.preRunDone {
      assert HoldsEarly(more, n, p);
      forall i: nat | HoldsEarly(more, i, p) ensures i == n {}
    } else {
      forall i: nat ensures HoldsEarly(more, i, p) <==> HoldsEarly(events, i, p) && !Releases(e, p) {
        HoldsEarlyAsBefore(events, e, i, p);
      }
      if i: nat :| HoldsEarly(events, i, p) && !Releases(e, p) {
        assert HoldsEarly(more, i, p);
      }
    }
  }

  /** After any run of a new profiler, the pointers listed as allocated before the run are those whose last
      report before the page was loaded still holds, with the size it gave. */
  lemma {:induction false} EarlyLedgerFollows(events: seq<Event>)
    ensures forall p: Pointer :: FollowsEarly(AfterAll(NEW, events), events, p)
    decreases |events|
  {
    if events != [] {
      var init, e := events[..|events| - 1], events[|events| - 1];
      assert events == init + [e];
      EarlyLedgerFollows(init);
      LedgerFollows(init);
      AfterOneMore(NEW, init, e);
      forall p: Pointer ensures FollowsEarly(AfterAll(NEW, events), events, p) {
        assert Follows(AfterAll(NEW, init), init, p) && FollowsEarly(AfterAll(NEW, init), init, p);
        EarlyOneMore(AfterAll(NEW, init), init, e, p);
      }
    }
  }
}
