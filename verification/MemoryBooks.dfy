/** Allocation accounting of the memory profiler (src/memoryprofiler.js), on values: the ledger of live
    pointers with their sizes and call sites, and the totals and statistics that must be what the ledger
    adds up to. */
module MemoryBooks {
  import opened MapSums

  type Pointer = nat   // 0 is the null pointer
  type Site = string   // a callstack

  datatype Stats = Stats(count: int, bytes: int)

  /** The sizes of the pointers recorded at `loc`. */
  function At(sizes: map<Pointer, int>, sites: map<Pointer, Site>, loc: Site): map<Pointer, int> {
    map p: Pointer | p in sites && p in sizes && sites[p] == loc :: sizes[p]
  }

  /** A site has an entry exactly when some live pointer is recorded there; its numbers are the
      count and the sum over those pointers. */
  ghost predicate SitesAddUp(sizes: map<Pointer, int>, sites: map<Pointer, Site>, atLoc: map<Site, Stats>) {
    && sites.Keys <= sizes.Keys
    && forall loc {:trigger At(sizes, sites, loc)} :: SiteAddsUp(At(sizes, sites, loc), loc, atLoc)
  }

  ghost predicate SiteAddsUp(at: map<Pointer, int>, loc: Site, atLoc: map<Site, Stats>) {
    && (loc in atLoc <==> at != map[])
    && (loc in atLoc ==> atLoc[loc] == Stats(|at|, Sum(at)) && atLoc[loc].count > 0)
  }

  /** The ledger leaves no choice in the statistics. */
  lemma LedgerDeterminesStatistics(sizes: map<Pointer, int>, sites: map<Pointer, Site>,
                                   a: map<Site, Stats>, b: map<Site, Stats>)
    requires SitesAddUp(sizes, sites, a) && SitesAddUp(sizes, sites, b)
    ensures a == b
  {
    forall loc ensures (loc in a <==> loc in b) && (loc in a ==> a[loc] == b[loc]) {
      assert SiteAddsUp(At(sizes, sites, loc), loc, a) && SiteAddsUp(At(sizes, sites, loc), loc, b);
    }
  }

  lemma AtRecord(sizes: map<Pointer, int>, sites: map<Pointer, Site>, ptr: Pointer, size: int, loc: Site, l: Site)
    requires ptr !in sites
    ensures At(sizes[ptr := size], sites[ptr := loc], l) ==
      if l == loc then At(sizes, sites, l)[ptr := size] else At(sizes, sites, l)
  {
  }

  lemma AtForget(sizes: map<Pointer, int>, sites: map<Pointer, Site>, ptr: Pointer, l: Site)
    ensures At(sizes - {ptr}, sites - {ptr}, l) ==
      if ptr in sites && sites[ptr] == l then At(sizes, sites, l) - {ptr} else At(sizes, sites, l)
  {
  }

  function Counted(atLoc: map<Site, Stats>, loc: Site, size: int): map<Site, Stats> {
    var before := if loc in atLoc then atLoc[loc] else Stats(0, 0);
    atLoc[loc := Stats(before.count + 1, before.bytes + size)]
  }

  function Uncounted(atLoc: map<Site, Stats>, loc: Site, size: int): map<Site, Stats> {
    if loc !in atLoc then atLoc
    else
      var left := Stats(atLoc[loc].count - 1, atLoc[loc].bytes - size);
      if left.count <= 0 then atLoc - {loc} else atLoc[loc := left]
  }

  lemma SiteGains(at: map<Pointer, int>, loc: Site, atLoc: map<Site, Stats>, ptr: Pointer, size: int)
    requires SiteAddsUp(at, loc, atLoc) && ptr !in at
    ensures SiteAddsUp(at[ptr := size], loc, Counted(atLoc, loc, size))
  {
    SumUpdate(at, ptr, size);
    assert at == map[] ==> Sum(at) == 0 && |at| == 0;
  }

  lemma SiteLoses(at: map<Pointer, int>, loc: Site, atLoc: map<Site, Stats>, ptr: Pointer)
    requires SiteAddsUp(at, loc, atLoc) && ptr in at
    ensures SiteAddsUp(at - {ptr}, loc, Uncounted(atLoc, loc, at[ptr]))
  {
    SumRemove(at, ptr);
    RemoveOne(at, ptr);
  }

  lemma RemoveOne(m: map<Pointer, int>, ptr: Pointer)
    requires ptr in m
    ensures |m - {ptr}| == |m| - 1
  {
    assert (m - {ptr}).Keys == m.Keys - {ptr};
    assert |m.Keys| == |m| && |(m - {ptr}).Keys| == |m - {ptr}|;
  }

  /** Recording a new pointer at a site keeps every site's numbers right. */
  lemma RecordAddsUp(sizes: map<Pointer, int>, sites: map<Pointer, Site>, atLoc: map<Site, Stats>,
                     ptr: Pointer, size: int, loc: Site)
    requires SitesAddUp(sizes, sites, atLoc) && ptr !in sizes
    ensures SitesAddUp(sizes[ptr := size], sites[ptr := loc], Counted(atLoc, loc, size))
  {
    var sizes', sites', atLoc' := sizes[ptr := size], sites[ptr := loc], Counted(atLoc, loc, size);
    forall l ensures SiteAddsUp(At(sizes', sites', l), l, atLoc') {
      assert SiteAddsUp(At(sizes, sites, l), l, atLoc);
      AtRecord(sizes, sites, ptr, size, loc, l);
      if l == loc {
        SiteGains(At(sizes, sites, l), l, atLoc, ptr, size);
      }
    }
  }

  /** Forgetting a pointer keeps every site's numbers right, and drops a site that has none left. */
  lemma ForgetAddsUp(sizes: map<Pointer, int>, sites: map<Pointer, Site>, atLoc: map<Site, Stats>, ptr: Pointer)
    requires SitesAddUp(sizes, sites, atLoc) && ptr in sizes
    ensures SitesAddUp(sizes - {ptr}, sites - {ptr}, if ptr in sites then Uncounted(atLoc, sites[ptr], sizes[ptr]) else atLoc)
    ensures ptr in sites ==> sites[ptr] in atLoc
  {
    var sizes', sites' := sizes - {ptr}, sites - {ptr};
    var atLoc' := if ptr in sites then Uncounted(atLoc, sites[ptr], sizes[ptr]) else atLoc;
    forall l ensures SiteAddsUp(At(sizes', sites', l), l, atLoc') {
      assert SiteAddsUp(At(sizes, sites, l), l, atLoc);
      AtForget(sizes, sites, ptr, l);
      if ptr in sites && l == sites[ptr] {
        SiteLoses(At(sizes, sites, l), l, atLoc, ptr);
      }
    }
    if ptr in sites {
      assert SiteAddsUp(At(sizes, sites, sites[ptr]), sites[ptr], atLoc);
      assert ptr in At(sizes, sites, sites[ptr]);
    }
  }

  /** Everything the profiler keeps about allocations. */
  datatype Books = Books(sizes: map<Pointer, int>, sites: map<Pointer, Site>, preRun: map<Pointer, int>,
                         atLoc: map<Site, Stats>, total: int, mallocs: int, frees: int, preRunDone: bool)
  {
    /** JavaScript's test of sizeOfAllocatedPtr[ptr] also fails for a recorded size of 0. */
    predicate Tracked(ptr: Pointer) {
      ptr in sizes && sizes[ptr] != 0
    }

    /** Every total is what the ledger adds up to. */
    ghost predicate Balanced() {
      && total == Sum(sizes)
      && mallocs - frees == |sizes|
      && 0 !in sizes
      && SitesAddUp(sizes, sites, atLoc)
      && (forall p: Pointer :: p in sites ==> sites[p] != "")
      && (forall p: Pointer :: p in preRun ==> p in sizes && preRun[p] == sizes[p])
    }
  }

  /** The ledger after a malloc has been reported. */
  function AfterMalloc(b: Books, ptr: Pointer, size: nat, loc: Site): Books {
    if ptr == 0 || b.Tracked(ptr) then b
    else Books(b.sizes[ptr := size], b.sites[ptr := loc], if b.preRunDone then b.preRun else b.preRun[ptr := size],
               Counted(b.atLoc, loc, size), b.total + size, b.mallocs + 1, b.frees, b.preRunDone)
  }

  function AfterFree(b: Books, ptr: Pointer): Books {
    if ptr == 0 || ptr !in b.sizes then b
    else Books(b.sizes - {ptr}, b.sites - {ptr}, b.preRun - {ptr},
               if ptr in b.sites && b.sites[ptr] != "" then Uncounted(b.atLoc, b.sites[ptr], b.sizes[ptr]) else b.atLoc,
               b.total - b.sizes[ptr], b.mallocs, b.frees + 1, b.preRunDone)
  }

  /** The "clear" button: live pointers stay in the totals but belong to no site any more. */
  function AfterClear(b: Books): Books {
    b.(atLoc := map[], sites := map[])
  }

  /** A malloc keeps the books balanced exactly unless a pointer recorded with size 0 is reported
      again: that one is counted twice. */
  lemma MallocKeepsBalance(b: Books, ptr: Pointer, size: nat, loc: Site)
    requires b.Balanced() && loc != ""
    ensures AfterMalloc(b, ptr, size, loc).Balanced() <==> !(ptr in b.sizes && b.sizes[ptr] == 0)
  {
    if ptr in b.sizes {
      MallocAgain(b, ptr, size, loc);
    } else {
      MallocFresh(b, ptr, size, loc);
    }
  }

  lemma MallocFresh(b: Books, ptr: Pointer, size: nat, loc: Site)
    requires b.Balanced() && loc != "" && ptr !in b.sizes
    ensures AfterMalloc(b, ptr, size, loc).Balanced()
  {
    RecordAddsUp(b.sizes, b.sites, b.atLoc, ptr, size, loc);
    SumUpdate(b.sizes, ptr, size);
  }

  lemma MallocAgain(b: Books, ptr: Pointer, size: nat, loc: Site)
    requires b.Balanced() && loc != "" && ptr in b.sizes
    ensures AfterMalloc(b, ptr, size, loc).Balanced() <==> b.sizes[ptr] != 0
  {
    SumUpdate(b.sizes, ptr, size);
  }

  lemma FreeKeepsBalance(b: Books, ptr: Pointer)
    requires b.Balanced()
    ensures AfterFree(b, ptr).Balanced()
  {
    if ptr in b.sizes {
      SumRemove(b.sizes, ptr);
      RemoveOne(b.sizes, ptr);
      ForgetAddsUp(b.sizes, b.sites, b.atLoc, ptr);
    }
  }

  lemma ClearKeepsBalance(b: Books)
    requires b.Balanced()
    ensures AfterClear(b).Balanced()
  {
    var none: map<Pointer, Site> := map[];
    forall loc ensures SiteAddsUp(At(b.sizes, none, loc), loc, map[]) {
      assert At(b.sizes, none, loc) == map[];
    }
  }

  lemma CountsArePositive(sizes: map<Pointer, int>, sites: map<Pointer, Site>, atLoc: map<Site, Stats>, loc: Site)
    requires SitesAddUp(sizes, sites, atLoc) && loc in atLoc
    ensures atLoc[loc].count > 0
  {
    assert SiteAddsUp(At(sizes, sites, loc), loc, atLoc);
  }

  lemma UndoOnValues(b: Books, ptr: Pointer, size: nat, loc: Site)
    requires ptr !in b.sizes && ptr !in b.sites && ptr !in b.preRun && ptr != 0 && loc != ""
    requires loc in b.atLoc ==> b.atLoc[loc].count > 0
    ensures AfterFree(AfterMalloc(b, ptr, size, loc), ptr) == b.(mallocs := b.mallocs + 1, frees := b.frees + 1)
  {
    UncountedUndoes(b.atLoc, loc, size);
    RemovedAgain(b.sizes, ptr, size);
    RemovedAgain(b.sites, ptr, loc);
    RemovedAgain(b.preRun, ptr, size);
  }

  lemma RemovedAgain<T>(m: map<Pointer, T>, ptr: Pointer, x: T)
    requires ptr !in m
    ensures m[ptr := x] - {ptr} == m && m - {ptr} == m
  {
  }

  lemma UncountedUndoes(atLoc: map<Site, Stats>, loc: Site, size: int)
    requires loc in atLoc ==> atLoc[loc].count > 0
    ensures Uncounted(Counted(atLoc, loc, size), loc, size) == atLoc
  {
    if loc !in atLoc {
      assert atLoc[loc := Stats(1, size)] - {loc} == atLoc;
    }
  }

  /** A free takes back everything that the malloc of a new pointer did to sizes, sites, statistics
      and total. */
  lemma FreeUndoesMalloc(b: Books, ptr: Pointer, size: nat, loc: Site)
    requires b.Balanced() && loc != "" && ptr !in b.sizes && ptr != 0
    ensures AfterFree(AfterMalloc(b, ptr, size, loc), ptr) == b.(mallocs := b.mallocs + 1, frees := b.frees + 1)
  {
    if loc in b.atLoc {
      CountsArePositive(b.sizes, b.sites, b.atLoc, loc);
    }
    UndoOnValues(b, ptr, size, loc);
  }

  datatype Event =
    | Malloc(ptr: Pointer, size: nat, loc: Site)
    | Free(ptr: Pointer)
    | Realloc(oldAddress: Pointer, newAddress: Pointer, size: nat, loc: Site)
    | PreloadComplete
    | ClearStats

  function After(b: Books, e: Event): Books {
    match e
    case Malloc(ptr, size, loc) => AfterMalloc(b, ptr, size, loc)
    case Free(ptr) => AfterFree(b, ptr)
    case Realloc(oldAddress, newAddress, size, loc) => AfterMalloc(AfterFree(b, oldAddress), newAddress, size, loc)
    case PreloadComplete => b.(preRunDone := true)
    case ClearStats => AfterClear(b)
  }

  function AfterAll(b: Books, events: seq<Event>): Books
    decreases |events|
  {
    if events == [] then b else AfterAll(After(b, events[0]), events[1..])
  }

  /** What the handlers may count on: call stacks are not empty. */
  predicate Reported(e: Event) {
    e.Malloc? || e.Realloc? ==> e.loc != ""
  }

  /** The event reports a pointer that is live with size 0 once more. */
  predicate Doubles(b: Books, e: Event) {
    match e
    case Malloc(ptr, _, _) => ptr in b.sizes && b.sizes[ptr] == 0
    case Realloc(oldAddress, newAddress, _, _) =>
      newAddress != oldAddress && newAddress in b.sizes && b.sizes[newAddress] == 0
    case _ => false
  }

  /** A new profiler's. */
  const NEW := Books(map[], map[], map[], map[], 0, 0, 0, false)

  lemma NewIsBalanced(b: Books)
    requires b == NEW
    ensures b.Balanced()
  {
    forall loc ensures SiteAddsUp(At(b.sizes, b.sites, loc), loc, b.atLoc) {
      assert At(b.sizes, b.sites, loc) == map[];
    }
  }

  lemma {:induction false} AfterOneMore(b: Books, events: seq<Event>, e: Event)
    ensures AfterAll(b, events + [e]) == After(AfterAll(b, events), e)
    decreases |events|
  {
    if events == [] {
      assert [] + [e] == [e];
      assert AfterAll(b, [e]) == AfterAll(After(b, e), []);
    } else {
      assert (events + [e])[1..] == events[1..] + [e];
      AfterOneMore(After(b, events[0]), events[1..], e);
    }
  }

  /** No event of the run does. */
  predicate NoneDoubles(b: Books, events: seq<Event>)
    decreases |events|
  {
    events != [] ==> !Doubles(b, events[0]) && NoneDoubles(After(b, events[0]), events[1..])
  }

  ghost predicate BalancedThroughout(b: Books, events: seq<Event>) {
    forall k :: 0 <= k <= |events| ==> AfterAll(b, events[..k]).Balanced()
  }

  ghost predicate Positive(b: Books) {
    forall p: Pointer :: p in b.sizes ==> b.sizes[p] > 0
  }

  lemma ReallocKeepsBalance(b: Books, oldAddress: Pointer, newAddress: Pointer, size: nat, loc: Site)
    requires b.Balanced() && loc != ""
    ensures AfterMalloc(AfterFree(b, oldAddress), newAddress, size, loc).Balanced() <==>
      !(newAddress != oldAddress && newAddress in b.sizes && b.sizes[newAddress] == 0)
  {
    var c := AfterFree(b, oldAddress);
    assert c.Balanced() by {
      FreeKeepsBalance(b, oldAddress);
    }
    assert 0 !in b.sizes;
    MallocKeepsBalance(c, newAddress, size, loc);
  }

  lemma StepKeepsBalance(b: Books, e: Event)
    requires b.Balanced() && Reported(e)
    ensures After(b, e).Balanced() <==> !Doubles(b, e)
  {
    match e
    case Malloc(ptr, size, loc) => MallocKeepsBalance(b, ptr, size, loc);
    case Free(ptr) => FreeKeepsBalance(b, ptr);
    case Realloc(oldAddress, newAddress, size, loc) => ReallocKeepsBalance(b, oldAddress, newAddress, size, loc);
    case PreloadComplete =>
    case ClearStats => ClearKeepsBalance(b);
  }

  lemma FirstThenRest(b: Books, events: seq<Event>)
    requires events != []
    ensures BalancedThroughout(b, events) <==> b.Balanced() && BalancedThroughout(After(b, events[0]), events[1..])
  {
    var c, rest := After(b, events[0]), events[1..];
    forall k | 0 <= k <= |rest| ensures AfterAll(b, events[..k + 1]) == AfterAll(c, rest[..k]) {
      assert events[..k + 1][1..] == rest[..k];
    }
    assert events[..0] == [];
    if BalancedThroughout(b, events) {
      forall k | 0 <= k <= |rest| ensures AfterAll(c, rest[..k]).Balanced() {
        assert AfterAll(b, events[..k + 1]).Balanced();
      }
    }
    if b.Balanced() && BalancedThroughout(c, rest) {
      forall k | 0 <= k <= |events| ensures AfterAll(b, events[..k]).Balanced() {
        if k > 0 {
          assert AfterAll(c, rest[..k - 1]).Balanced();
        }
      }
    }
  }

  /** Every total and every site's numbers are right throughout a run of the handlers, if and only if no
      live pointer of size 0 is reported again. */
  lemma {:induction false} RunBalancedExactlyWhen(b: Books, events: seq<Event>)
    requires b.Balanced() && forall e :: e in events ==> Reported(e)
    ensures BalancedThroughout(b, events) <==> NoneDoubles(b, events)
    decreases |events|
  {
    if events == [] {
      assert events[..0] == [];
    } else {
      assert events[0] in events;
      StepKeepsBalance(b, events[0]);
      FirstThenRest(b, events);
      if Doubles(b, events[0]) {
        assert events[1..][..0] == [];
        assert !AfterAll(After(b, events[0]), events[1..][..0]).Balanced();
      } else {
        RunBalancedExactlyWhen(After(b, events[0]), events[1..]);
      }
    }
  }

  /** In particular they are right after such a run. */
  lemma RunKeepsBalance(b: Books, events: seq<Event>)
    requires b.Balanced() && NoneDoubles(b, events) && forall e :: e in events ==> Reported(e)
    ensures AfterAll(b, events).Balanced()
  {
    RunBalancedExactlyWhen(b, events);
    assert events[..|events|] == events;
  }

  /** Runs in which no allocation has size 0 are such runs. */
  lemma {:induction false} PositiveSizesDoNotDouble(b: Books, events: seq<Event>)
    requires Positive(b) && forall e :: e in events ==> (e.Malloc? || e.Realloc? ==> e.size > 0)
    ensures NoneDoubles(b, events) && Positive(AfterAll(b, events))
    decreases |events|
  {
    if events != [] {
      assert events[0] in events;
      PositiveSizesDoNotDouble(After(b, events[0]), events[1..]);
    }
  }
}
