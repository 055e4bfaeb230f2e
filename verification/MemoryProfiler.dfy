/** The memory profiler as an object (src/memoryprofiler.js): handlers called on every malloc, free and
    realloc keep the books. */
module MemoryProfilers {
  import opened MemoryBooks
  import opened MemoryReports

  class MemoryProfiler {
    var allocationsAtLoc: map<Site, Stats>
    var allocationSitePtrs: map<Pointer, Site>
    var sizeOfAllocatedPtr: map<Pointer, int>
    var sizeOfPreRunAllocatedPtr: map<Pointer, int>
    var pagePreRunIsFinished: bool
    var totalMemoryAllocated: int
    var totalTimesMallocCalled: int
    var totalTimesFreeCalled: int

    ghost function Recorded(): Books
      reads this
    {
      Books(sizeOfAllocatedPtr, allocationSitePtrs, sizeOfPreRunAllocatedPtr, allocationsAtLoc,
            totalMemoryAllocated, totalTimesMallocCalled, totalTimesFreeCalled, pagePreRunIsFinished)
    }

    constructor ()
      ensures Recorded() == NEW && Recorded().Balanced()
    {
      allocationsAtLoc := map[];
      allocationSitePtrs := map[];
      sizeOfAllocatedPtr := map[];
      sizeOfPreRunAllocatedPtr := map[];
      pagePreRunIsFinished := false;
      totalMemoryAllocated := 0;
      totalTimesMallocCalled := 0;
      totalTimesFreeCalled := 0;
      new;
      NewIsBalanced(Recorded());
    }

    method OnMalloc(ptr: Pointer, size: nat, loc: Site)
      modifies this
      ensures Recorded() == AfterMalloc(old(Recorded()), ptr, size, loc)
      ensures ptr != 0 && (ptr !in old(sizeOfAllocatedPtr) || old(sizeOfAllocatedPtr)[ptr] == 0) ==>
        && sizeOfAllocatedPtr == old(sizeOfAllocatedPtr)[ptr := size] && allocationSitePtrs == old(allocationSitePtrs)[ptr := loc]
        && totalMemoryAllocated == old(totalMemoryAllocated) + size && totalTimesMallocCalled == old(totalTimesMallocCalled) + 1
    {
      if ptr == 0 || (ptr in sizeOfAllocatedPtr && sizeOfAllocatedPtr[ptr] != 0) {
        return;
      }
      totalMemoryAllocated := totalMemoryAllocated + size;
      totalTimesMallocCalled := totalTimesMallocCalled + 1;
      sizeOfAllocatedPtr := sizeOfAllocatedPtr[ptr := size];
      if !pagePreRunIsFinished {
        sizeOfPreRunAllocatedPtr := sizeOfPreRunAllocatedPtr[ptr := size];
      }
      var stats := if loc in allocationsAtLoc then allocationsAtLoc[loc] else Stats(0, 0);
      allocationsAtLoc := allocationsAtLoc[loc := Stats(stats.count + 1, stats.bytes + size)];
      allocationSitePtrs := allocationSitePtrs[ptr := loc];
    }

    method OnFree(ptr: Pointer)
      modifies this
      ensures Recorded() == AfterFree(old(Recorded()), ptr)
    {
      if ptr == 0 || ptr !in sizeOfAllocatedPtr {
        return;
      }
      var sz := sizeOfAllocatedPtr[ptr];
      totalMemoryAllocated := totalMemoryAllocated - sz;
      if ptr in allocationSitePtrs && allocationSitePtrs[ptr] != "" {
        var loc := allocationSitePtrs[ptr];
        if loc in allocationsAtLoc {
          var left := Stats(allocationsAtLoc[loc].count - 1, allocationsAtLoc[loc].bytes - sz);
          allocationsAtLoc := if left.count <= 0 then allocationsAtLoc - {loc} else allocationsAtLoc[loc := left];
        }
      }
      allocationSitePtrs := allocationSitePtrs - {ptr};
      sizeOfAllocatedPtr := sizeOfAllocatedPtr - {ptr};
      sizeOfPreRunAllocatedPtr := sizeOfPreRunAllocatedPtr - {ptr};
      totalTimesFreeCalled := totalTimesFreeCalled + 1;
    }

    method OnRealloc(oldAddress: Pointer, newAddress: Pointer, size: nat, loc: Site)
      modifies this
      ensures Recorded() == AfterMalloc(AfterFree(old(Recorded()), oldAddress), newAddress, size, loc)
    {
      OnFree(oldAddress);
      OnMalloc(newAddress, size, loc);
    }

    method OnPreloadComplete()
      modifies this`pagePreRunIsFinished
      ensures Recorded() == old(Recorded()).(preRunDone := true)
    {
      pagePreRunIsFinished := true;
    }

    method ClearAllocStats()
      modifies this`allocationsAtLoc, this`allocationSitePtrs
      ensures Recorded() == AfterClear(old(Recorded()))
    {
      allocationsAtLoc := map[];
      allocationSitePtrs := map[];
    }

    /** One handler call after another. */
    method Replay(events: seq<Event>)
      requires Recorded().Balanced() && forall e :: e in events ==> Reported(e)
      modifies this
      ensures Recorded() == AfterAll(old(Recorded()), events)
      ensures NoneDoubles(old(Recorded()), events) ==> Recorded().Balanced()
      ensures old(Recorded()) == NEW ==> forall p: Pointer :: Follows(Recorded(), events, p)
    {
      LedgerFollows(events);
      if NoneDoubles(Recorded(), events) {
        RunKeepsBalance(Recorded(), events);
      }
      var i := 0;
      while i < |events|
        invariant 0 <= i <= |events|
        invariant AfterAll(Recorded(), events[i..]) == AfterAll(old(Recorded()), events)
      {
        match events[i] {
          case Malloc(ptr, size, loc) => OnMalloc(ptr, size, loc);
          case Free(ptr) => OnFree(ptr);
          case Realloc(oldAddress, newAddress, size, loc) => OnRealloc(oldAddress, newAddress, size, loc);
          case PreloadComplete => OnPreloadComplete();
          case ClearStats => ClearAllocStats();
        }
        assert events[i..][1..] == events[i + 1..];
        i := i + 1;
      }
    }
  }
}
