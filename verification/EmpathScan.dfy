/** How empath-split finds a function's source file (tools/empath-split.py, lines 203-228): it walks
    backwards from the function's last byte until the source map gives a location with a source. */
module EmpathScan {
  import opened Options
  import opened SourceMapText
  import opened WasmSourceMaps

  function SourceOf(a: Answer): Option<string> {
    if a.Found? && a.info.source.Some? && a.info.source.value != "" then a.info.source else None
  }

  /** The source recorded at exactly this offset, if the offset is mapped. */
  ghost function SourceAt(entries: seq<Entry>, sources: seq<string>, funcs: seq<string>, o: int): Option<string> {
    if o in MapOf(entries) then SourceOf(Describe(MapOf(entries)[o], sources, funcs)) else None
  }

  /** The greatest offset above `low`, up to `high`, that has a source: a scan byte by byte. */
  ghost function GreatestSourced(entries: seq<Entry>, sources: seq<string>, funcs: seq<string>, low: int, high: int): Option<int>
    decreases high - low
  {
    if high <= low then None
    else if SourceAt(entries, sources, funcs, high).Some? then Some(high)
    else GreatestSourced(entries, sources, funcs, low, high - 1)
  }

  /** The source of a function that starts at `start`: the greatest sourced mapping strictly inside its
      body; if there is none, the mapping at the start counts, but only if the next byte has none. */
  ghost function BodySource(entries: seq<Entry>, sources: seq<string>, funcs: seq<string>, start: int, end: int): Option<string> {
    var inside := GreatestSourced(entries, sources, funcs, start, end);
    if inside.Some? then SourceAt(entries, sources, funcs, inside.value)
    else if start + 1 !in MapOf(entries) then SourceAt(entries, sources, funcs, start)
    else None
  }

  /** Nothing is mapped between the nearest offset and the address it was asked for. */
  lemma NearestIsAlone(entries: seq<Entry>, addr: int)
    ensures var n := Greatest(OffsetsOf(entries), addr);
      && (forall o :: (n.Some? ==> n.value < o) && o <= addr ==> o !in MapOf(entries))
      && (n.Some? ==> n.value <= addr && n.value in MapOf(entries))
  {
    GreatestIsGreatest(OffsetsOf(entries), addr);
    MapOfKeys(entries);
    forall o | o in MapOf(entries) && o <= addr
      ensures Greatest(OffsetsOf(entries), addr).Some? && o <= Greatest(OffsetsOf(entries), addr).value
    {
      assert o in OffsetsOf(entries);
    }
  }

  lemma {:induction false} SkipUnmapped(entries: seq<Entry>, sources: seq<string>, funcs: seq<string>, low: int, mid: int, high: int)
    requires low <= mid <= high && forall o :: mid < o <= high ==> SourceAt(entries, sources, funcs, o).None?
    ensures GreatestSourced(entries, sources, funcs, low, high) == GreatestSourced(entries, sources, funcs, low, mid)
    decreases high - mid
  {
    if mid < high {
      SkipUnmapped(entries, sources, funcs, low, mid, high - 1);
    }
  }

  lemma ClosedNeverRaises(entries: seq<Entry>, sources: seq<string>, funcs: seq<string>, o: int)
    requires Closed(entries, sources, funcs) && o in MapOf(entries)
    ensures Describe(MapOf(entries)[o], sources, funcs).Found?
  {
    MapOfEntry(entries, o);
  }

  /** The answer `a` for `addr` comes from offset `n`, the last one mapped at or before `addr`. */
  ghost predicate ComesFrom(entries: seq<Entry>, sources: seq<string>, funcs: seq<string>, a: Answer, addr: int, n: int) {
    && n <= addr && n in MapOf(entries) && SourceOf(a) == SourceAt(entries, sources, funcs, n)
    && (forall o :: n < o <= addr ==> o !in MapOf(entries))
  }

  /** One look at `addr` inside the body of a function starting at `start`. */
  lemma LookInside(entries: seq<Entry>, sources: seq<string>, funcs: seq<string>, start: int, addr: int)
    requires Closed(entries, sources, funcs) && 0 < start < addr
    ensures var a := LookedUp(entries, sources, funcs, addr, Some(start));
      && !a.Raised?
      && (a.NotFound? ==> forall o :: start <= o <= addr ==> o !in MapOf(entries))
      && (a.Found? ==> exists n :: start <= n && ComesFrom(entries, sources, funcs, a, addr, n))
  {
    NearestIsAlone(entries, addr);
    var n := Greatest(OffsetsOf(entries), addr);
    if n.Some? && n.value >= start {
      ClosedNeverRaises(entries, sources, funcs, n.value);
      assert ComesFrom(entries, sources, funcs, LookedUp(entries, sources, funcs, addr, Some(start)), addr, n.value);
    }
  }

  /** The variable `loc` after the loop; None says that it was never set. A body of fewer than two bytes
      leaves it as the function before left it; in any other it holds the body's source. */
  method FunctionSource(sm: WasmSourceMap, start: int, size: nat, before: Option<Answer>) returns (loc: Option<Answer>)
    requires sm.Valid() && Closed(sm.entries, sm.sources, sm.funcs) && start > 0
    ensures size >= 2 ==> loc.Some? && SourceOf(loc.value) == BodySource(sm.entries, sm.sources, sm.funcs, start, start + size - 1)
    ensures size < 2 ==> loc == before
  {
    loc := before;
    if size >= 2 {
      var found := ScanBody(sm, start, start + size - 1);
      loc := Some(found);
    }
  }

  /** The loop from the last address `end` down to the start, which it does not reach. */
  method ScanBody(sm: WasmSourceMap, start: int, end: int) returns (loc: Answer)
    requires sm.Valid() && Closed(sm.entries, sm.sources, sm.funcs) && 0 < start < end
    ensures SourceOf(loc) == BodySource(sm.entries, sm.sources, sm.funcs, start, end)
  {
    ghost var entries, sources, funcs := sm.entries, sm.sources, sm.funcs;
    var addr := end;
    loc := NotFound;
    while addr > start
      invariant start <= addr <= end
      invariant forall o :: addr < o <= end ==> SourceAt(entries, sources, funcs, o).None?
      invariant SourceOf(loc).None?
      invariant addr == start && start + 1 !in MapOf(entries) ==> SourceAt(entries, sources, funcs, start).None?
      decreases addr - start
    {
      LookInside(entries, sources, funcs, start, addr);
      SkipUnmapped(entries, sources, funcs, start, addr, end);
      loc := sm.Lookup(addr, Some(start));
      if loc.NotFound? {
        SkipUnmapped(entries, sources, funcs, start, start, addr);
        return;
      }
      ghost var n :| start <= n && ComesFrom(entries, sources, funcs, loc, addr, n);
      SkipUnmapped(entries, sources, funcs, start, n, addr);
      if SourceOf(loc).Some? {
        return;
      }
      addr := addr - 1;
    }
    SkipUnmapped(entries, sources, funcs, start, start, end);
  }

  /** `g` is the last offset up to `end` that has a source. */
  ghost predicate LastSourced(entries: seq<Entry>, sources: seq<string>, funcs: seq<string>, end: int, g: int) {
    && g <= end && SourceAt(entries, sources, funcs, g).Some?
    && (forall x :: g < x <= end ==> SourceAt(entries, sources, funcs, x).None?)
  }

  lemma {:induction false} FindLastSourced(entries: seq<Entry>, sources: seq<string>, funcs: seq<string>, end: int, o: int) returns (g: int)
    requires o <= end && SourceAt(entries, sources, funcs, o).Some?
    ensures o <= g && LastSourced(entries, sources, funcs, end, g)
    decreases end - o
  {
    if x :| o < x <= end && SourceAt(entries, sources, funcs, x).Some? {
      g := FindLastSourced(entries, sources, funcs, end, x);
    } else {
      g := o;
    }
  }

  /** Whenever some mapping strictly inside the body has a source, the last one that has decides. */
  lemma LastSourcedDecides(entries: seq<Entry>, sources: seq<string>, funcs: seq<string>, start: int, end: int, o: int)
    requires start < o <= end && SourceAt(entries, sources, funcs, o).Some?
    ensures exists g :: && o <= g && LastSourced(entries, sources, funcs, end, g)
                        && BodySource(entries, sources, funcs, start, end) == SourceAt(entries, sources, funcs, g)
  {
    var g := FindLastSourced(entries, sources, funcs, end, o);
    SkipUnmapped(entries, sources, funcs, start, g, end);
  }

  /** Without one, the function has a source exactly when its first byte is mapped to one and its
      second byte is not mapped. */
  lemma NoneInside(entries: seq<Entry>, sources: seq<string>, funcs: seq<string>, start: int, end: int)
    requires start < end && forall o :: start < o <= end ==> SourceAt(entries, sources, funcs, o).None?
    ensures BodySource(entries, sources, funcs, start, end).Some? <==>
      SourceAt(entries, sources, funcs, start).Some? && start + 1 !in MapOf(entries)
  {
    SkipUnmapped(entries, sources, funcs, start, start, end);
  }
}
