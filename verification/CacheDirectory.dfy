/** `get_cached_file` (tools/emscripten.py) as one process sees it when no other process interferes:
    the loops that list, time, sort and delete, over the files of one cache directory. */
module CacheDirectories {
  import opened Lists
  import opened StableSorts
  import opened PruneOrder
  import opened CachedFiles

  /** What os.listdir and os.path.getmtime say, in the order of the listing. */
  function Times(order: seq<Key>, files: map<Key, Entry>): seq<Stamped>
    requires forall k :: k in order ==> k in files
  {
    seq(|order|, i requires 0 <= i < |order| => Stamped(order[i], files[order[i]].mtime))
  }

  ghost function Without(files: map<Key, Entry>, gone: seq<Key>): map<Key, Entry> {
    map k | k in files && k !in gone :: files[k]
  }

  lemma WithoutOneMore(files: map<Key, Entry>, gone: seq<Key>, k: Key)
    ensures Without(files, gone + [k]) == Without(files, gone) - {k}
    ensures k in files && k !in gone ==> |Without(files, gone + [k])| == |Without(files, gone)| - 1
  {
    var a, b := Without(files, gone + [k]), Without(files, gone);
    assert forall x :: x in gone + [k] <==> x in gone || x == k;
    assert a == b - {k};
    if k in b {
      assert a.Keys == b.Keys - {k};
      assert |a| == |a.Keys| && |b| == |b.Keys|;
    }
  }

  lemma {:induction false} WithoutCount(files: map<Key, Entry>, gone: seq<Key>)
    requires Distinct(gone) && forall k :: k in gone ==> k in files
    ensures |Without(files, gone)| == |files| - |gone|
  {
    if gone == [] {
      assert Without(files, gone) == files;
    } else {
      var last := gone[|gone| - 1];
      var init := gone[..|gone| - 1];
      assert gone == init + [last];
      DistinctAppend(init, last);
      WithoutCount(files, init);
      WithoutOneMore(files, init, last);
    }
  }

  lemma {:induction false} ListingCount(order: seq<Key>, files: map<Key, Entry>)
    requires IsListing(order, files.Keys)
    ensures |order| == |files|
  {
    WithoutCount(files, order);
    assert Without(files, order) == map[];
  }

  /** The directory once the wanted file is there. */
  function Stored(files: map<Key, Entry>, now: nat, key: Key): map<Key, Entry> {
    if key in files then files else files[key := Entry(Whole(key), now)]
  }

  ghost function Pruned(stored: map<Key, Entry>, order: seq<Key>, limit: nat): map<Key, Entry>
    requires IsListing(order, stored.Keys)
  {
    if |stored| > limit then Without(stored, Victims(Times(order, stored), limit)) else stored
  }

  lemma InListing(order: seq<Key>, stored: map<Key, Entry>, k: Key)
    requires IsListing(order, stored.Keys) && k in stored
    ensures Stamped(k, stored[k].mtime) in Times(order, stored)
  {
    var i :| 0 <= i < |order| && order[i] == k;
    assert Times(order, stored)[i] == Stamped(k, stored[k].mtime);
  }

  /** Pruning keeps the newest files: no kept file is older than a deleted one. It brings the number
      down to the limit exactly when it can: a limit of 0 deletes nothing at all. */
  lemma PruningKeepsNewest(stored: map<Key, Entry>, order: seq<Key>, limit: nat)
    requires IsListing(order, stored.Keys)
    ensures var kept := Pruned(stored, order, limit);
      && (forall k :: k in kept ==> k in stored && kept[k] == stored[k])
      && (forall k, g :: k in stored && k !in kept && g in kept ==> stored[k].mtime <= kept[g].mtime)
      && (|kept| <= limit <==> limit > 0 || stored == map[])
      && (limit > 0 && |stored| > limit ==> |kept| == limit)
      && (limit == 0 || |stored| <= limit ==> kept == stored)
  {
    var timed := Times(order, stored);
    var v := Victims(timed, limit);
    assert Keys(timed) == order;
    VictimsAreOldest(timed, limit);
    ListingCount(order, stored);
    WithoutCount(stored, v);
    forall k, g | k in stored && k in v && g in stored && g !in v ensures stored[k].mtime <= stored[g].mtime {
      InListing(order, stored, k);
      InListing(order, stored, g);
    }
    if limit == 0 {
      assert Without(stored, v) == stored;
    }
  }

  /** The files that pruning deletes before the one at position `p` of the listing: the older ones, and
      those of the same age that are listed earlier. */
  ghost function DeletedBefore(stored: map<Key, Entry>, order: seq<Key>, p: nat): set<int>
    requires IsListing(order, stored.Keys) && p < |order|
  {
    set i | 0 <= i < |order| &&
      (stored[order[i]].mtime < stored[order[p]].mtime || (stored[order[i]].mtime == stored[order[p]].mtime && i < p))
  }

  /** Whether a file stays. */
  ghost predicate Stays(stored: map<Key, Entry>, order: seq<Key>, limit: nat, p: nat)
    requires IsListing(order, stored.Keys) && p < |order|
  {
    limit == 0 || |stored| <= limit || |DeletedBefore(stored, order, p)| >= |stored| - limit
  }

  /** A file survives a pruning exactly when the limit is 0, or there are not too many files, or enough
      others are older, or as old and listed earlier. */
  lemma SurvivesExactlyWhen(stored: map<Key, Entry>, order: seq<Key>, limit: nat, p: nat)
    requires IsListing(order, stored.Keys) && p < |order|
    ensures order[p] in Pruned(stored, order, limit) <==> Stays(stored, order, limit, p)
  {
    var timed := Times(order, stored);
    assert Keys(timed) == order;
    ListingCount(order, stored);
    SurvivesExactly(timed, limit, p);
    assert Ahead(timed, Time, p) == DeletedBefore(stored, order, p);
    assert order[p] in order;
  }

  /** When file times are all different the file that a call has just written stays, because it is newer
      than all others. */
  lemma NewestSurvives(files: map<Key, Entry>, now: nat, key: Key, order: seq<Key>, limit: nat)
    requires key !in files && forall k :: k in files ==> files[k].mtime < now
    requires IsListing(order, Stored(files, now, key).Keys)
    ensures key in Pruned(Stored(files, now, key), order, limit)
  {
    var kept := Pruned(Stored(files, now, key), order, limit);
    PruningKeepsNewest(Stored(files, now, key), order, limit);
    assert key in Stored(files, now, key);
    assert |kept| > 0;
    var g :| g in kept;
    assert g != key ==> kept[g].mtime < now;
  }

  /** File times are coarse: a file written in the same tick as the only other one, and listed before it,
      is deleted by the call that wrote it. */
  lemma FreshFileCanBeDeleted(a: Key, b: Key, now: nat)
    requires a != b
    ensures var files := map[a := Entry(Whole(a), now)];
      && IsListing([b, a], Stored(files, now, b).Keys)
      && b !in Pruned(Stored(files, now, b), [b, a], 1)
  {
    var stored := Stored(map[a := Entry(Whole(a), now)], now, b);
    var order := [b, a];
    assert order[0] == b && order[1] == a;
    assert stored.Keys == {a, b};
    assert DeletedBefore(stored, order, 0) == {};
    assert |stored| == |stored.Keys| == 2;
    SurvivesExactlyWhen(stored, order, 1, 0);
  }

  class CacheDirectory {
    var files: map<Key, Entry>

    constructor ()
      ensures files == map[]
    {
      files := map[];
    }

    method TimeFiles(order: seq<Key>) returns (timed: seq<Stamped>)
      requires forall k :: k in order ==> k in files
      ensures timed == Times(order, files)
    {
      timed := [];
      var i := 0;
      while i < |order|
        invariant 0 <= i <= |order|
        invariant timed == Times(order[..i], files)
      {
        timed := timed + [Stamped(order[i], files[order[i]].mtime)];
        assert order[..i + 1] == order[..i] + [order[i]];
        i := i + 1;
      }
      assert order[..|order|] == order;
    }

    method DeleteFiles(victims: seq<Key>)
      modifies this`files
      ensures files == Without(old(files), victims)
    {
      ghost var before := files;
      var i := 0;
      assert Without(files, []) == files;
      while i < |victims|
        invariant 0 <= i <= |victims|
        invariant files == Without(before, victims[..i])
      {
        WithoutOneMore(before, victims[..i], victims[i]);
        TakeOneMore(victims, i);
        files := files - {victims[i]};
        i := i + 1;
      }
      TakeAll(victims);
    }

    /** `now` is the time that the file system puts on a file written by this call, `order` the order in
        which the directory is listed. */
    method GetCachedFile(key: Key, now: nat, order: seq<Key>, limit: nat) returns (content: Content)
      requires IsListing(order, Stored(files, now, key).Keys)
      modifies this
      ensures content == if key in old(files) then old(files)[key].content else Whole(key)
      ensures files == Pruned(Stored(old(files), now, key), order, limit)
      ensures forall p :: 0 <= p < |order| ==>
        (order[p] in files <==> Stays(Stored(old(files), now, key), order, limit, p))
    {
      ghost var stored := Stored(files, now, key);
      if key in files {
        content := files[key].content;
      } else {
        content := Whole(key);
        files := files[key := Entry(content, now)];
      }
      PruningKeepsNewest(files, order, limit);
      if |files| > limit {
        var timed := TimeFiles(order);
        DeleteFiles(Keys(AllButLast(SortByTime(timed), limit)));
      }
      forall p | 0 <= p < |order| ensures order[p] in files <==> Stays(stored, order, limit, p) {
        SurvivesExactlyWhen(stored, order, limit, p);
      }
    }
  }
}
