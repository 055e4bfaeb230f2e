/** `get_cached_file` (tools/emscripten.py) run by any number of processes at once: one file lock per
    cached file, and one per file type under which a process prunes the oldest files. A lock file's
    name never equals a cached file's name; every lock is the mutex of FileLockProtocol. */
module CachedFiles {
  import opened Options
  import opened Lists
  import opened PruneOrder

  type Process = nat

  datatype LockId = TypeLock | KeyLock(key: Key)

  /** `Whole(k)` is what the deterministic generator for `k` produces; `Partial` is what the file
      holds between being created and being completely written. */
  datatype Content = Partial | Whole(key: Key)

  datatype Entry = Entry(content: Content, mtime: nat)

  datatype Stage =
    | WantKey                     // about to take the key's lock
    | Looking                     // about to test whether the file exists
    | Reading                     // it did: about to read it
    | Generating                  // it did not: about to generate and to create the file
    | Writing                     // the file is created, the content not yet written
    | Unlocking                   // about to release the key's lock
    | Counting                    // about to count the files
    | WantPrune                   // about to take the file type's lock
    | Listing                     // about to list the directory
    | Timing(todo: seq<Key>, timed: seq<Stamped>)  // asking for modification times
    | Pruning(victims: seq<Key>)  // about to take the first victim's lock
    | Deleting(victims: seq<Key>) // about to delete it
    | Deleted(victims: seq<Key>)  // about to release its lock
    | EndPrune                    // about to release the file type's lock
    | Failed                      // a file that was to be read or timed does not exist

  /** One call in progress; `torn` notes that the content read had been left by a writer that died. */
  datatype Call = Call(key: Key, content: Content, torn: bool, stage: Stage) {
    function At(stage: Stage): Call {
      this.(stage := stage)
    }

    predicate Fetching() {
      stage.WantKey? || HasKeyLock()
    }

    predicate Surveying() {
      stage.Counting? || stage.WantPrune? || stage.Listing? || stage.Timing?
    }

    predicate HasKeyLock() {
      stage.Looking? || stage.Reading? || stage.Generating? || stage.Writing? || stage.Unlocking?
    }

    predicate HasTypeLock() {
      stage.Listing? || stage.Timing? || stage.Pruning? || stage.Deleting? || stage.Deleted? || stage.EndPrune?
    }

    predicate HasVictimLock() {
      (stage.Deleting? || stage.Deleted?) && stage.victims != []
    }

    predicate Holds(id: LockId) {
      match id
      case TypeLock => HasTypeLock()
      case KeyLock(k) => (HasKeyLock() && k == key) || (HasVictimLock() && k == stage.victims[0])
    }

    /** The lock the call is about to take. */
    function Wants(): Option<LockId> {
      if stage.WantKey? then Some(KeyLock(key))
      else if stage.WantPrune? then Some(TypeLock)
      else if stage.Pruning? && stage.victims != [] then Some(KeyLock(stage.victims[0]))
      else None
    }
  }

  datatype Returned = Returned(p: Process, key: Key, content: Content, torn: bool)

  datatype State = State(limit: nat, files: map<Key, Entry>, torn: set<Key>, clock: nat,
                         locks: map<LockId, Process>, calls: map<Process, Call>, log: seq<Returned>)
  {
    function With(p: Process, c: Call): State {
      this.(calls := calls[p := c])
    }

    function Lock(id: LockId, p: Process): State {
      this.(locks := locks[id := p])
    }

    function Unlock(id: LockId): State {
      this.(locks := locks - {id})
    }

    function Finish(p: Process, c: Call): State {
      this.(calls := calls - {p}, log := log + [Returned(p, c.key, c.content, c.torn)])
    }
  }

  datatype Event =
    | Begin(p: Process, key: Key)
    | Go(p: Process, order: seq<Key>) // the next step; `order` is the order in which a listing comes
    | Crash(p: Process)
    | Clock(now: nat)                 // the file system's time moves, by any amount and in any direction

  ghost predicate IsListing(order: seq<Key>, keys: set<Key>) {
    && (forall k :: k in order <==> k in keys)
    && Distinct(order)
  }

  /** The part under the key's lock: read the file, or generate and write it. */
  function FetchStep(s: State, p: Process): State
    requires p in s.calls
  {
    var c := s.calls[p];
    var k := c.key;
    match c.stage
    case WantKey =>
      if KeyLock(k) in s.locks then s else s.Lock(KeyLock(k), p).With(p, c.At(Looking))
    case Looking => s.With(p, c.At(if k in s.files then Reading else Generating))
    case Reading =>
      if k in s.files then s.With(p, Call(k, s.files[k].content, k in s.torn, Unlocking))
      else s.With(p, c.At(Failed))
    case Generating =>
      s.(files := s.files[k := Entry(Partial, s.clock)]).With(p, c.At(Writing))
    case Writing =>
      s.(files := s.files[k := Entry(Whole(k), s.clock)])
       .With(p, Call(k, Whole(k), false, Unlocking))
    case Unlocking => s.Unlock(KeyLock(k)).With(p, c.At(Counting))
    case _ => s
  }

  function NextTiming(todo: seq<Key>, timed: seq<Stamped>, files: map<Key, Entry>, limit: nat): Stage {
    if todo == [] then Pruning(Victims(timed, limit))
    else if todo[0] in files then Timing(todo[1..], timed + [Stamped(todo[0], files[todo[0]].mtime)])
    else Failed
  }

  /** Counting the files and, under the file type's lock, listing and timing them. */
  ghost function ListStep(s: State, p: Process, order: seq<Key>): State
    requires p in s.calls
  {
    var c := s.calls[p];
    match c.stage
    case Counting => if |s.files| > s.limit then s.With(p, c.At(WantPrune)) else s.Finish(p, c)
    case WantPrune =>
      if TypeLock in s.locks then s else s.Lock(TypeLock, p).With(p, c.At(Listing))
    case Listing =>
      if IsListing(order, s.files.Keys) then s.With(p, c.At(Timing(order, []))) else s
    case Timing(todo, timed) => s.With(p, c.At(NextTiming(todo, timed, s.files, s.limit)))
    case _ => s
  }

  /** Deleting the victims, each under its own lock, still under the file type's lock. */
  function DeleteStep(s: State, p: Process): State
    requires p in s.calls
  {
    var c := s.calls[p];
    match c.stage
    case Pruning(v) =>
      if v == [] then s.With(p, c.At(EndPrune))
      else if KeyLock(v[0]) in s.locks then s
      else s.Lock(KeyLock(v[0]), p).With(p, c.At(Deleting(v)))
    case Deleting(v) =>
      if v == [] then s
      else s.(files := s.files - {v[0]}, torn := s.torn - {v[0]}).With(p, c.At(Deleted(v)))
    case Deleted(v) =>
      if v == [] then s else s.Unlock(KeyLock(v[0])).With(p, c.At(Pruning(v[1..])))
    case EndPrune => s.Unlock(TypeLock).Finish(p, c)
    case _ => s
  }

  ghost function GoStep(s: State, p: Process, order: seq<Key>): State
    requires p in s.calls
  {
    if s.calls[p].Fetching() then FetchStep(s, p)
    else if s.calls[p].Surveying() then ListStep(s, p, order)
    else DeleteStep(s, p)
  }

  /** The kernel drops the locks of a process that dies; a file it was writing stays torn. */
  function CrashStep(s: State, p: Process): State
    requires p in s.calls
  {
    s.(calls := s.calls - {p},
       locks := map id | id in s.locks && s.locks[id] != p :: s.locks[id],
       torn := if s.calls[p].stage.Writing? then s.torn + {s.calls[p].key} else s.torn)
  }

  ghost function Step(s: State, e: Event): State {
    match e
    case Begin(p, k) => if p in s.calls then s else s.With(p, Call(k, Partial, false, WantKey))
    case Go(p, order) => if p in s.calls then GoStep(s, p, order) else s
    case Crash(p) => if p in s.calls then CrashStep(s, p) else s
    case Clock(now) => s.(clock := now)
  }

  ghost function Exec(s: State, events: seq<Event>): State
    decreases |events|
  {
    if events == [] then s else Exec(Step(s, events[0]), events[1..])
  }

  ghost predicate Initial(s: State) {
    && s.locks == map[] && s.calls == map[] && s.log == [] && s.torn <= s.files.Keys
    && (forall k :: k in s.files ==> s.files[k].content == Expected(k, k in s.torn))
  }

  ghost predicate Reachable(s: State) {
    exists s0: State, events: seq<Event> :: Initial(s0) && s == Exec(s0, events)
  }

  function Expected(k: Key, torn: bool): Content {
    if torn then Partial else Whole(k)
  }

  /** A call holds exactly the locks that its stage says it holds. */
  ghost predicate LocksMatch(locks: map<LockId, Process>, calls: map<Process, Call>) {
    && (forall p: Process, id {:trigger calls[p].Holds(id)} :: p in calls && calls[p].Holds(id) ==> id in locks && locks[id] == p)
    && (forall id :: id in locks ==> locks[id] in calls && calls[locks[id]].Holds(id))
  }

  ghost predicate LocksOk(s: State) {
    LocksMatch(s.locks, s.calls)
  }

  ghost predicate Exist(names: seq<Key>, files: map<Key, Entry>) {
    Distinct(names) && forall k :: k in names ==> k in files
  }

  /** The files that a call is about to touch exist. */
  ghost predicate CallOk(c: Call, files: map<Key, Entry>) {
    match c.stage
    case Reading => c.key in files
    case Generating => c.key !in files
    case Writing => c.key in files && files[c.key].content == Partial
    case Timing(todo, timed) => Exist(Keys(timed) + todo, files)
    case Pruning(v) => Exist(v, files)
    case Deleting(v) => v != [] && Exist(v, files)
    case Deleted(v) => v != [] && Exist(v[1..], files)
    case Failed => false
    case _ => true
  }

  /** The content a call has obtained is the right one, or it is known to be torn. */
  ghost predicate ResultOk(c: Call) {
    c.stage.WantKey? || c.stage.Looking? || c.stage.Reading? || c.stage.Generating? || c.stage.Writing?
    || c.content == Expected(c.key, c.torn)
  }

  ghost predicate BeingWritten(s: State, k: Key) {
    exists p: Process :: p in s.calls && s.calls[p].stage.Writing? && s.calls[p].key == k
  }

  ghost predicate ContentOk(s: State) {
    && s.torn <= s.files.Keys
    && (forall k :: k in s.files && !BeingWritten(s, k) ==> s.files[k].content == Expected(k, k in s.torn))
    && (forall k :: BeingWritten(s, k) ==> k !in s.torn)
  }

  ghost predicate CallsOk(s: State) {
    && (forall p: Process :: p in s.calls ==> CallOk(s.calls[p], s.files) && ResultOk(s.calls[p]))
    && (forall i :: 0 <= i < |s.log| ==> s.log[i].content == Expected(s.log[i].key, s.log[i].torn))
  }

  ghost predicate Inv(s: State) {
    LocksOk(s) && CallsOk(s) && ContentOk(s)
  }

  lemma HoldersAlone(s: State, p: Process, q: Process, id: LockId)
    requires LocksOk(s) && p in s.calls && q in s.calls && s.calls[p].Holds(id) && s.calls[q].Holds(id)
    ensures p == q
  {
  }

  lemma TakeKeepsLocks(s: State, p: Process, id: LockId, c: Call)
    requires LocksOk(s) && p in s.calls && id !in s.locks
    requires forall x :: c.Holds(x) <==> s.calls[p].Holds(x) || x == id
    ensures LocksMatch(s.locks[id := p], s.calls[p := c])
  {
  }

  lemma DropKeepsLocks(s: State, p: Process, id: LockId, c: Call)
    requires LocksOk(s) && p in s.calls && s.calls[p].Holds(id)
    requires forall x :: c.Holds(x) <==> s.calls[p].Holds(x) && x != id
    ensures LocksMatch(s.locks - {id}, s.calls[p := c])
    ensures (forall x :: !c.Holds(x)) ==> LocksMatch(s.locks - {id}, s.calls - {p})
  {
  }

  lemma SameKeepsLocks(s: State, p: Process, c: Call)
    requires LocksOk(s) && p in s.calls
    requires forall x :: c.Holds(x) <==> s.calls[p].Holds(x)
    ensures LocksMatch(s.locks, s.calls[p := c])
    ensures (forall x :: !c.Holds(x)) ==> LocksMatch(s.locks, s.calls - {p})
  {
  }

  lemma FetchKeepsLocks(s: State, p: Process)
    requires p in s.calls && LocksOk(s) && CallOk(s.calls[p], s.files)
    ensures LocksOk(FetchStep(s, p))
  {
    var c, t := s.calls[p], FetchStep(s, p);
    if c.Fetching() && t != s {
      if c.stage.WantKey? {
        TakeKeepsLocks(s, p, KeyLock(c.key), t.calls[p]);
      } else if c.stage.Unlocking? {
        DropKeepsLocks(s, p, KeyLock(c.key), t.calls[p]);
      } else {
        SameKeepsLocks(s, p, t.calls[p]);
      }
    }
  }

  lemma ListKeepsLocks(s: State, p: Process, order: seq<Key>)
    requires p in s.calls && LocksOk(s) && CallOk(s.calls[p], s.files)
    ensures LocksOk(ListStep(s, p, order))
  {
    var c, t := s.calls[p], ListStep(s, p, order);
    if c.Surveying() && t != s {
      if c.stage.WantPrune? {
        TakeKeepsLocks(s, p, TypeLock, t.calls[p]);
      } else {
        SameKeepsLocks(s, p, if p in t.calls then t.calls[p] else c);
      }
    }
  }

  lemma DeleteKeepsLocks(s: State, p: Process)
    requires p in s.calls && LocksOk(s) && CallOk(s.calls[p], s.files)
    ensures LocksOk(DeleteStep(s, p))
  {
    var c, t := s.calls[p], DeleteStep(s, p);
    if !c.Fetching() && !c.Surveying() && t != s {
      if c.stage.EndPrune? {
        DropKeepsLocks(s, p, TypeLock, c.At(Counting));
      } else if c.stage.Deleted? {
        DropKeepsLocks(s, p, KeyLock(c.stage.victims[0]), t.calls[p]);
      } else if c.stage.Pruning? && c.stage.victims != [] {
        TakeKeepsLocks(s, p, KeyLock(c.stage.victims[0]), t.calls[p]);
      } else {
        SameKeepsLocks(s, p, t.calls[p]);
      }
    }
  }

  /** While `p` has the lock of `k`, nobody else is concerned with `k` under that lock. */
  lemma FileAdded(s: State, p: Process, q: Process, k: Key, e: Entry)
    requires LocksOk(s) && p in s.calls && q in s.calls && q != p && s.calls[p].Holds(KeyLock(k))
    requires CallOk(s.calls[q], s.files)
    ensures CallOk(s.calls[q], s.files[k := e])
  {
    var c := s.calls[q];
    if c.HasKeyLock() && c.key == k {
      HoldersAlone(s, p, q, KeyLock(k));
    }
  }

  lemma FileRemoved(s: State, p: Process, q: Process, k: Key)
    requires LocksOk(s) && p in s.calls && q in s.calls && q != p
    requires s.calls[p].Holds(KeyLock(k)) && s.calls[p].Holds(TypeLock)
    requires CallOk(s.calls[q], s.files)
    ensures CallOk(s.calls[q], s.files - {k})
  {
    var c := s.calls[q];
    if c.HasKeyLock() && c.key == k {
      HoldersAlone(s, p, q, KeyLock(k));
    }
    if c.HasTypeLock() {
      HoldersAlone(s, p, q, TypeLock);
    }
  }

  lemma FetchKeepsCalls(s: State, p: Process)
    requires p in s.calls && Inv(s)
    ensures CallsOk(FetchStep(s, p))
  {
    var c, t := s.calls[p], FetchStep(s, p);
    if c.Fetching() && t != s {
      assert CallOk(t.calls[p], t.files);
      if c.stage.Reading? {
        NotBeingWritten(s, p, c.key);
      }
      assert ResultOk(t.calls[p]);
      forall q: Process | q in t.calls && q != p ensures CallOk(t.calls[q], t.files) {
        if t.files != s.files {
          FileAdded(s, p, q, c.key, t.files[c.key]);
        }
      }
    }
  }

  lemma NotBeingWritten(s: State, p: Process, k: Key)
    requires LocksOk(s) && p in s.calls && s.calls[p].Holds(KeyLock(k)) && !s.calls[p].stage.Writing?
    ensures !BeingWritten(s, k)
  {
    if q: Process :| q in s.calls && s.calls[q].stage.Writing? && s.calls[q].key == k {
      assert s.calls[q].Holds(KeyLock(k));
      HoldersAlone(s, p, q, KeyLock(k));
    }
  }

  /** A listed file stays in place while the lister asks for its time, so the question never fails. */
  lemma TimeOne(todo: seq<Key>, timed: seq<Stamped>, files: map<Key, Entry>)
    requires todo != [] && Exist(Keys(timed) + todo, files)
    ensures todo[0] in files
    ensures Exist(Keys(timed + [Stamped(todo[0], files[todo[0]].mtime)]) + todo[1..], files)
  {
    assert todo[0] in Keys(timed) + todo;
    var x := Stamped(todo[0], files[todo[0]].mtime);
    assert Keys(timed + [x]) + todo[1..] == Keys(timed) + todo;
  }

  lemma ChooseVictims(timed: seq<Stamped>, limit: nat, files: map<Key, Entry>)
    requires Exist(Keys(timed) + [], files)
    ensures Exist(Victims(timed, limit), files)
  {
    assert Keys(timed) + [] == Keys(timed);
    VictimsAreOldest(timed, limit);
  }

  lemma ListKeepsCall(s: State, p: Process, order: seq<Key>)
    requires p in s.calls && CallOk(s.calls[p], s.files)
    ensures p in ListStep(s, p, order).calls ==> CallOk(ListStep(s, p, order).calls[p], s.files)
  {
    var c := s.calls[p];
    if c.stage.Listing? {
      assert Keys([]) + order == order;
    } else if c.stage.Timing? {
      if c.stage.todo == [] {
        ChooseVictims(c.stage.timed, s.limit, s.files);
      } else {
        TimeOne(c.stage.todo, c.stage.timed, s.files);
      }
    }
  }

  lemma ListLogs(s: State, p: Process, order: seq<Key>)
    requires p in s.calls
    ensures var c, t := s.calls[p], ListStep(s, p, order);
      t.log == s.log || (c.stage.Counting? && t.log == s.log + [Returned(p, c.key, c.content, c.torn)])
  {
  }

  lemma ListKeepsCalls(s: State, p: Process, order: seq<Key>)
    requires p in s.calls && CallsOk(s)
    ensures CallsOk(ListStep(s, p, order))
  {
    ListLogs(s, p, order);
    ListKeepsCall(s, p, order);
  }

  lemma DeleteKeepsCalls(s: State, p: Process)
    requires p in s.calls && Inv(s)
    ensures CallsOk(DeleteStep(s, p))
  {
    var c, t := s.calls[p], DeleteStep(s, p);
    if c.stage.Deleting? {
      var v := c.stage.victims;
      assert c.Holds(KeyLock(v[0])) && c.Holds(TypeLock);
      assert CallOk(t.calls[p], t.files) by {
        assert forall i :: 1 <= i < |v| ==> v[0] != v[i];
      }
      forall q: Process | q in t.calls && q != p ensures CallOk(t.calls[q], t.files) {
        FileRemoved(s, p, q, v[0]);
      }
    }
  }

  lemma FetchKeepsContent(s: State, p: Process)
    requires p in s.calls && Inv(s)
    ensures ContentOk(FetchStep(s, p))
  {
    var c, t := s.calls[p], FetchStep(s, p);
    var k := c.key;
    forall x | x != k ensures BeingWritten(t, x) <==> BeingWritten(s, x) {
      OnlyCallerMoves(s, t, p, x);
    }
    if c.Fetching() && t != s {
      if c.stage.Generating? {
        assert p in t.calls && t.calls[p].stage.Writing?;
        assert BeingWritten(t, k);
      } else if c.stage.Writing? {
        assert BeingWritten(s, k);
        NotBeingWritten(t, p, k) by {
          FetchKeepsLocks(s, p);
        }
      } else {
        OnlyCallerMoves(s, t, p, k);
      }
    }
  }

  lemma OnlyCallerMoves(s: State, t: State, p: Process, x: Key)
    requires forall q: Process :: q != p ==> (q in t.calls <==> q in s.calls) && (q in s.calls ==> t.calls[q] == s.calls[q])
    requires (p in t.calls && t.calls[p].stage.Writing? && t.calls[p].key == x)
        <==> (p in s.calls && s.calls[p].stage.Writing? && s.calls[p].key == x)
    ensures BeingWritten(t, x) <==> BeingWritten(s, x)
  {
    if q: Process :| q in t.calls && t.calls[q].stage.Writing? && t.calls[q].key == x {
      assert q in s.calls;
    }
    if q: Process :| q in s.calls && s.calls[q].stage.Writing? && s.calls[q].key == x {
      assert q in t.calls;
    }
  }

  lemma ListKeepsContent(s: State, p: Process, order: seq<Key>)
    requires p in s.calls && Inv(s)
    ensures ContentOk(ListStep(s, p, order))
  {
    var t := ListStep(s, p, order);
    ListMovesOnlyCaller(s, p, order);
    forall x ensures BeingWritten(t, x) <==> BeingWritten(s, x) {
      OnlyCallerMoves(s, t, p, x);
    }
    SameContentOk(s, t);
  }

  lemma SameContentOk(s: State, t: State)
    requires ContentOk(s) && t.files == s.files && t.torn == s.torn
    requires forall x :: BeingWritten(t, x) <==> BeingWritten(s, x)
    ensures ContentOk(t)
  {
  }

  lemma ListKeepsFiles(s: State, p: Process, order: seq<Key>)
    requires p in s.calls
    ensures ListStep(s, p, order).files == s.files && ListStep(s, p, order).torn == s.torn
  {
  }

  lemma ListLeavesAlone(s: State, p: Process, order: seq<Key>, q: Process)
    requires p in s.calls && q != p
    ensures var t := ListStep(s, p, order);
      (q in t.calls <==> q in s.calls) && (q in s.calls ==> t.calls[q] == s.calls[q])
  {
  }

  lemma ListKeepsKey(s: State, p: Process, order: seq<Key>)
    requires p in s.calls
    ensures var t := ListStep(s, p, order);
      && (p in t.calls ==> t.calls[p].key == s.calls[p].key && (t.calls[p].stage.Writing? <==> s.calls[p].stage.Writing?))
      && (p !in t.calls ==> !s.calls[p].stage.Writing?)
  {
  }

  lemma ListMovesOnlyCaller(s: State, p: Process, order: seq<Key>)
    requires p in s.calls
    ensures var t := ListStep(s, p, order);
      && t.files == s.files && t.torn == s.torn
      && (forall q: Process :: q != p ==> (q in t.calls <==> q in s.calls) && (q in s.calls ==> t.calls[q] == s.calls[q]))
      && (p in t.calls ==> t.calls[p].key == s.calls[p].key && (t.calls[p].stage.Writing? <==> s.calls[p].stage.Writing?))
      && (p !in t.calls ==> !s.calls[p].stage.Writing?)
  {
    ListKeepsFiles(s, p, order);
    ListKeepsKey(s, p, order);
    var t := ListStep(s, p, order);
    forall q: Process | q != p
      ensures (q in t.calls <==> q in s.calls) && (q in s.calls ==> t.calls[q] == s.calls[q])
    {
      ListLeavesAlone(s, p, order, q);
    }
  }

  lemma DeleteKeepsContent(s: State, p: Process)
    requires p in s.calls && Inv(s)
    ensures ContentOk(DeleteStep(s, p))
  {
    var c, t := s.calls[p], DeleteStep(s, p);
    forall x ensures BeingWritten(t, x) <==> BeingWritten(s, x) {
      OnlyCallerMoves(s, t, p, x);
    }
    if c.stage.Deleting? {
      NotBeingWritten(s, p, c.stage.victims[0]);
    }
  }

  lemma CrashKeepsInv(s: State, p: Process)
    requires p in s.calls && Inv(s)
    ensures Inv(CrashStep(s, p))
  {
    var c, t := s.calls[p], CrashStep(s, p);
    assert LocksOk(t);
    forall x ensures BeingWritten(t, x) <==> BeingWritten(s, x) && !(c.stage.Writing? && c.key == x) {
      if c.stage.Writing? && c.key == x {
        if q: Process :| q in t.calls && t.calls[q].stage.Writing? && t.calls[q].key == x {
          HoldersAlone(s, p, q, KeyLock(x));
        }
      } else {
        OnlyCallerMoves(s, t, p, x);
      }
    }
  }

  lemma BeginKeepsInv(s: State, p: Process, k: Key)
    requires Inv(s)
    ensures Inv(Step(s, Begin(p, k)))
  {
    var t := Step(s, Begin(p, k));
    if p !in s.calls {
      forall x ensures BeingWritten(t, x) <==> BeingWritten(s, x) {
        OnlyCallerMoves(s, t, p, x);
      }
    }
  }

  lemma GoKeepsInv(s: State, p: Process, order: seq<Key>)
    requires p in s.calls && Inv(s)
    ensures Inv(GoStep(s, p, order))
  {
    if s.calls[p].Fetching() {
      FetchKeepsLocks(s, p);
      FetchKeepsCalls(s, p);
      FetchKeepsContent(s, p);
    } else if s.calls[p].Surveying() {
      ListKeepsLocks(s, p, order);
      ListKeepsCalls(s, p, order);
      ListKeepsContent(s, p, order);
    } else {
      DeleteKeepsLocks(s, p);
      DeleteKeepsCalls(s, p);
      DeleteKeepsContent(s, p);
    }
  }

  lemma ClockKeepsInv(s: State, now: nat)
    requires Inv(s)
    ensures Inv(Step(s, Clock(now)))
  {
    var t := s.(clock := now);
    forall k ensures BeingWritten(t, k) <==> BeingWritten(s, k) {}
  }

  lemma {:induction false} ExecKeepsInv(s: State, events: seq<Event>)
    requires Inv(s)
    ensures Inv(Exec(s, events))
    decreases |events|
  {
    if events != [] {
      match events[0] {
        case Begin(p, k) => BeginKeepsInv(s, p, k);
        case Go(p, order) =>
          if p in s.calls {
            GoKeepsInv(s, p, order);
          }
        case Crash(p) =>
          if p in s.calls {
            CrashKeepsInv(s, p);
          }
        case Clock(now) => ClockKeepsInv(s, now);
      }
      ExecKeepsInv(Step(s, events[0]), events[1..]);
    }
  }

  lemma ReachableInv(s: State)
    requires Reachable(s)
    ensures Inv(s)
  {
    var s0, events :| Initial(s0) && s == Exec(s0, events);
    assert forall k :: !BeingWritten(s0, k);
    ExecKeepsInv(s0, events);
  }

  /** No read and no modification-time query ever hits a file that is gone, and a pruner deletes
      only files that are there: the state `Failed` is unreachable. */
  lemma NeverHitsDeletedFile(s: State, p: Process)
    requires Reachable(s) && p in s.calls
    ensures var c := s.calls[p];
      && !c.stage.Failed?
      && (c.stage.Reading? ==> c.key in s.files)
      && (c.stage.Timing? ==> forall k :: k in c.stage.todo ==> k in s.files)
      && (c.stage.Deleting? ==> c.stage.victims != [] && c.stage.victims[0] in s.files)
  {
    ReachableInv(s);
    var c := s.calls[p];
    if c.stage.Timing? {
      forall k | k in c.stage.todo ensures k in s.files {
        assert k in Keys(c.stage.timed) + c.stage.todo;
      }
    }
  }

  /** Every call that has returned gave exactly the generator's output for its own key, or the file
      it read had been left torn by a writer that died; the latter never without the former. */
  lemma ReturnsGeneratedContent(s: State, i: nat)
    requires Reachable(s) && i < |s.log|
    ensures s.log[i].content == Whole(s.log[i].key) <==> !s.log[i].torn
  {
    ReachableInv(s);
  }

  lemma {:induction false} ExecSnoc(s: State, events: seq<Event>, e: Event)
    ensures Exec(s, events + [e]) == Step(Exec(s, events), e)
    decreases |events|
  {
    if events == [] {
      assert [] + [e] == [e];
      assert Exec(s, [e]) == Exec(Step(s, e), []);
    } else {
      assert (events + [e])[1..] == events[1..] + [e];
      ExecSnoc(Step(s, events[0]), events[1..], e);
    }
  }

  lemma StepReachable(s: State, e: Event)
    requires Reachable(s)
    ensures Reachable(Step(s, e))
  {
    var s0, events :| Initial(s0) && s == Exec(s0, events);
    ExecSnoc(s0, events, e);
    assert Step(s, e) == Exec(s0, events + [e]);
  }

  lemma FetchReachable(s: State, p: Process)
    requires Reachable(s) && p in s.calls && s.calls[p].Fetching()
    ensures Reachable(FetchStep(s, p))
  {
    StepReachable(s, Go(p, []));
  }

  /** One process, alone with one file: where the steps of a fetch lead. */
  function Alone(k: Key, files: map<Key, Entry>, torn: set<Key>, clock: nat, p: Process, locked: bool, c: Call): State {
    State(1, files, torn, clock, if locked then map[KeyLock(k) := p] else map[], map[p := c], [])
  }

  lemma AloneStep(k: Key, files: map<Key, Entry>, torn: set<Key>, clock: nat, p: Process, locked: bool, c: Call)
    requires c.key == k && c.Fetching() && (c.stage.WantKey? <==> !locked)
    requires c.stage.Reading? ==> k in files
    ensures var s := Alone(k, files, torn, clock, p, locked, c);
      match c.stage
      case WantKey => FetchStep(s, p) == Alone(k, files, torn, clock, p, true, c.At(Looking))
      case Looking => FetchStep(s, p) == Alone(k, files, torn, clock, p, true, c.At(if k in files then Reading else Generating))
      case Reading => FetchStep(s, p) == Alone(k, files, torn, clock, p, true, Call(k, files[k].content, k in torn, Unlocking))
      case Generating => FetchStep(s, p) == Alone(k, files[k := Entry(Partial, clock)], torn, clock, p, true, c.At(Writing))
      case Unlocking => FetchStep(s, p) == Alone(k, files, torn, clock, p, false, c.At(Counting))
      case _ => true
  {
    var s := Alone(k, files, torn, clock, p, locked, c);
    assert s.calls[p] == c;
    forall d: Call ensures s.calls[p := d] == map[p := d] {}
    if c.stage.Unlocking? {
      assert s.locks - {KeyLock(k)} == map[];
    }
  }

  lemma WriterDies(k: Key)
    ensures Reachable(State(1, map[k := Entry(Partial, 0)], {k}, 0, map[], map[], []))
  {
    var s0 := State(1, map[], {}, 0, map[], map[], []);
    assert s0 == Exec(s0, []);
    StepReachable(s0, Begin(1, k));
    var c := Call(k, Partial, false, WantKey);
    AloneStep(k, map[], {}, 0, 1, false, c);
    FetchReachable(Alone(k, map[], {}, 0, 1, false, c), 1);
    AloneStep(k, map[], {}, 0, 1, true, c.At(Looking));
    FetchReachable(Alone(k, map[], {}, 0, 1, true, c.At(Looking)), 1);
    AloneStep(k, map[], {}, 0, 1, true, c.At(Generating));
    FetchReachable(Alone(k, map[], {}, 0, 1, true, c.At(Generating)), 1);
    var s3 := Alone(k, map[k := Entry(Partial, 0)], {}, 0, 1, true, c.At(Writing));
    StepReachable(s3, Crash(1));
    assert CrashStep(s3, 1) == State(1, map[k := Entry(Partial, 0)], {k}, 0, map[], map[], []) by {
      assert s3.calls - {1} == map[];
      assert CrashStep(s3, 1).locks == map[];
    }
  }

  lemma ReaderReads(k: Key)
    ensures Reachable(Alone(k, map[k := Entry(Partial, 0)], {k}, 0, 2, false, Call(k, Partial, true, Counting)))
  {
    var files := map[k := Entry(Partial, 0)];
    WriterDies(k);
    StepReachable(State(1, files, {k}, 0, map[], map[], []), Begin(2, k));
    var c, d := Call(k, Partial, false, WantKey), Call(k, Partial, true, Unlocking);
    AloneStep(k, files, {k}, 0, 2, false, c);
    FetchReachable(Alone(k, files, {k}, 0, 2, false, c), 2);
    AloneStep(k, files, {k}, 0, 2, true, c.At(Looking));
    FetchReachable(Alone(k, files, {k}, 0, 2, true, c.At(Looking)), 2);
    AloneStep(k, files, {k}, 0, 2, true, c.At(Reading));
    FetchReachable(Alone(k, files, {k}, 0, 2, true, c.At(Reading)), 2);
    AloneStep(k, files, {k}, 0, 2, true, d);
    FetchReachable(Alone(k, files, {k}, 0, 2, true, d), 2);
  }

  /** A torn file does reach a caller: process 1 dies between creating the file and writing it, and
      process 2 then reads and returns what is there. */
  lemma TornFileIsReturned(k: Key)
    ensures exists s: State :: Reachable(s) && s.log == [Returned(2, k, Partial, true)]
  {
    var files, c := map[k := Entry(Partial, 0)], Call(k, Partial, true, Counting);
    var s := Alone(k, files, {k}, 0, 2, false, c);
    ReaderReads(k);
    StepReachable(s, Go(2, []));
    assert |files.Keys| == 1 by {
      assert files.Keys == {k};
    }
    assert ListStep(s, 2, []) == s.Finish(2, c);
  }

  ghost predicate Clean(s: State) {
    && s.torn == {}
    && (forall p: Process :: p in s.calls ==> !s.calls[p].torn)
    && (forall i :: 0 <= i < |s.log| ==> !s.log[i].torn)
  }

  lemma FetchKeepsClean(s: State, p: Process)
    requires p in s.calls && Clean(s)
    ensures Clean(FetchStep(s, p))
  {
  }

  lemma ListKeepsClean(s: State, p: Process, order: seq<Key>)
    requires p in s.calls && Clean(s)
    ensures Clean(ListStep(s, p, order))
  {
    ListLogs(s, p, order);
  }

  lemma DeleteKeepsClean(s: State, p: Process)
    requires p in s.calls && Clean(s)
    ensures Clean(DeleteStep(s, p))
  {
  }

  lemma {:induction false} NothingTorn(s: State, events: seq<Event>)
    requires Clean(s) && forall e :: e in events ==> !e.Crash?
    ensures Clean(Exec(s, events))
    decreases |events|
  {
    if events != [] {
      var e := events[0];
      assert e in events;
      if e.Go? && e.p in s.calls {
        FetchKeepsClean(s, e.p);
        ListKeepsClean(s, e.p, e.order);
        DeleteKeepsClean(s, e.p);
      }
      assert Clean(Step(s, e));
      NothingTorn(Step(s, e), events[1..]);
    }
  }

  /** Without crashes, every call in every interleaving returns the generator's output for its key. */
  lemma CrashFreeRunsAreExact(s0: State, events: seq<Event>, i: nat)
    requires Initial(s0) && s0.torn == {} && (forall e :: e in events ==> !e.Crash?)
    requires i < |Exec(s0, events).log|
    ensures var r := Exec(s0, events).log[i]; r.content == Whole(r.key)
  {
    NothingTorn(s0, events);
    ReturnsGeneratedContent(Exec(s0, events), i);
  }

  /** `p` is about to take a lock that `q` holds. */
  ghost predicate WaitsFor(s: State, p: Process, q: Process) {
    && p in s.calls && s.calls[p].Wants().Some?
    && s.calls[p].Wants().value in s.locks && s.locks[s.calls[p].Wants().value] == q
  }

  /** Locks are taken in the order file type, then one key: so a process that waits for a process
      that waits is waiting for the file type's lock, and nobody waits behind three. */
  lemma WaitingIsShallow(s: State, p: Process, q: Process, r: Process)
    requires Reachable(s) && WaitsFor(s, p, q) && WaitsFor(s, q, r)
    ensures s.calls[p].Wants() == Some(TypeLock) && r in s.calls && s.calls[r].Wants().None?
  {
    ReachableInv(s);
    var id := s.calls[p].Wants().value;
    assert s.calls[q].Holds(id);
    var id' := s.calls[q].Wants().value;
    assert r in s.calls && s.calls[r].Holds(id');
  }

  /** The element behind index `i`, going round. */
  function After(ps: seq<Process>, i: nat): Process
    requires i < |ps|
  {
    ps[(i + 1) % |ps|]
  }

  /** There is no cycle of waiting processes, of any length. */
  lemma NoWaitingCycle(s: State, ps: seq<Process>)
    requires Reachable(s) && ps != []
    ensures exists i :: 0 <= i < |ps| && !WaitsFor(s, ps[i], After(ps, i))
  {
    var b := 1 % |ps|;
    var c := (b + 1) % |ps|;
    assert After(ps, 0) == ps[b] && After(ps, b) == ps[c];
    if WaitsFor(s, ps[0], ps[b]) && WaitsFor(s, ps[b], ps[c]) {
      WaitingIsShallow(s, ps[0], ps[b], ps[c]);
      assert !WaitsFor(s, ps[c], After(ps, c));
    }
  }

  ghost predicate CanMove(s: State, p: Process) {
    exists order: seq<Key> :: Step(s, Go(p, order)) != s
  }

  /** As long as a call is in progress somewhere, some process can take a step. */
  lemma NoDeadlock(s: State, p: Process)
    requires Reachable(s) && p in s.calls
    ensures exists q: Process :: CanMove(s, q)
  {
    ReachableInv(s);
    var w := s.calls[p].Wants();
    if w.None? || w.value !in s.locks {
      Moves(s, p);
    } else {
      var q := s.locks[w.value];
      var w' := s.calls[q].Wants();
      if w'.None? || w'.value !in s.locks {
        Moves(s, q);
      } else {
        var r := s.locks[w'.value];
        WaitingIsShallow(s, p, q, r);
        Moves(s, r);
      }
    }
  }

  lemma {:induction false} ListingExists(keys: set<Key>) returns (order: seq<Key>)
    ensures IsListing(order, keys)
  {
    if keys == {} {
      order := [];
    } else {
      var k :| k in keys;
      var rest := ListingExists(keys - {k});
      DistinctAppend(rest, k);
      order := rest + [k];
    }
  }

  lemma Moves(s: State, p: Process)
    requires Inv(s) && p in s.calls
    requires var w := s.calls[p].Wants(); w.None? || w.value !in s.locks
    ensures CanMove(s, p)
  {
    var order := ListingExists(s.files.Keys);
    var c, t := s.calls[p], Step(s, Go(p, order));
    if c.Fetching() {
      FetchMoves(s, p);
    } else if c.Surveying() {
      ListMoves(s, p, order);
    } else {
      DeleteMoves(s, p);
    }
    assert t != s;
  }

  lemma FetchMoves(s: State, p: Process)
    requires p in s.calls && s.calls[p].Fetching() && (s.calls[p].stage.WantKey? ==> KeyLock(s.calls[p].key) !in s.locks)
    ensures FetchStep(s, p) != s
  {
    assert FetchStep(s, p).calls[p].stage != s.calls[p].stage;
  }

  lemma ListMoves(s: State, p: Process, order: seq<Key>)
    requires p in s.calls && s.calls[p].Surveying() && IsListing(order, s.files.Keys)
    requires s.calls[p].stage.WantPrune? ==> TypeLock !in s.locks
    ensures ListStep(s, p, order) != s
  {
    var c, t := s.calls[p], ListStep(s, p, order);
    if c.stage.Timing? {
      var next := NextTiming(c.stage.todo, c.stage.timed, s.files, s.limit);
      assert next != c.stage;
      assert t.calls[p].stage == next;
    } else {
      assert p in t.calls ==> t.calls[p].stage != c.stage;
    }
  }

  lemma DeleteMoves(s: State, p: Process)
    requires p in s.calls && !s.calls[p].Fetching() && !s.calls[p].Surveying() && CallOk(s.calls[p], s.files)
    requires var c := s.calls[p]; c.stage.Pruning? && c.stage.victims != [] ==> KeyLock(c.stage.victims[0]) !in s.locks
    ensures DeleteStep(s, p) != s
  {
    var t := DeleteStep(s, p);
    assert p in t.calls ==> t.calls[p].stage != s.calls[p].stage;
  }
}
