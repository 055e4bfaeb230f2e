/** How much reordering emrun's server undoes (emrun.py): messages 1..n in any order come out in
    order exactly as long as no seventeenth message has to wait behind a gap. */
module EmrunReordering {
  import opened EmrunServer
  import StableSorts

  function Arrivals(ms: seq<Message>): seq<Input> {
    seq(|ms|, i requires 0 <= i < |ms| => Arrive(ms[i]))
  }

  /** The server after these arrivals, with the clock never flushing anything. */
  function After(ms: seq<Message>): Server {
    Run(Arrivals(ms))
  }

  ghost predicate IsPermutation(ms: seq<Message>, n: nat) {
    && (forall i :: 0 <= i < |ms| ==> 1 <= ms[i].number <= n)
    && (forall i, j :: 0 <= i < j < |ms| ==> ms[i].number != ms[j].number)
    && (forall x :: 1 <= x <= n ==> HasNumber(ms, x))
  }

  ghost predicate HasNumber(ms: seq<Message>, x: int) {
    exists i :: 0 <= i < |ms| && ms[i].number == x
  }

  /** One more message would have to wait, and the queue is full. */
  predicate Overflows(s: Server, m: Message) {
    m.number > s.expected && |s.queue| >= MAX_WAITING
  }

  ghost predicate OverflowsAt(ms: seq<Message>, k: nat)
    requires k < |ms|
  {
    Overflows(After(ms[..k]), ms[k])
  }

  ghost predicate Fits(ms: seq<Message>) {
    forall k :: 0 <= k < |ms| ==> !OverflowsAt(ms, k)
  }

  ghost predicate CountsUp(log: seq<Message>) {
    forall i :: 0 <= i < |log| ==> log[i].number == i + 1
  }

  lemma AfterOneMore(ms: seq<Message>, k: nat)
    requires k < |ms|
    ensures After(ms[..k + 1]) == Handle(After(ms[..k]), ms[k])
  {
    assert Arrivals(ms[..k + 1]) == Arrivals(ms[..k]) + [Arrive(ms[k])];
    RunStep(Arrivals(ms[..k]), Arrive(ms[k]));
  }

  lemma AfterRests(ms: seq<Message>, k: nat)
    requires k <= |ms| && forall i, j :: 0 <= i < j < |ms| ==> ms[i].number != ms[j].number
    ensures Resting(After(ms[..k]))
    ensures k < |ms| ==> !Waits(After(ms[..k]), ms[k].number)
  {
    RunRests(Arrivals(ms[..k]));
    if k < |ms| {
      var inputs := Arrivals(ms[..k + 1]);
      assert inputs[..|inputs| - 1] == Arrivals(ms[..k]);
      NewNumberDoesNotWait(inputs);
    }
  }

  /** While everything fits, the log counts up to just before the expected number, and whatever has
      arrived is printed or waits. */
  ghost predicate OnTrack(s: Server, ms: seq<Message>) {
    && Resting(s)
    && CountsUp(s.log) && |s.log| == s.expected - 1
    && (forall i :: 0 <= i < |ms| ==> ms[i].number < s.expected || Waits(s, ms[i].number))
    && (forall i :: 0 <= i < |s.log| ==> HasNumber(ms, s.log[i].number))
    && (forall i :: 0 <= i < |s.queue| ==> HasNumber(ms, s.queue[i].number))
  }

  lemma ArrivedNumbers(ms: seq<Message>)
    ensures forall m :: m in Arrived(After(ms)) ==> HasNumber(ms, m.number)
  {
    WaitingHasArrived(Arrivals(ms));
    forall m | m in Arrived(After(ms)) ensures HasNumber(ms, m.number) {
      var i :| 0 <= i < |Arrivals(ms)| && Arrivals(ms)[i] == Arrive(m);
      assert ms[i] == m;
    }
  }

  lemma ExpectedPrints(s: Server, m: Message)
    requires CountsUp(s.log) && |s.log| == s.expected - 1 && m.number == s.expected >= 1
    ensures var t := Handle(s, m); CountsUp(t.log) && |t.log| == t.expected - 1 && t.expected > s.expected
  {
    var u := s.(log := s.log + [m], expected := s.expected + 1);
    var k := DueTakesRun(u);
    CountsOn(s.log, [m]);
    CountsOn(u.log, u.queue[..k]);
  }

  lemma CountsOn(log: seq<Message>, more: seq<Message>)
    requires CountsUp(log) && forall i :: 0 <= i < |more| ==> more[i].number == |log| + 1 + i
    ensures CountsUp(log + more)
  {
  }

  lemma ExpectedLeaves(s: Server, m: Message, x: int)
    requires m.number == s.expected >= 1 && Waits(s, x)
    ensures x < Handle(s, m).expected || Waits(Handle(s, m), x)
  {
    var u := s.(log := s.log + [m], expected := s.expected + 1);
    assert Waits(u, x);
    assert Handle(s, m) == Due(u);
    DueLeaves(u, x);
  }

  lemma DueLeaves(s: Server, x: int)
    requires Waits(s, x)
    ensures x < Due(s).expected || Waits(Due(s), x)
  {
    var k := DueTakesRun(s);
    var i :| 0 <= i < |s.queue| && s.queue[i].number == x;
    if i < k {
      assert x == s.expected + i;
    } else {
      assert s.queue[k..][i - k] == s.queue[i];
    }
  }

  lemma EarlyArrives(s: Server, m: Message)
    requires Resting(s) && m.number > s.expected && !Overflows(s, m)
    ensures var t := Handle(s, m);
      t.log == s.log && t.expected == s.expected && Waits(t, m.number) && forall x :: Waits(s, x) ==> Waits(t, x)
  {
    var t := Handle(s, m);
    StableSortKeeps(s, m);
    forall x | Waits(s, x) || x == m.number ensures Waits(t, x) {
      var y := if x == m.number then m else var i :| 0 <= i < |s.queue| && s.queue[i].number == x; s.queue[i];
      assert y in s.queue + [m];
      assert y in multiset(t.queue);
      var j :| 0 <= j < |t.queue| && t.queue[j] == y;
    }
  }

  lemma StableSortKeeps(s: Server, m: Message)
    requires m.number > s.expected && m.number != -1 && |s.queue| < MAX_WAITING
    ensures Handle(s, m).log == s.log && Handle(s, m).expected == s.expected
    ensures multiset(Handle(s, m).queue) == multiset(s.queue + [m])
  {
    StableSorts.SortSorts(s.queue + [m], Number);
  }

  /** A number that was printed has arrived, so it does not arrive again. */
  lemma NotLate(s: Server, ms: seq<Message>, m: Message)
    requires OnTrack(s, ms) && m.number >= 1 && !HasNumber(ms, m.number)
    ensures m.number >= s.expected
  {
    forall x | 1 <= x < s.expected ensures HasNumber(ms, x) {
      assert s.log[x - 1].number == x;
    }
  }

  /** The two parts of being on track that follow from conservation alone. */
  lemma PrintedHaveArrived(ms: seq<Message>)
    ensures var t := After(ms);
      && (forall i :: 0 <= i < |t.log| ==> HasNumber(ms, t.log[i].number))
      && (forall i :: 0 <= i < |t.queue| ==> HasNumber(ms, t.queue[i].number))
  {
    var t := After(ms);
    ArrivedNumbers(ms);
    forall i | 0 <= i < |t.log| ensures HasNumber(ms, t.log[i].number) {
      assert t.log[i] in Arrived(t);
    }
    forall i | 0 <= i < |t.queue| ensures HasNumber(ms, t.queue[i].number) {
      assert t.queue[i] in Arrived(t);
    }
  }

  lemma HandleStaysOnTrack(s: Server, ms: seq<Message>, m: Message)
    requires OnTrack(s, ms) && m.number >= 1 && !HasNumber(ms, m.number) && !Overflows(s, m)
    ensures var t := Handle(s, m);
      && CountsUp(t.log) && |t.log| == t.expected - 1
      && (forall i :: 0 <= i < |ms| ==> ms[i].number < t.expected || Waits(t, ms[i].number))
      && (m.number < t.expected || Waits(t, m.number))
  {
    NotLate(s, ms, m);
    if m.number == s.expected {
      ExpectedPrints(s, m);
      forall x | Waits(s, x) ensures x < Handle(s, m).expected || Waits(Handle(s, m), x) {
        ExpectedLeaves(s, m, x);
      }
    } else {
      EarlyArrives(s, m);
    }
  }

  lemma {:induction false} StaysOnTrack(ms: seq<Message>, n: nat, k: nat)
    requires IsPermutation(ms, n) && k <= |ms|
    requires forall j :: 0 <= j < k ==> !OverflowsAt(ms, j)
    ensures OnTrack(After(ms[..k]), ms[..k])
  {
    AfterRests(ms, k);
    if k == 0 {
      assert After(ms[..0]) == START;
    } else {
      StaysOnTrack(ms, n, k - 1);
      AfterOneMore(ms, k - 1);
      assert !OverflowsAt(ms, k - 1);
      assert !HasNumber(ms[..k - 1], ms[k - 1].number);
      HandleStaysOnTrack(After(ms[..k - 1]), ms[..k - 1], ms[k - 1]);
      PrintedHaveArrived(ms[..k]);
      assert forall i :: 0 <= i < k - 1 ==> ms[..k][i] == ms[..k - 1][i];
    }
  }

  lemma OnTrackToTheEnd(s: Server, ms: seq<Message>, n: nat)
    requires OnTrack(s, ms) && IsPermutation(ms, n)
    ensures s.queue == [] && CountsUp(s.log) && |s.log| == n
  {
    assert s.expected <= n ==> HasNumber(ms, s.expected);
    assert s.queue != [] ==> HasNumber(ms, s.queue[0].number);
    if s.expected - 1 > 0 {
      assert HasNumber(ms, s.log[s.expected - 2].number);
    }
    if n > 0 {
      assert HasNumber(ms, n);
    }
  }

  lemma HandleExtendsLog(s: Server, m: Message)
    ensures s.log <= Handle(s, m).log
  {
    if m.number == s.expected {
      var k := DueTakesRun(s.(log := s.log + [m], expected := s.expected + 1));
    } else if m.number > s.expected && m.number != -1 && |s.queue| >= MAX_WAITING {
      StableSorts.SortSorts(s.queue + [m], Number);
      var q := StableSorts.Sort(s.queue + [m], Number);
      var k := DueTakesRun(s.(queue := q, expected := q[0].number));
    } else if m.number > s.expected {
      StableSorts.SortSorts(s.queue + [m], Number);
    }
  }

  lemma {:induction false} LaterExtendsLog(ms: seq<Message>, k: nat)
    requires k <= |ms|
    ensures After(ms[..k]).log <= After(ms).log
    decreases |ms| - k
  {
    if k < |ms| {
      AfterOneMore(ms, k);
      HandleExtendsLog(After(ms[..k]), ms[k]);
      LaterExtendsLog(ms, k + 1);
    } else {
      assert ms[..k] == ms;
    }
  }

  /** An overflow prints a number larger than the one that is due at that place of the log. */
  lemma OverflowPrintsOutOfTurn(s: Server, m: Message)
    requires Resting(s) && Overflows(s, m) && !Waits(s, m.number) && |s.log| == s.expected - 1
    ensures var t := Handle(s, m); |t.log| > |s.log| && t.log[|s.log|].number > |s.log| + 1
  {
    WaitingIncreases(s, m);
    var q := StableSorts.Sort(s.queue + [m], Number);
    var k := DueTakesRun(s.(queue := q, expected := q[0].number));
    assert Handle(s, m).log == s.log + q[..k];
  }

  /** Messages 1..n, arriving in whatever order and printed completely when the server shuts down,
      come out as 1..n exactly when no arrival overflows the queue. */
  lemma PrintedInOrderExactlyWhenFitting(ms: seq<Message>, n: nat)
    requires IsPermutation(ms, n)
    ensures var log := All(After(ms)).log;
      (|log| == n && CountsUp(log)) <==> Fits(ms)
  {
    assert ms[..|ms|] == ms;
    AfterRests(ms, |ms|);
    AllInOrder(After(ms));
    if Fits(ms) {
      StaysOnTrack(ms, n, |ms|);
      OnTrackToTheEnd(After(ms), ms, n);
    } else {
      var k := FirstOverflow(ms);
      StaysOnTrack(ms, n, k);
      AfterRests(ms, k);
      var s := After(ms[..k]);
      OverflowPrintsOutOfTurn(s, ms[k]);
      AfterOneMore(ms, k);
      LaterExtendsLog(ms, k + 1);
      var log := All(After(ms)).log;
      assert After(ms[..k + 1]).log <= log;
      assert log[|s.log|].number > |s.log| + 1;
    }
  }

  lemma FirstOverflow(ms: seq<Message>) returns (k: nat)
    requires !Fits(ms)
    ensures k < |ms| && OverflowsAt(ms, k)
    ensures forall j :: 0 <= j < k ==> !OverflowsAt(ms, j)
  {
    k := 0;
    while !OverflowsAt(ms, k)
      invariant k < |ms|
      invariant forall j :: 0 <= j < k ==> !OverflowsAt(ms, j)
      decreases |ms| - k
    {
      k := k + 1;
    }
  }
}
