/** The message sequencing of emrun's web server (emrun.py): messages carry numbers and may arrive
    out of order; early ones wait in a sorted queue of bounded length. Every handler holds the
    server's mutex, so one call is one step. */
module EmrunServer {
  import opened Lists
  import opened StableSorts

  /** A number of -1 marks a message without one. */
  datatype Message = Message(number: int, text: string, toStderr: bool)

  /** `log` is what has been printed so far. */
  datatype Server = Server(expected: int, queue: seq<Message>, log: seq<Message>)

  const MAX_WAITING := 16
  const START := Server(1, [], [])

  function Number(m: Message): int {
    m.number
  }

  /** Prints what is due at the head of the queue. */
  function Due(s: Server): (t: Server)
    ensures |t.queue| <= |s.queue|
    ensures s.queue != [] && s.queue[0].number == s.expected ==> |t.queue| < |s.queue|
    decreases |s.queue|
  {
    if s.queue != [] && s.queue[0].number == s.expected then
      Due(Server(s.expected + 1, s.queue[1..], s.log + [s.queue[0]]))
    else s
  }

  /** Skips the gap before the oldest waiting message. */
  function Next(s: Server): (t: Server)
    ensures s.queue != [] ==> |t.queue| < |s.queue|
  {
    if s.queue == [] then s else Due(s.(expected := s.queue[0].number))
  }

  function All(s: Server): (t: Server)
    ensures t.queue == []
    decreases |s.queue|
  {
    if s.queue == [] then s else All(Next(s))
  }

  function Handle(s: Server, m: Message): Server {
    if m.number == -1 then s.(log := s.log + [m])
    else if m.number == s.expected then Due(s.(log := s.log + [m], expected := s.expected + 1))
    else if m.number < s.expected then s.(log := s.log + [m])
    else
      var t := s.(queue := Sort(s.queue + [m], Number));
      if |t.queue| > MAX_WAITING then Next(t) else t
  }

  /** The timer of the server loop; `late` says that nothing has arrived for five seconds. */
  function Tick(s: Server, late: bool): Server {
    if s.queue != [] && late then Next(s) else s
  }

  ghost predicate Increasing(q: seq<Message>) {
    forall i, j :: 0 <= i < j < |q| ==> q[i].number < q[j].number
  }

  /** How the server is between two calls: the queue is strictly sorted, lies beyond the expected
      number, and is not too long. */
  ghost predicate Resting(s: Server) {
    && s.expected >= 1
    && Increasing(s.queue)
    && (forall i :: 0 <= i < |s.queue| ==> s.queue[i].number > s.expected)
    && |s.queue| <= MAX_WAITING
  }

  ghost predicate Waits(s: Server, n: int) {
    exists i :: 0 <= i < |s.queue| && s.queue[i].number == n
  }

  /** Everything that has arrived. */
  ghost function Arrived(s: Server): multiset<Message> {
    multiset(s.log) + multiset(s.queue)
  }

  /** What `Due` prints: the longest run of consecutive numbers at the head of the queue. */
  lemma {:induction false} DueTakesRun(s: Server) returns (k: nat)
    ensures k <= |s.queue|
    ensures Due(s) == Server(s.expected + k, s.queue[k..], s.log + s.queue[..k])
    ensures forall i :: 0 <= i < k ==> s.queue[i].number == s.expected + i
    ensures k < |s.queue| ==> s.queue[k].number != s.expected + k
    decreases |s.queue|
  {
    if s.queue != [] && s.queue[0].number == s.expected {
      var t := Server(s.expected + 1, s.queue[1..], s.log + [s.queue[0]]);
      var j := DueTakesRun(t);
      k := j + 1;
      assert s.queue[1..][j..] == s.queue[k..];
      assert s.log + [s.queue[0]] + s.queue[1..][..j] == s.log + s.queue[..k];
      forall i | 0 <= i < k ensures s.queue[i].number == s.expected + i {
        if i > 0 {
          assert t.queue[i - 1] == s.queue[i];
        }
      }
    } else {
      k := 0;
      assert s.log + s.queue[..0] == s.log && s.queue[0..] == s.queue;
    }
  }

  lemma DueConserves(s: Server)
    ensures Arrived(Due(s)) == Arrived(s)
  {
    var k := DueTakesRun(s);
    assert s.queue == s.queue[..k] + s.queue[k..];
  }

  lemma NextConserves(s: Server)
    ensures Arrived(Next(s)) == Arrived(s)
  {
    if s.queue != [] {
      DueConserves(s.(expected := s.queue[0].number));
    }
  }

  lemma {:induction false} AllConserves(s: Server)
    ensures Arrived(All(s)) == Arrived(s) == multiset(All(s).log)
    decreases |s.queue|
  {
    if s.queue != [] {
      NextConserves(s);
      AllConserves(Next(s));
    }
  }

  /** No message is lost or printed twice: what has been printed and what waits is what arrived. */
  lemma HandleConserves(s: Server, m: Message)
    ensures Arrived(Handle(s, m)) == Arrived(s) + multiset{m}
  {
    if m.number == s.expected && m.number != -1 {
      DueConserves(s.(log := s.log + [m], expected := s.expected + 1));
    } else if m.number > s.expected && m.number != -1 {
      SortSorts(s.queue + [m], Number);
      NextConserves(s.(queue := Sort(s.queue + [m], Number)));
    }
  }

  /** The `k` first of `q` carry consecutive numbers from `first` on, and the next one does not. */
  ghost predicate LongestRun(q: seq<Message>, first: int, k: nat) {
    && k <= |q|
    && (forall i :: 0 <= i < k ==> q[i].number == first + i)
    && (k < |q| ==> q[k].number != first + k)
  }

  /** The server when the `k` first of `q`, numbered from `first` on, are printed behind `log`. */
  function Printed(log: seq<Message>, q: seq<Message>, first: int, k: nat): Server
    requires k <= |q|
  {
    Server(first + k, q[k..], log + q[..k])
  }

  /** A tick prints nothing before its time or when nothing waits; otherwise exactly the longest run of
      consecutive numbers at the head of the queue, at least one message, whatever number was expected. */
  lemma TickPrintsRun(s: Server, late: bool) returns (k: nat)
    ensures late && s.queue != [] ==>
      k > 0 && LongestRun(s.queue, s.queue[0].number, k) && Tick(s, late) == Printed(s.log, s.queue, s.queue[0].number, k)
    ensures !late || s.queue == [] ==> Tick(s, late) == s
  {
    k := 0;
    if late && s.queue != [] {
      k := NextPrintsRun(s);
    }
  }

  /** What a message makes the server print. Late and unnumbered: it alone, and nothing else changes. The
      expected one: it, and the longest run of the numbers behind it. An early one waits, in the order of
      the numbers, and nothing is printed while there is room; a seventeenth makes the server skip to the
      smallest number and print the longest run from there. */
  lemma HandlePrints(s: Server, m: Message) returns (k: nat)
    ensures m.number == -1 || m.number < s.expected ==> Handle(s, m) == s.(log := s.log + [m])
    ensures m.number == s.expected != -1 ==>
      LongestRun(s.queue, m.number + 1, k) && Handle(s, m) == Printed(s.log + [m], s.queue, m.number + 1, k)
    ensures m.number > s.expected && m.number != -1 && |s.queue| < 16 ==>
      Handle(s, m) == s.(queue := Sort(s.queue + [m], Number))
    ensures m.number > s.expected && m.number != -1 && |s.queue| >= 16 ==>
      var q := Sort(s.queue + [m], Number);
      |q| == |s.queue| + 1 && k > 0 && LongestRun(q, q[0].number, k) && Handle(s, m) == Printed(s.log, q, q[0].number, k)
  {
    k := 0;
    if m.number == s.expected != -1 {
      k := DueTakesRun(s.(log := s.log + [m], expected := s.expected + 1));
    } else if m.number > s.expected && m.number != -1 {
      SortSorts(s.queue + [m], Number);
      if |s.queue| >= MAX_WAITING {
        k := NextPrintsRun(s.(queue := Sort(s.queue + [m], Number)));
      }
    }
  }

  lemma NextPrintsRun(s: Server) returns (k: nat)
    requires s.queue != []
    ensures k > 0 && LongestRun(s.queue, s.queue[0].number, k) && Next(s) == Printed(s.log, s.queue, s.queue[0].number, k)
  {
    k := DueTakesRun(s.(expected := s.queue[0].number));
  }

  lemma RestOfIncreasing(q: seq<Message>, k: nat, low: int)
    requires Increasing(q) && k <= |q| && (k < |q| ==> q[k].number > low)
    ensures Increasing(q[k..]) && forall i :: 0 <= i < |q[k..]| ==> q[k..][i].number > low
  {
    forall i | 0 <= i < |q[k..]| ensures q[k..][i].number > low {
      assert i > 0 ==> q[k].number < q[k + i].number;
    }
  }

  lemma DueRests(s: Server)
    requires s.expected >= 1 && Increasing(s.queue) && |s.queue| <= MAX_WAITING + 1
    requires forall i :: 0 <= i < |s.queue| ==> s.queue[i].number >= s.expected
    requires |s.queue| > MAX_WAITING ==> s.queue[0].number == s.expected
    ensures Resting(Due(s))
  {
    var k := DueTakesRun(s);
    if k < |s.queue| {
      AtLeast(s.queue, s.expected, k);
    }
    RestOfIncreasing(s.queue, k, s.expected + k);
  }

  /** The numbers of a strictly increasing queue grow at least as fast as its indices. */
  lemma {:induction false} AtLeast(q: seq<Message>, low: int, i: nat)
    requires Increasing(q) && i < |q| && q[0].number >= low
    ensures q[i].number >= low + i
  {
    if i > 0 {
      AtLeast(q, low, i - 1);
      assert q[i - 1].number < q[i].number;
    }
  }

  lemma WaitingIncreases(s: Server, m: Message)
    requires Resting(s) && m.number > s.expected && !Waits(s, m.number)
    ensures var q := Sort(s.queue + [m], Number);
      && |q| == |s.queue| + 1 && Increasing(q) && (forall i :: 0 <= i < |q| ==> q[i].number > s.expected)
  {
    var all := s.queue + [m];
    SortSorts(all, Number);
    NewNumberIsDistinct(s, m);
    DistinctIncreases(all);
    SortKeepsAbove(all, s.expected);
  }

  lemma NewNumberIsDistinct(s: Server, m: Message)
    requires Increasing(s.queue) && !Waits(s, m.number)
    ensures Distinct(Map(s.queue + [m], Number))
  {
    var all := s.queue + [m];
    forall i, j | 0 <= i < j < |all| ensures Map(all, Number)[i] != Map(all, Number)[j] {
      assert all[i].number != all[j].number;
      assert Number(all[i]) == all[i].number && Number(all[j]) == all[j].number;
    }
  }

  lemma DistinctIncreases(all: seq<Message>)
    requires Distinct(Map(all, Number))
    ensures Increasing(Sort(all, Number))
  {
    var q := Sort(all, Number);
    SortSorts(all, Number);
    SortKeepsDistinct(all, Number, Number);
    forall i, j | 0 <= i < j < |q| ensures q[i].number < q[j].number {
      assert Number(q[i]) <= Number(q[j]) && Map(q, Number)[i] != Map(q, Number)[j];
    }
  }

  lemma SortKeepsAbove(all: seq<Message>, low: int)
    requires forall i :: 0 <= i < |all| ==> all[i].number > low
    ensures forall i :: 0 <= i < |Sort(all, Number)| ==> Sort(all, Number)[i].number > low
  {
    var q := Sort(all, Number);
    SortSorts(all, Number);
    forall i | 0 <= i < |q| ensures q[i].number > low {
      assert q[i] in multiset(q);
      assert q[i] in all;
    }
  }

  /** A number that already waits ruins the order: afterwards two equal numbers wait, or one that is
      no longer expected. */
  lemma RepeatedNumberBreaksRest(s: Server, m: Message)
    requires Resting(s) && m.number > s.expected && Waits(s, m.number)
    ensures !Resting(Handle(s, m))
  {
    var q := Sort(s.queue + [m], Number);
    var t := s.(queue := q);
    SortSorts(s.queue + [m], Number);
    var a, b := TwoAlike(s, m, q);
    if |q| > MAX_WAITING {
      var u := t.(expected := q[0].number);
      var k := DueTakesRun(u);
      var h := Handle(s, m);
      assert h == Due(u);
      if a >= k {
        assert h.queue[a - k] == q[a] && h.queue[b - k] == q[b];
      } else if b >= k {
        assert h.queue[b - k] == q[b] && q[b].number == u.expected + a < h.expected;
      }
    }
  }

  lemma TwoAlike(s: Server, m: Message, q: seq<Message>) returns (a: nat, b: nat)
    requires Waits(s, m.number) && multiset(q) == multiset(s.queue + [m])
    ensures a < b < |q| && q[a].number == q[b].number == m.number
  {
    var i :| 0 <= i < |s.queue| && s.queue[i].number == m.number;
    var x := s.queue[i];
    var c, d: nat;
    if x == m {
      assert s.queue == s.queue[..i] + [x] + s.queue[i + 1..];
      assert multiset(s.queue + [m])[m] >= 2;
      c, d := TwiceInSeq(q, m);
    } else {
      assert x in s.queue + [m] && m in s.queue + [m];
      assert x in multiset(q) && m in multiset(q);
      c :| 0 <= c < |q| && q[c] == x;
      d :| 0 <= d < |q| && q[d] == m;
    }
    a, b := if c < d then c else d, if c < d then d else c;
  }

  lemma TwiceInSeq(q: seq<Message>, m: Message) returns (c: nat, d: nat)
    requires multiset(q)[m] >= 2
    ensures c < |q| && d < |q| && c != d && q[c] == q[d] == m
  {
    c :| 0 <= c < |q| && q[c] == m;
    assert q == q[..c] + [m] + q[c + 1..];
    if m in q[..c] {
      d :| 0 <= d < c && q[..c][d] == m;
    } else {
      assert m in q[c + 1..];
      var e :| 0 <= e < |q[c + 1..]| && q[c + 1..][e] == m;
      d := c + 1 + e;
    }
  }

  /** A call leaves the server at rest exactly when the number it handles is not already waiting. */
  lemma HandleKeepsResting(s: Server, m: Message)
    requires Resting(s)
    ensures Resting(Handle(s, m)) <==> !Waits(s, m.number)
  {
    if m.number == s.expected {
      DueRests(s.(log := s.log + [m], expected := s.expected + 1));
    } else if m.number > s.expected {
      if Waits(s, m.number) {
        RepeatedNumberBreaksRest(s, m);
      } else {
        WaitingIncreases(s, m);
        var q := Sort(s.queue + [m], Number);
        if |q| > MAX_WAITING {
          DueRests(s.(queue := q, expected := q[0].number));
        }
      }
    }
  }

  lemma TickKeepsResting(s: Server, late: bool)
    requires Resting(s)
    ensures Resting(Tick(s, late))
  {
    if s.queue != [] {
      DueRests(s.(expected := s.queue[0].number));
    }
  }

  /** From `s` to `t` messages were printed, each of them smaller than whatever it left unprinted:
      those printed after it and those that go on waiting. */
  ghost predicate InOrder(s: Server, t: Server) {
    s.log <= t.log && Increasing(t.log[|s.log|..] + t.queue)
  }

  lemma DueInOrder(s: Server, log: seq<Message>)
    requires log <= s.log && Increasing(s.log[|log|..] + s.queue)
    ensures log <= Due(s).log && Increasing(Due(s).log[|log|..] + Due(s).queue)
  {
    var k := DueTakesRun(s);
    assert Due(s).log[|log|..] + Due(s).queue == s.log[|log|..] + s.queue by {
      assert s.queue == s.queue[..k] + s.queue[k..];
      assert Due(s).log[|log|..] == s.log[|log|..] + s.queue[..k];
    }
  }

  /** Whenever a message is printed, in order, late, because the queue is too long or because of the
      clock, no message with a smaller number has arrived and is still unprinted. */
  lemma HandleInOrder(s: Server, m: Message)
    requires Resting(s) && !Waits(s, m.number)
    ensures InOrder(s, Handle(s, m))
  {
    if m.number <= s.expected {
      var t := s.(log := s.log + [m]);
      assert t.log[|s.log|..] + t.queue == [m] + s.queue;
      assert Increasing([m] + s.queue);
      if m.number == s.expected {
        DueInOrder(t.(expected := s.expected + 1), s.log);
      }
    } else {
      WaitingIncreases(s, m);
      var t := s.(queue := Sort(s.queue + [m], Number));
      assert t.log[|s.log|..] + t.queue == t.queue;
      DueInOrder(t.(expected := t.queue[0].number), s.log);
    }
  }

  lemma TickInOrder(s: Server, late: bool)
    requires Resting(s)
    ensures InOrder(s, Tick(s, late))
  {
    assert s.log[|s.log|..] + s.queue == s.queue;
    if s.queue != [] {
      DueInOrder(s.(expected := s.queue[0].number), s.log);
    }
  }

  /** Flushing prints all that waits, in the order of the queue. */
  lemma {:induction false} AllInOrder(s: Server)
    ensures All(s).log == s.log + s.queue
    decreases |s.queue|
  {
    if s.queue != [] {
      var u := s.(expected := s.queue[0].number);
      var k := DueTakesRun(u);
      AllInOrder(Next(s));
      Regrouped(s.log, s.queue, k);
    }
  }

  lemma Regrouped(log: seq<Message>, q: seq<Message>, k: nat)
    requires k <= |q|
    ensures log + q[..k] + q[k..] == log + q
  {
    assert q == q[..k] + q[k..];
  }

  datatype Input = Arrive(m: Message) | Clock(late: bool)

  function React(s: Server, x: Input): Server {
    match x
    case Arrive(m) => Handle(s, m)
    case Clock(late) => Tick(s, late)
  }

  function Run(inputs: seq<Input>): Server
    decreases |inputs|
  {
    if inputs == [] then START else React(Run(inputs[..|inputs| - 1]), inputs[|inputs| - 1])
  }

  /** The client never uses a number twice. */
  ghost predicate NumberedOnce(inputs: seq<Input>) {
    forall i, j :: 0 <= i < j < |inputs| && inputs[i].Arrive? && inputs[j].Arrive? && inputs[i].m.number != -1
      ==> inputs[i].m.number != inputs[j].m.number
  }

  ghost predicate ArrivedIn(inputs: seq<Input>, m: Message) {
    exists i :: 0 <= i < |inputs| && inputs[i] == Arrive(m)
  }

  lemma {:induction false} WaitingHasArrived(inputs: seq<Input>)
    ensures forall m :: m in Arrived(Run(inputs)) ==> ArrivedIn(inputs, m)
    decreases |inputs|
  {
    if inputs != [] {
      var init, x := inputs[..|inputs| - 1], inputs[|inputs| - 1];
      WaitingHasArrived(init);
      match x {
        case Arrive(m) => HandleConserves(Run(init), m);
        case Clock(late) => NextConserves(Run(init));
      }
      forall m | m in Arrived(Run(inputs)) ensures ArrivedIn(inputs, m) {
        if x == Arrive(m) {
          assert inputs[|inputs| - 1] == Arrive(m);
        } else {
          assert m in Arrived(Run(init));
          var i :| 0 <= i < |init| && init[i] == Arrive(m);
          assert inputs[i] == Arrive(m);
        }
      }
    }
  }

  lemma NewNumberDoesNotWait(inputs: seq<Input>)
    requires inputs != [] && NumberedOnce(inputs) && inputs[|inputs| - 1].Arrive?
    requires Resting(Run(inputs[..|inputs| - 1]))
    ensures !Waits(Run(inputs[..|inputs| - 1]), inputs[|inputs| - 1].m.number)
  {
    var init := inputs[..|inputs| - 1];
    var s, n := Run(init), inputs[|inputs| - 1].m.number;
    WaitingHasArrived(init);
    forall i | 0 <= i < |s.queue| ensures s.queue[i].number != n {
      assert s.queue[i] in Arrived(s);
      var j :| 0 <= j < |init| && init[j] == Arrive(s.queue[i]);
      assert inputs[j] == init[j];
    }
  }

  /** In every run, whatever the clock does, the server is at rest between calls. */
  lemma {:induction false} RunRests(inputs: seq<Input>)
    requires NumberedOnce(inputs)
    ensures Resting(Run(inputs))
    decreases |inputs|
  {
    if inputs != [] {
      var init := inputs[..|inputs| - 1];
      RunRests(init);
      match inputs[|inputs| - 1] {
        case Arrive(m) =>
          NewNumberDoesNotWait(inputs);
          HandleKeepsResting(Run(init), m);
        case Clock(late) => TickKeepsResting(Run(init), late);
      }
    }
  }

  /** In every run, every print leaves only larger numbers unprinted. */
  lemma RunPrintsInOrder(inputs: seq<Input>)
    requires NumberedOnce(inputs) && inputs != []
    ensures InOrder(Run(inputs[..|inputs| - 1]), Run(inputs))
  {
    var init := inputs[..|inputs| - 1];
    RunRests(init);
    match inputs[|inputs| - 1] {
      case Arrive(m) =>
        NewNumberDoesNotWait(inputs);
        HandleInOrder(Run(init), m);
      case Clock(late) => TickInOrder(Run(init), late);
    }
  }

  lemma DueOne(e: int, m: Message, q: seq<Message>, log: seq<Message>)
    requires m.number == e
    ensures Due(Server(e, [m] + q, log)) == Due(Server(e + 1, q, log + [m]))
  {
    assert ([m] + q)[1..] == q;
  }

  lemma HandleEqual(s: Server, m: Message)
    requires m.number == s.expected >= 1 && (s.queue == [] || s.queue[0].number != s.expected + 1)
    ensures Handle(s, m) == Server(s.expected + 1, s.queue, s.log + [m])
  {
  }

  lemma HandleEarly(s: Server, m: Message)
    requires m.number > s.expected >= 1 && (s.queue == [] || s.queue == [m])
    ensures Handle(s, m) == s.(queue := s.queue + [m])
  {
    SortOfSorted(s.queue + [m], Number);
  }

  lemma HandleFirst(m1: Message, m2: Message)
    requires m1.number == 1 && m2.number == 2
    ensures Handle(Server(1, [m2, m2], []), m1) == Server(3, [m2], [m1, m2])
  {
    assert [] + [m1] == [m1] && [m1] + [m2] == [m1, m2] && [m2] + [m2] == [m2, m2];
    DueOne(2, m2, [m2], [m1]);
  }

  lemma NextOne(e: int, m: Message, log: seq<Message>)
    requires e != m.number
    ensures Tick(Server(e, [m], log), true).expected == m.number + 1
  {
    assert [m] + [] == [m];
    DueOne(m.number, m, [], log);
  }

  /** With a repeated number, a message can wait behind the expected number, and skipping to it then
      moves the expected number backwards: here number 2 arrives twice before number 1, and the expected
      number moves from 5 to 3. */
  lemma RepeatedNumberMovesBack(m1: Message, m2: Message, m3: Message, m4: Message)
    returns (inputs: seq<Input>)
    requires m1.number == 1 && m2.number == 2 && m3.number == 3 && m4.number == 4
    ensures Run(inputs).expected == 5 && Run(inputs + [Clock(true)]).expected == 3
  {
    var log := [m1, m2];
    HandleEarly(START, m2);
    HandleEarly(Server(1, [m2], []), m2);
    HandleFirst(m1, m2);
    HandleEqual(Server(3, [m2], log), m3);
    HandleEqual(Server(4, [m2], log + [m3]), m4);
    NextOne(5, m2, log + [m3] + [m4]);
    inputs := RunOn([], START, Arrive(m2));
    assert [] + [m2] == [m2] && [m2] + [m2] == [m2, m2];
    inputs := RunOn(inputs, Server(1, [m2], []), Arrive(m2));
    inputs := RunOn(inputs, Server(1, [m2, m2], []), Arrive(m1));
    inputs := RunOn(inputs, Server(3, [m2], log), Arrive(m3));
    inputs := RunOn(inputs, Server(4, [m2], log + [m3]), Arrive(m4));
    RunStep(inputs, Clock(true));
  }

  lemma RunOn(inputs: seq<Input>, s: Server, x: Input) returns (more: seq<Input>)
    requires Run(inputs) == s
    ensures Run(more) == React(s, x)
  {
    more := inputs + [x];
    RunStep(inputs, x);
  }

  lemma RunStep(inputs: seq<Input>, x: Input)
    ensures Run(inputs + [x]) == React(Run(inputs), x)
  {
    assert (inputs + [x])[..|inputs|] == inputs;
  }
}
