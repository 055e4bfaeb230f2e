/** A whole emrun session: the page's client (src/emrun_postjs.js) numbers its messages, counts its
    posts in flight and posts `^exit^` when nothing is in flight any more; a network that reorders
    and may lose requests; and the threaded server (emrun.py). One event is one atomic action. */
module EmrunExit {
  import opened Options
  import opened EmrunServer
  import opened EmrunMessages

  /** `Lost`: the request never reached a handler, or the handler raised. */
  datatype Fate = Travelling | Served | Lost

  /** An asynchronous POST: a numbered message, or the page-load notice (None). `done`: the client has
      seen the request end, for better or worse. */
  datatype Post = Post(message: Option<Message>, fate: Fate, done: bool)

  /** An `^exit^` posted: how many posts had been made before it, and the exit code it carries. */
  datatype ExitPost = ExitPost(before: nat, code: int)

  /** `status`: the exit code that the runtime has set. */
  datatype Session = Session(posts: seq<Post>, next: int, inFlight: int, shouldClose: bool, status: int,
                             exits: seq<ExitPost>, server: Server)

  const BEGIN := Session([], 1, 0, false, 0, [], START)

  datatype Event =
    | Print(text: string, toStderr: bool)
    | PageLoads
    | ExitCalled(code: int)  // the program exits and its exit handler runs
    | Serve(i: nat)          // a handler thread treats post i
    | Lose(i: nat)           // the network drops post i
    | Ends(i: nat)           // readyState 4 for post i
    | Ticks(late: bool)      // the server's timer
    | StopsItself            // the server's own time limits
    | ServeExit(j: nat)      // a handler thread treats `^exit^` number j; the server is not to serve on

  function Send(s: Session, m: Option<Message>): Session {
    s.(posts := s.posts + [Post(m, Travelling, false)], inFlight := s.inFlight + 1)
  }

  function PostExit(s: Session): Session {
    s.(exits := s.exits + [ExitPost(|s.posts|, s.status)])
  }

  function SetFate(s: Session, i: nat, fate: Fate): Session
    requires i < |s.posts|
  {
    s.(posts := s.posts[i := s.posts[i].(fate := fate)])
  }

  predicate Sendable(message: Option<Message>) {
    message.Some? ==> message.value.number >= 0 && IsBytes(message.value.text)
  }

  function Body(message: Option<Message>): string
    requires Sendable(message)
  {
    match message
    case Some(m) => Format(m)
    case None => PAGE_LOAD
  }

  /** The request is made from, and read back from, its body. */
  function ServePost(s: Session, i: nat): Session
    requires i < |s.posts|
  {
    var message := s.posts[i].message;
    if !Sendable(message) then s
    else
      var r := EmrunMessages.Serve(s.server, Body(message), false);
      SetFate(s, i, if r.answered then Served else Lost).(server := r.server)
  }

  function Step(s: Session, e: Event): Session {
    match e
    case Print(text, toStderr) =>
      if IsBytes(text) then Send(s, Some(Message(s.next, text, toStderr))).(next := s.next + 1) else s
    case PageLoads => Send(s, None)
    case ExitCalled(code) =>
      var t := s.(status := code);
      if s.inFlight == 0 then PostExit(t) else t.(shouldClose := true)
    case Serve(i) => if i < |s.posts| && s.posts[i].fate.Travelling? then ServePost(s, i) else s
    case Lose(i) => if i < |s.posts| && s.posts[i].fate.Travelling? then SetFate(s, i, Lost) else s
    case Ends(i) =>
      if i < |s.posts| && !s.posts[i].fate.Travelling? && !s.posts[i].done then
        var t := s.(posts := s.posts[i := s.posts[i].(done := true)], inFlight := s.inFlight - 1);
        if t.inFlight == 0 && t.shouldClose then PostExit(t) else t
      else s
    case Ticks(late) => s.(server := Tick(s.server, late))
    case StopsItself => s.(server := All(s.server))
    case ServeExit(j) =>
      if j < |s.exits| then s.(server := EmrunMessages.Serve(s.server, ExitBody(s.exits[j].code), false).server) else s
  }

  function Exec(s: Session, events: seq<Event>): Session
    decreases |events|
  {
    if events == [] then s else Exec(Step(s, events[0]), events[1..])
  }

  function Open(posts: seq<Post>): int {
    if posts == [] then 0 else Open(posts[..|posts| - 1]) + if posts[|posts| - 1].done then 0 else 1
  }

  ghost predicate Counted(s: Session) {
    && s.inFlight == Open(s.posts)
    && (forall i :: 0 <= i < |s.posts| && s.posts[i].done ==> !s.posts[i].fate.Travelling?)
  }

  /** Whatever was posted before an exit had ended before that exit. */
  ghost predicate ExitsLast(s: Session) {
    forall j :: 0 <= j < |s.exits| ==> EndedBefore(s, s.exits[j].before)
  }

  ghost predicate EndedBefore(s: Session, n: nat) {
    n <= |s.posts| && forall i :: 0 <= i < n ==> s.posts[i].done
  }

  ghost predicate Numbered(s: Session) {
    && s.next >= 1
    && (forall i :: 0 <= i < |s.posts| && s.posts[i].message.Some? ==>
          1 <= s.posts[i].message.value.number < s.next && IsBytes(s.posts[i].message.value.text))
    && (forall i, j :: 0 <= i < j < |s.posts| && s.posts[i].message.Some? && s.posts[j].message.Some? ==>
          s.posts[i].message.value.number < s.posts[j].message.value.number)
  }

  ghost predicate WasServed(posts: seq<Post>, m: Message) {
    exists i :: 0 <= i < |posts| && posts[i].message == Some(m) && posts[i].fate.Served?
  }

  /** The server has every served message once, printed or waiting, and nothing else. */
  ghost predicate Delivered(s: Session) {
    forall m :: Arrived(s.server)[m] == if WasServed(s.posts, m) then 1 else 0
  }

  ghost predicate Inv(s: Session) {
    Counted(s) && ExitsLast(s) && Numbered(s) && Delivered(s)
  }

  lemma {:induction false} OpenUpdate(posts: seq<Post>, i: nat, p: Post)
    requires i < |posts|
    ensures Open(posts[i := p]) == Open(posts) - (if posts[i].done then 0 else 1) + (if p.done then 0 else 1)
  {
    var init := posts[..|posts| - 1];
    if i < |posts| - 1 {
      OpenUpdate(init, i, p);
      assert posts[i := p][..|posts| - 1] == init[i := p];
    } else {
      assert posts[i := p][..|posts| - 1] == init;
    }
  }

  lemma {:induction false} OpenZero(posts: seq<Post>)
    ensures Open(posts) >= 0
    ensures Open(posts) == 0 ==> forall i :: 0 <= i < |posts| ==> posts[i].done
  {
    if posts != [] {
      OpenZero(posts[..|posts| - 1]);
      assert posts == posts[..|posts| - 1] + [posts[|posts| - 1]];
    }
  }

  lemma ServingReads(m: Message)
    requires m.number >= 1 && IsBytes(m.text)
    ensures Receive(Format(m)) == if HasPercentU(m.text) then Raised else Log(m)
  {
    ReceivedExactlyWithoutPercentU(m);
  }

  lemma SendKeepsInv(s: Session, m: Option<Message>)
    requires Inv(s) && (m.Some? ==> m.value.number == s.next && IsBytes(m.value.text))
    ensures Inv(Send(s, m).(next := s.next + 1))
    ensures m.None? ==> Inv(Send(s, m))
  {
    SendKeepsCounts(s, m, s.next);
    SendKeepsCounts(s, m, s.next + 1);
    SendKeepsNumbers(s, m);
    SendDelivers(s, m, s.next);
    SendDelivers(s, m, s.next + 1);
  }

  lemma SendKeepsCounts(s: Session, m: Option<Message>, next: int)
    requires Counted(s) && ExitsLast(s)
    ensures Counted(Send(s, m).(next := next)) && ExitsLast(Send(s, m).(next := next))
  {
    var t := Send(s, m).(next := next);
    assert t.posts[..|s.posts|] == s.posts;
    forall j | 0 <= j < |t.exits| ensures EndedBefore(t, t.exits[j].before) {
      assert EndedBefore(s, s.exits[j].before);
    }
  }

  lemma SendKeepsNumbers(s: Session, m: Option<Message>)
    requires Numbered(s) && (m.Some? ==> m.value.number == s.next && IsBytes(m.value.text))
    ensures Numbered(Send(s, m).(next := s.next + 1))
    ensures m.None? ==> Numbered(Send(s, m))
  {
  }

  lemma SendDelivers(s: Session, m: Option<Message>, next: int)
    requires Delivered(s)
    ensures Delivered(Send(s, m).(next := next))
  {
    var t := Send(s, m).(next := next);
    forall x ensures Arrived(t.server)[x] == if WasServed(t.posts, x) then 1 else 0 {
      NotServedYet(s.posts, m, x);
      assert Arrived(s.server)[x] == if WasServed(s.posts, x) then 1 else 0;
    }
  }

  lemma NotServedYet(posts: seq<Post>, m: Option<Message>, x: Message)
    ensures WasServed(posts + [Post(m, Travelling, false)], x) <==> WasServed(posts, x)
  {
    if i :| 0 <= i < |posts| && posts[i].message == Some(x) && posts[i].fate.Served? {
      assert (posts + [Post(m, Travelling, false)])[i] == posts[i];
    }
  }

  lemma FateKeepsPosts(s: Session, i: nat, fate: Fate)
    requires Counted(s) && ExitsLast(s) && Numbered(s) && i < |s.posts|
    requires s.posts[i].fate.Travelling? && !fate.Travelling?
    ensures var t := SetFate(s, i, fate); Counted(t) && ExitsLast(t) && Numbered(t)
  {
    var t := SetFate(s, i, fate);
    OpenUpdate(s.posts, i, t.posts[i]);
    forall j | 0 <= j < |s.exits| ensures EndedBefore(t, s.exits[j].before) {
      assert EndedBefore(s, s.exits[j].before);
    }
  }

  lemma ServedAfter(s: Session, i: nat, fate: Fate, x: Message)
    requires Numbered(s) && i < |s.posts| && s.posts[i].fate.Travelling?
    ensures WasServed(SetFate(s, i, fate).posts, x) <==> WasServed(s.posts, x) || (fate.Served? && s.posts[i].message == Some(x))
    ensures s.posts[i].message == Some(x) ==> !WasServed(s.posts, x)
  {
    var t := SetFate(s, i, fate);
    if WasServed(s.posts, x) {
      var k :| 0 <= k < |s.posts| && s.posts[k].message == Some(x) && s.posts[k].fate.Served?;
      assert t.posts[k] == s.posts[k];
    }
    if fate.Served? && s.posts[i].message == Some(x) {
      assert t.posts[i].fate.Served?;
    }
  }

  lemma LoseKeepsInv(s: Session, i: nat)
    requires Inv(s) && i < |s.posts| && s.posts[i].fate.Travelling?
    ensures Inv(SetFate(s, i, Lost))
  {
    var t := SetFate(s, i, Lost);
    FateKeepsPosts(s, i, Lost);
    forall x ensures WasServed(t.posts, x) <==> WasServed(s.posts, x) {
      ServedAfter(s, i, Lost, x);
    }
  }

  lemma ServeKeepsInv(s: Session, i: nat)
    requires Inv(s) && i < |s.posts| && s.posts[i].fate.Travelling?
    ensures Inv(ServePost(s, i))
  {
    if s.posts[i].message.Some? {
      ServingReads(s.posts[i].message.value);
      LoseKeepsInv(s, i);
      LogKeepsInv(s, i);
    } else {
      PageLoadIsReceived(PAGE_LOAD);
      FateKeepsPosts(s, i, Served);
      forall x ensures WasServed(SetFate(s, i, Served).posts, x) <==> WasServed(s.posts, x) {
        ServedAfter(s, i, Served, x);
      }
    }
  }

  lemma LogKeepsInv(s: Session, i: nat)
    requires Inv(s) && i < |s.posts| && s.posts[i].fate.Travelling? && s.posts[i].message.Some?
    ensures Inv(SetFate(s, i, Served).(server := Handle(s.server, s.posts[i].message.value)))
  {
    var m := s.posts[i].message.value;
    var t := SetFate(s, i, Served).(server := Handle(s.server, m));
    FateKeepsPosts(s, i, Served);
    SameCounts(SetFate(s, i, Served), t);
    HandleConserves(s.server, m);
    forall x ensures Arrived(t.server)[x] == if WasServed(t.posts, x) then 1 else 0 {
      ServedAfter(s, i, Served, x);
      assert Arrived(s.server)[x] == if WasServed(s.posts, x) then 1 else 0;
    }
  }

  lemma SameCounts(s: Session, t: Session)
    requires Counted(s) && ExitsLast(s) && Numbered(s) && t == s.(server := t.server)
    ensures Counted(t) && ExitsLast(t) && Numbered(t)
  {
    forall j | 0 <= j < |t.exits| ensures EndedBefore(t, t.exits[j].before) {
      assert EndedBefore(s, s.exits[j].before);
    }
  }

  lemma EndsKeepsInv(s: Session, i: nat)
    requires Inv(s) && i < |s.posts| && !s.posts[i].fate.Travelling? && !s.posts[i].done
    ensures Inv(Step(s, Ends(i)))
  {
    var t := s.(posts := s.posts[i := s.posts[i].(done := true)], inFlight := s.inFlight - 1);
    OpenUpdate(s.posts, i, t.posts[i]);
    forall x ensures WasServed(t.posts, x) <==> WasServed(s.posts, x) {
      if k :| 0 <= k < |s.posts| && s.posts[k].message == Some(x) && s.posts[k].fate.Served? {
        assert t.posts[k].message == Some(x) && t.posts[k].fate.Served?;
      }
    }
    forall j | 0 <= j < |s.exits| ensures EndedBefore(t, s.exits[j].before) {
      assert EndedBefore(s, s.exits[j].before);
    }
    assert Inv(t);
    if t.inFlight == 0 {
      PostExitKeepsInv(t);
    }
  }

  lemma PostExitKeepsInv(s: Session)
    requires Inv(s) && s.inFlight == 0
    ensures Inv(PostExit(s))
  {
    var t := PostExit(s);
    OpenZero(s.posts);
    forall j | 0 <= j < |t.exits| ensures EndedBefore(t, t.exits[j].before) {
      if j < |s.exits| {
        assert EndedBefore(s, s.exits[j].before);
      }
    }
  }

  lemma ServerKeepsInv(s: Session, server: Server)
    requires Inv(s) && Arrived(server) == Arrived(s.server)
    ensures Inv(s.(server := server))
  {
    var t := s.(server := server);
    forall j | 0 <= j < |s.exits| ensures EndedBefore(t, t.exits[j].before) {
      assert EndedBefore(s, s.exits[j].before);
    }
    forall x ensures Arrived(server)[x] == if WasServed(t.posts, x) then 1 else 0 {
      assert Arrived(s.server)[x] == if WasServed(s.posts, x) then 1 else 0;
    }
  }

  lemma StepKeepsInv(s: Session, e: Event)
    requires Inv(s)
    ensures Inv(Step(s, e))
  {
    match e
    case Print(text, toStderr) =>
      if IsBytes(text) {
        SendKeepsInv(s, Some(Message(s.next, text, toStderr)));
      }
    case PageLoads => SendKeepsInv(s, None);
    case ExitCalled(code) =>
      StatusKeepsInv(s, code);
      if s.inFlight == 0 {
        PostExitKeepsInv(s.(status := code));
      } else {
        CloseKeepsInv(s.(status := code));
      }
    case Serve(i) =>
      if i < |s.posts| && s.posts[i].fate.Travelling? {
        ServeKeepsInv(s, i);
      }
    case Lose(i) =>
      if i < |s.posts| && s.posts[i].fate.Travelling? {
        LoseKeepsInv(s, i);
      }
    case Ends(i) =>
      if i < |s.posts| && !s.posts[i].fate.Travelling? && !s.posts[i].done {
        EndsKeepsInv(s, i);
      }
    case Ticks(late) =>
      NextConserves(s.server);
      ServerKeepsInv(s, Tick(s.server, late));
    case StopsItself =>
      AllConserves(s.server);
      ServerKeepsInv(s, All(s.server));
    case ServeExit(j) =>
      if j < |s.exits| {
        ServeExitKeepsInv(s, j);
      }
  }

  lemma ServeExitKeepsInv(s: Session, j: nat)
    requires Inv(s) && j < |s.exits|
    ensures Inv(Step(s, ServeExit(j)))
  {
    AllConserves(s.server);
    ExitIsReceived(s.exits[j].code);
    ServerKeepsInv(s, All(s.server));
  }

  lemma StatusKeepsInv(s: Session, code: int)
    requires Inv(s)
    ensures Inv(s.(status := code))
  {
    var t := s.(status := code);
    forall j | 0 <= j < |s.exits| ensures EndedBefore(t, t.exits[j].before) {
      assert EndedBefore(s, s.exits[j].before);
    }
  }

  lemma CloseKeepsInv(s: Session)
    requires Inv(s)
    ensures Inv(s.(shouldClose := true))
  {
    var t := s.(shouldClose := true);
    forall j | 0 <= j < |s.exits| ensures EndedBefore(t, t.exits[j].before) {
      assert EndedBefore(s, s.exits[j].before);
    }
  }

  lemma {:induction false} ExecKeepsInv(s: Session, events: seq<Event>)
    requires Inv(s)
    ensures Inv(Exec(s, events))
    decreases |events|
  {
    if events != [] {
      StepKeepsInv(s, events[0]);
      ExecKeepsInv(Step(s, events[0]), events[1..]);
    }
  }

  lemma BeginInv()
    ensures Inv(BEGIN)
  {
  }

  /** When an `^exit^` shuts the server down, every message posted before that exit has met its fate,
      and it has been printed exactly once if a handler got it and not at all otherwise. This holds
      of every schedule of page, network, handlers and timers. */
  lemma ExitFindsEverythingLogged(events: seq<Event>, j: nat, i: nat)
    requires var s := Exec(BEGIN, events); j < |s.exits| && i < s.exits[j].before && i < |s.posts| && s.posts[i].message.Some?
    ensures var s := Exec(BEGIN, events);
      var log := Step(s, ServeExit(j)).server.log;
      && !s.posts[i].fate.Travelling?
      && multiset(log)[s.posts[i].message.value] == if s.posts[i].fate.Served? then 1 else 0
  {
    BeginInv();
    ExecKeepsInv(BEGIN, events);
    LoggedAtExit(Exec(BEGIN, events), j, i);
  }

  lemma LoggedAtExit(s: Session, j: nat, i: nat)
    requires Inv(s) && j < |s.exits| && i < s.exits[j].before && i < |s.posts| && s.posts[i].message.Some?
    ensures !s.posts[i].fate.Travelling?
    ensures multiset(Step(s, ServeExit(j)).server.log)[s.posts[i].message.value] == if s.posts[i].fate.Served? then 1 else 0
  {
    var m := s.posts[i].message.value;
    assert EndedBefore(s, s.exits[j].before);
    ExitShutsDown(s.server, s.exits[j].code);
    assert Arrived(s.server)[m] == if WasServed(s.posts, m) then 1 else 0;
    if !s.posts[i].fate.Served? {
      assert !WasServed(s.posts, m);
    }
  }

  // ----- the exit itself

  /** The page has posted its exit, or will when the posts that are under way end. */
  ghost predicate Closing(s: Session) {
    s.exits != [] || (s.shouldClose && s.inFlight > 0)
  }

  /** Whatever has been posted, or will be, carries this exit code. */
  ghost predicate Carries(s: Session, code: int) {
    (s.shouldClose ==> s.status == code) && forall j :: 0 <= j < |s.exits| ==> s.exits[j].code == code
  }

  lemma StepKeepsClosing(s: Session, e: Event)
    requires s.inFlight >= 0
    ensures Closing(s) || e.ExitCalled? ==> Closing(Step(s, e))
  {
  }

  lemma {:induction false} ExitIsComing(s: Session, events: seq<Event>)
    requires Inv(s) && (Closing(s) || exists i :: 0 <= i < |events| && events[i].ExitCalled?)
    ensures Closing(Exec(s, events))
    decreases |events|
  {
    if events != [] {
      var t := Step(s, events[0]);
      OpenZero(s.posts);
      StepKeepsClosing(s, events[0]);
      StepKeepsInv(s, events[0]);
      assert Closing(t) || exists i :: 0 <= i < |events[1..]| && events[1..][i].ExitCalled? by {
        if !Closing(t) {
          var i :| 0 <= i < |events| && events[i].ExitCalled?;
          assert events[1..][i - 1] == events[i];
        }
      }
      ExitIsComing(t, events[1..]);
    }
  }

  /** In every run: once the program has exited and all posts have ended, the exit has been posted. */
  lemma ExitIsPosted(events: seq<Event>, i: nat)
    requires i < |events| && events[i].ExitCalled?
    requires forall k :: 0 <= k < |Exec(BEGIN, events).posts| ==> Exec(BEGIN, events).posts[k].done
    ensures Exec(BEGIN, events).exits != []
  {
    var s := Exec(BEGIN, events);
    BeginInv();
    ExecKeepsInv(BEGIN, events);
    ExitIsComing(BEGIN, events);
    AllDone(s.posts);
  }

  lemma {:induction false} AllDone(posts: seq<Post>)
    requires forall k :: 0 <= k < |posts| ==> posts[k].done
    ensures Open(posts) == 0
  {
    if posts != [] {
      AllDone(posts[..|posts| - 1]);
    }
  }

  lemma {:induction false} ExecCarries(s: Session, events: seq<Event>, code: int)
    requires Carries(s, code) && forall e :: e in events && e.ExitCalled? ==> e.code == code
    ensures Carries(Exec(s, events), code)
    decreases |events|
  {
    if events != [] {
      assert events[0] in events;
      StepCarries(s, events[0], code);
      ExecCarries(Step(s, events[0]), events[1..], code);
    }
  }

  lemma StepCarries(s: Session, e: Event, code: int)
    requires Carries(s, code) && (e.ExitCalled? ==> e.code == code)
    ensures Carries(Step(s, e), code)
  {
  }

  /** In every run of a program that exits with `code`: that is what the server reads in every exit post. */
  lemma ServerReadsExitCode(events: seq<Event>, code: int, j: nat)
    requires (forall e :: e in events && e.ExitCalled? ==> e.code == code) && j < |Exec(BEGIN, events).exits|
    ensures Receive(ExitBody(Exec(BEGIN, events).exits[j].code)) == Exit(Some(code))
  {
    ExecCarries(BEGIN, events, code);
    ExitIsReceived(code);
  }

  ghost predicate FateFits(p: Post) {
    p.message.Some? && !p.fate.Travelling? ==> (p.fate.Served? <==> !HasPercentU(p.message.value.text))
  }

  ghost predicate FatesFit(s: Session) {
    forall i :: 0 <= i < |s.posts| ==> FateFits(s.posts[i])
  }

  lemma StepFatesFit(s: Session, e: Event)
    requires Numbered(s) && FatesFit(s) && !e.Lose?
    ensures FatesFit(Step(s, e))
  {
    if e.Serve? && e.i < |s.posts| && s.posts[e.i].message.Some? {
      ServingReads(s.posts[e.i].message.value);
    }
    var t := Step(s, e);
    forall i | 0 <= i < |t.posts| ensures FateFits(t.posts[i]) {
      assert i < |s.posts| ==> FateFits(s.posts[i]);
    }
  }

  lemma {:induction false} ReliableFates(s: Session, events: seq<Event>)
    requires Inv(s) && FatesFit(s) && forall e :: e in events ==> !e.Lose?
    ensures FatesFit(Exec(s, events))
    decreases |events|
  {
    if events != [] {
      assert events[0] in events;
      StepFatesFit(s, events[0]);
      StepKeepsInv(s, events[0]);
      ReliableFates(Step(s, events[0]), events[1..]);
    }
  }

  /** Over a network that loses nothing, a message posted before the exit has been printed exactly
      once when the exit shuts the server down, unless its text contains `%u`: then it never is. */
  lemma ReliableExit(events: seq<Event>, j: nat, i: nat)
    requires forall e :: e in events ==> !e.Lose?
    requires var s := Exec(BEGIN, events); j < |s.exits| && i < s.exits[j].before && i < |s.posts| && s.posts[i].message.Some?
    ensures var s := Exec(BEGIN, events);
      var m := s.posts[i].message.value;
      multiset(Step(s, ServeExit(j)).server.log)[m] == if HasPercentU(m.text) then 0 else 1
  {
    ExitFindsEverythingLogged(events, j, i);
    BeginInv();
    ReliableFates(BEGIN, events);
    assert FateFits(Exec(BEGIN, events).posts[i]);
  }

  // ----- a network that keeps the order

  /** The page prints these texts, and each post is served before the next one. */
  function Promptly(texts: seq<string>): seq<Event> {
    if texts == [] then []
    else Promptly(texts[..|texts| - 1]) + [Print(texts[|texts| - 1], false), Serve(|texts| - 1)]
  }

  lemma ServedAtOnce(s: Session, text: string)
    requires s.server.queue == [] && s.server.expected == s.next >= 1 && IsBytes(text) && !HasPercentU(text)
    ensures var t := Step(Step(s, Print(text, false)), Serve(|s.posts|));
      && t.server == Server(s.next + 1, [], s.server.log + [Message(s.next, text, false)])
      && t.next == s.next + 1 && |t.posts| == |s.posts| + 1
  {
    var m := Message(s.next, text, false);
    ServingReads(m);
    assert Step(s, Print(text, false)).posts[|s.posts|] == Post(Some(m), Travelling, false);
  }

  lemma ExecTwoMore(s: Session, events: seq<Event>, d: Event, e: Event)
    ensures Exec(s, events + [d, e]) == Step(Step(Exec(s, events), d), e)
    decreases |events|
  {
    if events == [] {
      assert [] + [d, e] == [d, e] && [d, e][1..] == [e] && [e][1..] == [];
      assert Exec(Step(Step(s, d), e), []) == Step(Step(s, d), e);
      assert Exec(Step(s, d), [e]) == Step(Step(s, d), e);
    } else {
      assert (events + [d, e])[1..] == events[1..] + [d, e];
      ExecTwoMore(Step(s, events[0]), events[1..], d, e);
    }
  }

  /** Page and server agree where the numbers start: posts that arrive in order are printed at once, in
      order, under the numbers 1, 2, 3, and nothing ever waits. */
  lemma {:induction false} InOrderNothingWaits(texts: seq<string>)
    requires forall i :: 0 <= i < |texts| ==> IsBytes(texts[i]) && !HasPercentU(texts[i])
    ensures var s := Exec(BEGIN, Promptly(texts));
      && s.server.queue == [] && s.server.expected == s.next == |texts| + 1 && |s.posts| == |s.server.log| == |texts|
      && forall i :: 0 <= i < |texts| ==> s.server.log[i] == Message(i + 1, texts[i], false)
    decreases |texts|
  {
    if texts != [] {
      var init, last := texts[..|texts| - 1], texts[|texts| - 1];
      InOrderNothingWaits(init);
      ExecTwoMore(BEGIN, Promptly(init), Print(last, false), Serve(|init|));
      ServedAtOnce(Exec(BEGIN, Promptly(init)), last);
    }
  }
}
