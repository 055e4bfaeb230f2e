/** emrun's web server as an object (emrun.py, HTTPWebServer): its fields, changed in place by the
    handlers, follow the sequencing functions of EmrunServer. */
module EmrunWebServers {
  import opened Options
  import opened EmrunServer
  import opened EmrunMessages
  import opened StableSorts

  class HTTPWebServer {
    var expectedHttpSeqNum: int
    var httpMessageQueue: seq<Message>
    var logged: seq<Message>
    var isRunning: bool

    ghost function State(): Server
      reads this
    {
      Server(expectedHttpSeqNum, httpMessageQueue, logged)
    }

    constructor ()
      ensures State() == START && isRunning
    {
      expectedHttpSeqNum := 1;
      httpMessageQueue := [];
      logged := [];
      isRunning := true;
    }

    method PrintMessagesDue()
      modifies this
      ensures State() == Due(old(State())) && isRunning == old(isRunning)
    {
      while |httpMessageQueue| > 0
        invariant Due(State()) == Due(old(State())) && isRunning == old(isRunning)
        decreases |httpMessageQueue|
      {
        var msg := httpMessageQueue[0];
        if msg.number == expectedHttpSeqNum {
          logged := logged + [msg];
          expectedHttpSeqNum := expectedHttpSeqNum + 1;
          httpMessageQueue := httpMessageQueue[1..];
        } else {
          return;
        }
      }
    }

    method PrintNextMessage()
      modifies this
      ensures State() == Next(old(State())) && isRunning == old(isRunning)
    {
      if |httpMessageQueue| > 0 {
        expectedHttpSeqNum := httpMessageQueue[0].number;
        PrintMessagesDue();
      }
    }

    method PrintAllMessages()
      modifies this
      ensures State() == All(old(State())) && isRunning == old(isRunning)
    {
      while |httpMessageQueue| > 0
        invariant All(State()) == All(old(State())) && isRunning == old(isRunning)
        decreases |httpMessageQueue|
      {
        PrintNextMessage();
      }
    }

    method HandleIncomingMessage(m: Message)
      modifies this
      ensures State() == Handle(old(State()), m) && isRunning == old(isRunning)
    {
      if m.number == -1 {
        logged := logged + [m];
      } else if m.number == expectedHttpSeqNum {
        logged := logged + [m];
        expectedHttpSeqNum := expectedHttpSeqNum + 1;
        PrintMessagesDue();
      } else if m.number < expectedHttpSeqNum {
        logged := logged + [m];
      } else {
        httpMessageQueue := Sort(httpMessageQueue + [m], Number);
        if |httpMessageQueue| > 16 {
          PrintNextMessage();
        }
      }
    }

    method PrintTimedOutMessages(late: bool)
      modifies this
      ensures State() == Tick(old(State()), late) && isRunning == old(isRunning)
      ensures late && old(httpMessageQueue) != [] ==> exists k: nat ::
        k > 0 && LongestRun(old(httpMessageQueue), old(httpMessageQueue)[0].number, k)
        && State() == Printed(old(logged), old(httpMessageQueue), old(httpMessageQueue)[0].number, k)
    {
      ghost var k := TickPrintsRun(State(), late);
      if |httpMessageQueue| > 0 && late {
        PrintNextMessage();
      }
    }

    method Shutdown()
      modifies this
      ensures State() == All(old(State())) && !isRunning
    {
      isRunning := false;
      PrintAllMessages();
    }

    /** The branches of do_POST that concern output and exit: as a function of what the body is read as,
        and for the bodies that a page posts. */
    method DoPost(body: string, serveAfterExit: bool) returns (answered: bool)
      modifies this
      ensures var r := Serve(old(State()), body, serveAfterExit);
        State() == r.server && isRunning == (old(isRunning) && !r.stops) && answered == r.answered
      ensures forall code :: body == ExitBody(code) && !serveAfterExit ==>
        !isRunning && !answered && httpMessageQueue == [] && logged == old(logged) + old(httpMessageQueue)
      ensures body == PAGE_LOAD || (exists code :: body == ExitBody(code) && serveAfterExit) ==>
        State() == old(State()) && isRunning == old(isRunning) && answered
      ensures forall m: Message :: m.number >= 0 && IsBytes(m.text) && body == Format(m) ==>
        && isRunning == old(isRunning) && answered == !HasPercentU(m.text)
        && State() == if HasPercentU(m.text) then old(State()) else Handle(old(State()), m)
    {
      forall code ensures body == ExitBody(code) ==> Receive(body) == Exit(Some(code)) {
        ExitIsReceived(code);
      }
      forall m: Message | m.number >= 0 && IsBytes(m.text) && body == Format(m)
        ensures Receive(body) == if HasPercentU(m.text) then Raised else Log(m)
      {
        ReceivedExactlyWithoutPercentU(m);
      }
      if body == PAGE_LOAD {
        PageLoadIsReceived(body);
      }
      AllInOrder(State());
      match Receive(body)
      case Raised =>
        answered := false;
      case PageLoad =>
        answered := true;
      case Exit(code) =>
        answered := serveAfterExit;
        if !serveAfterExit && code.Some? {
          Shutdown();
        }
      case Log(m) =>
        HandleIncomingMessage(m);
        answered := true;
    }
  }
}
