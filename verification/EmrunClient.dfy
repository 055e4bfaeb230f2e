/** The page's side of emrun as an object (src/emrun_postjs.js): counters changed by callbacks. The
    ghost session advances by the very events of EmrunExit. */
module EmrunClients {
  import opened Options
  import opened EmrunServer
  import opened EmrunMessages
  import opened EmrunExit

  class EmrunClient {
    var postMessagesInFlight: int
    var shouldCloseItself: bool
    var httpSequenceNumber: int
    var posted: seq<string>       // bodies of the asynchronous requests
    var exitStatus: int           // set by the runtime when the program exits
    var exitsPosted: seq<string>  // bodies of the synchronous requests
    ghost var session: Session

    ghost predicate Valid()
      reads this
    {
      && session.inFlight == postMessagesInFlight
      && session.shouldClose == shouldCloseItself
      && session.next == httpSequenceNumber
      && session.status == exitStatus
      && |session.exits| == |exitsPosted|
      && (forall j :: 0 <= j < |exitsPosted| ==> exitsPosted[j] == ExitBody(session.exits[j].code))
      && EmrunExit.Numbered(session)
      && |session.posts| == |posted|
      && forall i :: 0 <= i < |posted| ==> posted[i] == Body(session.posts[i].message)
    }

    constructor ()
      ensures Valid() && session == Step(BEGIN, PageLoads) && posted == [PAGE_LOAD]
    {
      postMessagesInFlight := 1;
      shouldCloseItself := false;
      httpSequenceNumber := 1;
      posted := [PAGE_LOAD];
      exitStatus := 0;
      exitsPosted := [];
      session := Step(BEGIN, PageLoads);
    }

    method Post(body: string)
      modifies this`postMessagesInFlight, this`posted
      ensures postMessagesInFlight == old(postMessagesInFlight) + 1 && posted == old(posted) + [body]
    {
      postMessagesInFlight := postMessagesInFlight + 1;
      posted := posted + [body];
    }

    /** `out` and `err`: the number is used up before the request is sent. */
    method Print(text: string, toStderr: bool)
      requires Valid() && IsBytes(text)
      modifies this
      ensures Valid() && session == Step(old(session), EmrunExit.Print(text, toStderr))
      ensures posted == old(posted) + [Format(Message(old(httpSequenceNumber), text, toStderr))]
      ensures httpSequenceNumber == old(httpSequenceNumber) + 1
    {
      var m := Message(httpSequenceNumber, text, toStderr);
      httpSequenceNumber := httpSequenceNumber + 1;
      Post(Format(m));
      session := Step(session, EmrunExit.Print(text, toStderr));
    }

    method PostExit()
      requires Valid()
      modifies this`exitsPosted, this`session
      ensures Valid() && session == EmrunExit.PostExit(old(session))
      ensures exitsPosted == old(exitsPosted) + [ExitBody(exitStatus)]
    {
      exitsPosted := exitsPosted + [ExitBody(exitStatus)];
      session := EmrunExit.PostExit(session);
    }

    /** The callback registered with addOnExit. */
    method OnExit(status: int)
      requires Valid()
      modifies this
      ensures Valid() && session == Step(old(session), ExitCalled(status))
      ensures exitsPosted == old(exitsPosted) + if old(postMessagesInFlight) == 0 then [ExitBody(status)] else []
    {
      exitStatus := status;
      session := session.(status := status);
      if postMessagesInFlight == 0 {
        PostExit();
      } else {
        shouldCloseItself := true;
        session := session.(shouldClose := true);
      }
    }

    /** Request `i` reaches readyState 4, whatever became of it. */
    method OnDone(i: nat)
      requires Valid() && i < |session.posts| && !session.posts[i].fate.Travelling? && !session.posts[i].done
      modifies this
      ensures Valid() && session == Step(old(session), Ends(i))
      ensures exitsPosted ==
        old(exitsPosted) + if old(postMessagesInFlight) == 1 && shouldCloseItself then [ExitBody(exitStatus)] else []
    {
      postMessagesInFlight := postMessagesInFlight - 1;
      session := session.(posts := session.posts[i := session.posts[i].(done := true)], inFlight := session.inFlight - 1);
      if postMessagesInFlight == 0 && shouldCloseItself {
        PostExit();
      }
    }
  }
}
