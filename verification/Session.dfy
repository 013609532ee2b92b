/** One shard's gateway session: identify, resume, invalid sessions, the READY loop and the reconnect loop. */
module Session {
  import opened Discord

  const SHARD_CONNECT_RETRIES := 10

  type SessionID = string

  datatype Status = Idle | Connecting | Connected | Ready | Reconnecting | Closing | Closed | Erroring

  /** The fields of a shard the protocol reads and writes; `token` is the one-slot ready channel. */
  datatype Fields = Fields(
    sequence: int,
    sessionID: SessionID,
    resumeURL: string,
    isReady: bool,
    token: bool,
    hasConn: bool,
    status: Status,
    retries: int)

  const FRESH := Fields(0, "", "", false, false, false, Idle, SHARD_CONNECT_RETRIES)

  // ---------------------------------------------------------------------------------------------------------
  // Connecting

  datatype Handshake = Identify | Resume(sessionID: SessionID, sequence: int)

  function Chosen(f: Fields): Handshake {
    if f.sessionID == "" || f.sequence == 0 then Identify else Resume(f.sessionID, f.sequence)
  }

  /** What the outside world answers to one Connect: whether dialling works, and how the greeting goes. */
  datatype Attempt = Attempt(dials: bool, greeting: Greeting)

  datatype Greeting = ReadFails | NoHello | BadInterval | SendFails | Connects

  /** A connection left open by an earlier attempt is reused without dialling. */
  predicate Succeeds(f: Fields, a: Attempt) {
    (f.hasConn || a.dials) && a.greeting.Connects?
  }

  /** The first lines of Connect: a ready token left over from an earlier connection marks the shard ready again. */
  function Begun(f: Fields): Fields {
    var g := if f.status.Reconnecting? then f else f.(status := Connecting);
    g.(isReady := g.isReady || g.token, token := false)
  }

  /** A bad heartbeat interval leaves the connection open; every other late failure closes it. */
  function AfterConnect(f: Fields, a: Attempt): Fields {
    var g := Begun(f);
    if !g.hasConn && !a.dials then g.(resumeURL := "")
    else
      match a.greeting
      case BadInterval => g.(hasConn := true)
      case Connects => g.(hasConn := true, status := Connected)
      case _ => g.(hasConn := false)
  }

  function AfterClose(f: Fields): Fields {
    f.(isReady := false, hasConn := false, status := Closed)
  }

  // ---------------------------------------------------------------------------------------------------------
  // The reconnect loop

  datatype Progress = Reconnected | GaveUp | StillTrying

  /** One failed round of the loop: Sub(-1) on the retry counter, in 32 bits. */
  function AfterFailure(f: Fields, a: Attempt): Fields {
    var g := AfterConnect(f, a);
    g.(retries := Wrap32(g.retries + 1))
  }

  /** The loop of Reconnect over the answers to its attempts; with no answers left it is still trying. */
  function Retry(f: Fields, attempts: seq<Attempt>): (Fields, Progress)
    decreases |attempts|
  {
    if attempts == [] then (f, StillTrying)
    else if Succeeds(f, attempts[0]) then
      (AfterConnect(f, attempts[0]).(retries := SHARD_CONNECT_RETRIES), Reconnected)
    else
      var g := AfterFailure(f, attempts[0]);
      if g.retries <= 0 then LastTry(AfterClose(g), attempts[1..]) else Retry(g, attempts[1..])
  }

  function LastTry(f: Fields, attempts: seq<Attempt>): (Fields, Progress) {
    if attempts == [] then (f, StillTrying)
    else (AfterConnect(f, attempts[0]), if Succeeds(f, attempts[0]) then Reconnected else GaveUp)
  }

  /** All of `attempts` fail when made one after the other. */
  predicate AllFail(f: Fields, attempts: seq<Attempt>)
    decreases |attempts|
  {
    attempts == [] || (!Succeeds(f, attempts[0]) && AllFail(AfterFailure(f, attempts[0]), attempts[1..]))
  }

  /**
   The retry counter goes up, so a shard whose every attempt fails does not give up after its ten retries: it goes on
   until the counter wraps, and makes one last attempt then.
   */
  lemma {:induction false} GivesUpOnlyAfterWrap(f: Fields, attempts: seq<Attempt>)
    requires 0 < f.retries < 0x8000_0000 && AllFail(f, attempts)
    ensures Retry(f, attempts).1 == if |attempts| > 0x8000_0000 - f.retries then GaveUp else StillTrying
    decreases |attempts|
  {
    if attempts != [] && f.retries + 1 < 0x8000_0000 {
      GivesUpOnlyAfterWrap(AfterFailure(f, attempts[0]), attempts[1..]);
    }
  }

  /** What one attempt does, field by field. */
  lemma AttemptIs(f: Fields, a: Attempt)
    ensures var g, dialled := AfterConnect(f, a), f.hasConn || a.dials;
            && (Succeeds(f, a) <==> dialled && a.greeting == Connects)
            && g.sequence == f.sequence && g.sessionID == f.sessionID && g.retries == f.retries
            && g.resumeURL == (if dialled then f.resumeURL else "")
            && g.isReady == (f.isReady || f.token) && !g.token
            && g.hasConn == (dialled && (a.greeting == Connects || a.greeting == BadInterval))
            && g.status == (if Succeeds(f, a) then Connected else if f.status == Reconnecting then Reconnecting
                            else Connecting)
  {
  }

  /**
   The loop keeps the session. A shard that was not ready comes out ready only by draining a left-over token, and it
   does unless the counter wraps, which closes it again.
   */
  lemma {:induction false} ReconnectKeepsSession(f: Fields, attempts: seq<Attempt>)
    ensures var (g, progress) := Retry(f, attempts);
            && g.sequence == f.sequence && g.sessionID == f.sessionID
            && (g.resumeURL == f.resumeURL || g.resumeURL == "")
            && g.token == (f.token && attempts == [])
            && (g.isReady ==> f.isReady || (f.token && attempts != []))
            && (0 < f.retries && f.retries + |attempts| < 0x8000_0000 ==>
                  g.isReady == (f.isReady || (f.token && attempts != [])))
            && (progress.Reconnected? ==> g.hasConn && g.status == Connected)
            && (progress.GaveUp? ==> g.status != Connected && !g.isReady)
    decreases |attempts|
  {
    if attempts != [] {
      hide AfterConnect, Succeeds;
      AttemptIs(f, attempts[0]);
      if !Succeeds(f, attempts[0]) {
        var g := AfterFailure(f, attempts[0]);
        if g.retries > 0 {
          ReconnectKeepsSession(g, attempts[1..]);
        } else if |attempts| > 1 {
          AttemptIs(AfterClose(g), attempts[1]);
        }
      }
    }
  }

  lemma NoAttempts(f: Fields)
    ensures Retry(f, []) == (f, StillTrying)
  {
  }

  /** The counter is back at ten after a reconnect, unless it was the last try that worked. */
  lemma {:induction false} ReconnectResetsRetries(f: Fields, attempts: seq<Attempt>)
    requires 0 < f.retries && f.retries + |attempts| < 0x8000_0000
    ensures var (g, progress) := Retry(f, attempts);
            && (progress.Reconnected? <==> !AllFail(f, attempts))
            && (progress.Reconnected? ==> g.retries == 10)
            && (progress.StillTrying? ==> g.retries == f.retries + |attempts|)
    decreases |attempts|
  {
    hide Succeeds;
    if attempts != [] && !Succeeds(f, attempts[0]) {
      ReconnectResetsRetries(AfterFailure(f, attempts[0]), attempts[1..]);
    }
  }

  // ---------------------------------------------------------------------------------------------------------
  // Messages

  /** A dispatch, as far as the session is concerned. */
  datatype Dispatch = ReadyEvent(sessionID: SessionID, resumeURL: string) | ResumedEvent | OtherEvent

  /** gatewayOpDispatch up to the point where OnReady starts its own read loop. */
  function AfterDispatch(f: Fields, sequence: int, event: Dispatch): Fields {
    Handled(f.(sequence := sequence), event)
  }

  /** What the handlers do to the shard. */
  function Handled(f: Fields, event: Dispatch): Fields {
    match event
    case ReadyEvent(sessionID, resumeURL) => f.(isReady := true, sessionID := sessionID, resumeURL := resumeURL)
    case ResumedEvent => f.(isReady := true, token := true, status := Ready)
    case OtherEvent => f
  }

  /** The messages of OnReady's loop, handled one after the other. */
  function HandledAll(f: Fields, events: seq<Dispatch>): Fields {
    if events == [] then f else Handled(HandledAll(f, events[..|events| - 1]), events[|events| - 1])
  }

  lemma {:induction false} HandledInTwo(f: Fields, first: seq<Dispatch>, later: seq<Dispatch>)
    ensures HandledAll(HandledAll(f, first), later) == HandledAll(f, first + later)
  {
    if later == [] {
      assert first + later == first;
    } else {
      HandledInTwo(f, first, later[..|later| - 1]);
      assert (first + later)[..|first + later| - 1] == first + later[..|later| - 1];
    }
  }

  /** The end of OnReady's loop, by time-out or by a failed read. */
  function AfterReadyLoop(f: Fields): Fields {
    f.(token := true, status := Ready)
  }

  function AfterInvalidSession(f: Fields, resumable: bool): Fields {
    if resumable then f else f.(sessionID := "", sequence := 0, resumeURL := "")
  }

  // ---------------------------------------------------------------------------------------------------------
  // The shard object

  class Shard {
    var sequence: int
    var sessionID: SessionID
    var resumeGatewayURL: string
    var isReady: bool
    var ready: bool
    var wsConn: bool
    var status: Status
    var retriesRemaining: int

    constructor ()
      ensures State() == FRESH
    {
      sequence, sessionID, resumeGatewayURL := 0, "", "";
      isReady, ready, wsConn := false, false, false;
      status, retriesRemaining := Idle, SHARD_CONNECT_RETRIES;
    }

    function State(): Fields
      reads this
    {
      Fields(sequence, sessionID, resumeGatewayURL, isReady, ready, wsConn, status, retriesRemaining)
    }

    /** Connects; `sent` is the handshake that went out, if the attempt got that far. */
    method Connect(a: Attempt) returns (ok: bool, sent: seq<Handshake>)
      modifies this
      ensures State() == AfterConnect(old(State()), a)
      ensures ok == Succeeds(old(State()), a)
      ensures sent == if ok then [Chosen(old(State()))] else []
      ensures ok <==> (old(wsConn) || a.dials) && a.greeting == Connects
      ensures sent == if !ok then [] else if sessionID == "" || sequence == 0 then [Identify]
                      else [Resume(sessionID, sequence)]
      ensures !ready && isReady == (old(isReady) || old(ready))
      ensures wsConn <==> (old(wsConn) || a.dials) && (a.greeting == Connects || a.greeting == BadInterval)
      ensures status == if ok then Connected else if old(status) == Reconnecting then Reconnecting else Connecting
      ensures sequence == old(sequence) && sessionID == old(sessionID) && retriesRemaining == old(retriesRemaining)
      ensures resumeGatewayURL == if old(wsConn) || a.dials then old(resumeGatewayURL) else ""
    {
      hide AfterConnect, Succeeds;
      AttemptIs(State(), a);
      ok, sent := TryConnect(a);
    }

    method TryConnect(a: Attempt) returns (ok: bool, sent: seq<Handshake>)
      modifies this
      ensures State() == AfterConnect(old(State()), a)
      ensures ok == Succeeds(old(State()), a)
      ensures sent == if ok then [Chosen(old(State()))] else []
    {
      ok, sent := false, [];
      if status != Reconnecting {
        status := Connecting;
      }
      while ready
        invariant State() == if ready then old(State()).(status := status) else Begun(old(State()))
        invariant status == Begun(old(State())).status
        decreases ready
      {
        ready := false;
        isReady := true;
      }
      if !wsConn {
        if !a.dials {
          resumeGatewayURL := "";
          return;
        }
        wsConn := true;
      }
      match a.greeting {
        case ReadFails => CloseWS();
        case NoHello => CloseWS();
        case BadInterval =>
        case SendFails => CloseWS();
        case Connects =>
          sent := [if sessionID == "" || sequence == 0 then Identify else Resume(sessionID, sequence)];
          status := Connected;
          ok := true;
      }
    }

    method CloseWS()
      modifies this`wsConn
      ensures !wsConn
    {
      wsConn := false;
    }

    method Close()
      modifies this
      ensures State() == AfterClose(old(State()))
      ensures !isReady && !wsConn && status == Closed
      ensures sequence == old(sequence) && sessionID == old(sessionID) && resumeGatewayURL == old(resumeGatewayURL)
      ensures ready == old(ready) && retriesRemaining == old(retriesRemaining)
    {
      isReady := false;
      status := Closing;
      CloseWS();
      status := Closed;
    }

    /** Closes, then connects until it works; `attempts` are the answers of the outside world, in order. */
    method Reconnect(attempts: seq<Attempt>) returns (progress: Progress)
      modifies this
      ensures (State(), progress) == Retry(AfterClose(old(State())), attempts)
      ensures sequence == old(sequence) && sessionID == old(sessionID)
      ensures resumeGatewayURL == old(resumeGatewayURL) || resumeGatewayURL == ""
      ensures ready == (old(ready) && attempts == []) && (isReady ==> old(ready) && attempts != [])
      ensures progress == Reconnected ==> wsConn && status == Connected
      ensures progress == GaveUp ==> status != Connected && !isReady
      ensures attempts == [] ==> !isReady && !wsConn && status == Closed
    {
      hide Retry;
      ReconnectKeepsSession(AfterClose(State()), attempts);
      NoAttempts(AfterClose(State()));
      progress := ReconnectLoop(attempts);
    }

    method ReconnectLoop(attempts: seq<Attempt>) returns (progress: Progress)
      modifies this
      ensures (State(), progress) == Retry(AfterClose(old(State())), attempts)
    {
      hide AfterConnect, Succeeds, Chosen;
      status := Reconnecting;
      Close();
      var i := 0;
      while i < |attempts|
        invariant 0 <= i <= |attempts|
        invariant Retry(AfterClose(old(State())), attempts) == Retry(State(), attempts[i..])
      {
        var a := attempts[i];
        assert attempts[i..][0] == a && attempts[i..][1..] == attempts[i + 1..];
        var ok, _ := Connect(a);
        i := i + 1;
        if ok {
          retriesRemaining := SHARD_CONNECT_RETRIES;
          return Reconnected;
        }
        retriesRemaining := Wrap32(retriesRemaining + 1);
        if retriesRemaining <= 0 {
          Close();
          if i == |attempts| {
            return StillTrying;
          }
          assert attempts[i..][0] == attempts[i];
          var last, _ := Connect(attempts[i]);
          return if last then Reconnected else GaveUp;
        }
      }
      progress := StillTrying;
    }

    method GatewayOpDispatch(seqno: int, event: Dispatch)
      modifies this
      ensures State() == AfterDispatch(old(State()), seqno, event)
      ensures sequence == seqno
    {
      sequence := seqno;
      OnDispatch(event);
    }

    /** The handlers of READY, up to its read loop, and of RESUMED. */
    method OnDispatch(event: Dispatch)
      modifies this
      ensures State() == Handled(old(State()), event)
      ensures sequence == old(sequence) && wsConn == old(wsConn) && retriesRemaining == old(retriesRemaining)
      ensures event.ReadyEvent? ==> sessionID == event.sessionID && resumeGatewayURL == event.resumeURL
      ensures !event.ReadyEvent? ==> sessionID == old(sessionID) && resumeGatewayURL == old(resumeGatewayURL)
      ensures isReady == (old(isReady) || event != OtherEvent) && ready == (old(ready) || event == ResumedEvent)
      ensures status == if event == ResumedEvent then Ready else old(status)
    {
      match event {
        case ReadyEvent(id, url) =>
          isReady := true;
          resumeGatewayURL := url;
          sessionID := id;
        case ResumedEvent =>
          ready := true;
          isReady := true;
          status := Ready;
        case OtherEvent =>
      }
    }

    /**
     OnReady's read loop: every message goes to OnDispatch, none is stored in Sequence, no opcode is looked at. A READY
     in the loop runs a loop of its own over the messages that follow it.
     */
    method ReadyLoop(events: seq<Dispatch>)
      modifies this
      ensures State() == AfterReadyLoop(HandledAll(old(State()), events))
      ensures sequence == old(sequence) && ready && status == Ready
      ensures (forall i :: 0 <= i < |events| ==> !events[i].ReadyEvent?) ==> sessionID == old(sessionID)
      decreases |events|
    {
      for i := 0 to |events|
        invariant State() == HandledAll(old(State()), events[..i]) && sequence == old(sequence)
        invariant (forall j :: 0 <= j < i ==> !events[j].ReadyEvent?) ==> sessionID == old(sessionID)
      {
        assert events[..i + 1][..i] == events[..i];
        OnDispatch(events[i]);
        if events[i].ReadyEvent? {
          HandledInTwo(old(State()), events[..i + 1], events[i + 1..]);
          assert events[..i + 1] + events[i + 1..] == events;
          ReadyLoop(events[i + 1..]);
          ready := true;
          status := Ready;
          return;
        }
      }
      assert events[..|events|] == events;
      ready := true;
      status := Ready;
    }

    method GatewayOpInvalidSession(resumable: bool, attempts: seq<Attempt>) returns (progress: Progress)
      modifies this
      ensures (State(), progress) == Retry(AfterClose(AfterInvalidSession(old(State()), resumable)), attempts)
      ensures if resumable then sessionID == old(sessionID) && sequence == old(sequence)
              else sessionID == "" && sequence == 0 && resumeGatewayURL == ""
    {
      if !resumable {
        sessionID := "";
        sequence := 0;
        resumeGatewayURL := "";
      }
      progress := Reconnect(attempts);
    }
  }
}
