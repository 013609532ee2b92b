/** A shard against the gateway: any run of drops, reconnects, resumes and invalid sessions skips no event. */
module SessionRuns {
  import opened Wrappers
  import opened Discord
  import opened Session

  /** What the gateway has in store on the current connection: the next dispatch of a session, or a refusal. */
  datatype Link = Down | Up(session: SessionID, next: int) | Refused(resumable: bool)

  /** Where the shard's goroutine is: in the connect loop, in Listen, or in OnReady's own read loop. */
  datatype Mode = Trying | Listening | InReady

  /** What happened, for the record: dispatches handed to OnDispatch, sessions gained and lost, handshakes sent. */
  datatype Occurrence =
    | Handed(session: SessionID, n: int)
    | GotReady(session: SessionID)
    | Cleared
    | SentIdentify
    | SentResume(session: SessionID, n: int)

  datatype Machine = Machine(fields: Fields, link: Link, mode: Mode, trace: seq<Occurrence>)

  const START := Machine(FRESH, Down, Trying, [])

  /** How the gateway answers a handshake: a new session, a replay from the number after the one named, or a refusal. */
  datatype Answer = NewSession(session: SessionID) | Replay | Refuse(resumable: bool)

  datatype Step =
    | Try(a: Attempt, answer: Answer)
    | Receive(event: Dispatch)
    | LoopTimesOut
    | ReconnectOp
    | InvalidSessionOp(resumable: bool)
    | Drop

  /** The gateway's side: READY opens every new session as number 1, session ids are not reused. */
  ghost predicate Enabled(m: Machine, step: Step) {
    match step
    case Try(a, answer) =>
      && m.mode.Trying?
      && (Succeeds(m.fields, a) ==>
            match answer
            case NewSession(s) =>
              Chosen(m.fields).Identify? && s != "" && GotReady(s) !in m.trace && forall n :: Handed(s, n) !in m.trace
            case Replay => Chosen(m.fields).Resume?
            case Refuse(_) => true)
    case Receive(event) =>
      && m.link.Up?
      && (event.ReadyEvent? <==> m.link.next == 1)
      && (event.ReadyEvent? ==> event.sessionID == m.link.session)
      && (m.mode.InReady? ==> event.OtherEvent?)
    case LoopTimesOut => m.mode.InReady?
    case ReconnectOp => m.link.Up?
    case InvalidSessionOp(resumable) => m.link.Up? || m.link == Refused(resumable)
    case Drop => !m.link.Down?
  }

  /** The connection the gateway gives after a handshake. */
  function Answered(f: Fields, answer: Answer): Link {
    match answer
    case NewSession(s) => Up(s, 1)
    case Replay => Up(f.sessionID, f.sequence + 1)
    case Refuse(resumable) => Refused(resumable)
  }

  function Sent(f: Fields): Occurrence {
    match Chosen(f)
    case Identify => SentIdentify
    case Resume(s, n) => SentResume(s, n)
  }

  /** One round of the connect loop. */
  function Tried(m: Machine, a: Attempt, answer: Answer): Machine {
    if Succeeds(m.fields, a) then
      Machine(AfterConnect(m.fields, a).(retries := SHARD_CONNECT_RETRIES), Answered(m.fields, answer), Listening,
              m.trace + [Sent(m.fields)])
    else
      var f := AfterFailure(m.fields, a);
      m.(fields := if f.retries <= 0 then AfterClose(f) else f)
  }

  function Received(m: Machine, event: Dispatch): Machine
    requires m.link.Up?
  {
    var s, n := m.link.session, m.link.next;
    var handed := m.trace + [Handed(s, n)];
    if m.mode.InReady? then m.(fields := Handled(m.fields, event), link := Up(s, n + 1), trace := handed)
    else
      Machine(AfterDispatch(m.fields, n, event), Up(s, n + 1), if event.ReadyEvent? then InReady else m.mode,
              if event.ReadyEvent? then handed + [GotReady(event.sessionID)] else handed)
  }

  /** OnReady's loop hands every message to OnDispatch, so in it reconnects and invalid sessions have no effect. */
  function Next(m: Machine, step: Step): Machine
    requires Enabled(m, step)
  {
    match step
    case Try(a, answer) => Tried(m, a, answer)
    case Receive(event) => Received(m, event)
    case LoopTimesOut => m.(fields := AfterReadyLoop(m.fields), mode := Listening)
    case ReconnectOp =>
      if m.mode.InReady? then m else m.(fields := AfterClose(m.fields), link := Down, mode := Trying)
    case InvalidSessionOp(resumable) =>
      if m.mode.InReady? then m
      else
        Machine(AfterClose(AfterInvalidSession(m.fields, resumable)), Down, Trying,
                if resumable then m.trace else m.trace + [Cleared])
    case Drop =>
      var f := if m.mode.InReady? then AfterReadyLoop(m.fields) else m.fields;
      m.(fields := AfterClose(f), link := Down, mode := Trying)
  }

  ghost predicate IsRun(ms: seq<Machine>, steps: seq<Step>) {
    && |ms| == |steps| + 1 && ms[0] == START
    && forall i :: 0 <= i < |steps| ==> Enabled(ms[i], steps[i]) && ms[i + 1] == Next(ms[i], steps[i])
  }

  // ---------------------------------------------------------------------------------------------------------
  // What a good record looks like

  ghost predicate HandedUpTo(trace: seq<Occurrence>, s: SessionID, top: int) {
    forall n :: 1 <= n <= top ==> Handed(s, n) in trace
  }

  /** The session of the latest READY, unless a non-resumable invalid session was processed after it. */
  function Latest(trace: seq<Occurrence>): Option<SessionID> {
    if trace == [] then None
    else
      var last := trace[|trace| - 1];
      if last.GotReady? then Some(last.session)
      else if last.Cleared? then None
      else Latest(trace[..|trace| - 1])
  }

  /**
   A dispatch is handed over only after all earlier ones of its session; a Resume names the latest session, and a
   number up to which all its dispatches were handed over.
   */
  ghost predicate Justified(before: seq<Occurrence>, o: Occurrence) {
    match o
    case Handed(s, n) => n >= 1 && HandedUpTo(before, s, n - 1)
    case SentResume(s, n) => n >= 1 && Latest(before) == Some(s) && HandedUpTo(before, s, n)
    case _ => true
  }

  ghost predicate Good(trace: seq<Occurrence>) {
    trace == [] || (Good(trace[..|trace| - 1]) && Justified(trace[..|trace| - 1], trace[|trace| - 1]))
  }

  lemma {:induction false} GoodAt(trace: seq<Occurrence>, i: nat)
    requires Good(trace) && i < |trace|
    ensures Justified(trace[..i], trace[i])
  {
    if i < |trace| - 1 {
      GoodAt(trace[..|trace| - 1], i);
      assert trace[..|trace| - 1][..i] == trace[..i];
    }
  }

  lemma OneMore(trace: seq<Occurrence>, o: Occurrence)
    requires Good(trace) && Justified(trace, o)
    ensures Good(trace + [o])
    ensures Latest(trace + [o]) == if o.GotReady? then Some(o.session) else if o.Cleared? then None else Latest(trace)
    ensures forall s, top :: HandedUpTo(trace, s, top) ==> HandedUpTo(trace + [o], s, top)
  {
    assert (trace + [o])[..|trace|] == trace;
  }

  // ---------------------------------------------------------------------------------------------------------
  // The invariant

  ghost predicate Inv(m: Machine) {
    && Good(m.trace)
    && (m.fields.sessionID == "" <==> m.fields.sequence == 0) && m.fields.sequence >= 0
    && Latest(m.trace) == (if m.fields.sessionID == "" then None else Some(m.fields.sessionID))
    && (m.fields.sessionID != "" ==> HandedUpTo(m.trace, m.fields.sessionID, m.fields.sequence))
    && (m.mode.Trying? <==> m.link.Down?)
    && (m.mode.InReady? ==> m.link.Up? && m.link.next > 1)
    && (m.link.Up? ==>
          && m.link.session != "" && m.link.next >= 1
          && HandedUpTo(m.trace, m.link.session, m.link.next - 1)
          && (if m.link.next == 1 then m.fields.sessionID == "" else m.fields.sessionID == m.link.session))
  }

  lemma ConnectKeepsSession(f: Fields, a: Attempt)
    ensures AfterConnect(f, a).sessionID == f.sessionID && AfterConnect(f, a).sequence == f.sequence
  {
  }

  lemma TryKeeps(m: Machine, a: Attempt, answer: Answer)
    requires Inv(m) && Enabled(m, Try(a, answer))
    ensures Inv(Tried(m, a, answer))
  {
    hide Good, Latest, HandedUpTo, AfterConnect;
    ConnectKeepsSession(m.fields, a);
    if Succeeds(m.fields, a) {
      OneMore(m.trace, Sent(m.fields));
      NothingToHand(m.trace + [Sent(m.fields)], Answered(m.fields, answer));
    }
  }

  lemma NothingToHand(trace: seq<Occurrence>, link: Link)
    ensures link.Up? && link.next == 1 ==> HandedUpTo(trace, link.session, 0)
  {
  }

  lemma ReceiveKeeps(m: Machine, event: Dispatch)
    requires Inv(m) && Enabled(m, Receive(event))
    ensures Inv(Received(m, event))
  {
    hide Good, Latest;
    var s, n := m.link.session, m.link.next;
    OneMore(m.trace, Handed(s, n));
    var handed := m.trace + [Handed(s, n)];
    assert handed[|m.trace|] == Handed(s, n);
    assert HandedUpTo(handed, s, n);
    if event.ReadyEvent? {
      OneMore(handed, GotReady(s));
    }
  }

  lemma StepKeeps(m: Machine, step: Step)
    requires Inv(m) && Enabled(m, step)
    ensures Inv(Next(m, step))
  {
    hide Good, Latest, HandedUpTo, Tried, Received;
    match step
    case Try(a, answer) => TryKeeps(m, a, answer);
    case Receive(event) => ReceiveKeeps(m, event);
    case InvalidSessionOp(resumable) => OneMore(m.trace, Cleared);
    case _ =>
  }

  lemma {:induction false} RunKeeps(ms: seq<Machine>, steps: seq<Step>)
    requires IsRun(ms, steps)
    ensures Inv(ms[|ms| - 1])
  {
    if steps != [] {
      hide Inv, Enabled, Next;
      RunKeeps(ms[..|ms| - 1], steps[..|steps| - 1]);
      StepKeeps(ms[|ms| - 2], steps[|steps| - 1]);
    }
  }

  // ---------------------------------------------------------------------------------------------------------
  // Every run

  /** The highest number of a session handed over so far. */
  function Top(trace: seq<Occurrence>, s: SessionID): nat {
    if trace == [] then 0
    else
      var earlier, last := Top(trace[..|trace| - 1], s), trace[|trace| - 1];
      if last.Handed? && last.session == s && last.n > earlier then last.n else earlier
  }

  lemma {:induction false} TopIsReached(trace: seq<Occurrence>, s: SessionID, n: int)
    requires Good(trace)
    ensures Handed(s, n) in trace <==> 1 <= n <= Top(trace, s)
  {
    if trace != [] {
      var init, last := trace[..|trace| - 1], trace[|trace| - 1];
      assert trace == init + [last];
      TopIsReached(init, s, n);
      if last.Handed? && last.session == s {
        TopIsReached(init, s, last.n - 1);
        if 1 <= n < last.n {
          assert Handed(s, n) in init;
        }
      }
    }
  }

  /**
   In every run: of every session the dispatches handed over are the numbers 1 to some top, each first handed over
   after all smaller ones; for the current session that top reaches the stored sequence.
   */
  lemma HandedIsGapFree(ms: seq<Machine>, steps: seq<Step>, s: SessionID, n: int)
    requires IsRun(ms, steps)
    ensures var m := ms[|ms| - 1];
            && (Handed(s, n) in m.trace <==> 1 <= n <= Top(m.trace, s))
            && (s == m.fields.sessionID != "" ==> m.fields.sequence <= Top(m.trace, s))
  {
    hide Inv, Enabled, Next, Top, Latest;
    RunKeeps(ms, steps);
    var m := ms[|ms| - 1];
    InvMeansGood(m);
    TopIsReached(m.trace, s, n);
    if s == m.fields.sessionID != "" {
      TopIsReached(m.trace, s, m.fields.sequence);
      CurrentIsHanded(m);
    }
  }

  lemma InvMeansGood(m: Machine)
    requires Inv(m)
    ensures Good(m.trace)
  {
  }

  lemma CurrentIsHanded(m: Machine)
    requires Inv(m) && m.fields.sessionID != ""
    ensures m.fields.sequence >= 1 && Handed(m.fields.sessionID, m.fields.sequence) in m.trace
  {
  }

  /**
   Every Resume ever sent names the session of the latest READY with no processed non-resumable invalid session since,
   and a sequence up to which every dispatch of that session had been handed over: the replay skips nothing.
   */
  lemma ResumeSkipsNothing(ms: seq<Machine>, steps: seq<Step>, i: nat, n: int)
    requires IsRun(ms, steps) && i < |ms[|ms| - 1].trace| && ms[|ms| - 1].trace[i].SentResume?
    ensures var trace := ms[|ms| - 1].trace;
            && Latest(trace[..i]) == Some(trace[i].session)
            && 1 <= trace[i].n
            && (1 <= n <= trace[i].n ==> Handed(trace[i].session, n) in trace[..i])
  {
    hide Inv, Enabled, Next, Latest;
    RunKeeps(ms, steps);
    InvMeansGood(ms[|ms| - 1]);
    GoodAt(ms[|ms| - 1].trace, i);
  }

  /**
   A non-resumable invalid session makes the next handshake an Identify exactly when it does not arrive during
   OnReady's read loop: there it is swallowed, and the dead session is resumed.
   */
  lemma InvalidSessionIsSwallowedIff(m: Machine)
    requires Inv(m) && m.link.Up? && m.link.next > 1
    ensures var after := Next(m, InvalidSessionOp(false));
            && (Chosen(after.fields) == Identify <==> !m.mode.InReady?)
            && (m.mode.InReady? ==>
                  Chosen(Next(after, Drop).fields) == Resume(m.link.session, m.fields.sequence))
  {
  }

  /** Identify, READY, an invalid session in the READY loop, a drop: the next handshake resumes the dead session. */
  lemma DeadSessionIsResumed()
    ensures var steps := [Try(Attempt(true, Connects), NewSession("a")), Receive(ReadyEvent("a", "url")),
                          InvalidSessionOp(false), Drop];
            exists ms: seq<Machine> :: IsRun(ms, steps) && Chosen(ms[4].fields) == Resume("a", 1)
  {
    var steps := [Try(Attempt(true, Connects), NewSession("a")), Receive(ReadyEvent("a", "url")),
                  InvalidSessionOp(false), Drop];
    var m1 := Next(START, steps[0]);
    assert m1.link == Up("a", 1) && m1.mode == Listening;
    var m2 := Next(m1, steps[1]);
    assert m2.mode == InReady && m2.fields.sequence == 1 && m2.fields.sessionID == "a";
    var m3 := Next(m2, steps[2]);
    var m4 := Next(m3, steps[3]);
    var ms := [START, m1, m2, m3, m4];
    assert IsRun(ms, steps);
  }

  // ---------------------------------------------------------------------------------------------------------
  // Readiness

  /** A step that marks the shard ready: READY or RESUMED, or an attempt that drains a left-over token. */
  ghost predicate MakesReady(m: Machine, step: Step) {
    match step
    case Receive(event) => event.ReadyEvent? || event.ResumedEvent?
    case Try(_, _) => m.fields.token
    case _ => false
  }

  /**
   A step that closes the shard: a drop, a reconnect or an invalid session that is looked at, or a failed attempt that
   wraps the retry counter.
   */
  ghost predicate ClosesIt(m: Machine, step: Step) {
    match step
    case Drop => true
    case ReconnectOp => !m.mode.InReady?
    case InvalidSessionOp(_) => !m.mode.InReady?
    case Try(a, _) =>
      !((m.fields.hasConn || a.dials) && a.greeting == Connects) && Wrap32(m.fields.retries + 1) <= 0
    case _ => false
  }

  /** A step that leaves a ready token: RESUMED, or the end of the READY loop. */
  ghost predicate LeavesToken(m: Machine, step: Step) {
    match step
    case Receive(event) => event.ResumedEvent?
    case LoopTimesOut => true
    case Drop => m.mode.InReady?
    case _ => false
  }

  /** Some step marked the shard ready, and neither it nor a later one closed it. */
  ghost predicate ReadySince(ms: seq<Machine>, steps: seq<Step>)
    requires |ms| == |steps| + 1
  {
    exists i :: 0 <= i < |steps| && MakesReady(ms[i], steps[i])
                && forall j :: i <= j < |steps| ==> !ClosesIt(ms[j], steps[j])
  }

  /** Some step left a token, and no attempt came after it. */
  ghost predicate TokenSince(ms: seq<Machine>, steps: seq<Step>)
    requires |ms| == |steps| + 1
  {
    exists i :: 0 <= i < |steps| && LeavesToken(ms[i], steps[i]) && forall j :: i < j < |steps| ==> !steps[j].Try?
  }

  lemma StepReadies(m: Machine, step: Step)
    requires Enabled(m, step)
    ensures Next(m, step).fields.isReady <==> !ClosesIt(m, step) && (MakesReady(m, step) || m.fields.isReady)
    ensures Next(m, step).fields.token <==> LeavesToken(m, step) || (m.fields.token && !step.Try?)
  {
  }

  lemma ReadySinceNext(ms: seq<Machine>, steps: seq<Step>)
    requires |ms| == |steps| + 1 && steps != []
    ensures var n := |steps| - 1;
            ReadySince(ms, steps)
            <==> !ClosesIt(ms[n], steps[n]) && (MakesReady(ms[n], steps[n]) || ReadySince(ms[..n + 1], steps[..n]))
  {
    hide MakesReady, ClosesIt;
    var n := |steps| - 1;
    if ReadySince(ms[..n + 1], steps[..n]) && !ClosesIt(ms[n], steps[n]) {
      ReadyStays(ms, steps);
    }
    if ReadySince(ms, steps) && !MakesReady(ms[n], steps[n]) {
      ReadyWas(ms, steps);
    }
  }

  lemma ReadyStays(ms: seq<Machine>, steps: seq<Step>)
    requires |ms| == |steps| + 1 && steps != [] && !ClosesIt(ms[|steps| - 1], steps[|steps| - 1])
    requires ReadySince(ms[..|steps|], steps[..|steps| - 1])
    ensures ReadySince(ms, steps)
  {
    hide MakesReady, ClosesIt;
    var n := |steps| - 1;
    var init, earlier := ms[..n + 1], steps[..n];
    var i :| 0 <= i < n && MakesReady(init[i], earlier[i])
             && forall j :: i <= j < n ==> !ClosesIt(init[j], earlier[j]);
    assert MakesReady(ms[i], steps[i]);
    forall j | i <= j < |steps|
      ensures !ClosesIt(ms[j], steps[j])
    {
      assert j < n ==> ms[j] == init[j] && steps[j] == earlier[j];
    }
  }

  lemma ReadyWas(ms: seq<Machine>, steps: seq<Step>)
    requires |ms| == |steps| + 1 && steps != [] && !MakesReady(ms[|steps| - 1], steps[|steps| - 1])
    requires ReadySince(ms, steps)
    ensures ReadySince(ms[..|steps|], steps[..|steps| - 1])
  {
    hide MakesReady, ClosesIt;
    var n := |steps| - 1;
    var init, earlier := ms[..n + 1], steps[..n];
    var i :| 0 <= i <= n && MakesReady(ms[i], steps[i]) && forall j :: i <= j <= n ==> !ClosesIt(ms[j], steps[j]);
    assert MakesReady(init[i], earlier[i]);
    forall j | i <= j < n
      ensures !ClosesIt(init[j], earlier[j])
    {
      assert ms[j] == init[j] && steps[j] == earlier[j];
    }
  }

  lemma TokenSinceNext(ms: seq<Machine>, steps: seq<Step>)
    requires |ms| == |steps| + 1 && steps != []
    ensures var n := |steps| - 1;
            TokenSince(ms, steps)
            <==> LeavesToken(ms[n], steps[n]) || (TokenSince(ms[..n + 1], steps[..n]) && !steps[n].Try?)
  {
    hide LeavesToken;
    var n := |steps| - 1;
    var init, earlier := ms[..n + 1], steps[..n];
    if TokenSince(init, earlier) && !steps[n].Try? {
      var i :| 0 <= i < n && LeavesToken(init[i], earlier[i]) && forall j :: i < j < n ==> !earlier[j].Try?;
      assert LeavesToken(ms[i], steps[i]);
      assert forall j :: i < j < n ==> steps[j] == earlier[j];
    }
    if TokenSince(ms, steps) && !LeavesToken(ms[n], steps[n]) {
      var i :| 0 <= i <= n && LeavesToken(ms[i], steps[i]) && forall j :: i < j <= n ==> !steps[j].Try?;
      assert LeavesToken(init[i], earlier[i]);
      assert forall j :: i < j < n ==> steps[j] == earlier[j];
    }
  }

  /**
   In every run the shard is ready exactly when a READY or RESUMED was processed, or a left-over token drained, since it
   was last closed; and a token is left exactly when a RESUMED or the end of a READY loop came after the last attempt.
   */
  lemma {:induction false} ReadyExactlySince(ms: seq<Machine>, steps: seq<Step>)
    requires IsRun(ms, steps)
    ensures ms[|ms| - 1].fields.isReady <==> ReadySince(ms, steps)
    ensures ms[|ms| - 1].fields.token <==> TokenSince(ms, steps)
  {
    if steps != [] {
      hide Enabled, Next, MakesReady, ClosesIt, LeavesToken, ReadySince, TokenSince;
      var n := |steps| - 1;
      ReadyExactlySince(ms[..n + 1], steps[..n]);
      ReadySinceNext(ms, steps);
      TokenSinceNext(ms, steps);
      StepReadies(ms[n], steps[n]);
    }
  }

  /** Whatever happened before, a shard that was just closed is neither ready nor connected. */
  lemma ClosedIsNotReady(m: Machine, step: Step)
    requires Enabled(m, step) && ClosesIt(m, step)
    ensures var f := Next(m, step).fields; !f.isReady && !f.hasConn && f.status == Closed
  {
  }
}
