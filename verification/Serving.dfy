/** The server's own objects, run step by step, are what the streams say: registry, queues, numbers and frames. */
module Serving {
  import opened Wrappers
  import opened Discord
  import opened Routing
  import opened Subscribers
  import opened Streams

  /** The subscriber is as its view of the steps says. */
  ghost predicate IsAs(s: Subscriber, v: View)
    reads s`writeNormal, s`seqno, s`frames, s`stopped
  {
    s.writeNormal == v.queue && s.seqno == v.seqno && s.frames == v.frames && s.stopped == v.stopped
  }

  /** The registry and every subscriber, registered or not, are what the steps say; `starts` are their first numbers. */
  ghost predicate Agrees(server: ChatServer, starts: map<Subscriber, int>, steps: seq<Step>)
    reads server, server.Repr
    reads starts.Keys`writeNormal, starts.Keys`seqno, starts.Keys`frames, starts.Keys`stopped, starts.Keys`closed
  {
    && server.Valid()
    && server.Registry() == RegistryAfter(steps) && Members(RegistryAfter(steps)) <= starts.Keys
    && AllAre(starts, steps)
  }

  ghost predicate AllAre(starts: map<Subscriber, int>, steps: seq<Step>)
    reads starts.Keys`writeNormal, starts.Keys`seqno, starts.Keys`frames, starts.Keys`stopped, starts.Keys`closed
  {
    forall s :: s in starts ==> IsAs(s, ViewAfter(steps, s, starts[s])) && (s.closed <==> s in ClosedAfter(steps))
  }

  lemma OneMoreStep(steps: seq<Step>, step: Step, s: Subscriber, start: int)
    ensures ViewAfter(steps + [step], s, start)
         == Seen(RegistryAfter(steps), ClosedAfter(steps), ViewAfter(steps, s, start), step, s)
    ensures ClosedAfter(steps + [step]) == ClosedAfter(steps) + (if step.Close? then {step.s} else {})
    ensures RegistryAfter(steps + [step])
         == match step
            case Add(x) => Added(RegistryAfter(steps), x, x.shard)
            case Delete(x) => Removed(RegistryAfter(steps), x)
            case _ => RegistryAfter(steps)
  {
    assert (steps + [step])[..|steps|] == steps;
  }

  /** Nobody else sees a step of one subscriber. */
  lemma OthersSeeNothing(steps: seq<Step>, step: Step, s: Subscriber, start: int)
    requires step.Close? || step.Initial? || step.Write?
    ensures RegistryAfter(steps + [step]) == RegistryAfter(steps)
    ensures step.s != s ==>
              && ViewAfter(steps + [step], s, start) == ViewAfter(steps, s, start)
              && (s in ClosedAfter(steps + [step]) <==> s in ClosedAfter(steps))
  {
    hide ViewAfter, RegistryAfter, ClosedAfter, Written;
    OneMoreStep(steps, step, s, start);
  }

  ghost predicate AllButAre(x: Subscriber, starts: map<Subscriber, int>, steps: seq<Step>)
    reads starts.Keys`writeNormal, starts.Keys`seqno, starts.Keys`frames, starts.Keys`stopped, starts.Keys`closed
  {
    forall s :: s in starts && s != x ==>
      IsAs(s, ViewAfter(steps, s, starts[s])) && (s.closed <==> s in ClosedAfter(steps))
  }

  lemma AllBut(x: Subscriber, starts: map<Subscriber, int>, steps: seq<Step>, step: Step)
    requires AllAre(starts, steps) && (step.Close? || step.Initial? || step.Write?) && step.s == x
    ensures AllButAre(x, starts, steps + [step])
  {
    hide ViewAfter, RegistryAfter, ClosedAfter, IsAs;
    forall s | s in starts && s != x
      ensures IsAs(s, ViewAfter(steps + [step], s, starts[s])) && (s.closed <==> s in ClosedAfter(steps + [step]))
    {
      OthersSeeNothing(steps, step, s, starts[s]);
    }
  }

  lemma AllOf(x: Subscriber, starts: map<Subscriber, int>, steps: seq<Step>)
    requires x in starts && AllButAre(x, starts, steps)
    requires IsAs(x, ViewAfter(steps, x, starts[x])) && (x.closed <==> x in ClosedAfter(steps))
    ensures AllAre(starts, steps)
  {
    hide ViewAfter, ClosedAfter, IsAs;
  }

  /** A step of one subscriber: it does to the object what it does to the view. */
  method Act(step: Step, ghost reg: Registry, ghost closed: set<Subscriber>, ghost v: View)
    requires (step.Close? || step.Initial? || step.Write?) && IsAs(step.s, v)
    modifies step.s
    ensures IsAs(step.s, Seen(reg, closed, v, step, step.s))
    ensures step.s.closed == (old(step.s.closed) || step.Close?)
  {
    match step {
      case Close(s) => s.Close();
      case Initial(s, message) => s.Enqueue(message);
      case Write(s, marshals, writes) =>
        if s.writeNormal != [] && !s.stopped {
          s.WriteNext(marshals, writes);
        }
    }
  }

  method StepAlone(ghost starts: map<Subscriber, int>, ghost steps: seq<Step>, step: Step)
    requires AllAre(starts, steps) && (step.Close? || step.Initial? || step.Write?) && step.s in starts
    modifies step.s
    ensures AllAre(starts, steps + [step])
  {
    hide ViewAfter, RegistryAfter, ClosedAfter, IsAs, Seen;
    ghost var x := step.s;
    AllBut(x, starts, steps, step);
    OneMoreStep(steps, step, x, starts[x]);
    AreAt(starts, steps, x);
    hide AllAre;
    Act(step, RegistryAfter(steps), ClosedAfter(steps), ViewAfter(steps, x, starts[x]));
    AllOf(x, starts, steps + [step]);
  }

  lemma AreAt(starts: map<Subscriber, int>, steps: seq<Step>, s: Subscriber)
    requires AllAre(starts, steps) && s in starts
    ensures IsAs(s, ViewAfter(steps, s, starts[s])) && (s.closed <==> s in ClosedAfter(steps))
  {
  }

  // ---------------------------------------------------------------------------------------------------------
  // Registration

  /** Registrations and deletions change no queue and no number. */
  lemma RegistrationIsUnseen(starts: map<Subscriber, int>, steps: seq<Step>, step: Step)
    requires AllAre(starts, steps) && (step.Add? || step.Delete?)
    ensures AllAre(starts, steps + [step])
  {
    hide ViewAfter, RegistryAfter, ClosedAfter, IsAs;
    forall s | s in starts
      ensures IsAs(s, ViewAfter(steps + [step], s, starts[s])) && (s.closed <==> s in ClosedAfter(steps + [step]))
    {
      OneMoreStep(steps, step, s, starts[s]);
    }
  }

  lemma MembersAfterAdd(reg: Registry, s: Subscriber, all: set<Subscriber>)
    requires Members(reg) <= all && s in all
    ensures Members(Added(reg, s, s.shard)) <= all
  {
  }

  lemma {:induction false} RangedKeeps(data: seq<Subscriber>, i: nat, id: string, s: Subscriber)
    requires s in Ranged(data, i, id)
    ensures s in data
    decreases |data| - i
  {
    if i < |data| {
      if data[i].sessionId == id {
        RangedKeeps(Shift(data, i), i + 1, id, s);
      } else {
        RangedKeeps(data, i + 1, id, s);
      }
    }
  }

  lemma MembersAfterDelete(reg: Registry, s: Subscriber, all: set<Subscriber>)
    requires Members(reg) <= all
    ensures Members(Removed(reg, s)) <= all
  {
    hide Ranged, Has;
    forall b, x | b in Removed(reg, s) && x in Removed(reg, s)[b]
      ensures x in all
    {
      MembersOf(reg, b);
      if b == s.shard && x !in reg[b] {
        RangedLength(reg[b], 0, s.sessionId);
        RangedKeeps(reg[b], 0, s.sessionId, x);
      }
    }
  }

  method StepAdd(server: ChatServer, ghost starts: map<Subscriber, int>, ghost steps: seq<Step>, s: Subscriber)
    requires Agrees(server, starts, steps) && s in starts
    modifies server, server.Repr
    ensures fresh(server.Repr - old(server.Repr))
    ensures Agrees(server, starts, steps + [Add(s)])
  {
    hide AllAre, RegistryAfter, ChatServer.Valid, Members;
    RegistrationIsUnseen(starts, steps, Add(s));
    MembersAfterAdd(RegistryAfter(steps), s, starts.Keys);
    OneMoreStep(steps, Add(s), s, 0);
    server.AddSubscriber(s, s.shard);
  }

  method StepDelete(server: ChatServer, ghost starts: map<Subscriber, int>, ghost steps: seq<Step>, s: Subscriber)
    requires Agrees(server, starts, steps)
    modifies server, server.Repr, starts.Keys`cancelled
    ensures server.Repr == old(server.Repr)
    ensures Agrees(server, starts, steps + [Delete(s)])
  {
    hide AllAre, RegistryAfter, ChatServer.Valid, Members;
    RegistrationIsUnseen(starts, steps, Delete(s));
    MembersAfterDelete(RegistryAfter(steps), s, starts.Keys);
    OneMoreStep(steps, Delete(s), s, 0);
    server.DeleteSubscriber(s);
  }

  // ---------------------------------------------------------------------------------------------------------
  // Publishing

  lemma {:induction false} ThroughAlike(order: seq<Subscriber>, c: set<Subscriber>, d: set<Subscriber>)
    requires forall s :: s in order ==> (s in c <==> s in d)
    ensures Through(order, c) == Through(order, d)
  {
    if order != [] {
      assert order[0] in order;
      ThroughAlike(order[1..], c, d);
    }
  }

  /** The order publish really takes is one the steps allow. */
  lemma OrderVisits(order: seq<Subscriber>, steps: seq<Step>, shard: Bucket, guild: Option<GuildID>)
    requires WellUsed(steps) && OrderOf(order, RegistryAfter(steps), shard, guild)
    ensures Visits(order, Live(steps), shard, guild)
  {
    hide Published, InBucket, DistinctIds, WellUsed, RegistryAfter, Live;
    var reg := RegistryAfter(steps);
    forall s | s in order
      ensures s in Live(steps) && Published(s.shard, shard, guild) != Skip
    {
      var b :| b in reg && s in reg[b] && Published(b, shard, guild) != Skip;
      RegistryIsLive(steps, b);
      InBucketIs(Live(steps), b, s);
    }
    forall s | s in Live(steps) && Published(s.shard, shard, guild) != Skip
      ensures s in order
    {
      RegistryIsLive(steps, s.shard);
      InBucketIs(Live(steps), s.shard, s);
      assert s in BucketOf(reg, s.shard);
    }
  }

  /** As AllAre, with the queues taken from `queues`. */
  ghost predicate AllWere(starts: map<Subscriber, int>, steps: seq<Step>, queues: map<Subscriber, seq<Message>>)
    reads starts.Keys`seqno, starts.Keys`frames, starts.Keys`stopped, starts.Keys`closed
  {
    forall s :: s in starts ==>
      && s in queues
      && var v := ViewAfter(steps, s, starts[s]);
         queues[s] == v.queue && s.seqno == v.seqno && s.frames == v.frames && s.stopped == v.stopped
         && (s.closed <==> s in ClosedAfter(steps))
  }

  ghost function Queues(starts: map<Subscriber, int>): map<Subscriber, seq<Message>>
    reads starts.Keys`writeNormal
  {
    map s | s in starts :: s.writeNormal
  }

  lemma AllWereBefore(starts: map<Subscriber, int>, steps: seq<Step>)
    requires AllAre(starts, steps)
    ensures AllWere(starts, steps, Queues(starts))
  {
    hide ViewAfter, ClosedAfter;
    forall s | s in starts
      ensures IsAs(s, ViewAfter(steps, s, starts[s])) && (s.closed <==> s in ClosedAfter(steps))
    {
    }
  }

  /** What publish does to every queue: registered subscribers it gets to are sent the message, nobody else anything. */
  ghost predicate QueuesAre(
    starts: map<Subscriber, int>, reg: Registry, queues: map<Subscriber, seq<Message>>, shard: Bucket,
    message: Message, told: seq<Subscriber>)
    reads starts.Keys`writeNormal
  {
    && (forall b, s :: b in reg && s in reg[b] && s in starts && s in queues ==>
          s.writeNormal
          == queues[s] + (if s in told && Published(b, shard, message.guild) == Send then [message] else []))
    && (forall s :: s in starts && s in queues && s !in Members(reg) ==> s.writeNormal == queues[s])
  }

  lemma PublishIsSeen(
    starts: map<Subscriber, int>, steps: seq<Step>, queues: map<Subscriber, seq<Message>>, shard: Bucket,
    message: Message, order: seq<Subscriber>, s: Subscriber)
    requires s in starts && AllWere(starts, steps, queues) && OncePlaced(RegistryAfter(steps))
    requires QueuesAre(starts, RegistryAfter(steps), queues, shard, message, Through(order, ClosedAfter(steps)))
    ensures IsAs(s, Seen(RegistryAfter(steps), ClosedAfter(steps), ViewAfter(steps, s, starts[s]),
                         Publish(shard, message, order), s))
    ensures s.closed <==> s in ClosedAfter(steps)
  {
    hide ViewAfter, ClosedAfter, RegistryAfter, Published, Through, OncePlaced;
    var reg := RegistryAfter(steps);
    if b :| b in reg && s in reg[b] {
      OnePlaceOnly(reg, b, s);
      assert Reached(reg, s, shard, message.guild) <==> Published(b, shard, message.guild) == Send;
    } else {
      assert s !in Members(reg);
      assert !Reached(reg, s, shard, message.guild);
    }
  }

  lemma AllAreAfterPublish(
    starts: map<Subscriber, int>, steps: seq<Step>, queues: map<Subscriber, seq<Message>>, shard: Bucket,
    message: Message, order: seq<Subscriber>)
    requires AllWere(starts, steps, queues) && OncePlaced(RegistryAfter(steps))
    requires QueuesAre(starts, RegistryAfter(steps), queues, shard, message, Through(order, ClosedAfter(steps)))
    ensures AllAre(starts, steps + [Publish(shard, message, order)])
  {
    hide ViewAfter, ClosedAfter, RegistryAfter, Published, Through, OncePlaced, AllWere, QueuesAre, IsAs, Seen;
    var step := Publish(shard, message, order);
    forall s | s in starts
      ensures IsAs(s, ViewAfter(steps + [step], s, starts[s])) && (s.closed <==> s in ClosedAfter(steps + [step]))
    {
      PublishIsSeen(starts, steps, queues, shard, message, order, s);
      OneMoreStep(steps, step, s, starts[s]);
    }
  }

  /** The subscribers of the order that are closed are those the steps have closed. */
  lemma ClosedAreClosed(
    starts: map<Subscriber, int>, steps: seq<Step>, queues: map<Subscriber, seq<Message>>, order: seq<Subscriber>)
    requires AllWere(starts, steps, queues) && forall s :: s in order ==> s in starts
    ensures Through(order, ClosedAmong(order)) == Through(order, ClosedAfter(steps))
    ensures (exists s :: s in order && s.closed) <==> exists s :: s in order && s in ClosedAfter(steps)
  {
    hide ViewAfter, ClosedAfter;
    ThroughAlike(order, ClosedAmong(order), ClosedAfter(steps));
  }

  lemma OrderIsRegistered(
    order: seq<Subscriber>, reg: Registry, shard: Bucket, guild: Option<GuildID>, all: set<Subscriber>)
    requires OrderOf(order, reg, shard, guild) && Members(reg) <= all
    ensures forall s :: s in order ==> s in all
  {
    hide Published;
    forall s | s in order
      ensures s in all
    {
      var b :| b in reg && s in reg[b] && Published(b, shard, guild) != Skip;
      MembersOf(reg, b);
    }
  }

  method PublishQueues(
    server: ChatServer, ghost starts: map<Subscriber, int>, ghost reg: Registry, shard: Bucket, message: Message)
    returns (panicked: bool, ghost order: seq<Subscriber>)
    requires server.Valid() && reg == server.Registry() && OncePlaced(reg) && Members(reg) <= starts.Keys
    modifies Members(reg)`writeNormal, Members(reg)`closings
    ensures server.Valid() && server.Registry() == reg && OrderOf(order, reg, shard, message.guild)
    ensures panicked <==> exists s :: s in order && s.closed
    ensures QueuesAre(starts, reg, old(Queues(starts)), shard, message, Through(order, ClosedAmong(order)))
  {
    hide ChatServer.Valid, ChatServer.Registry, Published, OrderOf, OncePlaced, ClosedAmong, Through;
    panicked, order := server.Publish(shard, message);
  }

  method StepPublish(
    server: ChatServer, ghost starts: map<Subscriber, int>, ghost steps: seq<Step>, shard: Bucket, message: Message)
    returns (panicked: bool, ghost order: seq<Subscriber>)
    requires Agrees(server, starts, steps) && WellUsed(steps)
    modifies starts.Keys
    ensures Agrees(server, starts, steps + [Publish(shard, message, order)])
    ensures Visits(order, Live(steps), shard, message.guild)
    ensures panicked <==> exists s :: s in order && s in ClosedAfter(steps)
  {
    hide AllAre, RegistryAfter, ClosedAfter, ChatServer.Valid, Published, Visits, OrderOf, WellUsed, AllWere,
      OncePlaced, QueuesAre, ClosedAmong, Through, Members, ChatServer.Registry;
    OncePlacedAlways(steps);
    ghost var reg, queues := RegistryAfter(steps), Queues(starts);
    AllWereBefore(starts, steps);
    panicked, order := PublishQueues(server, starts, reg, shard, message);
    OrderVisits(order, steps, shard, message.guild);
    OrderIsRegistered(order, reg, shard, message.guild, starts.Keys);
    ClosedAreClosed(starts, steps, queues, order);
    AllAreAfterPublish(starts, steps, queues, shard, message, order);
    OneMoreRegistry(steps, Publish(shard, message, order));
  }

  lemma OneMoreRegistry(steps: seq<Step>, step: Step)
    requires !step.Add? && !step.Delete?
    ensures RegistryAfter(steps + [step]) == RegistryAfter(steps)
  {
    assert (steps + [step])[..|steps|] == steps;
  }

  // ---------------------------------------------------------------------------------------------------------
  // Whole runs

  /** The step taken is the one planned; only the order of a publish is up to the server. */
  predicate Carries(planned: Step, taken: Step) {
    match planned
    case Publish(shard, message, _) => taken.Publish? && taken.shard == shard && taken.message == message
    case _ => taken == planned
  }

  lemma CarriedIsWellUsed(plan: seq<Step>, steps: seq<Step>)
    requires |steps| <= |plan| && WellUsed(plan) && forall i :: 0 <= i < |steps| ==> Carries(plan[i], steps[i])
    ensures WellUsed(steps)
  {
    assert forall i :: 0 <= i < |steps| && Registers(steps[i]) ==> plan[i] == steps[i];
  }

  /** A new server and new subscribers have seen nothing. */
  lemma NothingYetAgrees(server: ChatServer, starts: map<Subscriber, int>)
    requires server.Valid() && server.Registry() == map[]
    requires forall s :: s in starts ==>
               s.writeNormal == [] && s.seqno == starts[s] && s.frames == [] && !s.stopped && !s.closed
    ensures Agrees(server, starts, [])
  {
  }

  method TakeStep(server: ChatServer, ghost starts: map<Subscriber, int>, ghost steps: seq<Step>, planned: Step)
    returns (ghost taken: Step)
    requires Agrees(server, starts, steps) && WellUsed(steps) && (!planned.Publish? ==> planned.s in starts)
    modifies server, server.Repr, starts.Keys
    ensures fresh(server.Repr - old(server.Repr))
    ensures Carries(planned, taken) && Agrees(server, starts, steps + [taken])
    ensures taken.Publish? ==> Visits(taken.order, Live(steps), taken.shard, taken.message.guild)
  {
    hide AllAre, RegistryAfter, ClosedAfter, ChatServer.Valid, Visits, WellUsed, Members;
    taken := planned;
    match planned {
      case Add(s) => StepAdd(server, starts, steps, s);
      case Delete(s) => StepDelete(server, starts, steps, s);
      case Publish(shard, message, _) =>
        ghost var order;
        var panicked;
        panicked, order := StepPublish(server, starts, steps, shard, message);
        taken := Publish(shard, message, order);
      case _ =>
        OneMoreRegistry(steps, planned);
        StepAlone(starts, steps, planned);
    }
  }

  /**
   Any plan of registrations, disconnects, publishes and writes, run on the server's own objects, ends with the registry
   and every subscriber as the steps taken say: what is proved about views holds of the objects.
   */
  method Serve(server: ChatServer, ghost starts: map<Subscriber, int>, plan: seq<Step>)
    returns (ghost steps: seq<Step>)
    requires Agrees(server, starts, []) && WellUsed(plan)
    requires forall i :: 0 <= i < |plan| && !plan[i].Publish? ==> plan[i].s in starts
    modifies server, server.Repr, starts.Keys
    ensures |steps| == |plan| && forall i :: 0 <= i < |plan| ==> Carries(plan[i], steps[i])
    ensures forall i :: 0 <= i < |plan| && steps[i].Publish? ==>
              Visits(steps[i].order, Live(steps[..i]), steps[i].shard, steps[i].message.guild)
    ensures Agrees(server, starts, steps)
  {
    hide Agrees, WellUsed, Visits, Live, Carries;
    steps := [];
    for k := 0 to |plan|
      invariant fresh(server.Repr - old(server.Repr))
      invariant |steps| == k && forall i :: 0 <= i < k ==> Carries(plan[i], steps[i])
      invariant forall i :: 0 <= i < k && steps[i].Publish? ==>
                  Visits(steps[i].order, Live(steps[..i]), steps[i].shard, steps[i].message.guild)
      invariant Agrees(server, starts, steps)
    {
      CarriedIsWellUsed(plan, steps);
      ghost var taken := TakeStep(server, starts, steps, plan[k]);
      assert forall i :: 0 <= i <= k ==> (steps + [taken])[..i] == steps[..i];
      steps := steps + [taken];
    }
  }
}
