/** Registration, publishing and writing interleaved: what each subscriber is sent, and in which order. */
module Streams {
  import opened Wrappers
  import opened Discord
  import opened Routing
  import opened Subscribers

  /**
   What happens at the server. `order` is the order in which publish comes to the subscribers it deals with; a
   subscriber's channels are closed before it is deleted, by a step of their own.
   */
  datatype Step =
    | Add(s: Subscriber)
    | Close(s: Subscriber)
    | Delete(s: Subscriber)
    | Publish(shard: Bucket, message: Message, order: seq<Subscriber>)
    | Initial(s: Subscriber, message: Message)
    | Write(s: Subscriber, marshals: bool, writes: bool)

  type Registry = map<Bucket, seq<Subscriber>>

  function BucketOf(reg: Registry, b: Bucket): seq<Subscriber> {
    if b in reg then reg[b] else []
  }

  /** The registry after a run of steps, by the operations of the server. */
  function RegistryAfter(steps: seq<Step>): Registry {
    if steps == [] then map[]
    else
      var reg := RegistryAfter(steps[..|steps| - 1]);
      match steps[|steps| - 1]
      case Add(s) => Added(reg, s, s.shard)
      case Delete(s) => Removed(reg, s)
      case _ => reg
  }

  // ---------------------------------------------------------------------------------------------------------
  // The registry against the list of live subscribers

  /** The subscribers registered and not deleted since, in the order of their registration. */
  function Live(steps: seq<Step>): seq<Subscriber> {
    if steps == [] then []
    else
      var live := Live(steps[..|steps| - 1]);
      match steps[|steps| - 1]
      case Add(s) => live + [s]
      case Delete(s) => Without(live, s.sessionId)
      case _ => live
  }

  function InBucket(subs: seq<Subscriber>, b: Bucket): seq<Subscriber> {
    if subs == [] then []
    else
      var last := |subs| - 1;
      InBucket(subs[..last], b) + (if subs[last].shard == b then [subs[last]] else [])
  }

  /**
   The session id of a registered subscriber is nobody else's, and a subscriber registers once: every connection makes
   a new one. Clients that never registered may share an id: all that failed to identify are deleted with an empty one.
   */
  ghost predicate WellUsed(steps: seq<Step>) {
    && (forall i, j ::
          0 <= i < |steps| && 0 <= j < |steps| && steps[i].Add? && Registers(steps[j])
          && steps[i].s.sessionId == steps[j].s.sessionId ==>
            steps[i].s == steps[j].s)
    && (forall i, j :: 0 <= i < j < |steps| && steps[i].Add? && steps[j].Add? ==> steps[i].s != steps[j].s)
  }

  predicate Registers(step: Step) {
    step.Add? || step.Delete?
  }

  lemma {:induction false} InWithout(data: seq<Subscriber>, id: string, s: Subscriber)
    ensures s in Without(data, id) <==> s in data && s.sessionId != id
  {
    if data != [] {
      var init, last := data[..|data| - 1], data[|data| - 1];
      InWithout(init, id, s);
      assert data == init + [last];
    }
  }

  lemma {:induction false} LiveWasAdded(steps: seq<Step>, s: Subscriber)
    requires s in Live(steps)
    ensures exists i :: 0 <= i < |steps| && steps[i] == Add(s)
  {
    var init, last := steps[..|steps| - 1], steps[|steps| - 1];
    if last.Delete? {
      InWithout(Live(init), last.s.sessionId, s);
    }
    if last == Add(s) {
      assert steps[|steps| - 1] == Add(s);
    } else {
      LiveWasAdded(init, s);
      var i :| 0 <= i < |init| && init[i] == Add(s);
      assert steps[i] == Add(s);
    }
  }

  lemma WellUsedPrefix(steps: seq<Step>)
    requires WellUsed(steps) && steps != []
    ensures WellUsed(steps[..|steps| - 1])
  {
  }

  lemma {:induction false} WithoutKeepsDistinct(data: seq<Subscriber>, id: string)
    requires DistinctIds(data)
    ensures DistinctIds(Without(data, id))
  {
    if data != [] {
      var init, last := data[..|data| - 1], data[|data| - 1];
      WithoutKeepsDistinct(init, id);
      forall i | 0 <= i < |Without(init, id)|
        ensures Without(init, id)[i].sessionId != last.sessionId
      {
        InWithout(init, id, Without(init, id)[i]);
      }
    }
  }

  lemma {:induction false} LiveIsDistinct(steps: seq<Step>)
    requires WellUsed(steps)
    ensures DistinctIds(Live(steps))
  {
    if steps != [] {
      var init, last := steps[..|steps| - 1], steps[|steps| - 1];
      WellUsedPrefix(steps);
      LiveIsDistinct(init);
      match last
      case Add(s) =>
        forall i | 0 <= i < |Live(init)|
          ensures Live(init)[i].sessionId != s.sessionId
        {
          LiveWasAdded(init, Live(init)[i]);
          var j :| 0 <= j < |init| && init[j] == Add(Live(init)[i]);
          assert steps[j] == Add(Live(init)[i]) && steps[|steps| - 1] == Add(s);
        }
      case Delete(s) => WithoutKeepsDistinct(Live(init), s.sessionId);
      case _ =>
    }
  }

  lemma {:induction false} InBucketIs(subs: seq<Subscriber>, b: Bucket, s: Subscriber)
    ensures s in InBucket(subs, b) <==> s in subs && s.shard == b
  {
    if subs != [] {
      var init, last := subs[..|subs| - 1], subs[|subs| - 1];
      InBucketIs(init, b, s);
      assert subs == init + [last];
    }
  }

  lemma {:induction false} InBucketDistinct(subs: seq<Subscriber>, b: Bucket)
    requires DistinctIds(subs)
    ensures DistinctIds(InBucket(subs, b))
  {
    if subs != [] {
      var init, last := subs[..|subs| - 1], subs[|subs| - 1];
      InBucketDistinct(init, b);
      forall i | 0 <= i < |InBucket(init, b)|
        ensures InBucket(init, b)[i].sessionId != last.sessionId
      {
        InBucketIs(init, b, InBucket(init, b)[i]);
      }
    }
  }

  lemma {:induction false} DistinctHits(data: seq<Subscriber>, id: string)
    requires DistinctIds(data)
    ensures Hits(data, id) <= 1
  {
    if data != [] {
      var init, last := data[..|data| - 1], data[|data| - 1];
      DistinctHits(init, id);
      WithoutLength(init, id);
    }
  }

  lemma OneMoreInBucket(subs: seq<Subscriber>, s: Subscriber, b: Bucket)
    ensures InBucket(subs + [s], b) == InBucket(subs, b) + (if s.shard == b then [s] else [])
  {
    assert (subs + [s])[..|subs|] == subs;
  }

  lemma OneMoreWithout(subs: seq<Subscriber>, s: Subscriber, id: string)
    ensures Without(subs + [s], id) == Without(subs, id) + (if s.sessionId == id then [] else [s])
  {
    assert (subs + [s])[..|subs|] == subs;
  }

  lemma {:induction false} WithoutInBucket(subs: seq<Subscriber>, b: Bucket, id: string)
    ensures InBucket(Without(subs, id), b) == Without(InBucket(subs, b), id)
  {
    if subs != [] {
      var init, last := subs[..|subs| - 1], subs[|subs| - 1];
      WithoutInBucket(init, b, id);
      OneMoreInBucket(Without(init, id), last, b);
      OneMoreWithout(InBucket(init, b), last, id);
      assert Without(init, id) + [] == Without(init, id) && InBucket(init, b) + [] == InBucket(init, b);
      assert Without(InBucket(init, b), id) + [] == Without(InBucket(init, b), id);
    }
  }

  /** Deleting concerns one bucket; live subscribers of other buckets have other session ids. */
  lemma DeleteElsewhere(steps: seq<Step>, s: Subscriber, b: Bucket)
    requires WellUsed(steps + [Delete(s)]) && b != s.shard
    ensures Without(InBucket(Live(steps), b), s.sessionId) == InBucket(Live(steps), b)
  {
    var data, all := InBucket(Live(steps), b), steps + [Delete(s)];
    forall i | 0 <= i < |data|
      ensures data[i].sessionId != s.sessionId
    {
      InBucketIs(Live(steps), b, data[i]);
      LiveWasAdded(steps, data[i]);
      var j :| 0 <= j < |steps| && steps[j] == Add(data[i]);
      assert all[j] == Add(data[i]) && all[|steps|] == Delete(s);
    }
    WithoutNone(data, s.sessionId);
  }

  /**
   After any run of registrations and deletions every bucket holds its live subscribers, each exactly once, in the
   order of their registration, although deletions shift the slice while the loop ranges over it.
   */
  lemma {:induction false} RegistryIsLive(steps: seq<Step>, b: Bucket)
    requires WellUsed(steps)
    ensures BucketOf(RegistryAfter(steps), b) == InBucket(Live(steps), b)
    ensures DistinctIds(InBucket(Live(steps), b))
  {
    LiveIsDistinct(steps);
    InBucketDistinct(Live(steps), b);
    if steps != [] {
      hide Deleted, InBucket, WellUsed, DistinctIds, Without;
      var init, last := steps[..|steps| - 1], steps[|steps| - 1];
      WellUsedPrefix(steps);
      RegistryIsLive(init, b);
      assert steps == init + [last];
      match last
      case Add(s) => OneMoreInBucket(Live(init), s, b);
      case Delete(s) => DeleteKeeps(init, s, b);
      case _ =>
    }
  }

  lemma DeleteKeeps(steps: seq<Step>, s: Subscriber, b: Bucket)
    requires WellUsed(steps + [Delete(s)]) && DistinctIds(InBucket(Live(steps), b))
    requires BucketOf(RegistryAfter(steps), b) == InBucket(Live(steps), b)
    ensures BucketOf(Removed(RegistryAfter(steps), s), b) == InBucket(Without(Live(steps), s.sessionId), b)
  {
    hide Deleted, WellUsed, DistinctIds, InBucket;
    var bucket := InBucket(Live(steps), b);
    WithoutInBucket(Live(steps), b, s.sessionId);
    if b != s.shard {
      DeleteElsewhere(steps, s, b);
    } else {
      DistinctHits(bucket, s.sessionId);
      DeletesAllIff(bucket, s.sessionId);
    }
  }

  lemma OncePlacedAlways(steps: seq<Step>)
    requires WellUsed(steps)
    ensures OncePlaced(RegistryAfter(steps))
  {
    hide InBucket, DistinctIds, WellUsed, Without;
    var reg := RegistryAfter(steps);
    forall b, c, i, j | b in reg && c in reg && 0 <= i < |reg[b]| && 0 <= j < |reg[c]| && reg[b][i] == reg[c][j]
      ensures b == c && i == j
    {
      RegistryIsLive(steps, b);
      RegistryIsLive(steps, c);
      InBucketIs(Live(steps), b, reg[b][i]);
      InBucketIs(Live(steps), c, reg[c][j]);
      DistinctPlaces(reg[b], i, j);
    }
  }

  lemma DistinctPlaces(data: seq<Subscriber>, i: nat, j: nat)
    requires DistinctIds(data) && i < |data|
    ensures j < |data| && data[i] == data[j] ==> i == j
  {
  }

  // ---------------------------------------------------------------------------------------------------------
  // Publishing while subscribers disconnect

  /** The subscribers whose channels have been closed. */
  function ClosedAfter(steps: seq<Step>): set<Subscriber> {
    if steps == [] then {}
    else
      var last := steps[|steps| - 1];
      ClosedAfter(steps[..|steps| - 1]) + (if last.Close? then {last.s} else {})
  }

  /** `order` lists the live subscribers that publish deals with, each once. */
  ghost predicate Visits(order: seq<Subscriber>, live: seq<Subscriber>, shard: Bucket, guild: Option<GuildID>) {
    && (forall i, j :: 0 <= i < j < |order| ==> order[i] != order[j])
    && (forall s :: s in order ==> s in live && Published(s.shard, shard, guild) != Skip)
    && (forall s :: s in live && Published(s.shard, shard, guild) != Skip ==> s in order)
  }

  /**
   Publish gets to every subscriber it should exactly when none of them is closed and still registered, whatever the
   order it visits them in.
   */
  lemma PublishReachesAllIff(
    steps: seq<Step>, order: seq<Subscriber>, shard: Bucket, guild: Option<GuildID>)
    requires Visits(order, Live(steps), shard, guild)
    ensures (forall s :: s in Live(steps) && Published(s.shard, shard, guild) != Skip ==>
               s in Through(order, ClosedAfter(steps)))
       <==> forall s :: s in Live(steps) && Published(s.shard, shard, guild) != Skip ==> s !in ClosedAfter(steps)
  {
    hide Published, Live, ClosedAfter, Through;
    ThroughIs(order, ClosedAfter(steps));
  }

  /** A subscriber that is closed and not yet deleted costs the next one the event. */
  lemma ClosedSubscriberCostsTheNext(a: Subscriber, b: Subscriber)
    requires a.sessionId != b.sessionId && a.shard == b.shard == (0, 1)
    ensures var steps := [Add(a), Add(b), Close(a)];
            && WellUsed(steps) && Visits([a, b], Live(steps), (0, 1), None)
            && b in Live(steps) && b !in ClosedAfter(steps) && Published(b.shard, (0, 1), None) == Send
            && b !in Through([a, b], ClosedAfter(steps))
  {
    var steps := [Add(a), Add(b), Close(a)];
    assert steps[..2] == [Add(a), Add(b)] && steps[..2][..1] == [Add(a)] && steps[..2][..1][..0] == [];
    assert Live([Add(a)]) == [a];
    assert Live(steps[..2]) == [a, b];
    assert Live(steps) == [a, b];
    assert ClosedAfter(steps[..2][..1]) == {};
    assert ClosedAfter(steps[..2]) == {};
    assert ClosedAfter(steps) == {a};
  }

  // ---------------------------------------------------------------------------------------------------------
  // One subscriber's stream

  /**
   One subscriber: its queue, its sequence counter, the frames written, which of the messages taken from the queue were
   written, and whether the writer has stopped.
   */
  datatype View = View(queue: seq<Message>, seqno: int, frames: seq<Frame>, oks: seq<bool>, stopped: bool)

  /** publish reaches the subscriber when some bucket it is placed in gets the event; it then has that one place. */
  ghost predicate Reached(reg: Registry, s: Subscriber, shard: Bucket, guild: Option<GuildID>) {
    exists b :: b in reg && s in reg[b] && Published(b, shard, guild) == Send
  }

  /** A step as subscriber `s` sees it: publish and dispatchInitial feed its queue, the writer drains it. */
  ghost function Seen(reg: Registry, closed: set<Subscriber>, v: View, step: Step, s: Subscriber): View {
    match step
    case Publish(shard, message, order) =>
      if Reached(reg, s, shard, message.guild) && s in Through(order, closed) then v.(queue := v.queue + [message])
      else v
    case Initial(x, message) => if x == s then v.(queue := v.queue + [message]) else v
    case Write(x, marshals, writes) =>
      if x == s && v.queue != [] && !v.stopped then Written(v, marshals, writes) else v
    case Close(x) => if x == s then v.(stopped := true) else v
    case _ => v
  }

  ghost function ViewAfter(steps: seq<Step>, s: Subscriber, start: int): View {
    if steps == [] then View([], start, [], [], false)
    else
      var init := steps[..|steps| - 1];
      Seen(RegistryAfter(init), ClosedAfter(init), ViewAfter(init, s, start), steps[|steps| - 1], s)
  }

  /** One round of the writer: a failed marshal skips the message, a failed write ends the writer. */
  function Written(v: View, marshals: bool, writes: bool): View
    requires v.queue != []
  {
    var message := v.queue[0];
    View(v.queue[1..], v.seqno + (if message.dispatch then 1 else 0),
         v.frames + (if marshals && writes then [FrameOf(message, v.seqno)] else []), v.oks + [marshals && writes],
         marshals && !writes)
  }

  /** The messages put into the subscriber's queue: those of publishes that got to it, and its initial state. */
  function ServedTo(steps: seq<Step>, s: Subscriber): seq<Message> {
    if steps == [] then []
    else
      var init := steps[..|steps| - 1];
      var served := ServedTo(init, s);
      match steps[|steps| - 1]
      case Publish(shard, message, order) =>
        if s in Live(init) && Published(s.shard, shard, message.guild) == Send && s in Through(order, ClosedAfter(init))
        then served + [message]
        else served
      case Initial(x, message) => if x == s then served + [message] else served
      case _ => served
  }

  /** The messages meant for the subscriber: published to its bucket while it is live, or part of its initial state. */
  function RoutedTo(steps: seq<Step>, s: Subscriber): seq<Message> {
    if steps == [] then []
    else
      var init := steps[..|steps| - 1];
      var routed := RoutedTo(init, s);
      match steps[|steps| - 1]
      case Publish(shard, message, _) =>
        if s in Live(init) && Published(s.shard, shard, message.guild) == Send then routed + [message] else routed
      case Initial(x, message) => if x == s then routed + [message] else routed
      case _ => routed
  }

  function Dispatches(messages: seq<Message>): nat {
    if messages == [] then 0
    else Dispatches(messages[..|messages| - 1]) + (if messages[|messages| - 1].dispatch then 1 else 0)
  }

  /** The frames for a list of messages: each dispatch is numbered by the dispatches before it, marshalled or not. */
  function Emitted(messages: seq<Message>, oks: seq<bool>, start: int): seq<Frame>
    requires |messages| == |oks|
  {
    if messages == [] then []
    else
      var last := |messages| - 1;
      Emitted(messages[..last], oks[..last], start)
        + (if oks[last] then [FrameOf(messages[last], start + Dispatches(messages[..last]))] else [])
  }

  lemma ReachedIffLive(steps: seq<Step>, s: Subscriber, shard: Bucket, guild: Option<GuildID>)
    requires WellUsed(steps)
    ensures Reached(RegistryAfter(steps), s, shard, guild)
       <==> s in Live(steps) && Published(s.shard, shard, guild) == Send
  {
    hide InBucket, DistinctIds, WellUsed, Without, Published;
    var reg := RegistryAfter(steps);
    RegistryIsLive(steps, s.shard);
    InBucketIs(Live(steps), s.shard, s);
    if Reached(reg, s, shard, guild) {
      var b :| b in reg && s in reg[b] && Published(b, shard, guild) == Send;
      RegistryIsLive(steps, b);
      InBucketIs(Live(steps), b, s);
    }
    if s in Live(steps) && Published(s.shard, shard, guild) == Send {
      assert s in BucketOf(reg, s.shard);
    }
  }

  /** The queue is what is left of the routed messages, the frames are what the written ones amount to. */
  ghost predicate InOrder(v: View, routed: seq<Message>, start: int) {
    && |v.oks| <= |routed|
    && v.queue == routed[|v.oks|..]
    && v.seqno == start + Dispatches(routed[..|v.oks|])
    && v.frames == Emitted(routed[..|v.oks|], v.oks, start)
  }

  lemma RoutingKeeps(v: View, routed: seq<Message>, start: int, message: Message)
    requires InOrder(v, routed, start)
    ensures InOrder(v.(queue := v.queue + [message]), routed + [message], start)
  {
    var n := |v.oks|;
    assert (routed + [message])[..n] == routed[..n];
    assert (routed + [message])[n..] == routed[n..] + [message];
  }

  lemma WritingKeeps(v: View, routed: seq<Message>, start: int, marshals: bool, writes: bool)
    requires InOrder(v, routed, start) && v.queue != []
    ensures InOrder(Written(v, marshals, writes), routed, start)
  {
    var n, done := |v.oks|, routed[..|v.oks| + 1];
    assert done[..n] == routed[..n] && done[n] == routed[n] == v.queue[0];
    assert (v.oks + [marshals && writes])[..n] == v.oks;
    assert routed[n..][1..] == routed[n + 1..];
  }

  lemma StoppingKeeps(v: View, routed: seq<Message>, start: int)
    requires InOrder(v, routed, start)
    ensures InOrder(v.(stopped := true), routed, start)
  {
  }

  /** Whatever happens, the frames are the messages put into the queue, in order, each numbered by its position. */
  lemma {:induction false} ViewsAreInOrder(steps: seq<Step>, s: Subscriber, start: int)
    requires WellUsed(steps)
    ensures InOrder(ViewAfter(steps, s, start), ServedTo(steps, s), start)
  {
    if steps != [] {
      hide InOrder, Written, Reached, WellUsed, Published, Live, RegistryAfter, Through, ClosedAfter;
      var init, last := steps[..|steps| - 1], steps[|steps| - 1];
      WellUsedPrefix(steps);
      ViewsAreInOrder(init, s, start);
      var v, served := ViewAfter(init, s, start), ServedTo(init, s);
      match last
      case Publish(shard, message, _) =>
        ReachedIffLive(init, s, shard, message.guild);
        RoutingKeeps(v, served, start, message);
      case Initial(_, message) => RoutingKeeps(v, served, start, message);
      case Write(_, marshals, writes) => if v.queue != [] { WritingKeeps(v, served, start, marshals, writes); }
      case Close(_) => StoppingKeeps(v, served, start);
      case _ =>
    } else {
      NothingYet(start);
    }
  }

  lemma NothingYet(start: int)
    ensures InOrder(View([], start, [], [], false), [], start)
  {
  }

  /** No publish of the run comes to a subscriber that is closed and still registered. */
  ghost predicate Undisturbed(steps: seq<Step>) {
    forall i :: 0 <= i < |steps| && steps[i].Publish? ==> PublishIsUndisturbed(steps[..i], steps[i])
  }

  ghost predicate PublishIsUndisturbed(before: seq<Step>, step: Step)
    requires step.Publish?
  {
    && Visits(step.order, Live(before), step.shard, step.message.guild)
    && forall s :: s in step.order ==> s !in ClosedAfter(before)
  }

  lemma UndisturbedPrefix(steps: seq<Step>)
    requires Undisturbed(steps) && steps != []
    ensures Undisturbed(steps[..|steps| - 1])
    ensures steps[|steps| - 1].Publish? ==> PublishIsUndisturbed(steps[..|steps| - 1], steps[|steps| - 1])
  {
    hide PublishIsUndisturbed;
    var init := steps[..|steps| - 1];
    forall i | 0 <= i < |init| && init[i].Publish?
      ensures PublishIsUndisturbed(init[..i], init[i])
    {
      assert init[..i] == steps[..i] && init[i] == steps[i];
    }
  }

  /** Then every message meant for the subscriber is put into its queue. */
  lemma {:induction false} ServedIsRouted(steps: seq<Step>, s: Subscriber)
    requires Undisturbed(steps)
    ensures ServedTo(steps, s) == RoutedTo(steps, s)
  {
    if steps != [] {
      hide Undisturbed, Published, Live, ClosedAfter, Through;
      var init, last := steps[..|steps| - 1], steps[|steps| - 1];
      UndisturbedPrefix(steps);
      ServedIsRouted(init, s);
      if last.Publish? {
        ThroughIs(last.order, ClosedAfter(init));
      }
    }
  }

  lemma {:induction false} EmittedAt(messages: seq<Message>, oks: seq<bool>, start: int, i: nat)
    requires |messages| == |oks| && i < |messages| && forall j :: 0 <= j < |oks| ==> oks[j]
    ensures |Emitted(messages, oks, start)| == |messages|
    ensures Emitted(messages, oks, start)[i] == FrameOf(messages[i], start + Dispatches(messages[..i]))
  {
    var last := |messages| - 1;
    assert messages[..last][..if i < last then i else 0] == messages[..if i < last then i else 0];
    if last > 0 {
      EmittedAt(messages[..last], oks[..last], start, if i < last then i else 0);
    }
  }

  /** 1 when the last message taken from the queue was not written. */
  function Lost(v: View): nat {
    if v.oks != [] && !v.oks[|v.oks| - 1] then 1 else 0
  }

  lemma EmittedPrefix(messages: seq<Message>, oks: seq<bool>, start: int)
    requires |messages| == |oks| && oks != []
    ensures !oks[|oks| - 1] ==>
              Emitted(messages, oks, start) == Emitted(messages[..|oks| - 1], oks[..|oks| - 1], start)
  {
  }

  /**
   For every interleaving, with marshal failures excluded and no publish coming to a closed subscriber: the frames
   written to a subscriber are a prefix of the messages routed to it since its registration, in order and without
   duplicate, and the dispatches among them carry consecutive numbers from the starting sequence on. Nothing is lost but
   the one message whose write failed, which ended the writer.
   */
  lemma FramesArePrefix(steps: seq<Step>, s: Subscriber, start: int, i: nat)
    requires WellUsed(steps) && Undisturbed(steps)
    requires forall j :: 0 <= j < |steps| && steps[j].Write? ==> steps[j].marshals
    ensures var v, routed := ViewAfter(steps, s, start), RoutedTo(steps, s);
            && |v.frames| + Lost(v) + |v.queue| == |routed| && (Lost(v) == 1 ==> v.stopped)
            && (i < |v.frames| ==> v.frames[i] == FrameOf(routed[i], start + Dispatches(routed[..i])))
            && (i < |v.queue| ==> v.queue[i] == routed[|v.frames| + Lost(v) + i])
  {
    hide ViewAfter, RoutedTo, ServedTo, WellUsed, Undisturbed, Dispatches;
    var v, routed := ViewAfter(steps, s, start), RoutedTo(steps, s);
    ViewsAreInOrder(steps, s, start);
    ServedIsRouted(steps, s);
    AllMarshalled(steps, s, start);
    var n := |v.oks|;
    if n > 0 {
      EmittedPrefix(routed[..n], v.oks, start);
      var m := n - Lost(v);
      assert routed[..n][..n - 1] == routed[..n - 1] && v.oks[..n] == v.oks;
      if m > 0 {
        EmittedAt(routed[..m], v.oks[..m], start, if i < m then i else 0);
        assert i < m ==> routed[..m][..i] == routed[..i];
      }
    }
  }

  lemma {:induction false} DispatchesBetween(messages: seq<Message>, i: nat, j: nat)
    requires i <= j <= |messages| && forall k :: i <= k < j ==> !messages[k].dispatch
    ensures Dispatches(messages[..j]) == Dispatches(messages[..i])
    decreases j
  {
    if i < j {
      DispatchesBetween(messages, i, j - 1);
      assert messages[..j][..j - 1] == messages[..j - 1];
    }
  }

  lemma DispatchCounts(messages: seq<Message>, i: nat)
    requires i < |messages| && messages[i].dispatch
    ensures Dispatches(messages[..i + 1]) == Dispatches(messages[..i]) + 1
  {
    assert messages[..i + 1][..i] == messages[..i];
  }

  /**
   Number by number: every frame is the message routed at its place; the first dispatch carries the starting number, the
   next dispatch always one more than the one before it, and everything else carries 0.
   */
  lemma NumbersAreConsecutive(steps: seq<Step>, s: Subscriber, start: int, i: nat, j: nat)
    requires WellUsed(steps) && Undisturbed(steps)
    requires forall k :: 0 <= k < |steps| && steps[k].Write? ==> steps[k].marshals
    requires i <= j
    ensures |ViewAfter(steps, s, start).frames| <= |RoutedTo(steps, s)|
    ensures var frames, routed := ViewAfter(steps, s, start).frames, RoutedTo(steps, s);
            j < |frames| ==>
            && frames[i].message == routed[i]
            && (!routed[i].dispatch ==> frames[i].sequence == 0)
            && (routed[i].dispatch && (forall k :: 0 <= k < i ==> !routed[k].dispatch) ==> frames[i].sequence == start)
            && (i < j && routed[i].dispatch && routed[j].dispatch && (forall k :: i < k < j ==> !routed[k].dispatch) ==>
                  frames[j].sequence == frames[i].sequence + 1)
  {
    hide ViewAfter, RoutedTo, WellUsed, Undisturbed, Dispatches;
    var routed := RoutedTo(steps, s);
    FramesArePrefix(steps, s, start, i);
    FramesArePrefix(steps, s, start, j);
    if j < |ViewAfter(steps, s, start).frames| && routed[i].dispatch {
      if forall k :: 0 <= k < i ==> !routed[k].dispatch {
        DispatchesBetween(routed, 0, i);
        NoDispatches(routed);
      }
      if i < j && forall k :: i < k < j ==> !routed[k].dispatch {
        DispatchCounts(routed, i);
        DispatchesBetween(routed, i + 1, j);
      }
    }
  }

  lemma NoDispatches(messages: seq<Message>)
    ensures Dispatches(messages[..0]) == 0
  {
  }

  lemma {:induction false} AllMarshalled(steps: seq<Step>, s: Subscriber, start: int)
    requires forall j :: 0 <= j < |steps| && steps[j].Write? ==> steps[j].marshals
    ensures var v := ViewAfter(steps, s, start);
            && (forall j :: 0 <= j < |v.oks| - 1 ==> v.oks[j])
            && (v.oks != [] && !v.oks[|v.oks| - 1] ==> v.stopped)
  {
    if steps != [] {
      hide Reached, Published, Live, RegistryAfter, Through, ClosedAfter;
      AllMarshalled(steps[..|steps| - 1], s, start);
    }
  }
}
