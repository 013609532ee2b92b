/** The registry of websocket subscribers: buckets of slices that are appended to and cut in place. */
module Subscribers {
  import opened Wrappers
  import opened Discord
  import opened Routing

  /** A queued dispatch or control payload. */
  datatype Message = Message(dispatch: bool, guild: Option<GuildID>, content: string)

  /** A written frame: dispatches are numbered, other payloads carry 0. */
  datatype Frame = Frame(sequence: int, message: Message)

  /** What others have sent a subscriber: queued messages, and messages that end its session. */
  datatype Mailbox = Mailbox(queue: seq<Message>, closings: seq<bool>)

  class Subscriber {
    const sessionId: string
    const shard: Bucket
    var writeNormal: seq<Message>
    var seqno: int
    var frames: seq<Frame>
    var closings: seq<bool>
    var cancelled: bool
    var closed: bool
    var stopped: bool

    constructor (sessionId: string, shard: Bucket, start: int)
      ensures this.sessionId == sessionId && this.shard == shard && seqno == start
      ensures writeNormal == [] && frames == [] && closings == [] && !cancelled && !closed && !stopped
    {
      this.sessionId, this.shard, seqno := sessionId, shard, start;
      writeNormal, frames, closings, cancelled, closed, stopped := [], [], [], false, false, false;
    }

    function Mail(): Mailbox
      reads this`writeNormal, this`closings
    {
      Mailbox(writeNormal, closings)
    }

    /** The end of a session: its writer is done, its channels are closed, and a later send on them panics. */
    method Close()
      modifies this`closed, this`cancelled, this`stopped
      ensures closed && cancelled && stopped
    {
      closed, cancelled, stopped := true, true, true;
    }

    method Enqueue(message: Message)
      modifies this`writeNormal
      ensures writeNormal == old(writeNormal) + [message]
    {
      writeNormal := writeNormal + [message];
    }

    /** invalidSession: a message that ends the session, and says whether it may be resumed, is queued. */
    method Invalidate(resumable: bool)
      modifies this`closings
      ensures closings == old(closings) + [resumable]
    {
      closings := closings + [resumable];
    }

    method Cancel()
      modifies this`cancelled
      ensures cancelled
    {
      cancelled := true;
    }

    /** One round of the writer loop: the number is taken before the message is marshalled. A failed write ends it. */
    method WriteNext(marshals: bool, writes: bool)
      requires writeNormal != [] && !stopped
      modifies this`writeNormal, this`seqno, this`frames, this`cancelled, this`stopped
      ensures writeNormal == old(writeNormal)[1..]
      ensures seqno == old(seqno) + (if old(writeNormal)[0].dispatch then 1 else 0)
      ensures var message := old(writeNormal)[0];
              frames == old(frames) + (if !marshals || !writes then []
                                       else if message.dispatch then [Frame(old(seqno), message)]
                                       else [Frame(0, message)])
      ensures cancelled == (old(cancelled) || (marshals && !writes)) && stopped == (marshals && !writes)
    {
      var message := writeNormal[0];
      writeNormal := writeNormal[1..];
      var sequence := 0;
      if message.dispatch {
        sequence := seqno;
        seqno := seqno + 1;
      }
      if !marshals {
        return;
      }
      if !writes {
        cancelled, stopped := true, true;
        return;
      }
      frames := frames + [Frame(sequence, message)];
    }
  }

  function FrameOf(message: Message, seqno: int): Frame {
    Frame(if message.dispatch then seqno else 0, message)
  }

  // ---------------------------------------------------------------------------------------------------------
  // Deleting from a slice while ranging over it

  /** Removing index i in place: the rest moves down, the last cell keeps its old content. */
  function Shift<T>(data: seq<T>, i: nat): seq<T>
    requires i < |data|
  {
    data[..i] + data[i + 1..] + [data[|data| - 1]]
  }

  /** The backing array after the loop of deleteSubscriber from index i on: it reads what it has just moved. */
  function Ranged(data: seq<Subscriber>, i: nat, sessionId: string): seq<Subscriber>
    decreases |data| - i
  {
    if i >= |data| then data
    else if data[i].sessionId == sessionId then Ranged(Shift(data, i), i + 1, sessionId)
    else Ranged(data, i + 1, sessionId)
  }

  predicate Has(data: seq<Subscriber>, sessionId: string) {
    exists i :: 0 <= i < |data| && data[i].sessionId == sessionId
  }

  /** What deleteSubscriber leaves in a bucket: every hit stores a slice one shorter than the original. */
  function Deleted(data: seq<Subscriber>, sessionId: string): seq<Subscriber> {
    RangedLength(data, 0, sessionId);
    if Has(data, sessionId) then Ranged(data, 0, sessionId)[..|data| - 1] else data
  }

  lemma {:induction false} RangedLength(data: seq<Subscriber>, i: nat, sessionId: string)
    ensures |Ranged(data, i, sessionId)| == |data|
    decreases |data| - i
  {
    if i < |data| {
      RangedLength(if data[i].sessionId == sessionId then Shift(data, i) else data, i + 1, sessionId);
    }
  }

  function Without(data: seq<Subscriber>, sessionId: string): seq<Subscriber> {
    if data == [] then []
    else
      var last := |data| - 1;
      Without(data[..last], sessionId) + (if data[last].sessionId == sessionId then [] else [data[last]])
  }

  ghost predicate DistinctIds(data: seq<Subscriber>) {
    forall i, j :: 0 <= i < j < |data| ==> data[i].sessionId != data[j].sessionId
  }

  lemma {:induction false} NoHits(data: seq<Subscriber>, i: nat, sessionId: string)
    requires forall j :: i <= j < |data| ==> data[j].sessionId != sessionId
    ensures Ranged(data, i, sessionId) == data
    decreases |data| - i
  {
    if i < |data| {
      NoHits(data, i + 1, sessionId);
    }
  }

  /** With one hit the loop removes it and nothing else, although it skips the element that moved into its place. */
  lemma {:induction false} OneHit(data: seq<Subscriber>, i: nat, k: nat, sessionId: string)
    requires i <= k < |data| && data[k].sessionId == sessionId
    requires forall j :: 0 <= j < |data| && j != k ==> data[j].sessionId != sessionId
    ensures Ranged(data, i, sessionId) == Shift(data, k)
    decreases |data| - i
  {
    if i < k {
      OneHit(data, i + 1, k, sessionId);
    } else {
      var shifted := Shift(data, k);
      forall j | k + 1 <= j < |data|
        ensures shifted[j].sessionId != sessionId
      {
        assert shifted[j] == if j < |data| - 1 then data[j + 1] else data[|data| - 1];
      }
      NoHits(shifted, k + 1, sessionId);
    }
  }

  lemma {:induction false} WithoutNone(data: seq<Subscriber>, sessionId: string)
    requires !Has(data, sessionId)
    ensures Without(data, sessionId) == data
  {
    if data != [] {
      var init := data[..|data| - 1];
      forall i | 0 <= i < |init|
        ensures init[i].sessionId != sessionId
      {
        assert init[i] == data[i];
      }
      WithoutNone(init, sessionId);
    }
  }

  lemma {:induction false} WithoutOne(data: seq<Subscriber>, k: nat, sessionId: string)
    requires k < |data| && data[k].sessionId == sessionId
    requires forall j :: 0 <= j < |data| && j != k ==> data[j].sessionId != sessionId
    ensures Without(data, sessionId) == data[..k] + data[k + 1..]
  {
    var last := |data| - 1;
    if k == last {
      assert !Has(data[..last], sessionId);
      WithoutNone(data[..last], sessionId);
    } else {
      WithoutOne(data[..last], k, sessionId);
      assert data[..k] + data[k + 1..] == data[..last][..k] + data[..last][k + 1..] + [data[last]];
    }
  }

  /** How many elements have the session id. */
  function Hits(data: seq<Subscriber>, sessionId: string): nat {
    if data == [] then 0
    else Hits(data[..|data| - 1], sessionId) + (if data[|data| - 1].sessionId == sessionId then 1 else 0)
  }

  lemma {:induction false} WithoutLength(data: seq<Subscriber>, sessionId: string)
    ensures |Without(data, sessionId)| == |data| - Hits(data, sessionId)
    ensures Hits(data, sessionId) == 0 <==> !Has(data, sessionId)
  {
    if data != [] {
      var init := data[..|data| - 1];
      WithoutLength(init, sessionId);
      if Has(init, sessionId) {
        var i :| 0 <= i < |init| && init[i].sessionId == sessionId;
        assert data[i].sessionId == sessionId;
      }
      if Has(data, sessionId) && data[|data| - 1].sessionId != sessionId {
        var i :| 0 <= i < |data| && data[i].sessionId == sessionId;
        assert init[i].sessionId == sessionId;
      }
    }
  }

  lemma {:induction false} HitsOne(data: seq<Subscriber>, k: nat, sessionId: string)
    requires k < |data| && data[k].sessionId == sessionId && Hits(data, sessionId) <= 1
    ensures forall j :: 0 <= j < |data| && j != k ==> data[j].sessionId != sessionId
  {
    var init := data[..|data| - 1];
    WithoutLength(init, sessionId);
    if k < |init| {
      assert Has(init, sessionId) by { assert init[k].sessionId == sessionId; }
      HitsOne(init, k, sessionId);
      forall j | 0 <= j < |data| && j != k
        ensures data[j].sessionId != sessionId
      {
        assert j < |init| ==> init[j] == data[j];
      }
    } else {
      forall j | 0 <= j < |data| && j != k
        ensures data[j].sessionId != sessionId
      {
        assert init[j] == data[j];
      }
    }
  }

  /** deleteSubscriber removes all elements with the session id exactly when there is at most one of them. */
  lemma DeletesAllIff(data: seq<Subscriber>, sessionId: string)
    ensures Deleted(data, sessionId) == Without(data, sessionId) <==> Hits(data, sessionId) <= 1
  {
    WithoutLength(data, sessionId);
    RangedLength(data, 0, sessionId);
    if !Has(data, sessionId) {
      WithoutNone(data, sessionId);
    } else if Hits(data, sessionId) <= 1 {
      var k :| 0 <= k < |data| && data[k].sessionId == sessionId;
      HitsOne(data, k, sessionId);
      OneHit(data, 0, k, sessionId);
      WithoutOne(data, k, sessionId);
      assert Shift(data, k)[..|data| - 1] == data[..k] + data[k + 1..];
    }
  }

  // ---------------------------------------------------------------------------------------------------------
  // The server object

  /** A Go slice: a backing array and how much of it is in use. */
  datatype Slice = Slice(items: array<Subscriber>, len: nat)

  class ChatServer {
    var subscribers: map<Bucket, Slice>
    ghost var Repr: set<array<Subscriber>>

    constructor ()
      ensures fresh(Repr) && Valid() && Registry() == map[]
    {
      subscribers, Repr := map[], {};
    }

    /** No two buckets share a backing array. */
    ghost predicate Valid()
      reads this
    {
      && (forall b :: b in subscribers ==>
            subscribers[b].items in Repr && subscribers[b].len <= subscribers[b].items.Length)
      && (forall b, c :: b in subscribers && c in subscribers && subscribers[b].items == subscribers[c].items ==>
            b == c)
    }

    /** The contents of every bucket. */
    ghost function Registry(): map<Bucket, seq<Subscriber>>
      requires Valid()
      reads this, Repr
    {
      map b | b in subscribers :: subscribers[b].items[..subscribers[b].len]
    }

    method AddSubscriber(s: Subscriber, shard: Bucket)
      requires Valid()
      modifies this, Repr
      ensures fresh(Repr - old(Repr))
      ensures Valid()
      ensures Registry() == Added(old(Registry()), s, shard)
    {
      var sub: Slice;
      if shard in subscribers {
        sub := Append(subscribers[shard], s);
      } else {
        var items := new Subscriber[1](_ => s);
        sub := Slice(items, 1);
        assert sub.items[..1] == [] + [s];
      }
      OthersAlike(old(Registry()), Registry(), shard, sub.items[..sub.len]);
      SetBucket(shard, sub);
    }

    /** Stores a slice whose array is the bucket's own or a new one. */
    method SetBucket(shard: Bucket, sub: Slice)
      requires Valid() && sub.len <= sub.items.Length
      requires forall b :: b in subscribers && b != shard ==> subscribers[b].items != sub.items
      modifies this
      ensures Repr == old(Repr) + {sub.items}
      ensures Valid()
      ensures Registry() == old(Registry())[shard := sub.items[..sub.len]]
    {
      ghost var before := Registry();
      subscribers := subscribers[shard := sub];
      Repr := Repr + {sub.items};
      assert Valid();
      hide Valid;
      assert Registry().Keys == before.Keys + {shard};
      assert forall b :: b in Registry() ==> Registry()[b] == before[shard := sub.items[..sub.len]][b];
    }

    /**
     publish. It takes the buckets in some order, and the subscribers of each one by one: `order` lists those it comes
     to. Those of a bucket that gets the event find it at the end of their queue, those of a bucket with an impossible
     count have their session ended for good. A send to a subscriber whose channels are closed already panics, and from
     that one on nobody gets anything. All others are left alone.
     */
    method Publish(shard: Bucket, message: Message) returns (panicked: bool, ghost order: seq<Subscriber>)
      requires Valid() && OncePlaced(Registry())
      modifies Members(Registry())`writeNormal, Members(Registry())`closings
      ensures Valid() && Registry() == old(Registry())
      ensures OrderOf(order, Registry(), shard, message.guild)
      ensures panicked <==> exists s :: s in order && s.closed
      ensures forall b, s :: b in Registry() && s in Registry()[b] ==>
                var verdict, told := Published(b, shard, message.guild), s in Through(order, ClosedAmong(order));
                && s.writeNormal == old(s.writeNormal) + (if told && verdict == Send then [message] else [])
                && s.closings == old(s.closings) + (if told && verdict == Invalid then [false] else [])
    {
      hide Published, OncePlaced, OrderOf, MailOf, MailIs, Flattened, Through, ClosedAmong, NoneClosed, Members;
      ghost var reg := Registry();
      ghost var before := MailOf(reg);
      MailOfIs(reg);
      ghost var bs, k;
      panicked, bs, k := PublishAll(reg, before, shard, message);
      order := Flattened(reg, bs, shard, message.guild);
      FlattenedIsOrder(reg, bs, shard, message.guild);
      FirstClosedEndsIt(order, k);
      hide Valid, Registry;
      forall b, s | b in reg && s in reg[b]
        ensures var verdict, told := Published(b, shard, message.guild), s in Through(order, ClosedAmong(order));
                && s.writeNormal == old(s.writeNormal) + (if told && verdict == Send then [message] else [])
                && s.closings == old(s.closings) + (if told && verdict == Invalid then [false] else [])
      {
        MembersOf(reg, b);
        MailAt(reg, before, order[..k], shard, message, b, s);
      }
    }

    method PublishAll(
      ghost reg: map<Bucket, seq<Subscriber>>, ghost before: map<Subscriber, Mailbox>, shard: Bucket, message: Message)
      returns (panicked: bool, ghost bs: seq<Bucket>, ghost k: nat)
      requires Valid() && reg == Registry() && OncePlaced(reg) && before == MailOf(reg)
      modifies Members(reg)`writeNormal, Members(reg)`closings
      ensures Enumerates(bs, reg.Keys)
      ensures var order := Flattened(reg, bs, shard, message.guild);
              GotTo(reg, before, order, k, shard, message) && (panicked <==> k < |order|)
    {
      NobodyTold(reg, before, shard, message);
      NothingFlattened(reg, shard, message.guild);
      hide Published, OncePlaced, GotTo, Valid, Registry, Members, Flattened, Enumerates;
      var keys := Keys(reg);
      bs := keys;
      for i := 0 to |keys|
        invariant Valid() && reg == Registry()
        invariant var order := Flattened(reg, keys[..i], shard, message.guild);
                  GotTo(reg, before, order, |order|, shard, message)
      {
        panicked, k := PublishNext(reg, keys[i], shard, message, before, keys, i);
        if panicked {
          return;
        }
      }
      assert keys[..|keys|] == keys;
      panicked, k := false, |Flattened(reg, keys, shard, message.guild)|;
    }

    /** One bucket more. */
    method PublishNext(
      ghost reg: map<Bucket, seq<Subscriber>>, b: Bucket, shard: Bucket, message: Message,
      ghost before: map<Subscriber, Mailbox>, ghost bs: seq<Bucket>, ghost i: nat)
      returns (panicked: bool, ghost k: nat)
      requires Valid() && reg == Registry() && OncePlaced(reg) && before.Keys == Members(reg)
      requires Enumerates(bs, reg.Keys) && i < |bs| && b == bs[i]
      requires var order := Flattened(reg, bs[..i], shard, message.guild);
               GotTo(reg, before, order, |order|, shard, message)
      modifies Members(reg)`writeNormal, Members(reg)`closings
      ensures Valid() && Registry() == reg
      ensures !panicked ==>
                var order := Flattened(reg, bs[..i + 1], shard, message.guild);
                GotTo(reg, before, order, |order|, shard, message)
      ensures panicked ==>
                var order := Flattened(reg, bs, shard, message.guild);
                k < |order| && GotTo(reg, before, order, k, shard, message)
    {
      hide Published, OncePlaced, MailIs, Valid, Registry, Members, Flattened;
      ghost var done, next := Flattened(reg, bs[..i], shard, message.guild),
                              Flattened(reg, bs[..i + 1], shard, message.guild);
      assert done[..|done|] == done;
      OneMoreBucket(reg, bs, i, shard, message.guild);
      ghost var n;
      panicked, n := PublishTo(reg, b, shard, message, before, done);
      k := |done| + n;
      assert next[..k] == done + reg[b][..n];
      if panicked {
        assert Flattened(reg, bs, shard, message.guild)[..k] == next[..k];
      } else {
        assert next[..k] == next;
      }
    }

    /** The buckets in some order. */
    method Keys(ghost reg: map<Bucket, seq<Subscriber>>) returns (keys: seq<Bucket>)
      requires Valid() && reg == Registry()
      ensures Enumerates(keys, reg.Keys)
    {
      var rest := subscribers.Keys;
      keys := [];
      while rest != {}
        invariant forall b :: b in keys ==> b in subscribers && b !in rest
        invariant forall b :: b in subscribers ==> b in keys || b in rest
        invariant rest <= subscribers.Keys
        invariant forall i, j :: 0 <= i < j < |keys| ==> keys[i] != keys[j]
        decreases rest
      {
        var b :| b in rest;
        keys := keys + [b];
        rest := rest - {b};
      }
    }

    /** The loop over one bucket; it ends at the first of the bucket's subscribers that is closed. */
    method PublishTo(
      ghost reg: map<Bucket, seq<Subscriber>>, b: Bucket, shard: Bucket, message: Message,
      ghost before: map<Subscriber, Mailbox>, ghost done: seq<Subscriber>)
      returns (panicked: bool, ghost n: nat)
      requires Valid() && reg == Registry() && OncePlaced(reg) && b in reg && before.Keys == Members(reg)
      requires MailIs(reg, before, done, shard, message) && forall s :: s in reg[b] ==> s !in done
      requires NoneClosed(done)
      modifies Members(reg)`writeNormal, Members(reg)`closings
      ensures n <= |reg[b]| && (Published(b, shard, message.guild) == Skip ==> n == 0 && !panicked)
      ensures Published(b, shard, message.guild) != Skip ==> (panicked <==> n < |reg[b]|)
      ensures NoneClosed(done + reg[b][..n])
      ensures panicked ==> reg[b][n].closed
      ensures MailIs(reg, before, done + reg[b][..n], shard, message)
    {
      hide Published, OncePlaced, Members, MailIs;
      var subs, verdict := subscribers[b].items[..subscribers[b].len], Published(b, shard, message.guild);
      n := 0;
      assert done + reg[b][..0] == done;
      if verdict == Skip {
        return false, 0;
      }
      BucketIsDistinct(reg, b);
      MembersOf(reg, b);
      for i := 0 to |subs|
        invariant MailIs(reg, before, done + reg[b][..i], shard, message)
        invariant forall j :: 0 <= j < i ==> !reg[b][j].closed
      {
        if subs[i].closed {
          return true, i;
        }
        assert reg[b][..i + 1] == reg[b][..i] + [subs[i]];
        assert done + reg[b][..i + 1] == done + reg[b][..i] + [subs[i]];
        TellOne(reg, b, subs[i], shard, message, before, done + reg[b][..i]);
      }
      panicked, n := false, |subs|;
    }

    /** One send, or one ended session. */
    method TellOne(
      ghost reg: map<Bucket, seq<Subscriber>>, b: Bucket, s: Subscriber, shard: Bucket, message: Message,
      ghost before: map<Subscriber, Mailbox>, ghost done: seq<Subscriber>)
      requires OncePlaced(reg) && b in reg && s in reg[b] && s !in done && before.Keys == Members(reg)
      requires Published(b, shard, message.guild) != Skip
      requires MailIs(reg, before, done, shard, message)
      modifies s`writeNormal, s`closings
      ensures MailIs(reg, before, done + [s], shard, message)
    {
      if Published(b, shard, message.guild) == Send {
        s.Enqueue(message);
      } else {
        s.Invalidate(false);
      }
      OnePlaceOnly(reg, b, s);
    }

    method DeleteSubscriber(s: Subscriber)
      requires Valid()
      modifies this, Repr, Members(Registry())`cancelled
      ensures Repr == old(Repr)
      ensures Valid()
      ensures Registry() == Removed(old(Registry()), s)
      ensures s.shard in old(Registry()) ==> HitsCancelled(old(Registry())[s.shard], s.sessionId)
      ensures forall x :: x in old(Members(Registry())) && x.sessionId != s.sessionId ==>
                x.cancelled == old(x.cancelled)
    {
      if s.shard in subscribers {
        hide Deleted, HitsCancelled;
        var sub := CutFrom(s);
        SetBucket(s.shard, sub);
      }
    }

    /** Runs the loop over the subscriber's bucket; the map still holds the old slice header. */
    method CutFrom(s: Subscriber) returns (sub: Slice)
      requires Valid() && s.shard in subscribers
      modifies Repr, Members(Registry())`cancelled
      ensures Valid() && sub.items == subscribers[s.shard].items && sub.len <= sub.items.Length
      ensures Registry()[s.shard := sub.items[..sub.len]] == Removed(old(Registry()), s)
      ensures HitsCancelled(old(Registry())[s.shard], s.sessionId)
      ensures forall x :: x in old(Members(Registry())) && x.sessionId != s.sessionId ==>
                x.cancelled == old(x.cancelled)
    {
      hide Deleted, HitsCancelled, Has;
      MembersOf(Registry(), s.shard);
      sub := CutOut(subscribers[s.shard], s.sessionId);
      OthersAlike(old(Registry()), Registry(), s.shard, sub.items[..sub.len]);
    }
  }

  // ---------------------------------------------------------------------------------------------------------
  // Publishing

  /** The part of the order publish gets through: the first closed subscriber makes it panic. */
  function Through(order: seq<Subscriber>, closed: set<Subscriber>): seq<Subscriber> {
    if order == [] || order[0] in closed then [] else [order[0]] + Through(order[1..], closed)
  }

  /** It is everything before the first closed one. */
  lemma {:induction false} ThroughAt(order: seq<Subscriber>, closed: set<Subscriber>, k: nat)
    requires k <= |order| && (forall j :: 0 <= j < k ==> order[j] !in closed) && (k < |order| ==> order[k] in closed)
    ensures Through(order, closed) == order[..k]
  {
    if k > 0 {
      ThroughAt(order[1..], closed, k - 1);
      assert order[..k] == [order[0]] + order[1..][..k - 1];
    }
  }

  lemma {:induction false} ThroughIs(order: seq<Subscriber>, closed: set<Subscriber>)
    ensures forall s :: s in Through(order, closed) ==> s in order && s !in closed
    ensures Through(order, closed) == order <==> forall s :: s in order ==> s !in closed
  {
    if order != [] && order[0] !in closed {
      ThroughIs(order[1..], closed);
      assert order == [order[0]] + order[1..];
    }
  }

  ghost function ClosedAmong(order: seq<Subscriber>): set<Subscriber>
    reads order`closed
  {
    set s | s in order && s.closed
  }

  lemma FirstClosedEndsIt(order: seq<Subscriber>, k: nat)
    requires k <= |order| && NoneClosed(order[..k]) && (k < |order| ==> order[k].closed)
    ensures Through(order, ClosedAmong(order)) == order[..k]
    ensures k < |order| <==> exists s :: s in order && s.closed
  {
    forall j | 0 <= j < k
      ensures !order[j].closed
    {
      assert order[..k][j] == order[j];
    }
    ThroughAt(order, ClosedAmong(order), k);
  }

  ghost predicate NoneClosed(order: seq<Subscriber>)
    reads order`closed
  {
    forall j :: 0 <= j < |order| ==> !order[j].closed
  }

  ghost predicate NoRepeats<T>(xs: seq<T>) {
    forall i, j :: 0 <= i < j < |xs| ==> xs[i] != xs[j]
  }

  /** `order` lists the registered subscribers of all buckets that publish does not skip, each once. */
  ghost predicate OrderOf(
    order: seq<Subscriber>, reg: map<Bucket, seq<Subscriber>>, shard: Bucket, guild: Option<GuildID>)
  {
    && NoRepeats(order)
    && (forall s :: s in order ==> exists b :: b in reg && s in reg[b] && Published(b, shard, guild) != Skip)
    && forall b, s :: b in reg && s in reg[b] && Published(b, shard, guild) != Skip ==> s in order
  }

  /** The subscribers publish comes to when it takes the buckets in the order `bs`. */
  function Flattened(
    reg: map<Bucket, seq<Subscriber>>, bs: seq<Bucket>, shard: Bucket, guild: Option<GuildID>): seq<Subscriber>
  {
    if bs == [] then []
    else
      var last := bs[|bs| - 1];
      Flattened(reg, bs[..|bs| - 1], shard, guild)
        + (if last in reg && Published(last, shard, guild) != Skip then reg[last] else [])
  }

  lemma NothingFlattened(reg: map<Bucket, seq<Subscriber>>, shard: Bucket, guild: Option<GuildID>)
    ensures Flattened(reg, [], shard, guild) == []
  {
  }

  lemma {:induction false} InFlattened(
    reg: map<Bucket, seq<Subscriber>>, bs: seq<Bucket>, shard: Bucket, guild: Option<GuildID>, s: Subscriber)
    ensures s in Flattened(reg, bs, shard, guild)
       <==> exists b :: b in bs && b in reg && s in reg[b] && Published(b, shard, guild) != Skip
  {
    if bs != [] {
      hide Published;
      InFlattened(reg, bs[..|bs| - 1], shard, guild, s);
      assert bs == bs[..|bs| - 1] + [bs[|bs| - 1]];
    }
  }

  lemma {:induction false} FlattenedPrefix(
    reg: map<Bucket, seq<Subscriber>>, bs: seq<Bucket>, i: nat, shard: Bucket, guild: Option<GuildID>)
    requires i <= |bs|
    ensures Flattened(reg, bs[..i], shard, guild) <= Flattened(reg, bs, shard, guild)
    decreases |bs|
  {
    if i == |bs| {
      assert bs[..i] == bs;
    } else {
      hide Published;
      assert bs[..|bs| - 1][..i] == bs[..i];
      FlattenedPrefix(reg, bs[..|bs| - 1], i, shard, guild);
    }
  }

  lemma OneMoreBucket(
    reg: map<Bucket, seq<Subscriber>>, bs: seq<Bucket>, i: nat, shard: Bucket, guild: Option<GuildID>)
    requires Enumerates(bs, reg.Keys) && i < |bs| && OncePlaced(reg)
    ensures var done := Flattened(reg, bs[..i], shard, guild);
            && Flattened(reg, bs[..i + 1], shard, guild)
               == done + (if Published(bs[i], shard, guild) != Skip then reg[bs[i]] else [])
            && Flattened(reg, bs[..i + 1], shard, guild) <= Flattened(reg, bs, shard, guild)
            && forall s :: s in reg[bs[i]] ==> s !in done
  {
    FlattenedNext(reg, bs, i, shard, guild);
    FlattenedPrefix(reg, bs, i + 1, shard, guild);
    hide Published, OncePlaced, Flattened;
    forall s | s in reg[bs[i]]
      ensures s !in Flattened(reg, bs[..i], shard, guild)
    {
      NotYetFlattened(reg, bs, i, shard, guild, s);
    }
  }

  lemma FlattenedNext(
    reg: map<Bucket, seq<Subscriber>>, bs: seq<Bucket>, i: nat, shard: Bucket, guild: Option<GuildID>)
    requires i < |bs| && bs[i] in reg
    ensures Flattened(reg, bs[..i + 1], shard, guild)
         == Flattened(reg, bs[..i], shard, guild)
            + (if Published(bs[i], shard, guild) != Skip then reg[bs[i]] else [])
  {
    hide Published;
    assert bs[..i + 1][..i] == bs[..i];
  }

  lemma NotYetFlattened(
    reg: map<Bucket, seq<Subscriber>>, bs: seq<Bucket>, i: nat, shard: Bucket, guild: Option<GuildID>, s: Subscriber)
    requires Enumerates(bs, reg.Keys) && i < |bs| && OncePlaced(reg) && s in reg[bs[i]]
    ensures s !in Flattened(reg, bs[..i], shard, guild)
  {
    OnePlaceOnly(reg, bs[i], s);
    hide Published, OncePlaced, Flattened;
    InFlattened(reg, bs[..i], shard, guild, s);
    assert bs[i] !in bs[..i];
  }

  lemma {:induction false} FlattenedIsDistinct(
    reg: map<Bucket, seq<Subscriber>>, bs: seq<Bucket>, i: nat, shard: Bucket, guild: Option<GuildID>)
    requires Enumerates(bs, reg.Keys) && OncePlaced(reg) && i <= |bs|
    ensures NoRepeats(Flattened(reg, bs[..i], shard, guild))
  {
    if i == 0 {
      NothingFlattened(reg, shard, guild);
      assert bs[..0] == [];
    } else {
      hide Published, OncePlaced, NoRepeats, Flattened, Enumerates;
      var k := i - 1;
      FlattenedIsDistinct(reg, bs, k, shard, guild);
      OneMoreBucketIsDistinct(reg, bs, k, shard, guild);
    }
  }

  lemma OneMoreBucketIsDistinct(
    reg: map<Bucket, seq<Subscriber>>, bs: seq<Bucket>, k: nat, shard: Bucket, guild: Option<GuildID>)
    requires Enumerates(bs, reg.Keys) && OncePlaced(reg) && k < |bs|
    requires NoRepeats(Flattened(reg, bs[..k], shard, guild))
    ensures NoRepeats(Flattened(reg, bs[..k + 1], shard, guild))
  {
    OneMoreBucket(reg, bs, k, shard, guild);
    BucketIsDistinct(reg, bs[k]);
    hide Published, OncePlaced, NoRepeats, Flattened, Enumerates;
    var done := Flattened(reg, bs[..k], shard, guild);
    DistinctConcat(done, reg[bs[k]]);
    assert done + [] == done;
  }

  lemma DistinctConcat<T>(xs: seq<T>, ys: seq<T>)
    requires NoRepeats(xs) && NoRepeats(ys) && forall y :: y in ys ==> y !in xs
    ensures NoRepeats(xs + ys)
  {
    forall i, j | 0 <= i < j < |xs + ys|
      ensures (xs + ys)[i] != (xs + ys)[j]
    {
      assert j >= |xs| ==> ys[j - |xs|] in ys;
    }
  }

  lemma FlattenedIsOrder(
    reg: map<Bucket, seq<Subscriber>>, bs: seq<Bucket>, shard: Bucket, guild: Option<GuildID>)
    requires Enumerates(bs, reg.Keys) && OncePlaced(reg)
    ensures OrderOf(Flattened(reg, bs, shard, guild), reg, shard, guild)
  {
    hide Published, OncePlaced, Flattened;
    assert bs[..|bs|] == bs;
    FlattenedIsDistinct(reg, bs, |bs|, shard, guild);
    forall s | s in Flattened(reg, bs, shard, guild)
      ensures exists b :: b in reg && s in reg[b] && Published(b, shard, guild) != Skip
    {
      InFlattened(reg, bs, shard, guild, s);
    }
    forall b, s | b in reg && s in reg[b] && Published(b, shard, guild) != Skip
      ensures s in Flattened(reg, bs, shard, guild)
    {
      InFlattened(reg, bs, shard, guild, s);
    }
  }

  /** A mailbox after publish has dealt with its owner. */
  function Told(mail: Mailbox, verdict: Verdict, message: Message): Mailbox {
    match verdict
    case Skip => mail
    case Send => mail.(queue := mail.queue + [message])
    case Invalid => mail.(closings := mail.closings + [false])
  }

  ghost function MailOf(reg: map<Bucket, seq<Subscriber>>): map<Subscriber, Mailbox>
    reads Members(reg)`writeNormal, Members(reg)`closings
  {
    map s | s in Members(reg) :: s.Mail()
  }

  /** The mailboxes after publish has dealt with the subscribers `done`. */
  ghost predicate MailIs(
    reg: map<Bucket, seq<Subscriber>>, before: map<Subscriber, Mailbox>, done: seq<Subscriber>, shard: Bucket,
    message: Message)
    requires before.Keys == Members(reg)
    reads Members(reg)`writeNormal, Members(reg)`closings
  {
    forall b, s :: b in reg && s in reg[b] ==>
      && s in Members(reg)
      && s.Mail() == Told(before[s], if s in done then Published(b, shard, message.guild) else Skip, message)
  }

  lemma MailOfIs(reg: map<Bucket, seq<Subscriber>>)
    ensures MailOf(reg).Keys == Members(reg)
    ensures forall s :: s in Members(reg) ==> MailOf(reg)[s] == Mailbox(s.writeNormal, s.closings)
  {
  }

  lemma MailAt(
    reg: map<Bucket, seq<Subscriber>>, before: map<Subscriber, Mailbox>, done: seq<Subscriber>, shard: Bucket,
    message: Message, b: Bucket, s: Subscriber)
    requires before.Keys == Members(reg) && b in reg && s in reg[b] && s in Members(reg)
    requires MailIs(reg, before, done, shard, message)
    ensures var verdict, told := Published(b, shard, message.guild), s in done;
            && s.writeNormal == before[s].queue + (if told && verdict == Send then [message] else [])
            && s.closings == before[s].closings + (if told && verdict == Invalid then [false] else [])
  {
    hide Published;
    assert s.Mail() == Told(before[s], if s in done then Published(b, shard, message.guild) else Skip, message);
  }

  /** Publish has dealt with the first `k` of the order, and stands before a closed one or at the end. */
  ghost predicate GotTo(
    reg: map<Bucket, seq<Subscriber>>, before: map<Subscriber, Mailbox>, order: seq<Subscriber>, k: int,
    shard: Bucket, message: Message)
    requires before.Keys == Members(reg)
    reads Members(reg)`writeNormal, Members(reg)`closings, order`closed
  {
    && 0 <= k <= |order| && NoneClosed(order[..k]) && (k < |order| ==> order[k].closed)
    && MailIs(reg, before, order[..k], shard, message)
  }

  lemma NobodyTold(
    reg: map<Bucket, seq<Subscriber>>, before: map<Subscriber, Mailbox>, shard: Bucket, message: Message)
    requires before == MailOf(reg)
    ensures GotTo(reg, before, [], 0, shard, message)
  {
    hide Published;
  }

  /** Some subscriber with the session id is cancelled: the one hit, where session ids are distinct. */
  ghost predicate HitsCancelled(data: seq<Subscriber>, sessionId: string)
    reads data
  {
    Has(data, sessionId) ==> exists i :: 0 <= i < |data| && data[i].sessionId == sessionId && data[i].cancelled
  }

  /** Every registered subscriber has one place in the registry. */
  ghost predicate OncePlaced(reg: map<Bucket, seq<Subscriber>>) {
    forall b, c, i, j :: b in reg && c in reg && 0 <= i < |reg[b]| && 0 <= j < |reg[c]| && reg[b][i] == reg[c][j] ==>
      b == c && i == j
  }

  ghost function Members(reg: map<Bucket, seq<Subscriber>>): set<Subscriber> {
    set b, s | b in reg && s in reg[b] :: s
  }

  lemma MembersOf(reg: map<Bucket, seq<Subscriber>>, b: Bucket)
    requires b in reg
    ensures forall s :: s in reg[b] ==> s in Members(reg)
  {
  }

  lemma OnePlaceOnly(reg: map<Bucket, seq<Subscriber>>, b: Bucket, s: Subscriber)
    requires OncePlaced(reg) && b in reg && s in reg[b]
    ensures forall c :: c in reg && s in reg[c] ==> c == b
  {
  }

  lemma BucketIsDistinct(reg: map<Bucket, seq<Subscriber>>, b: Bucket)
    requires OncePlaced(reg) && b in reg
    ensures NoRepeats(reg[b])
  {
  }

  lemma OthersAlike<K, V>(m: map<K, V>, n: map<K, V>, k: K, v: V)
    requires m.Keys == n.Keys && forall o :: o in m && o != k ==> m[o] == n[o]
    ensures m[k := v] == n[k := v]
  {
  }

  /** append: in place while the backing array has room, into a larger copy otherwise. */
  method Append(sub: Slice, s: Subscriber) returns (r: Slice)
    requires sub.len <= sub.items.Length
    modifies sub.items
    ensures r.items == sub.items || fresh(r.items)
    ensures r.len <= r.items.Length && r.items[..r.len] == old(sub.items[..sub.len]) + [s]
  {
    if sub.len < sub.items.Length {
      sub.items[sub.len] := s;
      return Slice(sub.items, sub.len + 1);
    }
    var items := new Subscriber[2 * sub.len + 1](_ => s);
    forall i | 0 <= i < sub.len {
      items[i] := sub.items[i];
    }
    r := Slice(items, sub.len + 1);
  }

  /** The loop of deleteSubscriber: it ranges over the original slice while every hit moves the rest down in it. */
  method CutOut(sub: Slice, sessionId: string) returns (r: Slice)
    requires sub.len <= sub.items.Length
    modifies sub.items, sub.items[..sub.len]`cancelled
    ensures r.items == sub.items && r.len <= sub.items.Length
    ensures r.items[..r.len] == Deleted(old(sub.items[..sub.len]), sessionId)
    ensures HitsCancelled(old(sub.items[..sub.len]), sessionId)
    ensures forall s :: s in old(sub.items[..sub.len]) && s.sessionId != sessionId ==> s.cancelled == old(s.cancelled)
  {
    hide Has, HitsCancelled, Shift;
    var a, n := sub.items, sub.len;
    ghost var before := a[..n];
    RangedLength(before, 0, sessionId);
    NothingHit(before, sessionId);
    r := sub;
    ghost var first := -1;
    for i := 0 to n
      invariant Ranged(a[..n], i, sessionId) == Ranged(before, 0, sessionId)
      invariant -1 <= first < i && (first == -1 <==> !Has(before[..i], sessionId))
      invariant r.items == a && r.len == (if first == -1 then n else n - 1)
      invariant first == -1 ==> a[..n] == before
      invariant first >= 0 ==> before[first].sessionId == sessionId && before[first].cancelled
      invariant forall s :: s in a[..n] ==> s in before
      invariant forall s :: s in before && s.sessionId != sessionId ==> s.cancelled == old(s.cancelled)
    {
      assert before[..i + 1] == before[..i] + [before[i]];
      HasOneMore(before, i, sessionId);
      var s := a[i];
      assert s == a[..n][i] && s in before;
      if s.sessionId == sessionId {
        s.Cancel();
        ShiftKeeps(a[..n], i);
        MoveDown(a, i, n);
        r := Slice(a, n - 1);
        first := if first == -1 then i else first;
      }
    }
    assert before[..n] == before;
    RangedLength(a[..n], n, sessionId);
    if first >= 0 {
      OneIsCancelled(before, first, sessionId);
    } else {
      NoneIsHit(before, sessionId);
    }
  }

  lemma NothingHit(data: seq<Subscriber>, sessionId: string)
    ensures !Has(data[..0], sessionId)
  {
  }

  lemma ShiftKeeps(data: seq<Subscriber>, i: nat)
    requires i < |data|
    ensures forall s :: s in Shift(data, i) ==> s in data
  {
  }

  lemma OneIsCancelled(data: seq<Subscriber>, i: nat, sessionId: string)
    requires i < |data| && data[i].sessionId == sessionId && data[i].cancelled
    ensures HitsCancelled(data, sessionId)
  {
  }

  lemma NoneIsHit(data: seq<Subscriber>, sessionId: string)
    requires !Has(data, sessionId)
    ensures HitsCancelled(data, sessionId)
  {
  }

  /** The copy append makes of the rest of the slice, within the same array. */
  method MoveDown(a: array<Subscriber>, i: nat, n: nat)
    requires i < n <= a.Length
    modifies a
    ensures a[..n] == Shift(old(a[..n]), i)
  {
    forall j | i <= j < n - 1 {
      a[j] := a[j + 1];
    }
  }

  lemma HasOneMore(data: seq<Subscriber>, i: nat, sessionId: string)
    requires i < |data|
    ensures Has(data[..i + 1], sessionId) <==> Has(data[..i], sessionId) || data[i].sessionId == sessionId
  {
  }

  function Added(reg: map<Bucket, seq<Subscriber>>, s: Subscriber, shard: Bucket): map<Bucket, seq<Subscriber>> {
    reg[shard := (if shard in reg then reg[shard] else []) + [s]]
  }

  function Removed(reg: map<Bucket, seq<Subscriber>>, s: Subscriber): map<Bucket, seq<Subscriber>> {
    if s.shard in reg then reg[s.shard := Deleted(reg[s.shard], s.sessionId)] else reg
  }
}
