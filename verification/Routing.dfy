/** Virtual shards: which consumer bucket an event goes to, and which real shard a consumer's request goes to. */
module Routing {
  import opened Wrappers
  import opened Discord

  /** A consumer's shard id and shard count. */
  type Bucket = (int, int)

  datatype VirtualShards = VirtualShards(enabled: bool, count: int, dmShard: int)

  /** The shard counts a manager runs with: the real one, and the configured virtual one. */
  datatype Config = Config(noShards: int, virtual: VirtualShards)

  /** What a handler says about an event: the guild it belongs to, or that everybody gets it. */
  datatype Identifier = Identifier(guild: Option<GuildID>, globallyRouted: bool)

  // ---------------------------------------------------------------------------------------------------------
  // Shard ids

  /** Go's remainder: it takes the sign of the dividend. */
  function TruncatedMod(a: int, n: int): int
    requires n > 0
  {
    if a >= 0 then a % n else -((-a) % n)
  }

  /** The id shifted right by 22 bits, rounding down also for negative ids. */
  function Shifted(id: GuildID): int {
    id / 0x40_0000
  }

  /** GetShardIdOfGuild: with no shards at all everything is shard 0. */
  function ShardOf(id: GuildID, count: int): int {
    if count <= 0 then 0 else TruncatedMod(Shifted(id), count)
  }

  /**
   The shard is the remainder of the id's upper bits: the id is a multiple of the count plus the shard, followed by 22
   other bits; the shard is smaller than the count and has the sign of the id.
   */
  lemma ShardOfIs(id: GuildID, count: int) returns (k: int, low: int)
    ensures count <= 0 ==> ShardOf(id, count) == 0
    ensures count > 0 ==>
              && id == (count * k + ShardOf(id, count)) * 0x40_0000 + low && 0 <= low < 0x40_0000
              && -count < ShardOf(id, count) < count
              && (ShardOf(id, count) > 0 ==> id > 0) && (ShardOf(id, count) < 0 ==> id < 0)
  {
    k, low := 0, id % 0x40_0000;
    if count > 0 {
      k := Quotient(Shifted(id), count);
      var upper := count * k + ShardOf(id, count);
      assert upper == Shifted(id);
      hide TruncatedMod, ShardOf;
    }
  }

  lemma Quotient(q: int, n: int) returns (k: int)
    requires n > 0
    ensures q == n * k + TruncatedMod(q, n) && -n < TruncatedMod(q, n) < n
    ensures (TruncatedMod(q, n) > 0 ==> q > 0) && (TruncatedMod(q, n) < 0 ==> q < 0)
  {
    QuotientAndRemainder(if q >= 0 then q else -q, n);
    if q >= 0 {
      k := q / n;
    } else {
      var m := (-q) / n;
      k := -m;
      assert n * k == -(n * m);
    }
  }

  lemma QuotientAndRemainder(q: int, n: int)
    requires n > 0
    ensures q == n * (q / n) + q % n && 0 <= q % n < n
  {
  }

  /** A guild has exactly one shard among 0..count-1, unless its id is negative and not a multiple of the count. */
  lemma OwnedByOneShardIff(id: GuildID, count: int)
    requires count > 0
    ensures 0 <= ShardOf(id, count) < count <==> id >= 0 || Shifted(id) % count == 0
    ensures -count < ShardOf(id, count) < count
  {
    var q := Shifted(id);
    if q < 0 {
      NegatedRemainder(q, count);
    }
  }

  lemma NegatedRemainder(q: int, n: int)
    requires n > 0
    ensures (-q) % n == 0 <==> q % n == 0
  {
    var a, b := q / n, (-q) / n;
    assert q == n * a + q % n && -q == n * b + (-q) % n;
    if q % n == 0 {
      MultipleHasNoRemainder(-a, n, -q);
    }
    if (-q) % n == 0 {
      MultipleHasNoRemainder(-b, n, q);
    }
  }

  lemma MultipleBounds(n: int, k: int)
    requires n > 0
    ensures k >= 1 ==> n * k >= n
    ensures k <= -1 ==> n * k <= -n
  {
  }

  lemma MultipleHasNoRemainder(k: int, n: int, m: int)
    requires n > 0 && m == n * k
    ensures m % n == 0
  {
    assert m == n * (m / n) + m % n;
    assert m % n == n * (k - m / n);
    MultipleBounds(n, k - m / n);
  }

  /** getShardIDFromGuildID: the shifted id read as an unsigned 64-bit number. */
  function UnsignedShardOf(id: GuildID, count: int): int
    requires count > 0
  {
    (if Shifted(id) >= 0 then Shifted(id) else Shifted(id) + 0x1_0000_0000_0000_0000) % count
  }

  /** The two shard computations of the source agree on an id exactly under this condition. */
  lemma ComputationsAgreeIff(id: GuildID, count: int)
    requires count > 0 && -0x8000_0000_0000_0000 <= id < 0x8000_0000_0000_0000
    ensures UnsignedShardOf(id, count) == ShardOf(id, count)
       <==> id >= 0 || (Shifted(id) % count == 0 && 0x1_0000_0000_0000_0000 % count == 0)
  {
    var q, wrap := Shifted(id), 0x1_0000_0000_0000_0000;
    if q < 0 {
      NegatedRemainder(q, count);
      if q % count == 0 {
        RemainderOfSum(q, wrap, count);
      }
    }
  }

  lemma RemainderOfSum(a: int, b: int, n: int)
    requires n > 0 && a % n == 0
    ensures (a + b) % n == b % n
  {
    var k := (a + b) / n - a / n - b / n;
    assert a == n * (a / n) && b == n * (b / n) + b % n && a + b == n * ((a + b) / n) + (a + b) % n;
    assert b % n - (a + b) % n == n * k;
    MultipleBounds(n, k);
  }

  // ---------------------------------------------------------------------------------------------------------
  // From a real shard to a bucket

  function ConsumerShardCount(c: Config): int {
    if c.virtual.enabled then c.virtual.count else c.noShards
  }

  /** The shard triple an event is published under: shard group, shard, shard count. */
  function Routed(c: Config, shard: (int, int, int), identifier: Identifier): (int, int, int) {
    if !c.virtual.enabled then shard
    else if identifier.globallyRouted then (0, 0, 0)
    else if identifier.guild.Some? && identifier.guild.value != 0 then
      (0, ShardOf(identifier.guild.value, c.virtual.count), c.virtual.count)
    else (0, c.virtual.dmShard, c.virtual.count)
  }

  class SandwichMetadata {
    var shard: (int, int, int)

    constructor (shard: (int, int, int))
      ensures this.shard == shard
    {
      this.shard := shard;
    }
  }

  datatype Packet = Packet(metadata: SandwichMetadata, identifier: Option<Identifier>, content: string)

  /** Rewrites the metadata the packet points to, which all packets of the shard share. */
  method RoutePayloadToConsumer(c: Config, packet: Packet) returns (ok: bool)
    modifies packet.metadata
    ensures ok == (c.virtual.enabled ==> packet.identifier.Some?)
    ensures packet.metadata.shard == if packet.identifier.None? then old(packet.metadata.shard)
                                     else Routed(c, old(packet.metadata.shard), packet.identifier.value)
  {
    if !c.virtual.enabled {
      return true;
    }
    if packet.identifier == None {
      return false;
    }
    var identifier := packet.identifier.value;
    if identifier.globallyRouted {
      packet.metadata.shard := (0, 0, 0);
    } else if identifier.guild != None && identifier.guild.value != 0 {
      packet.metadata.shard := (0, ShardOf(identifier.guild.value, c.virtual.count), c.virtual.count);
    } else {
      packet.metadata.shard := (0, c.virtual.dmShard, c.virtual.count);
    }
    ok := true;
  }

  /** The metadata of a shard after routing packets one after the other. */
  function RoutedAll(c: Config, shard: (int, int, int), identifiers: seq<Identifier>): (int, int, int) {
    if identifiers == [] then shard
    else Routed(c, RoutedAll(c, shard, identifiers[..|identifiers| - 1]), identifiers[|identifiers| - 1])
  }

  /** Routes a packet, queues it, and routes any number of further packets of the same shard before it is written. */
  method RouteThenOthers(c: Config, metadata: SandwichMetadata, first: Identifier, later: seq<Identifier>)
    returns (queued: Packet)
    modifies metadata
    ensures queued.identifier == Some(first) && queued.metadata == metadata
    ensures queued.metadata.shard == RoutedAll(c, old(metadata.shard), [first] + later)
  {
    queued := Packet(metadata, Some(first), "");
    var _ := RoutePayloadToConsumer(c, queued);
    assert [first][..0] == [] && RoutedAll(c, old(metadata.shard), [first]) == metadata.shard;
    for i := 0 to |later|
      invariant metadata.shard == RoutedAll(c, old(metadata.shard), [first] + later[..i])
    {
      var so, next := [first] + later[..i], [first] + later[..i + 1];
      assert next[..|next| - 1] == so && next[|next| - 1] == later[i];
      var _ := RoutePayloadToConsumer(c, Packet(metadata, Some(later[i]), ""));
    }
    assert later[..|later|] == later;
  }

  datatype Verdict = Skip | Send | Invalid

  /** publish, for one bucket of subscribers and an event of the given shard. */
  function Published(bucket: Bucket, shard: Bucket, guild: Option<GuildID>): Verdict {
    if bucket.1 != shard.1 && guild.Some? then
      if bucket.1 <= 0 then Invalid
      else if ShardOf(guild.value, bucket.1) != shard.0 then Skip
      else Send
    else if bucket.0 != shard.0 then Skip
    else Send
  }

  /** The bucket an event of a real shard is published to. */
  function Target(c: Config, shard: (int, int, int), identifier: Identifier): Bucket {
    (Routed(c, shard, identifier).1, Routed(c, shard, identifier).2)
  }

  lemma {:induction false} UnmappedStays(c: Config, shard: (int, int, int), identifiers: seq<Identifier>)
    requires !c.virtual.enabled
    ensures RoutedAll(c, shard, identifiers) == shard
  {
    if identifiers != [] {
      UnmappedStays(c, shard, identifiers[..|identifiers| - 1]);
    }
  }

  /**
   A queued packet is written with the shard of the last packet routed before the write, so with its own exactly when
   virtual shards are off, nothing was routed since, or the last one goes to the same bucket.
   */
  lemma QueuedPacketIsRightIff(c: Config, shard: (int, int, int), first: Identifier, later: seq<Identifier>)
    ensures var written, own := RoutedAll(c, shard, [first] + later), Routed(c, shard, first);
            && (c.virtual.enabled && later != [] ==> written == Routed(c, shard, later[|later| - 1]))
            && (written == own
                <==> !c.virtual.enabled || later == []
                     || Target(c, shard, later[|later| - 1]) == Target(c, shard, first))
  {
    var all := [first] + later;
    if !c.virtual.enabled {
      UnmappedStays(c, shard, all);
    } else if later == [] {
      assert all[..0] == [] && all == [first];
    } else {
      assert all[|all| - 1] == later[|later| - 1];
    }
  }

  /** Two guilds of different virtual shards: the event of the first is written with the shard of the second. */
  lemma QueuedPacketIsWrong(shard: (int, int, int))
    ensures var c := Config(1, VirtualShards(true, 4, 0));
            var first, second := GuildEvent(0x40_0000), GuildEvent(2 * 0x40_0000);
            && Routed(c, shard, first) == (0, 1, 4)
            && RoutedAll(c, shard, [first] + [second]) == (0, 2, 4)
  {
    var c := Config(1, VirtualShards(true, 4, 0));
    QueuedPacketIsRightIff(c, shard, GuildEvent(0x40_0000), [GuildEvent(2 * 0x40_0000)]);
  }

  /** A bucket owns a guild when it is the guild's shard under the bucket's own count. */
  predicate Owns(bucket: Bucket, g: GuildID) {
    bucket.1 > 0 && bucket.0 == ShardOf(g, bucket.1)
  }

  function GuildEvent(g: GuildID): Identifier {
    Identifier(Some(g), false)
  }

  /**
   With virtual shards, a guild's event is sent to a bucket of the virtual count exactly when the bucket owns the
   guild; to a bucket of any other count whenever the two shard ids happen to agree, whichever bucket it is, because
   the remapped id is compared with the event's shard and not with the bucket's.
   */
  lemma GuildEventReaches(c: Config, shard: (int, int, int), g: GuildID, bucket: Bucket)
    requires c.virtual.enabled && c.virtual.count > 0 && g != 0
    ensures Published(bucket, Target(c, shard, GuildEvent(g)), Some(g)) == Send
       <==> if bucket.1 == c.virtual.count then Owns(bucket, g)
            else bucket.1 > 0 && ShardOf(g, bucket.1) == ShardOf(g, c.virtual.count)
  {
  }

  /** When all consumers use the virtual count, a guild's event is sent to the one bucket that owns the guild. */
  lemma OneBucketGetsGuildEvent(c: Config, shard: (int, int, int), g: GuildID, buckets: set<Bucket>)
    requires c.virtual.enabled && c.virtual.count > 0 && g > 0
    requires forall b :: b in buckets ==> b.1 == c.virtual.count
    ensures var owner := (ShardOf(g, c.virtual.count), c.virtual.count);
            && 0 <= owner.0 < c.virtual.count
            && (set b | b in buckets && Published(b, Target(c, shard, GuildEvent(g)), Some(g)) == Send)
               == buckets * {owner}
  {
    var owner := (ShardOf(g, c.virtual.count), c.virtual.count);
    OwnedByOneShardIff(g, c.virtual.count);
    forall b | b in buckets
      ensures Published(b, Target(c, shard, GuildEvent(g)), Some(g)) == Send <==> b == owner
    {
      GuildEventReaches(c, shard, g, b);
    }
  }

  /**
   With virtual shards, an event without a guild goes to the bucket configured for direct messages: it is sent to the
   buckets of that shard id. One that names guild 0 is remapped for other counts, where guild 0 is shard 0's.
   */
  lemma DirectEventReaches(c: Config, shard: (int, int, int), identifier: Identifier, bucket: Bucket)
    requires c.virtual.enabled && !identifier.globallyRouted && identifier.guild in {None, Some(0)}
    ensures Routed(c, shard, identifier) == (0, c.virtual.dmShard, c.virtual.count)
    ensures Published(bucket, Target(c, shard, identifier), identifier.guild) == Send
       <==> if identifier.guild.None? || bucket.1 == c.virtual.count then bucket.0 == c.virtual.dmShard
            else bucket.1 > 0 && c.virtual.dmShard == 0
  {
  }

  /** Without virtual shards every event keeps its real shard; with them none keeps the group's number. */
  lemma RoutingKeepsRealShards(c: Config, shard: (int, int, int), identifier: Identifier)
    ensures !c.virtual.enabled ==> Routed(c, shard, identifier) == shard
    ensures c.virtual.enabled ==> Routed(c, shard, identifier).0 == 0
    ensures c.virtual.enabled && identifier.globallyRouted ==> Routed(c, shard, identifier) == (0, 0, 0)
  {
  }

  /** A session is ended exactly for an event of a guild at a bucket of another count that is no count at all. */
  lemma InvalidatesIff(bucket: Bucket, shard: Bucket, guild: Option<GuildID>)
    ensures Published(bucket, shard, guild) == Invalid <==> guild.Some? && bucket.1 != shard.1 && bucket.1 <= 0
  {
  }

  /** The bucket gets the events of exactly the guilds it owns. */
  ghost predicate ServedExactly(c: Config, shard: (int, int, int), bucket: Bucket) {
    forall g :: g > 0 ==> (Published(bucket, Target(c, shard, GuildEvent(g)), Some(g)) == Send <==> Owns(bucket, g))
  }

  /** A guild with a given shifted id. */
  function GuildAt(q: nat): (g: GuildID)
    ensures g > 0 && Shifted(g) == q
  {
    q * 0x40_0000 + 1
  }

  /** So a valid bucket is served exactly in no other case than these: its count is the virtual one, or that is 1. */
  lemma ServedExactlyIff(c: Config, shard: (int, int, int), bucket: Bucket)
    requires c.virtual.enabled && c.virtual.count > 0 && 0 <= bucket.0 < bucket.1
    ensures ServedExactly(c, shard, bucket) <==> bucket.1 == c.virtual.count || (c.virtual.count == 1 && bucket.0 == 0)
  {
    var b, n, v := bucket.0, bucket.1, c.virtual.count;
    forall g | g > 0
      ensures Published(bucket, Target(c, shard, GuildEvent(g)), Some(g)) == Send
         <==> if n == v then Owns(bucket, g) else ShardOf(g, n) == ShardOf(g, v)
    {
      GuildEventReaches(c, shard, g, bucket);
    }
    if n != v && !(v == 1 && b == 0) {
      var q := if n == 1 || b == 0 then 1 else 0;
      ModSmall(q, n);
      ModSmall(q, v);
      var g := GuildAt(q);
      assert !(Published(bucket, Target(c, shard, GuildEvent(g)), Some(g)) == Send <==> Owns(bucket, g));
    }
  }

  lemma ModSmall(q: int, n: int)
    requires 0 <= q <= 1 && n > 0
    ensures q % n == if n == 1 then 0 else q
  {
  }

  /** A globally routed event is meant for everybody but only reaches the buckets of shard 0. */
  lemma GlobalEventReachesShardZero(c: Config, shard: (int, int, int), bucket: Bucket)
    requires c.virtual.enabled
    ensures Published(bucket, Target(c, shard, Identifier(None, true)), None) == Send <==> bucket.0 == 0
  {
  }

  // ---------------------------------------------------------------------------------------------------------
  // READY's guild list

  /** The guilds READY lists for a subscriber's shard id, quickStart being off: by the consumer count, not its own. */
  function ReadyGuilds(c: Config, guilds: set<GuildID>, shardID: int): set<GuildID> {
    set g | g in guilds && ShardOf(g, ConsumerShardCount(c)) == shardID
  }

  /** The lists of shards 0..n-1 partition the cached guilds exactly when every guild has a shard among them. */
  lemma ReadyListsPartition(c: Config, guilds: set<GuildID>, i: int, j: int)
    requires ConsumerShardCount(c) > 0
    ensures i != j ==> ReadyGuilds(c, guilds, i) !! ReadyGuilds(c, guilds, j)
    ensures var n := ConsumerShardCount(c);
            (forall g :: g in guilds ==> exists k :: 0 <= k < n && g in ReadyGuilds(c, guilds, k))
            <==> forall g :: g in guilds ==> g >= 0 || Shifted(g) % n == 0
  {
    var n := ConsumerShardCount(c);
    forall g | g in guilds
      ensures (exists k :: 0 <= k < n && g in ReadyGuilds(c, guilds, k)) <==> g >= 0 || Shifted(g) % n == 0
    {
      OwnedByOneShardIff(g, n);
      if 0 <= ShardOf(g, n) < n {
        assert g in ReadyGuilds(c, guilds, ShardOf(g, n));
      }
    }
  }

  /** READY lists a guild for a bucket of the virtual count exactly when the guild's later events go to that bucket. */
  lemma ReadyAgreesWithEvents(c: Config, guilds: set<GuildID>, shard: (int, int, int), g: GuildID, id: int)
    requires c.virtual.enabled && c.virtual.count > 0 && g in guilds && g != 0
    ensures g in ReadyGuilds(c, guilds, id)
       <==> Published((id, c.virtual.count), Target(c, shard, GuildEvent(g)), Some(g)) == Send
  {
    GuildEventReaches(c, shard, g, (id, c.virtual.count));
  }

  /** READY lists for the bucket exactly the guilds it owns, whatever is cached. */
  ghost predicate ReadyIsExact(c: Config, bucket: Bucket) {
    forall guilds: set<GuildID>, g ::
      g in guilds && g > 0 ==> (g in ReadyGuilds(c, guilds, bucket.0) <==> Owns(bucket, g))
  }

  lemma RemainderBelowTwice(x: int, n: int)
    requires 0 <= x < 2 * n
    ensures x % n == if x < n then x else x - n
  {
    if x >= n {
      assert (x - n) % n == x - n;
      assert x == n * 1 + (x - n);
    }
  }

  /** READY goes by the consumer count and not by the bucket's own: it is right for that count and for no other. */
  lemma ReadyIsExactIff(c: Config, bucket: Bucket)
    requires ConsumerShardCount(c) > 0 && 0 <= bucket.0 < bucket.1
    ensures ReadyIsExact(c, bucket) <==> bucket.1 == ConsumerShardCount(c)
  {
    var b, n, v := bucket.0, bucket.1, ConsumerShardCount(c);
    if n != v {
      var q := if n < v then b + n else if b < v then b + v else b;
      RemainderBelowTwice(q, n);
      if n < v || b < v { RemainderBelowTwice(q, v); }
      var g := GuildAt(q);
      assert g in ReadyGuilds(c, {g}, b) <==> ShardOf(g, v) == b;
      assert !(ShardOf(g, v) == b <==> Owns(bucket, g));
      assert g in {g};
    }
  }

  // ---------------------------------------------------------------------------------------------------------
  // Requests from a consumer

  /** handleReadMessages: the real shard a consumer's packet is sent to; None when it names no guild to remap by. */
  function RequestShard(c: Config, bucket: Bucket, guild: Option<GuildID>): Option<int> {
    if bucket.1 == c.noShards then Some(bucket.0)
    else if guild.None? || guild.value == 0 then None
    else Some(ShardOf(guild.value, c.noShards))
  }

  /** A request is dropped exactly when it names no guild and its bucket's count is not the real one. */
  lemma RequestIsDroppedIff(c: Config, bucket: Bucket, guild: Option<GuildID>)
    ensures RequestShard(c, bucket, guild).None? <==> bucket.1 != c.noShards && guild in {None, Some(0)}
    ensures bucket.1 == c.noShards ==> RequestShard(c, bucket, guild) == Some(bucket.0)
  {
  }

  /**
   A member request for a guild by the bucket owning it goes to the real shard owning the guild. The chunks that shard
   then receives come back to the bucket exactly when its count is the virtual one or the two shard ids agree.
   */
  lemma RequestRoundTrip(c: Config, bucket: Bucket, g: GuildID, group: int)
    requires c.virtual.enabled && c.virtual.count > 0 && c.noShards > 0 && g != 0 && Owns(bucket, g)
    ensures var owner := ShardOf(g, c.noShards);
            && RequestShard(c, bucket, Some(g)) == Some(owner)
            && (Published(bucket, Target(c, (group, owner, c.noShards), GuildEvent(g)), Some(g)) == Send
                <==> bucket.1 == c.virtual.count || bucket.0 == ShardOf(g, c.virtual.count))
  {
    GuildEventReaches(c, (group, ShardOf(g, c.noShards), c.noShards), g, bucket);
  }

  /** Without virtual shards the real shard publishes under its own id and count, and the trip closes as well. */
  lemma RequestRoundTripUnmapped(c: Config, bucket: Bucket, g: GuildID, group: int)
    requires !c.virtual.enabled && c.noShards > 0 && g != 0 && Owns(bucket, g)
    ensures var owner := ShardOf(g, c.noShards);
            && RequestShard(c, bucket, Some(g)) == Some(owner)
            && (Published(bucket, Target(c, (group, owner, c.noShards), GuildEvent(g)), Some(g)) == Send
                <==> bucket.1 == c.noShards || bucket.0 == owner)
  {
  }

  // ---------------------------------------------------------------------------------------------------------
  // Identify

  /** The bucket an identify asks for: a count of 0 or less means the consumer count; too large ones are refused. */
  function Identified(c: Config, asked: Bucket): Option<Bucket> {
    var count := if asked.1 <= 0 then ConsumerShardCount(c) else asked.1;
    if count > ConsumerShardCount(c) || asked.0 > ConsumerShardCount(c) then None else Some((asked.0, count))
  }

  /** An identify is refused exactly for a count or a shard id above the consumer count, and else gets what it asked. */
  lemma IdentifyIsRefusedIff(c: Config, asked: Bucket)
    requires ConsumerShardCount(c) > 0
    ensures Identified(c, asked).None? <==> asked.0 > ConsumerShardCount(c) || asked.1 > ConsumerShardCount(c)
    ensures Identified(c, asked).Some? ==>
              && Identified(c, asked).value.0 == asked.0
              && Identified(c, asked).value.1 == (if asked.1 > 0 then asked.1 else ConsumerShardCount(c))
  {
  }

  /**
   An accepted bucket never invalidates its session later: with a positive consumer count its count is positive. Its
   shard id may still be one past the end, or negative, and then it owns no guild with a valid shard.
   */
  lemma AcceptedBucket(c: Config, asked: Bucket, shard: Bucket, guild: Option<GuildID>)
    requires ConsumerShardCount(c) > 0 && Identified(c, asked).Some?
    ensures var bucket := Identified(c, asked).value;
            && 0 < bucket.1 <= ConsumerShardCount(c) && bucket.0 <= ConsumerShardCount(c)
            && Published(bucket, shard, guild) != Invalid
            && (!(0 <= bucket.0 < bucket.1) ==> forall g :: g >= 0 ==> !Owns(bucket, g))
  {
    var bucket := Identified(c, asked).value;
    forall g | g >= 0
      ensures 0 <= ShardOf(g, bucket.1) < bucket.1
    {
      OwnedByOneShardIff(g, bucket.1);
    }
  }
}
