/** A shard group: its shards, the guilds it holds, and the floodgate that lets its events be published. */
module ShardGroups {
  import opened Discord
  import opened Session

  datatype GroupStatus = GroupIdle | GroupConnecting | GroupConnected | GroupClosing | GroupClosed

  ghost predicate AllDistinct<T>(xs: seq<T>) {
    forall i, j :: 0 <= i < j < |xs| ==> xs[i] != xs[j]
  }

  function AllShards(groups: seq<ShardGroup>): set<Shard> {
    set g, s | g in groups && s in g.shards :: s
  }

  class ShardGroup {
    const shards: seq<Shard>
    var guilds: set<GuildID>
    var floodgate: bool
    var status: GroupStatus

    constructor (shards: seq<Shard>)
      ensures this.shards == shards && guilds == {} && !floodgate && status == GroupIdle
    {
      this.shards := shards;
      guilds, floodgate, status := {}, false, GroupIdle;
    }

    /** Closes every shard and lets go of every guild. The floodgate stays as it was. */
    method Close()
      requires AllDistinct(shards)
      modifies this, shards
      ensures guilds == {} && status == GroupClosed && floodgate == old(floodgate)
      ensures forall i :: 0 <= i < |shards| ==> shards[i].State() == AfterClose(old(shards[i].State()))
      ensures forall s :: s in shards ==> !s.isReady && !s.wsConn && s.status == Closed
    {
      status := GroupClosing;
      for i := 0 to |shards|
        invariant floodgate == old(floodgate)
        invariant forall j :: 0 <= j < i ==> shards[j].State() == AfterClose(old(shards[j].State()))
        invariant forall j :: i <= j < |shards| ==> shards[j].State() == old(shards[j].State())
      {
        shards[i].Close();
      }
      guilds := {};
      status := GroupClosed;
      forall s | s in shards
        ensures !s.State().isReady && !s.State().hasConn && s.State().status == Closed
      {
      }
    }

    /**
     The end of Open, once every shard is ready: all other groups are closed, then the own floodgate opens. The source
     clears its own floodgate for each group it closes, so the others' floodgates stay as they were.
     */
    method TakeOver(groups: seq<ShardGroup>)
      requires AllDistinct(groups) && this in groups
      requires forall g :: g in groups ==> AllDistinct(g.shards)
      requires forall g, h, s :: g in groups && h in groups && s in g.shards && s in h.shards ==> g == h
      modifies groups, AllShards(groups)
      ensures floodgate && guilds == old(guilds) && status == old(status)
      ensures forall s :: s in shards ==> s.State() == old(s.State())
      ensures forall g :: g in groups && g != this ==>
                g.guilds == {} && g.status == GroupClosed && g.floodgate == old(g.floodgate)
      ensures forall g, s :: g in groups && g != this && s in g.shards ==> s.State() == AfterClose(old(s.State()))
      ensures forall g, s :: g in groups && g != this && s in g.shards ==> !s.State().isReady && !s.State().hasConn
    {
      for i := 0 to |groups|
        invariant guilds == old(guilds) && status == old(status)
        invariant forall s :: s in shards ==> s.State() == old(s.State())
        invariant forall j :: 0 <= j < i && groups[j] != this ==>
                    groups[j].guilds == {} && groups[j].status == GroupClosed
        invariant forall g :: g in groups && g != this ==> g.floodgate == old(g.floodgate)
        invariant forall j, s :: 0 <= j < i && groups[j] != this && s in groups[j].shards ==>
                    s.State() == AfterClose(old(s.State()))
        invariant forall j, s :: i <= j < |groups| && s in groups[j].shards ==> s.State() == old(s.State())
      {
        if groups[i] != this {
          floodgate := false;
          forall s | s in groups[i].shards
            ensures s in AllShards(groups)
          {
            assert groups[i] in groups && s in groups[i].shards;
          }
          groups[i].Close();
        }
      }
      floodgate := true;
    }
  }

  /** The manager's settings OnDispatch asks about. */
  datatype Gates = Gates(producer: bool, eventBlacklist: seq<string>, produceBlacklist: seq<string>)

  /** How an event's handler ends: with an error, keeping the event to itself, or letting it go on. */
  datatype Handling = Errored | Kept | LetOn

  /**
   OnDispatch: the state sees an event whatever the floodgate says; only publishing waits for it. `handling` is how the
   handler ends if it is run.
   */
  method OnDispatch(group: ShardGroup, gates: Gates, eventType: string, handling: Handling)
    returns (handled: bool, published: bool)
    ensures handled <==> gates.producer && eventType !in gates.eventBlacklist
    ensures published <==> handled && handling.LetOn? && group.floodgate && eventType !in gates.produceBlacklist
  {
    handled, published := false, false;
    if !gates.producer {
      return;
    }
    if eventType in gates.eventBlacklist {
      return;
    }
    handled := true;
    if handling == Errored {
      return;
    }
    if !group.floodgate || handling == Kept {
      return;
    }
    if eventType in gates.produceBlacklist {
      return;
    }
    published := true;
  }
}
