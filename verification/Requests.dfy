/** Which shard a consumer's request is sent through, when several groups have one of the right id. */
module Requests {
  import opened Wrappers
  import opened Csmap

  type GroupID = int

  /** A registered shard group: the ids of its shards, and whether it has been closed. */
  datatype Holder = Holder(shardIDs: set<int>, closed: bool)

  /** The first group, in the order the groups are visited, that has a shard of the id. */
  function FirstWith(order: seq<GroupID>, groups: map<GroupID, Holder>, shardID: int): Option<GroupID> {
    if order == [] then None
    else if order[0] in groups && shardID in groups[order[0]].shardIDs then Some(order[0])
    else FirstWith(order[1..], groups, shardID)
  }

  /** getShard. No group with the id means a nil shard, whose use panics and ends the consumer's reader. */
  method GetShard(groups: CsMap<GroupID, Holder>, shardID: int)
    returns (found: Option<GroupID>, ghost order: seq<GroupID>)
    ensures Enumerates(order, groups.m.Keys) && found == FirstWith(order, groups.m, shardID)
    ensures found.Some? ==> found.value in groups.m && shardID in groups.m[found.value].shardIDs
    ensures found.Some? ==> exists i :: 0 <= i < |order| && order[i] == found.value
                                        && NoneBefore(order, i, groups.m, shardID)
    ensures found.None? ==> forall g :: g in groups.m ==> shardID !in groups.m[g].shardIDs
  {
    var ids := groups.Range();
    order := ids;
    for i := 0 to |ids|
      invariant FirstWith(ids, groups.m, shardID) == FirstWith(ids[i..], groups.m, shardID)
    {
      assert ids[i..][0] == ids[i] && ids[i..][1..] == ids[i + 1..];
      if shardID in groups.m[ids[i]].shardIDs {
        found := Some(ids[i]);
        ghost var at := FirstWithIs(ids, groups.m, shardID);
        return;
      }
    }
    found := None;
    ghost var at := FirstWithIs(ids, groups.m, shardID);
  }

  ghost predicate NoneBefore(order: seq<GroupID>, i: nat, groups: map<GroupID, Holder>, shardID: int)
    requires i <= |order|
  {
    forall j :: 0 <= j < i && order[j] in groups ==> shardID !in groups[order[j]].shardIDs
  }

  /** `at` is where it is found: no group before it has the shard; without one, no group has. */
  lemma {:induction false} FirstWithIs(order: seq<GroupID>, groups: map<GroupID, Holder>, shardID: int)
    returns (at: nat)
    ensures at <= |order| && NoneBefore(order, at, groups, shardID)
    ensures FirstWith(order, groups, shardID).Some? <==> at < |order|
    ensures at < |order| ==>
              && FirstWith(order, groups, shardID) == Some(order[at])
              && order[at] in groups && shardID in groups[order[at]].shardIDs
  {
    at := 0;
    if order != [] && !(order[0] in groups && shardID in groups[order[0]].shardIDs) {
      var later := FirstWithIs(order[1..], groups, shardID);
      at := later + 1;
      assert forall j :: 0 < j < at ==> order[j] == order[1..][j - 1];
    }
  }

  lemma {:induction false} SomeOrder<T>(keys: set<T>) returns (order: seq<T>)
    ensures Enumerates(order, keys)
    decreases |keys|
  {
    if keys == {} {
      order := [];
    } else {
      var k :| k in keys;
      var rest := SomeOrder(keys - {k});
      order := [k] + rest;
    }
  }

  lemma OrderFrom(keys: set<GroupID>, first: GroupID) returns (order: seq<GroupID>)
    requires first in keys
    ensures Enumerates(order, keys) && order != [] && order[0] == first
  {
    var rest := SomeOrder(keys - {first});
    order := [first] + rest;
  }

  /** Whatever order the groups are visited in, the request goes through a group that has not been closed. */
  ghost predicate AlwaysRunning(groups: map<GroupID, Holder>, shardID: int) {
    forall order :: Enumerates(order, groups.Keys) ==> ThroughRunning(order, groups, shardID)
  }

  ghost predicate ThroughRunning(order: seq<GroupID>, groups: map<GroupID, Holder>, shardID: int) {
    var found := FirstWith(order, groups, shardID);
    found.Some? && found.value in groups && !groups[found.value].closed
  }

  /**
   That is so exactly when some registered group has a shard of the id and none of those groups is closed. A closed
   group stays registered after a handover, so it is not so after one that keeps the shard ids.
   */
  lemma ReachesRunningGroupIff(groups: map<GroupID, Holder>, shardID: int)
    ensures AlwaysRunning(groups, shardID)
       <==> (exists g :: g in groups && shardID in groups[g].shardIDs)
            && forall g :: g in groups && shardID in groups[g].shardIDs ==> !groups[g].closed
  {
    if AlwaysRunning(groups, shardID) {
      var order := SomeOrder(groups.Keys);
      assert ThroughRunning(order, groups, shardID);
      var at := FirstWithIs(order, groups, shardID);
      forall g | g in groups && shardID in groups[g].shardIDs
        ensures !groups[g].closed
      {
        var from := OrderFrom(groups.Keys, g);
        assert ThroughRunning(from, groups, shardID);
      }
    }
    if (exists g :: g in groups && shardID in groups[g].shardIDs)
       && forall g :: g in groups && shardID in groups[g].shardIDs ==> !groups[g].closed
    {
      forall order | Enumerates(order, groups.Keys)
        ensures ThroughRunning(order, groups, shardID)
      {
        var at := FirstWithIs(order, groups, shardID);
      }
    }
  }

  /** After a handover that keeps the shard ids a request may go through the closed group. */
  lemma RequestThroughClosedGroup()
    ensures !AlwaysRunning(map[1 := Holder({0}, true), 2 := Holder({0}, false)], 0)
  {
    var groups := map[1 := Holder({0}, true), 2 := Holder({0}, false)];
    ReachesRunningGroupIff(groups, 0);
    assert 1 in groups && 0 in groups[1].shardIDs && groups[1].closed;
  }
}
