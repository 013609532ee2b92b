/** Rolling restarts: several shard groups, each waiting for its shards and then taking over from the others. */
module Handover {
  import opened Session
  import opened SessionRuns

  type GroupID = int

  /** `waiting` counts the shards the group has stopped waiting for; `closed` is set once somebody closed the group. */
  datatype Group = Group(shards: seq<Machine>, waiting: nat, floodgate: bool, closed: bool)

  type Fleet = map<GroupID, Group>

  datatype Move =
    | Register(g: GroupID, count: nat)
    | ShardMoves(g: GroupID, i: nat, step: Step)
    | TakesToken(g: GroupID)
    | SeesReady(g: GroupID)
    | TakesOver(g: GroupID)
    | Closes(g: GroupID)
    | Unregister(g: GroupID)

  /** A shard being closed: a shard in OnReady's loop still leaves its ready token behind. */
  function Shut(m: Machine): Machine {
    if m.link.Down? then m.(fields := AfterClose(m.fields)) else SessionRuns.Next(m, Drop)
  }

  function ShutAll(shards: seq<Machine>): seq<Machine> {
    seq(|shards|, i requires 0 <= i < |shards| => Shut(shards[i]))
  }

  function Shutdown(group: Group): Group {
    group.(shards := ShutAll(group.shards), closed := true)
  }

  /** WaitForReady takes the token of a shard that is not ready, and goes on waiting. */
  function WithoutToken(m: Machine): Machine {
    m.(fields := m.fields.(token := false))
  }

  ghost predicate Allowed(fleet: Fleet, move: Move) {
    match move
    case Register(g, count) => g !in fleet && count > 0
    case ShardMoves(g, i, step) =>
      g in fleet && i < |fleet[g].shards| && SessionRuns.Enabled(fleet[g].shards[i], step)
    case TakesToken(g) =>
      && g in fleet && fleet[g].waiting < |fleet[g].shards|
      && var f := fleet[g].shards[fleet[g].waiting].fields; f.token && !f.isReady
    case SeesReady(g) =>
      g in fleet && fleet[g].waiting < |fleet[g].shards| && fleet[g].shards[fleet[g].waiting].fields.isReady
    case TakesOver(g) => g in fleet && fleet[g].waiting == |fleet[g].shards| && !fleet[g].floodgate
    case Closes(g) => g in fleet
    case Unregister(_) => true
  }

  function After(fleet: Fleet, move: Move): Fleet
    requires Allowed(fleet, move)
  {
    match move
    case Register(g, count) => fleet[g := Group(seq(count, _ => START), 0, false, false)]
    case ShardMoves(g, i, step) =>
      fleet[g := fleet[g].(shards := fleet[g].shards[i := SessionRuns.Next(fleet[g].shards[i], step)])]
    case TakesToken(g) =>
      var i := fleet[g].waiting;
      fleet[g := fleet[g].(shards := fleet[g].shards[i := WithoutToken(fleet[g].shards[i])])]
    case SeesReady(g) => fleet[g := fleet[g].(waiting := fleet[g].waiting + 1)]
    case TakesOver(g) =>
      map h | h in fleet :: if h == g then fleet[h].(floodgate := true) else Shutdown(fleet[h])
    case Closes(g) => fleet[g := Shutdown(fleet[g])]
    case Unregister(g) => fleet - {g}
  }

  ghost predicate IsHistory(fleets: seq<Fleet>, moves: seq<Move>) {
    && |fleets| == |moves| + 1 && fleets[0] == map[]
    && forall i :: 0 <= i < |moves| ==> Allowed(fleets[i], moves[i]) && fleets[i + 1] == After(fleets[i], moves[i])
  }

  // ---------------------------------------------------------------------------------------------------------
  // Readiness of one shard

  /** The shard has received READY at some time. */
  ghost predicate WasReady(m: Machine) {
    exists s :: GotReady(s) in m.trace
  }

  /** Whatever makes WaitForReady return was caused by a READY. */
  ghost predicate ShardOk(m: Machine) {
    && SessionRuns.Inv(m)
    && (m.fields.isReady || m.fields.token || m.mode.InReady? ==> WasReady(m))
  }

  lemma {:induction false} LatestWasReady(trace: seq<Occurrence>, s: SessionID)
    requires Latest(trace).Some? && Latest(trace).value == s
    ensures GotReady(s) in trace
  {
    var last := trace[|trace| - 1];
    if last != GotReady(s) {
      LatestWasReady(trace[..|trace| - 1], s);
    }
  }

  lemma TraceGrows(m: Machine, step: Step)
    requires SessionRuns.Enabled(m, step)
    ensures m.trace <= SessionRuns.Next(m, step).trace
    ensures WasReady(m) ==> WasReady(SessionRuns.Next(m, step))
  {
    hide AfterConnect, AfterFailure, Succeeds, Handled, AfterDispatch;
    var m' := SessionRuns.Next(m, step);
    assert m.trace <= m'.trace;
    if WasReady(m) {
      var s :| GotReady(s) in m.trace;
      assert GotReady(s) in m'.trace;
    }
  }

  lemma ShardStepKeeps(m: Machine, step: Step)
    requires ShardOk(m) && SessionRuns.Enabled(m, step)
    ensures ShardOk(SessionRuns.Next(m, step))
  {
    hide SessionRuns.Inv, WasReady, Good, Latest;
    StepKeeps(m, step);
    TraceGrows(m, step);
    match step
    case Receive(event) => if !event.OtherEvent? { ReceiveMakesReady(m, event); }
    case _ =>
  }

  /** RESUMED only ever arrives for a session that a READY began. */
  lemma ReceiveMakesReady(m: Machine, event: Dispatch)
    requires ShardOk(m) && SessionRuns.Enabled(m, Receive(event)) && !event.OtherEvent?
    ensures WasReady(SessionRuns.Next(m, Receive(event)))
  {
    var s := m.link.session;
    var m' := SessionRuns.Next(m, Receive(event));
    if event.ReadyEvent? {
      assert m'.trace[|m'.trace| - 1] == GotReady(s);
    } else {
      LatestWasReady(m.trace, s);
      assert GotReady(s) in m'.trace;
    }
  }

  lemma ShutKeeps(m: Machine)
    requires ShardOk(m)
    ensures ShardOk(Shut(m)) && (WasReady(m) ==> WasReady(Shut(m)))
  {
    if m.link.Down? {
      hide Good, Latest, HandedUpTo, WasReady;
      assert Shut(m).trace == m.trace;
      SameTrace(m, Shut(m));
    } else {
      ShardStepKeeps(m, Drop);
      TraceGrows(m, Drop);
    }
  }

  lemma SameTrace(m: Machine, m': Machine)
    requires m.trace == m'.trace
    ensures WasReady(m) <==> WasReady(m')
  {
  }

  // ---------------------------------------------------------------------------------------------------------
  // The whole fleet

  ghost predicate GroupOk(group: Group) {
    && (forall i :: 0 <= i < |group.shards| ==> ShardOk(group.shards[i]))
    && group.waiting <= |group.shards|
    && (forall i :: 0 <= i < group.waiting ==> WasReady(group.shards[i]))
    && (group.floodgate ==> group.waiting == |group.shards|)
  }

  /** A running group whose events are published. */
  predicate Publishes(group: Group) {
    group.floodgate && !group.closed
  }

  ghost predicate FleetOk(fleet: Fleet) {
    && (forall g :: g in fleet ==> GroupOk(fleet[g]))
    && (forall g, h :: g in fleet && h in fleet && Publishes(fleet[g]) && Publishes(fleet[h]) ==> g == h)
  }

  lemma OneShardChanges(group: Group, i: nat, m: Machine)
    requires GroupOk(group) && i < |group.shards| && ShardOk(m) && (WasReady(group.shards[i]) ==> WasReady(m))
    ensures GroupOk(group.(shards := group.shards[i := m]))
  {
    hide ShardOk, WasReady;
  }

  lemma ShutdownKeeps(group: Group)
    requires GroupOk(group)
    ensures GroupOk(Shutdown(group))
  {
    hide ShardOk, WasReady, Shut;
    forall i | 0 <= i < |group.shards|
      ensures ShardOk(Shut(group.shards[i])) && (WasReady(group.shards[i]) ==> WasReady(Shut(group.shards[i])))
    {
      ShutKeeps(group.shards[i]);
    }
  }

  lemma SeesReadyKeeps(group: Group)
    requires GroupOk(group) && group.waiting < |group.shards| && group.shards[group.waiting].fields.isReady
    ensures GroupOk(group.(waiting := group.waiting + 1))
  {
    hide WasReady, SessionRuns.Inv;
    assert ShardOk(group.shards[group.waiting]);
  }

  lemma TokenKeeps(m: Machine)
    requires ShardOk(m)
    ensures ShardOk(WithoutToken(m)) && (WasReady(m) ==> WasReady(WithoutToken(m)))
  {
    hide Good, Latest, HandedUpTo, WasReady;
    SameTrace(m, WithoutToken(m));
  }

  lemma StartIsOk()
    ensures ShardOk(START)
  {
  }

  lemma MoveKeeps(fleet: Fleet, move: Move)
    requires FleetOk(fleet) && Allowed(fleet, move)
    ensures FleetOk(After(fleet, move))
  {
    hide GroupOk, ShardOk, Shut, ShutAll, SessionRuns.Enabled, SessionRuns.Next;
    match move
    case Register(g, count) =>
      StartIsOk();
      FreshGroupIsOk(count);
    case ShardMoves(g, i, step) =>
      ShardIsOk(fleet[g], i);
      ShardStepKeeps(fleet[g].shards[i], step);
      TraceGrows(fleet[g].shards[i], step);
      OneShardChanges(fleet[g], i, SessionRuns.Next(fleet[g].shards[i], step));
    case TakesToken(g) =>
      var i := fleet[g].waiting;
      ShardIsOk(fleet[g], i);
      TokenKeeps(fleet[g].shards[i]);
      OneShardChanges(fleet[g], i, WithoutToken(fleet[g].shards[i]));
    case SeesReady(g) => SeesReadyKeeps(fleet[g]);
    case TakesOver(g) =>
      forall h | h in fleet
        ensures GroupOk(After(fleet, move)[h])
      {
        ShutdownKeeps(fleet[h]);
        OpeningKeeps(fleet[g]);
      }
    case Closes(g) => ShutdownKeeps(fleet[g]);
    case Unregister(_) =>
  }

  lemma OpeningKeeps(group: Group)
    requires GroupOk(group) && group.waiting == |group.shards|
    ensures GroupOk(group.(floodgate := true))
  {
  }

  lemma ShardIsOk(group: Group, i: nat)
    requires GroupOk(group) && i < |group.shards|
    ensures ShardOk(group.shards[i])
  {
  }

  lemma FreshGroupIsOk(count: nat)
    requires ShardOk(START)
    ensures GroupOk(Group(seq(count, _ => START), 0, false, false))
  {
  }

  lemma {:induction false} HistoryKeeps(fleets: seq<Fleet>, moves: seq<Move>)
    requires IsHistory(fleets, moves)
    ensures FleetOk(fleets[|fleets| - 1])
  {
    if moves != [] {
      hide FleetOk, Allowed, After;
      HistoryKeeps(fleets[..|fleets| - 1], moves[..|moves| - 1]);
      MoveKeeps(fleets[|fleets| - 2], moves[|moves| - 1]);
    }
  }

  /**
   In every history: a group with an open floodgate has had a READY on every one of its shards, and of the groups
   nobody closed at most one has its floodgate open, so at most one running group publishes.
   */
  lemma OneRunningGroupPublishes(fleets: seq<Fleet>, moves: seq<Move>, g: GroupID, h: GroupID, i: nat)
    requires IsHistory(fleets, moves)
    requires g in fleets[|fleets| - 1] && h in fleets[|fleets| - 1]
    ensures var fleet := fleets[|fleets| - 1];
            && (fleet[g].floodgate && i < |fleet[g].shards| ==> WasReady(fleet[g].shards[i]))
            && (Publishes(fleet[g]) && Publishes(fleet[h]) ==> g == h)
  {
    hide Allowed, After, WasReady, ShardOk;
    HistoryKeeps(fleets, moves);
    assert GroupOk(fleets[|fleets| - 1][g]);
  }

  /**
   The handover clears no floodgate but its own, so a floodgate that was open stays open on the closed group: afterwards
   only the new group's is open exactly when no other was open before.
   */
  lemma OldFloodgateStaysOpen(fleet: Fleet, g: GroupID)
    requires Allowed(fleet, TakesOver(g))
    ensures var after := After(fleet, TakesOver(g));
            (forall h :: h in after && after[h].floodgate ==> h == g)
            <==> forall h :: h in fleet && h != g ==> !fleet[h].floodgate
  {
    hide ShutAll;
    var after := After(fleet, TakesOver(g));
    forall h | h in fleet && h != g
      ensures after[h].floodgate == fleet[h].floodgate
    {
    }
  }

  /** Two groups of one shard each, the first open, the second done waiting: afterwards both floodgates are open. */
  lemma BothFloodgatesOpen()
    ensures var fleet := map[1 := Group([START], 1, true, false), 2 := Group([START], 1, false, false)];
            && Allowed(fleet, TakesOver(2))
            && 1 in After(fleet, TakesOver(2)) && 2 in After(fleet, TakesOver(2))
            && After(fleet, TakesOver(2))[1].floodgate && After(fleet, TakesOver(2))[1].closed
            && After(fleet, TakesOver(2))[2].floodgate
  {
    hide ShutAll;
    var fleet := map[1 := Group([START], 1, true, false), 2 := Group([START], 1, false, false)];
    OldFloodgateStaysOpen(fleet, 2);
  }

  /** A shard that is not ready, has no connection, and is back where it has to connect. */
  predicate IsShut(m: Machine) {
    !m.fields.isReady && !m.fields.hasConn && m.fields.status == Closed && m.link == Down && m.mode == Trying
  }

  /** Closing shuts the shard and keeps its session; a READY loop that it ends leaves its token. */
  lemma ShutIs(m: Machine)
    requires SessionRuns.Inv(m)
    ensures var shut := Shut(m);
            && IsShut(shut) && shut.trace == m.trace
            && shut.fields.sessionID == m.fields.sessionID && shut.fields.sequence == m.fields.sequence
            && shut.fields.token == (m.fields.token || m.mode.InReady?)
            && shut.fields.retries == m.fields.retries && shut.fields.resumeURL == m.fields.resumeURL
  {
  }

  /**
   In every history a handover shuts every shard of every other group and counts the group as closed, leaves the own
   group's shards alone, and opens the own floodgate; no group comes or goes.
   */
  lemma TakeOverShutsOthers(fleets: seq<Fleet>, moves: seq<Move>, g: GroupID, h: GroupID, i: nat)
    requires IsHistory(fleets, moves) && Allowed(fleets[|fleets| - 1], TakesOver(g)) && h in fleets[|fleets| - 1]
    ensures var fleet := fleets[|fleets| - 1];
            var after := After(fleet, TakesOver(g));
            && after.Keys == fleet.Keys
            && |after[h].shards| == |fleet[h].shards| && after[h].waiting == fleet[h].waiting
            && after[h].floodgate == (h == g || fleet[h].floodgate)
            && after[h].closed == (h != g || fleet[h].closed)
            && (i < |fleet[h].shards| ==>
                  if h == g then after[h].shards[i] == fleet[h].shards[i]
                  else IsShut(after[h].shards[i]) && after[h].shards[i].trace == fleet[h].shards[i].trace)
  {
    hide SessionRuns.Inv, Shut, WasReady, IsShut;
    HistoryKeeps(fleets, moves);
    var fleet := fleets[|fleets| - 1];
    assert GroupOk(fleet[h]);
    if i < |fleet[h].shards| {
      assert ShardOk(fleet[h].shards[i]);
      ShutIs(fleet[h].shards[i]);
    }
  }

  /** While a group waits, only a ready shard lets it go on to the next; a token it takes is gone, and wakes nobody. */
  lemma WaitingIs(fleet: Fleet, g: GroupID)
    requires g in fleet && fleet[g].waiting < |fleet[g].shards|
    ensures var group, i := fleet[g], fleet[g].waiting;
            && (Allowed(fleet, SeesReady(g)) <==> group.shards[i].fields.isReady)
            && (Allowed(fleet, SeesReady(g)) ==>
                  After(fleet, SeesReady(g)) == fleet[g := group.(waiting := i + 1)])
            && (Allowed(fleet, TakesToken(g)) <==> group.shards[i].fields.token && !group.shards[i].fields.isReady)
            && (Allowed(fleet, TakesToken(g)) ==>
                  var after := After(fleet, TakesToken(g));
                  var taken := group.shards[i].(fields := group.shards[i].fields.(token := false));
                  after == fleet[g := group.(shards := group.shards[i := taken])])
            && !Allowed(fleet, TakesOver(g))
  {
  }

  /** A group that registers has fresh shards, none of which it has waited for, and a closed floodgate. */
  lemma RegisterIs(fleet: Fleet, g: GroupID, count: nat)
    requires Allowed(fleet, Register(g, count))
    ensures var after := After(fleet, Register(g, count));
            && after.Keys == fleet.Keys + {g} && (forall h :: h in fleet ==> after[h] == fleet[h])
            && |after[g].shards| == count && (forall s :: s in after[g].shards ==> s == START)
            && after[g].waiting == 0 && !after[g].floodgate && !after[g].closed
  {
  }

  /** Closing one group does the same to its shards, and nothing to any other group. */
  lemma CloseShutsOne(fleets: seq<Fleet>, moves: seq<Move>, g: GroupID, i: nat)
    requires IsHistory(fleets, moves) && Allowed(fleets[|fleets| - 1], Closes(g))
    ensures var fleet := fleets[|fleets| - 1];
            var after := After(fleet, Closes(g));
            && after - {g} == fleet - {g} && g in after && after[g].closed
            && after[g].floodgate == fleet[g].floodgate && |after[g].shards| == |fleet[g].shards|
            && (i < |fleet[g].shards| ==> IsShut(after[g].shards[i]))
  {
    hide SessionRuns.Inv, Shut, WasReady, IsShut;
    HistoryKeeps(fleets, moves);
    var fleet := fleets[|fleets| - 1];
    assert GroupOk(fleet[g]);
    if i < |fleet[g].shards| {
      assert ShardOk(fleet[g].shards[i]);
      ShutIs(fleet[g].shards[i]);
    }
  }
}
