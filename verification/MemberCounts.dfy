/** Member counts survive duplicate deliveries from several groups, with ejector sweeps anywhere in between. */
module MemberCounts {
  import opened Wrappers
  import opened Discord
  import opened Tables
  import opened Dedupe
  import opened Events
  import opened GuildLaws
  import opened Runs
  import opened Confluence
  import opened Ejector

  // ---------------------------------------------------------------------------------------------------------
  // What a stream of deliveries says about one user

  /** The add or remove of user `u` in guild `g` that a step delivers, if any. */
  function KindFor(step: Step, g: GuildID, u: UserID): Option<Kind> {
    match step
    case Deliver(d) => (
      match d.event
      case GuildMemberAdd(member) =>
        if member.guildID == Some(g) && HasUser(member) && member.user.value.id == u then Some(Add) else None
      case GuildMemberRemove(o, user) => if o == g && user.id == u then Some(Remove) else None
      case _ => None)
    case _ => None
  }

  function FirstKind(steps: seq<Step>, g: GuildID, u: UserID): Option<Kind> {
    if steps == [] then None
    else
      var earlier := FirstKind(steps[..|steps| - 1], g, u);
      if earlier.Some? then earlier else KindFor(steps[|steps| - 1], g, u)
  }

  function LastKind(steps: seq<Step>, g: GuildID, u: UserID): Option<Kind> {
    if steps == [] then None
    else
      var latest := KindFor(steps[|steps| - 1], g, u);
      if latest.Some? then latest else LastKind(steps[..|steps| - 1], g, u)
  }

  /** +1 when the first and the last delivery are adds, -1 when both are removes, else 0. */
  function Delta(steps: seq<Step>, g: GuildID, u: UserID): int {
    match (FirstKind(steps, g, u), LastKind(steps, g, u))
    case (Some(Add), Some(Add)) => 1
    case (Some(Remove), Some(Remove)) => -1
    case _ => 0
  }

  function Total(steps: seq<Step>, g: GuildID, us: seq<UserID>): int {
    if us == [] then 0 else Total(steps, g, us[..|us| - 1]) + Delta(steps, g, us[|us| - 1])
  }

  lemma {:induction false} FirstIffLast(steps: seq<Step>, g: GuildID, u: UserID)
    ensures FirstKind(steps, g, u).Some? <==> LastKind(steps, g, u).Some?
  {
    if steps != [] {
      FirstIffLast(steps[..|steps| - 1], g, u);
    }
  }

  /** How much one more step moves the count: nothing when it repeats what the user's last delivery said. */
  function Move(last: Option<Kind>, next: Option<Kind>): int {
    if next.None? || last == next then 0 else if next.value.Add? then 1 else -1
  }

  lemma DeltaMoves(steps: seq<Step>, step: Step, g: GuildID, u: UserID)
    ensures Delta(steps + [step], g, u) == Delta(steps, g, u) + Move(LastKind(steps, g, u), KindFor(step, g, u))
  {
    FirstIffLast(steps, g, u);
    assert (steps + [step])[..|steps|] == steps;
  }

  lemma {:induction false} TotalMoves(steps: seq<Step>, step: Step, g: GuildID, us: seq<UserID>, u: UserID)
    requires forall v :: v != u ==> KindFor(step, g, v) == None
    requires forall i, j :: 0 <= i < j < |us| ==> us[i] != us[j]
    ensures Total(steps + [step], g, us)
         == Total(steps, g, us) + (if u in us then Move(LastKind(steps, g, u), KindFor(step, g, u)) else 0)
  {
    if us != [] {
      hide Delta, KindFor, LastKind;
      var init, v := us[..|us| - 1], us[|us| - 1];
      TotalMoves(steps, step, g, init, u);
      DeltaMoves(steps, step, g, v);
      assert us == init + [v];
    }
  }

  // ---------------------------------------------------------------------------------------------------------
  // The dedupe keys remember the last delivery

  /** No key of guild `g` suppresses at `start` or later. */
  ghost predicate NoLiveKeys(d: DedupeTable, g: GuildID, start: int) {
    forall kind, u :: MemberKey(kind, g, u) in d ==> d[MemberKey(kind, g, u)] <= start
  }

  /** The key of the user's last delivery is live until `start` + 60 at least, the opposite one is not. */
  ghost predicate RemembersUser(d: DedupeTable, g: GuildID, start: int, u: UserID, last: Option<Kind>) {
    forall kind ::
      if last == Some(kind) then MemberKey(kind, g, u) in d && d[MemberKey(kind, g, u)] >= start + 60
      else MemberKey(kind, g, u) in d ==> d[MemberKey(kind, g, u)] <= start
  }

  ghost predicate Remembers(d: DedupeTable, g: GuildID, start: int, steps: seq<Step>) {
    forall u :: RemembersUser(d, g, start, u, LastKind(steps, g, u))
  }

  lemma SuppressedIff(d: DedupeTable, g: GuildID, start: int, now: int, u: UserID, last: Option<Kind>, kind: Kind)
    requires RemembersUser(d, g, start, u, last) && 0 <= start <= now < start + 60
    ensures Suppressed(d, MemberKey(kind, g, u), now) <==> last == Some(kind)
  {
    hide MemberKey;
  }

  lemma RememberNext(
    d: DedupeTable, g: GuildID, start: int, now: int, steps: seq<Step>, step: Step, kind: Kind, u: UserID)
    requires Remembers(d, g, start, steps) && 0 <= start <= now < start + 60
    requires KindFor(step, g, u) == Some(kind) && forall v :: v != u ==> KindFor(step, g, v) == None
    ensures var d' := if Suppressed(d, MemberKey(kind, g, u), now) then d else Remember(d, kind, g, u, now);
            Remembers(d', g, start, steps + [step])
  {
    hide MemberKey, Remember, KindFor, Suppressed;
    var d' := if Suppressed(d, MemberKey(kind, g, u), now) then d else Remember(d, kind, g, u, now);
    assert (steps + [step])[..|steps|] == steps;
    forall v
      ensures RemembersUser(d', g, start, v, LastKind(steps + [step], g, v))
    {
      var last := LastKind(steps, g, v);
      assert RemembersUser(d, g, start, v, last);
      forall k
        ensures if LastKind(steps + [step], g, v) == Some(k)
                then MemberKey(k, g, v) in d' && d'[MemberKey(k, g, v)] >= start + 60
                else MemberKey(k, g, v) in d' ==> d'[MemberKey(k, g, v)] <= start
      {
        SuppressedIff(d, g, start, now, u, LastKind(steps, g, u), kind);
        RememberedKey(d, kind, g, u, now, k, g, v);
      }
    }
  }

  // ---------------------------------------------------------------------------------------------------------
  // One step

  /** The count is the initial one moved by every user's delta, in 32 bits; the keys remember the last deliveries. */
  ghost predicate Counted(w: World, g: GuildID, start: int, initial: int, steps: seq<Step>, us: seq<UserID>) {
    && g in w.tables.guilds
    && w.tables.guilds[g].memberCount == Wrap32(initial + Total(steps, g, us))
    && Remembers(w.dedupe, g, start, steps)
  }

  /**
   An event that rewrites its whole guild without setting another count: a change of stickers, an update without a count
   for a guild that can be read, or a payload with the count the guild has anyway.
   */
  predicate KeepsCount(t: Tables, event: Event) {
    match event
    case GuildStickersUpdate(_, _) => true
    case GuildCreate(guild) => guild.id in t.guilds && guild.memberCount == t.guilds[guild.id].memberCount
    case GuildUpdate(guild) =>
      guild.id in t.guilds
      && (guild.memberCount == t.guilds[guild.id].memberCount || (guild.memberCount == 0 && Readable(t, guild.id)))
    case _ => false
  }

  /**
   A step of the window: adds and removes of guild `g` come within 60 seconds of `start`, no event sets its count, and a
   sweep finds some group holding it. Steps about other guilds are free.
   */
  ghost predicate Calm(w: World, step: Step, g: GuildID, start: int) {
    match step
    case Deliver(d) =>
      EventGuild(d.event) == Some(g) ==>
        IsTableEvent(d.event) || KeepsCount(w.tables, d.event)
        || ((d.event.GuildMemberAdd? || d.event.GuildMemberRemove?) && start <= d.now < start + 60)
    case SweepAt(now) => now < start + 60 && g in HeldGuilds(w.groups)
    case _ => true
  }

  lemma WrapTwice(n: int, delta: int)
    ensures Wrap32(Wrap32(n) + delta) == Wrap32(n + delta)
  {
  }

  ghost predicate Distinct(us: seq<UserID>) {
    forall i, j :: 0 <= i < j < |us| ==> us[i] != us[j]
  }

  /** What a handled add or remove leaves for guild `g`: the count moved unless suppressed, the key remembered. */
  ghost predicate Moved(w: World, w': World, g: GuildID, kind: Kind, u: UserID, now: int) {
    && g in w.tables.guilds && g in w'.tables.guilds
    && if Suppressed(w.dedupe, MemberKey(kind, g, u), now)
       then w'.dedupe == w.dedupe && w'.tables.guilds[g].memberCount == w.tables.guilds[g].memberCount
       else && w'.dedupe == Remember(w.dedupe, kind, g, u, now)
            && w'.tables.guilds[g].memberCount
               == Wrap32(w.tables.guilds[g].memberCount + (if kind.Add? then 1 else -1))
  }

  lemma AddMoves(w: World, d: Delivery, g: GuildID, member: GuildMember)
    requires d.group in w.groups && d.event == GuildMemberAdd(member) && g in w.tables.guilds
    requires member.guildID == Some(g) && HasUser(member)
    ensures Moved(w, Apply(w, d, None), g, Add, member.user.value.id, d.now)
  {
    hide SetGuildMember, Remember, MemberKey, Suppressed, Wrap32;
    SetGuildMemberKeepsGuilds(CountMember(w.tables, g, 1), d.policy, g, member);
  }

  lemma RemoveMoves(w: World, d: Delivery, g: GuildID, user: User)
    requires d.group in w.groups && d.event == GuildMemberRemove(g, user) && g in w.tables.guilds
    ensures Moved(w, Apply(w, d, None), g, Remove, user.id, d.now)
  {
    hide Remember, MemberKey, Suppressed, Wrap32;
  }

  lemma MoveCounts(
    w: World, w': World, g: GuildID, start: int, initial: int, steps: seq<Step>, us: seq<UserID>, step: Step,
    kind: Kind, u: UserID, now: int)
    requires Counted(w, g, start, initial, steps, us) && 0 <= start <= now < start + 60
    requires KindFor(step, g, u) == Some(kind) && forall v :: v != u ==> KindFor(step, g, v) == None
    requires Moved(w, w', g, kind, u, now) && Distinct(us) && u in us
    ensures Counted(w', g, start, initial, steps + [step], us)
  {
    hide MemberKey, Remember, KindFor, Suppressed, Wrap32;
    RememberNext(w.dedupe, g, start, now, steps, step, kind, u);
    TotalMoves(steps, step, g, us, u);
    var last := LastKind(steps, g, u);
    assert RemembersUser(w.dedupe, g, start, u, last);
    SuppressedIff(w.dedupe, g, start, now, u, last, kind);
    WrapTwice(initial + Total(steps, g, us), Move(last, Some(kind)));
  }

  lemma QuietCounts(
    w: World, w': World, g: GuildID, start: int, initial: int, steps: seq<Step>, us: seq<UserID>, step: Step)
    requires Counted(w, g, start, initial, steps, us) && Distinct(us)
    requires forall v :: KindFor(step, g, v) == None
    requires g in w'.tables.guilds && w'.tables.guilds[g].memberCount == w.tables.guilds[g].memberCount
    requires Remembers(w'.dedupe, g, start, steps)
    ensures Counted(w', g, start, initial, steps + [step], us)
  {
    hide KindFor, Wrap32, RemembersUser;
    if us != [] {
      TotalMoves(steps, step, g, us, us[0]);
    } else {
      assert Total(steps + [step], g, us) == Total(steps, g, us);
    }
    assert (steps + [step])[..|steps|] == steps;
    forall u
      ensures RemembersUser(w'.dedupe, g, start, u, LastKind(steps + [step], g, u))
    {
      assert LastKind(steps + [step], g, u) == LastKind(steps, g, u);
      assert RemembersUser(w'.dedupe, g, start, u, LastKind(steps, g, u));
    }
  }

  lemma ExpireRemembers(d: DedupeTable, g: GuildID, start: int, steps: seq<Step>, now: int)
    requires Remembers(d, g, start, steps) && now < start + 60
    ensures Remembers(Expire(d, now), g, start, steps)
  {
    hide MemberKey, LastKind;
    forall u
      ensures RemembersUser(Expire(d, now), g, start, u, LastKind(steps, g, u))
    {
      assert RemembersUser(d, g, start, u, LastKind(steps, g, u));
    }
  }

  lemma DeliveryCounts(
    w: World, d: Delivery, read: Option<Guild>, g: GuildID, start: int, initial: int, steps: seq<Step>,
    us: seq<UserID>)
    requires Invariant(w.tables) && d.group in w.groups && Reads(w.tables, d.event, read)
    requires Counted(w, g, start, initial, steps, us) && Distinct(us) && 0 <= start && Calm(w, Deliver(d), g, start)
    requires forall u :: KindFor(Deliver(d), g, u).Some? ==> u in us
    ensures Counted(Apply(w, d, read), g, start, initial, steps + [Deliver(d)], us)
  {
    hide Invariant, Counted, Handle, Suppressed, MemberKey, Moved;
    var w', step := Apply(w, d, read), Deliver(d);
    if EventGuild(d.event) != Some(g) {
      DeliveryElsewhere(w, d, read, g);
      ElsewhereCounts(w, w', g, start, initial, steps, us, step);
    } else if IsTableEvent(d.event) {
      TableEventCounts(w, d, read, g, start, initial, steps, us);
    } else if KeepsCount(w.tables, d.event) {
      RewriteCounts(w, d, read, g, start, initial, steps, us);
    } else {
      match d.event
      case GuildMemberAdd(member) =>
        if HasUser(member) {
          assert KindFor(step, g, member.user.value.id).Some?;
          WasCounted(w, g, start, initial, steps, us);
          AddMoves(w, d, g, member);
          MoveCounts(w, w', g, start, initial, steps, us, step, Add, member.user.value.id, d.now);
        } else {
          PanicCounts(w, d, g, start, initial, steps, us, member);
        }
      case GuildMemberRemove(_, user) =>
        assert KindFor(step, g, user.id).Some?;
        WasCounted(w, g, start, initial, steps, us);
        RemoveMoves(w, d, g, user);
        MoveCounts(w, w', g, start, initial, steps, us, step, Remove, user.id, d.now);
    }
  }

  lemma WasCounted(w: World, g: GuildID, start: int, initial: int, steps: seq<Step>, us: seq<UserID>)
    requires Counted(w, g, start, initial, steps, us)
    ensures g in w.tables.guilds
  {
  }

  lemma ElsewhereCounts(
    w: World, w': World, g: GuildID, start: int, initial: int, steps: seq<Step>, us: seq<UserID>, step: Step)
    requires Counted(w, g, start, initial, steps, us) && Distinct(us) && SameFor(w', w, g)
    requires forall u :: KindFor(step, g, u) == None
    ensures Counted(w', g, start, initial, steps + [step], us)
  {
    hide KindFor, Total, LastKind, MemberKey, Wrap32;
    assert Core(w'.tables.guilds[g]) == Core(w.tables.guilds[g]);
    forall u
      ensures RemembersUser(w'.dedupe, g, start, u, LastKind(steps, g, u))
    {
      assert RemembersUser(w.dedupe, g, start, u, LastKind(steps, g, u));
      assert forall kind :: Find(w'.dedupe, MemberKey(kind, g, u)) == Find(w.dedupe, MemberKey(kind, g, u));
    }
    QuietCounts(w, w', g, start, initial, steps, us, step);
  }

  lemma TableEventCounts(
    w: World, d: Delivery, read: Option<Guild>, g: GuildID, start: int, initial: int, steps: seq<Step>,
    us: seq<UserID>)
    requires Invariant(w.tables) && d.group in w.groups && Reads(w.tables, d.event, read)
    requires Counted(w, g, start, initial, steps, us) && Distinct(us)
    requires EventGuild(d.event) == Some(g) && IsTableEvent(d.event)
    ensures Counted(Apply(w, d, read), g, start, initial, steps + [Deliver(d)], us)
  {
    hide Invariant, Handle, Remembers, Wrap32, Total;
    TableEventKeepsGuilds(w.tables, w.dedupe, w.groups[d.group], d.policy, d.now, d.event, read);
    assert read == None;
    TableEventRest(w.tables, w.dedupe, w.groups[d.group], d.policy, d.now, d.event, g);
    QuietCounts(w, Apply(w, d, read), g, start, initial, steps, us, Deliver(d));
  }

  lemma RewriteKeepsCount(t: Tables, d: DedupeTable, held: set<GuildID>, policy: Policy, now: int, event: Event,
                          read: Option<Guild>, g: GuildID)
    requires Invariant(t) && EventGuild(event) == Some(g) && KeepsCount(t, event) && g in t.guilds
    requires Reads(t, event, read)
    ensures var e := Handle(t, d, held, policy, now, event, read);
            e.dedupe == d && g in e.tables.guilds && e.tables.guilds[g].memberCount == t.guilds[g].memberCount
  {
    hide Invariant, SetGuild, Lists;
    match event
    case GuildCreate(guild) => SetGuildCachesGuild(t, policy, guild);
    case GuildUpdate(guild) =>
      SetGuildCachesGuild(t, policy, MergeUpdate(guild, read));
      if read.Some? { assert Core(read.value) == ReadCore(t.guilds[g]); }
    case GuildStickersUpdate(_, stickers) =>
      if read.Some? {
        SetGuildCachesGuild(t, policy, read.value.(stickers := stickers));
        assert Core(read.value) == ReadCore(t.guilds[g]);
      }
  }

  lemma RewriteCounts(
    w: World, d: Delivery, read: Option<Guild>, g: GuildID, start: int, initial: int, steps: seq<Step>,
    us: seq<UserID>)
    requires Invariant(w.tables) && d.group in w.groups && Reads(w.tables, d.event, read)
    requires Counted(w, g, start, initial, steps, us) && Distinct(us)
    requires EventGuild(d.event) == Some(g) && KeepsCount(w.tables, d.event)
    ensures Counted(Apply(w, d, read), g, start, initial, steps + [Deliver(d)], us)
  {
    hide Invariant, Handle, Remembers, Wrap32, Total, Reads;
    RewriteKeepsCount(w.tables, w.dedupe, w.groups[d.group], d.policy, d.now, d.event, read, g);
    QuietCounts(w, Apply(w, d, read), g, start, initial, steps, us, Deliver(d));
  }

  lemma PanicCounts(
    w: World, d: Delivery, g: GuildID, start: int, initial: int, steps: seq<Step>, us: seq<UserID>,
    member: GuildMember)
    requires Counted(w, g, start, initial, steps, us) && Distinct(us) && d.group in w.groups
    requires d.event == GuildMemberAdd(member) && !HasUser(member)
    ensures Counted(Apply(w, d, None), g, start, initial, steps + [Deliver(d)], us)
  {
    hide Remembers, Wrap32, Total;
    QuietCounts(w, Apply(w, d, None), g, start, initial, steps, us, Deliver(d));
  }

  lemma NextCounts(
    w: World, step: Step, w': World, g: GuildID, start: int, initial: int, steps: seq<Step>, us: seq<UserID>)
    requires Invariant(w.tables) && Next(w, step, w') && 0 <= start
    requires Counted(w, g, start, initial, steps, us) && Distinct(us) && Calm(w, step, g, start)
    requires forall u :: KindFor(step, g, u).Some? ==> u in us
    ensures Counted(w', g, start, initial, steps + [step], us)
  {
    hide Invariant, Apply, Reads, Remembers, Wrap32, Total, Expire, HeldGuilds;
    match step
    case Deliver(d) =>
      var read: Option<Guild> :| Reads(w.tables, d.event, read) && w' == Apply(w, d, read);
      DeliveryCounts(w, d, read, g, start, initial, steps, us);
    case SweepAt(now) =>
      ExpireRemembers(w.dedupe, g, start, steps, now);
      QuietCounts(w, w', g, start, initial, steps, us, step);
    case _ => QuietCounts(w, w', g, start, initial, steps, us, step);
  }

  // ---------------------------------------------------------------------------------------------------------
  // Every run

  lemma {:induction false} NothingCountedYet(g: GuildID, us: seq<UserID>)
    ensures Total([], g, us) == 0
  {
    if us != [] {
      NothingCountedYet(g, us[..|us| - 1]);
    }
  }

  lemma {:induction false} RunCounts(ws: seq<World>, steps: seq<Step>, g: GuildID, start: int, us: seq<UserID>)
    requires IsRun(ws, steps) && Invariant(ws[0].tables) && 0 <= start && Distinct(us)
    requires g in ws[0].tables.guilds && NoLiveKeys(ws[0].dedupe, g, start)
    requires Wrap32(ws[0].tables.guilds[g].memberCount) == ws[0].tables.guilds[g].memberCount
    requires forall i :: 0 <= i < |steps| ==> Calm(ws[i], steps[i], g, start)
    requires forall i, u :: 0 <= i < |steps| && KindFor(steps[i], g, u).Some? ==> u in us
    ensures Counted(ws[|ws| - 1], g, start, ws[0].tables.guilds[g].memberCount, steps, us)
  {
    var initial := ws[0].tables.guilds[g].memberCount;
    if steps == [] {
      NothingCountedYet(g, us);
      NoLiveKeysRemember(ws[0].dedupe, g, start);
    } else {
      hide Invariant, Next, Counted, Calm, NoLiveKeys, Wrap32, KindFor;
      var init, earlier := ws[..|ws| - 1], steps[..|steps| - 1];
      RunDropsLast(ws, steps);
      RunCounts(init, earlier, g, start, us);
      RunKeeps(init, earlier);
      NextCounts(init[|init| - 1], steps[|steps| - 1], ws[|ws| - 1], g, start, initial, earlier, us);
      assert earlier + [steps[|steps| - 1]] == steps;
    }
  }

  lemma NoLiveKeysRemember(d: DedupeTable, g: GuildID, start: int)
    requires NoLiveKeys(d, g, start)
    ensures Remembers(d, g, start, [])
  {
    hide MemberKey;
  }

  /**
   The member count moves by +1 for every user whose first and last deliveries are adds, by -1 for every user whose
   first and last deliveries are removes, and not at all for the others, however often each event is delivered.
   */
  lemma CountMovesByUsers(ws: seq<World>, steps: seq<Step>, g: GuildID, start: int, us: seq<UserID>)
    requires IsRun(ws, steps) && Invariant(ws[0].tables) && 0 <= start && Distinct(us)
    requires g in ws[0].tables.guilds && NoLiveKeys(ws[0].dedupe, g, start)
    requires Wrap32(ws[0].tables.guilds[g].memberCount) == ws[0].tables.guilds[g].memberCount
    requires forall i :: 0 <= i < |steps| ==> Calm(ws[i], steps[i], g, start)
    requires forall i, u :: 0 <= i < |steps| && KindFor(steps[i], g, u).Some? ==> u in us
    ensures g in ws[|ws| - 1].tables.guilds
    ensures ws[|ws| - 1].tables.guilds[g].memberCount
         == Wrap32(ws[0].tables.guilds[g].memberCount + Total(steps, g, us))
  {
    hide Invariant, Next, Calm, NoLiveKeys, KindFor, Remembers, Wrap32, Total;
    RunCounts(ws, steps, g, start, us);
  }

  /** The window is exact: a repeated delivery counts again from 60 seconds after the first on, and not before. */
  lemma RepeatIsSuppressedIff(d: DedupeTable, kind: Kind, g: GuildID, u: UserID, first: int, again: int)
    requires !Suppressed(d, MemberKey(kind, g, u), first) && first >= 0
    ensures Suppressed(Remember(d, kind, g, u, first), MemberKey(kind, g, u), again) <==> again < first + 60
  {
    hide MemberKey;
    RememberedKey(d, kind, g, u, first, kind, g, u);
  }

  // ---------------------------------------------------------------------------------------------------------
  // A removal taken apart

  /** How a step moves the guild's count: an add or a remove that is not suppressed. */
  function NetMove(w: World, step: Step, g: GuildID): int {
    match step
    case Deliver(d) => (
      match d.event
      case GuildMemberAdd(member) =>
        if member.guildID == Some(g) && HasUser(member)
           && !Suppressed(w.dedupe, MemberKey(Add, g, member.user.value.id), d.now) then 1 else 0
      case GuildMemberRemove(o, user) =>
        if o == g && !Suppressed(w.dedupe, MemberKey(Remove, g, user.id), d.now) then -1 else 0
      case _ => 0)
    case _ => 0
  }

  function Net(ws: seq<World>, steps: seq<Step>, g: GuildID): int
    requires |ws| == |steps| + 1
  {
    if steps == [] then 0
    else Net(ws[..|ws| - 1], steps[..|steps| - 1], g) + NetMove(ws[|ws| - 2], steps[|steps| - 1], g)
  }

  /** No event of the guild sets another count, and a sweep finds some group holding it. */
  ghost predicate Countable(w: World, step: Step, g: GuildID) {
    match step
    case Deliver(d) =>
      EventGuild(d.event) == Some(g) ==>
        IsTableEvent(d.event) || KeepsCount(w.tables, d.event) || d.event.GuildMemberAdd? || d.event.GuildMemberRemove?
    case SweepAt(_) => g in HeldGuilds(w.groups)
    case _ => true
  }

  ghost predicate CountIs(w: World, g: GuildID, count: int) {
    g in w.tables.guilds && w.tables.guilds[g].memberCount == count
  }

  lemma DeliveryNets(w: World, d: Delivery, read: Option<Guild>, g: GuildID, count: int)
    requires Invariant(w.tables) && d.group in w.groups && Reads(w.tables, d.event, read)
    requires CountIs(w, g, count) && Wrap32(count) == count && Countable(w, Deliver(d), g)
    ensures CountIs(Apply(w, d, read), g, Wrap32(count + NetMove(w, Deliver(d), g)))
  {
    hide Invariant, Handle, Suppressed, MemberKey, Reads, Wrap32;
    var t, held := w.tables, w.groups[d.group];
    if EventGuild(d.event) != Some(g) {
      DeliveryElsewhere(w, d, read, g);
      SameCoreSameCount(w, Apply(w, d, read), g);
    } else if IsTableEvent(d.event) {
      TableEventKeepsGuilds(t, w.dedupe, held, d.policy, d.now, d.event, read);
    } else if KeepsCount(t, d.event) {
      RewriteKeepsCount(t, w.dedupe, held, d.policy, d.now, d.event, read, g);
    } else {
      NothingIsRead(t, d.event, read);
      match d.event
      case GuildMemberAdd(member) =>
        if HasUser(member) { AddMoves(w, d, g, member); } else { PanicMovesNothing(w, d, member); }
      case GuildMemberRemove(_, user) => RemoveMoves(w, d, g, user);
    }
  }

  lemma SameCoreSameCount(w: World, w': World, g: GuildID)
    requires SameFor(w', w, g) && g in w.tables.guilds
    ensures g in w'.tables.guilds && w'.tables.guilds[g].memberCount == w.tables.guilds[g].memberCount
  {
    assert Core(w'.tables.guilds[g]) == Core(w.tables.guilds[g]);
  }

  lemma NothingIsRead(t: Tables, event: Event, read: Option<Guild>)
    requires Reads(t, event, read) && (event.GuildMemberAdd? || event.GuildMemberRemove?)
    ensures read == None
  {
  }

  lemma PanicMovesNothing(w: World, d: Delivery, member: GuildMember)
    requires d.group in w.groups && d.event == GuildMemberAdd(member) && !HasUser(member)
    ensures Apply(w, d, None).tables == w.tables
  {
  }

  lemma NextNets(w: World, step: Step, w': World, g: GuildID, count: int)
    requires Invariant(w.tables) && Next(w, step, w') && Countable(w, step, g)
    requires CountIs(w, g, count) && Wrap32(count) == count
    ensures CountIs(w', g, Wrap32(count + NetMove(w, step, g)))
  {
    hide Invariant, Apply, Reads, Wrap32, Expire, HeldGuilds;
    match step
    case Deliver(d) =>
      var read: Option<Guild> :| Reads(w.tables, d.event, read) && w' == Apply(w, d, read);
      DeliveryNets(w, d, read, g, count);
    case _ =>
  }

  ghost predicate AllCountable(ws: seq<World>, steps: seq<Step>, g: GuildID) {
    |ws| == |steps| + 1 && forall i :: 0 <= i < |steps| ==> Countable(ws[i], steps[i], g)
  }

  lemma {:induction false} RunNets(ws: seq<World>, steps: seq<Step>, g: GuildID, count: int)
    requires IsRun(ws, steps) && AllCountable(ws, steps, g) && Invariant(ws[0].tables)
    requires CountIs(ws[0], g, count) && Wrap32(count) == count
    ensures CountIs(ws[|ws| - 1], g, Wrap32(count + Net(ws, steps, g)))
  {
    hide Invariant, Next, Countable, NetMove, Wrap32, CountIs;
    if steps != [] {
      var init, earlier := ws[..|ws| - 1], steps[..|steps| - 1];
      RunDropsLast(ws, steps);
      assert AllCountable(init, earlier, g) && Countable(ws[|ws| - 2], steps[|steps| - 1], g);
      hide IsRun, AllCountable;
      RunNets(init, earlier, g, count);
      RunKeeps(init, earlier);
      LastNets(ws[|ws| - 2], steps[|steps| - 1], ws[|ws| - 1], g, count, Net(init, earlier, g));
    }
  }

  lemma LastNets(w: World, step: Step, w': World, g: GuildID, count: int, net: int)
    requires Invariant(w.tables) && Next(w, step, w') && Countable(w, step, g)
    requires CountIs(w, g, Wrap32(count + net))
    ensures CountIs(w', g, Wrap32(count + (net + NetMove(w, step, g))))
  {
    hide Invariant, Next, Countable, NetMove, CountIs;
    NextNets(w, step, w', g, Wrap32(count + net));
    WrapTwice(count + net, NetMove(w, step, g));
  }

  /** The second half of a removal: the entry loaded earlier is written back, its count lowered, if still present. */
  function WriteBack(w: World, g: GuildID, loaded: Guild): World {
    if g !in w.tables.guilds then w
    else
      var guild := loaded.(memberCount := Wrap32(loaded.memberCount - 1));
      w.(tables := w.tables.(guilds := w.tables.guilds[g := guild]))
  }

  /** The count after a removal's write is one below the count before it. */
  ghost predicate LowersByOne(w: World, g: GuildID, loaded: Guild) {
    g in w.tables.guilds && CountIs(WriteBack(w, g, loaded), g, Wrap32(w.tables.guilds[g].memberCount - 1))
  }

  /**
   A removal loads the guild and later writes the whole entry back. With any run of deliveries, sweeps and group changes
   in between, the write lowers the count by one exactly when the adds and removes counted in that run cancel out.
   */
  lemma SplitRemovalIsRightIff(ws: seq<World>, steps: seq<Step>, g: GuildID)
    requires IsRun(ws, steps) && AllCountable(ws, steps, g) && Invariant(ws[0].tables) && g in ws[0].tables.guilds
    requires Wrap32(ws[0].tables.guilds[g].memberCount) == ws[0].tables.guilds[g].memberCount
    ensures LowersByOne(ws[|ws| - 1], g, ws[0].tables.guilds[g]) <==> Wrap32(Net(ws, steps, g)) == 0
  {
    hide Invariant, Next, Countable, Net, Wrap32;
    var count := ws[0].tables.guilds[g].memberCount;
    RunNets(ws, steps, g, count);
    WrapTwice(count + Net(ws, steps, g), -1);
    WrapsApart(count - 1, Net(ws, steps, g));
  }

  lemma WrapsApart(n: int, k: int)
    ensures Wrap32(n) == Wrap32(n + k) <==> Wrap32(k) == 0
  {
  }

  /** An add that is counted in between is lost. */
  lemma AddInBetweenIsLost(w: World, d: Delivery, g: GuildID, member: GuildMember)
    requires d.group in w.groups && d.event == GuildMemberAdd(member) && g in w.tables.guilds
    requires member.guildID == Some(g) && HasUser(member)
    requires !Suppressed(w.dedupe, MemberKey(Add, g, member.user.value.id), d.now)
    ensures !LowersByOne(Apply(w, d, None), g, w.tables.guilds[g])
  {
    hide Suppressed, MemberKey, Remember, SetGuildMember;
    AddMoves(w, d, g, member);
    var count := w.tables.guilds[g].memberCount;
    WrapTwice(count + 1, -1);
    WrapsApart(count - 1, 1);
  }
}
