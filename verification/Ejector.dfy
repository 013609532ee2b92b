/** The cache ejector against the shard groups: a guild some group holds stays cached through every run. */
module Ejector {
  import opened Wrappers
  import opened Discord
  import opened Tables
  import opened Dedupe
  import opened Events
  import opened GuildLaws
  import opened Locality
  import opened Invariants
  import opened Runs
  import opened Confluence
  import R = Rows

  lemma {:induction false} VoiceStatesKeepGuilds(t: Tables, policy: Policy, g: GuildID, states: seq<VoiceState>)
    requires Invariant(t)
    ensures UpdateVoiceStates(t, policy, g, states).tables.guilds == t.guilds
  {
    if states != [] {
      hide UpdateVoiceState, Invariant;
      var init := states[..|states| - 1];
      VoiceStatesKeepGuilds(t, policy, g, init);
      UpdateVoiceStatesKeeps(t, policy, g, init);
      VoiceStateKeepsGuilds(UpdateVoiceStates(t, policy, g, init).tables, policy,
                            states[|states| - 1].(guildID := Some(g)), g);
    }
  }

  lemma VoiceStateKeepsGuilds(t: Tables, policy: Policy, state: VoiceState, g: GuildID)
    requires Invariant(t) && state.guildID == Some(g)
    ensures UpdateVoiceState(t, policy, state).tables.guilds == t.guilds
  {
    hide UpdateVoiceState;
    UpdateVoiceStateIs(t, policy, state, g);
  }

  lemma EntryAndRolesKeep(t: Tables, guild: Guild, roles: seq<Role>)
    requires Invariant(t) && forall i :: 0 <= i < |roles| ==> HasId(roles[i])
    ensures var t0 := t.(guilds := t.guilds[guild.id := guild]);
            Invariant(SetGuildRoles(t0, guild.id, roles)) && SetGuildRoles(t0, guild.id, roles).guilds == t0.guilds
  {
    var t0 := t.(guilds := t.guilds[guild.id := guild]);
    SetGuildRolesIs(t0, guild.id, roles);
    StoreAllKeepsRoles(t0.roles, guild.id, roles);
  }

  /** SetGuild caches the guild entry even when it panics half way. */
  lemma SetGuildCachesGuild(t: Tables, policy: Policy, guild: Guild)
    requires Invariant(t)
    ensures SetGuild(t, policy, guild).tables.guilds == t.guilds[guild.id := guild]
  {
    var g := guild.id;
    var t0 := t.(guilds := t.guilds[g := guild]);
    var roles, members := Prefix(guild.roles, HasId), Prefix(Listed(guild.members), HasUser);
    PrefixSplits(guild.roles, HasId);
    PrefixSplits(Listed(guild.members), HasUser);
    EntryAndRolesKeep(t, guild, roles);
    var t1 := SetGuildRoles(t0, g, roles);
    hide Invariant, SetGuildRoles;
    SetGuildChannelsIs(t1, policy, g, Listed(guild.channels));
    SetGuildChannelsKeeps(t1, policy, g, Listed(guild.channels));
    var t2 := SetGuildChannels(t1, policy, g, Listed(guild.channels));
    SetGuildEmojisIs(t2, policy, g, guild.emojis);
    SetGuildEmojisKeeps(t2, policy, g, guild.emojis);
    var t3 := SetGuildEmojis(t2, policy, g, guild.emojis);
    SetGuildMembersIs(t3, policy, g, members);
    SetGuildMembersKeeps(t3, policy, g, members);
    VoiceStatesKeepGuilds(SetGuildMembers(t3, policy, g, members), policy, g, Listed(guild.voiceStates));
  }

  /** A handler never uncaches a guild, and its group only comes to hold guilds it cached. */
  ghost predicate Grows(t: Tables, held: set<GuildID>, e: Effect) {
    t.guilds.Keys <= e.tables.guilds.Keys && forall g :: g in e.held ==> g in held || g in e.tables.guilds
  }

  lemma StoreGuildGrows(
    t: Tables, d: DedupeTable, held: set<GuildID>, policy: Policy, guild: Guild)
    requires Invariant(t)
    ensures Grows(t, held, StoreGuild(t, d, held, policy, guild))
  {
    hide SetGuild, Invariant;
    SetGuildCachesGuild(t, policy, guild);
  }

  lemma ChunkKeepsGuilds(t: Tables, policy: Policy, g: GuildID, members: seq<GuildMember>)
    ensures StoreChunk(t, policy, g, members).tables.guilds == t.guilds
  {
    PrefixSplits(members, HasUser);
    SetGuildMembersIs(t, policy.(cacheUsers := true, cacheMembers := true), g, Prefix(members, HasUser));
  }

  lemma SetGuildChannelKeepsGuilds(t: Tables, policy: Policy, g: GuildID, channel: Channel)
    ensures SetGuildChannel(t, policy, g, channel).guilds == t.guilds
  {
    var stamped := channel.(guildID := Some(g));
    SetUsersOnlyUsers(t.(channels := R.Store(t.channels, g, channel.id, stamped)), policy, channel.recipients);
  }

  lemma ChannelKeepsGuilds(t: Tables, policy: Policy, now: int, channel: Channel)
    ensures CreateChannel(t, policy, now, channel).guilds == t.guilds
    ensures UpdateChannel(t, policy, now, channel).guilds == t.guilds
  {
    hide SetGuildChannel;
    if ChannelGuild(channel).Some? {
      SetGuildChannelKeepsGuilds(t, policy, channel.guildID.value, channel);
    }
  }

  lemma VoiceEventKeepsGuilds(t: Tables, policy: Policy, state: VoiceState)
    requires Invariant(t)
    ensures ChangeVoiceState(t, policy, state).tables.guilds == t.guilds
  {
    hide UpdateVoiceState;
    if state.guildID.Some? && state.guildID.value != 0 {
      VoiceStateKeepsGuilds(t, policy, state, state.guildID.value);
    } else {
      assert R.Lookup(t.voice, 0, state.userID) == None;
    }
  }

  lemma SetGuildMemberKeepsGuilds(t: Tables, policy: Policy, g: GuildID, member: GuildMember)
    requires HasUser(member)
    ensures SetGuildMember(t, policy, g, member).guilds == t.guilds
  {
  }

  lemma CountingGrows(
    t: Tables, d: DedupeTable, held: set<GuildID>, policy: Policy, now: int, member: GuildMember)
    ensures Grows(t, held, AddMember(t, d, held, policy, now, member))
  {
    hide SetGuildMember, Remember, MemberKey;
    if member.guildID.Some? && HasUser(member) {
      SetGuildMemberKeepsGuilds(CountMember(t, member.guildID.value, 1), policy, member.guildID.value, member);
    }
  }

  lemma UncountingGrows(t: Tables, d: DedupeTable, held: set<GuildID>, now: int, g: GuildID, u: UserID)
    ensures Grows(t, held, RemoveMember(t, d, held, now, g, u))
  {
    hide R.Delete, Remember, MemberKey;
  }

  lemma StoreMemberKeepsGuilds(t: Tables, policy: Policy, member: GuildMember)
    ensures StoreMember(t, policy, member).tables.guilds == t.guilds
  {
  }

  lemma RoleKeepsGuilds(t: Tables, g: GuildID, role: Role)
    ensures StoreRole(t, g, role).tables.guilds == t.guilds
  {
    hide R.Store;
  }

  lemma DeleteChannelKeepsGuilds(t: Tables, channel: Channel)
    ensures DeleteChannel(t, channel).guilds == t.guilds
  {
    hide R.Delete;
    if ChannelGuild(channel).Some? {
      var g := channel.guildID.value;
      assert DeleteChannel(t, channel) == t.(channels := R.Delete(t.channels, g, channel.id));
    } else if IsDM(channel) {
      assert DeleteChannel(t, channel) == t.(dms := t.dms - {channel.id});
    } else {
      assert DeleteChannel(t, channel) == t;
    }
  }

  lemma PinKeepsGuilds(t: Tables, g: GuildID, c: ChannelID, timestamp: string)
    ensures PinChannel(t, g, c, timestamp).guilds == t.guilds
  {
    hide R.Update, Pin;
    if g != 0 {
      assert PinChannel(t, g, c, timestamp) == t.(channels := R.Update(t.channels, g, c, Pin(timestamp)));
    } else if c in t.dms {
      var pinned := t.dms[c].(channel := Pin(timestamp)(t.dms[c].channel));
      assert PinChannel(t, g, c, timestamp) == t.(dms := t.dms[c := pinned]);
    } else {
      assert PinChannel(t, g, c, timestamp) == t;
    }
  }

  /** Events that touch no dedupe key and rewrite no whole guild leave every guild entry as it is. */
  lemma TableEventKeepsGuilds(
    t: Tables, d: DedupeTable, held: set<GuildID>, policy: Policy, now: int, event: Event, read: Option<Guild>)
    requires Invariant(t) && IsTableEvent(event)
    ensures Handle(t, d, held, policy, now, event, read).tables.guilds == t.guilds
  {
    hide Invariant, StoreChunk, StoreMember, CreateChannel, UpdateChannel, ChangeVoiceState, R.Store, R.Delete,
      R.Update, SetGuildEmojis, SetGuild, MergeUpdate, AddMember, RemoveMember, StoreRole, DeleteChannel, PinChannel;
    match event
    case GuildRoleCreate(g, role) => RoleKeepsGuilds(t, g, role);
    case GuildRoleUpdate(g, role) => RoleKeepsGuilds(t, g, role);
    case ChannelDelete(channel) => DeleteChannelKeepsGuilds(t, channel);
    case ChannelPinsUpdate(g, c, timestamp) => PinKeepsGuilds(t, g, c, timestamp);
    case GuildEmojisUpdate(g, emojis) => SetGuildEmojisIs(t.(emojis := t.emojis - {g}), policy, g, emojis);
    case GuildMembersChunk(g, members) => ChunkKeepsGuilds(t, policy, g, members);
    case GuildMemberUpdate(member) => StoreMemberKeepsGuilds(t, policy, member);
    case ChannelCreate(channel) => ChannelKeepsGuilds(t, policy, now, channel);
    case ChannelUpdate(channel) => ChannelKeepsGuilds(t, policy, now, channel);
    case VoiceStateUpdate(state) => VoiceEventKeepsGuilds(t, policy, state);
    case _ =>
  }

  lemma TableEventAddsNoGuild(
    t: Tables, d: DedupeTable, held: set<GuildID>, policy: Policy, now: int, event: Event, read: Option<Guild>)
    requires IsTableEvent(event)
    ensures Handle(t, d, held, policy, now, event, read).held <= held
  {
    hide StoreChunk, StoreMember, StoreRole, CreateChannel, UpdateChannel, DeleteChannel, PinChannel, ChangeVoiceState,
      R.Delete, SetGuildEmojis;
  }

  lemma HandleGrows(
    t: Tables, d: DedupeTable, held: set<GuildID>, policy: Policy, now: int, event: Event, read: Option<Guild>)
    requires Invariant(t)
    ensures Grows(t, held, Handle(t, d, held, policy, now, event, read))
  {
    hide Invariant, StoreGuild, MergeUpdate, AddMember, RemoveMember;
    if IsTableEvent(event) {
      hide Handle, IsTableEvent;
      TableEventKeepsGuilds(t, d, held, policy, now, event, read);
      TableEventAddsNoGuild(t, d, held, policy, now, event, read);
    } else {
      match event
      case GuildCreate(guild) => StoreGuildGrows(t, d, held, policy, guild);
      case GuildUpdate(guild) => StoreGuildGrows(t, d, held, policy, MergeUpdate(guild, read));
      case GuildStickersUpdate(_, stickers) =>
        if read.Some? { StoreGuildGrows(t, d, held, policy, read.value.(stickers := stickers)); }
      case GuildMemberAdd(member) => CountingGrows(t, d, held, policy, now, member);
      case GuildMemberRemove(g, user) => UncountingGrows(t, d, held, now, g, user.id);
    }
  }

  // ---------------------------------------------------------------------------------------------------------
  // Runs

  /** Every guild some group holds is cached. */
  ghost predicate HeldAreCached(w: World) {
    HeldGuilds(w.groups) <= w.tables.guilds.Keys
  }

  lemma NextKeepsHeld(w: World, step: Step, w': World)
    requires Invariant(w.tables) && HeldAreCached(w) && Next(w, step, w')
    ensures HeldAreCached(w')
  {
    hide Invariant, Handle, Reads;
    match step
    case Deliver(d) =>
      var read: Option<Guild> :| Reads(w.tables, d.event, read) && w' == Apply(w, d, read);
      HandleGrows(w.tables, w.dedupe, w.groups[d.group], d.policy, d.now, d.event, read);
      forall g | g in HeldGuilds(w'.groups)
        ensures g in w'.tables.guilds
      {
        var group :| group in w'.groups.Keys && g in w'.groups[group];
        if group != d.group || g in w.groups[d.group] {
          HeldBySome(w.groups, group, g);
        }
      }
    case _ =>
      forall g | g in HeldGuilds(w'.groups)
        ensures g in HeldGuilds(w.groups)
      {
        var group :| group in w'.groups.Keys && g in w'.groups[group];
        HeldBySome(w.groups, group, g);
      }
  }

  /** A rolling restart never drops a guild a group holds: not through any deliveries, closes and sweeps. */
  lemma {:induction false} HeldGuildsStayCached(ws: seq<World>, steps: seq<Step>)
    requires IsRun(ws, steps) && Invariant(ws[0].tables) && HeldAreCached(ws[0])
    ensures HeldAreCached(ws[|ws| - 1])
  {
    hide Invariant, Next, HeldAreCached;
    if steps != [] {
      var init := ws[..|ws| - 1];
      RunDropsLast(ws, steps);
      HeldGuildsStayCached(init, steps[..|steps| - 1]);
      RunKeeps(init, steps[..|steps| - 1]);
      NextKeepsHeld(init[|init| - 1], steps[|steps| - 1], ws[|ws| - 1]);
    }
  }

  /**
   Right after a sweep the cached guilds are exactly the held ones. What an ejected guild leaves behind is its voice
   row; a kept guild keeps everything.
   */
  lemma SweepIsExact(w: World, now: int, g: GuildID)
    requires HeldAreCached(w)
    ensures Sweep(w, now).tables.guilds.Keys == HeldGuilds(w.groups)
    ensures HeldAreCached(Sweep(w, now))
    ensures LocalOf(Sweep(w, now).tables, g)
         == if g in HeldGuilds(w.groups) || g !in w.tables.guilds then LocalOf(w.tables, g)
            else Local(None, None, None, None, None, Find(w.tables.voice, g))
    ensures Sweep(w, now).groups == w.groups && Sweep(w, now).tables.users == w.tables.users
    ensures Sweep(w, now).tables.dms == w.tables.dms
    ensures forall key :: Find(Sweep(w, now).dedupe, key)
                          == if key in w.dedupe && now <= w.dedupe[key] then Some(w.dedupe[key]) else None
  {
    hide HeldGuilds, Core;
    var kept := HeldGuilds(w.groups);
    assert Sweep(w, now).tables.guilds.Keys == kept;
  }

  // ---------------------------------------------------------------------------------------------------------
  // The sweep taken apart

  ghost predicate Holds(w: World, group: GroupID, g: GuildID) {
    group in w.groups && g in w.groups[group]
  }

  /** A delivery that makes the group hold the guild: one whose handler writes the guild. */
  ghost predicate TakesHold(w: World, step: Step, group: GroupID, g: GuildID) {
    && step.Deliver? && step.d.group == group
    && match step.d.event
       case GuildCreate(guild) => guild.id == g
       case GuildUpdate(guild) => guild.id == g
       case GuildStickersUpdate(h, _) => h == g && Readable(w.tables, g)
       case _ => false
  }

  /** A step that makes the group let go of the guild: its deletion, or the end of the group. */
  ghost predicate LetsGo(step: Step, group: GroupID, g: GuildID) {
    match step
    case Deliver(d) => d.group == group && d.event == GuildDelete(g, false)
    case Close(h) => h == group
    case Unregister(h) => h == group
    case _ => false
  }

  /** Some delivery of the run made the group hold the guild, and no later step made it let go. */
  ghost predicate TakenSince(ws: seq<World>, steps: seq<Step>, group: GroupID, g: GuildID)
    requires |ws| == |steps| + 1
  {
    steps != []
    && var last := |steps| - 1;
       TakesHold(ws[last], steps[last], group, g)
       || (TakenSince(ws[..|ws| - 1], steps[..last], group, g) && !LetsGo(steps[last], group, g))
  }

  lemma HandlerHolds(
    t: Tables, d: DedupeTable, held: set<GuildID>, policy: Policy, now: int, event: Event, read: Option<Guild>,
    g: GuildID)
    requires Invariant(t) && Reads(t, event, read)
    ensures g in Handle(t, d, held, policy, now, event, read).held
       <==> (match event
             case GuildCreate(guild) => guild.id == g
             case GuildUpdate(guild) => guild.id == g
             case GuildStickersUpdate(h, _) => h == g && Readable(t, g)
             case _ => false)
            || (g in held && event != GuildDelete(g, false))
  {
    hide Invariant, StoreGuild, StoreChunk, StoreMember, StoreRole, CreateChannel, UpdateChannel, DeleteChannel,
      PinChannel, ChangeVoiceState, SetGuildEmojis, AddMember, RemoveMember, MergeUpdate, R.Delete, ReadsGuild;
    match event
    case GuildCreate(guild) => StoreHolds(t, d, held, policy, guild);
    case GuildUpdate(guild) =>
      MergeKeepsId(guild, read);
      StoreHolds(t, d, held, policy, MergeUpdate(guild, read));
    case GuildStickersUpdate(h, stickers) =>
      ReadHasId(t, h, read);
      if read.Some? { StoreHolds(t, d, held, policy, read.value.(stickers := stickers)); }
    case GuildMemberAdd(member) => AddHoldsSame(t, d, held, policy, now, member);
    case GuildMemberRemove(h, user) => RemoveHoldsSame(t, d, held, now, h, user.id);
    case _ =>
  }

  lemma StoreHolds(t: Tables, d: DedupeTable, held: set<GuildID>, policy: Policy, guild: Guild)
    ensures StoreGuild(t, d, held, policy, guild).held == held + {guild.id}
  {
    hide SetGuild;
  }

  lemma ReadHasId(t: Tables, g: GuildID, read: Option<Guild>)
    requires Invariant(t) && ReadsGuild(t, g, read)
    ensures read.Some? <==> Readable(t, g)
    ensures read.Some? ==> read.value.id == g
  {
    hide Lists;
    if read.Some? {
      assert Core(read.value) == ReadCore(t.guilds[g]);
    }
  }

  lemma MergeKeepsId(update: Guild, read: Option<Guild>)
    ensures MergeUpdate(update, read).id == update.id
  {
  }

  lemma AddHoldsSame(
    t: Tables, d: DedupeTable, held: set<GuildID>, policy: Policy, now: int, member: GuildMember)
    ensures AddMember(t, d, held, policy, now, member).held == held
  {
  }

  lemma RemoveHoldsSame(t: Tables, d: DedupeTable, held: set<GuildID>, now: int, g: GuildID, u: UserID)
    ensures RemoveMember(t, d, held, now, g, u).held == held
  {
  }

  lemma NextHolds(w: World, step: Step, w': World, group: GroupID, g: GuildID)
    requires Invariant(w.tables) && Next(w, step, w')
    ensures Holds(w', group, g) <==> TakesHold(w, step, group, g) || (Holds(w, group, g) && !LetsGo(step, group, g))
  {
    hide Invariant, Handle, Reads;
    match step
    case Deliver(d) =>
      var read: Option<Guild> :| Reads(w.tables, d.event, read) && w' == Apply(w, d, read);
      HandlerHolds(w.tables, w.dedupe, w.groups[d.group], d.policy, d.now, d.event, read, g);
    case _ =>
  }

  lemma {:induction false} RunHolds(ws: seq<World>, steps: seq<Step>, group: GroupID, g: GuildID)
    requires IsRun(ws, steps) && Invariant(ws[0].tables) && !Holds(ws[0], group, g)
    ensures Holds(ws[|ws| - 1], group, g) <==> TakenSince(ws, steps, group, g)
  {
    if steps != [] {
      hide Invariant, Next, Holds, TakesHold, LetsGo;
      var init := ws[..|ws| - 1];
      RunDropsLast(ws, steps);
      RunHolds(init, steps[..|steps| - 1], group, g);
      RunKeeps(init, steps[..|steps| - 1]);
      NextHolds(init[|init| - 1], steps[|steps| - 1], ws[|ws| - 1], group, g);
    }
  }

  /** Removing what was listed and not collected keeps held guilds cached when none of them is removed. */
  lemma EjectionIsSafeIff(removed: World, ejected: set<GuildID>)
    requires HeldAreCached(removed)
    ensures HeldAreCached(removed.(tables := Without(removed.tables, ejected)))
       <==> forall g :: g in ejected ==> g !in HeldGuilds(removed.groups)
  {
    hide HeldGuilds;
    var kept := Without(removed.tables, ejected).guilds.Keys;
    assert kept == removed.tables.guilds.Keys - ejected;
    if HeldGuilds(removed.groups) <= kept {
      forall g | g in ejected
        ensures g !in HeldGuilds(removed.groups)
      {
        assert g !in kept;
      }
    }
    if forall g :: g in ejected ==> g !in HeldGuilds(removed.groups) {
      forall g | g in HeldGuilds(removed.groups)
        ensures g in kept
      {
        assert g in removed.tables.guilds.Keys;
      }
    }
  }

  /**
   The ejector first collects the held guilds, then lists the cached ones, then removes those it did not collect. With a
   run of other steps in between, the sweep drops no held guild exactly when no listed and uncollected guild was taken
   hold of in that run, before or after the listing, and kept.
   */
  lemma SplitSweepIsSafeIff(ws: seq<World>, steps: seq<Step>, i: nat)
    requires IsRun(ws, steps) && i <= |steps| && Invariant(ws[0].tables) && HeldAreCached(ws[0])
    ensures var removed := ws[|ws| - 1];
            var ejected := ws[i].tables.guilds.Keys - HeldGuilds(ws[0].groups);
            HeldAreCached(removed.(tables := Without(removed.tables, ejected)))
            <==> forall group, g :: g in ejected ==> !TakenSince(ws, steps, group, g)
  {
    hide Invariant, Next, HeldAreCached, TakenSince, HeldGuilds;
    var removed := ws[|ws| - 1];
    var ejected := ws[i].tables.guilds.Keys - HeldGuilds(ws[0].groups);
    HeldGuildsStayCached(ws, steps);
    EjectionIsSafeIff(removed, ejected);
    if forall g :: g in ejected ==> g !in HeldGuilds(removed.groups) {
      forall group, g | g in ejected
        ensures !TakenSince(ws, steps, group, g)
      {
        TakenIsHeld(ws, steps, group, g);
      }
    } else {
      var g :| g in ejected && g in HeldGuilds(removed.groups);
      HeldIsSomeHolds(removed, g);
      var group :| Holds(removed, group, g);
      TakenIsHeld(ws, steps, group, g);
      assert TakenSince(ws, steps, group, g);
    }
  }

  lemma TakenIsHeld(ws: seq<World>, steps: seq<Step>, group: GroupID, g: GuildID)
    requires IsRun(ws, steps) && Invariant(ws[0].tables) && g !in HeldGuilds(ws[0].groups)
    ensures Holds(ws[|ws| - 1], group, g) <==> TakenSince(ws, steps, group, g)
    ensures TakenSince(ws, steps, group, g) ==> g in HeldGuilds(ws[|ws| - 1].groups)
  {
    hide Invariant, Next, TakenSince, HeldGuilds;
    HoldersHold(ws[0], group, g);
    RunHolds(ws, steps, group, g);
    HoldersHold(ws[|ws| - 1], group, g);
  }

  lemma HoldersHold(w: World, group: GroupID, g: GuildID)
    ensures Holds(w, group, g) ==> g in HeldGuilds(w.groups)
  {
    if Holds(w, group, g) {
      HeldBySome(w.groups, group, g);
    }
  }

  lemma HeldIsSomeHolds(w: World, g: GuildID)
    ensures g in HeldGuilds(w.groups) <==> exists group :: Holds(w, group, g)
  {
    if g in HeldGuilds(w.groups) {
      var group :| group in w.groups.Keys && g in w.groups[group];
      assert Holds(w, group, g);
    }
    if group :| Holds(w, group, g) {
      HeldBySome(w.groups, group, g);
    }
  }

  /** A GUILD_CREATE that arrives after the collection and before the listing is ejected although its group holds it. */
  lemma LateGuildIsEjected(w: World, d: Delivery, guild: Guild)
    requires Invariant(w.tables) && d.group in w.groups && d.event == GuildCreate(guild)
    requires guild.id !in HeldGuilds(w.groups)
    ensures var later := Apply(w, d, None);
            var ejected := later.tables.guilds.Keys - HeldGuilds(w.groups);
            && guild.id in HeldGuilds(later.groups)
            && guild.id !in Without(later.tables, ejected).guilds
  {
    hide SetGuild, Invariant;
    SetGuildCachesGuild(w.tables, d.policy, guild);
    HeldBySome(Apply(w, d, None).groups, d.group, guild.id);
  }
}
