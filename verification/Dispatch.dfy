/** The handlers in the source's own form: they change the shared state, the dedupe keys and their group's guilds. */
module Dispatch {
  import opened Wrappers
  import opened Discord
  import opened Tables
  import opened Dedupe
  import opened Events
  import opened Csmap
  import opened ShardGroups
  import S = State
  import T = Tables

  /** The context of one delivery: its shard group, the caching configuration, and the time. */
  datatype StateCtx = StateCtx(group: ShardGroup, policy: Policy, now: int)

  class Sandwich {
    const state: S.SandwichState
    var dedupe: DedupeTable

    constructor (state: S.SandwichState)
      ensures this.state == state && dedupe == map[]
    {
      this.state := state;
      dedupe := map[];
    }

    ghost predicate Valid()
      reads this, state, state.Repr, state.guilds, state.guildMembers, state.guildChannels, state.guildRoles
      reads state.guildEmojis, state.users, state.dmChannels, state.guildVoiceStates
    {
      state.Valid() && this !in state.Repr
    }

    ghost predicate Ready(ctx: StateCtx)
      reads this, state, state.Repr, state.guilds, state.guildMembers, state.guildChannels, state.guildRoles
      reads state.guildEmojis, state.users, state.dmChannels, state.guildVoiceStates
    {
      Valid() && ctx.group !in state.Repr
    }

    // -------------------------------------------------------------------------------------------------------
    // Dedupe

    /** True when the event must be ignored; otherwise the key is set. */
    method CheckAndAddDedupe(key: string, now: int) returns (suppressed: bool)
      modifies this`dedupe
      ensures suppressed == Suppressed(old(dedupe), key, now)
      ensures dedupe == CheckAndAdd(old(dedupe), key, now)
    {
      var found := Find(dedupe, key);
      var value := if found == None then 0 else found.value;
      var has := now < value && value != 0;
      if !has || found == None {
        dedupe := dedupe[key := now + MEMBER_DEDUPE_EXPIRATION];
      }
      suppressed := has && found != None;
    }

    method RemoveDedupe(key: string)
      modifies this`dedupe
      ensures dedupe == old(dedupe) - {key}
    {
      dedupe := dedupe - {key};
    }

    // -------------------------------------------------------------------------------------------------------
    // Guild handlers

    /** SetGuild with its first line: the group holds the guild from then on. */
    method SetGuild(ctx: StateCtx, guild: Guild) returns (panicked: bool)
      requires Ready(ctx)
      modifies state.Repr, ctx.group
      ensures fresh(state.Repr - old(state.Repr))
      ensures Ready(ctx)
      ensures Effect(state.view, dedupe, ctx.group.guilds, !panicked, panicked)
           == StoreGuild(old(state.view), dedupe, old(ctx.group.guilds), ctx.policy, guild)
    {
      hide S.SandwichState.Valid;
      ctx.group.guilds := ctx.group.guilds + {guild.id};
      panicked := state.SetGuild(ctx.policy, guild);
    }

    method OnGuildCreate(ctx: StateCtx, guild: Guild) returns (published: bool, panicked: bool)
      requires Ready(ctx)
      modifies state.Repr, this`dedupe, ctx.group
      ensures fresh(state.Repr - old(state.Repr))
      ensures Ready(ctx)
      ensures Effect(state.view, dedupe, ctx.group.guilds, published, panicked)
           == Handle(old(state.view), old(dedupe), old(ctx.group.guilds), ctx.policy, ctx.now,
                     GuildCreate(guild), None)
    {
      hide S.SandwichState.Valid;
      panicked := SetGuild(ctx, guild);
      published := !panicked;
    }

    method OnGuildUpdate(ctx: StateCtx, payload: Guild)
      returns (published: bool, panicked: bool, ghost read: Option<Guild>)
      requires Ready(ctx)
      modifies state.Repr, this`dedupe, ctx.group
      ensures fresh(state.Repr - old(state.Repr))
      ensures Ready(ctx)
      ensures Reads(old(state.view), GuildUpdate(payload), read)
      ensures Effect(state.view, dedupe, ctx.group.guilds, published, panicked)
           == Handle(old(state.view), old(dedupe), old(ctx.group.guilds), ctx.policy, ctx.now,
                     GuildUpdate(payload), read)
    {
      hide S.SandwichState.Valid;
      var guild := payload;
      var before := state.GetGuild(guild.id);
      read := before;
      if before != None {
        var b := before.value;
        if guild.stageInstances == None {
          guild := guild.(stageInstances := b.stageInstances);
        }
        if guild.channels == None {
          guild := guild.(channels := b.channels);
        }
        if guild.members == None {
          guild := guild.(members := b.members);
        }
        if guild.voiceStates == None {
          guild := guild.(voiceStates := b.voiceStates);
        }
        if guild.memberCount == 0 {
          guild := guild.(memberCount := b.memberCount);
        }
        guild := guild.(large := b.large, joinedAt := b.joinedAt);
      }
      assert guild == MergeUpdate(payload, before);
      panicked := SetGuild(ctx, guild);
      published := !panicked;
    }

    /** The guild itself stays cached: other groups may hold it. Only this group lets go of it. */
    method OnGuildDelete(ctx: StateCtx, g: GuildID, unavailable: bool) returns (published: bool, panicked: bool)
      requires Ready(ctx)
      modifies state.Repr, this`dedupe, ctx.group
      ensures fresh(state.Repr - old(state.Repr))
      ensures Ready(ctx)
      ensures Effect(state.view, dedupe, ctx.group.guilds, published, panicked)
           == Handle(old(state.view), old(dedupe), old(ctx.group.guilds), ctx.policy, ctx.now,
                     GuildDelete(g, unavailable), None)
    {
      hide S.SandwichState.Valid;
      if !unavailable {
        ctx.group.guilds := ctx.group.guilds - {g};
      }
      published, panicked := true, false;
    }

    method OnGuildEmojisUpdate(ctx: StateCtx, g: GuildID, emojis: seq<Emoji>) returns (published: bool, panicked: bool)
      requires Ready(ctx)
      modifies state.Repr, this`dedupe, ctx.group
      ensures fresh(state.Repr - old(state.Repr))
      ensures Ready(ctx)
      ensures Effect(state.view, dedupe, ctx.group.guilds, published, panicked)
           == Handle(old(state.view), old(dedupe), old(ctx.group.guilds), ctx.policy, ctx.now,
                     GuildEmojisUpdate(g, emojis), None)
    {
      hide S.SandwichState.Valid;
      state.RemoveAllGuildEmojis(g);
      state.SetGuildEmojis(ctx.policy, g, emojis);
      published, panicked := true, false;
    }

    method OnGuildStickersUpdate(ctx: StateCtx, g: GuildID, stickers: seq<string>)
      returns (published: bool, panicked: bool, ghost read: Option<Guild>)
      requires Ready(ctx)
      modifies state.Repr, this`dedupe, ctx.group
      ensures fresh(state.Repr - old(state.Repr))
      ensures Ready(ctx)
      ensures Reads(old(state.view), GuildStickersUpdate(g, stickers), read)
      ensures Effect(state.view, dedupe, ctx.group.guilds, published, panicked)
           == Handle(old(state.view), old(dedupe), old(ctx.group.guilds), ctx.policy, ctx.now,
                     GuildStickersUpdate(g, stickers), read)
    {
      hide S.SandwichState.Valid;
      var before := state.GetGuild(g);
      read := before;
      panicked := false;
      if before != None {
        panicked := SetGuild(ctx, before.value.(stickers := stickers));
      }
      published := !panicked;
    }

    // -------------------------------------------------------------------------------------------------------
    // Member handlers

    /** Caching of users and members is forced on, whatever the configuration says. */
    method OnGuildMembersChunk(ctx: StateCtx, g: GuildID, members: seq<GuildMember>)
      returns (published: bool, panicked: bool)
      requires Ready(ctx)
      modifies state.Repr, this`dedupe, ctx.group
      ensures fresh(state.Repr - old(state.Repr))
      ensures Ready(ctx)
      ensures Effect(state.view, dedupe, ctx.group.guilds, published, panicked)
           == Handle(old(state.view), old(dedupe), old(ctx.group.guilds), ctx.policy, ctx.now,
                     GuildMembersChunk(g, members), None)
    {
      hide S.SandwichState.Valid;
      PrefixSplits(members, HasUser);
      panicked := state.SetGuildMembers(ctx.policy.(cacheUsers := true, cacheMembers := true), g, members);
      published := !panicked;
    }

    method OnGuildMemberAdd(ctx: StateCtx, member: GuildMember) returns (published: bool, panicked: bool)
      requires Ready(ctx)
      modifies state.Repr, this`dedupe, ctx.group
      ensures fresh(state.Repr - old(state.Repr))
      ensures Ready(ctx)
      ensures Effect(state.view, dedupe, ctx.group.guilds, published, panicked)
           == Handle(old(state.view), old(dedupe), old(ctx.group.guilds), ctx.policy, ctx.now,
                     GuildMemberAdd(member), None)
    {
      hide S.SandwichState.Valid, MemberKey, Suppressed, SetGuildMember;
      if member.guildID == None || member.user == None {
        return false, true;
      }
      var g, u := member.guildID.value, member.user.value.id;
      var suppressed := CheckAndAddDedupe(MemberKey(Add, g, u), ctx.now);
      if suppressed {
        return false, false;
      }
      RemoveDedupe(MemberKey(Remove, g, u));
      state.UpdateGuild(g, (guild: Guild) => guild.(memberCount := Wrap32(guild.memberCount + 1)));
      panicked := state.SetGuildMember(ctx.policy, g, member);
      published := true;
    }

    method OnGuildMemberRemove(ctx: StateCtx, g: GuildID, user: User) returns (published: bool, panicked: bool)
      requires Ready(ctx)
      modifies state.Repr, this`dedupe, ctx.group
      ensures fresh(state.Repr - old(state.Repr))
      ensures Ready(ctx)
      ensures Effect(state.view, dedupe, ctx.group.guilds, published, panicked)
           == Handle(old(state.view), old(dedupe), old(ctx.group.guilds), ctx.policy, ctx.now,
                     GuildMemberRemove(g, user), None)
    {
      hide S.SandwichState.Valid;
      var suppressed := CheckAndAddDedupe(MemberKey(Remove, g, user.id), ctx.now);
      if suppressed {
        return false, false;
      }
      RemoveDedupe(MemberKey(Add, g, user.id));
      var guild := state.LoadGuild(g);
      if guild != None {
        state.SetGuildIfPresent(g, guild.value.(memberCount := Wrap32(guild.value.memberCount - 1)));
      }
      state.RemoveGuildMember(g, user.id);
      published, panicked := true, false;
    }

    method OnGuildMemberUpdate(ctx: StateCtx, member: GuildMember) returns (published: bool, panicked: bool)
      requires Ready(ctx)
      modifies state.Repr, this`dedupe, ctx.group
      ensures fresh(state.Repr - old(state.Repr))
      ensures Ready(ctx)
      ensures Effect(state.view, dedupe, ctx.group.guilds, published, panicked)
           == Handle(old(state.view), old(dedupe), old(ctx.group.guilds), ctx.policy, ctx.now,
                     GuildMemberUpdate(member), None)
    {
      hide S.SandwichState.Valid;
      if member.guildID == None || member.user == None {
        return false, true;
      }
      panicked := state.SetGuildMember(ctx.policy, member.guildID.value, member);
      published := true;
    }

    // -------------------------------------------------------------------------------------------------------
    // Role, channel and voice handlers

    method OnGuildRoleCreate(ctx: StateCtx, g: GuildID, role: Role) returns (published: bool, panicked: bool)
      requires Ready(ctx)
      modifies state.Repr, this`dedupe, ctx.group
      ensures fresh(state.Repr - old(state.Repr))
      ensures Ready(ctx)
      ensures Effect(state.view, dedupe, ctx.group.guilds, published, panicked)
           == Handle(old(state.view), old(dedupe), old(ctx.group.guilds), ctx.policy, ctx.now,
                     GuildRoleCreate(g, role), None)
    {
      hide S.SandwichState.Valid;
      panicked := state.SetGuildRole(g, role);
      published := !panicked;
    }

    method OnGuildRoleUpdate(ctx: StateCtx, g: GuildID, role: Role) returns (published: bool, panicked: bool)
      requires Ready(ctx)
      modifies state.Repr, this`dedupe, ctx.group
      ensures fresh(state.Repr - old(state.Repr))
      ensures Ready(ctx)
      ensures Effect(state.view, dedupe, ctx.group.guilds, published, panicked)
           == Handle(old(state.view), old(dedupe), old(ctx.group.guilds), ctx.policy, ctx.now,
                     GuildRoleUpdate(g, role), None)
    {
      hide S.SandwichState.Valid;
      panicked := state.SetGuildRole(g, role);
      published := !panicked;
    }

    method OnGuildRoleDelete(ctx: StateCtx, g: GuildID, role: RoleID) returns (published: bool, panicked: bool)
      requires Ready(ctx)
      modifies state.Repr, this`dedupe, ctx.group
      ensures fresh(state.Repr - old(state.Repr))
      ensures Ready(ctx)
      ensures Effect(state.view, dedupe, ctx.group.guilds, published, panicked)
           == Handle(old(state.view), old(dedupe), old(ctx.group.guilds), ctx.policy, ctx.now,
                     GuildRoleDelete(g, role), None)
    {
      hide S.SandwichState.Valid;
      state.RemoveGuildRole(g, role);
      published, panicked := true, false;
    }

    /** GetDMChannel: finding a live DM channel extends its life. */
    method TouchDM(now: int, c: ChannelID)
      requires Valid()
      modifies state.Repr
      ensures fresh(state.Repr - old(state.Repr))
      ensures Valid()
      ensures state.view == TouchDMChannel(old(state.view), c, now)
    {
      hide S.SandwichState.Valid;
      var found := state.LoadDMChannel(c);
      if found == None || found.value.expiresAt < now {
        return;
      }
      state.StoreDMChannel(c, found.value.(expiresAt := now + DM_EXPIRATION));
    }

    method OnChannelCreate(ctx: StateCtx, channel: Channel) returns (published: bool, panicked: bool)
      requires Ready(ctx)
      modifies state.Repr, this`dedupe, ctx.group
      ensures fresh(state.Repr - old(state.Repr))
      ensures Ready(ctx)
      ensures Effect(state.view, dedupe, ctx.group.guilds, published, panicked)
           == Handle(old(state.view), old(dedupe), old(ctx.group.guilds), ctx.policy, ctx.now,
                     ChannelCreate(channel), None)
    {
      hide S.SandwichState.Valid;
      if channel.guildID != None && channel.guildID.value != 0 {
        state.SetGuildChannel(ctx.policy, channel.guildID.value, channel);
      } else if channel.kind == DmKind || channel.kind == GroupDmKind {
        if |channel.recipients| > 0 {
          state.StoreDMChannel(channel.id,
                               DMChannel(channel, channel.recipients[0].id, ctx.now + DM_EXPIRATION));
        }
      }
      published, panicked := true, false;
    }

    method OnChannelUpdate(ctx: StateCtx, channel: Channel) returns (published: bool, panicked: bool)
      requires Ready(ctx)
      modifies state.Repr, this`dedupe, ctx.group
      ensures fresh(state.Repr - old(state.Repr))
      ensures Ready(ctx)
      ensures Effect(state.view, dedupe, ctx.group.guilds, published, panicked)
           == Handle(old(state.view), old(dedupe), old(ctx.group.guilds), ctx.policy, ctx.now,
                     ChannelUpdate(channel), None)
    {
      hide S.SandwichState.Valid;
      if channel.guildID != None && channel.guildID.value != 0 {
        state.SetGuildChannel(ctx.policy, channel.guildID.value, channel);
      } else if channel.kind == DmKind || channel.kind == GroupDmKind {
        TouchDM(ctx.now, channel.id);
        state.UpdateDMChannelByChannelID(channel.id, (dm: DMChannel) => dm.(channel := channel));
      }
      published, panicked := true, false;
    }

    method OnChannelDelete(ctx: StateCtx, channel: Channel) returns (published: bool, panicked: bool)
      requires Ready(ctx)
      modifies state.Repr, this`dedupe, ctx.group
      ensures fresh(state.Repr - old(state.Repr))
      ensures Ready(ctx)
      ensures Effect(state.view, dedupe, ctx.group.guilds, published, panicked)
           == Handle(old(state.view), old(dedupe), old(ctx.group.guilds), ctx.policy, ctx.now,
                     ChannelDelete(channel), None)
    {
      hide S.SandwichState.Valid;
      if channel.guildID != None && channel.guildID.value != 0 {
        state.RemoveGuildChannel(channel.guildID.value, channel.id);
      } else if channel.kind == DmKind || channel.kind == GroupDmKind {
        TouchDM(ctx.now, channel.id);
        state.RemoveDMChannelByChannelID(channel.id);
      }
      published, panicked := true, false;
    }

    method OnChannelPinsUpdate(ctx: StateCtx, g: GuildID, c: ChannelID, timestamp: string)
      returns (published: bool, panicked: bool)
      requires Ready(ctx)
      modifies state.Repr, this`dedupe, ctx.group
      ensures fresh(state.Repr - old(state.Repr))
      ensures Ready(ctx)
      ensures Effect(state.view, dedupe, ctx.group.guilds, published, panicked)
           == Handle(old(state.view), old(dedupe), old(ctx.group.guilds), ctx.policy, ctx.now,
                     ChannelPinsUpdate(g, c, timestamp), None)
    {
      hide S.SandwichState.Valid;
      if g == 0 {
        state.UpdateDMChannelByChannelID(c, (dm: DMChannel) => dm.(channel := Pin(timestamp)(dm.channel)));
      } else {
        state.UpdateGuildChannel(g, c, Pin(timestamp));
      }
      published, panicked := true, false;
    }

    method OnVoiceStateUpdate(ctx: StateCtx, voiceState: VoiceState) returns (published: bool, panicked: bool)
      requires Ready(ctx)
      modifies state.Repr, this`dedupe, ctx.group
      ensures fresh(state.Repr - old(state.Repr))
      ensures Ready(ctx)
      ensures Effect(state.view, dedupe, ctx.group.guilds, published, panicked)
           == Handle(old(state.view), old(dedupe), old(ctx.group.guilds), ctx.policy, ctx.now,
                     VoiceStateUpdate(voiceState), None)
    {
      hide S.SandwichState.Valid;
      if voiceState.guildID == None || voiceState.guildID.value == 0 {
        state.RemoveVoiceState(ctx.policy, 0, voiceState.userID);
        panicked := false;
      } else {
        panicked := state.UpdateVoiceState(ctx.policy, voiceState);
      }
      published := !panicked;
    }

    // -------------------------------------------------------------------------------------------------------
    // The cache ejector

    /** One tick: guilds no group holds leave the tables, expired keys leave the dedupe map. */
    method CacheEjector(groups: CsMap<GroupID, ShardGroup>, now: int)
      requires Valid()
      modifies state.Repr, this`dedupe
      ensures fresh(state.Repr - old(state.Repr))
      ensures Valid()
      ensures World(state.view, dedupe, old(Held(groups.m)))
           == Sweep(World(old(state.view), old(dedupe), old(Held(groups.m))), now)
    {
      hide S.SandwichState.Valid, EjectAll, HeldGuilds, Expire;
      var all := AllGuildIDs(groups);
      var ejected := NotHeld(all);
      EjectGuilds(ejected);
      RemoveEachIsEjectAll(old(state.view), all, ejected);
      EjectDedupes(now);
    }

    /** Collects the expired keys, then deletes them. */
    method EjectDedupes(now: int)
      modifies this`dedupe
      ensures dedupe == Expire(old(dedupe), now)
    {
      var rest, ejected: seq<string> := dedupe.Keys, [];
      while rest != {}
        invariant rest <= dedupe.Keys
        invariant forall k :: k in dedupe ==> (k in ejected <==> k !in rest && now > dedupe[k])
        decreases rest
      {
        var k :| k in rest;
        rest := rest - {k};
        if now > dedupe[k] {
          ejected := ejected + [k];
        }
      }
      for i := 0 to |ejected|
        invariant forall k :: k in old(dedupe) ==> (k in dedupe <==> k !in ejected[..i])
        invariant forall k :: k in dedupe ==> k in old(dedupe) && dedupe[k] == old(dedupe)[k]
      {
        assert ejected[..i + 1] == ejected[..i] + [ejected[i]];
        dedupe := dedupe - {ejected[i]};
      }
      assert ejected[..|ejected|] == ejected;
      assert dedupe == Expire(old(dedupe), now);
    }

    /** The cached guilds that are not in `all`. */
    method NotHeld(all: set<GuildID>) returns (ejected: seq<GuildID>)
      requires Valid()
      ensures forall g :: g in ejected <==> g in state.view.guilds && g !in all
    {
      hide S.SandwichState.Valid;
      var ids := state.GuildIDs();
      ejected := [];
      for i := 0 to |ids|
        invariant forall g :: g in ejected <==> g in ids[..i] && g !in all
      {
        assert ids[..i + 1] == ids[..i] + [ids[i]];
        if ids[i] !in all {
          ejected := ejected + [ids[i]];
        }
      }
      assert ids[..|ids|] == ids;
    }

    /** RemoveGuild for a caller with a shard group, which lets go of the guild too, or for a stateless one. */
    method RemoveGuild(caller: Option<ShardGroup>, g: GuildID)
      requires Valid() && (caller.Some? ==> caller.value !in state.Repr)
      modifies state.Repr, if caller.Some? then {caller.value} else {}
      ensures fresh(state.Repr - old(state.Repr))
      ensures Valid()
      ensures state.view == T.RemoveGuild(old(state.view), g)
      ensures caller.Some? ==> caller.value.guilds == old(caller.value.guilds) - {g}
    {
      hide S.SandwichState.Valid;
      if caller != None {
        caller.value.guilds := caller.value.guilds - {g};
      }
      state.RemoveGuild(g);
    }

    method EjectGuilds(ejected: seq<GuildID>)
      requires Valid()
      modifies state.Repr
      ensures fresh(state.Repr - old(state.Repr))
      ensures Valid()
      ensures state.view == RemoveEach(old(state.view), ejected)
    {
      hide S.SandwichState.Valid;
      for i := 0 to |ejected|
        invariant Valid() && fresh(state.Repr - old(state.Repr))
        invariant state.view == RemoveEach(old(state.view), ejected[..i])
      {
        assert ejected[..i + 1][..i] == ejected[..i];
        RemoveGuild(None, ejected[i]);
      }
      assert ejected[..|ejected|] == ejected;
    }
  }

  /** The guilds each group holds now. */
  ghost function Held(groups: map<GroupID, ShardGroup>): map<GroupID, set<GuildID>>
    reads groups.Values
  {
    map id | id in groups :: groups[id].guilds
  }

  /** Collects the guilds of every group, visiting the groups in any order. */
  method AllGuildIDs(groups: CsMap<GroupID, ShardGroup>) returns (all: set<GuildID>)
    ensures all == HeldGuilds(Held(groups.m))
  {
    var ids := groups.Range();
    all := {};
    for i := 0 to |ids|
      invariant forall g :: g in all ==> exists j :: 0 <= j < i && g in groups.m[ids[j]].guilds
      invariant forall j, g :: 0 <= j < i && g in groups.m[ids[j]].guilds ==> g in all
    {
      all := all + groups.m[ids[i]].guilds;
    }
    forall g
      ensures g in all <==> g in HeldGuilds(Held(groups.m))
    {
      if g in all {
        var j :| 0 <= j < |ids| && g in groups.m[ids[j]].guilds;
        HeldBySome(Held(groups.m), ids[j], g);
      }
      if g in HeldGuilds(Held(groups.m)) {
        var id :| id in Held(groups.m).Keys && g in Held(groups.m)[id];
        var j :| 0 <= j < |ids| && ids[j] == id;
        assert g in groups.m[ids[j]].guilds;
      }
    }
  }

  function RemoveEach(t: Tables, gs: seq<GuildID>): Tables {
    if gs == [] then t else RemoveGuild(RemoveEach(t, gs[..|gs| - 1]), gs[|gs| - 1])
  }

  lemma MinusTwice<K, V>(m: map<K, V>, a: set<K>, b: set<K>)
    ensures (m - a) - b == m - (a + b)
  {
  }

  lemma RemoveOneMore(t: Tables, gone: set<GuildID>, g: GuildID)
    ensures RemoveGuild(Without(t, gone), g) == Without(t, gone + {g})
  {
    MinusTwice(t.guilds, gone, {g});
    MinusTwice(t.roles, gone, {g});
    MinusTwice(t.channels, gone, {g});
    MinusTwice(t.emojis, gone, {g});
    MinusTwice(t.members, gone, {g});
  }

  lemma WithoutNone(t: Tables)
    ensures Without(t, {}) == t
  {
    assert t.guilds - {} == t.guilds && t.roles - {} == t.roles && t.channels - {} == t.channels;
    assert t.emojis - {} == t.emojis && t.members - {} == t.members;
  }

  lemma {:induction false} RemoveEachIs(t: Tables, gs: seq<GuildID>)
    ensures RemoveEach(t, gs) == Without(t, Elements(gs))
  {
    hide Without, RemoveGuild;
    if gs == [] {
      WithoutNone(t);
      assert Elements(gs) == {};
    } else {
      var init, last := gs[..|gs| - 1], gs[|gs| - 1];
      RemoveEachIs(t, init);
      RemoveOneMore(t, Elements(init), last);
      assert gs == init + [last];
      assert Elements(gs) == Elements(init) + {last};
    }
  }

  lemma RemoveEachIsEjectAll(t: Tables, kept: set<GuildID>, gs: seq<GuildID>)
    requires forall g :: g in gs <==> g in t.guilds && g !in kept
    ensures RemoveEach(t, gs) == EjectAll(t, kept)
  {
    RemoveEachIs(t, gs);
    forall g
      ensures g in Elements(gs) <==> g in t.guilds.Keys - kept
    {
      assert g in gs <==> g in t.guilds && g !in kept;
    }
    assert Elements(gs) == t.guilds.Keys - kept;
  }
}
