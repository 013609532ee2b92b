/** Runs: every delivery and every sweep keeps the tables well formed, so every reachable state is. */
module Runs {
  import opened Wrappers
  import opened Discord
  import opened Tables
  import opened Dedupe
  import opened Events
  import opened GuildLaws
  import opened Invariants
  import R = Rows

  lemma AddMemberKeeps(
    t: Tables, dedupe: DedupeTable, held: set<GuildID>, policy: Policy, now: int, member: GuildMember)
    requires Invariant(t)
    ensures Invariant(AddMember(t, dedupe, held, policy, now, member).tables)
  {
    hide SetGuildMember, Remember, MemberKey;
    if member.guildID.Some? && HasUser(member) {
      SetGuildMemberKeeps(CountMember(t, member.guildID.value, 1), policy, member.guildID.value, member);
    }
  }

  lemma RemoveMemberKeeps(t: Tables, dedupe: DedupeTable, held: set<GuildID>, now: int, g: GuildID, u: UserID)
    requires Invariant(t)
    ensures Invariant(RemoveMember(t, dedupe, held, now, g, u).tables)
  {
    hide Remember, MemberKey;
    DeleteKeepsMembers(t.members, g, u);
  }

  lemma DeleteKeepsMembers(rows: R.Rows<GuildID, UserID, GuildMember>, g: GuildID, u: UserID)
    requires MembersOk(rows)
    ensures MembersOk(R.Delete(rows, g, u))
  {
  }

  lemma RoleKeeps(t: Tables, g: GuildID, role: Role)
    requires Invariant(t)
    ensures Invariant(StoreRole(t, g, role).tables)
  {
    if HasId(role) {
      StoreKeepsRoles(t.roles, g, role);
    }
  }

  lemma RoleDeleteKeeps(t: Tables, g: GuildID, role: RoleID)
    requires Invariant(t)
    ensures Invariant(t.(roles := R.Delete(t.roles, g, role)))
  {
  }

  lemma DMsDoNotMatter(t: Tables, dms: map<ChannelID, DMChannel>)
    requires Invariant(t)
    ensures Invariant(t.(dms := dms))
  {
  }

  lemma DeleteKeepsChannels(t: Tables, g: GuildID, c: ChannelID)
    requires Invariant(t)
    ensures Invariant(t.(channels := R.Delete(t.channels, g, c)))
  {
  }

  lemma CreateChannelKeeps(t: Tables, policy: Policy, now: int, channel: Channel)
    requires Invariant(t)
    ensures Invariant(CreateChannel(t, policy, now, channel))
  {
    hide SetGuildChannel, Invariant;
    if ChannelGuild(channel).Some? {
      SetGuildChannelKeeps(t, policy, channel.guildID.value, channel);
    } else {
      DMsDoNotMatter(t, CreateChannel(t, policy, now, channel).dms);
    }
  }

  lemma UpdateChannelKeeps(t: Tables, policy: Policy, now: int, channel: Channel)
    requires Invariant(t)
    ensures Invariant(UpdateChannel(t, policy, now, channel))
  {
    hide SetGuildChannel, Invariant;
    if ChannelGuild(channel).Some? {
      SetGuildChannelKeeps(t, policy, channel.guildID.value, channel);
    } else {
      DMsDoNotMatter(t, UpdateChannel(t, policy, now, channel).dms);
    }
  }

  lemma DeleteChannelKeeps(t: Tables, channel: Channel)
    requires Invariant(t)
    ensures Invariant(DeleteChannel(t, channel))
  {
    hide R.Delete, Invariant;
    if ChannelGuild(channel).Some? {
      DeleteKeepsChannels(t, channel.guildID.value, channel.id);
    } else {
      DMsDoNotMatter(t, DeleteChannel(t, channel).dms);
    }
  }

  lemma PinChannelKeeps(t: Tables, g: GuildID, c: ChannelID, timestamp: string)
    requires Invariant(t)
    ensures Invariant(PinChannel(t, g, c, timestamp))
  {
    if g != 0 && g in t.channels {
      assert ChannelRowOk(g, t.channels[g].Entries());
    }
  }

  lemma VoiceKeeps(t: Tables, policy: Policy, state: VoiceState)
    requires Invariant(t)
    ensures Invariant(ChangeVoiceState(t, policy, state).tables)
  {
    hide UpdateVoiceState;
    if state.guildID.Some? && state.guildID.value != 0 {
      UpdateVoiceStateKeeps(t, policy, state);
    } else {
      assert R.Lookup(t.voice, 0, state.userID) == None;
    }
  }

  lemma StoreChunkKeeps(t: Tables, policy: Policy, g: GuildID, members: seq<GuildMember>)
    requires Invariant(t)
    ensures Invariant(StoreChunk(t, policy, g, members).tables)
  {
    hide Invariant;
    PrefixSplits(members, HasUser);
    SetGuildMembersKeeps(t, policy.(cacheUsers := true, cacheMembers := true), g, Prefix(members, HasUser));
  }

  lemma EmojisKeep(t: Tables, policy: Policy, g: GuildID, emojis: seq<Emoji>)
    requires Invariant(t)
    ensures Invariant(SetGuildEmojis(t.(emojis := t.emojis - {g}), policy, g, emojis))
  {
    hide SetGuildEmojis;
    SetGuildEmojisKeeps(t.(emojis := t.emojis - {g}), policy, g, emojis);
  }

  lemma HandleKeeps(
    t: Tables, dedupe: DedupeTable, held: set<GuildID>, policy: Policy, now: int, event: Event, read: Option<Guild>)
    requires Invariant(t)
    ensures Invariant(Handle(t, dedupe, held, policy, now, event, read).tables)
  {
    hide Invariant, SetGuild, ChangeVoiceState, SetGuildEmojis, StoreChunk, SetGuildMember, MergeUpdate, AddMember,
      RemoveMember, CreateChannel, UpdateChannel, DeleteChannel, PinChannel, StoreRole, R.Delete;
    match event
    case GuildCreate(guild) => SetGuildKeeps(t, policy, guild);
    case GuildUpdate(guild) => SetGuildKeeps(t, policy, MergeUpdate(guild, read));
    case GuildEmojisUpdate(g, emojis) => EmojisKeep(t, policy, g, emojis);
    case GuildStickersUpdate(g, stickers) =>
      if read.Some? { SetGuildKeeps(t, policy, read.value.(stickers := stickers)); }
    case GuildMembersChunk(g, members) =>
      StoreChunkKeeps(t, policy, g, members);
    case GuildMemberAdd(member) => AddMemberKeeps(t, dedupe, held, policy, now, member);
    case GuildMemberRemove(g, user) => RemoveMemberKeeps(t, dedupe, held, now, g, user.id);
    case GuildMemberUpdate(member) =>
      if member.guildID.Some? && HasUser(member) { SetGuildMemberKeeps(t, policy, member.guildID.value, member); }
    case GuildRoleCreate(g, role) => RoleKeeps(t, g, role);
    case GuildRoleUpdate(g, role) => RoleKeeps(t, g, role);
    case GuildRoleDelete(g, role) => RoleDeleteKeeps(t, g, role);
    case ChannelCreate(channel) => CreateChannelKeeps(t, policy, now, channel);
    case ChannelUpdate(channel) => UpdateChannelKeeps(t, policy, now, channel);
    case ChannelDelete(channel) => DeleteChannelKeeps(t, channel);
    case ChannelPinsUpdate(g, c, timestamp) => PinChannelKeeps(t, g, c, timestamp);
    case VoiceStateUpdate(state) => VoiceKeeps(t, policy, state);
    case GuildDelete(_, _) =>
  }

  lemma EjectAllKeeps(t: Tables, kept: set<GuildID>)
    requires Invariant(t)
    ensures Invariant(EjectAll(t, kept))
  {
  }

  lemma NextKeeps(w: World, step: Step, w': World)
    requires Invariant(w.tables) && Next(w, step, w')
    ensures Invariant(w'.tables)
  {
    hide Invariant, Handle, EjectAll, Reads;
    match step
    case Deliver(d) =>
      var read: Option<Guild> :| Reads(w.tables, d.event, read) && w' == Apply(w, d, read);
      HandleKeeps(w.tables, w.dedupe, w.groups[d.group], d.policy, d.now, d.event, read);
    case SweepAt(_) => EjectAllKeeps(w.tables, HeldGuilds(w.groups));
    case _ =>
  }

  lemma RunDropsLast(ws: seq<World>, steps: seq<Step>)
    requires IsRun(ws, steps) && steps != []
    ensures IsRun(ws[..|ws| - 1], steps[..|steps| - 1])
    ensures Next(ws[|ws| - 2], steps[|steps| - 1], ws[|ws| - 1])
  {
  }

  /** The tables stay well formed along every run. */
  lemma {:induction false} RunKeeps(ws: seq<World>, steps: seq<Step>)
    requires IsRun(ws, steps) && Invariant(ws[0].tables)
    ensures Invariant(ws[|ws| - 1].tables)
  {
    hide Invariant, Next;
    if steps != [] {
      var init := ws[..|ws| - 1];
      RunDropsLast(ws, steps);
      RunKeeps(init, steps[..|steps| - 1]);
      NextKeeps(init[|init| - 1], steps[|steps| - 1], ws[|ws| - 1]);
    }
  }

  /** A voice state is never cached in any run from the empty state, so every head count ever shown is 0. */
  lemma VoiceIsNeverCached(ws: seq<World>, steps: seq<Step>, g: GuildID, u: UserID, c: ChannelID)
    requires IsRun(ws, steps) && ws[0].tables == EMPTY
    ensures R.Lookup(ws[|ws| - 1].tables.voice, g, u) == None
    ensures CountMembersForVoiceChannel(ws[|ws| - 1].tables, g, c) == 0
  {
    EmptyIsOk();
    RunKeeps(ws, steps);
    var t := ws[|ws| - 1].tables;
    assert R.EntriesAt(t.voice, g) == map[];
    assert Occupants(R.EntriesAt(t.voice, g), R.EntriesAt(t.voice, g).Keys, c) == {};
  }
}
