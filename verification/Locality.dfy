/** What an operation on one guild can see and touch: its own entries, and the invariant of every run. */
module Locality {
  import opened Wrappers
  import opened Discord
  import opened Tables
  import opened GuildLaws
  import R = Rows

  /** Everything the tables say about one guild; the lists left inside the guild entry are never read back. */
  datatype Local = Local(
    core: Option<Guild>,
    roles: Option<R.Row<RoleID, Role>>,
    channels: Option<R.Row<ChannelID, Channel>>,
    emojis: Option<seq<Emoji>>,
    members: Option<R.Row<UserID, GuildMember>>,
    voice: Option<R.Row<UserID, VoiceState>>)

  function LocalOf(t: Tables, g: GuildID): Local {
    Local(if g in t.guilds then Some(Core(t.guilds[g])) else None,
          Find(t.roles, g), Find(t.channels, g), Find(t.emojis, g), Find(t.members, g), Find(t.voice, g))
  }

  /** What GetGuild can return is decided by the guild's own entries. */
  lemma ReadsAreLocal(t: Tables, s: Tables, g: GuildID, r: Option<Guild>)
    requires LocalOf(t, g) == LocalOf(s, g)
    ensures ReadsGuild(t, g, r) <==> ReadsGuild(s, g, r)
  {
    assert Readable(t, g) <==> Readable(s, g) by {
      assert Find(t.roles, g) == Find(s.roles, g) && Find(t.emojis, g) == Find(s.emojis, g)
          && Find(t.members, g) == Find(s.members, g);
    }
    assert R.EntriesAt(t.roles, g) == R.EntriesAt(s.roles, g);
    assert R.EntriesAt(t.channels, g) == R.EntriesAt(s.channels, g);
    assert R.EntriesAt(t.members, g) == R.EntriesAt(s.members, g);
    assert R.EntriesAt(t.voice, g) == R.EntriesAt(s.voice, g);
    if Readable(t, g) {
      assert ReadCore(t.guilds[g]) == ReadCore(s.guilds[g]);
    }
  }

  /** `t` and `s` became `t2` and `s2`: the same happened to guild `g` in both, and nothing to other guilds of `t`. */
  ghost predicate InStep(t: Tables, s: Tables, t2: Tables, s2: Tables, g: GuildID) {
    && LocalOf(t2, g) == LocalOf(s2, g)
    && forall o :: o != g ==> LocalOf(t2, o) == LocalOf(t, o)
  }

  lemma RolesInStep(t: Tables, s: Tables, g: GuildID, roles: seq<Role>)
    requires LocalOf(t, g) == LocalOf(s, g)
    ensures InStep(t, s, SetGuildRoles(t, g, roles), SetGuildRoles(s, g, roles), g)
  {
    SetGuildRolesIs(t, g, roles);
    SetGuildRolesIs(s, g, roles);
    R.StoreAllLocal(t.roles, s.roles, g, RoleEntries(roles));
  }

  /** Two lists of channels that leave two states alike: the same list, or in each the channels already there. */
  ghost predicate ChannelsAlike(t: Tables, s: Tables, g: GuildID, xs: seq<Channel>, ys: seq<Channel>) {
    xs == ys || (R.StoreAll(t.channels, g, ChannelEntries(g, xs)) == t.channels
                 && R.StoreAll(s.channels, g, ChannelEntries(g, ys)) == s.channels)
  }

  lemma ChannelsInStep(t: Tables, s: Tables, policy: Policy, g: GuildID, xs: seq<Channel>, ys: seq<Channel>)
    requires LocalOf(t, g) == LocalOf(s, g) && ChannelsAlike(t, s, g, xs, ys)
    ensures InStep(t, s, SetGuildChannels(t, policy, g, xs), SetGuildChannels(s, policy, g, ys), g)
  {
    hide R.StoreAll, ChannelEntries, SetGuildChannels, Core;
    SetGuildChannelsIs(t, policy, g, xs);
    SetGuildChannelsIs(s, policy, g, ys);
    if xs == ys {
      R.StoreAllLocal(t.channels, s.channels, g, ChannelEntries(g, xs));
    }
  }

  lemma EmojisInStep(t: Tables, s: Tables, policy: Policy, g: GuildID, emojis: seq<Emoji>)
    requires LocalOf(t, g) == LocalOf(s, g)
    ensures InStep(t, s, SetGuildEmojis(t, policy, g, emojis), SetGuildEmojis(s, policy, g, emojis), g)
  {
    SetGuildEmojisIs(t, policy, g, emojis);
    SetGuildEmojisIs(s, policy, g, emojis);
  }

  ghost predicate AllHaveUsers(members: seq<GuildMember>) {
    forall i :: 0 <= i < |members| ==> HasUser(members[i])
  }

  /** As for channels; members already there all have users. */
  ghost predicate MembersAlike(
    t: Tables, s: Tables, policy: Policy, g: GuildID, xs: seq<GuildMember>, ys: seq<GuildMember>)
  {
    xs == ys || (AllHaveUsers(xs) && AllHaveUsers(ys)
                 && R.StoreAll(t.members, g, MemberEntries(policy, xs)) == t.members
                 && R.StoreAll(s.members, g, MemberEntries(policy, ys)) == s.members)
  }

  lemma MembersInStep(t: Tables, s: Tables, policy: Policy, g: GuildID, xs: seq<GuildMember>, ys: seq<GuildMember>)
    requires LocalOf(t, g) == LocalOf(s, g) && MembersAlike(t, s, policy, g, xs, ys)
    requires AllHaveUsers(xs) && AllHaveUsers(ys)
    ensures InStep(t, s, SetGuildMembers(t, policy, g, xs), SetGuildMembers(s, policy, g, ys), g)
  {
    hide R.StoreAll, MemberEntries, SetGuildMembers, Core;
    SetGuildMembersIs(t, policy, g, xs);
    SetGuildMembersIs(s, policy, g, ys);
    if xs == ys {
      R.StoreAllLocal(t.members, s.members, g, MemberEntries(policy, xs));
    }
  }

  /**
   Guild 0 is the source's "no guild". Showing its channel head counts copies cached users into its channels, so it
   only keeps in step with itself.
   */
  ghost predicate Comparable(t: Tables, s: Tables, g: GuildID) {
    LocalOf(t, g) == LocalOf(s, g) && (g != 0 || t == s)
  }

  lemma LoadOrNewStaysDead(t: Tables, s: Tables, g: GuildID)
    requires VoiceDead(t) && s.voice == R.LoadOrNew(t.voice, g)
    ensures VoiceDead(s)
  {
  }

  /** What a voice state does to one guild's rows in two states; channels only move for guild 0. */
  lemma VoiceStateRows(t: Tables, s: Tables, policy: Policy, g: GuildID, state: VoiceState)
    requires VoiceDead(t) && VoiceDead(s) && state.guildID == Some(g) && LocalOf(t, g) == LocalOf(s, g)
    ensures var t2, s2 := UpdateVoiceState(t, policy, state).tables, UpdateVoiceState(s, policy, state).tables;
            && UpdateVoiceState(t, policy, state).panicked == UpdateVoiceState(s, policy, state).panicked
            && Find(t2.members, g) == Find(s2.members, g) && Find(t2.voice, g) == Find(s2.voice, g)
            && forall o :: o != g ==>
                 Find(t2.members, o) == Find(t.members, o) && Find(t2.voice, o) == Find(t.voice, o)
  {
    hide UpdateVoiceState, R.StoreAll, R.LoadOrNew, MemberEntries, Core;
    UpdateVoiceStateIs(t, policy, state, g);
    UpdateVoiceStateIs(s, policy, state, g);
    R.LoadOrNewLocal(t.voice, s.voice, g);
    if state.member.None? || HasUser(state.member.value) {
      R.StoreAllLocal(t.members, s.members, g, MemberEntries(policy, Carried(state)));
    }
  }

  lemma VoiceStateInStep(t: Tables, s: Tables, policy: Policy, g: GuildID, state: VoiceState)
    requires VoiceDead(t) && VoiceDead(s) && state.guildID == Some(g) && Comparable(t, s, g)
    ensures var t2, s2 := UpdateVoiceState(t, policy, state), UpdateVoiceState(s, policy, state);
            && t2.panicked == s2.panicked
            && VoiceDead(t2.tables) && VoiceDead(s2.tables)
            && Comparable(t2.tables, s2.tables, g)
            && InStep(t, s, t2.tables, s2.tables, g)
  {
    hide UpdateVoiceState, R.StoreAll, R.LoadOrNew, MemberEntries, Core, VoiceDead;
    VoiceStateRows(t, s, policy, g, state);
    UpdateVoiceStateIs(t, policy, state, g);
    UpdateVoiceStateIs(s, policy, state, g);
    UpdateVoiceStateChannels(t, policy, state, g);
    UpdateVoiceStateChannels(s, policy, state, g);
    LoadOrNewStaysDead(t, UpdateVoiceState(t, policy, state).tables, g);
    LoadOrNewStaysDead(s, UpdateVoiceState(s, policy, state).tables, g);
  }

  lemma {:induction false} VoiceStatesInStep(
    t: Tables, s: Tables, policy: Policy, g: GuildID, states: seq<VoiceState>)
    requires VoiceDead(t) && VoiceDead(s) && Comparable(t, s, g)
    ensures var t2, s2 := UpdateVoiceStates(t, policy, g, states), UpdateVoiceStates(s, policy, g, states);
            && t2.panicked == s2.panicked
            && VoiceDead(t2.tables) && VoiceDead(s2.tables)
            && Comparable(t2.tables, s2.tables, g)
            && InStep(t, s, t2.tables, s2.tables, g)
  {
    if states != [] {
      hide UpdateVoiceState, VoiceDead, LocalOf;
      var last := |states| - 1;
      VoiceStatesInStep(t, s, policy, g, states[..last]);
      var t1, s1 := UpdateVoiceStates(t, policy, g, states[..last]), UpdateVoiceStates(s, policy, g, states[..last]);
      if !t1.panicked {
        VoiceStateInStep(t1.tables, s1.tables, policy, g, states[last].(guildID := Some(g)));
      }
    }
  }

  /** Two guild payloads that SetGuild cannot tell apart for one guild in the two states. */
  ghost predicate PayloadsAlike(t: Tables, s: Tables, policy: Policy, u: Guild, v: Guild) {
    && u.id == v.id && u.roles == v.roles && u.emojis == v.emojis && Core(u) == Core(v)
    && Listed(u.voiceStates) == Listed(v.voiceStates)
    && ChannelsAlike(t, s, u.id, Listed(u.channels), Listed(v.channels))
    && MembersAlike(t, s, policy, u.id, Listed(u.members), Listed(v.members))
    && (u.id != 0 || u == v)
  }

  lemma SetGuildInStep(t: Tables, s: Tables, policy: Policy, u: Guild, v: Guild)
    requires VoiceDead(t) && VoiceDead(s) && Comparable(t, s, u.id) && PayloadsAlike(t, s, policy, u, v)
    ensures var t2, s2 := SetGuild(t, policy, u), SetGuild(s, policy, v);
            t2.panicked == s2.panicked && InStep(t, s, t2.tables, s2.tables, u.id)
  {
    var g := u.id;
    var t0, s0 := t.(guilds := t.guilds[g := u]), s.(guilds := s.guilds[g := v]);
    assert InStep(t, s, t0, s0, g);
    var roles := Prefix(u.roles, HasId);
    RolesInStep(t0, s0, g, roles);
    SetGuildRolesIs(t0, g, roles);
    SetGuildRolesIs(s0, g, roles);
    var t1, s1 := SetGuildRoles(t0, g, roles), SetGuildRoles(s0, g, roles);
    if roles == u.roles {
      AfterRolesInStep(t1, s1, policy, u, v);
    }
  }

  /** The rest of SetGuild, once the roles are in. */
  function AfterRoles(t: Tables, policy: Policy, guild: Guild): Outcome {
    var withChannels := SetGuildChannels(t, policy, guild.id, Listed(guild.channels));
    var withEmojis := SetGuildEmojis(withChannels, policy, guild.id, guild.emojis);
    var members := Prefix(Listed(guild.members), HasUser);
    PrefixSplits(Listed(guild.members), HasUser);
    var withMembers := SetGuildMembers(withEmojis, policy, guild.id, members);
    if members != Listed(guild.members) then Outcome(withMembers, true)
    else UpdateVoiceStates(withMembers, policy, guild.id, Listed(guild.voiceStates))
  }

  lemma AfterRolesInStep(t: Tables, s: Tables, policy: Policy, u: Guild, v: Guild)
    requires VoiceDead(t) && VoiceDead(s) && Comparable(t, s, u.id) && PayloadsAlike(t, s, policy, u, v)
    ensures var t2, s2 := AfterRoles(t, policy, u), AfterRoles(s, policy, v);
            t2.panicked == s2.panicked && InStep(t, s, t2.tables, s2.tables, u.id)
  {
    hide LocalOf, Core, R.StoreAll, ChannelEntries, MemberEntries, SetGuildChannels, SetGuildMembers, SetGuildEmojis,
      UpdateVoiceStates;
    var g := u.id;
    ChannelsInStep(t, s, policy, g, Listed(u.channels), Listed(v.channels));
    SetGuildChannelsIs(t, policy, g, Listed(u.channels));
    SetGuildChannelsIs(s, policy, g, Listed(v.channels));
    var t1 := SetGuildChannels(t, policy, g, Listed(u.channels));
    var s1 := SetGuildChannels(s, policy, g, Listed(v.channels));
    EmojisInStep(t1, s1, policy, g, u.emojis);
    SetGuildEmojisIs(t1, policy, g, u.emojis);
    SetGuildEmojisIs(s1, policy, g, u.emojis);
    var t2, s2 := SetGuildEmojis(t1, policy, g, u.emojis), SetGuildEmojis(s1, policy, g, u.emojis);
    var xs, ys := Prefix(Listed(u.members), HasUser), Prefix(Listed(v.members), HasUser);
    PrefixSplits(Listed(u.members), HasUser);
    PrefixSplits(Listed(v.members), HasUser);
    PrefixesAlike(t2, s2, policy, g, Listed(u.members), Listed(v.members));
    MembersInStep(t2, s2, policy, g, xs, ys);
    SetGuildMembersIs(t2, policy, g, xs);
    SetGuildMembersIs(s2, policy, g, ys);
    var t3, s3 := SetGuildMembers(t2, policy, g, xs), SetGuildMembers(s2, policy, g, ys);
    if xs == Listed(u.members) {
      VoiceStatesInStep(t3, s3, policy, g, Listed(u.voiceStates));
    }
  }

  lemma PrefixesAlike(t: Tables, s: Tables, policy: Policy, g: GuildID, xs: seq<GuildMember>, ys: seq<GuildMember>)
    requires MembersAlike(t, s, policy, g, xs, ys)
    ensures MembersAlike(t, s, policy, g, Prefix(xs, HasUser), Prefix(ys, HasUser))
    ensures Prefix(xs, HasUser) == xs <==> Prefix(ys, HasUser) == ys
  {
    if xs != ys {
      PrefixIs(xs, HasUser, |xs|);
      PrefixIs(ys, HasUser, |ys|);
      assert xs[..|xs|] == xs && ys[..|ys|] == ys;
    }
  }

  /** Writing a guild leaves every other guild's view untouched, even when it panics half way. */
  lemma WriteLeavesOthers(t: Tables, policy: Policy, guild: Guild, other: GuildID, x: Option<Guild>)
    requires VoiceDead(t) && other != guild.id
    ensures ReadsGuild(SetGuild(t, policy, guild).tables, other, x) <==> ReadsGuild(t, other, x)
  {
    hide SetGuild, LocalOf, ReadsGuild;
    SetGuildInStep(t, t, policy, guild, guild);
    ReadsAreLocal(SetGuild(t, policy, guild).tables, t, other, x);
  }
}
