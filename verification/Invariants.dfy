/** Every operation of the state keeps the tables well formed. */
module Invariants {
  import opened Wrappers
  import opened Discord
  import opened Tables
  import opened GuildLaws
  import opened Locality
  import R = Rows

  lemma EmptyIsOk()
    ensures Invariant(EMPTY)
  {
  }

  lemma {:induction false} StoreAllKeepsRoles(rows: R.Rows<GuildID, RoleID, Role>, g: GuildID, roles: seq<Role>)
    requires RolesOk(rows) && forall i :: 0 <= i < |roles| ==> HasId(roles[i])
    ensures RolesOk(R.StoreAll(rows, g, RoleEntries(roles)))
  {
    if roles != [] {
      var last, entries := |roles| - 1, RoleEntries(roles);
      StoreAllKeepsRoles(rows, g, roles[..last]);
      assert entries[..|entries| - 1] == RoleEntries(roles[..last]);
      StoreKeepsRoles(R.StoreAll(rows, g, RoleEntries(roles[..last])), g, roles[last]);
    }
  }

  lemma StoreKeepsRoles(rows: R.Rows<GuildID, RoleID, Role>, g: GuildID, role: Role)
    requires RolesOk(rows) && HasId(role)
    ensures RolesOk(R.Store(rows, g, role.id, role))
  {
  }

  lemma StoreKeepsChannels(rows: R.Rows<GuildID, ChannelID, Channel>, g: GuildID, channel: Channel)
    requires ChannelsOk(rows) && channel.guildID == Some(g)
    ensures ChannelsOk(R.Store(rows, g, channel.id, channel))
  {
  }

  lemma {:induction false} StoreAllKeepsChannels(
    rows: R.Rows<GuildID, ChannelID, Channel>, g: GuildID, channels: seq<Channel>)
    requires ChannelsOk(rows)
    ensures ChannelsOk(R.StoreAll(rows, g, ChannelEntries(g, channels)))
  {
    if channels != [] {
      var last, entries := |channels| - 1, ChannelEntries(g, channels);
      StoreAllKeepsChannels(rows, g, channels[..last]);
      assert entries[..|entries| - 1] == ChannelEntries(g, channels[..last]);
      StoreKeepsChannels(R.StoreAll(rows, g, ChannelEntries(g, channels[..last])), g,
                         channels[last].(guildID := Some(g)));
    }
  }

  lemma StoreKeepsMembers(rows: R.Rows<GuildID, UserID, GuildMember>, g: GuildID, member: GuildMember)
    requires MembersOk(rows) && HasUser(member)
    ensures MembersOk(R.Store(rows, g, member.user.value.id, member))
  {
  }

  lemma {:induction false} StoreAllKeepsMembers(
    rows: R.Rows<GuildID, UserID, GuildMember>, policy: Policy, g: GuildID, members: seq<GuildMember>)
    requires MembersOk(rows) && AllHaveUsers(members)
    ensures MembersOk(R.StoreAll(rows, g, MemberEntries(policy, members)))
  {
    if members != [] {
      var last, entries := |members| - 1, MemberEntries(policy, members);
      StoreAllKeepsMembers(rows, policy, g, members[..last]);
      if Admitted(policy, members[last]) {
        assert entries[..|entries| - 1] == MemberEntries(policy, members[..last]);
        StoreKeepsMembers(R.StoreAll(rows, g, MemberEntries(policy, members[..last])), g, members[last]);
      } else {
        assert entries == MemberEntries(policy, members[..last]);
      }
    }
  }

  lemma SetGuildMembersKeeps(t: Tables, policy: Policy, g: GuildID, members: seq<GuildMember>)
    requires Invariant(t) && AllHaveUsers(members)
    ensures Invariant(SetGuildMembers(t, policy, g, members))
  {
    SetGuildMembersIs(t, policy, g, members);
    StoreAllKeepsMembers(t.members, policy, g, members);
  }

  lemma SetGuildMemberKeeps(t: Tables, policy: Policy, g: GuildID, member: GuildMember)
    requires Invariant(t) && HasUser(member)
    ensures Invariant(SetGuildMember(t, policy, g, member))
  {
    if Admitted(policy, member) {
      StoreKeepsMembers(t.members, g, member);
    }
  }

  lemma SetGuildChannelsKeeps(t: Tables, policy: Policy, g: GuildID, channels: seq<Channel>)
    requires Invariant(t)
    ensures Invariant(SetGuildChannels(t, policy, g, channels))
  {
    SetGuildChannelsIs(t, policy, g, channels);
    StoreAllKeepsChannels(t.channels, g, channels);
  }

  lemma SetGuildChannelKeeps(t: Tables, policy: Policy, g: GuildID, channel: Channel)
    requires Invariant(t)
    ensures Invariant(SetGuildChannel(t, policy, g, channel))
  {
    var stamped := channel.(guildID := Some(g));
    StoreKeepsChannels(t.channels, g, stamped);
    SetUsersOnlyUsers(t.(channels := R.Store(t.channels, g, channel.id, stamped)), policy, channel.recipients);
  }

  lemma SetGuildEmojisKeeps(t: Tables, policy: Policy, g: GuildID, emojis: seq<Emoji>)
    requires Invariant(t)
    ensures Invariant(SetGuildEmojis(t, policy, g, emojis))
  {
    SetGuildEmojisIs(t, policy, g, emojis);
  }

  lemma ShowOccupancyKeeps(t: Tables, policy: Policy, g: GuildID, c: ChannelID)
    requires Invariant(t)
    ensures Invariant(ShowOccupancy(t, policy, g, c))
  {
    var found := GetGuildChannel(t, g, c);
    if found.Some? && g == 0 {
      var count := CountMembersForVoiceChannel(t, g, found.value.id);
      SetGuildChannelKeeps(t, policy, g, found.value.(memberCount := count));
    }
  }

  lemma UpdateVoiceStateKeeps(t: Tables, policy: Policy, state: VoiceState)
    requires Invariant(t)
    ensures Invariant(UpdateVoiceState(t, policy, state).tables)
  {
    if state.guildID.Some? {
      var g := state.guildID.value;
      hide UpdateVoiceState, ShowOccupancy, SetGuildMember;
      UpdateVoiceStateUnfolds(t, policy, state, g);
      var written := t.(voice := R.LoadOrNew(t.voice, g));
      LoadOrNewStaysDead(t, written, g);
      assert Invariant(written);
      if state.member.None? || HasUser(state.member.value) {
        if state.member.Some? {
          SetGuildMemberKeeps(written, policy, g, state.member.value);
        }
        var joined := if state.member.None? then written else SetGuildMember(written, policy, g, state.member.value);
        ShowOccupancyKeeps(joined, policy, g, state.channelID);
      }
    }
  }

  lemma {:induction false} UpdateVoiceStatesKeeps(t: Tables, policy: Policy, g: GuildID, states: seq<VoiceState>)
    requires Invariant(t)
    ensures Invariant(UpdateVoiceStates(t, policy, g, states).tables)
  {
    if states != [] {
      hide UpdateVoiceState, Invariant;
      var last := |states| - 1;
      UpdateVoiceStatesKeeps(t, policy, g, states[..last]);
      UpdateVoiceStateKeeps(UpdateVoiceStates(t, policy, g, states[..last]).tables, policy,
                            states[last].(guildID := Some(g)));
    }
  }

  /** SetGuild keeps the tables well formed even when it panics half way. */
  lemma SetGuildKeeps(t: Tables, policy: Policy, guild: Guild)
    requires Invariant(t)
    ensures Invariant(SetGuild(t, policy, guild).tables)
  {
    var g := guild.id;
    var t0 := t.(guilds := t.guilds[g := guild]);
    assert Invariant(t0);
    var roles, members := Prefix(guild.roles, HasId), Prefix(Listed(guild.members), HasUser);
    PrefixSplits(guild.roles, HasId);
    PrefixSplits(Listed(guild.members), HasUser);
    var t1 := SetGuildRoles(t0, g, roles);
    SetGuildRolesIs(t0, g, roles);
    StoreAllKeepsRoles(t0.roles, g, roles);
    assert Invariant(t1);
    hide Invariant;
    var t2 := SetGuildChannels(t1, policy, g, Listed(guild.channels));
    SetGuildChannelsKeeps(t1, policy, g, Listed(guild.channels));
    var t3 := SetGuildEmojis(t2, policy, g, guild.emojis);
    SetGuildEmojisKeeps(t2, policy, g, guild.emojis);
    SetGuildMembersKeeps(t3, policy, g, members);
    UpdateVoiceStatesKeeps(SetGuildMembers(t3, policy, g, members), policy, g, Listed(guild.voiceStates));
  }
}
