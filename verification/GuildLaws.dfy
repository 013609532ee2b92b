/** SetGuild and GetGuild agree: what was written is read back, and writing back what was read changes nothing. */
module GuildLaws {
  import opened Wrappers
  import opened Discord
  import opened Tables
  import R = Rows

  // ---------------------------------------------------------------------------------------------------------
  // Invariants of every run

  ghost predicate GuildsOk(guilds: map<GuildID, Guild>) {
    forall g :: g in guilds ==> guilds[g].id == g
  }

  /** Every role sits under its own, non-zero id. */
  ghost predicate RoleRowOk(row: map<RoleID, Role>) {
    forall k :: k in row ==> row[k].id == k && HasId(row[k])
  }

  /** Every channel sits under its own id and is stamped with its guild. */
  ghost predicate ChannelRowOk(g: GuildID, row: map<ChannelID, Channel>) {
    forall k :: k in row ==> row[k].id == k && row[k].guildID == Some(g)
  }

  /** Every member has a user and sits under the user's id. */
  ghost predicate MemberRowOk(row: map<UserID, GuildMember>) {
    forall k :: k in row ==> HasUser(row[k]) && row[k].user.value.id == k
  }

  ghost predicate RolesOk(rows: R.Rows<GuildID, RoleID, Role>) {
    R.AllLive(rows) && forall g :: g in rows ==> RoleRowOk(rows[g].Entries())
  }

  ghost predicate ChannelsOk(rows: R.Rows<GuildID, ChannelID, Channel>) {
    R.AllLive(rows) && forall g :: g in rows ==> ChannelRowOk(g, rows[g].Entries())
  }

  ghost predicate MembersOk(rows: R.Rows<GuildID, UserID, GuildMember>) {
    R.AllLive(rows) && forall g :: g in rows ==> MemberRowOk(rows[g].Entries())
  }

  /** Every voice row was made by LoadOrNew, so none has a table. */
  ghost predicate VoiceDead(t: Tables) {
    forall g :: g in t.voice ==> t.voice[g].NoTable?
  }

  ghost predicate Invariant(t: Tables) {
    GuildsOk(t.guilds) && RolesOk(t.roles) && ChannelsOk(t.channels) && MembersOk(t.members) && VoiceDead(t)
  }

  // ---------------------------------------------------------------------------------------------------------
  // What a list of writes amounts to

  function RoleEntries(roles: seq<Role>): seq<(RoleID, Role)> {
    if roles == [] then []
    else var last := |roles| - 1; RoleEntries(roles[..last]) + [(roles[last].id, roles[last])]
  }

  function ChannelEntries(g: GuildID, channels: seq<Channel>): seq<(ChannelID, Channel)> {
    if channels == [] then []
    else
      var last := |channels| - 1;
      ChannelEntries(g, channels[..last]) + [(channels[last].id, channels[last].(guildID := Some(g)))]
  }

  /** The members the caching rule admits. */
  function MemberEntries(policy: Policy, members: seq<GuildMember>): seq<(UserID, GuildMember)>
    requires forall i :: 0 <= i < |members| ==> HasUser(members[i])
  {
    if members == [] then []
    else
      var last := |members| - 1;
      MemberEntries(policy, members[..last])
        + (if Admitted(policy, members[last]) then [(members[last].user.value.id, members[last])] else [])
  }

  lemma {:induction false} SetUsersOnlyUsers(t: Tables, policy: Policy, users: seq<User>)
    ensures SetUsers(t, policy, users) == t.(users := SetUsers(t, policy, users).users)
  {
    if users != [] {
      SetUsersOnlyUsers(t, policy, users[..|users| - 1]);
    }
  }

  lemma {:induction false} SetGuildRolesIs(t: Tables, g: GuildID, roles: seq<Role>)
    ensures SetGuildRoles(t, g, roles) == t.(roles := R.StoreAll(t.roles, g, RoleEntries(roles)))
  {
    if roles != [] {
      var last := |roles| - 1;
      SetGuildRolesIs(t, g, roles[..last]);
      assert RoleEntries(roles)[..|RoleEntries(roles)| - 1] == RoleEntries(roles[..last]);
    }
  }

  lemma {:induction false} SetGuildChannelsIs(t: Tables, policy: Policy, g: GuildID, channels: seq<Channel>)
    ensures var s := SetGuildChannels(t, policy, g, channels);
            s == t.(channels := R.StoreAll(t.channels, g, ChannelEntries(g, channels)), users := s.users)
  {
    if channels != [] {
      var last := |channels| - 1;
      SetGuildChannelsIs(t, policy, g, channels[..last]);
      var entries := ChannelEntries(g, channels);
      assert entries[..|entries| - 1] == ChannelEntries(g, channels[..last]);
      var earlier := SetGuildChannels(t, policy, g, channels[..last]);
      var stamped := channels[last].(guildID := Some(g));
      SetUsersOnlyUsers(earlier.(channels := R.Store(earlier.channels, g, stamped.id, stamped)), policy,
                        channels[last].recipients);
    }
  }

  lemma {:induction false} SetGuildMembersIs(t: Tables, policy: Policy, g: GuildID, members: seq<GuildMember>)
    requires forall i :: 0 <= i < |members| ==> HasUser(members[i])
    ensures var s := SetGuildMembers(t, policy, g, members);
            s == t.(members := R.StoreAll(t.members, g, MemberEntries(policy, members)), users := s.users)
  {
    if members != [] {
      var last := |members| - 1;
      SetGuildMembersIs(t, policy, g, members[..last]);
      var entries := MemberEntries(policy, members);
      if Admitted(policy, members[last]) {
        assert entries[..|entries| - 1] == MemberEntries(policy, members[..last]);
      } else {
        assert entries == MemberEntries(policy, members[..last]);
      }
    }
  }

  lemma SetGuildEmojisIs(t: Tables, policy: Policy, g: GuildID, emojis: seq<Emoji>)
    ensures var s := SetGuildEmojis(t, policy, g, emojis);
            s == t.(emojis := t.emojis[g := emojis], users := s.users)
  {
    SetUsersOnlyUsers(t.(emojis := t.emojis[g := emojis]), policy, EmojiUsers(emojis));
  }

  lemma {:induction false} MemberEntriesConcat(policy: Policy, xs: seq<GuildMember>, ys: seq<GuildMember>)
    requires forall i :: 0 <= i < |xs| ==> HasUser(xs[i])
    requires forall i :: 0 <= i < |ys| ==> HasUser(ys[i])
    ensures forall i :: 0 <= i < |xs + ys| ==> HasUser((xs + ys)[i])
    ensures MemberEntries(policy, xs + ys) == MemberEntries(policy, xs) + MemberEntries(policy, ys)
  {
    if ys == [] {
      assert xs + ys == xs;
    } else {
      var last := |ys| - 1;
      MemberEntriesConcat(policy, xs, ys[..last]);
      assert (xs + ys)[..|xs + ys| - 1] == xs + ys[..last];
    }
  }

  lemma {:induction false} StoreAllConcat<A, B, V>(rows: R.Rows<A, B, V>, a: A, xs: seq<(B, V)>, ys: seq<(B, V)>)
    ensures R.StoreAll(R.StoreAll(rows, a, xs), a, ys) == R.StoreAll(rows, a, xs + ys)
  {
    if ys == [] {
      assert xs + ys == xs;
    } else {
      StoreAllConcat(rows, a, xs, ys[..|ys| - 1]);
      assert (xs + ys)[..|xs + ys| - 1] == xs + ys[..|ys| - 1];
    }
  }

  /** The member a voice state carries, if any. */
  function Carried(state: VoiceState): seq<GuildMember> {
    if state.member.None? then [] else [state.member.value]
  }

  /** Over a dead voice table the write is lost: all it leaves is a row without a table. */
  lemma WriteIsLost(t: Tables, g: GuildID, state: VoiceState)
    requires VoiceDead(t)
    ensures WriteVoiceState(t, g, state) == t.(voice := R.LoadOrNew(t.voice, g))
  {
    hide ParseVoiceState;
    var rows := R.LoadOrNew(t.voice, g);
    assert rows[g] == R.NoTable;
    assert R.Delete(rows, g, state.userID) == rows;
    assert R.Store(rows, g, state.userID, ParseVoiceState(t, g, state.userID, state)) == rows;
    hide R.Delete, R.Store, R.LoadOrNew, VoiceDead;
  }

  lemma CarriedIsStored(t: Tables, policy: Policy, g: GuildID, state: VoiceState)
    requires state.member.Some? ==> HasUser(state.member.value)
    ensures var joined := if state.member.None? then t else SetGuildMember(t, policy, g, state.member.value);
            && joined == t.(members := joined.members, users := joined.users)
            && joined.members == R.StoreAll(t.members, g, MemberEntries(policy, Carried(state)))
  {
    SetGuildMembersIs(t, policy, g, Carried(state));
    assert Carried(state)[..0] == [];
    assert state.member.Some? ==> SetGuildMembers(t, policy, g, []) == t;
  }

  /** With nothing cached before, an update is a lost write, the carried member, and one look at the new channel. */
  lemma UpdateVoiceStateUnfolds(t: Tables, policy: Policy, state: VoiceState, g: GuildID)
    requires VoiceDead(t) && state.guildID == Some(g)
    ensures var written := t.(voice := R.LoadOrNew(t.voice, g));
            UpdateVoiceState(t, policy, state)
            == if state.member.Some? && !HasUser(state.member.value) then Outcome(written, true)
               else
                 var joined := if state.member.None? then written
                               else SetGuildMember(written, policy, g, state.member.value);
                 Outcome(if state.channelID != 0 then ShowOccupancy(joined, policy, g, state.channelID) else joined,
                         false)
  {
    hide ShowOccupancy, SetGuildMember, WriteVoiceState;
    WriteIsLost(t, g, state);
    assert R.Lookup(t.voice, g, state.userID) == None;
  }

  /** Over a dead voice table, an update writes the member it carries and, for a real guild, at most a DM channel. */
  lemma UpdateVoiceStateIs(t: Tables, policy: Policy, state: VoiceState, g: GuildID)
    requires VoiceDead(t) && state.guildID == Some(g)
    ensures var out := UpdateVoiceState(t, policy, state);
            && out.panicked == (state.member.Some? && !HasUser(state.member.value))
            && out.tables.voice == R.LoadOrNew(t.voice, g)
            && out.tables.guilds == t.guilds && out.tables.roles == t.roles && out.tables.emojis == t.emojis
            && out.tables.members == (if out.panicked then t.members
                                      else R.StoreAll(t.members, g, MemberEntries(policy, Carried(state))))
  {
    hide ShowOccupancy, SetGuildMember, UpdateVoiceState, VoiceDead, R.LoadOrNew, R.StoreAll, MemberEntries, Carried;
    UpdateVoiceStateUnfolds(t, policy, state, g);
    var written := t.(voice := R.LoadOrNew(t.voice, g));
    if state.member.None? || HasUser(state.member.value) {
      CarriedIsStored(written, policy, g, state);
      var joined := if state.member.None? then written else SetGuildMember(written, policy, g, state.member.value);
      ShowOccupancyLeaves(joined, policy, g, state.channelID);
    }
  }

  lemma ShowOccupancyLeaves(t: Tables, policy: Policy, g: GuildID, c: ChannelID)
    ensures var s := ShowOccupancy(t, policy, g, c);
            && s.voice == t.voice && s.guilds == t.guilds && s.roles == t.roles && s.emojis == t.emojis
            && s.members == t.members
  {
    hide ShowOccupancy;
    ShowOccupancyIs(t, policy, g, c);
  }

  /** A real guild's channels keep the head counts they came with, whatever voice states arrive. */
  lemma UpdateVoiceStateChannels(t: Tables, policy: Policy, state: VoiceState, g: GuildID)
    requires VoiceDead(t) && state.guildID == Some(g)
    ensures var channels := UpdateVoiceState(t, policy, state).tables.channels;
            if g != 0 then channels == t.channels
            else forall other :: other != g ==> Find(channels, other) == Find(t.channels, other)
  {
    hide ShowOccupancy, SetGuildMember, UpdateVoiceState, VoiceDead, R.LoadOrNew, R.StoreAll, MemberEntries, Carried;
    UpdateVoiceStateUnfolds(t, policy, state, g);
    var written := t.(voice := R.LoadOrNew(t.voice, g));
    if state.member.None? || HasUser(state.member.value) {
      CarriedIsStored(written, policy, g, state);
      var joined := if state.member.None? then written else SetGuildMember(written, policy, g, state.member.value);
      ShowOccupancyIs(joined, policy, g, state.channelID);
    }
  }

  /** The inverted guild test: only guild 0 writes its channel's head count, a real guild touches DM channels. */
  lemma ShowOccupancyIs(t: Tables, policy: Policy, g: GuildID, c: ChannelID)
    ensures var s := ShowOccupancy(t, policy, g, c);
            if g != 0 then s == t.(dms := s.dms) else s == t.(channels := s.channels, users := s.users)
    ensures forall other :: other != g ==>
              Find(ShowOccupancy(t, policy, g, c).channels, other) == Find(t.channels, other)
  {
    var found := GetGuildChannel(t, g, c);
    if found.Some? && g == 0 {
      var channel := found.value.(memberCount := CountMembersForVoiceChannel(t, g, found.value.id));
      var stamped := channel.(guildID := Some(g));
      SetUsersOnlyUsers(t.(channels := R.Store(t.channels, g, channel.id, stamped)), policy, channel.recipients);
    }
  }

  /** The members a guild payload's voice states carry. */
  function VoiceMembers(states: seq<VoiceState>): seq<GuildMember> {
    if states == [] then []
    else
      var last := |states| - 1;
      VoiceMembers(states[..last]) + Carried(states[last])
  }

  /** What voice states carrying `members` do to the guild tables, a dead voice table staying dead. */
  ghost predicate AfterVoice(t: Tables, s: Tables, policy: Policy, g: GuildID, members: seq<GuildMember>)
    requires forall i :: 0 <= i < |members| ==> HasUser(members[i])
  {
    && VoiceDead(s)
    && s.guilds == t.guilds && s.roles == t.roles && s.emojis == t.emojis
    && (g != 0 ==> s.channels == t.channels)
    && s.members == R.StoreAll(t.members, g, MemberEntries(policy, members))
  }

  lemma AfterVoiceComposes(
    t: Tables, s: Tables, u: Tables, policy: Policy, g: GuildID, xs: seq<GuildMember>, ys: seq<GuildMember>)
    requires forall i :: 0 <= i < |xs| ==> HasUser(xs[i])
    requires forall i :: 0 <= i < |ys| ==> HasUser(ys[i])
    requires AfterVoice(t, s, policy, g, xs) && AfterVoice(s, u, policy, g, ys)
    ensures forall i :: 0 <= i < |xs + ys| ==> HasUser((xs + ys)[i])
    ensures AfterVoice(t, u, policy, g, xs + ys)
  {
    MemberEntriesConcat(policy, xs, ys);
    StoreAllConcat(t.members, g, MemberEntries(policy, xs), MemberEntries(policy, ys));
  }

  lemma OneVoiceState(t: Tables, policy: Policy, state: VoiceState, g: GuildID)
    requires VoiceDead(t) && state.guildID == Some(g)
    requires state.member.Some? ==> HasUser(state.member.value)
    ensures !UpdateVoiceState(t, policy, state).panicked
    ensures UpdateVoiceState(t, policy, state).tables.voice == R.LoadOrNew(t.voice, g)
    ensures AfterVoice(t, UpdateVoiceState(t, policy, state).tables, policy, g, Carried(state))
  {
    hide UpdateVoiceState;
    UpdateVoiceStateIs(t, policy, state, g);
    UpdateVoiceStateChannels(t, policy, state, g);
  }

  lemma {:induction false} UpdateVoiceStatesIs(t: Tables, policy: Policy, g: GuildID, states: seq<VoiceState>)
    requires VoiceDead(t)
    requires forall i :: 0 <= i < |VoiceMembers(states)| ==> HasUser(VoiceMembers(states)[i])
    ensures !UpdateVoiceStates(t, policy, g, states).panicked
    ensures UpdateVoiceStates(t, policy, g, states).tables.voice
         == if states == [] then t.voice else R.LoadOrNew(t.voice, g)
    ensures AfterVoice(t, UpdateVoiceStates(t, policy, g, states).tables, policy, g, VoiceMembers(states))
  {
    if states != [] {
      hide UpdateVoiceState, AfterVoice;
      var last := |states| - 1;
      var init, state := states[..last], states[last].(guildID := Some(g));
      forall i | 0 <= i < |VoiceMembers(init)| ensures HasUser(VoiceMembers(init)[i]) {
        assert VoiceMembers(init)[i] == VoiceMembers(states)[i];
      }
      assert state.member.Some? ==> VoiceMembers(states)[|VoiceMembers(init)|] == state.member.value;
      UpdateVoiceStatesIs(t, policy, g, init);
      var earlier := UpdateVoiceStates(t, policy, g, init).tables;
      assert VoiceDead(earlier);
      OneVoiceState(earlier, policy, state, g);
      AfterVoiceComposes(t, earlier, UpdateVoiceState(earlier, policy, state).tables, policy, g, VoiceMembers(init),
                         Carried(state));
    }
  }

  /** A payload no write of which panics: role ids are set and every member has a user. */
  ghost predicate Storable(guild: Guild) {
    && (forall i :: 0 <= i < |guild.roles| ==> HasId(guild.roles[i]))
    && (forall i :: 0 <= i < |Listed(guild.members)| ==> HasUser(Listed(guild.members)[i]))
    && (forall i :: 0 <= i < |VoiceMembers(Listed(guild.voiceStates))| ==>
          HasUser(VoiceMembers(Listed(guild.voiceStates))[i]))
  }

  /** Every member a guild payload writes, in order: its members, then those of its voice states. */
  function AllMembers(guild: Guild): seq<GuildMember> {
    Listed(guild.members) + VoiceMembers(Listed(guild.voiceStates))
  }

  lemma AllMembersHaveUsers(guild: Guild)
    requires Storable(guild)
    ensures forall i :: 0 <= i < |AllMembers(guild)| ==> HasUser(AllMembers(guild)[i])
  {
  }

  /** SetGuild in closed form: which table gets which entries. */
  lemma SetGuildIs(t: Tables, policy: Policy, guild: Guild)
    requires VoiceDead(t) && Storable(guild)
    ensures forall i :: 0 <= i < |AllMembers(guild)| ==> HasUser(AllMembers(guild)[i])
    ensures var out := SetGuild(t, policy, guild);
            var g := guild.id;
            && !out.panicked
            && out.tables.guilds == t.guilds[g := guild]
            && out.tables.roles == R.StoreAll(t.roles, g, RoleEntries(guild.roles))
            && (g != 0 || Listed(guild.voiceStates) == [] ==>
                  out.tables.channels == R.StoreAll(t.channels, g, ChannelEntries(g, Listed(guild.channels))))
            && out.tables.emojis == t.emojis[g := guild.emojis]
            && out.tables.members == R.StoreAll(t.members, g, MemberEntries(policy, AllMembers(guild)))
            && out.tables.voice
               == (if Listed(guild.voiceStates) == [] then t.voice else R.LoadOrNew(t.voice, g))
  {
    var g := guild.id;
    var members := Listed(guild.members);
    PrefixIs(guild.roles, HasId, |guild.roles|);
    PrefixIs(members, HasUser, |members|);
    assert guild.roles[..|guild.roles|] == guild.roles && members[..|members|] == members;
    var stored := t.(guilds := t.guilds[g := guild]);
    SetGuildRolesIs(stored, g, guild.roles);
    var withRoles := SetGuildRoles(stored, g, guild.roles);
    SetGuildChannelsIs(withRoles, policy, g, Listed(guild.channels));
    var withChannels := SetGuildChannels(withRoles, policy, g, Listed(guild.channels));
    SetGuildEmojisIs(withChannels, policy, g, guild.emojis);
    var withEmojis := SetGuildEmojis(withChannels, policy, g, guild.emojis);
    SetGuildMembersIs(withEmojis, policy, g, members);
    var withMembers := SetGuildMembers(withEmojis, policy, g, members);
    var states := Listed(guild.voiceStates);
    UpdateVoiceStatesIs(withMembers, policy, g, states);
    MemberEntriesConcat(policy, members, VoiceMembers(states));
    StoreAllConcat(t.members, g, MemberEntries(policy, members), MemberEntries(policy, VoiceMembers(states)));
  }

  // ---------------------------------------------------------------------------------------------------------
  // What is read

  lemma {:induction false} VisitsAll<K>(ks: seq<K>, keys: set<K>)
    requires Enumerates(ks, keys)
    ensures |ks| == |keys|
  {
    if ks == [] {
      assert keys == {};
    } else {
      var init, last := ks[..|ks| - 1], ks[|ks| - 1];
      assert ks == init + [last];
      VisitsAll(init, keys - {last});
    }
  }

  /** A table listed in any order: as many elements as entries, and exactly the values of the entries. */
  lemma ListedIs<K(!new), V>(list: seq<V>, m: map<K, V>, v: V)
    requires Lists(list, m)
    ensures |list| == |m|
    ensures v in list <==> exists k :: k in m && m[k] == v
  {
    var ks: seq<K> :| Enumerates(ks, m.Keys) && ListsAlong(list, m, ks);
    VisitsAll(ks, m.Keys);
    assert |m.Keys| == |m|;
    if k :| k in m && m[k] == v {
      assert k in ks;
      var i :| 0 <= i < |ks| && ks[i] == k;
      assert list[i] == v;
    }
    if v in list {
      var i :| 0 <= i < |list| && list[i] == v;
      assert ks[i] in m && m[ks[i]] == v;
    }
  }

  /**
   GetGuild, field by field: a guild is read exactly when its entry, a role row, an emoji entry and a member row are
   there; its scalar fields are the entry's, but for the AFK default and the approximate count.
   */
  lemma FieldsAreRead(t: Tables, g: GuildID, r: Option<Guild>)
    requires ReadsGuild(t, g, r)
    ensures r.Some? <==> g in t.guilds && g in t.roles && g in t.emojis && g in t.members
    ensures r.Some? ==>
              var read, stored := r.value, t.guilds[g];
              && read.id == stored.id && read.name == stored.name && read.memberCount == stored.memberCount
              && read.large == stored.large && read.joinedAt == stored.joinedAt && read.stickers == stored.stickers
              && read.stageInstances == stored.stageInstances
              && read.approximateMemberCount == stored.memberCount
              && read.afkChannelID == (if stored.afkChannelID.Some? then stored.afkChannelID else Some(stored.id))
              && read.emojis == t.emojis[g]
  {
    hide Lists;
    if r.Some? {
      assert Core(r.value) == ReadCore(t.guilds[g]);
      CoreFields(r.value, t.guilds[g]);
    }
  }

  lemma CoreFields(read: Guild, stored: Guild)
    requires Core(read) == ReadCore(stored)
    ensures read.id == stored.id && read.name == stored.name && read.memberCount == stored.memberCount
    ensures read.large == stored.large && read.joinedAt == stored.joinedAt && read.stickers == stored.stickers
    ensures read.stageInstances == stored.stageInstances && read.approximateMemberCount == stored.memberCount
    ensures read.afkChannelID == if stored.afkChannelID.Some? then stored.afkChannelID else Some(stored.id)
  {
    var c, d := Core(read), ReadCore(stored);
    assert c.id == d.id && c.name == d.name && c.memberCount == d.memberCount && c.large == d.large
        && c.joinedAt == d.joinedAt && c.stickers == d.stickers && c.stageInstances == d.stageInstances
        && c.approximateMemberCount == d.approximateMemberCount && c.afkChannelID == d.afkChannelID;
  }

  /** Its lists hold the rows' entries, each once and none else; a role stored without an id gets its key as the id. */
  lemma ListsAreRead(
    t: Tables, g: GuildID, r: Guild, role: Role, channel: Channel, member: GuildMember, state: VoiceState)
    requires ReadsGuild(t, g, Some(r))
    ensures r.channels.Some? && r.members.Some? && r.voiceStates.Some?
    ensures |r.roles| == |R.EntriesAt(t.roles, g)| && |r.channels.value| == |R.EntriesAt(t.channels, g)|
    ensures |r.members.value| == |R.EntriesAt(t.members, g)| && |r.voiceStates.value| == |R.EntriesAt(t.voice, g)|
    ensures role in r.roles
       <==> exists k :: R.Lookup(t.roles, g, k).Some? && IsNamed(role, R.Lookup(t.roles, g, k).value, k)
    ensures channel in r.channels.value <==> InRow(channel, t.channels, g)
    ensures member in r.members.value <==> InRow(member, t.members, g)
    ensures state in r.voiceStates.value <==> InRow(state, t.voice, g)
  {
    hide Lists, Core, ReadCore, InRow;
    RowIsListed(r.channels.value, t.channels, g, channel);
    RowIsListed(r.members.value, t.members, g, member);
    RowIsListed(r.voiceStates.value, t.voice, g, state);
    RolesAreListed(r.roles, t.roles, g, role);
  }

  ghost predicate InRow<K(!new), V>(v: V, rows: R.Rows<GuildID, K, V>, g: GuildID) {
    exists k :: R.Lookup(rows, g, k) == Some(v)
  }

  predicate IsNamed(role: Role, stored: Role, k: RoleID) {
    role.name == stored.name && role.id == (if stored.id == 0 then k else stored.id)
  }

  lemma RowIsListed<K(!new), V>(list: seq<V>, rows: R.Rows<GuildID, K, V>, g: GuildID, v: V)
    requires Lists(list, R.EntriesAt(rows, g))
    ensures |list| == |R.EntriesAt(rows, g)|
    ensures v in list <==> InRow(v, rows, g)
  {
    hide Lists;
    var row := R.EntriesAt(rows, g);
    ListedIs(list, row, v);
    if k :| k in row && row[k] == v {
      assert R.Lookup(rows, g, k) == Some(v);
    }
  }

  lemma RolesAreListed(list: seq<Role>, rows: R.Rows<GuildID, RoleID, Role>, g: GuildID, role: Role)
    requires Lists(list, NamedRoles(R.EntriesAt(rows, g)))
    ensures |list| == |R.EntriesAt(rows, g)|
    ensures role in list <==> exists k :: R.Lookup(rows, g, k).Some? && IsNamed(role, R.Lookup(rows, g, k).value, k)
  {
    hide Lists;
    var row := R.EntriesAt(rows, g);
    ListedIs(list, NamedRoles(row), role);
    assert NamedRoles(row).Keys == row.Keys && |row.Keys| == |row| && |NamedRoles(row).Keys| == |NamedRoles(row)|;
    forall k
      ensures k in NamedRoles(row) && NamedRoles(row)[k] == role
         <==> R.Lookup(rows, g, k).Some? && IsNamed(role, R.Lookup(rows, g, k).value, k)
    {
    }
  }

  // ---------------------------------------------------------------------------------------------------------
  // Write, then read

  lemma {:induction false} SomeMemberIsAdmitted(policy: Policy, members: seq<GuildMember>)
    requires forall i :: 0 <= i < |members| ==> HasUser(members[i])
    ensures MemberEntries(policy, members) != [] <==> exists m :: m in members && HasUser(m) && Admitted(policy, m)
  {
    if members != [] {
      var last := |members| - 1;
      SomeMemberIsAdmitted(policy, members[..last]);
      assert members == members[..last] + [members[last]];
    }
  }

  /** Whether some member of the payload passes the caching rule. */
  ghost predicate AdmitsSomeone(policy: Policy, guild: Guild) {
    exists m :: m in AllMembers(guild) && HasUser(m) && Admitted(policy, m)
  }

  /** The rows SetGuild leaves: the old ones overridden by the payload's entries, the last one of each id winning. */
  lemma RowsAfterSetGuild(t: Tables, policy: Policy, guild: Guild)
    requires Invariant(t) && Storable(guild) && guild.id != 0
    ensures forall i :: 0 <= i < |AllMembers(guild)| ==> HasUser(AllMembers(guild)[i])
    ensures var out, g := SetGuild(t, policy, guild).tables, guild.id;
            && R.EntriesAt(out.roles, g) == R.EntriesAt(t.roles, g) + R.AsMap(RoleEntries(guild.roles))
            && R.EntriesAt(out.channels, g)
               == R.EntriesAt(t.channels, g) + R.AsMap(ChannelEntries(g, Listed(guild.channels)))
            && R.EntriesAt(out.members, g)
               == R.EntriesAt(t.members, g) + R.AsMap(MemberEntries(policy, AllMembers(guild)))
            && R.EntriesAt(out.voice, g) == map[]
            && NamedRoles(R.EntriesAt(out.roles, g)) == R.EntriesAt(out.roles, g)
            && (g in out.roles <==> g in t.roles || guild.roles != [])
            && (g in out.members <==> g in t.members || AdmitsSomeone(policy, guild))
            && g in out.guilds && out.guilds[g] == guild && g in out.emojis && out.emojis[g] == guild.emojis
  {
    hide SetGuild;
    var g := guild.id;
    AllMembersHaveUsers(guild);
    SetGuildIs(t, policy, guild);
    R.StoreAllReadBack(t.roles, g, RoleEntries(guild.roles));
    R.StoreAllReadBack(t.channels, g, ChannelEntries(g, Listed(guild.channels)));
    R.StoreAllReadBack(t.members, g, MemberEntries(policy, AllMembers(guild)));
    SomeMemberIsAdmitted(policy, AllMembers(guild));
    RolesAreNamed(t, g, guild.roles);
  }

  /**
   What GetGuild returns after SetGuild. For a guild seen for the first time the old rows are empty: it is then
   readable exactly when it has a role and an admitted member, and reads back as written.
   */
  lemma WriteThenRead(t: Tables, policy: Policy, guild: Guild, r: Guild)
    requires Invariant(t) && Storable(guild) && guild.id != 0
    ensures forall i :: 0 <= i < |AllMembers(guild)| ==> HasUser(AllMembers(guild)[i])
    ensures var out, g := SetGuild(t, policy, guild).tables, guild.id;
            && (Readable(out, g) <==>
                  (g in t.roles || guild.roles != []) && (g in t.members || AdmitsSomeone(policy, guild)))
            && (ReadsGuild(out, g, Some(r)) ==>
                  && Lists(r.roles, R.EntriesAt(t.roles, g) + R.AsMap(RoleEntries(guild.roles)))
                  && r.channels.Some?
                  && Lists(r.channels.value,
                           R.EntriesAt(t.channels, g) + R.AsMap(ChannelEntries(g, Listed(guild.channels))))
                  && r.members.Some?
                  && Lists(r.members.value,
                           R.EntriesAt(t.members, g) + R.AsMap(MemberEntries(policy, AllMembers(guild))))
                  && r.emojis == guild.emojis
                  && r.voiceStates == Some([])
                  && r.id == g && r.name == guild.name && r.memberCount == guild.memberCount
                  && r.approximateMemberCount == guild.memberCount && r.large == guild.large
                  && r.joinedAt == guild.joinedAt && r.stickers == guild.stickers
                  && r.stageInstances == guild.stageInstances
                  && r.afkChannelID == (if guild.afkChannelID.Some? then guild.afkChannelID else Some(g)))
  {
    hide SetGuild, Invariant, Storable, Lists, NamedRoles, AdmitsSomeone;
    RowsAfterSetGuild(t, policy, guild);
    var out, g := SetGuild(t, policy, guild).tables, guild.id;
    if ReadsGuild(out, g, Some(r)) {
      ListsNothing(r.voiceStates.value, R.EntriesAt(out.voice, g));
      FieldsAreRead(out, g, Some(r));
    }
  }

  lemma NothingToVisit<K>(ks: seq<K>, keys: set<K>)
    requires Enumerates(ks, keys)
    ensures keys == {} ==> ks == []
  {
    if ks != [] {
      assert ks[0] in keys;
    }
  }

  lemma ListsNothing<K(!new), V>(list: seq<V>, m: map<K, V>)
    requires Lists(list, m) && m == map[]
    ensures list == []
  {
    var ks: seq<K> :| Enumerates(ks, m.Keys) && ListsAlong(list, m, ks);
    NothingToVisit(ks, m.Keys);
  }

  lemma NamedIsSame(m: map<RoleID, Role>)
    requires forall k :: k in m ==> m[k].id != 0
    ensures NamedRoles(m) == m
  {
  }

  /** No stored role has id 0, so the listing's repair of a missing id never fires. */
  lemma RolesAreNamed(t: Tables, g: GuildID, roles: seq<Role>)
    requires RolesOk(t.roles)
    requires forall i :: 0 <= i < |roles| ==> HasId(roles[i])
    ensures var entries := R.EntriesAt(t.roles, g) + R.AsMap(RoleEntries(roles)); NamedRoles(entries) == entries
  {
    hide NamedRoles;
    var before, added := R.EntriesAt(t.roles, g), R.AsMap(RoleEntries(roles));
    var entries: map<RoleID, Role> := before + added;
    forall k | k in entries
      ensures entries[k].id != 0
    {
      if k in added {
        RoleMapHasIds(roles, k);
      } else {
        assert k in t.roles[g].Entries() && entries[k] == before[k] == t.roles[g].Entries()[k];
      }
    }
    NamedIsSame(entries);
  }

  lemma {:induction false} RoleMapHasIds(roles: seq<Role>, k: RoleID)
    requires forall i :: 0 <= i < |roles| ==> HasId(roles[i])
    requires k in R.AsMap(RoleEntries(roles))
    ensures R.AsMap(RoleEntries(roles))[k].id == k && HasId(R.AsMap(RoleEntries(roles))[k])
  {
    var last, entries := |roles| - 1, RoleEntries(roles);
    assert entries[..|entries| - 1] == RoleEntries(roles[..last]);
    if k != roles[last].id {
      RoleMapHasIds(roles[..last], k);
    } else {
      assert HasId(roles[last]);
    }
  }

  // ---------------------------------------------------------------------------------------------------------
  // Read, then write

  lemma {:induction false} RoleEntriesAt(roles: seq<Role>, i: nat)
    requires i < |roles|
    ensures |RoleEntries(roles)| == |roles| && RoleEntries(roles)[i] == (roles[i].id, roles[i])
  {
    var last := |roles| - 1;
    if last > 0 {
      RoleEntriesAt(roles[..last], if i < last then i else 0);
    }
  }

  lemma {:induction false} ChannelEntriesAt(g: GuildID, channels: seq<Channel>, i: nat)
    requires i < |channels|
    ensures |ChannelEntries(g, channels)| == |channels|
    ensures ChannelEntries(g, channels)[i] == (channels[i].id, channels[i].(guildID := Some(g)))
  {
    var last := |channels| - 1;
    if last > 0 {
      ChannelEntriesAt(g, channels[..last], if i < last then i else 0);
    }
  }

  lemma {:induction false} MemberEntriesAreMembers(policy: Policy, members: seq<GuildMember>, i: nat)
    requires forall j :: 0 <= j < |members| ==> HasUser(members[j])
    requires i < |MemberEntries(policy, members)|
    ensures var kv := MemberEntries(policy, members)[i];
            kv.1 in members && HasUser(kv.1) && kv.0 == kv.1.user.value.id
  {
    var last := |members| - 1;
    assert members == members[..last] + [members[last]];
    if i < |MemberEntries(policy, members[..last])| {
      MemberEntriesAreMembers(policy, members[..last], i);
    }
  }

  lemma ListedIsAnEntry<K(!new), V>(list: seq<V>, m: map<K, V>, v: V) returns (k: K)
    requires Lists(list, m) && v in list
    ensures k in m && m[k] == v
  {
    var ks: seq<K> :| Enumerates(ks, m.Keys) && ListsAlong(list, m, ks);
    var i :| 0 <= i < |list| && list[i] == v;
    k := ks[i];
  }

  /** `guild` carries the lists of a guild just read, whatever else it says. */
  ghost predicate CarriesLists(guild: Guild, r: Guild) {
    && guild.id == r.id && guild.roles == r.roles && guild.channels == r.channels && guild.members == r.members
    && guild.voiceStates == r.voiceStates && guild.emojis == r.emojis
  }

  lemma ReadRolesAreStored(t: Tables, g: GuildID, r: Guild)
    requires Invariant(t) && ReadsGuild(t, g, Some(r))
    ensures forall i :: 0 <= i < |r.roles| ==> HasId(r.roles[i])
    ensures R.StoreAll(t.roles, g, RoleEntries(r.roles)) == t.roles
  {
    forall i | 0 <= i < |r.roles|
      ensures HasId(r.roles[i]) && R.Lookup(t.roles, g, r.roles[i].id) == Some(r.roles[i])
    {
      var k := ListedIsAnEntry(r.roles, NamedRoles(R.EntriesAt(t.roles, g)), r.roles[i]);
      assert k in t.roles[g].Entries();
    }
    if r.roles != [] { RoleEntriesAt(r.roles, 0); }
    forall i | 0 <= i < |RoleEntries(r.roles)|
      ensures R.Lookup(t.roles, g, RoleEntries(r.roles)[i].0) == Some(RoleEntries(r.roles)[i].1)
    {
      RoleEntriesAt(r.roles, i);
    }
    R.StoreAllIdempotent(t.roles, g, RoleEntries(r.roles));
  }

  lemma ReadChannelsAreStored(t: Tables, g: GuildID, r: Guild)
    requires Invariant(t) && ReadsGuild(t, g, Some(r))
    ensures R.StoreAll(t.channels, g, ChannelEntries(g, r.channels.value)) == t.channels
  {
    var channels := r.channels.value;
    var entries := ChannelEntries(g, channels);
    if channels != [] { ChannelEntriesAt(g, channels, 0); }
    forall i | 0 <= i < |entries|
      ensures R.Lookup(t.channels, g, entries[i].0) == Some(entries[i].1)
    {
      ChannelEntriesAt(g, channels, i);
      var k := ListedIsAnEntry(channels, R.EntriesAt(t.channels, g), channels[i]);
      assert k in t.channels[g].Entries();
    }
    R.StoreAllIdempotent(t.channels, g, entries);
  }

  lemma ReadMembersAreStored(t: Tables, policy: Policy, g: GuildID, r: Guild)
    requires Invariant(t) && ReadsGuild(t, g, Some(r))
    ensures forall i :: 0 <= i < |r.members.value| ==> HasUser(r.members.value[i])
    ensures R.StoreAll(t.members, g, MemberEntries(policy, r.members.value)) == t.members
  {
    var members := r.members.value;
    forall i | 0 <= i < |members|
      ensures HasUser(members[i]) && R.Lookup(t.members, g, members[i].user.value.id) == Some(members[i])
    {
      var k := ListedIsAnEntry(members, R.EntriesAt(t.members, g), members[i]);
      assert k in t.members[g].Entries();
    }
    var entries := MemberEntries(policy, members);
    forall i | 0 <= i < |entries|
      ensures R.Lookup(t.members, g, entries[i].0) == Some(entries[i].1)
    {
      MemberEntriesAreMembers(policy, members, i);
    }
    R.StoreAllIdempotent(t.members, g, entries);
  }

  /** A guild that carries the lists just read is stored without a panic and leaves every other table alone. */
  lemma ReadThenWrite(t: Tables, policy: Policy, g: GuildID, r: Guild, guild: Guild)
    requires Invariant(t) && ReadsGuild(t, g, Some(r)) && CarriesLists(guild, r)
    ensures r.id == g
    ensures var out := SetGuild(t, policy, guild);
            && !out.panicked
            && out.tables == t.(guilds := t.guilds[g := guild], users := out.tables.users, dms := out.tables.dms)
  {
    hide SetGuild, Lists, R.StoreAll, RoleEntries, ChannelEntries, MemberEntries;
    ListsNothing(r.voiceStates.value, R.EntriesAt(t.voice, g));
    ReadRolesAreStored(t, g, r);
    ReadChannelsAreStored(t, g, r);
    ReadMembersAreStored(t, policy, g, r);
    assert AllMembers(guild) == r.members.value;
    SetGuildIs(t, policy, guild);
  }

  /** Reading a guild and writing it back changes no later read, of that guild or of any other. */
  lemma ReadThenWriteBack(t: Tables, policy: Policy, g: GuildID, r: Guild, other: GuildID, x: Option<Guild>)
    requires Invariant(t) && ReadsGuild(t, g, Some(r))
    ensures ReadsGuild(SetGuild(t, policy, r).tables, other, x) <==> ReadsGuild(t, other, x)
  {
    ReadThenWrite(t, policy, g, r, r);
    assert ReadCore(r) == ReadCore(t.guilds[g]);
  }
}
