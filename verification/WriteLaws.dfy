/** What writing a whole guild leaves, entry by entry, and what GUILD_CREATE and GUILD_UPDATE make of it. */
module WriteLaws {
  import opened Wrappers
  import opened Discord
  import opened Tables
  import opened Dedupe
  import opened Events
  import opened GuildLaws
  import opened EntryLaws
  import opened Invariants
  import opened Confluence
  import opened Ejector
  import R = Rows

  // ---------------------------------------------------------------------------------------------------------
  // Which payloads panic

  predicate CarriesNobody(state: VoiceState) {
    state.member.Some? && state.member.value.user.None?
  }

  ghost predicate SomeCarriesNobody(states: seq<VoiceState>) {
    exists s :: s in states && CarriesNobody(s)
  }

  lemma OneMoreState(init: seq<VoiceState>, last: VoiceState)
    ensures SomeCarriesNobody(init + [last]) <==> SomeCarriesNobody(init) || CarriesNobody(last)
  {
    hide CarriesNobody;
    assert last in init + [last];
    if s :| s in init && CarriesNobody(s) {
      assert s in init + [last];
    }
  }

  /** Over a dead voice table the voice states of a payload panic exactly on a carried member without a user. */
  lemma {:induction false} VoiceStatesPanicIff(t: Tables, policy: Policy, g: GuildID, states: seq<VoiceState>)
    requires VoiceDead(t)
    ensures UpdateVoiceStates(t, policy, g, states).panicked <==> SomeCarriesNobody(states)
    ensures VoiceDead(UpdateVoiceStates(t, policy, g, states).tables)
  {
    if states != [] {
      hide UpdateVoiceState, SomeCarriesNobody;
      var init, last := states[..|states| - 1], states[|states| - 1];
      assert states == init + [last];
      OneMoreState(init, last);
      VoiceStatesPanicIff(t, policy, g, init);
      UpdateVoiceStateIs(UpdateVoiceStates(t, policy, g, init).tables, policy, last.(guildID := Some(g)), g);
    }
  }

  lemma {:induction false} VoiceMembersHaveUsersIff(states: seq<VoiceState>)
    ensures HaveUsers(VoiceMembers(states)) <==> !SomeCarriesNobody(states)
  {
    if states != [] {
      hide SomeCarriesNobody;
      var init, last := states[..|states| - 1], states[|states| - 1];
      assert states == init + [last];
      OneMoreState(init, last);
      VoiceMembersHaveUsersIff(init);
      var earlier := VoiceMembers(init);
      assert VoiceMembers(states) == earlier + Carried(last);
      assert forall i :: 0 <= i < |earlier| ==> VoiceMembers(states)[i] == earlier[i];
      assert last.member.Some? ==> VoiceMembers(states)[|earlier|] == last.member.value;
      assert forall i :: |earlier| <= i < |VoiceMembers(states)| ==> last.member == Some(VoiceMembers(states)[i]);
    }
  }

  /**
   Writing a guild panics exactly on a role with id 0, a member without a user, or a voice state that carries a member
   without a user; and a payload that has none of these is what the other laws call storable.
   */
  lemma WritePanicsIff(t: Tables, policy: Policy, guild: Guild)
    requires Invariant(t)
    ensures SetGuild(t, policy, guild).panicked
       <==> (exists r :: r in guild.roles && r.id == 0)
            || (exists m :: m in Listed(guild.members) && m.user.None?)
            || SomeCarriesNobody(Listed(guild.voiceStates))
    ensures Storable(guild) <==> !SetGuild(t, policy, guild).panicked
  {
    hide Invariant, SetGuild, SomeCarriesNobody, Prefix, Storable, HaveIds, HaveUsers;
    RolesPrefixIff(guild.roles);
    MembersPrefixIff(Listed(guild.members));
    PanicsInSomePart(t, policy, guild);
    StorableIff(guild);
  }

  ghost predicate HaveIds(roles: seq<Role>) {
    forall i :: 0 <= i < |roles| ==> HasId(roles[i])
  }

  ghost predicate HaveUsers(members: seq<GuildMember>) {
    forall i :: 0 <= i < |members| ==> HasUser(members[i])
  }

  lemma StorableIff(guild: Guild)
    ensures Storable(guild)
       <==> HaveIds(guild.roles) && HaveUsers(Listed(guild.members)) && !SomeCarriesNobody(Listed(guild.voiceStates))
  {
    hide SomeCarriesNobody, Listed;
    var members, carried := Listed(guild.members), VoiceMembers(Listed(guild.voiceStates));
    VoiceMembersHaveUsersIff(Listed(guild.voiceStates));
    if Storable(guild) {
      assert HaveIds(guild.roles) && HaveUsers(members) && HaveUsers(carried);
    }
    if HaveIds(guild.roles) && HaveUsers(members) && HaveUsers(carried) {
      assert Storable(guild);
    }
    assert HaveUsers(carried) <==> !SomeCarriesNobody(Listed(guild.voiceStates));
  }

  lemma RolesPrefixIff(roles: seq<Role>)
    ensures Prefix(roles, HasId) == roles <==> HaveIds(roles)
    ensures !HaveIds(roles) <==> exists r :: r in roles && r.id == 0
  {
    PrefixSplits(roles, HasId);
    if Prefix(roles, HasId) == roles {
      forall i | 0 <= i < |roles|
        ensures HasId(roles[i])
      {
        assert HasId(Prefix(roles, HasId)[i]);
      }
    } else {
      assert !HasId(roles[|Prefix(roles, HasId)|]);
    }
  }

  lemma MembersPrefixIff(members: seq<GuildMember>)
    ensures Prefix(members, HasUser) == members <==> HaveUsers(members)
    ensures !HaveUsers(members) <==> exists m :: m in members && m.user.None?
  {
    PrefixSplits(members, HasUser);
    if Prefix(members, HasUser) == members {
      forall i | 0 <= i < |members|
        ensures HasUser(members[i])
      {
        assert HasUser(Prefix(members, HasUser)[i]);
      }
    } else {
      assert !HasUser(members[|Prefix(members, HasUser)|]);
    }
  }

  lemma PanicsInSomePart(t: Tables, policy: Policy, guild: Guild)
    requires Invariant(t)
    ensures SetGuild(t, policy, guild).panicked
       <==> Prefix(guild.roles, HasId) != guild.roles
            || Prefix(Listed(guild.members), HasUser) != Listed(guild.members)
            || SomeCarriesNobody(Listed(guild.voiceStates))
  {
    hide SomeCarriesNobody, UpdateVoiceStates, Prefix;
    var g, members := guild.id, Prefix(Listed(guild.members), HasUser);
    PrefixSplits(Listed(guild.members), HasUser);
    var t1 := SetGuildRoles(t.(guilds := t.guilds[g := guild]), g, Prefix(guild.roles, HasId));
    SetGuildRolesIs(t.(guilds := t.guilds[g := guild]), g, Prefix(guild.roles, HasId));
    var t2 := SetGuildChannels(t1, policy, g, Listed(guild.channels));
    SetGuildChannelsIs(t1, policy, g, Listed(guild.channels));
    var t3 := SetGuildEmojis(t2, policy, g, guild.emojis);
    SetGuildEmojisIs(t2, policy, g, guild.emojis);
    var t4 := SetGuildMembers(t3, policy, g, members);
    SetGuildMembersIs(t3, policy, g, members);
    assert VoiceDead(t4);
    VoiceStatesPanicIff(t4, policy, g, Listed(guild.voiceStates));
  }

  // ---------------------------------------------------------------------------------------------------------
  // The entries a write leaves

  /** The guild entry is the payload and the emoji list is its own; no other guild's entry or list changes. */
  lemma EntryIsWritten(t: Tables, policy: Policy, guild: Guild)
    requires Invariant(t) && Storable(guild)
    ensures var out, g := SetGuild(t, policy, guild).tables, guild.id;
            out.guilds == t.guilds[g := guild] && out.emojis == t.emojis[g := guild.emojis]
  {
    hide SetGuild, Storable;
    SetGuildIs(t, policy, guild);
  }

  /** The last role of an id is the cached one; a role the payload does not name stays. */
  lemma RolesAreWritten(t: Tables, policy: Policy, guild: Guild, k: RoleID, i: nat)
    requires Invariant(t) && Storable(guild)
    ensures var out, g, roles := SetGuild(t, policy, guild).tables, guild.id, guild.roles;
            && (i < |roles| && roles[i].id == k && (forall j :: i < j < |roles| ==> roles[j].id != k) ==>
                  R.Lookup(out.roles, g, k) == Some(roles[i]))
            && ((forall j :: 0 <= j < |roles| ==> roles[j].id != k) ==>
                  R.Lookup(out.roles, g, k) == R.Lookup(t.roles, g, k))
  {
    assert VoiceDead(t) && R.Reachable(t.roles, guild.id);
    hide Invariant, SetGuild, Storable, R.StoreAll, R.Lookup, R.Reachable, VoiceDead;
    SetGuildIs(t, policy, guild);
    SetGuildRolesIs(t, guild.id, guild.roles);
    RolesAreStored(t, guild.id, guild.roles, k, i);
  }

  /** The last channel of an id is the cached one, stamped with the guild; a channel the payload does not name stays. */
  lemma ChannelsAreWritten(t: Tables, policy: Policy, guild: Guild, k: ChannelID, i: nat)
    requires Invariant(t) && Storable(guild) && (guild.id != 0 || Listed(guild.voiceStates) == [])
    ensures var out, g, channels := SetGuild(t, policy, guild).tables, guild.id, Listed(guild.channels);
            && (i < |channels| && channels[i].id == k && (forall j :: i < j < |channels| ==> channels[j].id != k) ==>
                  R.Lookup(out.channels, g, k) == Some(channels[i].(guildID := Some(g))))
            && ((forall j :: 0 <= j < |channels| ==> channels[j].id != k) ==>
                  R.Lookup(out.channels, g, k) == R.Lookup(t.channels, g, k))
  {
    assert VoiceDead(t) && R.Reachable(t.channels, guild.id);
    hide Invariant, SetGuild, Storable, R.StoreAll, R.Lookup, R.Reachable, VoiceDead, Recipients, SetUsers;
    SetGuildIs(t, policy, guild);
    SetGuildChannelsIs(t, policy, guild.id, Listed(guild.channels));
    ChannelsAreStored(t, policy, guild.id, Listed(guild.channels), k, i);
  }

  /** The last admitted member of a user is the cached one, those the voice states carry coming last. */
  lemma MembersAreWritten(t: Tables, policy: Policy, guild: Guild, u: UserID, i: nat)
    requires Invariant(t) && Storable(guild)
    ensures var out, g := SetGuild(t, policy, guild).tables, guild.id;
            && (LastMemberAt(AllMembers(guild), i, u) && KeepsMember(policy, u) ==>
                  R.Lookup(out.members, g, u) == Some(AllMembers(guild)[i]))
            && (!KeepsMember(policy, u) || !NamesMember(AllMembers(guild), u) ==>
                  R.Lookup(out.members, g, u) == R.Lookup(t.members, g, u))
  {
    assert VoiceDead(t) && R.Reachable(t.members, guild.id);
    hide Invariant, SetGuild, Storable, R.StoreAll, R.Lookup, R.Reachable, VoiceDead, AllMembers, NamesMember,
      KeepsMember;
    SetGuildIs(t, policy, guild);
    SetGuildMembersIs(t, policy, guild.id, AllMembers(guild));
    MembersAreStored(t, policy, guild.id, AllMembers(guild), u, i);
  }

  /** A payload without voice states writes the members it lists and no others. */
  lemma MembersOfPayload(guild: Guild)
    ensures Listed(guild.voiceStates) == [] ==> AllMembers(guild) == Listed(guild.members)
  {
  }

  // ---------------------------------------------------------------------------------------------------------
  // The users a write leaves

  /** The users of the members the rule admits. */
  function MemberUsers(policy: Policy, members: seq<GuildMember>): seq<User> {
    if members == [] then []
    else
      var init, last := members[..|members| - 1], members[|members| - 1];
      MemberUsers(policy, init)
        + (if last.user.Some? && KeepsMember(policy, last.user.value.id) then [last.user.value] else [])
  }

  lemma {:induction false} MemberUsersAre(policy: Policy, members: seq<GuildMember>, user: User)
    ensures user in MemberUsers(policy, members)
       <==> KeepsMember(policy, user.id) && exists m :: m in members && m.user == Some(user)
  {
    if members != [] {
      hide KeepsMember;
      var init, last := members[..|members| - 1], members[|members| - 1];
      MemberUsersAre(policy, init, user);
      assert members == init + [last];
    }
  }

  lemma {:induction false} MemberUsersConcat(policy: Policy, xs: seq<GuildMember>, ys: seq<GuildMember>)
    ensures MemberUsers(policy, xs + ys) == MemberUsers(policy, xs) + MemberUsers(policy, ys)
  {
    hide KeepsMember;
    if ys == [] {
      assert xs + ys == xs;
    } else {
      MemberUsersConcat(policy, xs, ys[..|ys| - 1]);
      assert (xs + ys)[..|xs + ys| - 1] == xs + ys[..|ys| - 1];
    }
  }

  /** The users a guild payload carries, in the order they are written. */
  function PayloadUsers(policy: Policy, guild: Guild): seq<User> {
    Recipients(Listed(guild.channels)) + EmojiUsers(guild.emojis) + MemberUsers(policy, AllMembers(guild))
  }

  lemma {:induction false} UsersOfMembers(t: Tables, policy: Policy, g: GuildID, members: seq<GuildMember>)
    requires forall i :: 0 <= i < |members| ==> HasUser(members[i])
    ensures SetGuildMembers(t, policy, g, members).users == SetUsers(t, policy, MemberUsers(policy, members)).users
  {
    if members != [] {
      var init, last := members[..|members| - 1], members[|members| - 1];
      UsersOfMembers(t, policy, g, init);
      var so := SetUsers(t, policy, MemberUsers(policy, init));
      UsersAlike(SetGuildMembers(t, policy, g, init), so, policy, [last.user.value]);
      OneUser(so, policy, last.user.value);
      OneUser(SetGuildMembers(t, policy, g, init), policy, last.user.value);
      UsersConcat(t, policy, MemberUsers(policy, init), [last.user.value]);
      assert MemberUsers(policy, init) + [] == MemberUsers(policy, init);
    }
  }

  lemma OneUser(t: Tables, policy: Policy, user: User)
    ensures SetUsers(t, policy, [user]) == SetUser(t, policy, user)
  {
    assert [user][..0] == [];
    assert SetUsers(t, policy, []) == t;
  }

  lemma UserOfVoiceState(t: Tables, policy: Policy, state: VoiceState, g: GuildID)
    requires VoiceDead(t) && state.guildID == Some(g) && g != 0
    requires state.member.Some? ==> HasUser(state.member.value)
    ensures UpdateVoiceState(t, policy, state).tables.users
         == SetUsers(t, policy, MemberUsers(policy, Carried(state))).users
  {
    hide UpdateVoiceState, ShowOccupancy, SetGuildMember, SetUsers, MemberUsers;
    UpdateVoiceStateUnfolds(t, policy, state, g);
    var written := t.(voice := R.LoadOrNew(t.voice, g));
    UsersOfMembers(written, policy, g, Carried(state));
    UsersAlike(written, t, policy, MemberUsers(policy, Carried(state)));
    CarriedIsMember(written, policy, g, state);
    var joined := if state.member.None? then written else SetGuildMember(written, policy, g, state.member.value);
    ShowOccupancyIs(joined, policy, g, state.channelID);
  }

  lemma CarriedIsMember(t: Tables, policy: Policy, g: GuildID, state: VoiceState)
    requires state.member.Some? ==> HasUser(state.member.value)
    ensures SetGuildMembers(t, policy, g, Carried(state))
         == if state.member.None? then t else SetGuildMember(t, policy, g, state.member.value)
  {
    hide SetGuildMember;
    assert Carried(state)[..0] == [];
    assert SetGuildMembers(t, policy, g, []) == t;
  }

  lemma {:induction false} UsersOfVoiceStates(t: Tables, policy: Policy, g: GuildID, states: seq<VoiceState>)
    requires VoiceDead(t) && g != 0 && !SomeCarriesNobody(states)
    ensures UpdateVoiceStates(t, policy, g, states).tables.users
         == SetUsers(t, policy, MemberUsers(policy, VoiceMembers(states))).users
  {
    if states == [] {
      assert MemberUsers(policy, VoiceMembers(states)) == [];
    } else {
      hide UpdateVoiceState, SetUsers, VoiceDead, SomeCarriesNobody, MemberUsers, Carried;
      var init, last := states[..|states| - 1], states[|states| - 1];
      assert states == init + [last];
      OneMoreState(init, last);
      UsersOfVoiceStates(t, policy, g, init);
      VoiceStatesPanicIff(t, policy, g, init);
      var earlier := UpdateVoiceStates(t, policy, g, init).tables;
      var state := last.(guildID := Some(g));
      assert Carried(state) == Carried(last) by { SameCarried(last, g); }
      UserOfVoiceState(earlier, policy, state, g);
      var before, added := MemberUsers(policy, VoiceMembers(init)), MemberUsers(policy, Carried(last));
      UsersAlike(earlier, SetUsers(t, policy, before), policy, added);
      UsersConcat(t, policy, before, added);
      MemberUsersConcat(policy, VoiceMembers(init), Carried(last));
    }
  }

  lemma SameCarried(state: VoiceState, g: GuildID)
    ensures Carried(state.(guildID := Some(g))) == Carried(state)
  {
  }

  /** Writing a guild stores the users its payload carries and no others. */
  lemma UsersAreWritten(t: Tables, policy: Policy, guild: Guild)
    requires Invariant(t) && Storable(guild) && guild.id != 0
    ensures SetGuild(t, policy, guild).tables.users == SetUsers(t, policy, PayloadUsers(policy, guild)).users
  {
    hide UpdateVoiceStates, SetUsers, MemberUsers, Recipients, EmojiUsers, SomeCarriesNobody;
    var g, roles, members := guild.id, guild.roles, Listed(guild.members);
    WritePanicsIff(t, policy, guild);
    VoiceMembersHaveUsersIff(Listed(guild.voiceStates));
    PrefixIs(roles, HasId, |roles|);
    PrefixIs(members, HasUser, |members|);
    assert roles[..|roles|] == roles && members[..|members|] == members;
    var t0 := t.(guilds := t.guilds[g := guild]);
    var t1 := SetGuildRoles(t0, g, roles);
    SetGuildRolesIs(t0, g, roles);
    var t2 := SetGuildChannels(t1, policy, g, Listed(guild.channels));
    SetGuildChannelsIs(t1, policy, g, Listed(guild.channels));
    var t3 := SetGuildEmojis(t2, policy, g, guild.emojis);
    SetGuildEmojisIs(t2, policy, g, guild.emojis);
    var t4 := SetGuildMembers(t3, policy, g, members);
    SetGuildMembersIs(t3, policy, g, members);
    UsersOfVoiceStates(t4, policy, g, Listed(guild.voiceStates));
    UsersOfParts(t, t1, t2, t3, t4, policy, guild);
  }

  lemma UsersOfParts(t: Tables, t1: Tables, t2: Tables, t3: Tables, t4: Tables, policy: Policy, guild: Guild)
    requires Storable(guild) && t1.users == t.users
    requires t2 == SetGuildChannels(t1, policy, guild.id, Listed(guild.channels))
    requires t3 == SetGuildEmojis(t2, policy, guild.id, guild.emojis)
    requires t4 == SetGuildMembers(t3, policy, guild.id, Listed(guild.members))
    ensures SetUsers(t4, policy, MemberUsers(policy, VoiceMembers(Listed(guild.voiceStates)))).users
         == SetUsers(t, policy, PayloadUsers(policy, guild)).users
  {
    hide SetUsers, MemberUsers, Recipients, EmojiUsers, SetGuildChannels, SetGuildMembers, VoiceMembers;
    var rs, es := Recipients(Listed(guild.channels)), EmojiUsers(guild.emojis);
    var ms, vs := MemberUsers(policy, Listed(guild.members)),
                  MemberUsers(policy, VoiceMembers(Listed(guild.voiceStates)));
    RecipientsAreStored(t1, policy, guild.id, Listed(guild.channels));
    UsersAlike(t1, t, policy, rs);
    var s2 := SetUsers(t, policy, rs);
    UsersAlike(t2.(emojis := t2.emojis[guild.id := guild.emojis]), s2, policy, es);
    UsersConcat(t, policy, rs, es);
    var s3 := SetUsers(t, policy, rs + es);
    UsersOfMembers(t3, policy, guild.id, Listed(guild.members));
    UsersAlike(t3, s3, policy, ms);
    UsersConcat(t, policy, rs + es, ms);
    var s4 := SetUsers(t, policy, rs + es + ms);
    UsersAlike(t4, s4, policy, vs);
    UsersConcat(t, policy, rs + es + ms, vs);
    MemberUsersConcat(policy, Listed(guild.members), VoiceMembers(Listed(guild.voiceStates)));
    assert rs + es + ms + vs == rs + es + (ms + vs);
  }

  /** So a user is as it was unless the rule admits it and the payload carries it; then it is from the payload. */
  lemma UserIsWritten(t: Tables, policy: Policy, guild: Guild, u: UserID)
    requires Invariant(t) && Storable(guild) && guild.id != 0
    ensures var after, users := SetGuild(t, policy, guild).tables.users, PayloadUsers(policy, guild);
            if KeepsUser(policy, u) && exists x :: x in users && x.id == u
            then exists x :: x in users && x.id == u && Find(after, u) == Some(x)
            else Find(after, u) == Find(t.users, u)
  {
    hide SetGuild, Invariant, Storable, PayloadUsers, SetUsers, KeepsUser;
    var users := PayloadUsers(policy, guild);
    UsersAreWritten(t, policy, guild);
    UsersAreStored(t, policy, users, u, 0);
    if j :| 0 <= j < |users| && users[j].id == u {
      var i := LastPlace(users, u, j);
      UsersAreStored(t, policy, users, u, i);
      assert users[i] in users && users[i].id == u;
    }
  }

  // ---------------------------------------------------------------------------------------------------------
  // GUILD_CREATE and GUILD_UPDATE

  /** GUILD_CREATE: the payload is written as it is, and the group holds the guild even if the write panics. */
  lemma CreateIsStored(t: Tables, d: DedupeTable, held: set<GuildID>, policy: Policy, now: int, guild: Guild)
    requires Invariant(t)
    ensures var e := Handle(t, d, held, policy, now, GuildCreate(guild), None);
            && e.dedupe == d && e.held == held + {guild.id} && e.tables.guilds == t.guilds[guild.id := guild]
            && e.tables == SetGuild(t, policy, guild).tables
            && (e.panicked <==> !Storable(guild)) && (e.published <==> Storable(guild))
  {
    hide Invariant, SetGuild, Storable;
    SetGuildCachesGuild(t, policy, guild);
    WritePanicsIff(t, policy, guild);
  }

  /**
   GUILD_UPDATE, field by field: what the update carries is what is stored; the stage instances and lists it omits, a
   count of 0, and always the size flag and the join time, are those of the guild read, if it can be read.
   */
  lemma UpdateIsStored(
    t: Tables, d: DedupeTable, held: set<GuildID>, policy: Policy, now: int, update: Guild, read: Option<Guild>)
    requires Invariant(t) && ReadsGuild(t, update.id, read)
    ensures var e, g := Handle(t, d, held, policy, now, GuildUpdate(update), read), update.id;
            && e.dedupe == d && e.held == held + {g} && e.published == !e.panicked
            && e.tables.guilds.Keys == t.guilds.Keys + {g}
            && (forall o :: o in t.guilds && o != g ==> e.tables.guilds[o] == t.guilds[o])
            && var stored, readable := e.tables.guilds[g], Readable(t, g);
               && stored.id == g && stored.name == update.name && stored.afkChannelID == update.afkChannelID
               && stored.stickers == update.stickers && stored.roles == update.roles && stored.emojis == update.emojis
               && stored.approximateMemberCount == update.approximateMemberCount
               && stored.stageInstances == (if update.stageInstances.None? && readable then t.guilds[g].stageInstances
                                            else update.stageInstances)
               && stored.memberCount
                  == (if update.memberCount == 0 && readable then t.guilds[g].memberCount else update.memberCount)
               && stored.large == (if readable then t.guilds[g].large else update.large)
               && stored.joinedAt == (if readable then t.guilds[g].joinedAt else update.joinedAt)
               && (update.channels.Some? || !readable ==> stored.channels == update.channels)
               && (update.members.Some? || !readable ==> stored.members == update.members)
               && (update.voiceStates.Some? || !readable ==> stored.voiceStates == update.voiceStates)
  {
    hide Invariant, SetGuild, Lists;
    SetGuildCachesGuild(t, policy, MergeUpdate(update, read));
    FieldsAreRead(t, update.id, read);
  }

  /** Completing an update from the guild read adds nothing that is not in the rows already. */
  lemma MergedStoresTheSame(t: Tables, policy: Policy, update: Guild, read: Option<Guild>)
    requires Invariant(t) && ReadsGuild(t, update.id, read) && Storable(update)
    ensures var merged, g := MergeUpdate(update, read), update.id;
            && Storable(merged) && merged.id == g && merged.roles == update.roles && merged.emojis == update.emojis
            && (Listed(merged.voiceStates) == Listed(update.voiceStates))
            && R.StoreAll(t.channels, g, ChannelEntries(g, Listed(merged.channels)))
               == R.StoreAll(t.channels, g, ChannelEntries(g, Listed(update.channels)))
            && R.StoreAll(t.members, g, MemberEntries(policy, AllMembers(merged)))
               == R.StoreAll(t.members, g, MemberEntries(policy, AllMembers(update)))
  {
    hide Invariant, Lists, R.StoreAll, MemberEntries, ChannelEntries, VoiceMembers;
    if read.Some? {
      var g, r := update.id, read.value;
      VoiceIsEmpty(t, g, r);
      ReadChannelsAreStored(t, g, r);
      ReadMembersAreStored(t, policy, g, r);
      NothingIsStored(t, g, policy);
      var merged := MergeUpdate(update, read);
      assert Listed(merged.voiceStates) == Listed(update.voiceStates);
      if update.members.Some? {
        assert AllMembers(merged) == AllMembers(update);
      } else {
        var vs := VoiceMembers(Listed(update.voiceStates));
        MemberEntriesConcat(policy, r.members.value, vs);
        StoreAllConcat(t.members, g, MemberEntries(policy, r.members.value), MemberEntries(policy, vs));
        assert AllMembers(update) == vs && AllMembers(merged) == r.members.value + vs;
      }
    }
  }

  lemma NothingIsStored(t: Tables, g: GuildID, policy: Policy)
    ensures R.StoreAll(t.channels, g, ChannelEntries(g, [])) == t.channels
  {
  }

  /** The roles, channels and members it leaves are those that writing the bare update leaves, readable or not. */
  lemma UpdateRowsAreStored(
    t: Tables, d: DedupeTable, held: set<GuildID>, policy: Policy, now: int, update: Guild, read: Option<Guild>)
    requires Invariant(t) && ReadsGuild(t, update.id, read) && Storable(update) && update.id != 0
    ensures var e, s := Handle(t, d, held, policy, now, GuildUpdate(update), read), SetGuild(t, policy, update).tables;
            && !e.panicked && e.tables.emojis == t.emojis[update.id := update.emojis]
            && e.tables.roles == s.roles && e.tables.channels == s.channels && e.tables.members == s.members
  {
    hide Invariant, SetGuild, Storable, R.StoreAll, MergeUpdate, AllMembers;
    InvariantMeansDead(t);
    MergedStoresTheSame(t, policy, update, read);
    SetGuildIs(t, policy, MergeUpdate(update, read));
    SetGuildIs(t, policy, update);
  }

  lemma InvariantMeansDead(t: Tables)
    requires Invariant(t)
    ensures VoiceDead(t)
  {
  }
}
