/** What every handler leaves, entry by entry: which entry it stores or removes, and that it changes nothing else. */
module HandlerLaws {
  import opened Wrappers
  import opened Discord
  import opened Tables
  import opened Dedupe
  import opened Events
  import opened GuildLaws
  import opened EntryLaws
  import opened VoiceLaws
  import R = Rows

  /** The handler let the event be published and left the dedupe keys and the group's guilds alone. */
  predicate OnlyTables(e: Effect, d: DedupeTable, held: set<GuildID>) {
    e.published && !e.panicked && e.dedupe == d && e.held == held
  }

  // ---------------------------------------------------------------------------------------------------------
  // Members

  /**
   GUILD_MEMBER_ADD. Without a guild or a user it panics before anything else; while suppressed it changes nothing and
   is not published. Otherwise the member is cached if the rule admits it, the count goes up by one, the add key is set
   for 60 seconds and the remove key is dropped; no other entry of any table changes.
   */
  lemma AddIsStored(t: Tables, d: DedupeTable, held: set<GuildID>, policy: Policy, now: int, member: GuildMember)
    requires Invariant(t)
    ensures var e := Handle(t, d, held, policy, now, GuildMemberAdd(member), None);
            if member.guildID.None? || member.user.None? then e == Effect(t, d, held, false, true)
            else
              var g, u := member.guildID.value, member.user.value.id;
              if Suppressed(d, MemberKey(Add, g, u), now) then e == Effect(t, d, held, false, false)
              else
                && e.published && !e.panicked && e.held == held
                && e.dedupe == d[MemberKey(Add, g, u) := now + 60] - {MemberKey(Remove, g, u)}
                && e.tables == t.(guilds := e.tables.guilds, members := e.tables.members, users := e.tables.users)
                && e.tables.guilds == MovedCount(t, g, 1)
                && (forall o, v :: R.Lookup(e.tables.members, o, v)
                                   == if o == g && v == u && KeepsMember(policy, u) then Some(member)
                                      else R.Lookup(t.members, o, v))
                && (forall v :: Find(e.tables.users, v)
                                == if v == u && KeepsMember(policy, u) && KeepsUser(policy, u) then member.user
                                   else Find(t.users, v))
  {
    assert member.guildID.Some? ==> R.Reachable(t.members, member.guildID.value);
    hide Invariant, SetGuildMember, MemberKey, Suppressed, R.Lookup, R.Reachable, KeepsMember, KeepsUser;
    assert Handle(t, d, held, policy, now, GuildMemberAdd(member), None)
        == AddMember(t, d, held, policy, now, member);
    hide Handle;
    if member.guildID.Some? && member.user.Some? {
      CountIsMoved(t, member.guildID.value, 1);
      OneMemberIsStored(CountMember(t, member.guildID.value, 1), policy, member.guildID.value, member);
    }
    hide CountMember;
  }

  /** The guild entries with one member count moved, in 32 bits. */
  function MovedCount(t: Tables, g: GuildID, delta: int): map<GuildID, Guild> {
    if g !in t.guilds then t.guilds
    else t.guilds[g := t.guilds[g].(memberCount := Wrap32(t.guilds[g].memberCount + delta))]
  }

  lemma CountIsMoved(t: Tables, g: GuildID, delta: int)
    ensures CountMember(t, g, delta) == t.(guilds := MovedCount(t, g, delta))
  {
  }

  /**
   GUILD_MEMBER_REMOVE. While suppressed it changes nothing and is not published. Otherwise the member is gone, the
   count goes down by one, the remove key is set for 60 seconds and the add key is dropped; no other entry changes.
   */
  lemma RemoveIsStored(t: Tables, d: DedupeTable, held: set<GuildID>, policy: Policy, now: int, g: GuildID, user: User)
    ensures var e, u := Handle(t, d, held, policy, now, GuildMemberRemove(g, user), None), user.id;
            if Suppressed(d, MemberKey(Remove, g, u), now) then e == Effect(t, d, held, false, false)
            else
              && e.published && !e.panicked && e.held == held
              && e.dedupe == d[MemberKey(Remove, g, u) := now + 60] - {MemberKey(Add, g, u)}
              && e.tables == t.(guilds := MovedCount(t, g, -1), members := e.tables.members)
              && (forall o, v :: R.Lookup(e.tables.members, o, v)
                                 == if o == g && v == u then None else R.Lookup(t.members, o, v))
              && e.tables.members.Keys == t.members.Keys
  {
    hide MemberKey, Suppressed, R.Delete, R.Lookup;
    R.DeleteAt(t.members, g, user.id);
  }

  /** GUILD_MEMBER_UPDATE: the member is cached if the rule admits it; without a guild or a user it panics. */
  lemma MemberUpdateIsStored(
    t: Tables, d: DedupeTable, held: set<GuildID>, policy: Policy, now: int, member: GuildMember)
    requires Invariant(t)
    ensures var e := Handle(t, d, held, policy, now, GuildMemberUpdate(member), None);
            if member.guildID.None? || member.user.None? then e == Effect(t, d, held, false, true)
            else
              var g, u := member.guildID.value, member.user.value.id;
              && OnlyTables(e, d, held) && e.tables == t.(members := e.tables.members, users := e.tables.users)
              && (forall o, v :: R.Lookup(e.tables.members, o, v)
                                 == if o == g && v == u && KeepsMember(policy, u) then Some(member)
                                    else R.Lookup(t.members, o, v))
              && (forall v :: Find(e.tables.users, v)
                              == if v == u && KeepsMember(policy, u) && KeepsUser(policy, u) then member.user
                                 else Find(t.users, v))
  {
    assert member.guildID.Some? ==> R.Reachable(t.members, member.guildID.value);
    hide Invariant, SetGuildMember, R.Lookup, R.Reachable, KeepsMember, KeepsUser;
    assert Handle(t, d, held, policy, now, GuildMemberUpdate(member), None)
        == Settle(StoreMember(t, policy, member), d, held);
    hide Handle;
    if member.guildID.Some? && member.user.Some? {
      OneMemberIsStored(t, policy, member.guildID.value, member);
    }
  }

  /**
   GUILD_MEMBERS_CHUNK: whatever the configuration, the last entry of every user before the first entry without one is
   the cached member, with its user; the event is published when there is no entry without a user.
   */
  lemma ChunkIsStored(
    t: Tables, d: DedupeTable, held: set<GuildID>, policy: Policy, now: int, g: GuildID, members: seq<GuildMember>,
    n: nat, u: UserID, i: nat)
    requires Invariant(t) && n <= |members| && (forall j :: 0 <= j < n ==> members[j].user.Some?)
    requires n < |members| ==> members[n].user.None?
    ensures var e := Handle(t, d, held, policy, now, GuildMembersChunk(g, members), None);
            && e.panicked == (n < |members|) && e.published == (n == |members|) && e.dedupe == d && e.held == held
            && e.tables == t.(members := e.tables.members, users := e.tables.users)
            && (LastMemberAt(members[..n], i, u) ==>
                  R.Lookup(e.tables.members, g, u) == Some(members[i]) && Find(e.tables.users, u) == members[i].user)
            && (!NamesMember(members[..n], u) ==>
                  && R.Lookup(e.tables.members, g, u) == R.Lookup(t.members, g, u)
                  && Find(e.tables.users, u) == Find(t.users, u))
            && (forall o :: o != g ==> R.Lookup(e.tables.members, o, u) == R.Lookup(t.members, o, u))
  {
    assert R.Reachable(t.members, g);
    hide Invariant, SetGuildMembers, R.Lookup, R.Reachable, LastMemberAt, NamesMember, Prefix;
    PrefixIs(members, HasUser, n);
    PlaceOfLast(members[..n], i, u);
    assert Handle(t, d, held, policy, now, GuildMembersChunk(g, members), None)
        == Settle(StoreChunk(t, policy, g, members), d, held);
    hide Handle;
    MembersAreStored(t, policy.(cacheUsers := true, cacheMembers := true), g, members[..n], u, i);
  }

  lemma PlaceOfLast(members: seq<GuildMember>, i: nat, u: UserID)
    ensures LastMemberAt(members, i, u) ==> i < |members|
  {
  }

  // ---------------------------------------------------------------------------------------------------------
  // Roles, emojis and channels

  /** GUILD_ROLE_CREATE and GUILD_ROLE_UPDATE: the role is the cached one under its id; id 0 panics. */
  lemma RoleIsStored(t: Tables, d: DedupeTable, held: set<GuildID>, policy: Policy, now: int, g: GuildID, role: Role)
    requires Invariant(t)
    ensures var e := Handle(t, d, held, policy, now, GuildRoleCreate(g, role), None);
            && Handle(t, d, held, policy, now, GuildRoleUpdate(g, role), None) == e
            && if role.id == 0 then e == Effect(t, d, held, false, true)
               else
                 && OnlyTables(e, d, held) && e.tables == t.(roles := e.tables.roles)
                 && forall o, k :: R.Lookup(e.tables.roles, o, k)
                                   == if o == g && k == role.id then Some(role) else R.Lookup(t.roles, o, k)
  {
    assert R.Reachable(t.roles, g);
    hide Invariant, R.Store, R.Lookup, R.Reachable;
    R.StoreAt(t.roles, g, role.id, role);
  }

  /** GUILD_ROLE_DELETE: that role is gone, every other stays, and so does the row. */
  lemma RoleIsDeleted(t: Tables, d: DedupeTable, held: set<GuildID>, policy: Policy, now: int, g: GuildID, id: RoleID)
    ensures var e := Handle(t, d, held, policy, now, GuildRoleDelete(g, id), None);
            && OnlyTables(e, d, held) && e.tables == t.(roles := e.tables.roles)
            && (forall o, k :: R.Lookup(e.tables.roles, o, k)
                               == if o == g && k == id then None else R.Lookup(t.roles, o, k))
            && e.tables.roles.Keys == t.roles.Keys
  {
    hide R.Delete, R.Lookup;
    R.DeleteAt(t.roles, g, id);
  }

  /** GUILD_EMOJIS_UPDATE: the list is the guild's; the last user of an id it carries is cached if admitted. */
  lemma EmojisAreReplaced(
    t: Tables, d: DedupeTable, held: set<GuildID>, policy: Policy, now: int, g: GuildID, emojis: seq<Emoji>, u: UserID,
    i: nat)
    ensures var e := Handle(t, d, held, policy, now, GuildEmojisUpdate(g, emojis), None);
            && OnlyTables(e, d, held) && e.tables == t.(emojis := t.emojis[g := emojis], users := e.tables.users)
            && (LastCarrierAt(emojis, i, u) && KeepsUser(policy, u) ==> Find(e.tables.users, u) == emojis[i].user)
            && (!KeepsUser(policy, u) || !Carries(emojis, u) ==> Find(e.tables.users, u) == Find(t.users, u))
  {
    hide SetGuildEmojis, KeepsUser, LastCarrierAt, Carries;
    CarrierIsEmoji(emojis, i, u);
    var removed := t.(emojis := t.emojis - {g});
    EmojisAreStored(removed, policy, g, emojis, u, i);
    assert removed.emojis[g := emojis] == t.emojis[g := emojis];
  }

  lemma CarrierIsEmoji(emojis: seq<Emoji>, i: nat, u: UserID)
    ensures LastCarrierAt(emojis, i, u) ==> i < |emojis|
  {
  }

  /** CHANNEL_CREATE and CHANNEL_UPDATE of a guild channel: the channel is cached with the payload's fields. */
  lemma GuildChannelIsStored(
    t: Tables, d: DedupeTable, held: set<GuildID>, policy: Policy, now: int, channel: Channel, u: UserID, i: nat)
    requires Invariant(t) && channel.guildID.Some? && channel.guildID.value != 0
    ensures var e, g := Handle(t, d, held, policy, now, ChannelCreate(channel), None), channel.guildID.value;
            && Handle(t, d, held, policy, now, ChannelUpdate(channel), None) == e
            && OnlyTables(e, d, held) && e.tables == t.(channels := e.tables.channels, users := e.tables.users)
            && (forall o, k :: R.Lookup(e.tables.channels, o, k)
                               == if o == g && k == channel.id then Some(channel) else R.Lookup(t.channels, o, k))
            && (LastUserAt(channel.recipients, i, u) && KeepsUser(policy, u) ==>
                  Find(e.tables.users, u) == Some(channel.recipients[i]))
            && (!KeepsUser(policy, u) || (forall r :: r in channel.recipients ==> r.id != u) ==>
                  Find(e.tables.users, u) == Find(t.users, u))
  {
    var g := channel.guildID.value;
    assert R.Reachable(t.channels, g);
    hide Invariant, SetGuildChannel, SetUsers, R.Lookup, R.Reachable, LastUserAt, KeepsUser;
    PlaceOfUser(channel.recipients, i, u);
    OneChannelIsStored(t, policy, g, channel);
    assert channel.(guildID := Some(g)) == channel;
    UsersAreStored(t, policy, channel.recipients, u, i);
    var after := SetGuildChannel(t, policy, g, channel);
    assert CreateChannel(t, policy, now, channel) == after && UpdateChannel(t, policy, now, channel) == after;
    hide CreateChannel, UpdateChannel;
    assert Handle(t, d, held, policy, now, ChannelCreate(channel), None) == Done(after, d, held);
    assert Handle(t, d, held, policy, now, ChannelUpdate(channel), None) == Done(after, d, held);
    hide Handle;
  }

  lemma PlaceOfUser(users: seq<User>, i: nat, u: UserID)
    ensures LastUserAt(users, i, u) ==> i < |users|
  {
  }

  predicate IsDirect(channel: Channel) {
    channel.guildID.None? || channel.guildID.value == 0
  }

  /**
   CHANNEL_CREATE of a direct channel with a recipient: cached for half an hour under its id, with its first recipient.
   Any other kind without a guild, or an empty recipient list, changes nothing.
   */
  lemma DirectChannelIsStored(
    t: Tables, d: DedupeTable, held: set<GuildID>, policy: Policy, now: int, channel: Channel)
    requires IsDirect(channel)
    ensures var e := Handle(t, d, held, policy, now, ChannelCreate(channel), None);
            && OnlyTables(e, d, held)
            && if channel.kind == GuildChannelKind || channel.recipients == [] then e.tables == t
               else
                 e.tables == t.(dms := t.dms[channel.id := DMChannel(channel, channel.recipients[0].id, now + 1800)])
  {
  }

  /**
   CHANNEL_UPDATE of a direct channel: only a cached one is replaced, and its recipient stays. One that has not expired
   lives for another half an hour.
   */
  lemma DirectChannelIsReplaced(
    t: Tables, d: DedupeTable, held: set<GuildID>, policy: Policy, now: int, channel: Channel)
    requires IsDirect(channel)
    ensures var e := Handle(t, d, held, policy, now, ChannelUpdate(channel), None);
            && OnlyTables(e, d, held) && e.tables == t.(dms := e.tables.dms)
            && forall c :: Find(e.tables.dms, c)
                           == if c != channel.id || channel.kind == GuildChannelKind || c !in t.dms then Find(t.dms, c)
                              else
                                var was := t.dms[c];
                                Some(DMChannel(channel, was.userID,
                                               if was.expiresAt < now then was.expiresAt else now + 1800))
  {
    hide UpdateChannel;
    DirectUpdateIs(t, policy, now, channel);
    assert Handle(t, d, held, policy, now, ChannelUpdate(channel), None)
        == Done(UpdateChannel(t, policy, now, channel), d, held);
    hide Handle;
  }

  lemma DirectUpdateIs(t: Tables, policy: Policy, now: int, channel: Channel)
    requires IsDirect(channel)
    ensures var after, c := UpdateChannel(t, policy, now, channel), channel.id;
            after == if channel.kind == GuildChannelKind || c !in t.dms then t
                     else
                       var expires := if t.dms[c].expiresAt < now then t.dms[c].expiresAt else now + 1800;
                       t.(dms := t.dms[c := DMChannel(channel, t.dms[c].userID, expires)])
  {
    hide SetGuildChannel, TouchDMChannel;
    if channel.kind != GuildChannelKind {
      TouchIs(t, channel.id, now);
    }
  }

  lemma TouchIs(t: Tables, c: ChannelID, now: int)
    ensures var after := TouchDMChannel(t, c, now);
            && after.dms.Keys == t.dms.Keys
            && after == t.(dms := after.dms)
            && (c in t.dms ==>
                  && after.dms == t.dms[c := after.dms[c]] && after.dms[c].userID == t.dms[c].userID
                  && after.dms[c].expiresAt == (if t.dms[c].expiresAt < now then t.dms[c].expiresAt else now + 1800))
            && (c !in t.dms ==> after == t)
  {
    if c in t.dms {
      assert t.dms[c := t.dms[c]] == t.dms;
    }
  }

  /** CHANNEL_DELETE of a guild channel: it leaves the guild's row, and no other channel goes. */
  lemma ChannelIsDeleted(t: Tables, d: DedupeTable, held: set<GuildID>, policy: Policy, now: int, channel: Channel)
    requires !IsDirect(channel)
    ensures var e, g := Handle(t, d, held, policy, now, ChannelDelete(channel), None), channel.guildID.value;
            && OnlyTables(e, d, held) && e.tables == t.(channels := e.tables.channels)
            && e.tables.channels.Keys == t.channels.Keys
            && forall o, k :: R.Lookup(e.tables.channels, o, k)
                              == if o == g && k == channel.id then None else R.Lookup(t.channels, o, k)
  {
    hide R.Delete, R.Lookup, DeleteChannel;
    DeletionIs(t, channel);
    assert Handle(t, d, held, policy, now, ChannelDelete(channel), None) == Done(DeleteChannel(t, channel), d, held);
    hide Handle;
    R.DeleteAt(t.channels, channel.guildID.value, channel.id);
  }

  /** Without a guild a direct channel is dropped, and any other kind changes nothing. */
  lemma DirectChannelIsDeleted(
    t: Tables, d: DedupeTable, held: set<GuildID>, policy: Policy, now: int, channel: Channel)
    requires IsDirect(channel)
    ensures var e := Handle(t, d, held, policy, now, ChannelDelete(channel), None);
            && OnlyTables(e, d, held)
            && e.tables == if channel.kind == GuildChannelKind then t else t.(dms := t.dms - {channel.id})
  {
    hide R.Delete, DeleteChannel;
    DeletionIs(t, channel);
    assert Handle(t, d, held, policy, now, ChannelDelete(channel), None) == Done(DeleteChannel(t, channel), d, held);
    hide Handle;
  }

  lemma DeletionIs(t: Tables, channel: Channel)
    ensures DeleteChannel(t, channel)
         == if !IsDirect(channel) then t.(channels := R.Delete(t.channels, channel.guildID.value, channel.id))
            else if channel.kind == GuildChannelKind then t else t.(dms := t.dms - {channel.id})
  {
    hide R.Delete;
  }

  /** CHANNEL_PINS_UPDATE: a cached channel gets the pin time and keeps every other field; no other channel changes. */
  lemma PinTimeIsStored(
    t: Tables, d: DedupeTable, held: set<GuildID>, policy: Policy, now: int, g: GuildID, c: ChannelID,
    timestamp: string, o: GuildID, k: ChannelID)
    requires g != 0
    ensures var e := Handle(t, d, held, policy, now, ChannelPinsUpdate(g, c, timestamp), None);
            && OnlyTables(e, d, held) && e.tables == t.(channels := e.tables.channels)
            && R.Lookup(e.tables.channels, o, k)
               == match R.Lookup(t.channels, o, k)
                  case None => None
                  case Some(was) => Some(if o == g && k == c then was.(lastPinTimestamp := Some(timestamp)) else was)
  {
    hide R.Update, R.Lookup, PinChannel, Pin;
    assert Handle(t, d, held, policy, now, ChannelPinsUpdate(g, c, timestamp), None)
        == Done(PinChannel(t, g, c, timestamp), d, held);
    hide Handle;
    PinIs(t, g, c, timestamp);
    PinInRow(t, g, c, timestamp, o, k);
  }

  /** Without a guild it is a direct channel that gets the pin time, if it is cached. */
  lemma DirectPinTimeIsStored(
    t: Tables, d: DedupeTable, held: set<GuildID>, policy: Policy, now: int, c: ChannelID, timestamp: string)
    ensures var e := Handle(t, d, held, policy, now, ChannelPinsUpdate(0, c, timestamp), None);
            && OnlyTables(e, d, held)
            && if c !in t.dms then e.tables == t
               else
                 var pinned := t.dms[c].channel.(lastPinTimestamp := Some(timestamp));
                 e.tables == t.(dms := t.dms[c := DMChannel(pinned, t.dms[c].userID, t.dms[c].expiresAt)])
  {
    hide PinChannel;
    PinIs(t, 0, c, timestamp);
  }

  lemma PinInRow(t: Tables, g: GuildID, c: ChannelID, timestamp: string, o: GuildID, k: ChannelID)
    ensures R.Lookup(R.Update(t.channels, g, c, Pin(timestamp)), o, k)
         == match R.Lookup(t.channels, o, k)
            case None => None
            case Some(was) => Some(if o == g && k == c then was.(lastPinTimestamp := Some(timestamp)) else was)
  {
    hide R.Update, R.Lookup;
    R.UpdateAt(t.channels, g, c, Pin(timestamp));
  }

  lemma PinIs(t: Tables, g: GuildID, c: ChannelID, timestamp: string)
    ensures PinChannel(t, g, c, timestamp)
         == if g != 0 then t.(channels := R.Update(t.channels, g, c, Pin(timestamp)))
            else if c !in t.dms then t
            else t.(dms := t.dms[c := t.dms[c].(channel := t.dms[c].channel.(lastPinTimestamp := Some(timestamp)))])
  {
    hide R.Update;
  }

  // ---------------------------------------------------------------------------------------------------------
  // Guilds and voice states

  /** GUILD_DELETE lets the handling group go of the guild, unless it is only unavailable, and touches no table. */
  lemma DeleteLetsGo(
    t: Tables, d: DedupeTable, held: set<GuildID>, policy: Policy, now: int, g: GuildID, unavailable: bool)
    ensures var e := Handle(t, d, held, policy, now, GuildDelete(g, unavailable), None);
            && e.published && !e.panicked && e.dedupe == d && e.tables == t
            && forall h :: h in e.held <==> h in held && (h != g || unavailable)
  {
  }

  /**
   VOICE_STATE_UPDATE without a guild takes the user out of guild 0, whatever channel it names, and touches no other
   voice state.
   */
  lemma VoiceStateWithoutGuild(
    t: Tables, d: DedupeTable, held: set<GuildID>, policy: Policy, now: int, state: VoiceState)
    requires state.guildID.None? || state.guildID.value == 0
    ensures var e := Handle(t, d, held, policy, now, VoiceStateUpdate(state), None);
            && OnlyTables(e, d, held)
            && forall o, u :: R.Lookup(e.tables.voice, o, u)
                              == if o == 0 && u == state.userID then None else R.Lookup(t.voice, o, u)
  {
    hide RemoveVoiceState, R.Lookup, R.Delete;
    R.DeleteAt(t.voice, 0, state.userID);
    RemovalIs(t, policy, 0, state.userID);
  }

  lemma RemovalIs(t: Tables, policy: Policy, g: GuildID, u: UserID)
    ensures R.Lookup(t.voice, g, u) == None ==> RemoveVoiceState(t, policy, g, u) == t
    ensures R.Lookup(t.voice, g, u).Some? ==> RemoveVoiceState(t, policy, g, u).voice == R.Delete(t.voice, g, u)
  {
    hide R.Delete, SetGuildChannel, CountMembersForVoiceChannel;
    var before := R.Lookup(t.voice, g, u);
    if before.Some? {
      var gone := t.(voice := R.Delete(t.voice, g, u));
      var found := GetGuildChannel(gone, g, before.value.channelID);
      if found.Some? {
        ChannelKeepsVoice(gone, policy, g,
                          found.value.(memberCount := CountMembersForVoiceChannel(gone, g, found.value.id)));
      }
    }
  }

  lemma ChannelKeepsVoice(t: Tables, policy: Policy, g: GuildID, channel: Channel)
    ensures SetGuildChannel(t, policy, g, channel).voice == t.voice
  {
    var stamped := channel.(guildID := Some(g));
    SetUsersOnlyUsers(t.(channels := R.Store(t.channels, g, channel.id, stamped)), policy, channel.recipients);
  }

  /**
   With a guild it is an update of that guild: published unless it panics, and it panics exactly on a carried member
   without a user or an old voice state that names a channel but no guild.
   */
  lemma VoiceStateOfGuild(
    t: Tables, d: DedupeTable, held: set<GuildID>, policy: Policy, now: int, state: VoiceState)
    requires state.guildID.Some? && state.guildID.value != 0
    ensures var e := Handle(t, d, held, policy, now, VoiceStateUpdate(state), None);
            && e.tables == UpdateVoiceState(t, policy, state).tables && e.dedupe == d && e.held == held
            && e.published == !e.panicked
            && (e.panicked <==>
                  || (state.member.Some? && state.member.value.user.None?)
                  || (R.Lookup(t.voice, state.guildID.value, state.userID).Some?
                      && R.Lookup(t.voice, state.guildID.value, state.userID).value.channelID != 0
                      && R.Lookup(t.voice, state.guildID.value, state.userID).value.guildID.None?))
  {
    hide UpdateVoiceState;
    UpdatePanicsIff(t, policy, state, state.guildID.value);
  }
}
