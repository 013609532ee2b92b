/** What the handlers that read a guild and write it back really change. */
module GuildEvents {
  import opened Wrappers
  import opened Discord
  import opened Tables
  import opened Dedupe
  import opened Events
  import opened GuildLaws
  import opened Confluence
  import opened Invariants
  import R = Rows

  /**
   GUILD_STICKERS_UPDATE changes the stickers of a readable guild and nothing any later read could tell, of that
   guild or of another.
   */
  lemma StickersUpdateChangesStickers(
    t: Tables, d: DedupeTable, held: set<GuildID>, policy: Policy, now: int, g: GuildID, stickers: seq<string>,
    read: Guild, other: GuildID, x: Guild)
    requires Invariant(t) && ReadsGuild(t, g, Some(read))
    ensures var e := Handle(t, d, held, policy, now, GuildStickersUpdate(g, stickers), Some(read));
            && !e.panicked && e.published
            && e.tables == t.(guilds := e.tables.guilds, users := e.tables.users, dms := e.tables.dms)
            && (ReadsGuild(e.tables, other, Some(x)) <==>
                  if other != g then ReadsGuild(t, other, Some(x))
                  else x.stickers == stickers && ReadsGuild(t, g, Some(x.(stickers := t.guilds[g].stickers))))
  {
    hide SetGuild, Invariant, Lists;
    var guild := read.(stickers := stickers);
    ReadThenWrite(t, policy, g, read, guild);
    var t2 := SetGuild(t, policy, guild).tables;
    assert t2.guilds == t.guilds[g := guild];
    assert Core(read) == ReadCore(t.guilds[g]);
    if other == g {
      SameButStickers(read, t.guilds[g], stickers, x);
    }
  }

  lemma SameButStickers(read: Guild, stored: Guild, stickers: seq<string>, x: Guild)
    requires Core(read) == ReadCore(stored)
    ensures Core(x) == ReadCore(read.(stickers := stickers))
       <==> x.stickers == stickers && Core(x.(stickers := stored.stickers)) == ReadCore(stored)
  {
    var with := read.(stickers := stickers);
    assert Core(with) == Core(read).(stickers := stickers);
    assert ReadCore(with) == ReadCore(stored).(stickers := stickers);
    assert Core(x.(stickers := stored.stickers)) == Core(x).(stickers := stored.stickers);
  }

  /** A guild that cannot be read, having no role, emoji or member row, does not get the new stickers at all. */
  lemma StickersUpdateIsDroppedIff(
    t: Tables, d: DedupeTable, held: set<GuildID>, policy: Policy, now: int, g: GuildID, stickers: seq<string>,
    read: Option<Guild>)
    requires Invariant(t) && ReadsGuild(t, g, read) && g in t.guilds && t.guilds[g].stickers != stickers
    ensures var e := Handle(t, d, held, policy, now, GuildStickersUpdate(g, stickers), read);
            e.tables == t <==> !Readable(t, g)
  {
    hide SetGuild, Invariant, Lists;
    if read.Some? {
      var guild := read.value.(stickers := stickers);
      ReadThenWrite(t, policy, g, read.value, guild);
      assert SetGuild(t, policy, guild).tables.guilds[g] == guild;
    }
  }

  /** An update that leaves out what GUILD_UPDATE may leave out, and whose roles can be stored. */
  ghost predicate Omits(update: Guild) {
    && update.channels.None? && update.members.None? && update.voiceStates.None?
    && forall i :: 0 <= i < |update.roles| ==> HasId(update.roles[i])
  }

  lemma MergedIsStorable(t: Tables, policy: Policy, update: Guild, read: Option<Guild>)
    requires Invariant(t) && ReadsGuild(t, update.id, read) && Omits(update)
    ensures var merged, g := MergeUpdate(update, read), update.id;
            && Storable(merged) && Listed(merged.voiceStates) == []
            && (forall i :: 0 <= i < |AllMembers(merged)| ==> HasUser(AllMembers(merged)[i]))
            && R.StoreAll(t.channels, g, ChannelEntries(g, Listed(merged.channels))) == t.channels
            && R.StoreAll(t.members, g, MemberEntries(policy, AllMembers(merged))) == t.members
  {
    hide Invariant, Lists;
    var g := update.id;
    if read.Some? {
      VoiceIsEmpty(t, g, read.value);
      ReadChannelsAreStored(t, g, read.value);
      ReadMembersAreStored(t, policy, g, read.value);
      assert AllMembers(MergeUpdate(update, read)) == read.value.members.value;
    }
  }

  /**
   A GUILD_UPDATE that omits channels and members leaves both tables alone and removes no role, whether or not the guild
   can be read. Its emojis replace the old ones even when it omits them.
   */
  lemma UpdateKeepsWhatItOmits(
    t: Tables, d: DedupeTable, held: set<GuildID>, policy: Policy, now: int, update: Guild, read: Option<Guild>)
    requires Invariant(t) && ReadsGuild(t, update.id, read) && Omits(update)
    ensures var e, g := Handle(t, d, held, policy, now, GuildUpdate(update), read), update.id;
            && !e.panicked && e.published && e.held == held + {g}
            && e.tables.channels == t.channels && e.tables.members == t.members && e.tables.voice == t.voice
            && R.EntriesAt(e.tables.roles, g) == R.EntriesAt(t.roles, g) + R.AsMap(RoleEntries(update.roles))
            && R.EntriesAt(t.roles, g).Keys <= R.EntriesAt(e.tables.roles, g).Keys
            && e.tables.emojis == t.emojis[g := update.emojis]
            && e.tables.guilds == t.guilds[g := MergeUpdate(update, read)]
  {
    assert VoiceDead(t) && (update.id in t.roles ==> t.roles[update.id].Table?);
    hide SetGuild, Invariant, Lists, Storable, AllMembers, ReadsGuild, Omits;
    var g := update.id;
    var merged := MergeUpdate(update, read);
    MergedIsStorable(t, policy, update, read);
    SetGuildIs(t, policy, merged);
    R.StoreAllReadBack(t.roles, g, RoleEntries(update.roles));
  }

  /**
   What only GUILD_CREATE carries survives an update exactly when the guild can be read, or the update happens to carry
   the same: the join time and the size flag, an omitted member count, and omitted stage instances.
   */
  lemma UpdateKeepsCreateFieldsIff(
    t: Tables, d: DedupeTable, held: set<GuildID>, policy: Policy, now: int, update: Guild, read: Option<Guild>)
    requires Invariant(t) && ReadsGuild(t, update.id, read) && Omits(update) && update.id in t.guilds
    ensures var e, g := Handle(t, d, held, policy, now, GuildUpdate(update), read), update.id;
            && g in e.tables.guilds
            && var was, later := t.guilds[g], e.tables.guilds[g];
               && (later.joinedAt == was.joinedAt && later.large == was.large
                   <==> Readable(t, g) || (update.joinedAt == was.joinedAt && update.large == was.large))
               && (later.memberCount == (if update.memberCount == 0 then was.memberCount else update.memberCount)
                   <==> Readable(t, g) || update.memberCount != 0 || was.memberCount == 0)
               && (update.stageInstances.None? ==>
                     (later.stageInstances == was.stageInstances <==> Readable(t, g) || was.stageInstances.None?))
  {
    hide Invariant, Handle, Lists, Omits;
    UpdateKeepsWhatItOmits(t, d, held, policy, now, update, read);
    if read.Some? {
      assert Core(read.value) == ReadCore(t.guilds[update.id]);
    }
  }

  // ---------------------------------------------------------------------------------------------------------
  // A guild that cannot be read

  const BOT_ONLY := Policy(true, false, 99)

  /** A guild with a role and one member who is not the bot. */
  const LARGE_GUILD := Guild(7, "g", 12, 12, None, true, "2020", ["old"], None, [Role(1, "r")], None, None, [],
                             Some([GuildMember(Some(User(5, "u")), Some(7), "")]))

  /** With member caching off, creating it leaves no member row, so GetGuild finds nothing. */
  lemma LargeGuildIsUnreadable()
    ensures var t := SetGuild(EMPTY, BOT_ONLY, LARGE_GUILD).tables;
            Invariant(t) && 7 in t.guilds && t.guilds[7] == LARGE_GUILD && !Readable(t, 7) && ReadsGuild(t, 7, None)
  {
    hide SetGuild, Invariant, Lists;
    EmptyIsOk();
    SetGuildKeeps(EMPTY, BOT_ONLY, LARGE_GUILD);
    var member := LARGE_GUILD.members.value[0];
    assert AllMembers(LARGE_GUILD) == [member] && !Admitted(BOT_ONLY, member);
    RowsAfterSetGuild(EMPTY, BOT_ONLY, LARGE_GUILD);
    assert !AdmitsSomeone(BOT_ONLY, LARGE_GUILD);
  }

  /** An update without a count then sets the count to 0 and drops the join time and the size flag. */
  lemma UpdateLosesCount()
    ensures var t := SetGuild(EMPTY, BOT_ONLY, LARGE_GUILD).tables;
            var update := LARGE_GUILD.(memberCount := 0, joinedAt := "", large := false, members := None);
            var e := Handle(t, map[], {7}, BOT_ONLY, 0, GuildUpdate(update), None);
            && 7 in e.tables.guilds && e.tables.guilds[7].memberCount == 0 && e.tables.guilds[7].joinedAt == ""
            && !e.tables.guilds[7].large
  {
    hide SetGuild, Invariant, Lists, Handle, Readable;
    var t := SetGuild(EMPTY, BOT_ONLY, LARGE_GUILD).tables;
    var update := LARGE_GUILD.(memberCount := 0, joinedAt := "", large := false, members := None);
    LargeGuildIsUnreadable();
    UpdateKeepsWhatItOmits(t, map[], {7}, BOT_ONLY, 0, update, None);
  }

  /** And new stickers never arrive. */
  lemma StickersAreLost()
    ensures var t := SetGuild(EMPTY, BOT_ONLY, LARGE_GUILD).tables;
            && ReadsGuild(t, 7, None)
            && Handle(t, map[], {7}, BOT_ONLY, 0, GuildStickersUpdate(7, ["new"]), None).tables == t
            && 7 in t.guilds && t.guilds[7].stickers == ["old"]
  {
    hide SetGuild, Invariant, Lists;
    LargeGuildIsUnreadable();
  }
}
