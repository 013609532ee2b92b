/** Streams of different guilds never disturb each other: only the order within one guild's stream matters. */
module Confluence {
  import opened Wrappers
  import opened Discord
  import opened Tables
  import opened Dedupe
  import opened Events
  import opened GuildLaws
  import opened Locality
  import opened Runs
  import R = Rows

  /** The guild whose entries the handler of an event may read or change. */
  function EventGuild(event: Event): Option<GuildID> {
    match event
    case GuildCreate(guild) => Some(guild.id)
    case GuildUpdate(guild) => Some(guild.id)
    case GuildDelete(g, _) => Some(g)
    case GuildEmojisUpdate(g, _) => Some(g)
    case GuildStickersUpdate(g, _) => Some(g)
    case GuildMembersChunk(g, _) => Some(g)
    case GuildMemberAdd(member) => member.guildID
    case GuildMemberRemove(g, _) => Some(g)
    case GuildMemberUpdate(member) => member.guildID
    case GuildRoleCreate(g, _) => Some(g)
    case GuildRoleUpdate(g, _) => Some(g)
    case GuildRoleDelete(g, _) => Some(g)
    case ChannelCreate(channel) => ChannelGuild(channel)
    case ChannelUpdate(channel) => ChannelGuild(channel)
    case ChannelDelete(channel) => ChannelGuild(channel)
    case ChannelPinsUpdate(g, _, _) => if g != 0 then Some(g) else None
    case VoiceStateUpdate(state) => if state.guildID.None? then Some(0) else state.guildID
  }

  // ---------------------------------------------------------------------------------------------------------
  // One guild's tables under its own and other events

  lemma MergedAlike(t: Tables, s: Tables, policy: Policy, update: Guild, r1: Option<Guild>, r2: Option<Guild>)
    requires Invariant(t) && Invariant(s) && Comparable(t, s, update.id) && (update.id != 0 || r1 == r2)
    requires ReadsGuild(t, update.id, r1) && ReadsGuild(s, update.id, r2)
    ensures PayloadsAlike(t, s, policy, MergeUpdate(update, r1), MergeUpdate(update, r2))
  {
    var g := update.id;
    ReadsAreLocal(t, s, g, r1);
    if r1.Some? && r2.Some? {
      hide Lists, Invariant, R.StoreAll;
      assert Core(r1.value) == Core(r2.value);
      VoiceIsEmpty(t, g, r1.value);
      VoiceIsEmpty(s, g, r2.value);
      ReadChannelsAreStored(t, g, r1.value);
      ReadChannelsAreStored(s, g, r2.value);
      ReadMembersAreStored(t, policy, g, r1.value);
      ReadMembersAreStored(s, policy, g, r2.value);
    }
  }

  lemma VoiceIsEmpty(t: Tables, g: GuildID, r: Guild)
    requires Invariant(t) && ReadsGuild(t, g, Some(r))
    ensures r.voiceStates == Some([])
  {
    ListsNothing(r.voiceStates.value, R.EntriesAt(t.voice, g));
  }

  lemma StickersInStep(
    t: Tables, s: Tables, policy: Policy, g: GuildID, stickers: seq<string>, r1: Guild, r2: Guild)
    requires Invariant(t) && Invariant(s) && LocalOf(t, g) == LocalOf(s, g)
    requires ReadsGuild(t, g, Some(r1)) && ReadsGuild(s, g, Some(r2))
    ensures r1.id == g && r2.id == g
    ensures var t2 := SetGuild(t, policy, r1.(stickers := stickers));
            var s2 := SetGuild(s, policy, r2.(stickers := stickers));
            t2.panicked == s2.panicked && InStep(t, s, t2.tables, s2.tables, g)
  {
    hide SetGuild, Invariant, Lists;
    ReadThenWrite(t, policy, g, r1, r1.(stickers := stickers));
    ReadThenWrite(s, policy, g, r2, r2.(stickers := stickers));
    assert Core(r1) == ReadCore(t.guilds[g]) && Core(r2) == ReadCore(s.guilds[g]);
    assert Core(t.guilds[g]) == Core(s.guilds[g]);
  }

  lemma PayloadAlikeItself(t: Tables, s: Tables, policy: Policy, guild: Guild)
    ensures PayloadsAlike(t, s, policy, guild, guild)
  {
  }

  lemma MemberInStep(t: Tables, s: Tables, policy: Policy, g: GuildID, member: GuildMember)
    requires HasUser(member) && LocalOf(t, g) == LocalOf(s, g)
    ensures InStep(t, s, SetGuildMember(t, policy, g, member), SetGuildMember(s, policy, g, member), g)
  {
    hide SetGuildMember, Core;
    MembersInStep(t, s, policy, g, [member], [member]);
    OneMember(t, policy, g, member);
    OneMember(s, policy, g, member);
  }

  lemma OneMember(t: Tables, policy: Policy, g: GuildID, member: GuildMember)
    requires HasUser(member)
    ensures SetGuildMembers(t, policy, g, [member]) == SetGuildMember(t, policy, g, member)
  {
    assert [member][..0] == [];
    assert SetGuildMembers(t, policy, g, []) == t;
  }

  lemma CountInStep(t: Tables, s: Tables, g: GuildID, delta: int)
    requires LocalOf(t, g) == LocalOf(s, g)
    ensures InStep(t, s, CountMember(t, g, delta), CountMember(s, g, delta), g)
  {
    if g in t.guilds && g in s.guilds {
      assert Core(t.guilds[g]) == Core(s.guilds[g]);
    }
  }

  lemma InStepComposes(t: Tables, s: Tables, t1: Tables, s1: Tables, t2: Tables, s2: Tables, g: GuildID)
    requires InStep(t, s, t1, s1, g) && InStep(t1, s1, t2, s2, g)
    ensures InStep(t, s, t2, s2, g)
  {
    hide LocalOf;
  }

  lemma AddInStep(t: Tables, s: Tables, policy: Policy, g: GuildID, member: GuildMember)
    requires HasUser(member) && LocalOf(t, g) == LocalOf(s, g)
    ensures InStep(t, s, SetGuildMember(CountMember(t, g, 1), policy, g, member),
                   SetGuildMember(CountMember(s, g, 1), policy, g, member), g)
  {
    hide LocalOf, SetGuildMember, CountMember;
    CountInStep(t, s, g, 1);
    var t1, s1 := CountMember(t, g, 1), CountMember(s, g, 1);
    MemberInStep(t1, s1, policy, g, member);
    InStepComposes(t, s, t1, s1, SetGuildMember(t1, policy, g, member), SetGuildMember(s1, policy, g, member), g);
  }

  lemma DeleteMemberInStep(t: Tables, s: Tables, g: GuildID, u: UserID)
    requires LocalOf(t, g) == LocalOf(s, g)
    ensures InStep(t, s, t.(members := R.Delete(t.members, g, u)), s.(members := R.Delete(s.members, g, u)), g)
  {
    hide Core;
  }

  lemma RemoveInStep(t: Tables, s: Tables, g: GuildID, u: UserID)
    requires LocalOf(t, g) == LocalOf(s, g)
    ensures var t1, s1 := CountMember(t, g, -1), CountMember(s, g, -1);
            InStep(t, s, t1.(members := R.Delete(t1.members, g, u)), s1.(members := R.Delete(s1.members, g, u)), g)
  {
    hide LocalOf, CountMember;
    CountInStep(t, s, g, -1);
    var t1, s1 := CountMember(t, g, -1), CountMember(s, g, -1);
    DeleteMemberInStep(t1, s1, g, u);
    InStepComposes(t, s, t1, s1, t1.(members := R.Delete(t1.members, g, u)),
                   s1.(members := R.Delete(s1.members, g, u)), g);
  }

  lemma EmojisUpdateInStep(t: Tables, s: Tables, policy: Policy, g: GuildID, emojis: seq<Emoji>)
    requires LocalOf(t, g) == LocalOf(s, g)
    ensures InStep(t, s, SetGuildEmojis(t.(emojis := t.emojis - {g}), policy, g, emojis),
                   SetGuildEmojis(s.(emojis := s.emojis - {g}), policy, g, emojis), g)
  {
    hide SetGuildEmojis, Core;
    EmojisInStep(t.(emojis := t.emojis - {g}), s.(emojis := s.emojis - {g}), policy, g, emojis);
  }

  lemma StoreMemberInStep(t: Tables, s: Tables, policy: Policy, g: GuildID, member: GuildMember)
    requires LocalOf(t, g) == LocalOf(s, g) && member.guildID == Some(g)
    ensures var t2, s2 := StoreMember(t, policy, member), StoreMember(s, policy, member);
            t2.panicked == s2.panicked && InStep(t, s, t2.tables, s2.tables, g)
  {
    hide LocalOf;
    if HasUser(member) {
      MemberInStep(t, s, policy, g, member);
    }
  }

  lemma StoreRoleInStep(t: Tables, s: Tables, g: GuildID, role: Role)
    requires LocalOf(t, g) == LocalOf(s, g)
    ensures var t2, s2 := StoreRole(t, g, role), StoreRole(s, g, role);
            t2.panicked == s2.panicked && InStep(t, s, t2.tables, s2.tables, g)
  {
    hide LocalOf;
    RoleInStep(t, s, g, role);
  }

  lemma RoleInStep(t: Tables, s: Tables, g: GuildID, role: Role)
    requires LocalOf(t, g) == LocalOf(s, g)
    ensures InStep(t, s, SetGuildRole(t, g, role), SetGuildRole(s, g, role), g)
  {
    hide Core;
  }

  lemma DeleteRoleInStep(t: Tables, s: Tables, g: GuildID, role: RoleID)
    requires LocalOf(t, g) == LocalOf(s, g)
    ensures InStep(t, s, t.(roles := R.Delete(t.roles, g, role)), s.(roles := R.Delete(s.roles, g, role)), g)
  {
    hide Core;
  }

  lemma ChannelInStep(t: Tables, s: Tables, policy: Policy, g: GuildID, channel: Channel)
    requires LocalOf(t, g) == LocalOf(s, g)
    ensures InStep(t, s, SetGuildChannel(t, policy, g, channel), SetGuildChannel(s, policy, g, channel), g)
  {
    hide Core;
    var stamped := channel.(guildID := Some(g));
    SetUsersOnlyUsers(t.(channels := R.Store(t.channels, g, channel.id, stamped)), policy, channel.recipients);
    SetUsersOnlyUsers(s.(channels := R.Store(s.channels, g, channel.id, stamped)), policy, channel.recipients);
  }

  lemma DeleteChannelInStep(t: Tables, s: Tables, g: GuildID, c: ChannelID)
    requires LocalOf(t, g) == LocalOf(s, g)
    ensures InStep(t, s, t.(channels := R.Delete(t.channels, g, c)), s.(channels := R.Delete(s.channels, g, c)), g)
  {
    hide Core;
  }

  lemma ChannelEventInStep(t: Tables, s: Tables, policy: Policy, now: int, g: GuildID, channel: Channel)
    requires LocalOf(t, g) == LocalOf(s, g) && ChannelGuild(channel) == Some(g)
    ensures InStep(t, s, CreateChannel(t, policy, now, channel), CreateChannel(s, policy, now, channel), g)
    ensures InStep(t, s, UpdateChannel(t, policy, now, channel), UpdateChannel(s, policy, now, channel), g)
    ensures InStep(t, s, DeleteChannel(t, channel), DeleteChannel(s, channel), g)
  {
    hide LocalOf, SetGuildChannel, InStep;
    ChannelInStep(t, s, policy, g, channel);
    DeleteChannelInStep(t, s, g, channel.id);
  }

  lemma PinInStep(t: Tables, s: Tables, g: GuildID, c: ChannelID, timestamp: string)
    requires LocalOf(t, g) == LocalOf(s, g) && g != 0
    ensures InStep(t, s, PinChannel(t, g, c, timestamp), PinChannel(s, g, c, timestamp), g)
  {
    hide Core;
  }

  lemma VoiceInStep(t: Tables, s: Tables, policy: Policy, state: VoiceState, g: GuildID)
    requires Invariant(t) && Invariant(s) && Comparable(t, s, g) && EventGuild(VoiceStateUpdate(state)) == Some(g)
    ensures var t2, s2 := ChangeVoiceState(t, policy, state), ChangeVoiceState(s, policy, state);
            t2.panicked == s2.panicked && InStep(t, s, t2.tables, s2.tables, g)
  {
    hide UpdateVoiceState, LocalOf;
    if g == 0 {
      assert R.Lookup(t.voice, 0, state.userID) == None && R.Lookup(s.voice, 0, state.userID) == None;
    } else {
      VoiceStateInStep(t, s, policy, g, state);
    }
  }

  // ---------------------------------------------------------------------------------------------------------
  // Dedupe keys

  /** The two key tables hold the same keys for members of guild `g`. */
  ghost predicate SameKeys(d1: DedupeTable, d2: DedupeTable, g: GuildID) {
    forall kind, u :: Find(d1, MemberKey(kind, g, u)) == Find(d2, MemberKey(kind, g, u))
  }

  lemma RememberedKey(
    d: DedupeTable, kind: Kind, g: GuildID, u: UserID, now: int, k: Kind, o: GuildID, v: UserID)
    ensures Find(Remember(d, kind, g, u, now), MemberKey(k, o, v))
         == if o != g || v != u then Find(d, MemberKey(k, o, v))
            else if k != kind then None
            else if Suppressed(d, MemberKey(kind, g, u), now) then Find(d, MemberKey(k, o, v))
            else Some(now + MEMBER_DEDUPE_EXPIRATION)
  {
    hide MemberKey;
    if MemberKey(k, o, v) == MemberKey(kind, g, u) {
      KeysAreInjective(k, o, v, kind, g, u);
    }
    if MemberKey(k, o, v) == MemberKey(Opposite(kind), g, u) {
      KeysAreInjective(k, o, v, Opposite(kind), g, u);
    }
  }

  lemma RememberInStep(d1: DedupeTable, d2: DedupeTable, kind: Kind, g: GuildID, u: UserID, now: int)
    requires SameKeys(d1, d2, g)
    ensures SameKeys(Remember(d1, kind, g, u, now), Remember(d2, kind, g, u, now), g)
    ensures forall o :: o != g ==> SameKeys(Remember(d1, kind, g, u, now), d1, o)
  {
    hide Remember, MemberKey;
    forall k, v
      ensures Find(Remember(d1, kind, g, u, now), MemberKey(k, g, v))
           == Find(Remember(d2, kind, g, u, now), MemberKey(k, g, v))
    {
      RememberedKey(d1, kind, g, u, now, k, g, v);
      RememberedKey(d2, kind, g, u, now, k, g, v);
      SameKeySuppresses(d1, d2, g, kind, u, now);
    }
    forall o | o != g
      ensures SameKeys(Remember(d1, kind, g, u, now), d1, o)
    {
      forall k, v
        ensures Find(Remember(d1, kind, g, u, now), MemberKey(k, o, v)) == Find(d1, MemberKey(k, o, v))
      {
        RememberedKey(d1, kind, g, u, now, k, o, v);
      }
    }
  }

  lemma SameKeySuppresses(d1: DedupeTable, d2: DedupeTable, g: GuildID, kind: Kind, u: UserID, now: int)
    requires SameKeys(d1, d2, g)
    ensures Suppressed(d1, MemberKey(kind, g, u), now) == Suppressed(d2, MemberKey(kind, g, u), now)
  {
    hide MemberKey;
    assert Find(d1, MemberKey(kind, g, u)) == Find(d2, MemberKey(kind, g, u));
  }

  // ---------------------------------------------------------------------------------------------------------
  // One event, in step

  /** What one guild sees of the world: its tables, its dedupe keys, and whether one group holds it. */
  ghost predicate Alike(
    t: Tables, d: DedupeTable, held: set<GuildID>, t': Tables, d': DedupeTable, held': set<GuildID>, g: GuildID)
  {
    LocalOf(t, g) == LocalOf(t', g) && SameKeys(d, d', g) && (g in held <==> g in held')
  }

  /** An event of guild `g` does the same to it in both states, and nothing to any other guild. */
  ghost predicate Parallel(
    t: Tables, d: DedupeTable, held: set<GuildID>, e: Effect, f: Effect, g: GuildID)
  {
    && Alike(e.tables, e.dedupe, e.held, f.tables, f.dedupe, f.held, g)
    && e.published == f.published && e.panicked == f.panicked
    && forall o :: o != g ==> Alike(e.tables, e.dedupe, e.held, t, d, held, o)
  }

  lemma TablesOnly(
    t: Tables, s: Tables, d1: DedupeTable, d2: DedupeTable, h1: set<GuildID>, h2: set<GuildID>, e: Effect, f: Effect,
    g: GuildID)
    requires InStep(t, s, e.tables, f.tables, g) && Alike(t, d1, h1, s, d2, h2, g)
    requires e.dedupe == d1 && f.dedupe == d2 && e.published == f.published && e.panicked == f.panicked
    requires (e.held == h1 && f.held == h2) || (e.held == h1 + {g} && f.held == h2 + {g})
          || (e.held == h1 - {g} && f.held == h2 - {g})
    ensures Parallel(t, d1, h1, e, f, g)
  {
    hide LocalOf;
  }

  lemma StoreGuildInStep(
    t: Tables, s: Tables, d1: DedupeTable, d2: DedupeTable, h1: set<GuildID>, h2: set<GuildID>, policy: Policy,
    u: Guild, v: Guild)
    requires Invariant(t) && Invariant(s) && Alike(t, d1, h1, s, d2, h2, u.id) && Comparable(t, s, u.id)
    requires PayloadsAlike(t, s, policy, u, v)
    ensures Parallel(t, d1, h1, StoreGuild(t, d1, h1, policy, u), StoreGuild(s, d2, h2, policy, v), u.id)
  {
    hide LocalOf, SetGuild, SameKeys, RolesOk, ChannelsOk, MembersOk;
    SetGuildInStep(t, s, policy, u, v);
    TablesOnly(t, s, d1, d2, h1, h2, StoreGuild(t, d1, h1, policy, u), StoreGuild(s, d2, h2, policy, v), u.id);
  }

  lemma StickersEventInStep(
    t: Tables, s: Tables, d1: DedupeTable, d2: DedupeTable, h1: set<GuildID>, h2: set<GuildID>, policy: Policy,
    now: int, g: GuildID, stickers: seq<string>, r1: Option<Guild>, r2: Option<Guild>)
    requires Invariant(t) && Invariant(s) && Alike(t, d1, h1, s, d2, h2, g)
    requires ReadsGuild(t, g, r1) && ReadsGuild(s, g, r2)
    ensures var event := GuildStickersUpdate(g, stickers);
            Parallel(t, d1, h1, Handle(t, d1, h1, policy, now, event, r1), Handle(s, d2, h2, policy, now, event, r2), g)
  {
    hide SetGuild, SameKeys, Invariant, Lists, Core, ReadCore;
    ReadsAreLocal(t, s, g, r1);
    if r1.Some? {
      StickersInStep(t, s, policy, g, stickers, r1.value, r2.value);
    }
    var event := GuildStickersUpdate(g, stickers);
    TablesOnly(t, s, d1, d2, h1, h2, Handle(t, d1, h1, policy, now, event, r1),
               Handle(s, d2, h2, policy, now, event, r2), g);
  }

  lemma AddMemberInStep(
    t: Tables, s: Tables, d1: DedupeTable, d2: DedupeTable, h1: set<GuildID>, h2: set<GuildID>, policy: Policy,
    now: int, member: GuildMember, g: GuildID)
    requires Alike(t, d1, h1, s, d2, h2, g) && member.guildID == Some(g)
    ensures Parallel(t, d1, h1, AddMember(t, d1, h1, policy, now, member), AddMember(s, d2, h2, policy, now, member), g)
  {
    hide LocalOf, SetGuildMember, CountMember, Remember, MemberKey, SameKeys, Suppressed;
    if HasUser(member) {
      var u := member.user.value.id;
      SameKeySuppresses(d1, d2, g, Add, u, now);
      AddInStep(t, s, policy, g, member);
      RememberInStep(d1, d2, Add, g, u, now);
    }
    SameKeysItself(d1);
  }

  lemma SameKeysItself(d: DedupeTable)
    ensures forall o :: SameKeys(d, d, o)
  {
  }

  lemma RemoveMemberInStep(
    t: Tables, s: Tables, d1: DedupeTable, d2: DedupeTable, h1: set<GuildID>, h2: set<GuildID>, now: int, g: GuildID,
    u: UserID)
    requires Alike(t, d1, h1, s, d2, h2, g)
    ensures Parallel(t, d1, h1, RemoveMember(t, d1, h1, now, g, u), RemoveMember(s, d2, h2, now, g, u), g)
  {
    hide LocalOf, CountMember, Remember, MemberKey, SameKeys, Suppressed, R.Delete;
    SameKeySuppresses(d1, d2, g, Remove, u, now);
    RemoveInStep(t, s, g, u);
    RememberInStep(d1, d2, Remove, g, u, now);
    SameKeysItself(d1);
  }

  lemma NothingInStep(t: Tables, s: Tables, g: GuildID)
    requires LocalOf(t, g) == LocalOf(s, g)
    ensures InStep(t, s, t, s, g)
  {
  }

  lemma ChunkInStep(t: Tables, s: Tables, policy: Policy, g: GuildID, members: seq<GuildMember>)
    requires LocalOf(t, g) == LocalOf(s, g)
    ensures var t2, s2 := StoreChunk(t, policy, g, members), StoreChunk(s, policy, g, members);
            t2.panicked == s2.panicked && InStep(t, s, t2.tables, s2.tables, g)
  {
    hide LocalOf, InStep;
    var stored := Prefix(members, HasUser);
    PrefixSplits(members, HasUser);
    MembersInStep(t, s, policy.(cacheUsers := true, cacheMembers := true), g, stored, stored);
  }

  /** The events whose handlers touch no dedupe key and read no whole guild. */
  predicate IsTableEvent(event: Event) {
    !event.GuildCreate? && !event.GuildUpdate? && !event.GuildStickersUpdate? && !event.GuildMemberAdd?
    && !event.GuildMemberRemove?
  }

  predicate IsRowEvent(event: Event) {
    !event.ChannelCreate? && !event.ChannelUpdate? && !event.ChannelDelete? && !event.ChannelPinsUpdate?
    && !event.VoiceStateUpdate?
  }

  lemma RowEventTables(
    t: Tables, s: Tables, d1: DedupeTable, d2: DedupeTable, h1: set<GuildID>, h2: set<GuildID>, policy: Policy,
    now: int, event: Event, g: GuildID)
    requires Invariant(t) && Invariant(s) && EventGuild(event) == Some(g) && Comparable(t, s, g)
    requires IsTableEvent(event) && IsRowEvent(event)
    ensures InStep(t, s, Handle(t, d1, h1, policy, now, event, None).tables,
                   Handle(s, d2, h2, policy, now, event, None).tables, g)
    ensures Handle(t, d1, h1, policy, now, event, None).panicked
         == Handle(s, d2, h2, policy, now, event, None).panicked
  {
    hide LocalOf, Invariant, SetGuildEmojis, StoreChunk, StoreMember, StoreRole, R.Delete, InStep;
    NothingInStep(t, s, g);
    match event
    case GuildDelete(_, _) =>
    case GuildEmojisUpdate(_, emojis) => EmojisUpdateInStep(t, s, policy, g, emojis);
    case GuildMembersChunk(_, members) =>
      ChunkInStep(t, s, policy, g, members);
    case GuildMemberUpdate(member) => StoreMemberInStep(t, s, policy, g, member);
    case GuildRoleCreate(_, role) => StoreRoleInStep(t, s, g, role);
    case GuildRoleUpdate(_, role) => StoreRoleInStep(t, s, g, role);
    case GuildRoleDelete(_, role) => DeleteRoleInStep(t, s, g, role);
  }

  lemma ChannelEventTables(
    t: Tables, s: Tables, d1: DedupeTable, d2: DedupeTable, h1: set<GuildID>, h2: set<GuildID>, policy: Policy,
    now: int, event: Event, g: GuildID)
    requires Invariant(t) && Invariant(s) && EventGuild(event) == Some(g) && Comparable(t, s, g)
    requires IsTableEvent(event) && !IsRowEvent(event)
    ensures InStep(t, s, Handle(t, d1, h1, policy, now, event, None).tables,
                   Handle(s, d2, h2, policy, now, event, None).tables, g)
    ensures Handle(t, d1, h1, policy, now, event, None).panicked
         == Handle(s, d2, h2, policy, now, event, None).panicked
  {
    hide LocalOf, Invariant, PinChannel, ChangeVoiceState, InStep, CreateChannel, UpdateChannel, DeleteChannel;
    match event
    case ChannelCreate(channel) => ChannelEventInStep(t, s, policy, now, g, channel);
    case ChannelUpdate(channel) => ChannelEventInStep(t, s, policy, now, g, channel);
    case ChannelDelete(channel) => ChannelEventInStep(t, s, policy, now, g, channel);
    case ChannelPinsUpdate(_, c, timestamp) => PinInStep(t, s, g, c, timestamp);
    case VoiceStateUpdate(state) => VoiceInStep(t, s, policy, state, g);
  }

  lemma TableEventRest(
    t: Tables, d: DedupeTable, held: set<GuildID>, policy: Policy, now: int, event: Event, g: GuildID)
    requires EventGuild(event) == Some(g) && IsTableEvent(event)
    ensures var e := Handle(t, d, held, policy, now, event, None);
            && e.dedupe == d && e.published == !e.panicked
            && e.held == if event.GuildDelete? && !event.unavailable then held - {g} else held
  {
    hide SetGuildEmojis, StoreChunk, StoreMember, SetGuildChannel, StoreRole, PinChannel, ChangeVoiceState,
      R.Delete, CreateChannel, UpdateChannel, DeleteChannel;
  }

  lemma TableEventInStep(
    t: Tables, s: Tables, d1: DedupeTable, d2: DedupeTable, h1: set<GuildID>, h2: set<GuildID>, policy: Policy,
    now: int, event: Event, g: GuildID)
    requires Invariant(t) && Invariant(s) && EventGuild(event) == Some(g) && Comparable(t, s, g)
    requires Alike(t, d1, h1, s, d2, h2, g) && IsTableEvent(event)
    ensures Parallel(t, d1, h1, Handle(t, d1, h1, policy, now, event, None),
                     Handle(s, d2, h2, policy, now, event, None), g)
  {
    hide Handle, Invariant, LocalOf, Alike, InStep, Parallel, IsTableEvent;
    if IsRowEvent(event) {
      RowEventTables(t, s, d1, d2, h1, h2, policy, now, event, g);
    } else {
      ChannelEventTables(t, s, d1, d2, h1, h2, policy, now, event, g);
    }
    TableEventRest(t, d1, h1, policy, now, event, g);
    TableEventRest(s, d2, h2, policy, now, event, g);
    TablesOnly(t, s, d1, d2, h1, h2, Handle(t, d1, h1, policy, now, event, None),
               Handle(s, d2, h2, policy, now, event, None), g);
  }

  /** Any event, handled in two states that agree on its guild. */
  lemma HandleInStep(
    t: Tables, s: Tables, d1: DedupeTable, d2: DedupeTable, h1: set<GuildID>, h2: set<GuildID>, policy: Policy,
    now: int, event: Event, r1: Option<Guild>, r2: Option<Guild>, g: GuildID)
    requires Invariant(t) && Invariant(s) && EventGuild(event) == Some(g)
    requires Alike(t, d1, h1, s, d2, h2, g) && (g != 0 || (t == s && r1 == r2))
    requires Reads(t, event, r1) && Reads(s, event, r2)
    ensures Parallel(t, d1, h1, Handle(t, d1, h1, policy, now, event, r1), Handle(s, d2, h2, policy, now, event, r2), g)
  {
    hide LocalOf, Invariant, SameKeys, StoreGuild, MergeUpdate, AddMember, RemoveMember, Parallel, ReadsGuild,
      PayloadsAlike;
    match event
    case GuildCreate(guild) =>
      PayloadAlikeItself(t, s, policy, guild);
      StoreGuildInStep(t, s, d1, d2, h1, h2, policy, guild, guild);
    case GuildUpdate(guild) =>
      MergedAlike(t, s, policy, guild, r1, r2);
      MergeKeepsId(guild, r1);
      StoreGuildInStep(t, s, d1, d2, h1, h2, policy, MergeUpdate(guild, r1), MergeUpdate(guild, r2));
    case GuildStickersUpdate(_, stickers) =>
      StickersEventInStep(t, s, d1, d2, h1, h2, policy, now, g, stickers, r1, r2);
    case GuildMemberAdd(member) => AddMemberInStep(t, s, d1, d2, h1, h2, policy, now, member, g);
    case GuildMemberRemove(_, user) => RemoveMemberInStep(t, s, d1, d2, h1, h2, now, g, user.id);
    case _ => TableEventInStep(t, s, d1, d2, h1, h2, policy, now, event, g);
  }

  lemma MergeKeepsId(update: Guild, before: Option<Guild>)
    ensures MergeUpdate(update, before).id == update.id
  {
  }

  predicate SameButDMs(t: Tables, s: Tables) {
    && s.guilds == t.guilds && s.members == t.members && s.channels == t.channels && s.roles == t.roles
    && s.emojis == t.emojis && s.users == t.users && s.voice == t.voice
  }

  /** An event of no guild touches no guild's entries: it is about a direct message channel, or it panics. */
  lemma HandleOutside(
    t: Tables, d: DedupeTable, held: set<GuildID>, policy: Policy, now: int, event: Event, o: GuildID)
    requires EventGuild(event) == None
    ensures var e := Handle(t, d, held, policy, now, event, None);
            SameButDMs(t, e.tables) && e.dedupe == d && e.held == held
  {
    hide SetGuild, SetGuildEmojis, StoreChunk, StoreRole, ChangeVoiceState, SetGuildChannel, SetGuildMember,
      CountMember, R.Delete, R.Update, RemoveMember, Suppressed, MemberKey, Remember, DeleteChannel, CreateChannel,
      UpdateChannel;
    match event
    case ChannelCreate(channel) => DMEventsKeepTables(t, policy, now, channel);
    case ChannelUpdate(channel) => DMUpdateKeepsTables(t, policy, now, channel);
    case ChannelDelete(channel) => DMEventsKeepTables(t, policy, now, channel);
    case _ =>
  }

  lemma DMEventsKeepTables(t: Tables, policy: Policy, now: int, channel: Channel)
    requires ChannelGuild(channel).None?
    ensures SameButDMs(t, CreateChannel(t, policy, now, channel))
    ensures SameButDMs(t, DeleteChannel(t, channel))
  {
    hide SetGuildChannel, R.Delete;
  }

  lemma DMUpdateKeepsTables(t: Tables, policy: Policy, now: int, channel: Channel)
    requires ChannelGuild(channel).None?
    ensures SameButDMs(t, UpdateChannel(t, policy, now, channel))
  {
    hide SetGuildChannel, TouchDMChannel;
    TouchKeepsTables(t, channel.id, now);
  }

  lemma TouchKeepsTables(t: Tables, c: ChannelID, now: int)
    ensures SameButDMs(t, TouchDMChannel(t, c, now))
  {
  }

  // ---------------------------------------------------------------------------------------------------------
  // Runs

  /** The two worlds agree on guild `g`: its entries, its members' dedupe keys, and which groups hold it. */
  ghost predicate SameFor(w: World, v: World, g: GuildID) {
    && LocalOf(w.tables, g) == LocalOf(v.tables, g)
    && SameKeys(w.dedupe, v.dedupe, g)
    && w.groups.Keys == v.groups.Keys
    && forall group :: group in w.groups.Keys ==> (g in w.groups[group] <==> g in v.groups[group])
  }

  /** Deliveries concern the guild of their event; sweeps and group changes concern every guild. */
  predicate Concerns(step: Step, g: GuildID) {
    step.Deliver? ==> EventGuild(step.d.event) == Some(g)
  }

  function StreamOf(steps: seq<Step>, g: GuildID): seq<Step> {
    if steps == [] then []
    else
      var last := |steps| - 1;
      StreamOf(steps[..last], g) + (if Concerns(steps[last], g) then [steps[last]] else [])
  }

  lemma DeliveryElsewhere(w: World, d: Delivery, read: Option<Guild>, g: GuildID)
    requires Invariant(w.tables) && d.group in w.groups && Reads(w.tables, d.event, read)
    requires EventGuild(d.event) != Some(g)
    ensures SameFor(Apply(w, d, read), w, g)
  {
    hide Handle, Invariant, LocalOf, SameKeys, Reads;
    var t, keys, held := w.tables, w.dedupe, w.groups[d.group];
    match EventGuild(d.event)
    case None =>
      NothingRead(w.tables, d.event, read);
      HandleOutside(t, keys, held, d.policy, d.now, d.event, g);
      SameKeysItself(keys);
      DMsAreNobodys(t, Apply(w, d, read).tables, g);
    case Some(o) =>
      SameKeysItself(keys);
      HandleInStep(t, t, keys, keys, held, held, d.policy, d.now, d.event, read, read, o);
      var e := Handle(t, keys, held, d.policy, d.now, d.event, read);
      assert Alike(e.tables, e.dedupe, e.held, t, keys, held, g);
  }

  lemma DMsAreNobodys(t: Tables, s: Tables, g: GuildID)
    requires SameButDMs(t, s)
    ensures LocalOf(s, g) == LocalOf(t, g)
  {
  }

  lemma NothingRead(t: Tables, event: Event, read: Option<Guild>)
    requires EventGuild(event) == None && Reads(t, event, read)
    ensures read == None
  {
  }

  lemma StepElsewhere(w: World, step: Step, w': World, g: GuildID)
    requires Invariant(w.tables) && Next(w, step, w') && !Concerns(step, g)
    ensures SameFor(w', w, g)
  {
    hide Invariant, Reads, Apply, SameFor;
    var read: Option<Guild> :| Reads(w.tables, step.d.event, read) && w' == Apply(w, step.d, read);
    DeliveryElsewhere(w, step.d, read, g);
  }

  lemma DeliveryInStep(w: World, v: World, d: Delivery, r1: Option<Guild>, r2: Option<Guild>, g: GuildID)
    requires Invariant(w.tables) && Invariant(v.tables) && SameFor(w, v, g) && g != 0 && d.group in w.groups
    requires EventGuild(d.event) == Some(g) && Reads(w.tables, d.event, r1) && Reads(v.tables, d.event, r2)
    ensures SameFor(Apply(w, d, r1), Apply(v, d, r2), g)
  {
    hide Handle, Invariant, LocalOf, SameKeys, Reads;
    HandleInStep(w.tables, v.tables, w.dedupe, v.dedupe, w.groups[d.group], v.groups[d.group], d.policy, d.now,
                 d.event, r1, r2, g);
  }

  lemma SweepInStep(w: World, v: World, now: int, g: GuildID)
    requires SameFor(w, v, g)
    ensures SameFor(Sweep(w, now), Sweep(v, now), g)
  {
    assert g in HeldGuilds(w.groups) <==> g in HeldGuilds(v.groups) by {
      if g in HeldGuilds(w.groups) {
        var group :| group in w.groups.Keys && g in w.groups[group];
        HeldBySome(v.groups, group, g);
      }
      if g in HeldGuilds(v.groups) {
        var group :| group in v.groups.Keys && g in v.groups[group];
        HeldBySome(w.groups, group, g);
      }
    }
    hide HeldGuilds;
    EjectIsLocal(w.tables, v.tables, HeldGuilds(w.groups), HeldGuilds(v.groups), g);
    ExpireIsLocal(w.dedupe, v.dedupe, now, g);
  }

  lemma EjectIsLocal(t: Tables, s: Tables, k1: set<GuildID>, k2: set<GuildID>, g: GuildID)
    requires LocalOf(t, g) == LocalOf(s, g) && (g in k1 <==> g in k2)
    ensures LocalOf(EjectAll(t, k1), g) == LocalOf(EjectAll(s, k2), g)
  {
    hide Core;
  }

  lemma ExpireIsLocal(d1: DedupeTable, d2: DedupeTable, now: int, g: GuildID)
    requires SameKeys(d1, d2, g)
    ensures SameKeys(Expire(d1, now), Expire(d2, now), g)
  {
    hide MemberKey;
    forall kind, u
      ensures Find(Expire(d1, now), MemberKey(kind, g, u)) == Find(Expire(d2, now), MemberKey(kind, g, u))
    {
      assert Find(d1, MemberKey(kind, g, u)) == Find(d2, MemberKey(kind, g, u));
    }
  }

  lemma StepInStep(w: World, v: World, step: Step, w': World, v': World, g: GuildID)
    requires Invariant(w.tables) && Invariant(v.tables) && SameFor(w, v, g) && g != 0 && Concerns(step, g)
    requires Next(w, step, w') && Next(v, step, v')
    ensures SameFor(w', v', g)
  {
    hide Invariant, Reads, Apply, LocalOf, SameKeys, Sweep;
    match step
    case Deliver(d) =>
      var r1: Option<Guild> :| Reads(w.tables, d.event, r1) && w' == Apply(w, d, r1);
      var r2: Option<Guild> :| Reads(v.tables, d.event, r2) && v' == Apply(v, d, r2);
      DeliveryInStep(w, v, d, r1, r2, g);
    case SweepAt(now) => SweepInStep(w, v, now, g);
    case _ =>
  }

  /**
   Two runs that give a guild the same stream, however the other guilds' deliveries are interleaved, end with the
   same entries, the same dedupe keys and the same holders for it.
   */
  lemma {:induction false} StreamsAreConfluent(
    ws: seq<World>, steps: seq<Step>, vs: seq<World>, others: seq<Step>, g: GuildID)
    requires IsRun(ws, steps) && IsRun(vs, others) && ws[0] == vs[0] && Invariant(ws[0].tables)
    requires g != 0 && StreamOf(steps, g) == StreamOf(others, g)
    ensures SameFor(ws[|ws| - 1], vs[|vs| - 1], g)
    decreases |steps| + |others|
  {
    hide Invariant, Next, SameFor, Concerns;
    var w, v := ws[|ws| - 1], vs[|vs| - 1];
    if steps != [] { RunDropsLast(ws, steps); }
    if others != [] { RunDropsLast(vs, others); }
    if steps != [] && !Concerns(steps[|steps| - 1], g) {
      var init := ws[..|ws| - 1];
      StreamsAreConfluent(init, steps[..|steps| - 1], vs, others, g);
      RunKeeps(init, steps[..|steps| - 1]);
      StepElsewhere(init[|init| - 1], steps[|steps| - 1], w, g);
      SameForComposes(w, init[|init| - 1], v, g);
    } else if others != [] && !Concerns(others[|others| - 1], g) {
      var init := vs[..|vs| - 1];
      StreamsAreConfluent(ws, steps, init, others[..|others| - 1], g);
      RunKeeps(init, others[..|others| - 1]);
      StepElsewhere(init[|init| - 1], others[|others| - 1], v, g);
      SameForSymmetric(v, init[|init| - 1], g);
      SameForComposes(w, init[|init| - 1], v, g);
    } else if steps != [] && others != [] {
      var init1, init2 := ws[..|ws| - 1], vs[..|vs| - 1];
      StreamEndsAlike(steps, others, g);
      StreamsAreConfluent(init1, steps[..|steps| - 1], init2, others[..|others| - 1], g);
      RunKeeps(init1, steps[..|steps| - 1]);
      RunKeeps(init2, others[..|others| - 1]);
      StepInStep(init1[|init1| - 1], init2[|init2| - 1], steps[|steps| - 1], w, v, g);
    } else {
      assert w == v;
      SameForItself(w, g);
    }
  }

  lemma SameForItself(w: World, g: GuildID)
    ensures SameFor(w, w, g)
  {
  }

  lemma SameForSymmetric(w: World, v: World, g: GuildID)
    requires SameFor(w, v, g)
    ensures SameFor(v, w, g)
  {
    hide LocalOf, MemberKey;
  }

  lemma SameForComposes(w: World, v: World, x: World, g: GuildID)
    requires SameFor(w, v, g) && SameFor(v, x, g)
    ensures SameFor(w, x, g)
  {
    hide LocalOf, MemberKey;
  }

  lemma StreamEndsAlike(steps: seq<Step>, others: seq<Step>, g: GuildID)
    requires steps != [] && Concerns(steps[|steps| - 1], g)
    requires others != [] && Concerns(others[|others| - 1], g)
    requires StreamOf(steps, g) == StreamOf(others, g)
    ensures steps[|steps| - 1] == others[|others| - 1]
    ensures StreamOf(steps[..|steps| - 1], g) == StreamOf(others[..|others| - 1], g)
  {
    hide Concerns;
    var a, b := StreamOf(steps, g), StreamOf(others, g);
    assert a[|a| - 1] == steps[|steps| - 1] && b[|b| - 1] == others[|others| - 1];
    assert a[..|a| - 1] == StreamOf(steps[..|steps| - 1], g);
    assert b[..|b| - 1] == StreamOf(others[..|others| - 1], g);
  }

  /** Hence GetGuild can return exactly the same results for it at the end of both runs. */
  lemma ReadsAreConfluent(
    ws: seq<World>, steps: seq<Step>, vs: seq<World>, others: seq<Step>, g: GuildID, read: Option<Guild>)
    requires IsRun(ws, steps) && IsRun(vs, others) && ws[0] == vs[0] && Invariant(ws[0].tables)
    requires g != 0 && StreamOf(steps, g) == StreamOf(others, g)
    ensures ReadsGuild(ws[|ws| - 1].tables, g, read) <==> ReadsGuild(vs[|vs| - 1].tables, g, read)
  {
    hide ReadsGuild, Invariant, Next;
    StreamsAreConfluent(ws, steps, vs, others, g);
    ReadsAreLocal(ws[|ws| - 1].tables, vs[|vs| - 1].tables, g, read);
  }
}
