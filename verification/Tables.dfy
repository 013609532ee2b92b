/** The cached state as a value, and what every state operation does to it. */
module Tables {
  import opened Wrappers
  import opened Discord
  import R = Rows

  datatype Tables = Tables(
    guilds: map<GuildID, Guild>,
    members: R.Rows<GuildID, UserID, GuildMember>,
    channels: R.Rows<GuildID, ChannelID, Channel>,
    roles: R.Rows<GuildID, RoleID, Role>,
    emojis: map<GuildID, seq<Emoji>>,
    users: map<UserID, User>,
    dms: map<ChannelID, DMChannel>,
    voice: R.Rows<GuildID, UserID, VoiceState>)

  const EMPTY := Tables(map[], map[], map[], map[], map[], map[], map[], map[])

  /** The caching configuration a handler runs under, and the bot's own user. */
  datatype Policy = Policy(cacheUsers: bool, cacheMembers: bool, botID: UserID)

  /** The tables an operation leaves, and whether it ended in a panic half way. */
  datatype Outcome = Outcome(tables: Tables, panicked: bool)

  const DM_EXPIRATION := 30 * 60

  // ---------------------------------------------------------------------------------------------------------
  // Lists cut at the first element that panics

  function Prefix<T>(xs: seq<T>, ok: T -> bool): seq<T> {
    if xs == [] || !ok(xs[0]) then [] else [xs[0]] + Prefix(xs[1..], ok)
  }

  lemma {:induction false} PrefixIs<T>(xs: seq<T>, ok: T -> bool, n: nat)
    requires n <= |xs|
    requires forall i :: 0 <= i < n ==> ok(xs[i])
    requires n == |xs| || !ok(xs[n])
    ensures Prefix(xs, ok) == xs[..n]
  {
    if n > 0 {
      PrefixIs(xs[1..], ok, n - 1);
      assert xs[..n] == [xs[0]] + xs[1..][..n - 1];
    }
  }

  lemma {:induction false} PrefixSplits<T>(xs: seq<T>, ok: T -> bool)
    ensures |Prefix(xs, ok)| <= |xs| && Prefix(xs, ok) == xs[..|Prefix(xs, ok)|]
    ensures forall i :: 0 <= i < |Prefix(xs, ok)| ==> ok(Prefix(xs, ok)[i])
    ensures |Prefix(xs, ok)| < |xs| ==> !ok(xs[|Prefix(xs, ok)|])
  {
    if xs != [] && ok(xs[0]) {
      PrefixSplits(xs[1..], ok);
    }
  }

  predicate HasUser(member: GuildMember) {
    member.user.Some?
  }

  predicate HasId(role: Role) {
    role.id != 0
  }

  // ---------------------------------------------------------------------------------------------------------
  // Users and members

  function SetUser(t: Tables, policy: Policy, user: User): Tables {
    if !policy.cacheUsers && user.id != policy.botID then t else t.(users := t.users[user.id := user])
  }

  function SetUsers(t: Tables, policy: Policy, users: seq<User>): Tables {
    if users == [] then t else SetUser(SetUsers(t, policy, users[..|users| - 1]), policy, users[|users| - 1])
  }

  /** The caching rule for members: everybody, or the bot alone. */
  predicate Admitted(policy: Policy, member: GuildMember)
    requires HasUser(member)
  {
    policy.cacheMembers || member.user.value.id == policy.botID
  }

  function SetGuildMember(t: Tables, policy: Policy, g: GuildID, member: GuildMember): Tables
    requires HasUser(member)
  {
    if !Admitted(policy, member) then t
    else
      var user := member.user.value;
      SetUser(t.(members := R.Store(t.members, g, user.id, member)), policy, user)
  }

  function SetGuildMembers(t: Tables, policy: Policy, g: GuildID, members: seq<GuildMember>): Tables
    requires forall i :: 0 <= i < |members| ==> HasUser(members[i])
  {
    if members == [] then t
    else
      var last := |members| - 1;
      SetGuildMember(SetGuildMembers(t, policy, g, members[..last]), policy, g, members[last])
  }

  /** The cached member with the cached user filled in. The flag is the source's `ok`, which the user lookup sets. */
  function GetGuildMember(t: Tables, g: GuildID, u: UserID): (GuildMember, bool) {
    match R.Lookup(t.members, g, u)
    case None => (GuildMember(None, None, ""), false)
    case Some(member) =>
      if member.user.None? then (member, false)
      else
        match Find(t.users, member.user.value.id)
        case None => (member, false)
        case Some(user) => (member.(user := Some(user)), true)
  }

  // ---------------------------------------------------------------------------------------------------------
  // Roles, channels and emojis

  function SetGuildRole(t: Tables, g: GuildID, role: Role): Tables {
    t.(roles := R.Store(t.roles, g, role.id, role))
  }

  function SetGuildRoles(t: Tables, g: GuildID, roles: seq<Role>): Tables {
    if roles == [] then t else SetGuildRole(SetGuildRoles(t, g, roles[..|roles| - 1]), g, roles[|roles| - 1])
  }

  function SetGuildChannel(t: Tables, policy: Policy, g: GuildID, channel: Channel): Tables {
    var stamped := channel.(guildID := Some(g));
    SetUsers(t.(channels := R.Store(t.channels, g, channel.id, stamped)), policy, channel.recipients)
  }

  function SetGuildChannels(t: Tables, policy: Policy, g: GuildID, channels: seq<Channel>): Tables {
    if channels == [] then t
    else
      var last := |channels| - 1;
      SetGuildChannel(SetGuildChannels(t, policy, g, channels[..last]), policy, g, channels[last])
  }

  /** The channel with every recipient that is cached replaced by the cached user. */
  function GetGuildChannel(t: Tables, g: GuildID, c: ChannelID): Option<Channel> {
    match R.Lookup(t.channels, g, c)
    case None => None
    case Some(channel) => Some(channel.(recipients := CachedUsers(t.users, channel.recipients)))
  }

  function CachedUsers(users: map<UserID, User>, recipients: seq<User>): seq<User> {
    seq(|recipients|, i requires 0 <= i < |recipients| =>
      if recipients[i].id in users then users[recipients[i].id] else recipients[i])
  }

  function EmojiUsers(emojis: seq<Emoji>): seq<User> {
    if emojis == [] then []
    else
      var last := emojis[|emojis| - 1];
      EmojiUsers(emojis[..|emojis| - 1]) + (if last.user.None? then [] else [last.user.value])
  }

  function SetGuildEmojis(t: Tables, policy: Policy, g: GuildID, emojis: seq<Emoji>): Tables {
    SetUsers(t.(emojis := t.emojis[g := emojis]), policy, EmojiUsers(emojis))
  }

  // ---------------------------------------------------------------------------------------------------------
  // Voice states

  function CountMembersForVoiceChannel(t: Tables, g: GuildID, c: ChannelID): nat {
    |Occupants(R.EntriesAt(t.voice, g), R.EntriesAt(t.voice, g).Keys, c)|
  }

  /** The users among `among` whose voice state is in channel `c`. */
  function Occupants(entries: map<UserID, VoiceState>, among: set<UserID>, c: ChannelID): set<UserID> {
    set u | u in among && u in entries && entries[u].channelID == c
  }

  function Elements<K>(ks: seq<K>): set<K> {
    set k | k in ks
  }

  lemma NobodyIn(entries: map<UserID, VoiceState>, c: ChannelID)
    ensures Occupants(entries, {}, c) == {}
    ensures Elements<UserID>([]) == {}
  {
  }

  lemma OneMoreOccupant(entries: map<UserID, VoiceState>, ks: seq<UserID>, i: nat, c: ChannelID)
    requires Enumerates(ks, entries.Keys) && i < |ks|
    ensures |Occupants(entries, Elements(ks[..i + 1]), c)|
         == |Occupants(entries, Elements(ks[..i]), c)| + (if entries[ks[i]].channelID == c then 1 else 0)
  {
    var seen := Occupants(entries, Elements(ks[..i]), c);
    assert ks[..i + 1] == ks[..i] + [ks[i]];
    assert Occupants(entries, Elements(ks[..i + 1]), c)
        == if entries[ks[i]].channelID == c then seen + {ks[i]} else seen;
    assert ks[i] !in seen;
  }

  lemma EveryOccupant(entries: map<UserID, VoiceState>, ks: seq<UserID>, c: ChannelID)
    requires Enumerates(ks, entries.Keys)
    ensures Occupants(entries, Elements(ks[..|ks|]), c) == Occupants(entries, entries.Keys, c)
  {
    assert ks[..|ks|] == ks;
  }

  function ParseVoiceState(t: Tables, g: GuildID, u: UserID, state: VoiceState): VoiceState {
    var member := if state.member.None? then Some(GetGuildMember(t, g, u).0) else state.member;
    state.(member := member, userID := u)
  }

  /**
   Refreshes a voice channel's head count. The test on the guild id is the source's own: only guild 0 writes the
   guild channel, every real guild looks for a DM channel of that id.
   */
  function ShowOccupancy(t: Tables, policy: Policy, g: GuildID, c: ChannelID): Tables {
    match GetGuildChannel(t, g, c)
    case None => t
    case Some(found) =>
      var channel := found.(memberCount := CountMembersForVoiceChannel(t, g, found.id));
      if g == 0 then SetGuildChannel(t, policy, g, channel)
      else if channel.id in t.dms then t.(dms := t.dms[channel.id := t.dms[channel.id].(channel := channel)])
      else t
  }

  /** The voice table after UpdateVoiceState: LoadOrNew, then a write through the handle it gave back. */
  function WriteVoiceState(t: Tables, g: GuildID, state: VoiceState): Tables {
    var rows := R.LoadOrNew(t.voice, g);
    if state.channelID == 0 then t.(voice := R.Delete(rows, g, state.userID))
    else t.(voice := R.Store(rows, g, state.userID, ParseVoiceState(t, g, state.userID, state)))
  }

  function UpdateVoiceState(t: Tables, policy: Policy, state: VoiceState): Outcome {
    if state.guildID.None? then Outcome(t, false)
    else AfterVoiceWrite(t, WriteVoiceState(t, state.guildID.value, state), policy, state.guildID.value, state)
  }

  /** The rest of UpdateVoiceState, once the write has turned `t` into `written`: carried member, then head counts. */
  function AfterVoiceWrite(t: Tables, written: Tables, policy: Policy, g: GuildID, state: VoiceState): Outcome {
    var before := R.Lookup(t.voice, g, state.userID);
    if state.member.Some? && !HasUser(state.member.value) then Outcome(written, true)
    else
      var joined := if state.member.None? then written else SetGuildMember(written, policy, g, state.member.value);
      if before.Some? && before.value.channelID != 0 && before.value.guildID.None? then Outcome(joined, true)
      else
        var left := if before.Some? && before.value.channelID != 0
                    then ShowOccupancy(joined, policy, before.value.guildID.value, before.value.channelID)
                    else joined;
        Outcome(if state.channelID != 0 then ShowOccupancy(left, policy, g, state.channelID) else left, false)
  }

  /** The voice states of a guild payload, one after the other, stopping at the first panic. */
  function UpdateVoiceStates(t: Tables, policy: Policy, g: GuildID, states: seq<VoiceState>): Outcome {
    if states == [] then Outcome(t, false)
    else
      var earlier := UpdateVoiceStates(t, policy, g, states[..|states| - 1]);
      if earlier.panicked then earlier
      else UpdateVoiceState(earlier.tables, policy, states[|states| - 1].(guildID := Some(g)))
  }

  lemma {:induction false} PanicEndsVoiceStates(
    t: Tables, policy: Policy, g: GuildID, states: seq<VoiceState>, n: nat)
    requires n <= |states|
    requires UpdateVoiceStates(t, policy, g, states[..n]).panicked
    ensures UpdateVoiceStates(t, policy, g, states) == UpdateVoiceStates(t, policy, g, states[..n])
  {
    if n < |states| {
      assert states[..|states| - 1][..n] == states[..n];
      PanicEndsVoiceStates(t, policy, g, states[..|states| - 1], n);
    } else {
      assert states[..n] == states;
    }
  }

  function RemoveVoiceState(t: Tables, policy: Policy, g: GuildID, u: UserID): Tables {
    match R.Lookup(t.voice, g, u)
    case None => t
    case Some(state) =>
      var gone := t.(voice := R.Delete(t.voice, g, u));
      match GetGuildChannel(gone, g, state.channelID)
      case None => gone
      case Some(found) =>
        SetGuildChannel(gone, policy, g, found.(memberCount := CountMembersForVoiceChannel(gone, g, found.id)))
  }

  // ---------------------------------------------------------------------------------------------------------
  // Guilds

  /** Writes a guild over the tables. The guild entry itself keeps the payload's lists: only a copy is cleared. */
  function SetGuild(t: Tables, policy: Policy, guild: Guild): Outcome {
    var g := guild.id;
    var stored := t.(guilds := t.guilds[g := guild]);
    var roles := Prefix(guild.roles, HasId);
    var withRoles := SetGuildRoles(stored, g, roles);
    if roles != guild.roles then Outcome(withRoles, true)
    else
      var withChannels := SetGuildChannels(withRoles, policy, g, Listed(guild.channels));
      var withEmojis := SetGuildEmojis(withChannels, policy, g, guild.emojis);
      var members := Prefix(Listed(guild.members), HasUser);
      PrefixSplits(Listed(guild.members), HasUser);
      var withMembers := SetGuildMembers(withEmojis, policy, g, members);
      if members != Listed(guild.members) then Outcome(withMembers, true)
      else UpdateVoiceStates(withMembers, policy, g, Listed(guild.voiceStates))
  }

  function RemoveGuild(t: Tables, g: GuildID): Tables {
    t.(guilds := t.guilds - {g},
       roles := t.roles - {g},
       channels := t.channels - {g},
       emojis := t.emojis - {g},
       members := t.members - {g})
  }

  /** `list` holds the values of `m`, in the order some Range visited the keys. */
  ghost predicate Lists<K(!new), V>(list: seq<V>, m: map<K, V>) {
    exists ks: seq<K> :: Enumerates(ks, m.Keys) && ListsAlong(list, m, ks)
  }

  ghost predicate ListsAlong<K, V>(list: seq<V>, m: map<K, V>, ks: seq<K>) {
    |list| == |ks| && forall i :: 0 <= i < |ks| ==> ks[i] in m && list[i] == m[ks[i]]
  }

  lemma NothingLists<K(!new), V>()
    ensures Lists<K, V>([], map[])
  {
    var none: seq<K> := [];
    var empty: map<K, V> := map[];
    assert Enumerates(none, empty.Keys) && ListsAlong([], empty, none);
  }

  /** GetGuild's `ok`: the guild, a role row, an emoji entry and a member row are all there. */
  predicate Readable(t: Tables, g: GuildID) {
    g in t.guilds && g in t.roles && g in t.emojis && g in t.members
  }

  /** A role row with missing ids filled in from the keys, as the role listing does. */
  function NamedRoles(roles: map<RoleID, Role>): map<RoleID, Role> {
    map k | k in roles :: if roles[k].id == 0 then roles[k].(id := k) else roles[k]
  }

  /** `r` is a possible result of GetGuild: its lists are the table rows, each in some order. */
  ghost predicate ReadsGuild(t: Tables, g: GuildID, r: Option<Guild>) {
    if !Readable(t, g) then r == None
    else
      && r.Some?
      && var guild := r.value;
         && Lists(guild.roles, NamedRoles(R.EntriesAt(t.roles, g)))
         && guild.channels.Some? && Lists(guild.channels.value, R.EntriesAt(t.channels, g))
         && guild.voiceStates.Some? && Lists(guild.voiceStates.value, R.EntriesAt(t.voice, g))
         && guild.members.Some? && Lists(guild.members.value, R.EntriesAt(t.members, g))
         && guild.emojis == t.emojis[g]
         && Core(guild) == ReadCore(t.guilds[g])
  }

  /** A guild without the lists that live in tables of their own. */
  function Core(guild: Guild): Guild {
    guild.(roles := [], channels := None, voiceStates := None, emojis := [], members := None)
  }

  /** What reading does to the rest: the AFK channel defaults to the guild id, the approximate count is the count. */
  function ReadCore(guild: Guild): Guild {
    var afk := if guild.afkChannelID.None? then Some(guild.id) else guild.afkChannelID;
    Core(guild).(afkChannelID := afk, approximateMemberCount := guild.memberCount)
  }
}
