/** The dispatch handlers over decoded payloads, as functions of the tables, the dedupe keys and the group's guilds. */
module Events {
  import opened Wrappers
  import opened Discord
  import opened Tables
  import opened Dedupe
  import R = Rows

  datatype Event =
    | GuildCreate(guild: Guild)
    | GuildUpdate(guild: Guild)
    | GuildDelete(g: GuildID, unavailable: bool)
    | GuildEmojisUpdate(g: GuildID, emojis: seq<Emoji>)
    | GuildStickersUpdate(g: GuildID, stickers: seq<string>)
    | GuildMembersChunk(g: GuildID, members: seq<GuildMember>)
    | GuildMemberAdd(member: GuildMember)
    | GuildMemberRemove(g: GuildID, user: User)
    | GuildMemberUpdate(member: GuildMember)
    | GuildRoleCreate(g: GuildID, role: Role)
    | GuildRoleUpdate(g: GuildID, role: Role)
    | GuildRoleDelete(g: GuildID, roleID: RoleID)
    | ChannelCreate(channel: Channel)
    | ChannelUpdate(channel: Channel)
    | ChannelDelete(channel: Channel)
    | ChannelPinsUpdate(g: GuildID, channelID: ChannelID, timestamp: string)
    | VoiceStateUpdate(state: VoiceState)

  /**
   What a handler leaves behind: the tables, the dedupe keys, the guilds its shard group holds, whether it lets the
   event be published, and whether it panicked.
   */
  datatype Effect = Effect(tables: Tables, dedupe: DedupeTable, held: set<GuildID>, published: bool, panicked: bool)

  function Done(t: Tables, dedupe: DedupeTable, held: set<GuildID>): Effect {
    Effect(t, dedupe, held, true, false)
  }

  function Panic(t: Tables, dedupe: DedupeTable, held: set<GuildID>): Effect {
    Effect(t, dedupe, held, false, true)
  }

  /** The effect of a handler that only changes tables, and publishes unless it panicked. */
  function Settle(out: Outcome, dedupe: DedupeTable, held: set<GuildID>): Effect {
    Effect(out.tables, dedupe, held, !out.panicked, out.panicked)
  }

  /** SetGuild as a handler runs it: the group holds the guild from the first moment on. */
  function StoreGuild(t: Tables, dedupe: DedupeTable, held: set<GuildID>, policy: Policy, guild: Guild): Effect {
    var out := SetGuild(t, policy, guild);
    Effect(out.tables, dedupe, held + {guild.id}, !out.panicked, out.panicked)
  }

  /** A GUILD_UPDATE payload completed with what only GUILD_CREATE carries. */
  function MergeUpdate(update: Guild, before: Option<Guild>): Guild {
    if before.None? then update
    else
      var b := before.value;
      update.(stageInstances := if update.stageInstances.None? then b.stageInstances else update.stageInstances,
              channels := if update.channels.None? then b.channels else update.channels,
              members := if update.members.None? then b.members else update.members,
              voiceStates := if update.voiceStates.None? then b.voiceStates else update.voiceStates,
              memberCount := if update.memberCount == 0 then b.memberCount else update.memberCount,
              large := b.large,
              joinedAt := b.joinedAt)
  }

  /** Adds to a guild's 32-bit member count, if the guild is cached. */
  function CountMember(t: Tables, g: GuildID, delta: int): Tables {
    if g !in t.guilds then t
    else t.(guilds := t.guilds[g := t.guilds[g].(memberCount := Wrap32(t.guilds[g].memberCount + delta))])
  }

  /** The dedupe keys after an event that was not suppressed: its own key is set, the opposite one is dropped. */
  function Remember(dedupe: DedupeTable, kind: Kind, g: GuildID, u: UserID, now: int): DedupeTable {
    CheckAndAdd(dedupe, MemberKey(kind, g, u), now) - {MemberKey(Opposite(kind), g, u)}
  }

  function AddMember(
    t: Tables, dedupe: DedupeTable, held: set<GuildID>, policy: Policy, now: int, member: GuildMember): Effect
  {
    if member.guildID.None? || !HasUser(member) then Panic(t, dedupe, held)
    else
      var g, u := member.guildID.value, member.user.value.id;
      if Suppressed(dedupe, MemberKey(Add, g, u), now) then Effect(t, dedupe, held, false, false)
      else
        Done(SetGuildMember(CountMember(t, g, 1), policy, g, member), Remember(dedupe, Add, g, u, now), held)
  }

  function RemoveMember(
    t: Tables, dedupe: DedupeTable, held: set<GuildID>, now: int, g: GuildID, u: UserID): Effect
  {
    if Suppressed(dedupe, MemberKey(Remove, g, u), now) then Effect(t, dedupe, held, false, false)
    else
      var counted := CountMember(t, g, -1);
      Done(counted.(members := R.Delete(counted.members, g, u)), Remember(dedupe, Remove, g, u, now), held)
  }

  /** A chunk is stored with the caching of users and members forced on, whatever the configuration says. */
  function StoreChunk(t: Tables, policy: Policy, g: GuildID, members: seq<GuildMember>): Outcome {
    var stored := Prefix(members, HasUser);
    PrefixSplits(members, HasUser);
    Outcome(SetGuildMembers(t, policy.(cacheUsers := true, cacheMembers := true), g, stored), stored != members)
  }

  /** A member update without a guild or a user dereferences nil. */
  function StoreMember(t: Tables, policy: Policy, member: GuildMember): Outcome {
    if member.guildID.None? || !HasUser(member) then Outcome(t, true)
    else Outcome(SetGuildMember(t, policy, member.guildID.value, member), false)
  }

  function StoreRole(t: Tables, g: GuildID, role: Role): Outcome {
    if HasId(role) then Outcome(SetGuildRole(t, g, role), false) else Outcome(t, true)
  }

  /** A channel event is a guild's when its guild id is set and not 0. */
  function ChannelGuild(channel: Channel): Option<GuildID> {
    if channel.guildID.Some? && channel.guildID.value != 0 then channel.guildID else None
  }

  predicate IsDM(channel: Channel) {
    channel.kind.DmKind? || channel.kind.GroupDmKind?
  }

  /** Looking a live DM channel up extends its life. */
  function TouchDMChannel(t: Tables, c: ChannelID, now: int): Tables {
    if c !in t.dms || t.dms[c].expiresAt < now then t
    else t.(dms := t.dms[c := t.dms[c].(expiresAt := now + DM_EXPIRATION)])
  }

  function CreateChannel(t: Tables, policy: Policy, now: int, channel: Channel): Tables {
    if ChannelGuild(channel).Some? then SetGuildChannel(t, policy, channel.guildID.value, channel)
    else if IsDM(channel) && |channel.recipients| > 0 then
      t.(dms := t.dms[channel.id := DMChannel(channel, channel.recipients[0].id, now + DM_EXPIRATION)])
    else t
  }

  function UpdateChannel(t: Tables, policy: Policy, now: int, channel: Channel): Tables {
    if ChannelGuild(channel).Some? then SetGuildChannel(t, policy, channel.guildID.value, channel)
    else if IsDM(channel) then
      var touched := TouchDMChannel(t, channel.id, now);
      if channel.id !in touched.dms then touched
      else touched.(dms := touched.dms[channel.id := touched.dms[channel.id].(channel := channel)])
    else t
  }

  function DeleteChannel(t: Tables, channel: Channel): Tables {
    if ChannelGuild(channel).Some? then t.(channels := R.Delete(t.channels, channel.guildID.value, channel.id))
    else if IsDM(channel) then t.(dms := t.dms - {channel.id})
    else t
  }

  function Pin(timestamp: string): Channel -> Channel {
    (channel: Channel) => channel.(lastPinTimestamp := Some(timestamp))
  }

  function PinChannel(t: Tables, g: GuildID, c: ChannelID, timestamp: string): Tables {
    if g != 0 then t.(channels := R.Update(t.channels, g, c, Pin(timestamp)))
    else if c in t.dms then t.(dms := t.dms[c := t.dms[c].(channel := Pin(timestamp)(t.dms[c].channel))])
    else t
  }

  function ChangeVoiceState(t: Tables, policy: Policy, state: VoiceState): Outcome {
    if state.guildID.None? || state.guildID.value == 0 then Outcome(RemoveVoiceState(t, policy, 0, state.userID), false)
    else UpdateVoiceState(t, policy, state)
  }

  /** The guild a handler reads with GetGuild to write it back, if it does. */
  function GuildRead(event: Event): Option<GuildID> {
    match event
    case GuildUpdate(guild) => Some(guild.id)
    case GuildStickersUpdate(g, _) => Some(g)
    case _ => None
  }

  /** `read` is a result GetGuild may give the handler of `event`. */
  ghost predicate Reads(t: Tables, event: Event, read: Option<Guild>) {
    match GuildRead(event)
    case None => read == None
    case Some(g) => ReadsGuild(t, g, read)
  }

  /** The handler of an event; `read` is what GetGuild gave it. */
  function Handle(
    t: Tables, dedupe: DedupeTable, held: set<GuildID>, policy: Policy, now: int, event: Event, read: Option<Guild>)
    : Effect
  {
    match event
    case GuildCreate(guild) => StoreGuild(t, dedupe, held, policy, guild)
    case GuildUpdate(guild) => StoreGuild(t, dedupe, held, policy, MergeUpdate(guild, read))
    case GuildDelete(g, unavailable) => Done(t, dedupe, if unavailable then held else held - {g})
    case GuildEmojisUpdate(g, emojis) =>
      Done(SetGuildEmojis(t.(emojis := t.emojis - {g}), policy, g, emojis), dedupe, held)
    case GuildStickersUpdate(g, stickers) =>
      if read.None? then Done(t, dedupe, held)
      else StoreGuild(t, dedupe, held, policy, read.value.(stickers := stickers))
    case GuildMembersChunk(g, members) =>
      Settle(StoreChunk(t, policy, g, members), dedupe, held)
    case GuildMemberAdd(member) => AddMember(t, dedupe, held, policy, now, member)
    case GuildMemberRemove(g, user) => RemoveMember(t, dedupe, held, now, g, user.id)
    case GuildMemberUpdate(member) => Settle(StoreMember(t, policy, member), dedupe, held)
    case GuildRoleCreate(g, role) => Settle(StoreRole(t, g, role), dedupe, held)
    case GuildRoleUpdate(g, role) => Settle(StoreRole(t, g, role), dedupe, held)
    case GuildRoleDelete(g, roleID) => Done(t.(roles := R.Delete(t.roles, g, roleID)), dedupe, held)
    case ChannelCreate(channel) => Done(CreateChannel(t, policy, now, channel), dedupe, held)
    case ChannelUpdate(channel) => Done(UpdateChannel(t, policy, now, channel), dedupe, held)
    case ChannelDelete(channel) => Done(DeleteChannel(t, channel), dedupe, held)
    case ChannelPinsUpdate(g, c, timestamp) => Done(PinChannel(t, g, c, timestamp), dedupe, held)
    case VoiceStateUpdate(state) => Settle(ChangeVoiceState(t, policy, state), dedupe, held)
  }

  // ---------------------------------------------------------------------------------------------------------
  // Runs

  type GroupID = int

  /** The shared state and the guilds each registered shard group holds. */
  datatype World = World(tables: Tables, dedupe: DedupeTable, groups: map<GroupID, set<GuildID>>)

  /** An event delivered to a shard of some group, under a caching policy, at some time. */
  datatype Delivery = Delivery(group: GroupID, policy: Policy, now: int, event: Event)

  function Apply(w: World, d: Delivery, read: Option<Guild>): World
    requires d.group in w.groups
  {
    var e := Handle(w.tables, w.dedupe, w.groups[d.group], d.policy, d.now, d.event, read);
    World(e.tables, e.dedupe, w.groups[d.group := e.held])
  }

  /** One delivery, handled in one step; GetGuild may list its rows in any order. */
  ghost predicate Delivers(w: World, d: Delivery, w': World) {
    d.group in w.groups && exists read: Option<Guild> :: Reads(w.tables, d.event, read) && w' == Apply(w, d, read)
  }

  /** One sweep of the cache ejector. */
  function Sweep(w: World, now: int): World {
    var kept := HeldGuilds(w.groups);
    World(EjectAll(w.tables, kept), Expire(w.dedupe, now), w.groups)
  }

  /** The guilds some group holds. */
  function HeldGuilds(groups: map<GroupID, set<GuildID>>): set<GuildID> {
    set group, g | group in groups.Keys && g in groups[group] :: g
  }

  lemma HeldBySome(groups: map<GroupID, set<GuildID>>, group: GroupID, g: GuildID)
    requires group in groups && g in groups[group]
    ensures g in HeldGuilds(groups)
  {
  }

  /** The tables without the guilds of `gone`; voice rows stay, as in RemoveGuild. */
  function Without(t: Tables, gone: set<GuildID>): Tables {
    t.(guilds := t.guilds - gone, roles := t.roles - gone, channels := t.channels - gone, emojis := t.emojis - gone,
       members := t.members - gone)
  }

  /** Removes every cached guild that is not kept. */
  function EjectAll(t: Tables, kept: set<GuildID>): Tables {
    Without(t, t.guilds.Keys - kept)
  }

  datatype Step =
    | Deliver(d: Delivery)
    | SweepAt(now: int)
    | Register(group: GroupID)
    | Close(group: GroupID)
    | Unregister(group: GroupID)

  /** What can happen: a delivery, a sweep, a group being registered, closed, or dropped from the registry. */
  ghost predicate Next(w: World, step: Step, w': World) {
    match step
    case Deliver(d) => Delivers(w, d, w')
    case SweepAt(now) => w' == Sweep(w, now)
    case Register(group) => group !in w.groups && w' == w.(groups := w.groups[group := {}])
    case Close(group) => group in w.groups && w' == w.(groups := w.groups[group := {}])
    case Unregister(group) => w' == w.(groups := w.groups - {group})
  }

  /** `ws` is a run of `steps`: one world before each step and one after the last. */
  ghost predicate IsRun(ws: seq<World>, steps: seq<Step>) {
    |ws| == |steps| + 1 && forall i :: 0 <= i < |steps| ==> Next(ws[i], steps[i], ws[i + 1])
  }
}
