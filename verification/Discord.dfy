/** Decoded payload entities, cut down to the fields the state and its handlers read or write. */
module Discord {
  import opened Wrappers

  type GuildID = int
  type UserID = int
  type RoleID = int
  type ChannelID = int
  type EmojiID = int

  datatype User = User(id: UserID, name: string)

  /** `user` and `guildID` are nullable in the source: None is nil. */
  datatype GuildMember = GuildMember(user: Option<User>, guildID: Option<GuildID>, nick: string)

  datatype Role = Role(id: RoleID, name: string)

  datatype Emoji = Emoji(id: EmojiID, user: Option<User>)

  datatype ChannelKind = GuildChannelKind | DmKind | GroupDmKind

  datatype Channel = Channel(
    id: ChannelID,
    guildID: Option<GuildID>,
    kind: ChannelKind,
    recipients: seq<User>,
    memberCount: int,
    lastPinTimestamp: Option<string>)

  datatype VoiceState = VoiceState(
    guildID: Option<GuildID>,
    userID: UserID,
    channelID: ChannelID,
    member: Option<GuildMember>)

  /** Lists the handlers compare with nil are optional; the others only ever get iterated. */
  datatype Guild = Guild(
    id: GuildID,
    name: string,
    memberCount: int,
    approximateMemberCount: int,
    afkChannelID: Option<ChannelID>,
    large: bool,
    joinedAt: string,
    stickers: seq<string>,
    stageInstances: Option<seq<string>>,
    roles: seq<Role>,
    channels: Option<seq<Channel>>,
    voiceStates: Option<seq<VoiceState>>,
    emojis: seq<Emoji>,
    members: Option<seq<GuildMember>>)

  datatype DMChannel = DMChannel(channel: Channel, userID: UserID, expiresAt: int)

  /** The elements of a list that may be nil. */
  function Listed<T>(list: Option<seq<T>>): seq<T> {
    if list.None? then [] else list.value
  }

  /** 32-bit two's complement, for counters the source keeps in an int32. */
  function Wrap32(n: int): int {
    (n + 0x8000_0000) % 0x1_0000_0000 - 0x8000_0000
  }

  /** It is the one int32 that differs from the number by a multiple of 2^32. */
  lemma Wrap32Is(n: int, m: int)
    ensures m == Wrap32(n) <==> -0x8000_0000 <= m < 0x8000_0000 && (n - m) % 0x1_0000_0000 == 0
  {
  }
}
