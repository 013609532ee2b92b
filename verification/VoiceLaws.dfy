/** Voice head counts: conserved and moved one by one on a live row, and stuck at zero on the rows the code makes. */
module VoiceLaws {
  import opened Wrappers
  import opened Discord
  import opened Tables
  import opened GuildLaws
  import opened EntryLaws
  import R = Rows

  /** Sum of the head counts of some channels. */
  function CountAlong(t: Tables, g: GuildID, cs: seq<ChannelID>): nat {
    if cs == [] then 0
    else CountAlong(t, g, cs[..|cs| - 1]) + CountMembersForVoiceChannel(t, g, cs[|cs| - 1])
  }

  lemma {:induction false} CountAlongIs(t: Tables, g: GuildID, cs: seq<ChannelID>)
    requires forall i, j :: 0 <= i < j < |cs| ==> cs[i] != cs[j]
    ensures var entries := R.EntriesAt(t.voice, g);
            CountAlong(t, g, cs) == |set u | u in entries.Keys && entries[u].channelID in cs|
  {
    var entries := R.EntriesAt(t.voice, g);
    var all := set u | u in entries.Keys && entries[u].channelID in cs;
    if cs == [] {
      assert all == {};
    } else {
      var last, init := cs[|cs| - 1], cs[..|cs| - 1];
      CountAlongIs(t, g, init);
      var before := set u | u in entries.Keys && entries[u].channelID in init;
      var here := Occupants(entries, entries.Keys, last);
      assert cs == init + [last];
      assert all == before + here;
      assert before !! here;
    }
  }

  /** The head counts of a guild's channels always sum to its number of voice states. */
  lemma CountsSumToVoiceStates(t: Tables, g: GuildID, cs: seq<ChannelID>)
    requires forall i, j :: 0 <= i < j < |cs| ==> cs[i] != cs[j]
    requires forall u :: u in R.EntriesAt(t.voice, g) ==> R.EntriesAt(t.voice, g)[u].channelID in cs
    ensures CountAlong(t, g, cs) == |R.EntriesAt(t.voice, g)|
  {
    CountAlongIs(t, g, cs);
    var entries := R.EntriesAt(t.voice, g);
    var counted := set u | u in entries.Keys && entries[u].channelID in cs;
    forall u | u in entries.Keys ensures u in counted {
      assert u in R.EntriesAt(t.voice, g);
    }
    assert counted == entries.Keys;
  }

  lemma SetUsersKeepsVoice(t: Tables, policy: Policy, users: seq<User>)
    ensures SetUsers(t, policy, users).voice == t.voice
  {
  }

  lemma ShowOccupancyKeepsVoice(t: Tables, policy: Policy, g: GuildID, c: ChannelID)
    ensures ShowOccupancy(t, policy, g, c).voice == t.voice
  {
    var found := GetGuildChannel(t, g, c);
    if found.Some? && g == 0 {
      var channel := found.value.(memberCount := CountMembersForVoiceChannel(t, g, found.value.id));
      var stamped := channel.(guildID := Some(g));
      SetUsersKeepsVoice(t.(channels := R.Store(t.channels, g, channel.id, stamped)), policy, channel.recipients);
    }
  }

  lemma MemberKeepsVoice(t: Tables, policy: Policy, g: GuildID, member: GuildMember)
    requires HasUser(member)
    ensures SetGuildMember(t, policy, g, member).voice == t.voice
  {
  }

  /** However an update ends, panics included, the voice table is what the one write left. */
  lemma NothingWritesVoiceAfter(t: Tables, written: Tables, policy: Policy, g: GuildID, state: VoiceState)
    ensures AfterVoiceWrite(t, written, policy, g, state).tables.voice == written.voice
  {
    hide ShowOccupancy, SetGuildMember;
    var before := R.Lookup(t.voice, g, state.userID);
    if state.member.None? || HasUser(state.member.value) {
      if state.member.Some? {
        MemberKeepsVoice(written, policy, g, state.member.value);
      }
      var joined := if state.member.None? then written else SetGuildMember(written, policy, g, state.member.value);
      if before.Some? && before.value.guildID.Some? {
        var left := ShowOccupancy(joined, policy, before.value.guildID.value, before.value.channelID);
        ShowOccupancyKeepsVoice(joined, policy, before.value.guildID.value, before.value.channelID);
        ShowOccupancyKeepsVoice(left, policy, g, state.channelID);
      }
      ShowOccupancyKeepsVoice(joined, policy, g, state.channelID);
    }
  }

  lemma UpdateOnlyWritesOnce(t: Tables, policy: Policy, state: VoiceState, g: GuildID)
    requires state.guildID == Some(g)
    ensures UpdateVoiceState(t, policy, state).tables.voice == WriteVoiceState(t, g, state).voice
  {
    hide AfterVoiceWrite, WriteVoiceState;
    NothingWritesVoiceAfter(t, WriteVoiceState(t, g, state), policy, g, state);
  }

  /**
   The code as it is: on a row with a table an update takes its user out of the channel they were in and into the new
   one, and nothing else; on any other row every count of the guild is 0 before and after.
   */
  lemma UpdateMovesOneUser(t: Tables, policy: Policy, state: VoiceState, g: GuildID, c: ChannelID)
    requires state.guildID == Some(g)
    ensures var before := R.Lookup(t.voice, g, state.userID);
            var count, later := CountMembersForVoiceChannel(t, g, c),
                                CountMembersForVoiceChannel(UpdateVoiceState(t, policy, state).tables, g, c);
            if g in t.voice && t.voice[g].Table?
            then later == count - (if before.Some? && before.value.channelID == c then 1 else 0)
                                + (if state.channelID == c && c != 0 then 1 else 0)
            else later == count == 0
  {
    hide UpdateVoiceState, WriteVoiceState;
    UpdateOnlyWritesOnce(t, policy, state, g);
    if g in t.voice && t.voice[g].Table? {
      WriteMovesOneUser(t, state, g, c);
    } else {
      WriteWithoutTable(t, state, g);
      assert Occupants(map[], {}, c) == {};
    }
  }

  lemma WriteWithoutTable(t: Tables, state: VoiceState, g: GuildID)
    requires !(g in t.voice && t.voice[g].Table?)
    ensures R.EntriesAt(t.voice, g) == map[] && R.EntriesAt(WriteVoiceState(t, g, state).voice, g) == map[]
  {
    hide ParseVoiceState, R.Lookup;
    var rows := R.LoadOrNew(t.voice, g);
    assert rows[g] == R.NoTable;
    assert R.Delete(rows, g, state.userID) == rows;
    assert R.Store(rows, g, state.userID, ParseVoiceState(t, g, state.userID, state)) == rows;
    hide R.Delete, R.Store, R.LoadOrNew;
  }

  lemma WriteMovesOneUser(t: Tables, state: VoiceState, g: GuildID, c: ChannelID)
    requires g in t.voice && t.voice[g].Table?
    ensures var before := R.Lookup(t.voice, g, state.userID);
            CountMembersForVoiceChannel(WriteVoiceState(t, g, state), g, c)
            == CountMembersForVoiceChannel(t, g, c)
               - (if before.Some? && before.value.channelID == c then 1 else 0)
               + (if state.channelID == c && c != 0 then 1 else 0)
  {
    hide ParseVoiceState, Occupants, Put, WriteVoiceState;
    var u := state.userID;
    WriteIsPut(t, state, g);
    ParsingKeepsChannel(t, state, g);
    PutMovesOneUser(R.EntriesAt(t.voice, g), u, Written(t, state, g), c);
  }

  /** What an update stores under the user: nothing when they left. */
  function Written(t: Tables, state: VoiceState, g: GuildID): Option<VoiceState> {
    if state.channelID == 0 then None else Some(ParseVoiceState(t, g, state.userID, state))
  }

  lemma ParsingKeepsChannel(t: Tables, state: VoiceState, g: GuildID)
    ensures ParseVoiceState(t, g, state.userID, state).channelID == state.channelID
  {
    hide GetGuildMember;
  }

  lemma WriteIsPut(t: Tables, state: VoiceState, g: GuildID)
    requires g in t.voice && t.voice[g].Table?
    ensures R.EntriesAt(WriteVoiceState(t, g, state).voice, g)
         == Put(R.EntriesAt(t.voice, g), state.userID, Written(t, state, g))
  {
    hide ParseVoiceState, WriteVoiceState;
    if state.channelID == 0 {
      LeavingDeletes(t, state, g);
    } else {
      JoiningStores(t, state, g);
    }
  }

  lemma LeavingDeletes(t: Tables, state: VoiceState, g: GuildID)
    requires g in t.voice && state.channelID == 0
    ensures WriteVoiceState(t, g, state).voice == R.Delete(t.voice, g, state.userID)
  {
    hide ParseVoiceState, R.Delete;
  }

  lemma JoiningStores(t: Tables, state: VoiceState, g: GuildID)
    requires g in t.voice && state.channelID != 0
    ensures WriteVoiceState(t, g, state).voice
         == R.Store(t.voice, g, state.userID, ParseVoiceState(t, g, state.userID, state))
  {
    hide ParseVoiceState, R.Store;
  }

  function Put(entries: map<UserID, VoiceState>, u: UserID, state: Option<VoiceState>): map<UserID, VoiceState> {
    if state.None? then entries - {u} else entries[u := state.value]
  }

  lemma PutMovesOneUser(entries: map<UserID, VoiceState>, u: UserID, state: Option<VoiceState>, c: ChannelID)
    ensures var later := Put(entries, u, state);
            |Occupants(later, later.Keys, c)|
            == |Occupants(entries, entries.Keys, c)|
               - (if u in entries && entries[u].channelID == c then 1 else 0)
               + (if state.Some? && state.value.channelID == c then 1 else 0)
  {
    var later := Put(entries, u, state);
    var was, now := Occupants(entries, entries.Keys, c), Occupants(later, later.Keys, c);
    OthersStay(entries, u, state, c);
    WithAndWithout(was, u);
    WithAndWithout(now, u);
  }

  lemma OthersStay(entries: map<UserID, VoiceState>, u: UserID, state: Option<VoiceState>, c: ChannelID)
    ensures var later := Put(entries, u, state);
            Occupants(entries, entries.Keys, c) - {u} == Occupants(later, later.Keys, c) - {u}
  {
  }

  lemma WithAndWithout<T>(a: set<T>, x: T)
    ensures |a| == |a - {x}| + (if x in a then 1 else 0)
  {
    if x in a {
      assert a == a - {x} + {x};
    } else {
      assert a == a - {x};
    }
  }

  /** Removing a voice state lowers the count of its channel alone. */
  lemma RemoveLowersOneCount(t: Tables, policy: Policy, g: GuildID, u: UserID, c: ChannelID)
    ensures var before := R.Lookup(t.voice, g, u);
            CountMembersForVoiceChannel(RemoveVoiceState(t, policy, g, u), g, c)
            == CountMembersForVoiceChannel(t, g, c) - (if before.Some? && before.value.channelID == c then 1 else 0)
  {
    var before := R.Lookup(t.voice, g, u);
    if before.Some? {
      var gone := t.(voice := R.Delete(t.voice, g, u));
      var entries, left := R.EntriesAt(t.voice, g), R.EntriesAt(gone.voice, g);
      var was, now := Occupants(entries, entries.Keys, c), Occupants(left, left.Keys, c);
      assert now == was - {u};
      var found := GetGuildChannel(gone, g, before.value.channelID);
      if found.Some? {
        var channel := found.value.(memberCount := CountMembersForVoiceChannel(gone, g, found.value.id));
        var stamped := channel.(guildID := Some(g));
        SetUsersKeepsVoice(gone.(channels := R.Store(gone.channels, g, channel.id, stamped)), policy,
                           channel.recipients);
      }
    }
  }

  /** The code as it is: a joining user is counted exactly when the guild's row already has a table of its own. */
  lemma JoinIsCountedIff(t: Tables, policy: Policy, state: VoiceState, g: GuildID)
    requires state.guildID == Some(g) && state.channelID != 0
    ensures var after := UpdateVoiceState(t, policy, state).tables;
            && (R.Lookup(after.voice, g, state.userID).Some?
                && R.Lookup(after.voice, g, state.userID).value.channelID == state.channelID
                <==> g in t.voice && t.voice[g].Table?)
            && (!(g in t.voice && t.voice[g].Table?) ==> CountMembersForVoiceChannel(after, g, state.channelID) == 0)
  {
    hide UpdateVoiceState;
    UpdateOnlyWritesOnce(t, policy, state, g);
    var after := WriteVoiceState(t, g, state);
    if !(g in t.voice && t.voice[g].Table?) {
      assert R.EntriesAt(after.voice, g) == map[];
      assert Occupants(map[], {}, state.channelID) == {};
    }
  }

  /** The first user ever to join a voice channel of a guild is not counted. */
  lemma FirstJoinIsLost()
    ensures var state := VoiceState(Some(7), 1, 5, None);
            var after := UpdateVoiceState(EMPTY, Policy(true, true, 99), state).tables;
            7 in after.voice && CountMembersForVoiceChannel(after, 7, 5) == 0
  {
    var state := VoiceState(Some(7), 1, 5, None);
    JoinIsCountedIff(EMPTY, Policy(true, true, 99), state, 7);
    UpdateOnlyWritesOnce(EMPTY, Policy(true, true, 99), state, 7);
  }

  // ---------------------------------------------------------------------------------------------------------
  // The head count a cached channel shows

  lemma MemberKeepsChannels(t: Tables, policy: Policy, g: GuildID, member: GuildMember)
    requires HasUser(member)
    ensures SetGuildMember(t, policy, g, member).channels == t.channels
  {
  }

  /** What refreshing a channel of guild 0 stores under its id. */
  lemma RefreshStores(t: Tables, policy: Policy, c: ChannelID) returns (stored: Channel)
    requires R.Lookup(t.channels, 0, c).Some? && R.Lookup(t.channels, 0, c).value.id == c
    ensures stored.id == c && stored.memberCount == CountMembersForVoiceChannel(t, 0, c)
    ensures ShowOccupancy(t, policy, 0, c).channels == R.Store(t.channels, 0, c, stored)
  {
    hide CountMembersForVoiceChannel, CachedUsers, R.Store;
    var channel := GetGuildChannel(t, 0, c).value.(memberCount := CountMembersForVoiceChannel(t, 0, c));
    stored := channel.(guildID := Some(0));
    SetUsersOnlyUsers(t.(channels := R.Store(t.channels, 0, c, stored)), policy, channel.recipients);
  }

  /** Refreshing writes the count into a cached channel of guild 0, and into no guild channel otherwise. */
  lemma RefreshShows(t: Tables, policy: Policy, g: GuildID, c: ChannelID)
    requires R.Lookup(t.channels, g, c).Some? && R.Lookup(t.channels, g, c).value.id == c
    ensures var after := R.Lookup(ShowOccupancy(t, policy, g, c).channels, g, c);
            && after.Some?
            && after.value.memberCount
               == (if g == 0 then CountMembersForVoiceChannel(t, g, c)
                   else R.Lookup(t.channels, g, c).value.memberCount)
  {
    hide CountMembersForVoiceChannel, ShowOccupancy;
    if g == 0 {
      var _ := RefreshStores(t, policy, c);
    } else {
      ShowOccupancyIs(t, policy, g, c);
    }
  }

  /** Refreshing leaves the channel rows of real guilds alone, whichever guild and channel it is for. */
  lemma RefreshKeepsRealGuilds(t: Tables, policy: Policy, g: GuildID, c: ChannelID, h: GuildID)
    requires h != 0
    ensures Find(ShowOccupancy(t, policy, g, c).channels, h) == Find(t.channels, h)
  {
    ShowOccupancyIs(t, policy, g, c);
  }

  /** Hence after any update, panics included, a real guild's channels are what they were before it. */
  lemma UpdateKeepsRealChannels(t: Tables, policy: Policy, state: VoiceState, h: GuildID)
    requires h != 0
    ensures Find(UpdateVoiceState(t, policy, state).tables.channels, h) == Find(t.channels, h)
  {
    if state.guildID.Some? {
      hide ShowOccupancy, SetGuildMember, WriteVoiceState;
      var g := state.guildID.value;
      var before, written := R.Lookup(t.voice, g, state.userID), WriteVoiceState(t, g, state);
      WriteKeepsChannels(t, g, state);
      if state.member.None? || HasUser(state.member.value) {
        if state.member.Some? { MemberKeepsChannels(written, policy, g, state.member.value); }
        var joined := if state.member.None? then written else SetGuildMember(written, policy, g, state.member.value);
        if before.Some? && before.value.guildID.Some? {
          var left := ShowOccupancy(joined, policy, before.value.guildID.value, before.value.channelID);
          RefreshKeepsRealGuilds(joined, policy, before.value.guildID.value, before.value.channelID, h);
          RefreshKeepsRealGuilds(left, policy, g, state.channelID, h);
        }
        RefreshKeepsRealGuilds(joined, policy, g, state.channelID, h);
      }
    }
  }

  lemma WriteKeepsChannels(t: Tables, g: GuildID, state: VoiceState)
    ensures WriteVoiceState(t, g, state).channels == t.channels
  {
    hide WriteVoiceState;
    if state.channelID == 0 {
      LeavingKeepsChannels(t, g, state);
    } else {
      JoiningKeepsChannels(t, g, state);
    }
  }

  lemma LeavingKeepsChannels(t: Tables, g: GuildID, state: VoiceState)
    requires state.channelID == 0
    ensures WriteVoiceState(t, g, state).channels == t.channels
  {
    hide ParseVoiceState, R.LoadOrNew, R.Delete, R.Store;
  }

  lemma JoiningKeepsChannels(t: Tables, g: GuildID, state: VoiceState)
    requires state.channelID != 0
    ensures WriteVoiceState(t, g, state).channels == t.channels
  {
    hide ParseVoiceState, R.LoadOrNew, R.Delete, R.Store;
  }

  /** A refresh keeps every cached channel under its id. */
  lemma RefreshKeepsIds(t: Tables, policy: Policy, g: GuildID, c: ChannelID, d: ChannelID)
    requires ChannelsOk(t.channels) && R.Lookup(t.channels, 0, d).Some?
    ensures var after := R.Lookup(ShowOccupancy(t, policy, g, c).channels, 0, d); after.Some? && after.value.id == d
  {
    assert ChannelRowOk(0, t.channels[0].Entries());
    hide CountMembersForVoiceChannel, ShowOccupancy, ChannelsOk, ChannelRowOk;
    if g != 0 {
      ShowOccupancyIs(t, policy, g, c);
      assert Find(ShowOccupancy(t, policy, g, c).channels, 0) == Find(t.channels, 0);
    } else if R.Lookup(t.channels, 0, c).Some? {
      var _ := RefreshStores(t, policy, c);
    } else {
      NothingToRefresh(t, policy, 0, c);
    }
  }

  lemma NothingToRefresh(t: Tables, policy: Policy, g: GuildID, c: ChannelID)
    requires R.Lookup(t.channels, g, c).None?
    ensures ShowOccupancy(t, policy, g, c) == t
  {
  }

  /** The last thing an update in guild 0 does is refresh the joined channel, unless it panicked before any refresh. */
  lemma UpdateEndsInRefresh(t: Tables, policy: Policy, state: VoiceState)
    requires ChannelsOk(t.channels) && state.guildID == Some(0) && state.channelID != 0
    requires R.Lookup(t.channels, 0, state.channelID).Some?
    ensures var out, c := UpdateVoiceState(t, policy, state), state.channelID;
            if out.panicked then out.tables.channels == t.channels
            else
              var shown := R.Lookup(out.tables.channels, 0, c);
              shown.Some? && shown.value.memberCount == CountMembersForVoiceChannel(out.tables, 0, c)
  {
    hide ShowOccupancy, SetGuildMember, WriteVoiceState, CountMembersForVoiceChannel;
    var c := state.channelID;
    var before, written := R.Lookup(t.voice, 0, state.userID), WriteVoiceState(t, 0, state);
    WriteKeepsChannels(t, 0, state);
    if state.member.None? || HasUser(state.member.value) {
      if state.member.Some? { MemberKeepsChannels(written, policy, 0, state.member.value); }
      var joined := if state.member.None? then written else SetGuildMember(written, policy, 0, state.member.value);
      if before.None? || before.value.channelID == 0 {
        assert ChannelRowOk(0, t.channels[0].Entries());
        RefreshIsRight(joined, policy, c);
      } else if before.value.guildID.Some? {
        var left := ShowOccupancy(joined, policy, before.value.guildID.value, before.value.channelID);
        RefreshKeepsIds(joined, policy, before.value.guildID.value, before.value.channelID, c);
        RefreshIsRight(left, policy, c);
      }
    }
  }

  lemma RefreshIsRight(t: Tables, policy: Policy, c: ChannelID)
    requires R.Lookup(t.channels, 0, c).Some? && R.Lookup(t.channels, 0, c).value.id == c
    ensures var after := ShowOccupancy(t, policy, 0, c);
            && R.Lookup(after.channels, 0, c).Some?
            && R.Lookup(after.channels, 0, c).value.memberCount == CountMembersForVoiceChannel(after, 0, c)
  {
    hide ShowOccupancy;
    RefreshShows(t, policy, 0, c);
    ShowOccupancyKeepsVoice(t, policy, 0, c);
  }

  /** An update panics on a carried member without a user, or on an old voice state with a channel and no guild. */
  predicate Panics(t: Tables, state: VoiceState, g: GuildID) {
    var before := R.Lookup(t.voice, g, state.userID);
    || (state.member.Some? && !HasUser(state.member.value))
    || (before.Some? && before.value.channelID != 0 && before.value.guildID.None?)
  }

  lemma UpdatePanicsIff(t: Tables, policy: Policy, state: VoiceState, g: GuildID)
    requires state.guildID == Some(g)
    ensures UpdateVoiceState(t, policy, state).panicked <==> Panics(t, state, g)
  {
    hide ShowOccupancy, SetGuildMember, WriteVoiceState;
  }

  /** The head count of the joined channel after an update, from the tables before it. */
  function CountAfterJoin(t: Tables, state: VoiceState, g: GuildID): int {
    var before := R.Lookup(t.voice, g, state.userID);
    if g in t.voice && t.voice[g].Table?
    then CountMembersForVoiceChannel(t, g, state.channelID)
         + (if before.Some? && before.value.channelID == state.channelID then 0 else 1)
    else 0
  }

  /**
   After an update the joined channel shows its head count exactly when the guild is 0 and the update does not panic, or
   the number it showed before happens to be right: a real guild's channel is never refreshed.
   */
  lemma ShownCountIsRightIff(t: Tables, policy: Policy, state: VoiceState, g: GuildID)
    requires ChannelsOk(t.channels) && state.guildID == Some(g) && state.channelID != 0
    requires R.Lookup(t.channels, g, state.channelID).Some?
    ensures var after, c := UpdateVoiceState(t, policy, state).tables, state.channelID;
            var shown := R.Lookup(after.channels, g, c);
            && shown.Some?
            && CountMembersForVoiceChannel(after, g, c) == CountAfterJoin(t, state, g)
            && (shown.value.memberCount == CountMembersForVoiceChannel(after, g, c)
                <==> (g == 0 && !Panics(t, state, g))
                     || R.Lookup(t.channels, g, c).value.memberCount == CountAfterJoin(t, state, g))
  {
    hide UpdateVoiceState, CountMembersForVoiceChannel, Panics;
    UpdateMovesOneUser(t, policy, state, g, state.channelID);
    UpdatePanicsIff(t, policy, state, g);
    if g == 0 {
      UpdateEndsInRefresh(t, policy, state);
    } else {
      UpdateKeepsRealChannels(t, policy, state, g);
      assert R.EntriesAt(UpdateVoiceState(t, policy, state).tables.channels, g) == R.EntriesAt(t.channels, g);
    }
  }

  /** A channel that came with a head count of 3, and keeps showing 3 after somebody else joined. */
  lemma ShownCountIsStale()
    ensures var channel := Channel(5, None, GuildChannelKind, [], 3, None);
            var t := SetGuildChannel(EMPTY, Policy(true, true, 99), 7, channel);
            var after := UpdateVoiceState(t, Policy(true, true, 99), VoiceState(Some(7), 1, 5, None)).tables;
            && R.Lookup(after.channels, 7, 5).Some? && R.Lookup(after.channels, 7, 5).value.memberCount == 3
            && CountMembersForVoiceChannel(after, 7, 5) == 0
  {
    var channel := Channel(5, None, GuildChannelKind, [], 3, None);
    var t := SetGuildChannel(EMPTY, Policy(true, true, 99), 7, channel);
    var state := VoiceState(Some(7), 1, 5, None);
    assert R.Lookup(t.channels, 7, 5) == Some(channel.(guildID := Some(7))) && t.voice == map[];
    hide UpdateVoiceState, SetGuildChannel;
    UpdateKeepsRealChannels(t, Policy(true, true, 99), state, 7);
    var after := UpdateVoiceState(t, Policy(true, true, 99), state).tables;
    assert R.EntriesAt(after.channels, 7) == R.EntriesAt(t.channels, 7);
    JoinIsCountedIff(t, Policy(true, true, 99), state, 7);
  }

  // ---------------------------------------------------------------------------------------------------------
  // The entries an update leaves

  /** On a row with a table: the user's entry is the update, or gone when they left, and no other entry changes. */
  lemma VoiceStateIsStored(t: Tables, policy: Policy, state: VoiceState, g: GuildID, o: GuildID, v: UserID)
    requires state.guildID == Some(g) && g in t.voice && t.voice[g].Table?
    ensures var now := R.Lookup(UpdateVoiceState(t, policy, state).tables.voice, o, v);
            if o != g || v != state.userID then now == R.Lookup(t.voice, o, v)
            else if state.channelID == 0 then now == None
            else
              && now.Some? && now.value.guildID == state.guildID && now.value.userID == state.userID
              && now.value.channelID == state.channelID
              && now.value.member == (if state.member.Some? then state.member
                                      else Some(GetGuildMember(t, g, state.userID).0))
  {
    hide UpdateVoiceState, WriteVoiceState, R.Store, R.Delete, R.Lookup, GetGuildMember;
    UpdateOnlyWritesOnce(t, policy, state, g);
    if state.channelID == 0 {
      LeavingDeletes(t, state, g);
      R.DeleteAt(t.voice, g, state.userID);
    } else {
      JoiningStores(t, state, g);
      R.StoreAt(t.voice, g, state.userID, ParseVoiceState(t, g, state.userID, state));
    }
  }

  lemma MembersAfterWrite(t: Tables, written: Tables, policy: Policy, g: GuildID, state: VoiceState)
    ensures var after := AfterVoiceWrite(t, written, policy, g, state).tables;
            && after.guilds == written.guilds && after.roles == written.roles && after.emojis == written.emojis
            && after.members == (if state.member.None? || state.member.value.user.None? then written.members
                                 else SetGuildMember(written, policy, g, state.member.value).members)
  {
    hide ShowOccupancy, SetGuildMember;
    var before := R.Lookup(t.voice, g, state.userID);
    if state.member.None? || HasUser(state.member.value) {
      if state.member.Some? { MemberIsAllThatChanges(written, policy, g, state.member.value); }
      var joined := if state.member.None? then written else SetGuildMember(written, policy, g, state.member.value);
      if before.Some? && before.value.guildID.Some? {
        var left := ShowOccupancy(joined, policy, before.value.guildID.value, before.value.channelID);
        ShowOccupancyLeaves(joined, policy, before.value.guildID.value, before.value.channelID);
        ShowOccupancyLeaves(left, policy, g, state.channelID);
      }
      ShowOccupancyLeaves(joined, policy, g, state.channelID);
    }
  }

  lemma MemberIsAllThatChanges(t: Tables, policy: Policy, g: GuildID, member: GuildMember)
    requires HasUser(member)
    ensures var after := SetGuildMember(t, policy, g, member);
            after == t.(members := after.members, users := after.users)
  {
  }

  /** The member an update carries is cached if the rule admits it, whether or not the update panics afterwards. */
  lemma CarriedMemberIsStored(t: Tables, policy: Policy, state: VoiceState, g: GuildID)
    requires state.guildID == Some(g) && R.Reachable(t.members, g)
    ensures var after := UpdateVoiceState(t, policy, state).tables;
            && after.guilds == t.guilds && after.roles == t.roles && after.emojis == t.emojis
            && forall o, v ::
                 R.Lookup(after.members, o, v)
                 == if o == g && state.member.Some? && state.member.value.user.Some? && KeepsMember(policy, v)
                       && v == state.member.value.user.value.id
                    then state.member else R.Lookup(t.members, o, v)
  {
    hide AfterVoiceWrite, SetGuildMember, WriteVoiceState, R.Lookup, R.Reachable, KeepsMember;
    var written := WriteVoiceState(t, g, state);
    WriteChangesVoice(t, g, state);
    MembersAfterWrite(t, written, policy, g, state);
    if state.member.Some? && HasUser(state.member.value) {
      OneMemberIsStored(written, policy, g, state.member.value);
    }
  }

  lemma WriteChangesVoice(t: Tables, g: GuildID, state: VoiceState)
    ensures WriteVoiceState(t, g, state) == t.(voice := WriteVoiceState(t, g, state).voice)
  {
    hide ParseVoiceState, R.LoadOrNew, R.Delete, R.Store;
    var rows, stored := R.LoadOrNew(t.voice, g), ParseVoiceState(t, g, state.userID, state);
    assert WriteVoiceState(t, g, state)
        == t.(voice := if state.channelID == 0 then R.Delete(rows, g, state.userID)
                       else R.Store(rows, g, state.userID, stored));
  }

  // ---------------------------------------------------------------------------------------------------------
  // The channels an update refreshes

  /** The direct channels a refresh for a real guild leaves: the one of that id carries the guild channel's count. */
  lemma RefreshWritesDM(t: Tables, policy: Policy, g: GuildID, c: ChannelID, k: ChannelID)
    requires g != 0 && R.Lookup(t.channels, g, c).Some? && R.Lookup(t.channels, g, c).value.id == c
    ensures var after := Find(ShowOccupancy(t, policy, g, c).dms, k);
            if k != c || c !in t.dms then after == Find(t.dms, k)
            else
              && after.Some? && after.value.userID == t.dms[c].userID && after.value.expiresAt == t.dms[c].expiresAt
              && after.value.channel.id == c
              && after.value.channel.memberCount == CountMembersForVoiceChannel(t, g, c)
              && after.value.channel.guildID == R.Lookup(t.channels, g, c).value.guildID
  {
    hide CountMembersForVoiceChannel, SetGuildChannel, CachedUsers;
  }

  /**
   An update for a real guild therefore shows the head count of the joined channel in the direct channel of that id, if
   one is cached: the guild's own channel is not touched.
   */
  lemma DirectChannelShowsCount(t: Tables, policy: Policy, state: VoiceState, g: GuildID)
    requires ChannelsOk(t.channels) && state.guildID == Some(g) && g != 0 && state.channelID != 0
    requires R.Lookup(t.channels, g, state.channelID).Some? && state.channelID in t.dms && !Panics(t, state, g)
    requires R.Lookup(t.voice, g, state.userID).Some? ==>
               R.Lookup(t.voice, g, state.userID).value.guildID == Some(g)
    ensures var after, c := UpdateVoiceState(t, policy, state).tables, state.channelID;
            && c in after.dms && after.dms[c].userID == t.dms[c].userID
            && after.dms[c].channel.memberCount == CountAfterJoin(t, state, g)
  {
    hide ShowOccupancy, SetGuildMember, WriteVoiceState, CountMembersForVoiceChannel, CountAfterJoin;
    var before, written, c := R.Lookup(t.voice, g, state.userID), WriteVoiceState(t, g, state), state.channelID;
    assert ChannelRowOk(g, t.channels[g].Entries());
    hide ChannelsOk;
    WriteChangesVoice(t, g, state);
    if state.member.Some? { MemberIsAllThatChanges(written, policy, g, state.member.value); }
    var joined := if state.member.None? then written else SetGuildMember(written, policy, g, state.member.value);
    var d := if before.Some? then before.value.channelID else 0;
    var left := if d != 0 then ShowOccupancy(joined, policy, g, d) else joined;
    if d != 0 { RefreshKeepsDM(joined, policy, g, d, c); }
    RefreshWritesDM(left, policy, g, c, c);
    assert UpdateVoiceState(t, policy, state).tables == ShowOccupancy(left, policy, g, c);
    ShowOccupancyKeepsVoice(left, policy, g, c);
    SameVoiceSameCount(left, ShowOccupancy(left, policy, g, c), g, c);
    CountAfterJoinIs(t, policy, state, g);
  }

  lemma RefreshKeepsDM(t: Tables, policy: Policy, g: GuildID, d: ChannelID, c: ChannelID)
    requires g != 0 && c in t.dms
    requires R.Lookup(t.channels, g, d).Some? ==> R.Lookup(t.channels, g, d).value.id == d
    ensures var after := ShowOccupancy(t, policy, g, d);
            && after.channels == t.channels && c in after.dms && after.dms[c].userID == t.dms[c].userID
  {
    hide CountMembersForVoiceChannel, SetGuildChannel, CachedUsers;
  }

  lemma CountAfterJoinIs(t: Tables, policy: Policy, state: VoiceState, g: GuildID)
    requires state.guildID == Some(g) && state.channelID != 0
    ensures CountMembersForVoiceChannel(UpdateVoiceState(t, policy, state).tables, g, state.channelID)
         == CountAfterJoin(t, state, g)
  {
    hide UpdateVoiceState, CountMembersForVoiceChannel;
    UpdateMovesOneUser(t, policy, state, g, state.channelID);
  }

  /** In guild 0 the channel that is left shows its new head count as well, and that count is one lower. */
  lemma LeftChannelShowsCount(t: Tables, policy: Policy, state: VoiceState, d: ChannelID)
    requires ChannelsOk(t.channels) && state.guildID == Some(0) && d != 0 && d != state.channelID
    requires R.Lookup(t.channels, 0, d).Some? && !Panics(t, state, 0)
    requires R.Lookup(t.voice, 0, state.userID).Some?
    requires R.Lookup(t.voice, 0, state.userID).value.channelID == d
    requires R.Lookup(t.voice, 0, state.userID).value.guildID == Some(0)
    ensures var after := UpdateVoiceState(t, policy, state).tables;
            && R.Lookup(after.channels, 0, d).Some?
            && R.Lookup(after.channels, 0, d).value.memberCount == CountMembersForVoiceChannel(after, 0, d)
            && CountMembersForVoiceChannel(after, 0, d) == CountMembersForVoiceChannel(t, 0, d) - 1
  {
    assert ChannelRowOk(0, t.channels[0].Entries());
    hide ShowOccupancy, SetGuildMember, WriteVoiceState, CountMembersForVoiceChannel, ChannelsOk;
    var written, c := WriteVoiceState(t, 0, state), state.channelID;
    WriteChangesVoice(t, 0, state);
    if state.member.Some? { MemberIsAllThatChanges(written, policy, 0, state.member.value); }
    var joined := if state.member.None? then written else SetGuildMember(written, policy, 0, state.member.value);
    RefreshIsRight(joined, policy, d);
    var left := ShowOccupancy(joined, policy, 0, d);
    if c != 0 {
      RefreshKeepsOthers(joined, policy, d, c);
      RefreshKeepsOthers(left, policy, c, d);
    }
    var after := UpdateVoiceState(t, policy, state).tables;
    assert after == if c != 0 then ShowOccupancy(left, policy, 0, c) else left;
    ShowOccupancyKeepsVoice(left, policy, 0, c);
    SameVoiceSameCount(left, after, 0, d);
    hide UpdateVoiceState;
    UpdateMovesOneUser(t, policy, state, 0, d);
  }

  lemma RefreshKeepsOthers(t: Tables, policy: Policy, c: ChannelID, d: ChannelID)
    requires c != d
    requires R.Lookup(t.channels, 0, c).Some? ==> R.Lookup(t.channels, 0, c).value.id == c
    ensures R.Lookup(ShowOccupancy(t, policy, 0, c).channels, 0, d) == R.Lookup(t.channels, 0, d)
  {
    if R.Lookup(t.channels, 0, c).Some? {
      hide ShowOccupancy;
      var _ := RefreshStores(t, policy, c);
    }
  }

  /** Removing a voice state refreshes its channel: it shows the count that is left, and no other channel changes. */
  lemma RemovalShowsCount(t: Tables, policy: Policy, g: GuildID, u: UserID, k: ChannelID)
    requires ChannelsOk(t.channels) && R.Lookup(t.voice, g, u).Some?
    ensures var after, c := RemoveVoiceState(t, policy, g, u), R.Lookup(t.voice, g, u).value.channelID;
            && R.Lookup(after.voice, g, u) == None
            && (R.Lookup(t.channels, g, k).Some? <==> R.Lookup(after.channels, g, k).Some?)
            && (R.Lookup(t.channels, g, k).Some? ==>
                  R.Lookup(after.channels, g, k).value.memberCount
                  == if k == c then CountMembersForVoiceChannel(after, g, c)
                     else R.Lookup(t.channels, g, k).value.memberCount)
  {
    var c := R.Lookup(t.voice, g, u).value.channelID;
    var gone := t.(voice := R.Delete(t.voice, g, u));
    R.DeleteAt(t.voice, g, u);
    var found := GetGuildChannel(gone, g, c);
    if found.Some? {
      assert ChannelRowOk(g, t.channels[g].Entries());
      hide SetGuildChannel, R.Lookup, CountMembersForVoiceChannel, CachedUsers, ChannelsOk;
      var channel := found.value.(memberCount := CountMembersForVoiceChannel(gone, g, c));
      OneChannelIsStored(gone, policy, g, channel);
      assert RemoveVoiceState(t, policy, g, u) == SetGuildChannel(gone, policy, g, channel);
      SameVoiceSameCount(gone, RemoveVoiceState(t, policy, g, u), g, c);
    }
  }

  lemma SameVoiceSameCount(t: Tables, s: Tables, g: GuildID, c: ChannelID)
    requires t.voice == s.voice
    ensures CountMembersForVoiceChannel(t, g, c) == CountMembersForVoiceChannel(s, g, c)
  {
  }
}
