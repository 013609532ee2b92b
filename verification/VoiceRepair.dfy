/**
 Voice states with LoadOrNew repaired: the row it makes gets a table. Everything else is the source's. Then head counts
 are conserved over every run.
 */
module VoiceRepair {
  import opened Wrappers
  import opened Discord
  import opened Tables
  import opened VoiceLaws
  import R = Rows

  /** The voice write with a LoadOrNew that hands out a live table. */
  function WriteLive(t: Tables, g: GuildID, state: VoiceState): Tables {
    WriteVoiceState(t.(voice := R.LiveLoadOrNew(t.voice, g)), g, state)
  }

  /** UpdateVoiceState with that write. */
  function UpdateLive(t: Tables, policy: Policy, state: VoiceState): Outcome {
    if state.guildID.None? then Outcome(t, false)
    else AfterVoiceWrite(t, WriteLive(t, state.guildID.value, state), policy, state.guildID.value, state)
  }

  /** The repair changes nothing where the row already has its table. */
  lemma SameOnLiveRows(t: Tables, policy: Policy, state: VoiceState)
    requires state.guildID.Some? ==> state.guildID.value in t.voice
    ensures UpdateLive(t, policy, state) == UpdateVoiceState(t, policy, state)
  {
    hide AfterVoiceWrite, WriteVoiceState;
    if state.guildID.Some? {
      assert t.(voice := R.LiveLoadOrNew(t.voice, state.guildID.value)) == t;
    }
  }

  lemma LiveWriteIs(t: Tables, g: GuildID, state: VoiceState)
    requires R.AllLive(t.voice)
    ensures R.AllLive(WriteLive(t, g, state).voice)
    ensures forall h :: h != g ==> Find(WriteLive(t, g, state).voice, h) == Find(t.voice, h)
    ensures R.EntriesAt(WriteLive(t, g, state).voice, g)
         == Put(R.EntriesAt(t.voice, g), state.userID,
                Written(t.(voice := R.LiveLoadOrNew(t.voice, g)), state, g))
  {
    hide ParseVoiceState, WriteVoiceState, Put;
    var live := t.(voice := R.LiveLoadOrNew(t.voice, g));
    WriteIsPut(live, state, g);
    if state.channelID == 0 {
      LeavingDeletes(live, state, g);
    } else {
      JoiningStores(live, state, g);
    }
  }

  lemma UpdateLiveIs(t: Tables, policy: Policy, state: VoiceState, g: GuildID)
    requires state.guildID == Some(g)
    ensures UpdateLive(t, policy, state).tables.voice == WriteLive(t, g, state).voice
  {
    hide AfterVoiceWrite, WriteLive;
    NothingWritesVoiceAfter(t, WriteLive(t, g, state), policy, g, state);
  }

  /**
   An update, the first of its guild included, takes its user out of the channel they were in and into the new one. No
   other count of that guild or of any other changes.
   */
  lemma LiveUpdateMovesOneUser(t: Tables, policy: Policy, state: VoiceState, g: GuildID, h: GuildID, c: ChannelID)
    requires R.AllLive(t.voice) && state.guildID == Some(g)
    ensures var before, after := R.Lookup(t.voice, g, state.userID), UpdateLive(t, policy, state).tables;
            && R.AllLive(after.voice)
            && CountMembersForVoiceChannel(after, h, c)
               == CountMembersForVoiceChannel(t, h, c)
                  - (if h == g && before.Some? && before.value.channelID == c then 1 else 0)
                  + (if h == g && state.channelID == c && c != 0 then 1 else 0)
  {
    hide UpdateLive, WriteLive, Written, Put, Occupants;
    UpdateLiveIs(t, policy, state, g);
    LiveWriteIs(t, g, state);
    var live := t.(voice := R.LiveLoadOrNew(t.voice, g));
    WrittenIs(live, state, g);
    PutMovesOneUser(R.EntriesAt(t.voice, g), state.userID, Written(live, state, g), c);
    if h != g {
      assert Find(WriteLive(t, g, state).voice, h) == Find(t.voice, h);
      assert R.EntriesAt(UpdateLive(t, policy, state).tables.voice, h) == R.EntriesAt(t.voice, h);
    }
  }

  lemma WrittenIs(t: Tables, state: VoiceState, g: GuildID)
    ensures Written(t, state, g).Some? <==> state.channelID != 0
    ensures Written(t, state, g).Some? ==> Written(t, state, g).value.channelID == state.channelID
  {
    ParsingKeepsChannel(t, state, g);
  }

  // ---------------------------------------------------------------------------------------------------------
  // Runs of updates and removals

  /**
   What happens to voice states; a guild payload's are updates one after the other. Elsewhere, anything may happen to
   the other tables.
   */
  datatype VoiceOp =
    | Update(policy: Policy, state: VoiceState)
    | Remove(policy: Policy, g: GuildID, u: UserID)
    | Elsewhere

  ghost predicate Follows(t: Tables, op: VoiceOp, t': Tables) {
    match op
    case Update(policy, state) => t' == UpdateLive(t, policy, state).tables
    case Remove(policy, g, u) => t' == RemoveVoiceState(t, policy, g, u)
    case Elsewhere => t'.voice == t.voice
  }

  ghost predicate IsVoiceRun(ts: seq<Tables>, ops: seq<VoiceOp>) {
    && |ts| == |ops| + 1 && ts[0].voice == map[]
    && forall i :: 0 <= i < |ops| ==> Follows(ts[i], ops[i], ts[i + 1])
  }

  /** The channel the user's last voice event in the guild names; 0 for none. */
  function LastChannel(ops: seq<VoiceOp>, g: GuildID, u: UserID): ChannelID {
    if ops == [] then 0
    else
      match ops[|ops| - 1]
      case Update(_, state) =>
        if state.guildID == Some(g) && state.userID == u then state.channelID
        else LastChannel(ops[..|ops| - 1], g, u)
      case Remove(_, h, v) => if h == g && v == u then 0 else LastChannel(ops[..|ops| - 1], g, u)
      case Elsewhere => LastChannel(ops[..|ops| - 1], g, u)
  }

  /** The users some voice event is about. */
  function Users(ops: seq<VoiceOp>): set<UserID> {
    if ops == [] then {}
    else
      Users(ops[..|ops| - 1])
        + (match ops[|ops| - 1]
           case Update(_, state) => {state.userID}
           case Remove(_, _, u) => {u}
           case Elsewhere => {})
  }

  /** The users whose last voice event in the guild names channel `c`. */
  function LastIn(ops: seq<VoiceOp>, g: GuildID, c: ChannelID): set<UserID> {
    set u | u in Users(ops) && LastChannel(ops, g, u) == c
  }

  /** The users whose last voice event in the guild names some channel. */
  function LastInSome(ops: seq<VoiceOp>, g: GuildID): set<UserID> {
    set u | u in Users(ops) && LastChannel(ops, g, u) != 0
  }

  lemma {:induction false} NamedIsUser(ops: seq<VoiceOp>, g: GuildID, u: UserID)
    requires LastChannel(ops, g, u) != 0
    ensures u in Users(ops)
  {
    if u !in Users(ops[..|ops| - 1]) && LastChannel(ops[..|ops| - 1], g, u) != 0 {
      NamedIsUser(ops[..|ops| - 1], g, u);
    }
  }

  /** The user's cached voice state, if any, names the channel of their last voice event. */
  ghost predicate Tracks(t: Tables, ops: seq<VoiceOp>, g: GuildID, u: UserID) {
    var cached := R.Lookup(t.voice, g, u);
    && (cached.Some? <==> LastChannel(ops, g, u) != 0)
    && (cached.Some? ==> cached.value.channelID == LastChannel(ops, g, u))
  }

  lemma LiveUpdateAt(t: Tables, policy: Policy, state: VoiceState, g: GuildID, u: UserID)
    requires R.AllLive(t.voice)
    ensures var now := R.Lookup(UpdateLive(t, policy, state).tables.voice, g, u);
            && R.AllLive(UpdateLive(t, policy, state).tables.voice)
            && if state.guildID == Some(g) && state.userID == u
               then (now.Some? <==> state.channelID != 0) && (now.Some? ==> now.value.channelID == state.channelID)
               else now == R.Lookup(t.voice, g, u)
  {
    hide WriteLive, AfterVoiceWrite, Written;
    if state.guildID.Some? {
      var h := state.guildID.value;
      UpdateLiveIs(t, policy, state, h);
      LiveWriteIs(t, h, state);
      WrittenIs(t.(voice := R.LiveLoadOrNew(t.voice, h)), state, h);
      if g != h {
        assert Find(WriteLive(t, h, state).voice, g) == Find(t.voice, g);
      }
    }
  }

  lemma RemoveAt(t: Tables, policy: Policy, h: GuildID, v: UserID, g: GuildID, u: UserID)
    requires R.AllLive(t.voice)
    ensures var after := RemoveVoiceState(t, policy, h, v);
            && R.AllLive(after.voice)
            && R.Lookup(after.voice, g, u) == (if g == h && u == v then None else R.Lookup(t.voice, g, u))
  {
    var before := R.Lookup(t.voice, h, v);
    if before.Some? {
      hide GetGuildChannel, SetUsers, CountMembersForVoiceChannel;
      var gone := t.(voice := R.Delete(t.voice, h, v));
      var found := GetGuildChannel(gone, h, before.value.channelID);
      if found.Some? {
        var channel := found.value.(memberCount := CountMembersForVoiceChannel(gone, h, found.value.id));
        var stamped := channel.(guildID := Some(h));
        SetUsersKeepsVoice(gone.(channels := R.Store(gone.channels, h, channel.id, stamped)), policy,
                           channel.recipients);
      }
    }
  }

  /** In every run, whatever else happens to the other tables, each cached voice state is the last one received. */
  lemma {:induction false} RunTracks(ts: seq<Tables>, ops: seq<VoiceOp>, g: GuildID, u: UserID)
    requires IsVoiceRun(ts, ops)
    ensures R.AllLive(ts[|ts| - 1].voice) && Tracks(ts[|ts| - 1], ops, g, u)
  {
    if ops != [] {
      hide Follows, R.AllLive, Tracks;
      RunTracks(ts[..|ts| - 1], ops[..|ops| - 1], g, u);
      assert Follows(ts[|ts| - 2], ops[|ops| - 1], ts[|ts| - 1]);
      StepTracks(ts[|ts| - 2], ts[|ts| - 1], ops, g, u);
    }
  }

  lemma StepTracks(t: Tables, t': Tables, ops: seq<VoiceOp>, g: GuildID, u: UserID)
    requires ops != [] && R.AllLive(t.voice) && Tracks(t, ops[..|ops| - 1], g, u)
    requires Follows(t, ops[|ops| - 1], t')
    ensures R.AllLive(t'.voice) && Tracks(t', ops, g, u)
  {
    hide UpdateLive, RemoveVoiceState, R.AllLive, R.Lookup;
    match ops[|ops| - 1]
    case Update(policy, state) => LiveUpdateAt(t, policy, state, g, u);
    case Remove(policy, h, v) => RemoveAt(t, policy, h, v, g, u);
    case Elsewhere => assert R.Lookup(t'.voice, g, u) == R.Lookup(t.voice, g, u);
  }

  /** In every run the head count of a channel is the number of users whose last voice event names it. */
  lemma CountIsLastIn(ts: seq<Tables>, ops: seq<VoiceOp>, g: GuildID, c: ChannelID)
    requires IsVoiceRun(ts, ops) && c != 0
    ensures CountMembersForVoiceChannel(ts[|ts| - 1], g, c) == |LastIn(ops, g, c)|
  {
    var t := ts[|ts| - 1];
    hide IsVoiceRun;
    var entries := R.EntriesAt(t.voice, g);
    forall u
      ensures u in Occupants(entries, entries.Keys, c) <==> u in LastIn(ops, g, c)
    {
      RunTracks(ts, ops, g, u);
      assert R.Lookup(t.voice, g, u) == Find(entries, u);
      if LastChannel(ops, g, u) == c {
        NamedIsUser(ops, g, u);
      }
    }
    assert Occupants(entries, entries.Keys, c) == LastIn(ops, g, c);
  }

  /**
   And the head counts of any channels that cover everybody's last one sum to the number of users who are in some
   channel: nobody is lost or counted twice.
   */
  lemma CountsAreConserved(ts: seq<Tables>, ops: seq<VoiceOp>, g: GuildID, cs: seq<ChannelID>)
    requires IsVoiceRun(ts, ops)
    requires forall i, j :: 0 <= i < j < |cs| ==> cs[i] != cs[j]
    requires forall u :: LastChannel(ops, g, u) != 0 ==> LastChannel(ops, g, u) in cs
    ensures CountAlong(ts[|ts| - 1], g, cs) == |R.EntriesAt(ts[|ts| - 1].voice, g)|
    ensures R.EntriesAt(ts[|ts| - 1].voice, g).Keys == LastInSome(ops, g)
  {
    var t := ts[|ts| - 1];
    hide IsVoiceRun, CountAlong;
    var entries := R.EntriesAt(t.voice, g);
    forall u
      ensures u in entries.Keys <==> u in LastInSome(ops, g)
      ensures u in entries ==> entries[u].channelID in cs
    {
      RunTracks(ts, ops, g, u);
      assert R.Lookup(t.voice, g, u) == Find(entries, u);
      if LastChannel(ops, g, u) != 0 {
        NamedIsUser(ops, g, u);
      }
    }
    CountsSumToVoiceStates(t, g, cs);
    assert entries.Keys == LastInSome(ops, g);
  }
}
