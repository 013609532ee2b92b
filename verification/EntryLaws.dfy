/** What the state operations leave under each key: which entry of a payload is the cached one afterwards. */
module EntryLaws {
  import opened Wrappers
  import opened Discord
  import opened Tables
  import opened GuildLaws
  import R = Rows

  /** The caching rule for users, by id. */
  predicate KeepsUser(policy: Policy, u: UserID) {
    policy.cacheUsers || u == policy.botID
  }

  predicate KeepsMember(policy: Policy, u: UserID) {
    policy.cacheMembers || u == policy.botID
  }

  /** `i` is the last place of the list that holds the user. */
  ghost predicate LastUserAt(users: seq<User>, i: nat, u: UserID) {
    i < |users| && users[i].id == u && forall j :: i < j < |users| ==> users[j].id != u
  }

  ghost predicate LastMemberAt(members: seq<GuildMember>, i: nat, u: UserID) {
    && i < |members| && HasUser(members[i]) && members[i].user.value.id == u
    && forall j :: i < j < |members| && HasUser(members[j]) ==> members[j].user.value.id != u
  }

  ghost predicate NamesMember(members: seq<GuildMember>, u: UserID) {
    exists j :: 0 <= j < |members| && HasUser(members[j]) && members[j].user.value.id == u
  }

  /** The last of the users with an id is the cached one if the rule admits it; nobody else's entry changes. */
  lemma {:induction false} UsersAreStored(t: Tables, policy: Policy, users: seq<User>, u: UserID, i: nat)
    ensures var after := SetUsers(t, policy, users);
            && after == t.(users := after.users)
            && (LastUserAt(users, i, u) && KeepsUser(policy, u) ==> Find(after.users, u) == Some(users[i]))
            && (!KeepsUser(policy, u) || (forall j :: 0 <= j < |users| ==> users[j].id != u) ==>
                  Find(after.users, u) == Find(t.users, u))
  {
    if users != [] {
      var last := |users| - 1;
      UsersAreStored(t, policy, users[..last], u, i);
      assert forall j :: 0 <= j < last ==> users[..last][j] == users[j];
    }
  }

  lemma {:induction false} UsersConcat(t: Tables, policy: Policy, xs: seq<User>, ys: seq<User>)
    ensures SetUsers(SetUsers(t, policy, xs), policy, ys) == SetUsers(t, policy, xs + ys)
  {
    hide SetUser;
    if ys == [] {
      assert xs + ys == xs;
    } else {
      UsersConcat(t, policy, xs, ys[..|ys| - 1]);
      assert (xs + ys)[..|xs + ys| - 1] == xs + ys[..|ys| - 1];
    }
  }

  // ---------------------------------------------------------------------------------------------------------
  // Members

  lemma OneUserIsStored(t: Tables, policy: Policy, user: User, u: UserID)
    ensures SetUser(t, policy, user) == t.(users := SetUser(t, policy, user).users)
    ensures Find(SetUser(t, policy, user).users, u)
         == if u == user.id && KeepsUser(policy, u) then Some(user) else Find(t.users, u)
  {
  }

  lemma AdmittedIsWritten(t: Tables, policy: Policy, g: GuildID, member: GuildMember)
    requires HasUser(member)
    ensures var u, user := member.user.value.id, member.user.value;
            SetGuildMember(t, policy, g, member)
            == if KeepsMember(policy, u) then SetUser(t.(members := R.Store(t.members, g, u, member)), policy, user)
               else t
  {
    hide R.Store, SetUser;
  }

  lemma OneMemberIsStored(t: Tables, policy: Policy, g: GuildID, member: GuildMember)
    requires HasUser(member) && R.Reachable(t.members, g)
    ensures var after, u := SetGuildMember(t, policy, g, member), member.user.value.id;
            && after == t.(members := after.members, users := after.users)
            && (forall o, v :: R.Lookup(after.members, o, v)
                               == if o == g && v == u && KeepsMember(policy, u) then Some(member)
                                  else R.Lookup(t.members, o, v))
            && (forall v :: Find(after.users, v)
                            == if v == u && KeepsMember(policy, u) && KeepsUser(policy, u) then member.user
                               else Find(t.users, v))
            && R.Reachable(after.members, g)
  {
    hide R.Store, R.Lookup, R.Reachable, SetUser, SetGuildMember, KeepsUser, KeepsMember;
    var u, user := member.user.value.id, member.user.value;
    var stored := t.(members := R.Store(t.members, g, u, member));
    R.StoreAt(t.members, g, u, member);
    AdmittedIsWritten(t, policy, g, member);
    OneUserIsStored(stored, policy, user, u);
    forall v
      ensures Find(SetUser(stored, policy, user).users, v)
           == if v == u && KeepsUser(policy, v) then Some(user) else Find(stored.users, v)
    {
      OneUserIsStored(stored, policy, user, v);
    }
  }

  /** The last admitted member of a user is the cached one, with its user; other members and users stay. */
  lemma {:induction false} MembersAreStored(
    t: Tables, policy: Policy, g: GuildID, members: seq<GuildMember>, u: UserID, i: nat)
    requires R.Reachable(t.members, g) && forall j :: 0 <= j < |members| ==> HasUser(members[j])
    ensures var after := SetGuildMembers(t, policy, g, members);
            && after == t.(members := after.members, users := after.users)
            && (LastMemberAt(members, i, u) && KeepsMember(policy, u) ==>
                  && R.Lookup(after.members, g, u) == Some(members[i])
                  && (KeepsUser(policy, u) ==> Find(after.users, u) == members[i].user))
            && (!KeepsMember(policy, u) || !NamesMember(members, u) ==>
                  && R.Lookup(after.members, g, u) == R.Lookup(t.members, g, u)
                  && Find(after.users, u) == Find(t.users, u))
            && (!KeepsUser(policy, u) ==> Find(after.users, u) == Find(t.users, u))
            && (forall o :: o != g ==> R.Lookup(after.members, o, u) == R.Lookup(t.members, o, u))
            && R.Reachable(after.members, g)
  {
    if members != [] {
      hide SetGuildMember, R.Lookup, R.Reachable, KeepsMember, KeepsUser, LastMemberAt, NamesMember;
      var last := |members| - 1;
      MembersAreStored(t, policy, g, members[..last], u, i);
      OneMemberIsStored(SetGuildMembers(t, policy, g, members[..last]), policy, g, members[last]);
      OneMoreNamed(members, u, i);
    } else {
      assert !LastMemberAt(members, i, u);
    }
  }

  lemma OneMoreNamed(members: seq<GuildMember>, u: UserID, i: nat)
    requires members != [] && HasUser(members[|members| - 1])
    ensures var init, last := members[..|members| - 1], members[|members| - 1];
            && (NamesMember(members, u) <==> NamesMember(init, u) || last.user.value.id == u)
            && (LastMemberAt(members, i, u) <==>
                  if last.user.value.id == u then i == |members| - 1 else LastMemberAt(init, i, u))
            && (LastMemberAt(members, i, u) ==> NamesMember(members, u) && members[i].user.value.id == u)
            && (LastMemberAt(init, i, u) ==> init[i] == members[i])
  {
    var init := members[..|members| - 1];
    assert forall j :: 0 <= j < |init| ==> init[j] == members[j];
    if NamesMember(init, u) {
      var j :| 0 <= j < |init| && HasUser(init[j]) && init[j].user.value.id == u;
      assert HasUser(members[j]);
    }
  }

  // ---------------------------------------------------------------------------------------------------------
  // Roles and channels

  /** The last role with an id is the cached one; roles the list does not name stay, and no other table changes. */
  lemma RolesAreStored(t: Tables, g: GuildID, roles: seq<Role>, k: RoleID, i: nat)
    requires R.Reachable(t.roles, g)
    ensures var after := SetGuildRoles(t, g, roles);
            && after == t.(roles := after.roles)
            && (i < |roles| && roles[i].id == k && (forall j :: i < j < |roles| ==> roles[j].id != k) ==>
                  R.Lookup(after.roles, g, k) == Some(roles[i]))
            && ((forall j :: 0 <= j < |roles| ==> roles[j].id != k) ==>
                  R.Lookup(after.roles, g, k) == R.Lookup(t.roles, g, k))
  {
    hide R.StoreAll, R.Reachable, R.Lookup;
    SetGuildRolesIs(t, g, roles);
    RoleEntriesAre(roles);
    R.StoreAllAt(t.roles, g, RoleEntries(roles), k, i);
  }

  lemma RoleEntriesAre(roles: seq<Role>)
    ensures |RoleEntries(roles)| == |roles|
    ensures forall i :: 0 <= i < |roles| ==> RoleEntries(roles)[i] == (roles[i].id, roles[i])
  {
    if roles != [] { RoleEntriesAt(roles, 0); }
    forall i | 0 <= i < |roles|
      ensures RoleEntries(roles)[i] == (roles[i].id, roles[i])
    {
      RoleEntriesAt(roles, i);
    }
  }

  lemma ChannelEntriesAre(g: GuildID, channels: seq<Channel>)
    ensures |ChannelEntries(g, channels)| == |channels|
    ensures forall i :: 0 <= i < |channels| ==>
              ChannelEntries(g, channels)[i] == (channels[i].id, channels[i].(guildID := Some(g)))
  {
    if channels != [] { ChannelEntriesAt(g, channels, 0); }
    forall i | 0 <= i < |channels|
      ensures ChannelEntries(g, channels)[i] == (channels[i].id, channels[i].(guildID := Some(g)))
    {
      ChannelEntriesAt(g, channels, i);
    }
  }

  /** The recipients of some channels, in order. */
  function Recipients(channels: seq<Channel>): seq<User> {
    if channels == [] then [] else Recipients(channels[..|channels| - 1]) + channels[|channels| - 1].recipients
  }

  lemma {:induction false} RecipientsAre(channels: seq<Channel>, user: User)
    ensures user in Recipients(channels) <==> exists c :: c in channels && user in c.recipients
  {
    if channels != [] {
      var init, last := channels[..|channels| - 1], channels[|channels| - 1];
      RecipientsAre(init, user);
      assert channels == init + [last];
    }
  }

  /** The last channel with an id is the cached one, stamped with the guild; its recipients are stored as users. */
  lemma ChannelsAreStored(t: Tables, policy: Policy, g: GuildID, channels: seq<Channel>, k: ChannelID, i: nat)
    requires R.Reachable(t.channels, g)
    ensures var after := SetGuildChannels(t, policy, g, channels);
            && after == t.(channels := after.channels, users := SetUsers(t, policy, Recipients(channels)).users)
            && (i < |channels| && channels[i].id == k && (forall j :: i < j < |channels| ==> channels[j].id != k) ==>
                  R.Lookup(after.channels, g, k) == Some(channels[i].(guildID := Some(g))))
            && ((forall j :: 0 <= j < |channels| ==> channels[j].id != k) ==>
                  R.Lookup(after.channels, g, k) == R.Lookup(t.channels, g, k))
  {
    hide R.StoreAll, R.Reachable, R.Lookup, SetGuildChannels, ChannelEntries, SetUsers, Recipients;
    SetGuildChannelsIs(t, policy, g, channels);
    RecipientsAreStored(t, policy, g, channels);
    ChannelEntriesAre(g, channels);
    R.StoreAllAt(t.channels, g, ChannelEntries(g, channels), k, i);
  }

  lemma {:induction false} RecipientsAreStored(t: Tables, policy: Policy, g: GuildID, channels: seq<Channel>)
    ensures SetGuildChannels(t, policy, g, channels).users == SetUsers(t, policy, Recipients(channels)).users
  {
    if channels != [] {
      hide SetUsers;
      var init, last := channels[..|channels| - 1], channels[|channels| - 1];
      RecipientsAreStored(t, policy, g, init);
      var earlier := SetGuildChannels(t, policy, g, init);
      var stored := earlier.(channels := R.Store(earlier.channels, g, last.id, last.(guildID := Some(g))));
      UsersAlike(stored, SetUsers(t, policy, Recipients(init)), policy, last.recipients);
      UsersConcat(t, policy, Recipients(init), last.recipients);
    } else {
      assert SetGuildChannels(t, policy, g, []) == t && SetUsers(t, policy, []) == t;
    }
  }

  /** What users are stored depends on the users alone. */
  lemma {:induction false} UsersAlike(t: Tables, s: Tables, policy: Policy, users: seq<User>)
    requires t.users == s.users
    ensures SetUsers(t, policy, users).users == SetUsers(s, policy, users).users
  {
    if users != [] {
      UsersAlike(t, s, policy, users[..|users| - 1]);
    }
  }

  /** One guild channel: stored with every field of the payload, and the guild id stamped on it. */
  lemma OneChannelIsStored(t: Tables, policy: Policy, g: GuildID, channel: Channel)
    requires R.Reachable(t.channels, g)
    ensures var after := SetGuildChannel(t, policy, g, channel);
            && after == t.(channels := after.channels, users := SetUsers(t, policy, channel.recipients).users)
            && forall o, k :: R.Lookup(after.channels, o, k)
                              == if o == g && k == channel.id then Some(channel.(guildID := Some(g)))
                                 else R.Lookup(t.channels, o, k)
  {
    hide R.Store, R.Lookup, R.Reachable, SetUsers;
    var stamped := channel.(guildID := Some(g));
    R.StoreAt(t.channels, g, channel.id, stamped);
    SetUsersOnlyUsers(t.(channels := R.Store(t.channels, g, channel.id, stamped)), policy, channel.recipients);
    UsersAlike(t.(channels := R.Store(t.channels, g, channel.id, stamped)), t, policy, channel.recipients);
  }

  /** The users of an emoji list are those its emojis carry, in order. */
  lemma {:induction false} EmojiUsersAre(emojis: seq<Emoji>, user: User)
    ensures user in EmojiUsers(emojis) <==> exists e :: e in emojis && e.user == Some(user)
  {
    if emojis != [] {
      var init, last := emojis[..|emojis| - 1], emojis[|emojis| - 1];
      EmojiUsersAre(init, user);
      assert emojis == init + [last];
    }
  }

  /** `i` is the last emoji that carries a user of the id. */
  ghost predicate LastCarrierAt(emojis: seq<Emoji>, i: nat, u: UserID) {
    && i < |emojis| && emojis[i].user.Some? && emojis[i].user.value.id == u
    && forall j :: i < j < |emojis| && emojis[j].user.Some? ==> emojis[j].user.value.id != u
  }

  ghost predicate Carries(emojis: seq<Emoji>, u: UserID) {
    exists j :: 0 <= j < |emojis| && emojis[j].user.Some? && emojis[j].user.value.id == u
  }

  lemma {:induction false} CarriersAreStored(t: Tables, policy: Policy, emojis: seq<Emoji>, u: UserID, i: nat)
    ensures var after := SetUsers(t, policy, EmojiUsers(emojis));
            && (LastCarrierAt(emojis, i, u) && KeepsUser(policy, u) ==> Find(after.users, u) == emojis[i].user)
            && (!KeepsUser(policy, u) || !Carries(emojis, u) ==> Find(after.users, u) == Find(t.users, u))
  {
    if emojis == [] {
      assert SetUsers(t, policy, []) == t;
    } else {
      hide LastCarrierAt, Carries, KeepsUser;
      var init, last := emojis[..|emojis| - 1], emojis[|emojis| - 1];
      CarriersAreStored(t, policy, init, u, i);
      OneMoreCarrier(emojis, u, i);
      OneMoreEmojiUser(t, policy, init, last);
      assert init + [last] == emojis;
      if last.user.Some? { OneUserIsStored(SetUsers(t, policy, EmojiUsers(init)), policy, last.user.value, u); }
      hide SetUsers, SetUser, EmojiUsers;
    }
  }

  lemma OneMoreEmojiUser(t: Tables, policy: Policy, init: seq<Emoji>, last: Emoji)
    ensures var before := SetUsers(t, policy, EmojiUsers(init));
            SetUsers(t, policy, EmojiUsers(init + [last]))
            == if last.user.None? then before else SetUser(before, policy, last.user.value)
  {
    assert (init + [last])[..|init|] == init;
    if last.user.None? {
      assert EmojiUsers(init + [last]) == EmojiUsers(init);
    } else {
      var users := EmojiUsers(init + [last]);
      assert users == EmojiUsers(init) + [last.user.value] && users[..|users| - 1] == EmojiUsers(init);
    }
  }

  lemma OneMoreCarrier(emojis: seq<Emoji>, u: UserID, i: nat)
    requires emojis != []
    ensures var init, last := emojis[..|emojis| - 1], emojis[|emojis| - 1];
            && (Carries(emojis, u) <==> Carries(init, u) || (last.user.Some? && last.user.value.id == u))
            && (LastCarrierAt(emojis, i, u) <==>
                  if last.user.Some? && last.user.value.id == u then i == |emojis| - 1 else LastCarrierAt(init, i, u))
            && (LastCarrierAt(init, i, u) ==> init[i] == emojis[i])
            && (LastCarrierAt(emojis, i, u) ==> Carries(emojis, u) && i < |emojis|)
  {
    var init := emojis[..|emojis| - 1];
    assert forall j :: 0 <= j < |init| ==> init[j] == emojis[j];
    if Carries(init, u) {
      var j :| 0 <= j < |init| && init[j].user.Some? && init[j].user.value.id == u;
      assert emojis[j].user.Some?;
    }
  }

  /** An emoji list replaces the guild's; the last user of an id it carries is the cached one if the rule admits it. */
  lemma EmojisAreStored(t: Tables, policy: Policy, g: GuildID, emojis: seq<Emoji>, u: UserID, i: nat)
    ensures var after := SetGuildEmojis(t, policy, g, emojis);
            && after == t.(emojis := t.emojis[g := emojis], users := after.users)
            && (LastCarrierAt(emojis, i, u) && KeepsUser(policy, u) ==> Find(after.users, u) == emojis[i].user)
            && (!KeepsUser(policy, u) || !Carries(emojis, u) ==> Find(after.users, u) == Find(t.users, u))
  {
    hide SetUsers, LastCarrierAt, Carries;
    var stored := t.(emojis := t.emojis[g := emojis]);
    CarriersAreStored(stored, policy, emojis, u, i);
    SetUsersOnlyUsers(stored, policy, EmojiUsers(emojis));
  }

  /** A list that names a user has a last place for it. */
  lemma {:induction false} LastPlace(users: seq<User>, u: UserID, j: nat) returns (i: nat)
    requires j < |users| && users[j].id == u
    ensures LastUserAt(users, i, u)
    decreases |users| - j
  {
    i := j;
    if k :| j < k < |users| && users[k].id == u {
      i := LastPlace(users, u, k);
    }
  }

  // ---------------------------------------------------------------------------------------------------------
  // Reading members, channels and voice states

  /** A member that is read has the cached user and is otherwise as stored; `ok` says whether a user was cached. */
  lemma MemberIsReadWithUser(t: Tables, g: GuildID, u: UserID)
    ensures var (member, ok) := GetGuildMember(t, g, u);
            match R.Lookup(t.members, g, u)
            case None => !ok && member.user.None? && member.guildID.None? && member.nick == ""
            case Some(stored) =>
              && member.guildID == stored.guildID && member.nick == stored.nick
              && (ok <==> stored.user.Some? && stored.user.value.id in t.users)
              && member.user == (if ok then Some(t.users[stored.user.value.id]) else stored.user)
  {
  }

  /** A channel is read as stored, except that every recipient with a cached user is that user. */
  lemma ChannelIsReadWithUsers(t: Tables, g: GuildID, c: ChannelID, i: nat)
    ensures GetGuildChannel(t, g, c).Some? <==> R.Lookup(t.channels, g, c).Some?
    ensures R.Lookup(t.channels, g, c).Some? ==>
              var read, stored := GetGuildChannel(t, g, c).value, R.Lookup(t.channels, g, c).value;
              && read.id == stored.id && read.guildID == stored.guildID && read.kind == stored.kind
              && read.memberCount == stored.memberCount && read.lastPinTimestamp == stored.lastPinTimestamp
              && |read.recipients| == |stored.recipients|
              && (i < |read.recipients| ==>
                    Some(read.recipients[i])
                    == var cached := Find(t.users, stored.recipients[i].id);
                       if cached.Some? then cached else Some(stored.recipients[i]))
  {
  }
}
