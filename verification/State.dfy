/** The collective state: caches updated in place, standing for the value `view`. */
module State {
  import opened Wrappers
  import opened Discord
  import opened Caches
  import opened CacheVars
  import opened DoubleCaches
  import R = Rows
  import T = Tables

  class SandwichState {
    const guilds: CacheVar<GuildID, Guild>
    const guildMembers: DoubleCache<GuildID, UserID, GuildMember>
    const guildChannels: DoubleCache<GuildID, ChannelID, Channel>
    const guildRoles: DoubleCache<GuildID, RoleID, Role>
    const guildEmojis: CacheVar<GuildID, seq<Emoji>>
    const users: CacheVar<UserID, User>
    const dmChannels: CacheVar<ChannelID, DMChannel>
    const guildVoiceStates: DoubleCache<GuildID, UserID, VoiceState>

    ghost var view: T.Tables
    ghost var Repr: set<object>

    /** No cache shares an object with another one. */
    ghost predicate Disjoint()
      reads this, guilds, guildMembers, guildChannels, guildRoles, guildEmojis, users, dmChannels, guildVoiceStates
    {
      && this !in guilds.Repr && guilds.Repr !! guildMembers.Repr && guilds.Repr !! guildChannels.Repr
      && guilds.Repr !! guildRoles.Repr && guilds.Repr !! guildEmojis.Repr && guilds.Repr !! users.Repr
      && guilds.Repr !! dmChannels.Repr && guilds.Repr !! guildVoiceStates.Repr
      && this !in guildMembers.Repr && guildMembers.Repr !! guildChannels.Repr
      && guildMembers.Repr !! guildRoles.Repr && guildMembers.Repr !! guildEmojis.Repr
      && guildMembers.Repr !! users.Repr && guildMembers.Repr !! dmChannels.Repr
      && guildMembers.Repr !! guildVoiceStates.Repr
      && this !in guildChannels.Repr && guildChannels.Repr !! guildRoles.Repr
      && guildChannels.Repr !! guildEmojis.Repr && guildChannels.Repr !! users.Repr
      && guildChannels.Repr !! dmChannels.Repr && guildChannels.Repr !! guildVoiceStates.Repr
      && this !in guildRoles.Repr && guildRoles.Repr !! guildEmojis.Repr && guildRoles.Repr !! users.Repr
      && guildRoles.Repr !! dmChannels.Repr && guildRoles.Repr !! guildVoiceStates.Repr
      && this !in guildEmojis.Repr && guildEmojis.Repr !! users.Repr && guildEmojis.Repr !! dmChannels.Repr
      && guildEmojis.Repr !! guildVoiceStates.Repr
      && this !in users.Repr && users.Repr !! dmChannels.Repr && users.Repr !! guildVoiceStates.Repr
      && this !in dmChannels.Repr && dmChannels.Repr !! guildVoiceStates.Repr
      && this !in guildVoiceStates.Repr
    }

    ghost predicate Owned()
      reads this, guilds, guildMembers, guildChannels, guildRoles, guildEmojis, users, dmChannels, guildVoiceStates
    {
      && this in Repr
      && {guilds as object, guildMembers, guildChannels, guildRoles, guildEmojis, users, dmChannels, guildVoiceStates}
         <= Repr
      && guilds.Repr <= Repr
      && guildMembers.Repr <= Repr
      && guildChannels.Repr <= Repr
      && guildRoles.Repr <= Repr
      && guildEmojis.Repr <= Repr
      && users.Repr <= Repr
      && dmChannels.Repr <= Repr
      && guildVoiceStates.Repr <= Repr
    }

    ghost predicate Valid()
      reads this, Repr, guilds, guildMembers, guildChannels, guildRoles, guildEmojis, users, dmChannels
      reads guildVoiceStates
      ensures Valid() ==> this in Repr
    {
      && Owned()
      && Disjoint()
      && guilds.Valid() && guildMembers.Valid() && guildChannels.Valid() && guildRoles.Valid()
      && guildEmojis.Valid() && users.Valid() && dmChannels.Valid() && guildVoiceStates.Valid()
      && view == T.Tables(guilds.m, guildMembers.rows, guildChannels.rows, guildRoles.rows, guildEmojis.m, users.m,
                          dmChannels.m, guildVoiceStates.rows)
    }

    constructor (
      guilds: CacheVar<GuildID, Guild>,
      guildMembers: DoubleCache<GuildID, UserID, GuildMember>,
      guildChannels: DoubleCache<GuildID, ChannelID, Channel>,
      guildRoles: DoubleCache<GuildID, RoleID, Role>,
      guildEmojis: CacheVar<GuildID, seq<Emoji>>,
      users: CacheVar<UserID, User>,
      dmChannels: CacheVar<ChannelID, DMChannel>,
      guildVoiceStates: DoubleCache<GuildID, UserID, VoiceState>)
      requires guilds.Valid() && guilds.Repr == {guilds} && guilds.m == map[]
      requires guildMembers.Valid() && guildMembers.Repr == {guildMembers} && guildMembers.rows == map[]
      requires guildChannels.Valid() && guildChannels.Repr == {guildChannels} && guildChannels.rows == map[]
      requires guildRoles.Valid() && guildRoles.Repr == {guildRoles} && guildRoles.rows == map[]
      requires guildEmojis.Valid() && guildEmojis.Repr == {guildEmojis} && guildEmojis.m == map[]
      requires users.Valid() && users.Repr == {users} && users.m == map[]
      requires dmChannels.Valid() && dmChannels.Repr == {dmChannels} && dmChannels.m == map[]
      requires guildVoiceStates.Valid() && guildVoiceStates.Repr == {guildVoiceStates} && guildVoiceStates.rows == map[]
      ensures Repr
           == {this} + {guilds as object, guildMembers, guildChannels, guildRoles, guildEmojis, users, dmChannels,
                        guildVoiceStates}
      ensures Valid()
      ensures view == T.EMPTY
    {
      hide CacheVar.Valid, DoubleCache.Valid;
      this.guilds := guilds;
      this.guildMembers := guildMembers;
      this.guildChannels := guildChannels;
      this.guildRoles := guildRoles;
      this.guildEmojis := guildEmojis;
      this.users := users;
      this.dmChannels := dmChannels;
      this.guildVoiceStates := guildVoiceStates;
      view := T.EMPTY;
      Repr := {this} + {guilds as object, guildMembers, guildChannels, guildRoles, guildEmojis, users, dmChannels,
                        guildVoiceStates};
    }

    // -------------------------------------------------------------------------------------------------------
    // Guild entries

    method LoadGuild(g: GuildID) returns (r: Option<Guild>)
      requires Valid()
      ensures r == Find(view.guilds, g)
    {
      r := guilds.Load(g);
    }

    /** The cached guild ids in the order Range visits them. */
    method GuildIDs() returns (ids: seq<GuildID>)
      requires Valid()
      ensures Enumerates(ids, view.guilds.Keys)
    {
      ids := guilds.Range();
    }

    method StoreGuild(g: GuildID, guild: Guild)
      requires Valid()
      modifies Repr
      ensures fresh(Repr - old(Repr))
      ensures Valid()
      ensures view == old(view).(guilds := old(view).guilds[g := guild])
    {
      hide CacheVar.Valid, DoubleCache.Valid;
      guilds.Store(g, guild);
      Repr := Repr + guilds.Repr;
      view := view.(guilds := guilds.m);
      assert Disjoint();
    }

    method DeleteGuild(g: GuildID)
      requires Valid()
      modifies Repr
      ensures fresh(Repr - old(Repr))
      ensures Valid()
      ensures view == old(view).(guilds := old(view).guilds - {g})
    {
      hide CacheVar.Valid, DoubleCache.Valid;
      guilds.Delete(g);
      Repr := Repr + guilds.Repr;
      view := view.(guilds := guilds.m);
      assert Disjoint();
    }

    method UpdateGuild(g: GuildID, fn: Guild -> Guild)
      requires Valid()
      modifies Repr
      ensures fresh(Repr - old(Repr))
      ensures Valid()
      ensures view == old(view).(guilds := Updated(old(view).guilds, g, fn))
    {
      hide CacheVar.Valid, DoubleCache.Valid;
      var _ := guilds.Update(g, fn);
      Repr := Repr + guilds.Repr;
      view := view.(guilds := guilds.m);
      assert Disjoint();
    }

    method SetGuildIfPresent(g: GuildID, guild: Guild)
      requires Valid()
      modifies Repr
      ensures fresh(Repr - old(Repr))
      ensures Valid()
      ensures view == old(view).(guilds := Updated(old(view).guilds, g, (_: Guild) => guild))
    {
      hide CacheVar.Valid, DoubleCache.Valid;
      guilds.SetIfPresent(g, guild);
      Repr := Repr + guilds.Repr;
      view := view.(guilds := guilds.m);
      assert Disjoint();
    }

    // -------------------------------------------------------------------------------------------------------
    // Users and members

    method LoadUser(u: UserID) returns (r: Option<User>)
      requires Valid()
      ensures r == Find(view.users, u)
    {
      r := users.Load(u);
    }

    method StoreUser(user: User)
      requires Valid()
      modifies Repr
      ensures fresh(Repr - old(Repr))
      ensures Valid()
      ensures view == old(view).(users := old(view).users[user.id := user])
    {
      hide CacheVar.Valid, DoubleCache.Valid;
      users.Store(user.id, user);
      Repr := Repr + users.Repr;
      view := view.(users := users.m);
      assert Disjoint();
    }

    method SetUser(policy: T.Policy, user: User)
      requires Valid()
      modifies Repr
      ensures fresh(Repr - old(Repr))
      ensures Valid()
      ensures view == T.SetUser(old(view), policy, user)
    {
      if !policy.cacheUsers && user.id != policy.botID {
        return;
      }
      StoreUser(user);
    }

    method SetUsers(policy: T.Policy, us: seq<User>)
      requires Valid()
      modifies Repr
      ensures fresh(Repr - old(Repr))
      ensures Valid()
      ensures view == T.SetUsers(old(view), policy, us)
    {
      hide Valid;
      for i := 0 to |us|
        invariant Valid() && fresh(Repr - old(Repr))
        invariant view == T.SetUsers(old(view), policy, us[..i])
      {
        assert us[..i + 1][..i] == us[..i];
        SetUser(policy, us[i]);
      }
      assert us[..|us|] == us;
    }

    method StoreMember(g: GuildID, u: UserID, member: GuildMember)
      requires Valid()
      modifies Repr
      ensures fresh(Repr - old(Repr))
      ensures Valid()
      ensures view == old(view).(members := R.Store(old(view).members, g, u, member))
    {
      hide CacheVar.Valid, DoubleCache.Valid;
      guildMembers.Store(g, u, member);
      Repr := Repr + guildMembers.Repr;
      view := view.(members := guildMembers.rows);
      assert Disjoint();
    }

    /** A member without a user is a nil dereference: the method panics before writing anything. */
    method SetGuildMember(policy: T.Policy, g: GuildID, member: GuildMember) returns (panicked: bool)
      requires Valid()
      modifies Repr
      ensures fresh(Repr - old(Repr))
      ensures Valid()
      ensures panicked <==> !T.HasUser(member)
      ensures view == if panicked then old(view) else T.SetGuildMember(old(view), policy, g, member)
    {
      hide Valid;
      if member.user.None? {
        return true;
      }
      var user := member.user.value;
      if !policy.cacheMembers && user.id != policy.botID {
        return false;
      }
      StoreMember(g, user.id, member);
      SetUser(policy, user);
      panicked := false;
    }

    method RemoveGuildMember(g: GuildID, u: UserID)
      requires Valid()
      modifies Repr
      ensures fresh(Repr - old(Repr))
      ensures Valid()
      ensures view == old(view).(members := R.Delete(old(view).members, g, u))
    {
      hide CacheVar.Valid, DoubleCache.Valid;
      guildMembers.Delete(g, u);
      Repr := Repr + guildMembers.Repr;
      view := view.(members := guildMembers.rows);
      assert Disjoint();
    }

    method RemoveAllGuildMembers(g: GuildID)
      requires Valid()
      modifies Repr
      ensures fresh(Repr - old(Repr))
      ensures Valid()
      ensures view == old(view).(members := old(view).members - {g})
    {
      hide CacheVar.Valid, DoubleCache.Valid, DoubleCache.HandleOf;
      guildMembers.ClearKey(g);
      assert guildMembers.Repr <= old(guildMembers.Repr);
      view := view.(members := guildMembers.rows);
      assert Disjoint();
    }

    method GetGuildMember(g: GuildID, u: UserID) returns (member: GuildMember, ok: bool)
      requires Valid()
      ensures (member, ok) == T.GetGuildMember(view, g, u)
    {
      member, ok := GuildMember(None, None, ""), false;
      var row := guildMembers.Inner(g);
      if row == None {
        return;
      }
      var found := row.value.Load(u);
      if found == None {
        return;
      }
      member := found.value;
      if member.user != None {
        var user := users.Load(member.user.value.id);
        ok := user != None;
        if ok {
          member := member.(user := user);
        }
      }
    }

    // -------------------------------------------------------------------------------------------------------
    // Roles

    /** A zero role id panics before anything is written. */
    method SetGuildRole(g: GuildID, role: Role) returns (panicked: bool)
      requires Valid()
      modifies Repr
      ensures fresh(Repr - old(Repr))
      ensures Valid()
      ensures panicked <==> !T.HasId(role)
      ensures view == if panicked then old(view) else T.SetGuildRole(old(view), g, role)
    {
      if role.id == 0 {
        return true;
      }
      StoreRole(g, role);
      panicked := false;
    }

    method StoreRole(g: GuildID, role: Role)
      requires Valid()
      modifies Repr
      ensures fresh(Repr - old(Repr))
      ensures Valid()
      ensures view == old(view).(roles := R.Store(old(view).roles, g, role.id, role))
    {
      hide CacheVar.Valid, DoubleCache.Valid;
      guildRoles.Store(g, role.id, role);
      Repr := Repr + guildRoles.Repr;
      view := view.(roles := guildRoles.rows);
      assert Disjoint();
    }

    method RemoveGuildRole(g: GuildID, role: RoleID)
      requires Valid()
      modifies Repr
      ensures fresh(Repr - old(Repr))
      ensures Valid()
      ensures view == old(view).(roles := R.Delete(old(view).roles, g, role))
    {
      hide CacheVar.Valid, DoubleCache.Valid;
      guildRoles.Delete(g, role);
      Repr := Repr + guildRoles.Repr;
      view := view.(roles := guildRoles.rows);
      assert Disjoint();
    }

    method RemoveAllGuildRoles(g: GuildID)
      requires Valid()
      modifies Repr
      ensures fresh(Repr - old(Repr))
      ensures Valid()
      ensures view == old(view).(roles := old(view).roles - {g})
    {
      hide CacheVar.Valid, DoubleCache.Valid, DoubleCache.HandleOf;
      guildRoles.ClearKey(g);
      assert guildRoles.Repr <= old(guildRoles.Repr);
      view := view.(roles := guildRoles.rows);
      assert Disjoint();
    }

    // -------------------------------------------------------------------------------------------------------
    // Emojis

    method GetAllGuildEmojis(g: GuildID) returns (r: Option<seq<Emoji>>)
      requires Valid()
      ensures r == Find(view.emojis, g)
    {
      r := guildEmojis.Load(g);
    }

    method StoreEmojis(g: GuildID, emojis: seq<Emoji>)
      requires Valid()
      modifies Repr
      ensures fresh(Repr - old(Repr))
      ensures Valid()
      ensures view == old(view).(emojis := old(view).emojis[g := emojis])
    {
      hide CacheVar.Valid, DoubleCache.Valid;
      guildEmojis.Store(g, emojis);
      Repr := Repr + guildEmojis.Repr;
      view := view.(emojis := guildEmojis.m);
      assert Disjoint();
    }

    method SetGuildEmojis(policy: T.Policy, g: GuildID, emojis: seq<Emoji>)
      requires Valid()
      modifies Repr
      ensures fresh(Repr - old(Repr))
      ensures Valid()
      ensures view == T.SetGuildEmojis(old(view), policy, g, emojis)
    {
      hide Valid;
      StoreEmojis(g, emojis);
      ghost var stored := view;
      for i := 0 to |emojis|
        invariant Valid() && fresh(Repr - old(Repr))
        invariant view == T.SetUsers(stored, policy, T.EmojiUsers(emojis[..i]))
      {
        var emoji := emojis[i];
        assert emojis[..i + 1][..i] == emojis[..i];
        ghost var earlier := T.EmojiUsers(emojis[..i]);
        assert T.EmojiUsers(emojis[..i + 1]) == earlier + (if emoji.user.None? then [] else [emoji.user.value]);
        if emoji.user != None {
          assert (earlier + [emoji.user.value])[..|earlier|] == earlier;
          SetUser(policy, emoji.user.value);
        } else {
          assert earlier + [] == earlier;
        }
      }
      assert emojis[..|emojis|] == emojis;
    }

    method RemoveAllGuildEmojis(g: GuildID)
      requires Valid()
      modifies Repr
      ensures fresh(Repr - old(Repr))
      ensures Valid()
      ensures view == old(view).(emojis := old(view).emojis - {g})
    {
      hide CacheVar.Valid, DoubleCache.Valid;
      guildEmojis.Delete(g);
      Repr := Repr + guildEmojis.Repr;
      view := view.(emojis := guildEmojis.m);
      assert Disjoint();
    }

    // -------------------------------------------------------------------------------------------------------
    // Channels

    method LoadGuildChannel(g: GuildID, c: ChannelID) returns (r: Option<Channel>)
      requires Valid()
      ensures r == R.Lookup(view.channels, g, c)
    {
      r := guildChannels.Load(g, c);
    }

    method StoreChannel(g: GuildID, channel: Channel)
      requires Valid()
      modifies Repr
      ensures fresh(Repr - old(Repr))
      ensures Valid()
      ensures view == old(view).(channels := R.Store(old(view).channels, g, channel.id, channel))
    {
      hide CacheVar.Valid, DoubleCache.Valid;
      guildChannels.Store(g, channel.id, channel);
      Repr := Repr + guildChannels.Repr;
      view := view.(channels := guildChannels.rows);
      assert Disjoint();
    }

    method SetGuildChannel(policy: T.Policy, g: GuildID, channel: Channel)
      requires Valid()
      modifies Repr
      ensures fresh(Repr - old(Repr))
      ensures Valid()
      ensures view == T.SetGuildChannel(old(view), policy, g, channel)
    {
      hide Valid;
      StoreChannel(g, channel.(guildID := Some(g)));
      SetUsers(policy, channel.recipients);
    }

    method GetGuildChannel(g: GuildID, c: ChannelID) returns (r: Option<Channel>)
      requires Valid()
      ensures r == T.GetGuildChannel(view, g, c)
    {
      hide Valid;
      r := LoadGuildChannel(g, c);
      if r == None {
        return None;
      }
      var recipients := r.value.recipients;
      var cached: seq<User> := [];
      for i := 0 to |recipients|
        invariant |cached| == i
        invariant forall j :: 0 <= j < i ==> cached[j] == T.CachedUsers(view.users, recipients)[j]
      {
        var user := LoadUser(recipients[i].id);
        cached := cached + [if user == None then recipients[i] else user.value];
      }
      assert cached == T.CachedUsers(view.users, recipients);
      r := Some(r.value.(recipients := cached));
    }

    method RemoveGuildChannel(g: GuildID, c: ChannelID)
      requires Valid()
      modifies Repr
      ensures fresh(Repr - old(Repr))
      ensures Valid()
      ensures view == old(view).(channels := R.Delete(old(view).channels, g, c))
    {
      hide CacheVar.Valid, DoubleCache.Valid;
      guildChannels.Delete(g, c);
      Repr := Repr + guildChannels.Repr;
      view := view.(channels := guildChannels.rows);
      assert Disjoint();
    }

    method UpdateGuildChannel(g: GuildID, c: ChannelID, fn: Channel -> Channel)
      requires Valid()
      modifies Repr
      ensures fresh(Repr - old(Repr))
      ensures Valid()
      ensures view == old(view).(channels := R.Update(old(view).channels, g, c, fn))
    {
      hide CacheVar.Valid, DoubleCache.Valid;
      var _ := guildChannels.Update(g, c, fn);
      Repr := Repr + guildChannels.Repr;
      view := view.(channels := guildChannels.rows);
      assert Disjoint();
    }

    method RemoveAllGuildChannels(g: GuildID)
      requires Valid()
      modifies Repr
      ensures fresh(Repr - old(Repr))
      ensures Valid()
      ensures view == old(view).(channels := old(view).channels - {g})
    {
      hide CacheVar.Valid, DoubleCache.Valid, DoubleCache.HandleOf;
      guildChannels.ClearKey(g);
      assert guildChannels.Repr <= old(guildChannels.Repr);
      view := view.(channels := guildChannels.rows);
      assert Disjoint();
    }

    method LoadDMChannel(c: ChannelID) returns (r: Option<DMChannel>)
      requires Valid()
      ensures r == Find(view.dms, c)
    {
      r := dmChannels.Load(c);
    }

    method StoreDMChannel(c: ChannelID, dm: DMChannel)
      requires Valid()
      modifies Repr
      ensures fresh(Repr - old(Repr))
      ensures Valid()
      ensures view == old(view).(dms := old(view).dms[c := dm])
    {
      hide CacheVar.Valid, DoubleCache.Valid;
      dmChannels.Store(c, dm);
      Repr := Repr + dmChannels.Repr;
      view := view.(dms := dmChannels.m);
      assert Disjoint();
    }

    method RemoveDMChannelByChannelID(c: ChannelID)
      requires Valid()
      modifies Repr
      ensures fresh(Repr - old(Repr))
      ensures Valid()
      ensures view == old(view).(dms := old(view).dms - {c})
    {
      hide CacheVar.Valid, DoubleCache.Valid;
      dmChannels.Delete(c);
      Repr := Repr + dmChannels.Repr;
      view := view.(dms := dmChannels.m);
      assert Disjoint();
    }

    method UpdateDMChannelByChannelID(c: ChannelID, fn: DMChannel -> DMChannel)
      requires Valid()
      modifies Repr
      ensures fresh(Repr - old(Repr))
      ensures Valid()
      ensures view == old(view).(dms := Updated(old(view).dms, c, fn))
    {
      hide CacheVar.Valid, DoubleCache.Valid;
      var _ := dmChannels.Update(c, fn);
      Repr := Repr + dmChannels.Repr;
      view := view.(dms := dmChannels.m);
      assert Disjoint();
    }

    // -------------------------------------------------------------------------------------------------------
    // Listings

    method GetAllGuildMembers(g: GuildID) returns (r: Option<seq<GuildMember>>)
      requires Valid()
      ensures r.Some? <==> g in view.members
      ensures r.Some? ==> T.Lists(r.value, R.EntriesAt(view.members, g))
    {
      var row := guildMembers.Inner(g);
      if row == None {
        return None;
      }
      var list, ks := row.value.Collect();
      assert T.ListsAlong(list, R.EntriesAt(view.members, g), ks);
      r := Some(list);
    }

    method GetAllGuildChannels(g: GuildID) returns (r: Option<seq<Channel>>)
      requires Valid()
      ensures r.Some? <==> g in view.channels
      ensures r.Some? ==> T.Lists(r.value, R.EntriesAt(view.channels, g))
    {
      var row := guildChannels.Inner(g);
      if row == None {
        return None;
      }
      var list, ks := row.value.Collect();
      assert T.ListsAlong(list, R.EntriesAt(view.channels, g), ks);
      r := Some(list);
    }

    method GetAllGuildVoiceStates(g: GuildID) returns (r: Option<seq<VoiceState>>)
      requires Valid()
      ensures r.Some? <==> g in view.voice
      ensures r.Some? ==> T.Lists(r.value, R.EntriesAt(view.voice, g))
    {
      var row := guildVoiceStates.Inner(g);
      if row == None {
        return None;
      }
      var list, ks := row.value.Collect();
      assert T.ListsAlong(list, R.EntriesAt(view.voice, g), ks);
      r := Some(list);
    }

    method GetAllGuildRoles(g: GuildID) returns (r: Option<seq<Role>>)
      requires Valid()
      ensures r.Some? <==> g in view.roles
      ensures r.Some? ==> T.Lists(r.value, T.NamedRoles(R.EntriesAt(view.roles, g)))
    {
      var row := guildRoles.Inner(g);
      if row == None {
        return None;
      }
      hide Valid, DoubleCache.Valid;
      var list, ks := NamedRolesOf(row.value);
      assert T.ListsAlong(list, T.NamedRoles(R.EntriesAt(view.roles, g)), ks);
      r := Some(list);
    }

    /** Joins the tables back into a guild; None is the source's `ok == false`. */
    method GetGuild(g: GuildID) returns (r: Option<Guild>)
      requires Valid()
      ensures T.ReadsGuild(view, g, r)
    {
      hide Valid;
      r := LoadGuild(g);
      if r == None {
        return None;
      }
      var guild := r.value;
      var roles := GetAllGuildRoles(g);
      if roles == None {
        return None;
      }
      guild := guild.(roles := roles.value);
      var channels := GetAllGuildChannels(g);
      guild := guild.(channels := Some(Listed(channels)));
      var voiceStates := GetAllGuildVoiceStates(g);
      guild := guild.(voiceStates := Some(Listed(voiceStates)));
      var emojis := GetAllGuildEmojis(g);
      if emojis == None {
        return None;
      }
      guild := guild.(emojis := emojis.value);
      var members := GetAllGuildMembers(g);
      if members == None {
        return None;
      }
      if guild.afkChannelID == None {
        guild := guild.(afkChannelID := Some(guild.id));
      }
      guild := guild.(members := members, approximateMemberCount := guild.memberCount);
      T.NothingLists<ChannelID, Channel>();
      T.NothingLists<UserID, VoiceState>();
      r := Some(guild);
    }

    // -------------------------------------------------------------------------------------------------------
    // Voice states

    method LoadVoiceState(g: GuildID, u: UserID) returns (r: Option<VoiceState>)
      requires Valid()
      ensures r == R.Lookup(view.voice, g, u)
    {
      r := guildVoiceStates.Load(g, u);
    }

    method LoadOrNewVoiceRow(g: GuildID) returns (handle: Cache<UserID, VoiceState>)
      requires Valid()
      modifies Repr
      ensures fresh(Repr - old(Repr))
      ensures Valid()
      ensures view == old(view).(voice := R.LoadOrNew(old(view).voice, g))
      ensures handle.inner == guildVoiceStates.HandleOf(g)
    {
      hide CacheVar.Valid, DoubleCache.Valid;
      handle := guildVoiceStates.LoadOrNew(g);
      Repr := Repr + guildVoiceStates.Repr;
      view := view.(voice := guildVoiceStates.rows);
      assert Disjoint();
      assert Owned();
      hide SandwichState.Disjoint, SandwichState.Owned;
    }

    method StoreVoiceState(handle: Cache<UserID, VoiceState>, g: GuildID, u: UserID, state: VoiceState)
      requires Valid() && g in view.voice && handle.inner == guildVoiceStates.HandleOf(g)
      modifies Repr
      ensures fresh(Repr - old(Repr))
      ensures Valid()
      ensures view == old(view).(voice := R.Store(old(view).voice, g, u, state))
    {
      hide CacheVar.Valid, DoubleCache.Valid;
      guildVoiceStates.StoreThrough(handle, g, u, state);
      view := view.(voice := guildVoiceStates.rows);
      assert Disjoint();
    }

    method DeleteVoiceState(handle: Cache<UserID, VoiceState>, g: GuildID, u: UserID)
      requires Valid() && g in view.voice && handle.inner == guildVoiceStates.HandleOf(g)
      modifies Repr
      ensures fresh(Repr - old(Repr))
      ensures Valid()
      ensures view == old(view).(voice := R.Delete(old(view).voice, g, u))
    {
      hide CacheVar.Valid, DoubleCache.Valid;
      guildVoiceStates.DeleteThrough(handle, g, u);
      view := view.(voice := guildVoiceStates.rows);
      assert Disjoint();
    }

    method DropVoiceState(g: GuildID, u: UserID)
      requires Valid()
      modifies Repr
      ensures fresh(Repr - old(Repr))
      ensures Valid()
      ensures view == old(view).(voice := R.Delete(old(view).voice, g, u))
    {
      hide CacheVar.Valid, DoubleCache.Valid;
      guildVoiceStates.Delete(g, u);
      view := view.(voice := guildVoiceStates.rows);
      assert Disjoint();
    }

    method CountMembersForVoiceChannel(g: GuildID, c: ChannelID) returns (count: nat)
      requires Valid()
      ensures count == T.CountMembersForVoiceChannel(view, g, c)
    {
      count := 0;
      ghost var entries := R.EntriesAt(view.voice, g);
      T.NobodyIn(entries, c);
      var row := guildVoiceStates.Inner(g);
      if row == None {
        return;
      }
      var ks := row.value.Range();
      for i := 0 to |ks|
        invariant count == |T.Occupants(entries, T.Elements(ks[..i]), c)|
      {
        var state := row.value.Load(ks[i]);
        T.OneMoreOccupant(entries, ks, i, c);
        if state.value.channelID == c {
          count := count + 1;
        }
      }
      T.EveryOccupant(entries, ks, c);
    }

    method ShowOccupancy(policy: T.Policy, g: GuildID, c: ChannelID)
      requires Valid()
      modifies Repr
      ensures fresh(Repr - old(Repr))
      ensures Valid()
      ensures view == T.ShowOccupancy(old(view), policy, g, c)
    {
      hide Valid;
      var found := GetGuildChannel(g, c);
      if found == None {
        return;
      }
      var count := CountMembersForVoiceChannel(g, found.value.id);
      var channel := found.value.(memberCount := count);
      if g == 0 {
        SetGuildChannel(policy, g, channel);
      } else {
        UpdateDMChannelByChannelID(channel.id, (dm: DMChannel) => dm.(channel := channel));
      }
    }

    /** The write itself: the row is looked up or made, then written through the handle that came back. */
    method WriteVoiceState(g: GuildID, state: VoiceState)
      requires Valid()
      modifies Repr
      ensures fresh(Repr - old(Repr))
      ensures Valid()
      ensures view == T.WriteVoiceState(old(view), g, state)
    {
      hide Valid;
      var handle := LoadOrNewVoiceRow(g);
      if state.channelID == 0 {
        DeleteVoiceState(handle, g, state.userID);
      } else {
        var member := state.member;
        if member == None {
          var cached, _ := GetGuildMember(g, state.userID);
          member := Some(cached);
        }
        StoreVoiceState(handle, g, state.userID, state.(member := member));
      }
    }

    method UpdateVoiceState(policy: T.Policy, state: VoiceState) returns (panicked: bool)
      requires Valid()
      modifies Repr
      ensures fresh(Repr - old(Repr))
      ensures Valid()
      ensures T.Outcome(view, panicked) == T.UpdateVoiceState(old(view), policy, state)
    {
      hide Valid, T.WriteVoiceState, T.ShowOccupancy, T.SetGuildMember;
      if state.guildID == None {
        return false;
      }
      var g := state.guildID.value;
      var before := LoadVoiceState(g, state.userID);
      WriteVoiceState(g, state);
      if state.member != None {
        panicked := SetGuildMember(policy, g, state.member.value);
        if panicked {
          return;
        }
      }
      if before != None && before.value.channelID != 0 {
        if before.value.guildID == None {
          return true;
        }
        ShowOccupancy(policy, before.value.guildID.value, before.value.channelID);
      }
      if state.channelID != 0 {
        ShowOccupancy(policy, g, state.channelID);
      }
      panicked := false;
    }

    method RemoveVoiceState(policy: T.Policy, g: GuildID, u: UserID)
      requires Valid()
      modifies Repr
      ensures fresh(Repr - old(Repr))
      ensures Valid()
      ensures view == T.RemoveVoiceState(old(view), policy, g, u)
    {
      hide Valid;
      var state := LoadVoiceState(g, u);
      if state == None {
        return;
      }
      DropVoiceState(g, u);
      var found := GetGuildChannel(g, state.value.channelID);
      if found != None {
        var count := CountMembersForVoiceChannel(g, found.value.id);
        SetGuildChannel(policy, g, found.value.(memberCount := count));
      }
    }

    // -------------------------------------------------------------------------------------------------------
    // Guilds

    method SetGuildRoles(g: GuildID, roles: seq<Role>) returns (panicked: bool)
      requires Valid()
      modifies Repr
      ensures fresh(Repr - old(Repr))
      ensures Valid()
      ensures view == T.SetGuildRoles(old(view), g, T.Prefix(roles, T.HasId))
      ensures panicked <==> T.Prefix(roles, T.HasId) != roles
    {
      hide Valid;
      for i := 0 to |roles|
        invariant Valid() && fresh(Repr - old(Repr))
        invariant forall j :: 0 <= j < i ==> T.HasId(roles[j])
        invariant view == T.SetGuildRoles(old(view), g, roles[..i])
      {
        assert roles[..i + 1][..i] == roles[..i];
        panicked := SetGuildRole(g, roles[i]);
        if panicked {
          T.PrefixIs(roles, T.HasId, i);
          return;
        }
      }
      T.PrefixIs(roles, T.HasId, |roles|);
      assert roles[..|roles|] == roles;
      panicked := false;
    }

    method SetGuildChannels(policy: T.Policy, g: GuildID, channels: seq<Channel>)
      requires Valid()
      modifies Repr
      ensures fresh(Repr - old(Repr))
      ensures Valid()
      ensures view == T.SetGuildChannels(old(view), policy, g, channels)
    {
      hide Valid;
      for i := 0 to |channels|
        invariant Valid() && fresh(Repr - old(Repr))
        invariant view == T.SetGuildChannels(old(view), policy, g, channels[..i])
      {
        assert channels[..i + 1][..i] == channels[..i];
        SetGuildChannel(policy, g, channels[i]);
      }
      assert channels[..|channels|] == channels;
    }

    method SetGuildMembers(policy: T.Policy, g: GuildID, members: seq<GuildMember>) returns (panicked: bool)
      requires Valid()
      modifies Repr
      ensures fresh(Repr - old(Repr))
      ensures Valid()
      ensures forall i :: 0 <= i < |T.Prefix(members, T.HasUser)| ==> T.HasUser(T.Prefix(members, T.HasUser)[i])
      ensures view == T.SetGuildMembers(old(view), policy, g, T.Prefix(members, T.HasUser))
      ensures panicked <==> T.Prefix(members, T.HasUser) != members
    {
      hide Valid, T.SetGuildMember, T.Admitted;
      T.PrefixSplits(members, T.HasUser);
      for i := 0 to |members|
        invariant Valid() && fresh(Repr - old(Repr))
        invariant forall j :: 0 <= j < i ==> T.HasUser(members[j])
        invariant view == T.SetGuildMembers(old(view), policy, g, members[..i])
      {
        assert members[..i + 1][..i] == members[..i];
        panicked := SetGuildMember(policy, g, members[i]);
        if panicked {
          T.PrefixIs(members, T.HasUser, i);
          return;
        }
      }
      T.PrefixIs(members, T.HasUser, |members|);
      assert members[..|members|] == members;
      panicked := false;
    }

    method UpdateVoiceStates(policy: T.Policy, g: GuildID, states: seq<VoiceState>) returns (panicked: bool)
      requires Valid()
      modifies Repr
      ensures fresh(Repr - old(Repr))
      ensures Valid()
      ensures T.Outcome(view, panicked) == T.UpdateVoiceStates(old(view), policy, g, states)
    {
      hide Valid, T.UpdateVoiceState;
      panicked := false;
      for i := 0 to |states|
        invariant Valid() && fresh(Repr - old(Repr))
        invariant T.Outcome(view, false) == T.UpdateVoiceStates(old(view), policy, g, states[..i])
      {
        assert states[..i + 1][..i] == states[..i];
        panicked := UpdateVoiceState(policy, states[i].(guildID := Some(g)));
        if panicked {
          T.PanicEndsVoiceStates(old(view), policy, g, states, i + 1);
          return;
        }
      }
      assert states[..|states|] == states;
    }

    method SetGuild(policy: T.Policy, guild: Guild) returns (panicked: bool)
      requires Valid()
      modifies Repr
      ensures fresh(Repr - old(Repr))
      ensures Valid()
      ensures T.Outcome(view, panicked) == T.SetGuild(old(view), policy, guild)
    {
      hide Valid;
      StoreGuild(guild.id, guild);
      panicked := SetGuildRoles(guild.id, guild.roles);
      if panicked {
        return;
      }
      SetGuildChannels(policy, guild.id, Listed(guild.channels));
      SetGuildEmojis(policy, guild.id, guild.emojis);
      panicked := SetGuildMembers(policy, guild.id, Listed(guild.members));
      if panicked {
        return;
      }
      panicked := UpdateVoiceStates(policy, guild.id, Listed(guild.voiceStates));
    }

    method RemoveGuild(g: GuildID)
      requires Valid()
      modifies Repr
      ensures fresh(Repr - old(Repr))
      ensures Valid()
      ensures view == T.RemoveGuild(old(view), g)
    {
      hide Valid;
      DeleteGuild(g);
      RemoveAllGuildRoles(g);
      RemoveAllGuildChannels(g);
      RemoveAllGuildEmojis(g);
      RemoveAllGuildMembers(g);
    }
  }

  /** The loop over a role row: a role without an id gets the one it is stored under. */
  method NamedRolesOf(row: Cache<RoleID, Role>) returns (list: seq<Role>, ghost ks: seq<RoleID>)
    ensures Enumerates(ks, T.NamedRoles(row.Contents()).Keys)
    ensures T.ListsAlong(list, T.NamedRoles(row.Contents()), ks)
  {
    var keys := row.Range();
    list, ks := [], keys;
    assert T.NamedRoles(row.Contents()).Keys == row.Contents().Keys;
    for i := 0 to |keys|
      invariant |list| == i
      invariant forall j :: 0 <= j < i ==> list[j] == T.NamedRoles(row.Contents())[keys[j]]
    {
      var entry := row.Load(keys[i]);
      var role := entry.value;
      if role.id == 0 {
        role := role.(id := keys[i]);
      }
      list := list + [role];
    }
  }

  /** Every cache is there, no table is allocated yet. */
  method NewSandwichState() returns (state: SandwichState)
    ensures fresh(state.Repr)
    ensures state.Valid()
    ensures state.view == T.EMPTY
  {
    hide CacheVar.Valid, DoubleCache.Valid, SandwichState.Valid;
    var guilds := new CacheVar<GuildID, Guild>(100);
    var guildMembers := new DoubleCache<GuildID, UserID, GuildMember>(50);
    var guildChannels := new DoubleCache<GuildID, ChannelID, Channel>(50);
    var guildRoles := new DoubleCache<GuildID, RoleID, Role>(50);
    var guildEmojis := new CacheVar<GuildID, seq<Emoji>>(50);
    var users := new CacheVar<UserID, User>(100);
    var dmChannels := new CacheVar<ChannelID, DMChannel>(50);
    var guildVoiceStates := new DoubleCache<GuildID, UserID, VoiceState>(50);
    state := new SandwichState(guilds, guildMembers, guildChannels, guildRoles,
                               guildEmojis, users, dmChannels, guildVoiceStates);
  }
}
