/** Member chunks: whatever order they are processed in, and however often, they leave the same tables. */
module Chunks {
  import opened Discord
  import opened Tables
  import opened Events
  import opened Locality
  import R = Rows

  /** The chunks of one guild, processed one after the other until one panics. */
  function StoreChunks(t: Tables, policy: Policy, g: GuildID, chunks: seq<seq<GuildMember>>): Outcome {
    if chunks == [] then Outcome(t, false)
    else
      var earlier := StoreChunks(t, policy, g, chunks[..|chunks| - 1]);
      if earlier.panicked then earlier else StoreChunk(earlier.tables, policy, g, chunks[|chunks| - 1])
  }

  function Concat<T>(lists: seq<seq<T>>): seq<T> {
    if lists == [] then [] else Concat(lists[..|lists| - 1]) + lists[|lists| - 1]
  }

  lemma {:induction false} InConcat<T>(lists: seq<seq<T>>, x: T)
    ensures x in Concat(lists) <==> exists l :: l in lists && x in l
  {
    if lists != [] {
      var init, last := lists[..|lists| - 1], lists[|lists| - 1];
      InConcat(init, x);
      assert lists == init + [last];
    }
  }

  predicate SameUser(m: GuildMember, n: GuildMember) {
    HasUser(m) && HasUser(n) && m.user.value.id == n.user.value.id
  }

  /** No two entries for one user differ; true in particular of chunks with disjoint users. */
  ghost predicate Agree(members: seq<GuildMember>) {
    forall m, n :: m in members && n in members && SameUser(m, n) ==> m == n
  }

  /** Each user's member, and each user: manifestly independent of the order of the list. */
  ghost function MembersOf(members: seq<GuildMember>): map<UserID, GuildMember>
    requires Agree(members)
  {
    map m: GuildMember | m in members && HasUser(m) :: m.user.value.id := m
  }

  ghost function UsersOf(members: seq<GuildMember>): map<UserID, User>
    requires Agree(members)
  {
    map m: GuildMember | m in members && HasUser(m) :: m.user.value.id := m.user.value
  }

  predicate CachesAll(policy: Policy) {
    policy.cacheUsers && policy.cacheMembers
  }

  lemma PlusOne<K, V>(m: map<K, V>, n: map<K, V>, k: K, v: V)
    ensures m + n[k := v] == (m + n)[k := v]
  {
  }

  lemma OneMoreMember(init: seq<GuildMember>, last: GuildMember)
    requires HasUser(last) && Agree(init + [last])
    ensures Agree(init)
    ensures MembersOf(init + [last]) == MembersOf(init)[last.user.value.id := last]
    ensures UsersOf(init + [last]) == UsersOf(init)[last.user.value.id := last.user.value]
  {
    var all := init + [last];
    assert forall m :: m in all <==> m in init || m == last;
    assert Agree(init);
    forall m | m in init && HasUser(m)
      ensures m.user.value.id == last.user.value.id ==> m == last
    {
      assert SameUser(m, last) <==> m.user.value.id == last.user.value.id;
    }
  }

  /** The tables with guild g's member row and the users replaced. */
  function WithRow(t: Tables, g: GuildID, row: map<UserID, GuildMember>, users: map<UserID, User>): Tables {
    t.(members := t.members[g := R.Table(row)], users := users)
  }

  lemma StoreFirst(t: Tables, policy: Policy, g: GuildID, m: GuildMember)
    requires CachesAll(policy) && HasUser(m) && (g in t.members ==> t.members[g].Table?)
    ensures var u := m.user.value.id;
            SetGuildMember(t, policy, g, m)
            == WithRow(t, g, R.EntriesAt(t.members, g)[u := m], t.users[u := m.user.value])
  {
  }

  lemma StoreNext(
    t: Tables, policy: Policy, g: GuildID, row: map<UserID, GuildMember>, users: map<UserID, User>, m: GuildMember)
    requires CachesAll(policy) && HasUser(m)
    ensures var u := m.user.value.id;
            SetGuildMember(WithRow(t, g, row, users), policy, g, m)
            == WithRow(t, g, row[u := m], users[u := m.user.value])
  {
    var t1, u := WithRow(t, g, row, users), m.user.value.id;
    assert t1.members[g] == R.Table(row);
    assert R.Store(t1.members, g, u, m) == t.members[g := R.Table(row[u := m])];
  }

  lemma {:induction false} MembersOverride(t: Tables, policy: Policy, g: GuildID, members: seq<GuildMember>)
    requires CachesAll(policy) && AllHaveUsers(members) && Agree(members)
    requires g in t.members ==> t.members[g].Table?
    ensures SetGuildMembers(t, policy, g, members)
         == if members == [] then t
            else WithRow(t, g, R.EntriesAt(t.members, g) + MembersOf(members), t.users + UsersOf(members))
  {
    if members != [] {
      hide Agree, MembersOf, UsersOf, AllHaveUsers, SetGuildMember, WithRow;
      var init, last := members[..|members| - 1], members[|members| - 1];
      assert members == init + [last];
      LastHasUser(members);
      OneMoreMember(init, last);
      MembersOverride(t, policy, g, init);
      var row, u := R.EntriesAt(t.members, g), last.user.value.id;
      PlusOne(row, MembersOf(init), u, last);
      PlusOne(t.users, UsersOf(init), u, last.user.value);
      if init == [] {
        NoMembers(t, g);
        StoreFirst(t, policy, g, last);
      } else {
        StoreNext(t, policy, g, row + MembersOf(init), t.users + UsersOf(init), last);
      }
    }
  }

  lemma LastHasUser(members: seq<GuildMember>)
    requires AllHaveUsers(members) && members != []
    ensures AllHaveUsers(members[..|members| - 1]) && HasUser(members[|members| - 1])
  {
  }

  lemma NoMembers(t: Tables, g: GuildID)
    ensures Agree([]) && R.EntriesAt(t.members, g) + MembersOf([]) == R.EntriesAt(t.members, g)
    ensures t.users + UsersOf([]) == t.users
  {
  }

  lemma {:induction false} MembersConcat(
    t: Tables, policy: Policy, g: GuildID, xs: seq<GuildMember>, ys: seq<GuildMember>)
    requires AllHaveUsers(xs) && AllHaveUsers(ys)
    ensures AllHaveUsers(xs + ys)
    ensures SetGuildMembers(SetGuildMembers(t, policy, g, xs), policy, g, ys) == SetGuildMembers(t, policy, g, xs + ys)
  {
    hide SetGuildMember;
    if ys == [] {
      assert xs + ys == xs;
    } else {
      MembersConcat(t, policy, g, xs, ys[..|ys| - 1]);
      assert (xs + ys)[..|xs + ys| - 1] == xs + ys[..|ys| - 1];
    }
  }

  lemma {:induction false} ChunksAreOneList(t: Tables, policy: Policy, g: GuildID, chunks: seq<seq<GuildMember>>)
    requires forall c :: c in chunks ==> AllHaveUsers(c)
    ensures AllHaveUsers(Concat(chunks))
    ensures StoreChunks(t, policy, g, chunks)
         == Outcome(SetGuildMembers(t, policy.(cacheUsers := true, cacheMembers := true), g, Concat(chunks)), false)
  {
    if chunks != [] {
      hide SetGuildMembers;
      var init, last := chunks[..|chunks| - 1], chunks[|chunks| - 1];
      ChunksAreOneList(t, policy, g, init);
      var forced := policy.(cacheUsers := true, cacheMembers := true);
      MembersConcat(t, forced, g, Concat(init), last);
      PrefixIs(last, HasUser, |last|);
      assert last[..|last|] == last;
    } else {
      assert SetGuildMembers(t, policy.(cacheUsers := true, cacheMembers := true), g, []) == t;
    }
  }

  /** All the chunks together override the old member row and the old users, even with caching switched off. */
  lemma {:induction false} ChunksOverride(t: Tables, policy: Policy, g: GuildID, chunks: seq<seq<GuildMember>>)
    requires forall c :: c in chunks ==> AllHaveUsers(c)
    requires Agree(Concat(chunks)) && (g in t.members ==> t.members[g].Table?)
    ensures StoreChunks(t, policy, g, chunks)
         == Outcome(if Concat(chunks) == [] then t
                    else WithRow(t, g, R.EntriesAt(t.members, g) + MembersOf(Concat(chunks)),
                                 t.users + UsersOf(Concat(chunks))), false)
  {
    hide SetGuildMembers, Agree, MembersOf, UsersOf;
    ChunksAreOneList(t, policy, g, chunks);
    MembersOverride(t, policy.(cacheUsers := true, cacheMembers := true), g, Concat(chunks));
  }

  lemma SameMembersSameMaps(xs: seq<GuildMember>, ys: seq<GuildMember>)
    requires Agree(xs) && forall m :: m in xs <==> m in ys
    ensures Agree(ys) && MembersOf(xs) == MembersOf(ys) && UsersOf(xs) == UsersOf(ys)
  {
    assert Agree(ys);
  }

  /**
   Two ways of delivering the same chunks, in any order, with any repetitions, to managers with any caching
   configuration, leave the same tables.
   */
  lemma OrderDoesNotMatter(
    t: Tables, policy: Policy, other: Policy, g: GuildID, chunks: seq<seq<GuildMember>>, again: seq<seq<GuildMember>>)
    requires forall c :: c in chunks ==> AllHaveUsers(c)
    requires Agree(Concat(chunks)) && (g in t.members ==> t.members[g].Table?)
    requires forall c :: c in chunks <==> c in again
    ensures StoreChunks(t, policy, g, chunks) == StoreChunks(t, other, g, again)
  {
    hide StoreChunks, Agree, MembersOf, UsersOf, AllHaveUsers;
    forall m
      ensures m in Concat(chunks) <==> m in Concat(again)
    {
      InConcat(chunks, m);
      InConcat(again, m);
    }
    SameMembersSameMaps(Concat(chunks), Concat(again));
    ChunksOverride(t, policy, g, chunks);
    ChunksOverride(t, other, g, again);
    assert Concat(chunks) == [] <==> Concat(again) == [] by {
      if Concat(chunks) != [] { assert Concat(chunks)[0] in Concat(again); }
      if Concat(again) != [] { assert Concat(again)[0] in Concat(chunks); }
    }
  }
}
