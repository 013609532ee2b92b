# Sandwich Daemon, modelled and proved in Dafny

Sandwich Daemon keeps one Discord state that many gateway shards feed, hands traffic from one shard group to the next
during rolling restarts, and deals events out to websocket consumers that may count shards differently. This project
models the parts of it that carry that promise and proves what they keep, over every input and every run.

`dafny verify dfyconfig.toml` checks everything.

## How the model is laid out

The state is modelled twice. `Cache.dfy` and `State.dfy` are the source's own objects: shared tables, `Cache` structs
copied by value around a possibly nil table, the two-level cache of such structs, and the state whose methods write
through all of them. Every method is proved against a value: `Rows.dfy` says what a two-level cache stands for (a nil
table is a state of its own, since a store through a copy of it is lost), and `Tables.dfy` says what every state
operation does to the eight tables. `Events.dfy` and `Dispatch.dfy` do the same for the dispatch handlers: a function of
the tables, the dedupe keys and the guilds of the handling group, and a method that changes the shared objects. The laws
are then proved about the values; `EntryLaws`, `WriteLaws` and `HandlerLaws` say of every operation and handler, field
by field and without its definition, which entry ends up where and that no other entry changes. `Streams` is the same
kind of value for the subscriber server, and `Serving` proves that any plan run on the objects ends as the streams say.

| files | subject |
|---|---|
| `Wrappers`, `Discord`, `Decimals`, `Snowflakes` | optional values, decoded payloads, base-ten integers, their JSON forms |
| `Rows`, `Cache` | the two-level cache as a value and as shared, aliased tables |
| `Tables`, `State` | the guild state as a value and as objects |
| `EntryLaws`, `WriteLaws`, `HandlerLaws` | entry by entry: what a state operation, a guild write and every handler store, remove and leave alone |
| `GuildLaws`, `VoiceLaws`, `Invariants`, `Locality` | write then read, read then write, voice counts, invariants, what an operation may touch |
| `VoiceRepair` | voice counts over every run, with the row `LoadOrNew` makes repaired |
| `Dedupe`, `Events`, `Dispatch` | dedupe keys, the handlers, runs of deliveries and sweeps |
| `Runs`, `Confluence`, `GuildEvents`, `Chunks`, `MemberCounts`, `Ejector` | theorems over every run |
| `Session`, `SessionRuns`, `ShardGroups`, `Handover` | one shard's session against the gateway, shard groups, the handover |
| `Routing`, `Subscribers`, `Streams`, `Ranges` | virtual shards, the subscriber registry, what a subscriber is sent while others disconnect, shard id lists |
| `Serving` | the server's own objects run as those streams say |
| `Requests` | which group a consumer's request goes through |

A handler, a sweep, a handover and a publish are each one atomic step; runs interleave those steps in any order. Three
steps are also taken apart: the passes of a sweep, the load and the write of a removal, and a subscriber's closing and
deletion. Time is a parameter of the step. `GetGuild` and every table walk may list a table in any order, and the laws
hold for each.

## Where the code departs from its evident intent

The code is modelled as it is. Each departure below has a lemma that shows it, and where a promise fails, a lemma with
the exact condition under which it holds.

- `LoadOrNew` hands out, and stores, a cache without a table, so a store through it is lost. No voice state is ever
  cached in any run (`Runs.VoiceIsNeverCached`), a join is counted exactly when the row already has a table
  (`VoiceLaws.JoinIsCountedIff`), and the first join is lost (`VoiceLaws.FirstJoinIsLost`). `VoiceRepair` gives the new
  row a table, changes nothing else, and proves the intended promise from the empty state on: after every run of updates
  and removals a channel's count is the number of users whose last voice event names it
  (`VoiceRepair.CountIsLastIn`, `VoiceRepair.CountsAreConserved`).
- The guild/DM tests of the voice update are inverted: a real guild's channel keeps the head count it came with, and a
  DM channel of the same id is written instead (`GuildLaws.ShowOccupancyIs`, `VoiceLaws.UpdateKeepsRealChannels`). The
  joined channel shows its count exactly when the guild is 0 and nothing panicked, or the old number happens to be right
  (`VoiceLaws.ShownCountIsRightIff`); `VoiceLaws.ShownCountIsStale` is an input where it is wrong.
- `RemoveGuild` leaves the voice row behind (`Ejector.SweepIsExact`).
- A GUILD_STICKERS_UPDATE for a guild that has no role, emoji or member row is dropped
  (`GuildEvents.StickersUpdateIsDroppedIff`, `GuildEvents.StickersAreLost`); otherwise it also rewrites the users its
  members and emojis carry.
- A GUILD_UPDATE for such a guild loses what only GUILD_CREATE carries: the join time, the size flag, an omitted member
  count and omitted stage instances survive exactly when the guild can be read or nothing would be lost
  (`GuildEvents.UpdateKeepsCreateFieldsIff`). With member caching off, a guild whose payload admits no member gets no
  member row and so cannot be read: an update without a count sets it to 0 (`GuildEvents.UpdateLosesCount`).
- A member removal writes back the guild entry it loaded. The count ends one lower exactly when the adds and removes
  counted in between cancel out (`MemberCounts.SplitRemovalIsRightIff`); one add in between is lost
  (`MemberCounts.AddInBetweenIsLost`).
- The ejector collects, lists and removes in three passes; a GUILD_CREATE between the first two is ejected although its
  group holds the guild (`Ejector.LateGuildIsEjected`). For any run of steps between the passes
  `Ejector.SplitSweepIsSafeIff` says which deliveries do the harm.
- `Sub(-1)` raises the retry counter, so a failing shard gives up only after the 32-bit counter wraps
  (`Session.GivesUpOnlyAfterWrap`).
- The READY loop ignores opcodes: a non-resumable invalid session that arrives in it is swallowed and the dead session
  is resumed (`SessionRuns.InvalidSessionIsSwallowedIff`, `SessionRuns.DeadSessionIsResumed`).
- The handover clears its own floodgate instead of the others': old floodgates stay open on closed groups
  (`Handover.OldFloodgateStaysOpen`, `Handover.BothFloodgatesOpen`).
- Closed groups stay registered, and `getShard` takes any group with the shard id: a request is sure to go through a
  running group exactly when some group has the id and none with it is closed (`Requests.ReachesRunningGroupIff`,
  `Requests.RequestThroughClosedGroup`).
- `publish` compares the remapped shard id with the event's shard instead of the bucket's, so a bucket of another shard
  count is served correctly in two cases only (`Routing.ServedExactlyIff`); a globally routed event only reaches shard 0
  (`Routing.GlobalEventReachesShardZero`). READY lists guilds by the consumer count, so it is right for no other count
  (`Routing.ReadyIsExactIff`).
- Routing writes through the metadata all packets of a shard share. A queued packet is written with the shard of the
  last packet routed before the write (`Routing.RouteThenOthers`), so with its own exactly when that one goes to the same
  bucket or nothing was routed since (`Routing.QueuedPacketIsRightIff`, and `Routing.QueuedPacketIsWrong` for two guilds).
- A shard range that ends at the largest int32 wraps its bound and gives no shard at all (`Ranges.LargestEndIsLost`).
- `deleteSubscriber` cuts the slice it is ranging over; it removes every match exactly when there is at most one
  (`Subscribers.DeletesAllIff`).
- A disconnecting subscriber's channels are closed before it is deleted. A publish that comes to it in between panics,
  so publish reaches everybody exactly when no subscriber it deals with is closed and still registered
  (`Streams.PublishReachesAllIff`, `Streams.ClosedSubscriberCostsTheNext`).

## Model

| member | source | states |
|---|---|---|
| Csmap.CsMap.Range | internal/cache.go:64-70 | a table walk visits every key once, in an order left open |
| Caches.Cache.Store | internal/cache.go:27-35 | a store through a copy without a table makes a new table only the caller's copy has |
| Caches.Cache.Update | internal/cache.go:46-62 | the value under a present key is replaced by its image, and the new value is returned |
| State.SandwichState.GetAllGuildMembers | internal/state.go:259-275 | the members of a guild, each once, in some order; nothing without a row |
| DoubleCaches.DoubleCache.Inner | internal/cache.go:120-122 | the handle on a row shares the row's own table |
| DoubleCaches.DoubleCache.LoadOrNew | internal/cache.go:132-141 | an absent row becomes a row without a table, and that is what the handle gets |
| DoubleCaches.DoubleCache.StoreThrough | internal/cache.go:27-35 | a store through a handle changes its row when the handle has a table, and nothing at all when it has none |
| DoubleCaches.DoubleCache.Store | internal/cache.go:143-152 | one entry changes; all other rows, and every handle's link to its row, stay |
| DoubleCaches.DoubleCache.Delete | internal/cache.go:154-158 | one entry goes; all other rows stay |
| DoubleCaches.DoubleCache.Update | internal/cache.go:160-166 | the entry is replaced by its image when it is present |
| DoubleCaches.DoubleCache.TotalCount | internal/cache.go:173-184 | the loop's sum is the number of key pairs held |
| DoubleCaches.DoubleCache.Clear | internal/cache.go:195-198 | all rows go, and every handle is detached |
| DoubleCaches.DoubleCache.ClearKey | internal/cache.go:200-203 | one row goes, and only its handles are detached |
| DoubleCaches.DoubleCache.SetIfAbsent | internal/cache.go:205-215 | an entry is stored unless one is there |
| DoubleCaches.DoubleCache.SetIfPresent | internal/cache.go:217-226 | an entry is replaced if one is there; an absent row is created empty |
| DoubleCaches.DoubleCache.PerformAll | internal/cache.go:115-226 | through any sequence of operations a handle is a live alias of its row, until a Clear or ClearKey detaches it |
| Rows.BehavesAsOneMap | internal/cache.go:115-226 | every sequence of operations makes the two-level cache behave as one map from key pairs |
| Rows.TotalCountIsFlatSize | internal/cache.go:173-184 | the total count, whatever order the rows are visited in, is the size of that one map |
| Rows.StoreTakesEffectIff | internal/cache.go:132-152 | a store can be read back exactly when the row is not stuck without a table |
| Rows.RowMadeByLoadOrNewStaysEmpty | internal/cache.go:132-141 | a row made by LoadOrNew stays empty under every sequence of stores until it is cleared |
| Rows.RowsComeAndGo | internal/cache.go:115-226 | which operation makes a row, which removes one, and that none but a clear changes whether a row has a table |
| State.SandwichState.GetGuild | internal/state.go:81-152 | the guild joined from its tables, its lists in any order; nothing when a row it insists on is missing |
| GuildLaws.FieldsAreRead | internal/state.go:81-152 | exactly when a guild is read, and every scalar field of it: the entry's, with the AFK default and the approximate count |
| GuildLaws.ListsAreRead | internal/state.go:81-152 | the lists read hold each entry of their row once and nothing else, a role without an id getting its key |
| State.SandwichState.SetGuild | internal/state.go:156-187 | the guild split over its tables; a panic half way leaves the tables written so far |
| Dispatch.Sandwich.RemoveGuild | internal/state.go:192-203 | the guild leaves five tables and the caller's group, if the caller has one; its voice row stays |
| State.SandwichState.GetGuildMember | internal/state.go:207-236 | the cached member with the cached user filled in |
| State.SandwichState.SetGuildMember | internal/state.go:240-251 | the member and its user are stored if the caching rule admits it |
| State.SandwichState.SetGuildRole | internal/state.go:289-295 | the role is stored under its id |
| State.SandwichState.GetAllGuildRoles | internal/state.go:302-323 | the roles of a guild, each once |
| State.SandwichState.SetGuildEmojis | internal/state.go:363-372 | the emoji list is replaced and the emojis' users are stored |
| State.SandwichState.GetGuildChannel | internal/state.go:437-459 | the cached channel with cached recipients filled in |
| State.SandwichState.SetGuildChannel | internal/state.go:463-473 | the channel is stamped with the guild id and stored, with its recipients |
| State.SandwichState.UpdateVoiceState | internal/state.go:649-701 | the whole update: write, carried member, head counts of the old and the new channel, panics |
| State.SandwichState.RemoveVoiceState | internal/state.go:704-721 | the voice state goes and its channel's head count is refreshed |
| State.SandwichState.CountMembersForVoiceChannel | internal/state.go:723-740 | the loop counts exactly the users whose voice state is in the channel |
| State.NewSandwichState | internal/state.go:55-78 | the state starts empty, no table shared |
| EntryLaws.UsersAreStored | internal/state.go:417-425 | the last user of an id is the cached one if the rule admits it; nobody else's entry changes |
| EntryLaws.MembersAreStored | internal/state.go:240-251 | the last admitted member of a user is the cached one, with its user; no other member or user changes |
| EntryLaws.RolesAreStored | internal/state.go:289-295 | the last role of an id is the cached one, and roles not named stay |
| EntryLaws.ChannelsAreStored | internal/state.go:463-473 | the last channel of an id is the cached one, stamped with its guild, and the recipients are stored |
| EntryLaws.EmojisAreStored | internal/state.go:363-372 | the list replaces the guild's; the last user of an id it carries is cached if the rule admits it, and no other entry changes |
| EntryLaws.MemberIsReadWithUser | internal/state.go:207-236 | a read member has the cached user and is otherwise as stored; when `ok` is true |
| EntryLaws.ChannelIsReadWithUsers | internal/state.go:437-459 | a read channel has the cached users as recipients and is otherwise as stored |
| WriteLaws.WritePanicsIff | internal/state.go:156-187 | a write panics exactly on a role with id 0, a member without a user, or a voice state carrying one |
| WriteLaws.EntryIsWritten | internal/state.go:156-187 | the guild entry is the payload, the emoji list its own |
| WriteLaws.RolesAreWritten | internal/state.go:156-187 | after a write the last role of an id is cached, and roles not named stay |
| WriteLaws.ChannelsAreWritten | internal/state.go:156-187 | after a write the last channel of an id is cached, stamped, and channels not named stay |
| WriteLaws.MembersAreWritten | internal/state.go:156-187 | after a write the last admitted member of a user is cached, and others stay |
| WriteLaws.UserIsWritten | internal/state.go:156-187 | after a write a user is as before unless admitted and carried by the payload, and then it is from the payload |
| GuildLaws.SetGuildIs | internal/state.go:156-187 | closed form of writing a guild: which table gets which entries |
| GuildLaws.ShowOccupancyIs | internal/state.go:671-701 | showing a head count writes a guild channel only for guild 0, and a DM channel otherwise |
| VoiceLaws.UpdateKeepsRealChannels | internal/state.go:649-701 | no update, panics included, changes a channel of a real guild |
| VoiceLaws.ShownCountIsRightIff | internal/state.go:649-701 | the joined channel shows its head count exactly for guild 0 without a panic, or when the old number is the new count; all three are stated of the tables before |
| VoiceLaws.ShownCountIsStale | internal/state.go:671-701 | a channel that keeps showing 3 when nobody is counted in it |
| VoiceLaws.VoiceStateIsStored | internal/state.go:649-663 | on a row with a table the user's voice state is the update, field by field, or gone, and no other changes |
| VoiceLaws.CarriedMemberIsStored | internal/state.go:649-701 | the carried member is cached if admitted, panic or not, and no other member changes |
| VoiceLaws.DirectChannelShowsCount | internal/state.go:671-701 | an update for a real guild puts the joined channel's count into the direct channel of that id |
| VoiceLaws.LeftChannelShowsCount | internal/state.go:671-701 | in guild 0 the channel that is left shows its new count, one lower |
| VoiceLaws.RemovalShowsCount | internal/state.go:704-721 | after a removal the user's channel shows the count that is left, and no other channel changes its count |
| GuildLaws.RowsAfterSetGuild | internal/state.go:156-187 | after a write each row is the old one overridden by the payload, the last entry of each id winning |
| GuildLaws.WriteThenRead | internal/state.go:81-187 | a written guild can be read exactly when it has a role and an admitted member, and reads back as written |
| GuildLaws.ReadThenWrite | internal/state.go:81-187 | writing back a guild that carries the lists just read changes no role, channel, emoji, member or voice entry |
| GuildLaws.ReadThenWriteBack | internal/state.go:81-187 | reading a guild and writing it back changes no later read of any guild |
| Locality.ReadsAreLocal | internal/state.go:81-152 | what GetGuild can return depends on the guild's own entries alone |
| Locality.SetGuildInStep | internal/state.go:156-187 | a write does the same to a guild in two states that agree on it, and nothing to other guilds |
| Locality.WriteLeavesOthers | internal/state.go:156-187 | a write leaves every other guild's view untouched |
| Invariants.SetGuildKeeps | internal/state.go:156-187 | a write keeps the tables well formed, even when it panics |
| VoiceLaws.CountsSumToVoiceStates | internal/state.go:723-740 | the channel counts of a guild sum to its number of voice states |
| VoiceLaws.UpdateMovesOneUser | internal/state.go:649-701 | on a row with a table an update moves one user between counts; on any other row all counts stay 0 |
| VoiceRepair.SameOnLiveRows | internal/state.go:649-701 | the repair changes nothing where the row exists |
| VoiceRepair.LiveUpdateMovesOneUser | internal/state.go:649-701 | repaired, every update, a guild's first included, lowers the old channel by one, raises the new by one, and changes no other count |
| VoiceRepair.RunTracks | internal/state.go:649-721 | repaired, in every run each cached voice state is the last one received |
| VoiceRepair.CountIsLastIn | internal/state.go:649-740 | repaired, in every run a channel's count is the number of users whose last voice event names it |
| VoiceRepair.CountsAreConserved | internal/state.go:649-740 | repaired, in every run the counts sum to the number of users who are in some channel |
| VoiceLaws.RemoveLowersOneCount | internal/state.go:704-721 | a removal lowers the count of the user's channel alone |
| VoiceLaws.JoinIsCountedIff | internal/state.go:649-663 | a joining user is counted exactly when the row already has a table |
| VoiceLaws.FirstJoinIsLost | internal/state.go:649-663 | a concrete first join that is not counted |
| Dedupe.KeysAreInjective | internal/dedupe.go:9-15 | equal dedupe keys mean the same kind of event, guild and user |
| Dispatch.Sandwich.CheckAndAddDedupe | internal/dedupe.go:35-44 | true while the key suppresses; otherwise the key is set for 60 seconds |
| Dispatch.Sandwich.RemoveDedupe | internal/dedupe.go:47-49 | the key goes |
| Dispatch.Sandwich.OnGuildCreate | internal/events_dispatch.go:122-155 | the group holds the guild and the tables are as after writing it |
| Dispatch.Sandwich.OnGuildMembersChunk | internal/events_dispatch.go:157-227 | all members of the chunk are stored, caching forced on |
| Dispatch.Sandwich.OnChannelCreate | internal/events_dispatch.go:229-253 | a guild channel or a DM channel is stored, by guild id and kind |
| Dispatch.Sandwich.OnChannelUpdate | internal/events_dispatch.go:255-296 | as for creation; a DM channel is only replaced, and its life extended |
| Dispatch.Sandwich.OnChannelDelete | internal/events_dispatch.go:298-336 | the channel leaves its table |
| Dispatch.Sandwich.OnChannelPinsUpdate | internal/events_dispatch.go:338-366 | the pin time of a cached channel is replaced |
| Dispatch.Sandwich.OnGuildUpdate | internal/events_dispatch.go:420-478 | the update completed from the guild read, then written |
| Dispatch.Sandwich.OnGuildDelete | internal/events_dispatch.go:480-529 | only the handling group lets go of the guild, and not when it is merely unavailable |
| Dispatch.Sandwich.OnGuildEmojisUpdate | internal/events_dispatch.go:567-596 | the emoji list is replaced |
| Dispatch.Sandwich.OnGuildStickersUpdate | internal/events_dispatch.go:598-635 | the guild read is written back with new stickers, if it can be read |
| Dispatch.Sandwich.OnGuildMemberAdd | internal/events_dispatch.go:655-696 | unless suppressed, the count rises, the member is stored and the keys are swapped |
| Dispatch.Sandwich.OnGuildMemberRemove | internal/events_dispatch.go:698-748 | unless suppressed, the count falls, the member goes and the keys are swapped |
| Dispatch.Sandwich.OnGuildMemberUpdate | internal/events_dispatch.go:750-779 | the member is stored if the caching rule admits it |
| Dispatch.Sandwich.OnGuildRoleCreate | internal/events_dispatch.go:781-799 | the role is stored |
| Dispatch.Sandwich.OnGuildRoleUpdate | internal/events_dispatch.go:801-830 | the role is stored |
| Dispatch.Sandwich.OnGuildRoleDelete | internal/events_dispatch.go:832-850 | the role goes |
| Dispatch.Sandwich.OnVoiceStateUpdate | internal/events_dispatch.go:1108-1145 | with a guild the voice state is updated, without one it is removed from guild 0 |
| Dispatch.Sandwich.CacheEjector | internal/sandwich.go:467-523 | the collecting, listing and removing loops amount to one sweep against the guilds the groups hold |
| Dispatch.Sandwich.EjectDedupes | internal/sandwich.go:501-515 | the two loops remove exactly the expired dedupe keys |
| HandlerLaws.AddIsStored | internal/events_dispatch.go:655-696 | what an add leaves in every table and key; a suppressed one changes nothing and is not published |
| HandlerLaws.RemoveIsStored | internal/events_dispatch.go:698-748 | after a removal that is not suppressed the member is gone, and every other entry is as before but the count |
| HandlerLaws.MemberUpdateIsStored | internal/events_dispatch.go:750-779 | the member is cached if admitted; without guild or user it panics; nothing else changes |
| HandlerLaws.ChunkIsStored | internal/events_dispatch.go:157-227 | the last entry of each user before the first without one is cached, with its user |
| HandlerLaws.RoleIsStored | internal/events_dispatch.go:781-830 | the role is the cached one under its id, every other stays, and id 0 panics |
| HandlerLaws.RoleIsDeleted | internal/events_dispatch.go:832-850 | that role is gone and every other stays |
| HandlerLaws.EmojisAreReplaced | internal/events_dispatch.go:567-596 | the list is the guild's, and which users are stored |
| HandlerLaws.GuildChannelIsStored | internal/events_dispatch.go:229-296 | a guild channel is cached with the payload's fields and its recipients, and no other channel changes |
| HandlerLaws.DirectChannelIsStored | internal/events_dispatch.go:229-253 | a direct channel with a recipient is cached for half an hour; what changes nothing |
| HandlerLaws.DirectChannelIsReplaced | internal/events_dispatch.go:255-296 | only a cached direct channel is replaced, it keeps its user, and lives longer if it had not expired |
| HandlerLaws.ChannelIsDeleted | internal/events_dispatch.go:298-336 | the channel leaves its guild's row and no other goes |
| HandlerLaws.DirectChannelIsDeleted | internal/events_dispatch.go:298-336 | a direct channel is dropped; any other kind without a guild changes nothing |
| HandlerLaws.PinTimeIsStored | internal/events_dispatch.go:338-366 | a cached channel gets the pin time and keeps every other field, and no other changes |
| HandlerLaws.DirectPinTimeIsStored | internal/events_dispatch.go:338-366 | the same for direct channels |
| HandlerLaws.VoiceStateWithoutGuild | internal/events_dispatch.go:1108-1145 | without a guild the user's voice state leaves guild 0, and no other voice state changes |
| HandlerLaws.VoiceStateOfGuild | internal/events_dispatch.go:1108-1145 | exactly when a guild's voice update panics; it is published otherwise |
| HandlerLaws.DeleteLetsGo | internal/events_dispatch.go:480-529 | the group lets go of that guild alone, unless it is unavailable, and no table changes |
| WriteLaws.CreateIsStored | internal/events_dispatch.go:122-155 | the payload is the guild entry and the group holds it, panic or not; when it panics |
| WriteLaws.UpdateIsStored | internal/events_dispatch.go:420-478 | every field of the stored entry: the update's own, or the old guild's where the update omits it and it can be read |
| WriteLaws.UpdateRowsAreStored | internal/events_dispatch.go:420-478 | an update leaves the roles, channels and members that writing the bare update would leave |
| Dedupe.KeyGoesWhenExpired | internal/sandwich.go:501-515 | a key goes with the first sweep after its expiry and not before |
| Runs.RunKeeps | internal/events_dispatch.go:122-850 | the tables stay well formed along every run of deliveries, sweeps and group changes |
| Runs.VoiceIsNeverCached | internal/cache.go:132-141 | in every run from the empty state no voice state is cached and every head count is 0 |
| Confluence.HandleInStep | internal/events_dispatch.go:122-850 | an event does the same to its guild in two states that agree on it, and nothing to other guilds |
| Confluence.StreamsAreConfluent | internal/events_dispatch.go:122-850 | runs that give a guild the same stream agree on it at the end, however other guilds' events are interleaved |
| Confluence.ReadsAreConfluent | internal/events_dispatch.go:122-850 | hence GetGuild can return the same results for it at the end of both runs |
| GuildEvents.StickersUpdateChangesStickers | internal/events_dispatch.go:598-635 | no later read of any guild can tell anything but the new stickers |
| GuildEvents.StickersUpdateIsDroppedIff | internal/events_dispatch.go:598-635 | new stickers are dropped exactly when the guild cannot be read |
| GuildEvents.StickersAreLost | internal/events_dispatch.go:598-635 | the same guild keeps its old stickers |
| GuildEvents.UpdateKeepsWhatItOmits | internal/events_dispatch.go:420-478 | an update of any cached guild that omits channels and members changes neither, nor a voice state, and removes no role; what it writes in full |
| GuildEvents.UpdateKeepsCreateFieldsIff | internal/events_dispatch.go:430-460 | join time, size flag, an omitted count and omitted stage instances survive exactly when the guild can be read, or nothing would change |
| GuildEvents.UpdateLosesCount | internal/events_dispatch.go:430-460 | with member caching off, a created guild whose update sets the count to 0 and drops the join time |
| Chunks.ChunksOverride | internal/events_dispatch.go:157-173 | chunks override the old members and users, even with caching off |
| Chunks.OrderDoesNotMatter | internal/events_dispatch.go:157-173 | the same chunks in any order, with any repetition and any configuration, leave the same tables |
| MemberCounts.CountMovesByUsers | internal/events_dispatch.go:655-748 | within the dedupe window the count moves by the sum over users of +1, -1 or 0, by first and last delivery |
| MemberCounts.RepeatIsSuppressedIff | internal/dedupe.go:35-44 | a repeated delivery is suppressed exactly during the 60 seconds after the first |
| MemberCounts.SplitRemovalIsRightIff | internal/events_dispatch.go:712-717 | with any run between the load and the write of a removal, the count falls by one exactly when the adds and removes counted in that run cancel out |
| MemberCounts.AddInBetweenIsLost | internal/events_dispatch.go:712-717 | any add counted in between is lost |
| Ejector.HeldGuildsStayCached | internal/sandwich.go:473-499 | in every run every guild some group holds is cached |
| Ejector.SweepIsExact | internal/sandwich.go:473-499 | after a sweep the cached guilds are the held ones; an ejected guild keeps only its voice row, a kept one everything |
| Ejector.SplitSweepIsSafeIff | internal/sandwich.go:473-499 | with any run between its passes, the sweep drops no held guild exactly when that run took hold of no listed, uncollected guild and kept it |
| Ejector.LateGuildIsEjected | internal/sandwich.go:473-499 | a guild created between collection and listing is ejected although held |
| Session.GivesUpOnlyAfterWrap | internal/shard.go:858-908 | failing attempts end in giving up exactly when more of them are made than it takes the raised counter to wrap |
| Session.AttemptIs | internal/shard.go:242-419 | every field after one attempt, for each way it can end |
| Session.ReconnectKeepsSession | internal/shard.go:858-908 | the loop keeps the session; a shard comes out of it ready only by a left-over token |
| Session.ReconnectResetsRetries | internal/shard.go:858-908 | it reconnects exactly when some attempt works, and the counter is ten again |
| Session.Shard.Connect | internal/shard.go:242-419 | drains the ready token, dials or reuses the connection, and identifies or resumes by session id and sequence |
| Session.Shard.Close | internal/shard.go:777-806 | not ready, no connection, closed; the session, the token and the counter are kept |
| Session.Shard.Reconnect | internal/shard.go:858-908 | closes, then tries until an attempt works or the counter is spent; the session is kept, and readiness only comes from a token |
| Session.Shard.GatewayOpDispatch | internal/events_gateway.go:18-34 | the sequence is stored before the event is handed over |
| Session.Shard.OnDispatch | internal/events_dispatch.go:16-120 | READY stores the session, RESUMED leaves a ready token |
| Session.Shard.ReadyLoop | internal/events_dispatch.go:53-87 | messages of the loop store no sequence, a READY nested in it included; its end leaves a ready token |
| Session.Shard.GatewayOpInvalidSession | internal/events_gateway.go:76-116 | a non-resumable invalid session clears the session before reconnecting |
| SessionRuns.HandedIsGapFree | internal/shard.go:357-407 | in every run the numbers handed over for a session are 1 to a top that reaches the stored sequence |
| SessionRuns.ResumeSkipsNothing | internal/shard.go:357-407 | every Resume names the latest READY's session, not invalidated since, and a number up to which all was handed over |
| SessionRuns.InvalidSessionIsSwallowedIff | internal/events_dispatch.go:53-87 | an invalid session takes effect exactly when it does not arrive in the READY loop |
| SessionRuns.DeadSessionIsResumed | internal/events_dispatch.go:53-87 | a four-step run after which the dead session is resumed |
| SessionRuns.ReadyExactlySince | internal/shard.go:777-856 | in every run a shard is ready exactly when a READY, a RESUMED or a drained token came since it was last closed |
| SessionRuns.ClosedIsNotReady | internal/shard.go:777-806 | a step that closes the shard leaves it neither ready nor connected |
| ShardGroups.ShardGroup.Close | internal/shardgroup.go:246-269 | every shard is closed and every guild let go; the floodgate stays |
| ShardGroups.ShardGroup.TakeOver | internal/shardgroup.go:207-240 | all other groups are closed, then the own floodgate opens; the others' floodgates stay |
| ShardGroups.OnDispatch | internal/events.go:44-148 | an event is handled unless blacklisted, and published exactly when handler, floodgate and blacklist let it |
| Handover.OneRunningGroupPublishes | internal/shardgroup.go:207-240 | in every history an open floodgate means a READY on every shard, and at most one unclosed group has its floodgate open |
| Handover.OldFloodgateStaysOpen | internal/shardgroup.go:222-238 | only the new group's floodgate is open afterwards exactly when no other was open before |
| Handover.BothFloodgatesOpen | internal/shardgroup.go:222-238 | two groups of one shard whose floodgates are both open after the handover |
| Handover.WaitingIs | internal/shard.go:828-856 | a waiting group goes on exactly past a ready shard; a token it takes is gone and wakes nobody |
| Handover.TakeOverShutsOthers | internal/shardgroup.go:207-240 | in every history a handover shuts every shard of every other group and leaves the own ones alone |
| Handover.CloseShutsOne | internal/shardgroup.go:246-269 | closing a group shuts its shards and touches no other group |
| Routing.OwnedByOneShardIff | internal/manager.go:341-348 | a guild has a shard in range exactly when its id is not negative or the count divides it |
| Routing.ShardOfIs | internal/manager.go:341-348 | the id's upper bits are a multiple of the count plus the shard, which is smaller than the count and has the id's sign |
| Routing.ComputationsAgreeIff | internal/utils.go:93-101 | the two shard computations of the source agree on an id exactly under the stated condition |
| Routing.RoutePayloadToConsumer | internal/manager.go:351-373 | the shared metadata gets the virtual shard, the DM shard, or nothing but zeros |
| Routing.DirectEventReaches | internal/manager.go:351-373 | an event without a guild reaches exactly the buckets of the configured shard id |
| Routing.RoutingKeepsRealShards | internal/manager.go:351-373 | without virtual shards the real shard is kept, with them the group number is dropped |
| Routing.RouteThenOthers | internal/messaging.go:62-72 | through the shared metadata, a queued packet carries what all the routings up to its write leave |
| Routing.QueuedPacketIsRightIff | internal/messaging.go:62-72 | a queued packet is written with its own shard exactly when the last packet routed before goes to the same bucket |
| Routing.QueuedPacketIsWrong | internal/messaging.go:62-72 | two guilds of different virtual shards, the first written with the second's shard |
| Routing.GuildEventReaches | internal/msg_websocket.go:787-820 | which buckets a guild's event is sent to, for every shard count |
| Routing.InvalidatesIff | internal/msg_websocket.go:794-803 | a session is ended exactly for a guild's event at a bucket of another count that is not positive |
| Routing.OneBucketGetsGuildEvent | internal/msg_websocket.go:787-820 | when all consumers use the virtual count, a guild's event is sent to exactly the one bucket owning the guild |
| Routing.ServedExactlyIff | internal/msg_websocket.go:787-820 | a bucket gets exactly its own guilds' events only for the virtual count, or shard 0 when that count is 1 |
| Routing.GlobalEventReachesShardZero | internal/manager.go:361-363 | a globally routed event reaches exactly the buckets of shard 0 |
| Routing.ReadyListsPartition | internal/msg_websocket.go:184-203 | the READY guild lists are disjoint, and cover the cached guilds exactly when every guild has a shard in range |
| Routing.ReadyAgreesWithEvents | internal/msg_websocket.go:184-203 | READY lists a guild for the very bucket its later events go to |
| Routing.ReadyIsExactIff | internal/msg_websocket.go:184-203 | a bucket's READY list is the guilds it owns exactly when its count is the consumer count |
| Routing.RequestIsDroppedIff | internal/msg_websocket.go:543-566 | a request is dropped exactly when it names no guild and its bucket's count is not the real one |
| Routing.RequestRoundTrip | internal/msg_websocket.go:543-572 | a member request goes to the real shard owning the guild, and when its chunks come back to the asking bucket |
| Routing.RequestRoundTripUnmapped | internal/msg_websocket.go:543-572 | the same without virtual shards |
| Requests.GetShard | internal/msg_websocket.go:508-522 | the first group in the order visited that has a shard of the id, or none |
| Requests.ReachesRunningGroupIff | internal/msg_websocket.go:508-572 | a request goes through a running group in every visiting order exactly when some group has the shard id and no group with it is closed |
| Requests.RequestThroughClosedGroup | internal/msg_websocket.go:508-572 | two groups, the closed one of which may be picked |
| Routing.AcceptedBucket | internal/msg_websocket.go:381-394 | an accepted identify never has its session invalidated by publish |
| Routing.IdentifyIsRefusedIff | internal/msg_websocket.go:381-394 | an identify is refused exactly for a count or id above the consumer count |
| Subscribers.Subscriber.WriteNext | internal/msg_websocket.go:604-627 | a dispatch takes its number before it is marshalled; a frame is written if marshalling works |
| Subscribers.ChatServer.AddSubscriber | internal/msg_websocket.go:126-135 | the subscriber is appended to its bucket, in place or in a larger copy |
| Subscribers.ChatServer.DeleteSubscriber | internal/msg_websocket.go:138-150 | the bucket becomes what ranging over the shifting slice leaves; a hit is cancelled, nobody else is |
| Subscribers.CutOut | internal/msg_websocket.go:142-148 | the in-place loop leaves exactly that |
| Subscribers.DeletesAllIff | internal/msg_websocket.go:138-150 | all matches are removed exactly when there is at most one |
| Subscribers.ChatServer.Publish | internal/msg_websocket.go:787-820 | every subscriber of a bucket that gets the event has it appended to its queue, one of an impossible count its session ended, all others nothing; from the first closed one on nobody gets anything |
| Streams.RegistryIsLive | internal/msg_websocket.go:126-150 | every bucket holds its live subscribers, each exactly once, in registration order |
| Streams.OncePlacedAlways | internal/msg_websocket.go:126-150 | a subscriber has one place in the registry |
| Streams.PublishReachesAllIff | internal/msg_websocket.go:769-820 | publish gets to every subscriber it should exactly when none of them is closed and still registered |
| Streams.ClosedSubscriberCostsTheNext | internal/msg_websocket.go:769-820 | a run after which a subscriber that is not closed misses an event of its bucket |
| Streams.ViewsAreInOrder | internal/msg_websocket.go:592-627 | in every run the frames are the messages put into the queue in order, each numbered by its position even after a marshal or write failure |
| Streams.ServedIsRouted | internal/msg_websocket.go:787-820 | when no publish comes to a closed registered subscriber, every message meant for a subscriber is put into its queue |
| Streams.FramesArePrefix | internal/msg_websocket.go:592-627 | then, without marshal failures, the frames are a prefix of the routed messages with consecutive numbers and the queue the rest; a failed write costs one message and ends the writer |
| Streams.NumbersAreConsecutive | internal/msg_websocket.go:604-627 | the first dispatch carries the starting number and each next one more; every other frame carries 0 |
| Serving.StepPublish | internal/msg_websocket.go:787-820 | a publish on the objects is a step of the streams, in an order the streams allow |
| Serving.Serve | internal/msg_websocket.go:126-150 | any plan of registrations, disconnects, publishes and writes on the objects ends as the streams say |
| Ranges.ReturnRangeInt32 | internal/utils.go:37-66 | on any string the loops end despite the 32-bit counter, and give the expansion |
| Ranges.ExpandIsInRange | internal/utils.go:37-66 | only ids in [0, max) come out of any string |
| Ranges.PrintedListExpands | internal/utils.go:37-66 | a printed list of ranges parses to the concatenation of its numbers below max, in order |
| Ranges.LargestEndIsLost | internal/utils.go:37-66 | a range that ends at the largest int32 expands to nothing |
| Ranges.MiddleIsIgnored | internal/utils.go:37-66 | of several dashes only what is before the first and after the last counts |
| Ranges.BadPartIsSkipped | internal/utils.go:37-66 | a part with a number that cannot be parsed is skipped |
| Ranges.GetInitialShardCount | internal/manager.go:515-534 | the shard ids a manager starts with, all in range, and the count it keeps |
| Decimals.ParseFormat | discord/types.go:29-39 | every 64-bit integer survives printing and parsing |
| Decimals.AcceptedNumbers | discord/types.go:29-39 | what the parser accepts: an optional sign, digits, a value in 64 bits |
| Snowflakes.RoundTrip | discord/types.go:26-47 | every 64-bit id survives its JSON form |
| Snowflakes.DecodesTo | discord/types.go:26-47 | what null, an empty input, a quoted and a bare text decode to |
| Snowflakes.EncodingFitsBuffer | discord/types.go:103-111 | the encoding never outgrows its buffer |
| Snowflakes.DecodedFits | discord/types.go:26-47 | decoded values fit 64 bits, and the two types differ on null alone |

## Left out

- StreamsAreConfluent: excludes guild id 0, which the source uses for "no guild"; its channel head counts copy cached
  users into channels, so it depends on other guilds' users.
- CountMovesByUsers: excludes payloads that set another member count during the window; changes of stickers, updates
  without a count and payloads with the current count are allowed.
- GetGuildMember: timestamps and the repair of the join time are not modelled.
- GetGuild: `Lazy` and `Unavailable` marks of the shards are not modelled; they reach no table.
- SetGuild: mutual guilds and their table are not modelled.
- CountMembersForVoiceChannel: counts in unbounded integers; the source's 32-bit counter would need 2^31 users.
- Connect: heartbeats, rate limits, decompression and the wait for an identify slot; a failed write reaches nobody.
- Reconnect: reconnects started from other goroutines, and the back-off times between attempts.
- OneRunningGroupPublishes: taking over is one step, and a shard that revives after being closed is allowed.
- Publish: blocking on a full queue.
- RequestRoundTrip: speaks of shard ids; which group's shard is used, and a missing one, ReachesRunningGroupIff says.
- RequestRoundTripUnmapped: as RequestRoundTrip.
- SplitRemovalIsRightIff: excludes, between the load and the write, payloads that set another member count.
- RegistryIsLive: `CloseShard`, `StopSession` and `Close` delete while already holding the lock and so never return.
- FramesArePrefix: marshal failures are excluded here and covered by ViewsAreInOrder, a publish that comes to a closed
  subscriber by PublishReachesAllIff; raw byte frames and heartbeats carry no number and are not listed. The shard in a
  frame's metadata is not part of the frame: what it is at the time of the write, and when it is right,
  QueuedPacketIsRightIff says.
- Resuming a subscriber: the lookup compares the new session's empty id, so no real session id finds an old session.
- `publishGlobal`: the length test is on an array of three, so it is never called.
- Handlers that change no table: messages, reactions, bans, invites, threads, presences, entitlements, user updates.
- Building the `before` extras that handlers attach to events, and everything about JSON beyond integers.
- The other producers, the REST server, the dashboard, configuration, metrics, logging and tracing.
- Completion flags of guild chunking, which live in a struct copied by value.
