# Chat group hub, modelled in Dafny

This project models the in-memory hub of the Chat server. The server is a
Rust/warp WebSocket service. Users connect to one group at a time. The hub
keeps a registry of live groups. For each group it holds:

- the channel cache, kept sorted by id;
- each connection's outbound queue;
- a presence table from user to that user's open connections.

Joining a group creates it lazily, fetching its channels from storage.
Leaving removes the connection, and the group goes with its last one.
Users going online and offline are announced to the group. Each client
frame goes through a dispatcher. It checks the frame against the cache,
consults storage, may edit the cache, and queues typed events with one of
three delivery modes:

- to everyone;
- a receipt to the sender and a copy to every peer;
- to the sender only.

Renaming a group fans out to every member in every group they are online in.

The model is a sequential state machine over immutable maps and sequences.

- **Outboxes.** An outbound queue is the sequence of frames queued on it.
- **Storage.** Every database query is an oracle. The answer it would give
  (`Db<T>`: `Ok(value)` or `Failed`) is a parameter of the step. The queries
  a step makes are returned in order, so "no storage call" and "one
  persistence call after the broadcast" can be stated.
- **Other inputs.** The clock, the random generator and the message
  validator `db::valid_message` are inputs too. The validator's source is not
  part of this model, so it is an arbitrary predicate.

Modules follow the source:

- `Protocol`: wire types.
- `Strings`: name and URL validation.
- `Random`: base64url identifiers.
- `BinarySearch`: the client's search.
- `Channels`: the channel cache.
- `GroupState`: one group and its delivery primitives.
- `Registry`: connection ids, join and leave, the registry invariant.
- `UserIndex`: the cross-group rename fan-out.
- `Dispatcher`: the per-message handlers.
- `FlatHub` and `FlatDispatcher`: the earlier flat-map revision of the hub.

Presence is a map from user to the set of that user's connection ids.
`src/socket/handler.rs` iterates it that way. `src/socket/upgrade.rs` keeps
only a `u32` count per user; lemmas prove that the set sizes refine those
counts.

The registry also records, for each live connection, the user and group its
task was opened for (`Hub.sessions`). In the source that is the
`ConnectionContext` each task holds. Keeping it in the state makes "each
connection has exactly one owner" expressible.

## Model

| member | source | states |
|---|---|---|
| Registry.InitialHubInv | src/socket/upgrade.rs:11 | The empty registry with the id counter at 1 satisfies the registry invariant |
| Registry.CreateGroup | src/socket/upgrade.rs:99-111 | A group created for a first connection holds the fetched channels, that one connection with an empty queue, and its user online with that connection alone |
| Registry.JoinExisting | src/socket/upgrade.rs:113-119 | Joining a live group keeps its channels, adds exactly the new connection, and adds it to the user's presence entry |
| Registry.JoinedPresenceSize | src/socket/upgrade.rs:115-117 | For a fresh connection the user's presence after the join has one element exactly when the user had no entry before |
| Registry.JoinBroadcastsOnline | src/socket/upgrade.rs:113-119 | A fresh connection of a user with no presence entry makes every connection, the new one included, receive one Online status; otherwise no queue changes and the new queue is empty |
| Registry.Connect | src/socket/upgrade.rs:69-122 | Admission takes the next id and advances the counter. Channels are fetched iff the group is absent. A failed fetch admits nothing and changes no group. Otherwise the group is created or joined, and every other group is unchanged |
| Registry.LeaveGroup | src/socket/upgrade.rs:150-166 | Leaving removes the connection. The group is dropped iff no connection remains. A user with one connection loses the entry and the rest receive Offline; otherwise only the connection leaves the entry and no queue changes. The user must have an entry when connections remain |
| Registry.Disconnect | src/socket/upgrade.rs:144-166 | Retiring a connection ends its session and changes only its own group, removing that group exactly when the connection was its last |
| Registry.InvAllowsDisconnect | src/socket/upgrade.rs:146-158 | Under the invariant every live connection can leave without hitting either panic |
| Registry.WfPresenceDisjoint | src/socket/upgrade.rs:15-19 | In a well-formed group no connection belongs to two users |
| Registry.NextIdFresh | src/socket/upgrade.rs:11 | Under the invariant the next id is not in use by any session or group, so ids never collide |
| Registry.ShapedFrame | src/socket/upgrade.rs:96-166 | Proof helper for Registry.ConnectPreservesInv and Registry.DisconnectPreservesInv: a group stays well formed when the sessions of its own connections are unchanged |
| Registry.JoinShaped | src/socket/upgrade.rs:113-116 | Proof helper for Registry.JoinPreservesInv: adding a fresh connection to the user's presence entry keeps the group well formed |
| Registry.LeaveShaped | src/socket/upgrade.rs:155-165 | Proof helper for Registry.DisconnectPreservesInv: removing a connection that is not the last keeps the group well formed, both when the entry is dropped and when it shrinks |
| Registry.GroupWfFrame | src/socket/upgrade.rs:96-166 | Proof helper for Registry.ConnectPreservesInv and Registry.DisconnectPreservesInv: group well-formedness depends only on the sessions of the group's own connections |
| Registry.JoinedGroupWf | src/socket/upgrade.rs:113-119 | Proof helper for Registry.JoinPreservesInv: joining a live group with a fresh id keeps it well formed |
| Registry.CreatedGroupWf | src/socket/upgrade.rs:107-111 | Proof helper for Registry.CreatePreservesInv: a group created for a first connection is well formed |
| Registry.LeftGroupWf | src/socket/upgrade.rs:150-166 | Proof helper for Registry.DisconnectPreservesInv: a group that survives a leave is well formed, and the leaving user had an entry |
| Registry.OtherGroupsWf | src/socket/upgrade.rs:96-166 | Proof helper for Registry.ConnectPreservesInv and Registry.DisconnectPreservesInv: groups other than the one touched stay well formed |
| Registry.InsertGroupWf | src/socket/upgrade.rs:111 | Proof helper for Registry.InstallPreservesInv: putting back a well-formed group keeps all groups well formed |
| Registry.InstallGroupsWf | src/socket/upgrade.rs:96-122 | Proof helper for Registry.InstallPreservesInv: installing a well-formed group under a fresh connection keeps all groups well formed |
| Registry.InstallSessionsPlaced | src/socket/upgrade.rs:96-122 | Proof helper for Registry.InstallPreservesInv: installing a group that keeps its old connections and holds the new one keeps every session inside its group |
| Registry.InstallPreservesInv | src/socket/upgrade.rs:96-122 | Installing a well-formed group with the fresh id preserves the registry invariant |
| Registry.JoinPreservesInv | src/socket/upgrade.rs:113-119 | Joining a live group preserves the registry invariant |
| Registry.CreatePreservesInv | src/socket/upgrade.rs:99-111 | Creating an absent group preserves the registry invariant |
| Registry.SkipIdPreservesInv | src/socket/upgrade.rs:100-105 | Consuming an id without admitting the connection preserves the registry invariant |
| Registry.ConnectPreservesInv | src/socket/upgrade.rs:69-122 | Every admission attempt preserves the invariant: groups are non-empty, presence names live connections of their owner, sessions sit in their groups, and ids lie below the counter |
| Registry.RetireGroupsWf | src/socket/upgrade.rs:150-166 | Proof helper for Registry.DisconnectPreservesInv: removing a connection and replacing or dropping its group keeps all groups well formed |
| Registry.RetireSessionsPlaced | src/socket/upgrade.rs:150-166 | Proof helper for Registry.DisconnectPreservesInv: removing a connection and shrinking or dropping its group keeps every session inside its group |
| Registry.DisconnectPreservesInv | src/socket/upgrade.rs:144-166 | Retiring any live connection is possible and preserves the registry invariant |
| Registry.Counts | src/socket/upgrade.rs:18 | The per-user `u32` table has exactly the presence entries as keys, and every count is at least 1 when presence is coherent |
| Registry.CountJoin | src/socket/upgrade.rs:115-117 | The `u32` counter join: the user's count goes up by one from 0 when absent, every other count is kept, and the flag reports exactly the 0 to 1 transition |
| Registry.CountLeave | src/socket/upgrade.rs:159-165 | The `u32` counter leave: at 1 the entry is dropped and the flag reports the 1 to 0 transition; above 1 the count goes down by one and the flag is false; every other count is kept |
| Registry.JoinRefinesCount | src/socket/upgrade.rs:115-118 | The set-based join yields the incremented counts, and Online is sent exactly when the counter reports the 0 to 1 transition |
| Registry.CountsAfterUpdate | src/socket/upgrade.rs:115-116 | Replacing one user's presence entry changes exactly that user's count, to the new set's size |
| Registry.LeaveRefinesCount | src/socket/upgrade.rs:159-165 | The set-based leave yields the decremented counts, and Offline is sent exactly when the counter reports the 1 to 0 transition |
| Registry.PresenceIsConnectionsOfUser | src/socket/upgrade.rs:15-19 | Under the invariant a user's presence set is exactly the user's connections in the group, so the count equals their number and is never zero |
| Registry.SecondJoinOfCreator | src/socket/upgrade.rs:107-119 | A second connection of the creating user sends nothing and leaves both connections with empty queues and the user with both ids |
| Registry.SecondDeviceJoin | src/socket/upgrade.rs:96-122 | Two connections of one user to an absent group fetch channels once, never broadcast Online, and leave a count of 2 |
| Registry.ConnectCreates | src/socket/upgrade.rs:99-111 | Admission to an absent group with a successful fetch creates it |
| Registry.ConnectJoins | src/socket/upgrade.rs:113-119 | Admission to a live group joins it without a fetch |
| GroupState.SendAll | src/socket/handler.rs:129-134 | Every connection receives exactly one copy of the event; nothing else changes |
| GroupState.SendPeerReply | src/socket/handler.rs:138-148 | The origin connection receives the reply and every other connection the peer event, one each |
| GroupState.PeerReplyDegenerates | src/socket/handler.rs:138-148 | With equal events, or an origin outside the group, the split equals a send to everyone |
| GroupState.PeerReplyCounts | src/socket/handler.rs:138-148 | Counted per queue, the origin gains one reply and no peer copy, every other connection one peer copy and no reply |
| GroupState.SendReply | src/socket/handler.rs:151-154 | Only the named connection, which must exist, receives the event |
| GroupState.SendReplyError | src/socket/handler.rs:157-161 | Only the named connection receives the typed error |
| GroupState.SendToUser | src/socket/handler.rs:188-190 | Exactly the user's connections receive the frame, once each, and no other queue changes; the loop shared by `kick_user` and `send_delete_group` |
| GroupState.SendUserStatus | src/socket/handler.rs:163-176 | Every connection receives the user's status change |
| GroupState.SendUserRenamed | src/socket/handler.rs:178-184 | Every connection receives the user's new name and picture |
| GroupState.KickUser | src/socket/handler.rs:186-191 | Exactly the user's connections receive a close frame with code 4000 and reason "kick" |
| GroupState.SendDeleteGroup | src/socket/handler.rs:193-200 | Exactly the user's connections receive GroupDeleted for the group |
| Channels.SearchById | src/socket/handler.rs:118 | A hit is a real match inside the range; on a sorted cache a miss means no entry in the range has the id |
| Channels.FindChannel | src/socket/handler.rs:117-122 | A non-sentinel result indexes an entry with the id; on a sorted cache the sentinel is returned iff no entry has it |
| Channels.ContainsChannel | src/socket/handler.rs:124-126 | True only for a cached id, and on a sorted cache true iff some entry has the id |
| Channels.SortedIdsUnique | src/socket/handler.rs:117-122 | On a sorted cache an id sits at one index only |
| Channels.AppendChannel | src/socket/handler.rs:344-347 | The new entry goes last and the others keep their places |
| Channels.AppendKeepsSorted | src/socket/handler.rs:344-347 | Appending an id above every cached id keeps the cache sorted |
| Channels.RenameAt | src/socket/handler.rs:463 | Only the name at the index changes; ids and length are preserved |
| Channels.RemoveAt | src/socket/handler.rs:384 | Exactly that entry is dropped; the others keep their order |
| Channels.RenameKeepsSorted | src/socket/handler.rs:463 | Renaming keeps a sorted cache sorted |
| Channels.RemoveKeepsSorted | src/socket/handler.rs:384 | Removing keeps a sorted cache sorted, drops the removed id and keeps every other id |
| Dispatcher.CreateMessageStep | src/socket/handler.rs:257-291 | Invalid content, then an unknown channel, are each answered with one Request error and no storage call. Otherwise the sender gets a receipt and each peer the message (same timestamp and channel, sender as author), followed by exactly one persistence call, whose failure is reported |
| Dispatcher.RecentMessagesStep | src/socket/handler.rs:293-318 | An unknown channel gets one Request error and no query. Otherwise one query is made. A failure aborts with nothing sent; success sends the rows, tagged with the channel, to the sender only |
| Dispatcher.CreateChannelStep | src/socket/handler.rs:320-350 | An invalid name is rejected with no storage call. A storage clash gets NameExists with the cache unchanged. Success tells everyone and appends the entry last |
| Dispatcher.RequestChannelsStep | src/socket/handler.rs:352-361 | The sender alone receives the whole cache; no storage call |
| Dispatcher.DeleteChannelStep | src/socket/handler.rs:363-391 | A one-entry cache is refused before any lookup or query. An unknown id, or storage answering false, gets ChannelIdInvalid with no change. Success removes exactly that entry and tells everyone |
| Dispatcher.RequestOnlineStep | src/socket/handler.rs:393-406 | The sender alone receives the set of users with a presence entry |
| Dispatcher.Roster | src/socket/handler.rs:415-427 | One user per roster row, in row order, with the row's fields, Online iff the user has a presence entry |
| Dispatcher.RequestUsersStep | src/socket/handler.rs:408-434 | One roster query. A failure aborts; success sends the annotated roster to the sender only |
| Dispatcher.RenameChannelStep | src/socket/handler.rs:436-466 | An invalid name, an unknown id and a storage clash are each rejected with the cache unchanged. Success tells everyone and changes only the name at the matching index |
| Dispatcher.Install | src/socket/handler.rs:212-255 | Putting a handler's group back changes only that group's entry |
| Dispatcher.RenameGroupStep | src/socket/handler.rs:468-512 | Name, then picture, then a storage clash are each rejected to the sender only. On success the member query follows, and every connection receives one GroupRenamed per member the index routes to it. Only queues change |
| Dispatcher.Route | src/socket/handler.rs:229-248 | No handler changes which groups exist, their connections or their presence |
| Dispatcher.Handle | src/socket/handler.rs:213-255 | A non-text frame changes nothing. A frame that does not decode gets one Request/Json error. After a storage error the sender's last queued frame is Application/Database. Connections and presence never change |
| Dispatcher.StorageErrorRepliesOnly | src/socket/handler.rs:250-254 | A storage error in any handler other than message creation sends exactly one Application/Database error, to the sender only |
| Dispatcher.FailedRouteChangesNothing | src/socket/handler.rs:229-248 | Every handler except message creation returns a storage error before queueing anything or editing the cache |
| Dispatcher.PersistErrorFollowsBroadcast | src/socket/handler.rs:288-290 | A failed persistence comes after the broadcast: peers keep their copy and the sender gets the receipt, then the error |
| Dispatcher.RosterOnlineIsPresence | src/socket/handler.rs:415-420 | The users listed Online are exactly the roster users with a presence entry |
| Dispatcher.CreateChannelKeepsSorted | src/socket/handler.rs:344-347 | A created channel whose id exceeds the cached ids keeps the cache sorted |
| Dispatcher.DeleteAndRenameKeepSorted | src/socket/handler.rs:384-463 | On a sorted cache a successful delete keeps it sorted, removes the id and keeps every other id; a rename keeps it sorted |
| Dispatcher.SenderOf | src/socket/upgrade.rs:135-140 | The message context of a live connection carries its session's user and group |
| Dispatcher.HandlePreservesInv | src/socket/handler.rs:213-255 | Dispatching any frame preserves the registry invariant |
| Dispatcher.InvLocatesSender | src/socket/handler.rs:223-224 | Under the invariant the sender's group is live and holds the sender, so the handlers' indexing does not panic |
| UserIndex.Repeat | src/socket/handler.rs:500-509 | Proof helper for UserIndex.FanOut: the sequence holds exactly n copies of the frame |
| UserIndex.RepeatAdd | src/socket/handler.rs:500-509 | Proof helper for UserIndex.FanOut: a copies then b copies are a + b copies |
| UserIndex.NotifyUser | src/socket/handler.rs:501-507 | For one member, each of that user's connections in each indexed group receives the frame once; nothing else changes |
| UserIndex.OutboxesOnlyKeepsIndex | src/socket/handler.rs:498-509 | Changing queues only keeps the index sound and complete and presence coherent |
| UserIndex.FanOut | src/socket/handler.rs:498-509 | Every connection receives the frame once per member the index routes to it, and only queues change |
| UserIndex.FanOutStep | src/socket/handler.rs:500-509 | Proof helper for UserIndex.FanOut: one more member adds that member's hits to the rest's |
| UserIndex.AppendOneMore | src/socket/handler.rs:500-505 | Proof helper for UserIndex.FanOut: a conditional copy followed by n copies is n copies, plus one when the condition holds |
| UserIndex.HitsOfOwner | src/socket/handler.rs:500-509 | A connection owned by one user whose group is indexed is hit once when the owner is on a distinct roster, otherwise not at all |
| UserIndex.FanOutReachesOwnerOnce | src/socket/handler.rs:498-509 | With a complete index and disjoint presence, a connection receives GroupRenamed once iff its owner is a member |
| UserIndex.FanOutSkipsUnowned | src/socket/handler.rs:504-505 | A connection no online user owns receives nothing |
| UserIndex.HitsNone | src/socket/handler.rs:504-505 | A connection no user owns is never hit |
| Strings.Utf8Width | src/database/strings.rs:10 | Every scalar takes 1 to 4 bytes, and 1 exactly when it is ASCII |
| Strings.Utf8Len | src/database/strings.rs:10 | Byte length lies between the character count and four times it, and equals the count iff the string is ASCII |
| Strings.ScanChannelChars | src/database/strings.rs:14-24 | The character loop accepts iff there are at most 32 characters and none from its start on is `#`, `@` or whitespace |
| Strings.ValidChannelName | src/database/strings.rs:5-27 | A name is valid iff it is non-empty, has at most 32 characters and none is `#`, `@` or whitespace; the byte check never decides |
| Strings.ValidGroupName | src/database/strings.rs:29-37 | A name is valid iff it has 1 to 32 characters |
| Strings.ValidUrl | src/database/strings.rs:41-43 | A valid URL has at most 2048 characters, every shorter one is valid, and at exactly 2048 the strict 8192-byte bound decides |
| Strings.EmptyUrlAccepted | src/database/strings.rs:41-43 | The empty URL is valid |
| Strings.Utf8LenRepeat | src/database/strings.rs:42 | n copies of a character take n times its width |
| Strings.FourByteUrlBoundary | src/database/strings.rs:42 | 2048 four-byte characters are rejected by the strict byte bound; 2047 are accepted |
| Strings.FourByteChannelNameAccepted | src/database/strings.rs:10-20 | 32 four-byte characters form a valid channel name; 33 characters never do |
| Random.Base64UrlByte | src/utils/random.rs:11-22 | Each draw maps to an ASCII byte |
| Random.MatchesRfc4648Table | src/utils/random.rs:11-22 | Each draw maps to the entry of the base64url table of section 5 of RFC 4648 |
| Random.AlphabetRoundTrip | src/utils/random.rs:11-22 | Decoding the written byte gives back the draw |
| Random.Base64UrlByteInjective | src/utils/random.rs:11-22 | Distinct draws give distinct bytes |
| Random.GenerateRandomBase64url | src/utils/random.rs:6-23 | The output has exactly `length` bytes, and byte i is the mapping of draw i alone |
| Random.GeneratedIsAscii | src/utils/random.rs:25-27 | Every generated byte is ASCII from the base64url alphabet, so the unchecked conversion gives a string of the same byte length |
| BinarySearch.UnsignedShiftRight1 | client/src/assets/js/binarySearch.js:3 | On a 32-bit unsigned operand `>>> 1` halves it |
| BinarySearch.Middle | client/src/assets/js/binarySearch.js:3 | The probe lies in `[begin, end)` |
| BinarySearch.BinarySearchImpl | client/src/assets/js/binarySearch.js:1-12 | Terminates with a result in `[begin, end]` that is a match or a local insertion point, for any comparator returning a number other than NaN |
| BinarySearch.Search | client/src/assets/js/binarySearch.js:14-16 | The result lies in `[0, length]`, and is 0 on an empty array |
| BinarySearch.SearchFindsInsertionPoint | client/src/assets/js/binarySearch.js:1-16 | On a sorted array with no match, everything before the result compares positive and everything from it on compares negative |
| BinarySearch.SearchFindsMatch | client/src/assets/js/binarySearch.js:1-16 | On a sorted array that holds a match, the result is a match |
| FlatHub.InitialFlatInv | src/handlers/socket.rs:9 | The empty map with the counter at 1 satisfies the id invariant |
| FlatHub.PeerSplit | src/handlers/socket.rs:143-151 | The origin receives the reply and every other connection the peer event, one each; the key set is unchanged |
| FlatHub.Connected | src/handlers/socket.rs:24-46 | Connecting takes the counter's id, advances it, and inserts exactly that id with an empty queue |
| FlatHub.Disconnected | src/handlers/socket.rs:70-73 | Disconnecting removes exactly that id and keeps every other queue |
| FlatHub.ConnectedIsFresh | src/handlers/socket.rs:25 | Under the invariant the new id is not live, so no queue is overwritten |
| FlatHub.DisconnectedPreservesInv | src/handlers/socket.rs:70-73 | Disconnecting preserves the id invariant |
| FlatHub.SuccessiveIdsIncrease | src/handlers/socket.rs:9-25 | Two successive connections get increasing ids, both at least 1, both live |
| FlatHub.ParseClientMessage | src/handlers/socket.rs:103-118 | Content is returned iff the frame is a send. An undecodable frame queues one error for the sender, only if it is still in the map. Nothing else changes |
| FlatHub.MessageReceived | src/handlers/socket.rs:120-151 | A non-text frame changes nothing. A send gives the sender MessageSent and every other connection NewMessage with the content, the sender's id and the same timestamp |
| FlatHub.MessageReceivedPreservesInv | src/handlers/socket.rs:120-151 | No frame changes which connections are live |
| FlatHub.OneEventPerFrame | src/handlers/socket.rs:103-151 | Each queue keeps its prefix and gains at most one event per frame |
| FlatDispatcher.ReplyTo | src/handlers/socket/handler.rs:68-78 | A reply reaches the sender only, and only if it is still in the map |
| FlatDispatcher.Broadcast | src/handlers/socket/handler.rs:129-135 | The sender receives the receipt and every other connection the message, one each, with the key set unchanged |
| FlatDispatcher.Tagged | src/handlers/socket/handler.rs:146-155 | One message per row, in row order, each carrying the requested channel |
| FlatDispatcher.PostMessageAsWritten | src/handlers/socket/handler.rs:103-137 | The channel check comes first, and its storage error ends the step. Otherwise persistence always follows, whatever the check said, and its failure is reported |
| FlatDispatcher.RejectedChannelStillBroadcast | src/handlers/socket/handler.rs:110-136 | As written, a rejected channel gets the error and the receipt, every peer still gets the message, and it is stored |
| FlatDispatcher.PostMessage | src/handlers/socket/handler.rs:103-137 | A rejected channel gets only the error, with no broadcast and no persistence. A valid one gives the sender the receipt and every peer the message, then one persistence call |
| FlatDispatcher.PostMessageAgreesOnValidChannels | src/handlers/socket/handler.rs:103-137 | The corrected and as-written handlers agree unless storage rejects the channel |
| FlatDispatcher.RecentMessagesAsWritten | src/handlers/socket/handler.rs:139-160 | The channel check comes first, and its storage error ends the step. Otherwise the fetch always follows, whatever the check said: on a rejected channel the sender is first sent the error; then a failed fetch is returned as the error and a successful one sends the sender the tagged rows |
| FlatDispatcher.RejectedChannelStillFetched | src/handlers/socket/handler.rs:140-157 | As written, a rejected channel is still fetched, and the sender gets the error followed by the list |
| FlatDispatcher.RecentMessages | src/handlers/socket/handler.rs:139-160 | A rejected channel gets only the error and no fetch. A valid one fetches once, and the tagged rows go to the sender, or a fetch error is returned |
| FlatDispatcher.RecentMessagesAgreesOnValidChannels | src/handlers/socket/handler.rs:139-160 | The corrected and as-written handlers agree unless storage rejects the channel |
| FlatDispatcher.HandleError | src/handlers/socket/handler.rs:86-101 | A non-text frame does nothing and an undecodable one returns its error. A post or a recent-messages request queries the channel first and makes its second query exactly when that query succeeds, whatever it answered. Nothing changes the connection set |
| FlatDispatcher.HandleErrorFixed | src/handlers/socket/handler.rs:86-101 | The same routing over the corrected handlers: the second query is made exactly when storage accepts the channel |
| FlatDispatcher.Handle | src/handlers/socket/handler.rs:80-84 | A returned error is sent as one error reply to the sender, after whatever the handler queued, and only if the sender is in the map |
| FlatDispatcher.HandleFixed | src/handlers/socket/handler.rs:80-84 | `handle` over the corrected handlers: non-text frames are ignored and a decode error goes to the sender alone |
| FlatDispatcher.FixedAgreesUnlessRejected | src/handlers/socket/handler.rs:80-137 | The corrected and as-written programs handle every frame alike unless storage rejects its channel; on a rejected post the corrected one queues only the error while the one as written still stores the message |
| FlatDispatcher.AbsentSenderGetsNothing | src/handlers/socket/handler.rs:68-84 | With the sender gone, the map changes only when a post reaches peers |
| FlatDispatcher.StorageErrorRepliesOnly | src/handlers/socket/handler.rs:80-84 | A storage error on the channel check is answered with its text alone |

## Left out

- Concurrency. The tokio locks, the queue-forwarding tasks, the unbounded channels and the atomic counter are not modelled. Join, leave and each handler are one atomic step. The write lock held across the channel fetch is what makes this faithful.
- HTTP and WebSocket plumbing: session and membership lookups and `on_upgrade` (src/socket/upgrade.rs:45-73), and the read loop. The WebSocket code under src/handlers/socket/ other than handler.rs only inserts and removes map entries around I/O. It is not part of this model.
- Serialisation and time. serde JSON is replaced by event datatypes, and a decode result is an input. `SystemTime` and `as_timestamp` are replaced by a natural-number input.
- SQL. Every query in src/database is an oracle answer. The text a storage error renders to is also an input.
- Send failures. A send to a closed queue is ignored in the source. The model always appends to the queue.
- The `usize` id counters never wrap in the model. Wrapping would take 2^64 connections.
- Registry.JoinExisting: the `u32` presence counter is modelled by set sizes without overflow at 2^32. Overflow would need that many connections of one user.
- Dispatcher.RequestOnlineStep: the online list is a set. The order a `HashMap` iterates in is not modelled.
- Channels.SearchById: this is a standard half-open binary search. It stands in for Rust's `binary_search_by`, whose code is not part of this model. Only its documented contract is relied on: a hit is a match, and on a sorted slice a miss is conclusive.
- Channels.FindChannel: requires fewer than `usize::MAX` entries, the bound a `Vec` obeys. The cache being sorted by id is a precondition of completeness, not a proved invariant. `db::group_channels` has no `ORDER BY`, and `create_channel` appends whatever id storage returns. Dispatcher.CreateChannelKeepsSorted states what keeps it sorted.
- UserIndex.FanOut: `UserGroups` is imported by src/socket/handler.rs:7 from `upgrade.rs`, which does not define it, and the code that maintains it is not part of this model. It is a map from user to group ids, assumed sound with respect to presence. Completeness is assumed only where exactly-once delivery is stated.
- `char::is_whitespace` is library code that is not part of this model. Strings.IsWhitespace stands in for it with Unicode's White_Space property, spelled out code point by code point.
- GroupState.KickUser, GroupState.SendDeleteGroup: require the user to be online in the group, since the source panics otherwise. Their callers are not part of this model.
- BinarySearch.BinarySearchImpl: the comparator returns an integer. A JavaScript comparator may return NaN or `undefined`; then neither `order < 0` nor `order > 0` holds and the probe is returned as a match, which is neither a match nor an insertion point. That case is not modelled.
- Random.GenerateRandomBase64url: the generator's draws are an input sequence. Whether the draws are uniform and unpredictable is not modelled.

## Findings

| source | as written | input that shows it | evidently intended | confidence | as-written member | corrected member |
|---|---|---|---|---|---|---|
| src/handlers/socket/handler.rs:110-112 | After replying "Invalid channel_id" the post handler does not return. It goes on to broadcast the message and store it | storage answers `false` for the channel of a post, with the sender and one peer connected | Stop after the error reply, as the later dispatcher does at src/socket/handler.rs:271-274 | high, not executed | FlatDispatcher.RejectedChannelStillBroadcast | FlatDispatcher.PostMessage |
| src/handlers/socket/handler.rs:140-142 | After replying "Invalid channel_id" the recent-messages handler does not return. It still fetches and sends the list | storage answers `false` for the requested channel, with the sender connected | Stop after the error reply, as src/socket/handler.rs:299-302 does | high, not executed | FlatDispatcher.RejectedChannelStillFetched | FlatDispatcher.RecentMessages |
