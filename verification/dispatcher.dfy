/**
 * The per-message dispatcher of a live connection (src/socket/handler.rs,
 * `MessageContext`). Each handler is one atomic step on the registry: it
 * reads the sender's group, may ask storage, may edit the channel cache, and
 * queues typed events. Storage is an oracle: the answer each query would
 * give is a parameter, and the queries a step makes are returned in order,
 * so "no storage call" and "one persistence call after the broadcast" can
 * be stated.
 */
module Dispatcher {
  import opened Protocol
  import opened GroupState
  import opened Channels
  import opened UserIndex
  import Strings
  import Registry

  /** Who sent the frame: `MessageContext` without its shared references. */
  datatype MessageContext = MessageContext(userId: UserID, groupId: GroupID, connId: ConnID)

  /** One storage query, with the arguments the handler passes. */
  datatype StorageCall =
    | CreateMessageCall(timestamp: Timestamp, author: UserID, content: string, channelId: ChannelID)
    | RecentMessagesCall(channelId: ChannelID)
    | CreateChannelCall(groupId: GroupID, name: string)
    | DeleteChannelCall(channelId: ChannelID)
    | GroupUsersCall(groupId: GroupID)
    | RenameChannelCall(groupId: GroupID, channelId: ChannelID, name: string)
    | RenameGroupCall(groupId: GroupID, name: string, picture: string)
    | GroupUserIdsCall(groupId: GroupID)

  /** The answer storage would give to each kind of query. */
  datatype Storage = Storage(
    createMessage: Db<()>,
    recentMessages: Db<seq<MessageRow>>,
    createChannel: Db<Option<ChannelID>>,
    deleteChannel: Db<bool>,
    groupUsers: Db<seq<UserRow>>,
    renameChannel: Db<bool>,
    renameGroup: Db<bool>,
    groupUserIds: Db<seq<UserID>>)

  /**
   * What a handler did to its group: the new group, the storage queries it
   * made, and whether it returned a storage error.
   */
  datatype Outcome = Outcome(group: Group, calls: seq<StorageCall>, failed: bool)

  /** What one dispatched frame did to the registry. */
  datatype Dispatch = Dispatch(groups: map<GroupID, Group>, calls: seq<StorageCall>, failed: bool)

  /** Connections and presence are untouched (the cache and outboxes may change). */
  ghost predicate SameShape(before: Group, after: Group) {
    && after.connections.Keys == before.connections.Keys
    && after.onlineUsers == before.onlineUsers
  }

  /** The handler answered the sender with one error and changed nothing else. */
  ghost predicate Rejected(g: Group, o: Outcome, conn: ConnID, category: ErrorCategory, code: ErrorCode) {
    && RepliedOnly(g, o.group, conn, Text(Error(category, code)))
    && !o.failed
  }

  /** The handler stopped on a storage error before sending anything. */
  ghost predicate Aborted(g: Group, o: Outcome) {
    o.group == g && o.failed
  }

  /** Every connection received `f`; the cache may differ. */
  ghost predicate Broadcast(g: Group, after: Group, f: Frame) {
    DeliveredToAll(g, after.(channels := g.channels), f)
  }

  // ---------------------------------------------------------------------
  // Handlers on the sender's group
  // ---------------------------------------------------------------------

  /**
   * `create_message`: content check, then channel check, each answered
   * with a Request error and nothing else; otherwise the receipt to the
   * sender and the message to every peer, then one persistence call.
   */
  function CreateMessageStep(g: Group, ctx: MessageContext, content: string, channelId: ChannelID,
                             now: Timestamp, validMessage: string -> bool, answer: Db<()>): (o: Outcome)
    requires ctx.connId in g.connections && |g.channels| < UsizeMax
    ensures !validMessage(content) ==>
      o.calls == [] && Rejected(g, o, ctx.connId, Request, MessageInvalid)
    ensures validMessage(content) && o.calls == [] ==>
      && Rejected(g, o, ctx.connId, Request, ChannelIdInvalid)
      && (SortedById(g.channels) ==> !HasChannel(g.channels, channelId))
    ensures o.calls != [] ==>
      && validMessage(content) && HasChannel(g.channels, channelId)
      && o.calls == [CreateMessageCall(now, ctx.userId, content, channelId)]
      && PeerReplied(g, o.group, ctx.connId,
                     Text(RecentMessage(now, ctx.userId, content, channelId)),
                     Text(MessageReceipt(now, channelId)))
      && (o.failed <==> answer.Failed?)
    ensures validMessage(content) && SortedById(g.channels) && HasChannel(g.channels, channelId) ==>
      o.calls != []
  {
    if !validMessage(content) then
      Outcome(SendReplyError(g, ctx.connId, Request, MessageInvalid), [], false)
    else if !ContainsChannel(g.channels, channelId) then
      Outcome(SendReplyError(g, ctx.connId, Request, ChannelIdInvalid), [], false)
    else
      var peer := RecentMessage(now, ctx.userId, content, channelId);
      var echo := MessageReceipt(now, channelId);
      Outcome(SendPeerReply(g, ctx.connId, peer, echo),
              [CreateMessageCall(now, ctx.userId, content, channelId)],
              answer.Failed?)
  }

  /**
   * `request_recent_messages`: an unknown channel is answered with a
   * Request error; otherwise one query, whose rows go back to the sender
   * in order, tagged with the requested channel.
   */
  function RecentMessagesStep(g: Group, ctx: MessageContext, channelId: ChannelID,
                              answer: Db<seq<MessageRow>>): (o: Outcome)
    requires ctx.connId in g.connections && |g.channels| < UsizeMax
    ensures o.calls == [] ==>
      && Rejected(g, o, ctx.connId, Request, ChannelIdInvalid)
      && (SortedById(g.channels) ==> !HasChannel(g.channels, channelId))
    ensures o.calls != [] ==>
      && HasChannel(g.channels, channelId)
      && o.calls == [RecentMessagesCall(channelId)]
      && (answer.Failed? ==> Aborted(g, o))
      && (answer.Ok? ==>
            && RepliedOnly(g, o.group, ctx.connId, Text(RecentMessageList(channelId, answer.value)))
            && !o.failed)
    ensures SortedById(g.channels) && HasChannel(g.channels, channelId) ==> o.calls != []
  {
    if !ContainsChannel(g.channels, channelId) then
      Outcome(SendReplyError(g, ctx.connId, Request, ChannelIdInvalid), [], false)
    else
      var calls := [RecentMessagesCall(channelId)];
      match answer
      case Failed => Outcome(g, calls, true)
      case Ok(rows) => Outcome(SendReply(g, ctx.connId, RecentMessageList(channelId, rows)), calls, false)
  }

  /**
   * `create_channel`: an invalid name is rejected without a storage call;
   * storage reporting a clash leaves the cache alone; on success everyone
   * is told and the new entry is appended last.
   */
  function CreateChannelStep(g: Group, ctx: MessageContext, name: string,
                             answer: Db<Option<ChannelID>>): (o: Outcome)
    requires ctx.connId in g.connections
    ensures SameShape(g, o.group)
    ensures !Strings.ValidChannelName(name) ==>
      o.calls == [] && Rejected(g, o, ctx.connId, ChannelCreate, NameInvalid)
    ensures Strings.ValidChannelName(name) ==>
      && o.calls == [CreateChannelCall(ctx.groupId, name)]
      && (answer.Failed? ==> Aborted(g, o))
      && (answer == Ok(None) ==> Rejected(g, o, ctx.connId, ChannelCreate, NameExists))
      && (answer.Ok? && answer.value.Some? ==>
            var id := answer.value.value;
            && !o.failed
            && o.group.channels == g.channels + [Channel(id, name)]
            && Broadcast(g, o.group, Text(ChannelCreated(id, name))))
  {
    if !Strings.ValidChannelName(name) then
      Outcome(SendReplyError(g, ctx.connId, ChannelCreate, NameInvalid), [], false)
    else
      var calls := [CreateChannelCall(ctx.groupId, name)];
      match answer
      case Failed => Outcome(g, calls, true)
      case Ok(None) => Outcome(SendReplyError(g, ctx.connId, ChannelCreate, NameExists), calls, false)
      case Ok(Some(id)) =>
        var told := SendAll(g, ChannelCreated(id, name));
        Outcome(told.(channels := AppendChannel(told.channels, Channel(id, name))), calls, false)
  }

  /** `request_channels`: the whole cache, in cache order, to the sender. */
  function RequestChannelsStep(g: Group, ctx: MessageContext): (o: Outcome)
    requires ctx.connId in g.connections
    ensures o.calls == [] && !o.failed
    ensures RepliedOnly(g, o.group, ctx.connId, Text(ChannelList(g.channels)))
  {
    Outcome(SendReply(g, ctx.connId, ChannelList(g.channels)), [], false)
  }

  /**
   * `delete_channel`: the last channel cannot go; an id missing from the
   * cache or from storage is rejected; on success exactly that entry leaves
   * the cache and everyone is told.
   */
  function DeleteChannelStep(g: Group, ctx: MessageContext, channelId: ChannelID,
                             answer: Db<bool>): (o: Outcome)
    requires ctx.connId in g.connections && |g.channels| < UsizeMax
    ensures SameShape(g, o.group)
    ensures |g.channels| == 1 ==>
      o.calls == [] && Rejected(g, o, ctx.connId, ChannelDelete, LoneChannel)
    ensures |g.channels| != 1 && o.calls == [] ==>
      && Rejected(g, o, ctx.connId, Request, ChannelIdInvalid)
      && (SortedById(g.channels) ==> !HasChannel(g.channels, channelId))
    ensures o.calls != [] ==>
      && |g.channels| != 1
      && o.calls == [DeleteChannelCall(channelId)]
      && (answer.Failed? ==> Aborted(g, o))
      && (answer == Ok(false) ==> Rejected(g, o, ctx.connId, Request, ChannelIdInvalid))
      && (answer == Ok(true) ==>
            && !o.failed
            && (exists i :: 0 <= i < |g.channels| && g.channels[i].channelId == channelId &&
                  o.group.channels == RemoveAt(g.channels, i))
            && Broadcast(g, o.group, Text(ChannelDeleted(channelId))))
    ensures |g.channels| != 1 && SortedById(g.channels) && HasChannel(g.channels, channelId) ==>
      o.calls != []
  {
    if |g.channels| == 1 then
      Outcome(SendReplyError(g, ctx.connId, ChannelDelete, LoneChannel), [], false)
    else
      var index := FindChannel(g.channels, channelId);
      if index == UsizeMax then
        Outcome(SendReplyError(g, ctx.connId, Request, ChannelIdInvalid), [], false)
      else
        var calls := [DeleteChannelCall(channelId)];
        match answer
        case Failed => Outcome(g, calls, true)
        case Ok(false) => Outcome(SendReplyError(g, ctx.connId, Request, ChannelIdInvalid), calls, false)
        case Ok(true) =>
          var removed := g.(channels := RemoveAt(g.channels, index));
          Outcome(SendAll(removed, ChannelDeleted(channelId)), calls, false)
  }

  /** `request_online`: the users with a presence entry, to the sender. */
  function RequestOnlineStep(g: Group, ctx: MessageContext): (o: Outcome)
    requires ctx.connId in g.connections
    ensures o.calls == [] && !o.failed
    ensures RepliedOnly(g, o.group, ctx.connId, Text(OnlineUserList(g.onlineUsers.Keys)))
  {
    Outcome(SendReply(g, ctx.connId, OnlineUserList(g.onlineUsers.Keys)), [], false)
  }

  /** The roster annotated with presence, one entry per row, in row order. */
  function Roster(rows: seq<UserRow>, online: map<UserID, set<ConnID>>): (users: seq<User>)
    ensures |users| == |rows|
    ensures forall i :: 0 <= i < |rows| ==>
      && users[i].userId == rows[i].userId
      && users[i].name == rows[i].name
      && users[i].picture == rows[i].picture
      && (users[i].status == Online <==> rows[i].userId in online)
  {
    if |rows| == 0 then []
    else
      var row := rows[0];
      var status := if row.userId in online then Online else Offline;
      [User(row.userId, row.name, row.picture, status)] + Roster(rows[1..], online)
  }

  /** `request_users`: one roster query; the annotated roster goes to the sender. */
  function RequestUsersStep(g: Group, ctx: MessageContext, answer: Db<seq<UserRow>>): (o: Outcome)
    requires ctx.connId in g.connections
    ensures o.calls == [GroupUsersCall(ctx.groupId)]
    ensures answer.Failed? ==> Aborted(g, o)
    ensures answer.Ok? ==>
      && !o.failed
      && RepliedOnly(g, o.group, ctx.connId, Text(UserList(Roster(answer.value, g.onlineUsers))))
  {
    var calls := [GroupUsersCall(ctx.groupId)];
    match answer
    case Failed => Outcome(g, calls, true)
    case Ok(rows) => Outcome(SendReply(g, ctx.connId, UserList(Roster(rows, g.onlineUsers))), calls, false)
  }

  /**
   * `rename_channel`: an invalid name, an unknown id and a storage clash
   * are each rejected with the cache unchanged; on success everyone is
   * told and only the name at the matching index changes.
   */
  function RenameChannelStep(g: Group, ctx: MessageContext, channelId: ChannelID, name: string,
                             answer: Db<bool>): (o: Outcome)
    requires ctx.connId in g.connections && |g.channels| < UsizeMax
    ensures SameShape(g, o.group)
    ensures !Strings.ValidChannelName(name) ==>
      o.calls == [] && Rejected(g, o, ctx.connId, ChannelRename, NameInvalid)
    ensures Strings.ValidChannelName(name) && o.calls == [] ==>
      && Rejected(g, o, ctx.connId, Request, ChannelIdInvalid)
      && (SortedById(g.channels) ==> !HasChannel(g.channels, channelId))
    ensures o.calls != [] ==>
      && Strings.ValidChannelName(name)
      && o.calls == [RenameChannelCall(ctx.groupId, channelId, name)]
      && (answer.Failed? ==> Aborted(g, o))
      && (answer == Ok(false) ==> Rejected(g, o, ctx.connId, ChannelRename, NameExists))
      && (answer == Ok(true) ==>
            && !o.failed
            && (exists i :: 0 <= i < |g.channels| && g.channels[i].channelId == channelId &&
                  o.group.channels == g.channels[i := Channel(channelId, name)])
            && Broadcast(g, o.group, Text(ChannelRenamed(channelId, name))))
    ensures Strings.ValidChannelName(name) && SortedById(g.channels) && HasChannel(g.channels, channelId) ==>
      o.calls != []
  {
    if !Strings.ValidChannelName(name) then
      Outcome(SendReplyError(g, ctx.connId, ChannelRename, NameInvalid), [], false)
    else
      var index := FindChannel(g.channels, channelId);
      if index == UsizeMax then
        Outcome(SendReplyError(g, ctx.connId, Request, ChannelIdInvalid), [], false)
      else
        var calls := [RenameChannelCall(ctx.groupId, channelId, name)];
        match answer
        case Failed => Outcome(g, calls, true)
        case Ok(false) => Outcome(SendReplyError(g, ctx.connId, ChannelRename, NameExists), calls, false)
        case Ok(true) =>
          var told := SendAll(g, ChannelRenamed(channelId, name));
          Outcome(told.(channels := RenameAt(told.channels, index, name)), calls, false)
  }

  // ---------------------------------------------------------------------
  // The registry-wide handler and the entry point
  // ---------------------------------------------------------------------

  /** `after` differs from `before` at most in group `gid`. */
  ghost predicate OnlyGroup(before: map<GroupID, Group>, after: map<GroupID, Group>, gid: GroupID) {
    && after.Keys == before.Keys
    && forall other :: other in before && other != gid ==> after[other] == before[other]
  }

  /** Put a handler's group back into the registry. */
  function Install(groups: map<GroupID, Group>, gid: GroupID, o: Outcome): (d: Dispatch)
    requires gid in groups
    ensures OnlyGroup(groups, d.groups, gid) && d.groups[gid] == o.group
    ensures d.calls == o.calls && d.failed == o.failed
  {
    Dispatch(groups[gid := o.group], o.calls, o.failed)
  }

  /**
   * `rename_group`: name check, picture check, then the rename query
   * (a clash is rejected); then the member list, each member's connections
   * in every group the index lists for them receiving `GroupRenamed`.
   */
  function RenameGroupStep(groups: map<GroupID, Group>, ctx: MessageContext, name: string, picture: string,
                           renamed: Db<bool>, members: Db<seq<UserID>>, ug: UserGroups): (d: Dispatch)
    requires ctx.groupId in groups && ctx.connId in groups[ctx.groupId].connections
    requires IndexSound(groups, ug) && AllPresenceWithin(groups)
    ensures OutboxesOnly(groups, d.groups)
    ensures var gid, conn := ctx.groupId, ctx.connId;
      !Strings.ValidGroupName(name) ==>
        && d.calls == [] && !d.failed && OnlyGroup(groups, d.groups, gid)
        && RepliedOnly(groups[gid], d.groups[gid], conn, Text(Error(GroupRename, NameInvalid)))
    ensures var gid, conn := ctx.groupId, ctx.connId;
      Strings.ValidGroupName(name) && !Strings.ValidUrl(picture) ==>
        && d.calls == [] && !d.failed && OnlyGroup(groups, d.groups, gid)
        && RepliedOnly(groups[gid], d.groups[gid], conn, Text(Error(GroupRename, PictureInvalid)))
    ensures var gid, conn := ctx.groupId, ctx.connId;
      Strings.ValidGroupName(name) && Strings.ValidUrl(picture) ==>
        && |d.calls| >= 1 && d.calls[0] == RenameGroupCall(gid, name, picture)
        && (renamed.Failed? ==> d.groups == groups && d.failed && |d.calls| == 1)
        && (renamed == Ok(false) ==>
              && |d.calls| == 1 && !d.failed && OnlyGroup(groups, d.groups, gid)
              && RepliedOnly(groups[gid], d.groups[gid], conn, Text(Error(GroupRename, NameExists))))
        && (renamed == Ok(true) ==>
              && d.calls == [RenameGroupCall(gid, name, picture), GroupUserIdsCall(gid)]
              && (members.Failed? ==> d.groups == groups && d.failed)
              && (members.Ok? ==>
                    && !d.failed
                    && d.groups == FanOut(groups, ug, members.value, Text(GroupRenamed(gid, name, picture)))))
  {
    var gid, conn := ctx.groupId, ctx.connId;
    if !Strings.ValidGroupName(name) then
      Install(groups, gid, Outcome(SendReplyError(groups[gid], conn, GroupRename, NameInvalid), [], false))
    else if !Strings.ValidUrl(picture) then
      Install(groups, gid, Outcome(SendReplyError(groups[gid], conn, GroupRename, PictureInvalid), [], false))
    else
      var call := RenameGroupCall(gid, name, picture);
      match renamed
      case Failed => Dispatch(groups, [call], true)
      case Ok(false) =>
        Install(groups, gid, Outcome(SendReplyError(groups[gid], conn, GroupRename, NameExists), [call], false))
      case Ok(true) =>
        var calls := [call, GroupUserIdsCall(gid)];
        match members
        case Failed => Dispatch(groups, calls, true)
        case Ok(users) => Dispatch(FanOut(groups, ug, users, Text(GroupRenamed(gid, name, picture))), calls, false)
  }

  /** What the sender's group and the index must satisfy for `Handle` not to panic. */
  ghost predicate CanHandle(groups: map<GroupID, Group>, ctx: MessageContext, inbound: Inbound, ug: UserGroups) {
    && ctx.groupId in groups
    && ctx.connId in groups[ctx.groupId].connections
    && |groups[ctx.groupId].channels| < UsizeMax
    && (inbound.TextFrame? && inbound.decoded.Some? && inbound.decoded.value.RenameGroup? ==>
          IndexSound(groups, ug) && AllPresenceWithin(groups))
  }

  /** Run the handler for one decoded message. */
  function Route(groups: map<GroupID, Group>, ctx: MessageContext, m: ClientMessage, db: Storage,
                 now: Timestamp, validMessage: string -> bool, ug: UserGroups): (d: Dispatch)
    requires CanHandle(groups, ctx, TextFrame(Some(m)), ug)
    ensures d.groups.Keys == groups.Keys
    ensures forall gid :: gid in groups ==> SameShape(groups[gid], d.groups[gid])
  {
    var gid := ctx.groupId;
    var g := groups[gid];
    match m
    case CreateMessage(content, channelId) =>
      Install(groups, gid, CreateMessageStep(g, ctx, content, channelId, now, validMessage, db.createMessage))
    case RequestRecentMessages(channelId) =>
      Install(groups, gid, RecentMessagesStep(g, ctx, channelId, db.recentMessages))
    case CreateChannel(name) =>
      Install(groups, gid, CreateChannelStep(g, ctx, name, db.createChannel))
    case RequestChannels =>
      Install(groups, gid, RequestChannelsStep(g, ctx))
    case DeleteChannel(channelId) =>
      Install(groups, gid, DeleteChannelStep(g, ctx, channelId, db.deleteChannel))
    case RequestOnline =>
      Install(groups, gid, RequestOnlineStep(g, ctx))
    case RequestUsers =>
      Install(groups, gid, RequestUsersStep(g, ctx, db.groupUsers))
    case RenameChannel(channelId, name) =>
      Install(groups, gid, RenameChannelStep(g, ctx, channelId, name, db.renameChannel))
    case RenameGroup(name, picture) =>
      RenameGroupStep(groups, ctx, name, picture, db.renameGroup, db.groupUserIds, ug)
  }

  /**
   * `MessageContext::handle`: a non-text frame is ignored; a frame that does
   * not decode is answered with a Request/Json error; otherwise the
   * handler runs and, if it returned a storage error, the sender is sent an
   * Application/Database error afterwards.
   */
  function Handle(groups: map<GroupID, Group>, ctx: MessageContext, inbound: Inbound, db: Storage,
                  now: Timestamp, validMessage: string -> bool, ug: UserGroups): (d: Dispatch)
    requires CanHandle(groups, ctx, inbound, ug)
    ensures d.groups.Keys == groups.Keys
    ensures forall gid :: gid in groups ==> SameShape(groups[gid], d.groups[gid])
    ensures ctx.groupId in d.groups && ctx.connId in d.groups[ctx.groupId].connections
    ensures inbound.NonText? ==> d.groups == groups && d.calls == []
    ensures inbound == TextFrame(None) ==>
      && d.calls == [] && OnlyGroup(groups, d.groups, ctx.groupId)
      && RepliedOnly(groups[ctx.groupId], d.groups[ctx.groupId], ctx.connId, Text(Error(Request, Json)))
    ensures d.failed ==>
      var q := d.groups[ctx.groupId].connections[ctx.connId];
      |q| > 0 && q[|q| - 1] == Text(Error(Application, Database))
  {
    var gid, conn := ctx.groupId, ctx.connId;
    match inbound
    case NonText => Dispatch(groups, [], false)
    case TextFrame(None) =>
      Dispatch(groups[gid := SendReplyError(groups[gid], conn, Request, Json)], [], false)
    case TextFrame(Some(m)) =>
      var d := Route(groups, ctx, m, db, now, validMessage, ug);
      if d.failed then
        d.(groups := d.groups[gid := SendReplyError(d.groups[gid], conn, Application, Database)])
      else d
  }

  // ---------------------------------------------------------------------
  // Properties across handlers
  // ---------------------------------------------------------------------

  /**
   * A storage error in any group-local handler leaves the cache and every
   * peer untouched: the sender gets exactly the Application/Database error.
   */
  lemma StorageErrorRepliesOnly(groups: map<GroupID, Group>, ctx: MessageContext, m: ClientMessage, db: Storage,
                                now: Timestamp, validMessage: string -> bool, ug: UserGroups)
    requires CanHandle(groups, ctx, TextFrame(Some(m)), ug)
    requires !m.CreateMessage?
    requires Handle(groups, ctx, TextFrame(Some(m)), db, now, validMessage, ug).failed
    ensures var d := Handle(groups, ctx, TextFrame(Some(m)), db, now, validMessage, ug);
      && OnlyGroup(groups, d.groups, ctx.groupId)
      && RepliedOnly(groups[ctx.groupId], d.groups[ctx.groupId], ctx.connId, Text(Error(Application, Database)))
  {
    FailedRouteChangesNothing(groups, ctx, m, db, now, validMessage, ug);
  }

  /** Every handler but message creation fails before queueing anything. */
  lemma FailedRouteChangesNothing(groups: map<GroupID, Group>, ctx: MessageContext, m: ClientMessage, db: Storage,
                                  now: Timestamp, validMessage: string -> bool, ug: UserGroups)
    requires CanHandle(groups, ctx, TextFrame(Some(m)), ug)
    requires !m.CreateMessage?
    ensures var d := Route(groups, ctx, m, db, now, validMessage, ug);
      d.failed ==> d.groups == groups
  {
    var d := Route(groups, ctx, m, db, now, validMessage, ug);
    if d.failed && !m.RenameGroup? {
      assert d.groups == groups[ctx.groupId := groups[ctx.groupId]];
    }
  }

  /**
   * A storage error while persisting a message comes after the broadcast:
   * peers keep their copy, and the sender gets the receipt followed by the
   * Application/Database error.
   */
  lemma PersistErrorFollowsBroadcast(groups: map<GroupID, Group>, ctx: MessageContext, content: string,
                                     channelId: ChannelID, db: Storage, now: Timestamp,
                                     validMessage: string -> bool, ug: UserGroups)
    requires CanHandle(groups, ctx, TextFrame(Some(CreateMessage(content, channelId))), ug)
    requires Handle(groups, ctx, TextFrame(Some(CreateMessage(content, channelId))), db, now, validMessage, ug).failed
    ensures var d := Handle(groups, ctx, TextFrame(Some(CreateMessage(content, channelId))), db, now, validMessage, ug);
      var g, g' := groups[ctx.groupId], d.groups[ctx.groupId];
      && db.createMessage.Failed?
      && OnlyGroup(groups, d.groups, ctx.groupId)
      && g'.connections[ctx.connId] == g.connections[ctx.connId] +
           [Text(MessageReceipt(now, channelId)), Text(Error(Application, Database))]
      && forall c :: c in g.connections && c != ctx.connId ==>
           g'.connections[c] == g.connections[c] + [Text(RecentMessage(now, ctx.userId, content, channelId))]
  {
  }

  /** Exactly the roster entries with a presence entry are listed as Online. */
  lemma RosterOnlineIsPresence(rows: seq<UserRow>, online: map<UserID, set<ConnID>>)
    ensures (set u | u in Roster(rows, online) && u.status == Online :: u.userId)
         == (set r | r in rows :: r.userId) * online.Keys
  {
    var users := Roster(rows, online);
    var listed := set u | u in users && u.status == Online :: u.userId;
    var expected := (set r | r in rows :: r.userId) * online.Keys;
    forall id | id in listed
      ensures id in expected
    {
      var u :| u in users && u.status == Online && u.userId == id;
      var i :| 0 <= i < |users| && users[i] == u;
      assert rows[i] in rows;
    }
    forall id | id in expected
      ensures id in listed
    {
      var r :| r in rows && r.userId == id;
      var i :| 0 <= i < |rows| && rows[i] == r;
      assert users[i] in users;
    }
  }

  /**
   * Creating a channel whose id exceeds every cached id keeps a sorted
   * cache sorted, so later lookups stay complete.
   */
  lemma CreateChannelKeepsSorted(g: Group, ctx: MessageContext, name: string, id: ChannelID)
    requires ctx.connId in g.connections && SortedById(g.channels)
    requires forall i :: 0 <= i < |g.channels| ==> g.channels[i].channelId < id
    ensures SortedById(CreateChannelStep(g, ctx, name, Ok(Some(id))).group.channels)
  {
    AppendKeepsSorted(g.channels, Channel(id, name));
  }

  /**
   * On a sorted cache a successful delete removes the id, keeps every
   * other id, and keeps the cache sorted; a successful rename keeps it
   * sorted.
   */
  lemma DeleteAndRenameKeepSorted(g: Group, ctx: MessageContext, channelId: ChannelID, name: string)
    requires ctx.connId in g.connections && |g.channels| < UsizeMax && SortedById(g.channels)
    ensures var o := DeleteChannelStep(g, ctx, channelId, Ok(true));
      o.calls != [] ==>
        && SortedById(o.group.channels)
        && !HasChannel(o.group.channels, channelId)
        && forall id :: id != channelId ==> (HasChannel(o.group.channels, id) <==> HasChannel(g.channels, id))
    ensures SortedById(RenameChannelStep(g, ctx, channelId, name, Ok(true)).group.channels)
  {
    var o := DeleteChannelStep(g, ctx, channelId, Ok(true));
    if o.calls != [] {
      var i :| 0 <= i < |g.channels| && g.channels[i].channelId == channelId &&
               o.group.channels == RemoveAt(g.channels, i);
      RemoveKeepsSorted(g.channels, i);
    }
    var r := RenameChannelStep(g, ctx, channelId, name, Ok(true));
    if r.calls != [] {
      var i :| 0 <= i < |g.channels| && g.channels[i].channelId == channelId &&
               r.group.channels == g.channels[i := Channel(channelId, name)];
      RenameKeepsSorted(g.channels, i, name);
    }
  }

  /** The sender of a live connection, as the registry records it. */
  function SenderOf(h: Registry.Hub, conn: ConnID): (ctx: MessageContext)
    requires conn in h.sessions
    ensures ctx.connId == conn
    ensures ctx.userId == h.sessions[conn].userId && ctx.groupId == h.sessions[conn].groupId
  {
    MessageContext(h.sessions[conn].userId, h.sessions[conn].groupId, conn)
  }

  /**
   * Handling a frame never changes connections or presence, so the
   * registry invariant survives every dispatch.
   */
  lemma HandlePreservesInv(h: Registry.Hub, conn: ConnID, inbound: Inbound, db: Storage,
                           now: Timestamp, validMessage: string -> bool, ug: UserGroups)
    requires Registry.Inv(h) && conn in h.sessions
    requires CanHandle(h.groups, SenderOf(h, conn), inbound, ug)
    ensures Registry.Inv(h.(groups := Handle(h.groups, SenderOf(h, conn), inbound, db, now, validMessage, ug).groups))
  {
    var d := Handle(h.groups, SenderOf(h, conn), inbound, db, now, validMessage, ug);
    var h' := h.(groups := d.groups);
    forall gid | gid in h'.groups
      ensures Registry.GroupWf(h'.groups[gid], gid, h'.sessions)
    {
      assert Registry.GroupWf(h.groups[gid], gid, h.sessions);
    }
  }

  /** Under the invariant every live connection's group is present and holds it. */
  lemma InvLocatesSender(h: Registry.Hub, conn: ConnID)
    requires Registry.Inv(h) && conn in h.sessions
    ensures var ctx := SenderOf(h, conn);
      ctx.groupId in h.groups && ctx.connId in h.groups[ctx.groupId].connections
  {
  }
}
