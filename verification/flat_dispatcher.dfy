/**
 * The dispatcher of the earlier per-user revision
 * (src/handlers/socket/handler.rs, `MessageHandler`). Channel validity is a
 * storage query rather than a cache lookup, and every error, whether the
 * frame did not decode or storage failed, becomes one textual error reply
 * to the sender, sent only when the sender is still in the map.
 *
 * In this revision a channel id that storage rejects is answered with an
 * error and then handled anyway: the message is still broadcast and stored,
 * and the recent messages are still fetched. `PostMessageAsWritten` and
 * `RecentMessagesAsWritten` model that code, and `HandleError` and `Handle`
 * route to them as the revision does. `PostMessage` and `RecentMessages`
 * stop after the error reply, as the later dispatcher does; `HandleFixed`
 * is the entry point that routes to them.
 */
module FlatDispatcher {
  import opened Protocol
  import FlatHub

  /** A message as this revision serialises it: every entry carries its channel. */
  datatype LegacyMessage = LegacyMessage(timestamp: Timestamp, author: UserID, content: string, channelId: ChannelID)

  datatype LegacyEvent =
    | LegacyError(message: string)
    | LegacyReceipt(timestamp: Timestamp, channelId: ChannelID)
    | LegacyRecent(recent: LegacyMessage)
    | LegacyRecentList(messages: seq<LegacyMessage>)

  /** Connection id to queued events. */
  type ConnectionMap = map<ConnID, seq<LegacyEvent>>

  /** The sender of a frame. */
  datatype Sender = Sender(connId: ConnID, userId: UserID, groupId: GroupID)

  /** A frame read from the socket in this revision. */
  datatype LegacyInbound =
    | LegacyNonText
    | LegacyUndecodable(reason: string)
    | PostMessageFrame(content: string, channelId: ChannelID)
    | RecentMessagesFrame(channelId: ChannelID)

  datatype LegacyCall =
    | ValidGroupChannelCall(groupId: GroupID, channelId: ChannelID)
    | CreateMessageCall(timestamp: Timestamp, author: UserID, content: string, channelId: ChannelID)
    | RecentMessagesCall(channelId: ChannelID)

  /** Storage answers, and the text a storage error renders to. */
  datatype LegacyStorage = LegacyStorage(
    validChannel: Db<bool>,
    createMessage: Db<()>,
    recentMessages: Db<seq<MessageRow>>,
    errorText: string)

  /** The map after a handler, the queries it made, and the error it returned, if any. */
  datatype Handled = Handled(conns: ConnectionMap, calls: seq<LegacyCall>, error: Option<string>)

  const InvalidChannelText: string := "Invalid channel_id"

  /** `reply_error` / `reply_message`: to the sender only, and only if it is in the map. */
  function ReplyTo(conns: ConnectionMap, conn: ConnID, e: LegacyEvent): (r: ConnectionMap)
    ensures r.Keys == conns.Keys
    ensures conn in conns ==> r[conn] == conns[conn] + [e]
    ensures forall c :: c in conns && c != conn ==> r[c] == conns[c]
    ensures conn !in conns ==> r == conns
  {
    if conn in conns then conns[conn := conns[conn] + [e]] else conns
  }

  /** The rows of the recent-messages query, each tagged with the requested channel, in row order. */
  function Tagged(rows: seq<MessageRow>, channelId: ChannelID): (ms: seq<LegacyMessage>)
    ensures |ms| == |rows|
    ensures forall i :: 0 <= i < |rows| ==>
      ms[i] == LegacyMessage(rows[i].timestamp, rows[i].author, rows[i].content, channelId)
  {
    if |rows| == 0 then []
    else [LegacyMessage(rows[0].timestamp, rows[0].author, rows[0].content, channelId)] + Tagged(rows[1..], channelId)
  }

  /** The receipt to the sender and the message to every peer. */
  function Broadcast(conns: ConnectionMap, s: Sender, content: string, channelId: ChannelID, now: Timestamp): (r: ConnectionMap)
    ensures r.Keys == conns.Keys
    ensures s.connId in conns ==> r[s.connId] == conns[s.connId] + [LegacyReceipt(now, channelId)]
    ensures forall c :: c in conns && c != s.connId ==>
      r[c] == conns[c] + [LegacyRecent(LegacyMessage(now, s.userId, content, channelId))]
  {
    FlatHub.PeerSplit(conns, s.connId,
      LegacyRecent(LegacyMessage(now, s.userId, content, channelId)),
      LegacyReceipt(now, channelId))
  }

  /** `handle_post_message` exactly as written: the invalid-channel reply does not return. */
  function PostMessageAsWritten(conns: ConnectionMap, s: Sender, content: string, channelId: ChannelID,
                                now: Timestamp, db: LegacyStorage): (h: Handled)
    ensures h.calls != [] && h.calls[0] == ValidGroupChannelCall(s.groupId, channelId)
    ensures db.validChannel.Failed? ==> h == Handled(conns, h.calls, Some(db.errorText)) && |h.calls| == 1
    ensures db.validChannel.Ok? ==>
      && h.calls == [ValidGroupChannelCall(s.groupId, channelId), CreateMessageCall(now, s.userId, content, channelId)]
      && (h.error.Some? <==> db.createMessage.Failed?)
  {
    var check := ValidGroupChannelCall(s.groupId, channelId);
    match db.validChannel
    case Failed => Handled(conns, [check], Some(db.errorText))
    case Ok(valid) =>
      var warned := if !valid then ReplyTo(conns, s.connId, LegacyError(InvalidChannelText)) else conns;
      var sent := Broadcast(warned, s, content, channelId, now);
      var error := if db.createMessage.Failed? then Some(db.errorText) else None;
      Handled(sent, [check, CreateMessageCall(now, s.userId, content, channelId)], error)
  }

  /**
   * The code as written on a channel storage rejects: the sender gets the
   * error and then the receipt, every peer still gets the message, and it
   * is stored.
   */
  lemma RejectedChannelStillBroadcast(conns: ConnectionMap, s: Sender, content: string, channelId: ChannelID,
                                      now: Timestamp, db: LegacyStorage, peer: ConnID)
    requires db.validChannel == Ok(false) && db.createMessage.Ok?
    requires s.connId in conns && peer in conns && peer != s.connId
    ensures var h := PostMessageAsWritten(conns, s, content, channelId, now, db);
      && h.conns[s.connId] == conns[s.connId] + [LegacyError(InvalidChannelText), LegacyReceipt(now, channelId)]
      && h.conns[peer] == conns[peer] + [LegacyRecent(LegacyMessage(now, s.userId, content, channelId))]
      && CreateMessageCall(now, s.userId, content, channelId) in h.calls
      && h.error.None?
  {
    var warned := ReplyTo(conns, s.connId, LegacyError(InvalidChannelText));
    assert warned[s.connId] == conns[s.connId] + [LegacyError(InvalidChannelText)];
    var h := PostMessageAsWritten(conns, s, content, channelId, now, db);
    assert h.calls[1] == CreateMessageCall(now, s.userId, content, channelId);
  }

  /**
   * `handle_post_message` with the evident intent: a rejected channel is
   * answered with the error and nothing is broadcast or stored.
   */
  function PostMessage(conns: ConnectionMap, s: Sender, content: string, channelId: ChannelID,
                       now: Timestamp, db: LegacyStorage): (h: Handled)
    ensures h.calls != [] && h.calls[0] == ValidGroupChannelCall(s.groupId, channelId)
    ensures db.validChannel.Failed? ==> h == Handled(conns, h.calls, Some(db.errorText)) && |h.calls| == 1
    ensures db.validChannel == Ok(false) ==>
      && h.conns == ReplyTo(conns, s.connId, LegacyError(InvalidChannelText))
      && h.calls == [ValidGroupChannelCall(s.groupId, channelId)]
      && h.error.None?
    ensures db.validChannel == Ok(true) ==>
      && h.calls == [ValidGroupChannelCall(s.groupId, channelId), CreateMessageCall(now, s.userId, content, channelId)]
      && h.conns.Keys == conns.Keys
      && (s.connId in conns ==> h.conns[s.connId] == conns[s.connId] + [LegacyReceipt(now, channelId)])
      && (forall c :: c in conns && c != s.connId ==>
            h.conns[c] == conns[c] + [LegacyRecent(LegacyMessage(now, s.userId, content, channelId))])
      && (h.error.Some? <==> db.createMessage.Failed?)
  {
    var check := ValidGroupChannelCall(s.groupId, channelId);
    match db.validChannel
    case Failed => Handled(conns, [check], Some(db.errorText))
    case Ok(false) => Handled(ReplyTo(conns, s.connId, LegacyError(InvalidChannelText)), [check], None)
    case Ok(true) =>
      var error := if db.createMessage.Failed? then Some(db.errorText) else None;
      Handled(Broadcast(conns, s, content, channelId, now),
              [check, CreateMessageCall(now, s.userId, content, channelId)], error)
  }

  /** The two versions differ only on a channel storage rejects. */
  lemma PostMessageAgreesOnValidChannels(conns: ConnectionMap, s: Sender, content: string, channelId: ChannelID,
                                         now: Timestamp, db: LegacyStorage)
    requires db.validChannel != Ok(false)
    ensures PostMessage(conns, s, content, channelId, now, db) ==
            PostMessageAsWritten(conns, s, content, channelId, now, db)
  {
  }

  /** `handle_request_recent_messages` exactly as written: the invalid-channel reply does not return. */
  function RecentMessagesAsWritten(conns: ConnectionMap, s: Sender, channelId: ChannelID,
                                   db: LegacyStorage): (h: Handled)
    ensures h.calls != [] && h.calls[0] == ValidGroupChannelCall(s.groupId, channelId)
    ensures db.validChannel.Failed? ==> h == Handled(conns, h.calls, Some(db.errorText)) && |h.calls| == 1
    ensures db.validChannel.Ok? ==>
      var warned := if db.validChannel.value then conns else ReplyTo(conns, s.connId, LegacyError(InvalidChannelText));
      && h.calls == [ValidGroupChannelCall(s.groupId, channelId), RecentMessagesCall(channelId)]
      && (db.recentMessages.Failed? ==> h.conns == warned && h.error == Some(db.errorText))
      && (db.recentMessages.Ok? ==>
            && h.error.None?
            && h.conns == ReplyTo(warned, s.connId, LegacyRecentList(Tagged(db.recentMessages.value, channelId))))
  {
    var check := ValidGroupChannelCall(s.groupId, channelId);
    match db.validChannel
    case Failed => Handled(conns, [check], Some(db.errorText))
    case Ok(valid) =>
      var warned := if !valid then ReplyTo(conns, s.connId, LegacyError(InvalidChannelText)) else conns;
      var calls := [check, RecentMessagesCall(channelId)];
      match db.recentMessages
      case Failed => Handled(warned, calls, Some(db.errorText))
      case Ok(rows) => Handled(ReplyTo(warned, s.connId, LegacyRecentList(Tagged(rows, channelId))), calls, None)
  }

  /**
   * The code as written on a channel storage rejects: the messages are
   * fetched anyway and the sender gets the error followed by the list.
   */
  lemma RejectedChannelStillFetched(conns: ConnectionMap, s: Sender, channelId: ChannelID, db: LegacyStorage)
    requires db.validChannel == Ok(false) && db.recentMessages.Ok?
    requires s.connId in conns
    ensures var h := RecentMessagesAsWritten(conns, s, channelId, db);
      && RecentMessagesCall(channelId) in h.calls
      && h.conns[s.connId] == conns[s.connId] +
           [LegacyError(InvalidChannelText), LegacyRecentList(Tagged(db.recentMessages.value, channelId))]
  {
    var h := RecentMessagesAsWritten(conns, s, channelId, db);
    assert h.calls[1] == RecentMessagesCall(channelId);
  }

  /** The two versions differ only on a channel storage rejects. */
  lemma RecentMessagesAgreesOnValidChannels(conns: ConnectionMap, s: Sender, channelId: ChannelID, db: LegacyStorage)
    requires db.validChannel != Ok(false)
    ensures RecentMessages(conns, s, channelId, db) == RecentMessagesAsWritten(conns, s, channelId, db)
  {
  }

  /**
   * `handle_request_recent_messages` with the evident intent: a rejected
   * channel is answered with the error and nothing is fetched.
   */
  function RecentMessages(conns: ConnectionMap, s: Sender, channelId: ChannelID, db: LegacyStorage): (h: Handled)
    ensures h.calls != [] && h.calls[0] == ValidGroupChannelCall(s.groupId, channelId)
    ensures db.validChannel.Failed? ==> h == Handled(conns, h.calls, Some(db.errorText)) && |h.calls| == 1
    ensures db.validChannel == Ok(false) ==>
      && h.conns == ReplyTo(conns, s.connId, LegacyError(InvalidChannelText))
      && h.calls == [ValidGroupChannelCall(s.groupId, channelId)]
      && h.error.None?
    ensures db.validChannel == Ok(true) ==>
      && h.calls == [ValidGroupChannelCall(s.groupId, channelId), RecentMessagesCall(channelId)]
      && (db.recentMessages.Failed? ==> h.conns == conns && h.error == Some(db.errorText))
      && (db.recentMessages.Ok? ==>
            && h.error.None?
            && h.conns == ReplyTo(conns, s.connId, LegacyRecentList(Tagged(db.recentMessages.value, channelId))))
  {
    var check := ValidGroupChannelCall(s.groupId, channelId);
    match db.validChannel
    case Failed => Handled(conns, [check], Some(db.errorText))
    case Ok(false) => Handled(ReplyTo(conns, s.connId, LegacyError(InvalidChannelText)), [check], None)
    case Ok(true) =>
      var calls := [check, RecentMessagesCall(channelId)];
      match db.recentMessages
      case Failed => Handled(conns, calls, Some(db.errorText))
      case Ok(rows) => Handled(ReplyTo(conns, s.connId, LegacyRecentList(Tagged(rows, channelId))), calls, None)
  }

  /**
   * `handle_error` as written: ignore non-text, fail on a bad frame,
   * otherwise route to the handlers, which check the channel first and then
   * make their second query whatever the check answered.
   */
  function HandleError(conns: ConnectionMap, s: Sender, inbound: LegacyInbound, now: Timestamp,
                       db: LegacyStorage): (h: Handled)
    ensures inbound.LegacyNonText? ==> h == Handled(conns, [], None)
    ensures inbound.LegacyUndecodable? ==> h == Handled(conns, [], Some(inbound.reason))
    ensures h.conns.Keys == conns.Keys
    ensures inbound.PostMessageFrame? || inbound.RecentMessagesFrame? ==>
      && h.calls != [] && h.calls[0] == ValidGroupChannelCall(s.groupId, inbound.channelId)
      && (db.validChannel.Ok? <==> |h.calls| == 2)
  {
    match inbound
    case LegacyNonText => Handled(conns, [], None)
    case LegacyUndecodable(reason) => Handled(conns, [], Some(reason))
    case PostMessageFrame(content, channelId) => PostMessageAsWritten(conns, s, content, channelId, now, db)
    case RecentMessagesFrame(channelId) => RecentMessagesAsWritten(conns, s, channelId, db)
  }

  /** `handle_error` with the corrected handlers: a rejected channel makes no second query. */
  function HandleErrorFixed(conns: ConnectionMap, s: Sender, inbound: LegacyInbound, now: Timestamp,
                            db: LegacyStorage): (h: Handled)
    ensures inbound.LegacyNonText? ==> h == Handled(conns, [], None)
    ensures inbound.LegacyUndecodable? ==> h == Handled(conns, [], Some(inbound.reason))
    ensures h.conns.Keys == conns.Keys
    ensures inbound.PostMessageFrame? || inbound.RecentMessagesFrame? ==>
      && h.calls != [] && h.calls[0] == ValidGroupChannelCall(s.groupId, inbound.channelId)
      && (db.validChannel == Ok(true) <==> |h.calls| == 2)
  {
    match inbound
    case LegacyNonText => Handled(conns, [], None)
    case LegacyUndecodable(reason) => Handled(conns, [], Some(reason))
    case PostMessageFrame(content, channelId) => PostMessage(conns, s, content, channelId, now, db)
    case RecentMessagesFrame(channelId) => RecentMessages(conns, s, channelId, db)
  }

  /** The error a handler returned, sent as text to the sender after what it queued. */
  function Deliver(h: Handled, s: Sender): (r: (ConnectionMap, seq<LegacyCall>))
    ensures r.1 == h.calls && r.0.Keys == h.conns.Keys
    ensures h.error.Some? ==> r.0 == ReplyTo(h.conns, s.connId, LegacyError(h.error.value))
    ensures h.error.None? ==> r.0 == h.conns
  {
    match h.error
    case None => (h.conns, h.calls)
    case Some(e) => (ReplyTo(h.conns, s.connId, LegacyError(e)), h.calls)
  }

  /**
   * `handle`: whatever error the handler returned is sent, as text, to the
   * sender, after anything the handler queued, and only if the sender is
   * in the map.
   */
  function Handle(conns: ConnectionMap, s: Sender, inbound: LegacyInbound, now: Timestamp,
                  db: LegacyStorage): (r: (ConnectionMap, seq<LegacyCall>))
    ensures r.0.Keys == conns.Keys
    ensures inbound.LegacyNonText? ==> r == (conns, [])
    ensures inbound.LegacyUndecodable? ==>
      r == (ReplyTo(conns, s.connId, LegacyError(inbound.reason)), [])
    ensures var h := HandleError(conns, s, inbound, now, db);
      && r.1 == h.calls
      && (h.error.Some? ==> r.0 == ReplyTo(h.conns, s.connId, LegacyError(h.error.value)))
      && (h.error.None? ==> r.0 == h.conns)
  {
    Deliver(HandleError(conns, s, inbound, now, db), s)
  }

  /** `handle` over the corrected handlers. */
  function HandleFixed(conns: ConnectionMap, s: Sender, inbound: LegacyInbound, now: Timestamp,
                       db: LegacyStorage): (r: (ConnectionMap, seq<LegacyCall>))
    ensures r.0.Keys == conns.Keys
    ensures inbound.LegacyNonText? ==> r == (conns, [])
    ensures inbound.LegacyUndecodable? ==>
      r == (ReplyTo(conns, s.connId, LegacyError(inbound.reason)), [])
  {
    Deliver(HandleErrorFixed(conns, s, inbound, now, db), s)
  }

  /**
   * The program as written and the corrected one handle every frame alike
   * unless storage rejects the frame's channel; on a rejected post the
   * corrected one queues only the error, where the one as written also
   * broadcasts and stores.
   */
  lemma FixedAgreesUnlessRejected(conns: ConnectionMap, s: Sender, inbound: LegacyInbound, now: Timestamp,
                                  db: LegacyStorage)
    ensures db.validChannel != Ok(false) ==>
      HandleFixed(conns, s, inbound, now, db) == Handle(conns, s, inbound, now, db)
    ensures inbound.PostMessageFrame? && db.validChannel == Ok(false) ==>
      && HandleFixed(conns, s, inbound, now, db) ==
         (ReplyTo(conns, s.connId, LegacyError(InvalidChannelText)), [ValidGroupChannelCall(s.groupId, inbound.channelId)])
      && CreateMessageCall(now, s.userId, inbound.content, inbound.channelId) in Handle(conns, s, inbound, now, db).1
  {
    if db.validChannel != Ok(false) {
      match inbound
      case PostMessageFrame(content, channelId) =>
        PostMessageAgreesOnValidChannels(conns, s, content, channelId, now, db);
      case RecentMessagesFrame(channelId) =>
        RecentMessagesAgreesOnValidChannels(conns, s, channelId, db);
      case _ =>
    }
    if inbound.PostMessageFrame? && db.validChannel == Ok(false) {
      var h := PostMessageAsWritten(conns, s, inbound.content, inbound.channelId, now, db);
      assert h.calls[1] == CreateMessageCall(now, s.userId, inbound.content, inbound.channelId);
    }
  }

  /**
   * With the sender gone from the map, nothing is ever queued for it and
   * an error reaches nobody: only peers can receive anything.
   */
  lemma AbsentSenderGetsNothing(conns: ConnectionMap, s: Sender, inbound: LegacyInbound, now: Timestamp,
                                db: LegacyStorage)
    requires s.connId !in conns
    ensures var (r, _) := Handle(conns, s, inbound, now, db);
      && r.Keys == conns.Keys
      && (!inbound.PostMessageFrame? ==> r == conns)
  {
  }

  /** A storage failure on the channel check is answered with its text alone. */
  lemma StorageErrorRepliesOnly(conns: ConnectionMap, s: Sender, inbound: LegacyInbound, now: Timestamp,
                                db: LegacyStorage)
    requires inbound.PostMessageFrame? || inbound.RecentMessagesFrame?
    requires db.validChannel.Failed?
    ensures Handle(conns, s, inbound, now, db).0 == ReplyTo(conns, s.connId, LegacyError(db.errorText))
  {
  }
}
