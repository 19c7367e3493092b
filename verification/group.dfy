/**
 * The in-memory state of one live group (src/socket/upgrade.rs, `Group`)
 * and its delivery primitives (src/socket/handler.rs, `impl Group`). Each
 * connection's outbound channel is modelled by the sequence of frames queued
 * on it; sending appends to that sequence.
 */
module GroupState {
  import opened Protocol

  /**
   * Channel cache, connections with their outboxes, and presence: each
   * online user with the ids of their open connections.
   */
  datatype Group = Group(
    channels: seq<Channel>,
    connections: Outboxes,
    onlineUsers: map<UserID, set<ConnID>>)

  /** Every presence entry is non-empty and names only connections of this group. */
  ghost predicate PresenceWithin(g: Group) {
    forall u :: u in g.onlineUsers ==>
      g.onlineUsers[u] != {} && g.onlineUsers[u] <= g.connections.Keys
  }

  /** No connection belongs to two users. */
  ghost predicate PresenceDisjoint(g: Group) {
    forall u, v :: u in g.onlineUsers && v in g.onlineUsers && u != v ==>
      g.onlineUsers[u] !! g.onlineUsers[v]
  }

  /** `after` differs from `before` only in the outboxes, and has the same connections. */
  ghost predicate OnlyOutboxes(before: Group, after: Group) {
    && after.channels == before.channels
    && after.onlineUsers == before.onlineUsers
    && after.connections.Keys == before.connections.Keys
  }

  /** Every connection received exactly `f`, appended to its outbox. */
  ghost predicate DeliveredToAll(before: Group, after: Group, f: Frame) {
    && OnlyOutboxes(before, after)
    && forall c :: c in before.connections ==>
         after.connections[c] == before.connections[c] + [f]
  }

  /** Connection `conn` received exactly `f`; no other outbox changed. */
  ghost predicate RepliedOnly(before: Group, after: Group, conn: ConnID, f: Frame) {
    && OnlyOutboxes(before, after)
    && conn in before.connections
    && after.connections[conn] == before.connections[conn] + [f]
    && forall c :: c in before.connections && c != conn ==>
         after.connections[c] == before.connections[c]
  }

  /** `conn` received `reply`, every other connection received `peer`. */
  ghost predicate PeerReplied(before: Group, after: Group, conn: ConnID, peer: Frame, reply: Frame) {
    && OnlyOutboxes(before, after)
    && (conn in before.connections ==> after.connections[conn] == before.connections[conn] + [reply])
    && forall c :: c in before.connections && c != conn ==>
         after.connections[c] == before.connections[c] + [peer]
  }

  /** Exactly the connections in `targets` received `f`. */
  ghost predicate DeliveredTo(before: Group, after: Group, targets: set<ConnID>, f: Frame) {
    && OnlyOutboxes(before, after)
    && forall c :: c in before.connections ==>
         after.connections[c] ==
           (if c in targets then before.connections[c] + [f] else before.connections[c])
  }

  /** `send_all`: one copy of the event to every connection. */
  function SendAll(g: Group, e: ServerEvent): (r: Group)
    ensures DeliveredToAll(g, r, Text(e))
  {
    g.(connections := map c | c in g.connections :: g.connections[c] + [Text(e)])
  }

  /**
   * `send_peer_reply`: `reply` to connection `conn`, `peer` to every other
   * connection, both in one pass.
   */
  function SendPeerReply(g: Group, conn: ConnID, peer: ServerEvent, reply: ServerEvent): (r: Group)
    ensures PeerReplied(g, r, conn, Text(peer), Text(reply))
  {
    g.(connections := map c | c in g.connections ::
      g.connections[c] + [Text(if c == conn then reply else peer)])
  }

  /** With no distinct reply, or no origin in the group, the split is a plain `send_all`. */
  lemma PeerReplyDegenerates(g: Group, conn: ConnID, peer: ServerEvent, reply: ServerEvent)
    ensures peer == reply ==> SendPeerReply(g, conn, peer, reply) == SendAll(g, peer)
    ensures conn !in g.connections ==> SendPeerReply(g, conn, peer, reply) == SendAll(g, peer)
  {
  }

  /** `send_reply`: the event goes to connection `conn` only (which must exist). */
  function SendReply(g: Group, conn: ConnID, e: ServerEvent): (r: Group)
    requires conn in g.connections
    ensures RepliedOnly(g, r, conn, Text(e))
  {
    g.(connections := g.connections[conn := g.connections[conn] + [Text(e)]])
  }

  /** `send_reply_error`: a typed error to connection `conn` only. */
  function SendReplyError(g: Group, conn: ConnID, category: ErrorCategory, code: ErrorCode): (r: Group)
    requires conn in g.connections
    ensures RepliedOnly(g, r, conn, Text(Error(category, code)))
  {
    SendReply(g, conn, Error(category, code))
  }

  /** `send_user_online` / `send_user_offline`: a status change to every connection. */
  function SendUserStatus(g: Group, user: UserID, status: UserStatus): (r: Group)
    ensures DeliveredToAll(g, r, Text(UserStatusChanged(user, status)))
  {
    SendAll(g, UserStatusChanged(user, status))
  }

  /** `send_user_renamed`: the new name and picture to every connection. */
  function SendUserRenamed(g: Group, user: UserID, name: string, picture: string): (r: Group)
    ensures DeliveredToAll(g, r, Text(UserRenamed(user, name, picture)))
  {
    SendAll(g, UserRenamed(user, name, picture))
  }

  /** Queue `f` on every connection of `user` in this group. */
  function SendToUser(g: Group, user: UserID, f: Frame): (r: Group)
    requires user in g.onlineUsers && g.onlineUsers[user] <= g.connections.Keys
    ensures DeliveredTo(g, r, g.onlineUsers[user], f)
  {
    g.(connections := map c | c in g.connections ::
      if c in g.onlineUsers[user] then g.connections[c] + [f] else g.connections[c])
  }

  /**
   * `kick_user`: a close frame with code 4000 on each of the user's
   * connections and nothing on anyone else's. The user must be online here.
   */
  function KickUser(g: Group, user: UserID): (r: Group)
    requires user in g.onlineUsers && g.onlineUsers[user] <= g.connections.Keys
    ensures DeliveredTo(g, r, g.onlineUsers[user], Close(KickCloseCode, KickReason))
  {
    SendToUser(g, user, Close(KickCloseCode, KickReason))
  }

  /** `send_delete_group`: a `GroupDeleted` event on each of the user's connections only. */
  function SendDeleteGroup(g: Group, user: UserID, groupId: GroupID): (r: Group)
    requires user in g.onlineUsers && g.onlineUsers[user] <= g.connections.Keys
    ensures DeliveredTo(g, r, g.onlineUsers[user], Text(GroupDeleted(groupId)))
  {
    SendToUser(g, user, Text(GroupDeleted(groupId)))
  }

  /** Number of occurrences of `f` in an outbox. */
  function CountFrame(q: seq<Frame>, f: Frame): nat {
    if |q| == 0 then 0 else (if q[|q| - 1] == f then 1 else 0) + CountFrame(q[..|q| - 1], f)
  }

  /**
   * The peer/reply split as counts: for a receipt different from the peer
   * copy, the origin gains one receipt and no copy, every other connection
   * one copy and no receipt.
   */
  lemma {:induction false} PeerReplyCounts(g: Group, conn: ConnID, peer: ServerEvent, reply: ServerEvent, c: ConnID)
    requires peer != reply && c in g.connections
    ensures var q := SendPeerReply(g, conn, peer, reply).connections[c];
      var q0 := g.connections[c];
      if c == conn then
        CountFrame(q, Text(reply)) == CountFrame(q0, Text(reply)) + 1 &&
        CountFrame(q, Text(peer)) == CountFrame(q0, Text(peer))
      else
        CountFrame(q, Text(peer)) == CountFrame(q0, Text(peer)) + 1 &&
        CountFrame(q, Text(reply)) == CountFrame(q0, Text(reply))
  {
    var q := SendPeerReply(g, conn, peer, reply).connections[c];
    assert q[..|q| - 1] == g.connections[c];
  }
}
