/**
 * The group registry and the connection lifecycle around it
 * (src/socket/upgrade.rs): allocating connection ids, joining a connection
 * to its group (creating the group lazily), and retiring it again (deleting
 * the group with its last connection). Each step is one atomic transition;
 * the write lock the source holds across the channel fetch is what makes
 * this sequential reading faithful.
 */
module Registry {
  import opened Protocol
  import opened GroupState

  /** The user and group a connection task was opened for. */
  datatype ConnectionContext = ConnectionContext(userId: UserID, groupId: GroupID)

  /**
   * Registry state: the live groups, the context held by each live
   * connection task, and the next connection id to hand out.
   */
  datatype Hub = Hub(
    groups: map<GroupID, Group>,
    sessions: map<ConnID, ConnectionContext>,
    nextConnId: ConnID)

  /** An empty registry; the id counter starts at 1. */
  const InitialHub: Hub := Hub(map[], map[], 1)

  /** `conn` is one of `user`'s connections in `g`. */
  ghost predicate Owns(g: Group, user: UserID, conn: ConnID) {
    user in g.onlineUsers && conn in g.onlineUsers[user]
  }

  /** The connections `user` has open in `g` (empty when offline there). */
  function PresenceOf(g: Group, user: UserID): set<ConnID> {
    if user in g.onlineUsers then g.onlineUsers[user] else {}
  }

  /**
   * Well-formedness of a group's connection ids `keys` and presence map
   * `online` relative to the connection tasks: there is a connection,
   * presence entries are non-empty and name live connections, every
   * connection belongs to a task opened for group `gid` whose user lists it,
   * and presence names only connections of that user.
   */
  ghost predicate Shaped(keys: set<ConnID>, online: map<UserID, set<ConnID>>, gid: GroupID,
                         sessions: map<ConnID, ConnectionContext>) {
    && keys != {}
    && (forall u :: u in online ==> online[u] != {} && online[u] <= keys)
    && (forall c :: c in keys ==>
          && c in sessions && sessions[c].groupId == gid
          && sessions[c].userId in online && c in online[sessions[c].userId])
    && (forall u, c :: u in online && c in online[u] ==>
          c in sessions && sessions[c].userId == u)
  }

  /** Well-formedness of live group `gid`. */
  ghost predicate GroupWf(g: Group, gid: GroupID, sessions: map<ConnID, ConnectionContext>) {
    Shaped(g.connections.Keys, g.onlineUsers, gid, sessions)
  }

  /**
   * The registry invariant: every live group is well formed, every live
   * connection sits in its own group, and every id in use lies in
   * `[1, nextConnId)`.
   */
  ghost predicate Inv(h: Hub) {
    && h.nextConnId >= 1
    && AllGroupsWf(h.groups, h.sessions)
    && SessionsPlaced(h)
  }

  /** Every live group is well formed. */
  ghost predicate AllGroupsWf(groups: map<GroupID, Group>, sessions: map<ConnID, ConnectionContext>) {
    forall gid :: gid in groups ==> GroupWf(groups[gid], gid, sessions)
  }

  /** Every live connection has an id below the counter and sits in its own live group. */
  ghost predicate SessionsPlaced(h: Hub) {
    forall c :: c in h.sessions ==>
      && 1 <= c < h.nextConnId
      && h.sessions[c].groupId in h.groups
      && c in h.groups[h.sessions[c].groupId].connections
  }

  lemma InitialHubInv()
    ensures Inv(InitialHub)
  {
  }

  /** A new group for a first connection: fetched channels, one connection, one online user. */
  function CreateGroup(channels: seq<Channel>, user: UserID, conn: ConnID): (g: Group)
    ensures g.channels == channels
    ensures g.connections == map[conn := []]
    ensures g.onlineUsers == map[user := {conn}]
  {
    Group(channels, map[conn := []], map[user := {conn}])
  }

  /**
   * The `Entry::Occupied` branch of the join: insert the connection with an
   * empty outbox, add it to the user's presence, and broadcast Online to
   * every connection (the new one included) when the user's count became 1.
   */
  function JoinExisting(g: Group, user: UserID, conn: ConnID): (r: Group)
    ensures r.channels == g.channels
    ensures r.connections.Keys == g.connections.Keys + {conn}
    ensures r.onlineUsers == g.onlineUsers[user := PresenceOf(g, user) + {conn}]
  {
    var presence := PresenceOf(g, user) + {conn};
    var joined := Group(g.channels, g.connections[conn := []], g.onlineUsers[user := presence]);
    if |presence| == 1 then SendUserStatus(joined, user, Online) else joined
  }

  /**
   * For a fresh connection on a group with coherent presence, the user's
   * presence set after the join has one element exactly when the user had
   * no entry before: the counter's 0 to 1 transition.
   */
  lemma JoinedPresenceSize(g: Group, user: UserID, conn: ConnID)
    requires PresenceWithin(g) && conn !in g.connections
    ensures (|PresenceOf(g, user) + {conn}| == 1) <==> user !in g.onlineUsers
  {
    var before := PresenceOf(g, user);
    assert conn !in before;
    assert |before + {conn}| == |before| + 1;
    if user in g.onlineUsers {
      assert before != {};
    }
  }

  /**
   * For a fresh connection on a group with coherent presence, Online is
   * broadcast exactly when the user had no connection there before: then
   * every connection, the new one included, gets one UserStatusChanged
   * Online; otherwise no outbox changes and the new one starts empty.
   */
  lemma JoinBroadcastsOnline(g: Group, user: UserID, conn: ConnID)
    requires PresenceWithin(g) && conn !in g.connections
    ensures var r := JoinExisting(g, user, conn);
      var online := Text(UserStatusChanged(user, Online));
      && (user !in g.onlineUsers ==>
            && r.connections[conn] == [online]
            && forall c :: c in g.connections ==> r.connections[c] == g.connections[c] + [online])
      && (user in g.onlineUsers ==>
            && r.connections[conn] == []
            && forall c :: c in g.connections ==> r.connections[c] == g.connections[c])
  {
    JoinedPresenceSize(g, user, conn);
    var presence := PresenceOf(g, user) + {conn};
    var joined := Group(g.channels, g.connections[conn := []], g.onlineUsers[user := presence]);
    if user !in g.onlineUsers {
      assert JoinExisting(g, user, conn) == SendUserStatus(joined, user, Online);
    } else {
      assert JoinExisting(g, user, conn) == joined;
    }
  }

  /** Outcome of admitting a connection. */
  datatype Admission = Admission(hub: Hub, connId: ConnID, fetched: bool, admitted: bool)

  /**
   * Allocate the next connection id, then join the connection to group
   * `gid` for `user`. The channel fetch is consulted only when the group is
   * absent; if it fails the connection is not admitted and the registry is
   * unchanged (the id stays consumed).
   */
  function Connect(h: Hub, gid: GroupID, user: UserID, fetch: Db<seq<Channel>>): (r: Admission)
    ensures r.connId == h.nextConnId && r.hub.nextConnId == h.nextConnId + 1
    ensures r.fetched <==> gid !in h.groups
    ensures r.admitted <==> gid in h.groups || fetch.Ok?
    ensures !r.admitted ==> r.hub.groups == h.groups && r.hub.sessions == h.sessions
    ensures r.admitted ==>
      && r.hub.sessions == h.sessions[r.connId := ConnectionContext(user, gid)]
      && gid in r.hub.groups
    ensures gid !in h.groups && fetch.Ok? ==>
      r.hub.groups[gid] == Group(fetch.value, map[r.connId := []], map[user := {r.connId}])
    ensures gid in h.groups ==>
      r.hub.groups[gid] == JoinExisting(h.groups[gid], user, r.connId)
    ensures forall g :: g != gid ==>
      && (g in r.hub.groups <==> g in h.groups)
      && (g in h.groups ==> r.hub.groups[g] == h.groups[g])
  {
    var conn := h.nextConnId;
    var counted := h.(nextConnId := conn + 1);
    var session := h.sessions[conn := ConnectionContext(user, gid)];
    if gid in h.groups then
      var g := JoinExisting(h.groups[gid], user, conn);
      Admission(counted.(groups := h.groups[gid := g], sessions := session), conn, false, true)
    else
      match fetch
      case Failed => Admission(counted, conn, true, false)
      case Ok(channels) =>
        var g := CreateGroup(channels, user, conn);
        Admission(counted.(groups := h.groups[gid := g], sessions := session), conn, true, true)
  }

  /**
   * The leave block on one group. `None` means the group lost its last
   * connection and is removed. Otherwise the user's entry is dropped (and
   * Offline broadcast to the remaining connections) when it held one
   * connection, or loses `conn`. The source panics when connections remain
   * and the user has no entry.
   */
  function LeaveGroup(g: Group, user: UserID, conn: ConnID): (r: Option<Group>)
    requires g.connections.Keys - {conn} != {} ==> user in g.onlineUsers
    ensures r.None? <==> g.connections.Keys <= {conn}
    ensures r.Some? ==>
      && r.value.channels == g.channels
      && r.value.connections.Keys == g.connections.Keys - {conn}
    ensures r.Some? && |g.onlineUsers[user]| == 1 ==>
      && r.value.onlineUsers == g.onlineUsers - {user}
      && forall c :: c in r.value.connections ==>
           r.value.connections[c] == g.connections[c] + [Text(UserStatusChanged(user, Offline))]
    ensures r.Some? && |g.onlineUsers[user]| != 1 ==>
      && r.value.onlineUsers == g.onlineUsers[user := g.onlineUsers[user] - {conn}]
      && forall c :: c in r.value.connections ==> r.value.connections[c] == g.connections[c]
  {
    var remaining := g.connections - {conn};
    if remaining.Keys == {} then None
    else
      var presence := g.onlineUsers[user];
      if |presence| == 1 then
        Some(SendUserStatus(Group(g.channels, remaining, g.onlineUsers - {user}), user, Offline))
      else
        Some(Group(g.channels, remaining, g.onlineUsers[user := presence - {conn}]))
  }

  /** What the source needs to retire `conn` without panicking. */
  ghost predicate CanDisconnect(h: Hub, conn: ConnID) {
    && conn in h.sessions
    && h.sessions[conn].groupId in h.groups
    && var g := h.groups[h.sessions[conn].groupId];
       g.connections.Keys - {conn} != {} ==> h.sessions[conn].userId in g.onlineUsers
  }

  /** Retire connection `conn`: leave its group and end its task. Only that group changes. */
  function Disconnect(h: Hub, conn: ConnID): (r: Hub)
    requires CanDisconnect(h, conn)
    ensures r.sessions == h.sessions - {conn}
    ensures r.nextConnId == h.nextConnId
    ensures var gid := h.sessions[conn].groupId;
      && (gid in r.groups <==> !(h.groups[gid].connections.Keys <= {conn}))
      && (gid in r.groups ==>
            Some(r.groups[gid]) == LeaveGroup(h.groups[gid], h.sessions[conn].userId, conn))
      && forall g :: g != gid ==>
           && (g in r.groups <==> g in h.groups)
           && (g in h.groups ==> r.groups[g] == h.groups[g])
  {
    var ctx := h.sessions[conn];
    var groups := match LeaveGroup(h.groups[ctx.groupId], ctx.userId, conn)
      case None => h.groups - {ctx.groupId}
      case Some(g) => h.groups[ctx.groupId := g];
    Hub(groups, h.sessions - {conn}, h.nextConnId)
  }

  // ---------------------------------------------------------------------
  // Invariant preservation
  // ---------------------------------------------------------------------

  /** Every live connection can be retired. */
  lemma InvAllowsDisconnect(h: Hub, conn: ConnID)
    requires Inv(h) && conn in h.sessions
    ensures CanDisconnect(h, conn)
  {
    var gid := h.sessions[conn].groupId;
    assert GroupWf(h.groups[gid], gid, h.sessions);
  }

  /** Presence entries of a well-formed group are pairwise disjoint. */
  lemma WfPresenceDisjoint(g: Group, gid: GroupID, sessions: map<ConnID, ConnectionContext>)
    requires GroupWf(g, gid, sessions)
    ensures PresenceDisjoint(g)
  {
  }

  /** The next id is unused anywhere in the registry. */
  lemma NextIdFresh(h: Hub)
    requires Inv(h)
    ensures h.nextConnId !in h.sessions
    ensures forall gid :: gid in h.groups ==> h.nextConnId !in h.groups[gid].connections
  {
    forall gid | gid in h.groups
      ensures h.nextConnId !in h.groups[gid].connections
    {
      assert GroupWf(h.groups[gid], gid, h.sessions);
    }
  }

  /** A group stays well formed when the contexts of its own connections are unchanged. */
  lemma ShapedFrame(keys: set<ConnID>, online: map<UserID, set<ConnID>>, gid: GroupID,
                    s: map<ConnID, ConnectionContext>, s': map<ConnID, ConnectionContext>)
    requires Shaped(keys, online, gid, s)
    requires forall c :: c in keys ==> c in s' && s'[c] == s[c]
    ensures Shaped(keys, online, gid, s')
  {
    forall u, c | u in online && c in online[u]
      ensures c in s' && s'[c].userId == u
    {
      assert c in keys;
    }
  }

  /** Adding a fresh connection of `user` keeps the shape. */
  lemma JoinShaped(keys: set<ConnID>, online: map<UserID, set<ConnID>>, gid: GroupID,
                   s: map<ConnID, ConnectionContext>, user: UserID, conn: ConnID)
    requires Shaped(keys, online, gid, s) && conn !in s
    ensures var before := if user in online then online[user] else {};
      Shaped(keys + {conn}, online[user := before + {conn}], gid, s[conn := ConnectionContext(user, gid)])
  {
    var before := if user in online then online[user] else {};
    var keys', online' := keys + {conn}, online[user := before + {conn}];
    var s' := s[conn := ConnectionContext(user, gid)];
    forall c | c in keys'
      ensures c in s' && s'[c].groupId == gid && s'[c].userId in online' && c in online'[s'[c].userId]
    {
      if c != conn {
        var u := s[c].userId;
        assert c in online[u];
      }
    }
    forall u, c | u in online' && c in online'[u]
      ensures c in s' && s'[c].userId == u
    {
      if c != conn {
        assert c in online[u];
      }
    }
  }

  /** Removing a connection of `user` that is not the last keeps the shape. */
  lemma LeaveShaped(keys: set<ConnID>, online: map<UserID, set<ConnID>>, gid: GroupID,
                    s: map<ConnID, ConnectionContext>, user: UserID, conn: ConnID)
    requires Shaped(keys, online, gid, s) && conn in keys && s[conn].userId == user
    requires keys - {conn} != {}
    ensures user in online && conn in online[user]
    ensures |online[user]| == 1 ==> Shaped(keys - {conn}, online - {user}, gid, s - {conn})
    ensures |online[user]| != 1 ==>
      Shaped(keys - {conn}, online[user := online[user] - {conn}], gid, s - {conn})
  {
    var mine := online[user];
    var s' := s - {conn};
    if |mine| == 1 {
      assert mine == {conn} by {
        assert |mine - {conn}| == |mine| - 1 == 0;
      }
      var online' := online - {user};
      forall c | c in keys - {conn}
        ensures c in s' && s'[c].groupId == gid && s'[c].userId in online' && c in online'[s'[c].userId]
      {
        assert s[c].userId != user;
      }
    } else {
      var online' := online[user := mine - {conn}];
      assert |mine - {conn}| == |mine| - 1;
      forall u | u in online'
        ensures online'[u] != {} && online'[u] <= keys - {conn}
      {
        if u != user {
          forall c | c in online[u]
            ensures c != conn
          {
            assert s[c].userId == u;
          }
        }
      }
    }
  }

  /** A group stays well formed when the contexts of its own connections are unchanged. */
  lemma GroupWfFrame(g: Group, gid: GroupID, s: map<ConnID, ConnectionContext>, s': map<ConnID, ConnectionContext>)
    requires GroupWf(g, gid, s)
    requires forall c :: c in g.connections ==> c in s' && s'[c] == s[c]
    ensures GroupWf(g, gid, s')
  {
    ShapedFrame(g.connections.Keys, g.onlineUsers, gid, s, s');
  }

  /** Joining an existing group with a fresh id keeps that group well formed. */
  lemma JoinedGroupWf(g: Group, gid: GroupID, s: map<ConnID, ConnectionContext>, user: UserID, conn: ConnID)
    requires GroupWf(g, gid, s) && conn !in s
    ensures GroupWf(JoinExisting(g, user, conn), gid, s[conn := ConnectionContext(user, gid)])
  {
    JoinShaped(g.connections.Keys, g.onlineUsers, gid, s, user, conn);
  }

  /** A group created for a first connection is well formed. */
  lemma CreatedGroupWf(channels: seq<Channel>, gid: GroupID, s: map<ConnID, ConnectionContext>, user: UserID, conn: ConnID)
    ensures GroupWf(CreateGroup(channels, user, conn), gid, s[conn := ConnectionContext(user, gid)])
  {
    assert CreateGroup(channels, user, conn).connections.Keys == {conn};
  }

  /** A group a connection leaves is well formed afterwards, when it survives. */
  lemma LeftGroupWf(g: Group, gid: GroupID, s: map<ConnID, ConnectionContext>, user: UserID, conn: ConnID)
    requires GroupWf(g, gid, s) && conn in g.connections && s[conn].userId == user
    requires g.connections.Keys - {conn} != {}
    ensures user in g.onlineUsers
    ensures LeaveGroup(g, user, conn).Some?
    ensures GroupWf(LeaveGroup(g, user, conn).value, gid, s - {conn})
  {
    LeaveShaped(g.connections.Keys, g.onlineUsers, gid, s, user, conn);
  }

  /**
   * Groups other than `gid` stay well formed when the contexts of
   * connections outside `gid` are unchanged.
   */
  lemma OtherGroupsWf(groups: map<GroupID, Group>, gid: GroupID,
                      s: map<ConnID, ConnectionContext>, s': map<ConnID, ConnectionContext>)
    requires AllGroupsWf(groups, s)
    requires forall c :: c in s && s[c].groupId != gid ==> c in s' && s'[c] == s[c]
    ensures AllGroupsWf(groups - {gid}, s')
  {
    forall g | g in groups && g != gid
      ensures GroupWf(groups[g], g, s')
    {
      assert GroupWf(groups[g], g, s);
      GroupWfFrame(groups[g], g, s, s');
    }
  }

  /** Putting a well-formed group back keeps every group well formed. */
  lemma InsertGroupWf(groups: map<GroupID, Group>, gid: GroupID, g': Group, s: map<ConnID, ConnectionContext>)
    requires AllGroupsWf(groups - {gid}, s) && GroupWf(g', gid, s)
    ensures AllGroupsWf(groups[gid := g'], s)
  {
    var groups' := groups[gid := g'];
    forall g | g in groups'
      ensures GroupWf(groups'[g], g, s)
    {
      if g != gid {
        assert groups'[g] == (groups - {gid})[g];
      }
    }
  }

  /** Installing a well-formed group under a fresh connection keeps every group well formed. */
  lemma InstallGroupsWf(groups: map<GroupID, Group>, s: map<ConnID, ConnectionContext>,
                        gid: GroupID, g': Group, conn: ConnID, ctx: ConnectionContext)
    requires AllGroupsWf(groups, s) && conn !in s
    requires GroupWf(g', gid, s[conn := ctx])
    ensures AllGroupsWf(groups[gid := g'], s[conn := ctx])
  {
    OtherGroupsWf(groups, gid, s, s[conn := ctx]);
    InsertGroupWf(groups, gid, g', s[conn := ctx]);
  }

  /** Installing a group that keeps its old connections and holds the new one keeps sessions placed. */
  lemma InstallSessionsPlaced(h: Hub, gid: GroupID, g': Group, user: UserID)
    requires SessionsPlaced(h) && h.nextConnId >= 1
    requires h.nextConnId in g'.connections
    requires gid in h.groups ==> h.groups[gid].connections.Keys <= g'.connections.Keys
    ensures var conn := h.nextConnId;
      SessionsPlaced(Hub(h.groups[gid := g'], h.sessions[conn := ConnectionContext(user, gid)], conn + 1))
  {
    var conn := h.nextConnId;
    var h' := Hub(h.groups[gid := g'], h.sessions[conn := ConnectionContext(user, gid)], conn + 1);
    forall c | c in h'.sessions
      ensures 1 <= c < h'.nextConnId
      ensures h'.sessions[c].groupId in h'.groups
      ensures c in h'.groups[h'.sessions[c].groupId].connections
    {
      if c != conn {
        assert c in h.sessions && h'.sessions[c] == h.sessions[c];
      }
    }
  }

  /** Installing a well-formed group with a fresh connection id preserves the invariant. */
  lemma InstallPreservesInv(h: Hub, gid: GroupID, g': Group, user: UserID)
    requires Inv(h)
    requires var conn := h.nextConnId;
      && conn in g'.connections
      && GroupWf(g', gid, h.sessions[conn := ConnectionContext(user, gid)])
      && (gid in h.groups ==> h.groups[gid].connections.Keys <= g'.connections.Keys)
    ensures var conn := h.nextConnId;
      Inv(Hub(h.groups[gid := g'], h.sessions[conn := ConnectionContext(user, gid)], conn + 1))
  {
    var conn := h.nextConnId;
    InstallGroupsWf(h.groups, h.sessions, gid, g', conn, ConnectionContext(user, gid));
    InstallSessionsPlaced(h, gid, g', user);
  }

  /** Joining an existing group preserves the invariant. */
  lemma JoinPreservesInv(h: Hub, gid: GroupID, user: UserID)
    requires Inv(h) && gid in h.groups
    ensures var conn := h.nextConnId;
      Inv(Hub(h.groups[gid := JoinExisting(h.groups[gid], user, conn)],
              h.sessions[conn := ConnectionContext(user, gid)], conn + 1))
  {
    NextIdFresh(h);
    JoinedGroupWf(h.groups[gid], gid, h.sessions, user, h.nextConnId);
    InstallPreservesInv(h, gid, JoinExisting(h.groups[gid], user, h.nextConnId), user);
  }

  /** Creating an absent group preserves the invariant. */
  lemma CreatePreservesInv(h: Hub, gid: GroupID, user: UserID, channels: seq<Channel>)
    requires Inv(h) && gid !in h.groups
    ensures var conn := h.nextConnId;
      Inv(Hub(h.groups[gid := CreateGroup(channels, user, conn)],
              h.sessions[conn := ConnectionContext(user, gid)], conn + 1))
  {
    CreatedGroupWf(channels, gid, h.sessions, user, h.nextConnId);
    InstallPreservesInv(h, gid, CreateGroup(channels, user, h.nextConnId), user);
  }

  /** Consuming an id without admitting anything preserves the invariant. */
  lemma SkipIdPreservesInv(h: Hub)
    requires Inv(h)
    ensures Inv(h.(nextConnId := h.nextConnId + 1))
  {
    var h' := h.(nextConnId := h.nextConnId + 1);
    assert SessionsPlaced(h') by {
      forall c | c in h'.sessions
        ensures 1 <= c < h'.nextConnId
      {
        assert c in h.sessions;
      }
    }
  }

  /** Admitting a connection (or failing to) preserves the invariant. */
  lemma ConnectPreservesInv(h: Hub, gid: GroupID, user: UserID, fetch: Db<seq<Channel>>)
    requires Inv(h)
    ensures Inv(Connect(h, gid, user, fetch).hub)
  {
    if gid in h.groups {
      JoinPreservesInv(h, gid, user);
    } else if fetch.Ok? {
      CreatePreservesInv(h, gid, user, fetch.value);
    } else {
      SkipIdPreservesInv(h);
    }
  }

  /**
   * Removing connection `conn` and replacing (or dropping) its group with a
   * well-formed remainder keeps every group well formed.
   */
  lemma RetireGroupsWf(h: Hub, conn: ConnID, rest: Option<Group>)
    requires AllGroupsWf(h.groups, h.sessions) && conn in h.sessions
    requires rest.Some? ==> GroupWf(rest.value, h.sessions[conn].groupId, h.sessions - {conn})
    ensures var gid := h.sessions[conn].groupId;
      AllGroupsWf(if rest.Some? then h.groups[gid := rest.value] else h.groups - {gid}, h.sessions - {conn})
  {
    var gid := h.sessions[conn].groupId;
    OtherGroupsWf(h.groups, gid, h.sessions, h.sessions - {conn});
    if rest.Some? {
      InsertGroupWf(h.groups, gid, rest.value, h.sessions - {conn});
    }
  }

  /** Removing connection `conn` and shrinking (or dropping) its group keeps sessions placed. */
  lemma RetireSessionsPlaced(h: Hub, conn: ConnID, rest: Option<Group>)
    requires SessionsPlaced(h) && conn in h.sessions
    requires var gid := h.sessions[conn].groupId;
      match rest
      case None => h.groups[gid].connections.Keys <= {conn}
      case Some(g') => g'.connections.Keys == h.groups[gid].connections.Keys - {conn}
    ensures var gid := h.sessions[conn].groupId;
      SessionsPlaced(Hub(if rest.Some? then h.groups[gid := rest.value] else h.groups - {gid},
                         h.sessions - {conn}, h.nextConnId))
  {
    var gid := h.sessions[conn].groupId;
    var h' := Hub(if rest.Some? then h.groups[gid := rest.value] else h.groups - {gid},
                  h.sessions - {conn}, h.nextConnId);
    forall c | c in h'.sessions
      ensures 1 <= c < h'.nextConnId
      ensures h'.sessions[c].groupId in h'.groups
      ensures c in h'.groups[h'.sessions[c].groupId].connections
    {
      assert c in h.sessions && c != conn;
      if h.sessions[c].groupId == gid {
        assert c in h.groups[gid].connections;
      }
    }
  }

  /** Retiring a live connection preserves the invariant. */
  lemma DisconnectPreservesInv(h: Hub, conn: ConnID)
    requires Inv(h) && conn in h.sessions
    ensures CanDisconnect(h, conn)
    ensures Inv(Disconnect(h, conn))
  {
    InvAllowsDisconnect(h, conn);
    var ctx := h.sessions[conn];
    var g := h.groups[ctx.groupId];
    assert GroupWf(g, ctx.groupId, h.sessions);
    var rest := LeaveGroup(g, ctx.userId, conn);
    if rest.Some? {
      LeftGroupWf(g, ctx.groupId, h.sessions, ctx.userId, conn);
    }
    RetireGroupsWf(h, conn, rest);
    RetireSessionsPlaced(h, conn, rest);
  }

  // ---------------------------------------------------------------------
  // Join and leave in terms of the source's per-user counters
  // ---------------------------------------------------------------------

  /** The `HashMap<UserID, u32>` the source keeps: the size of each presence set. */
  function Counts(g: Group): (m: map<UserID, nat>)
    ensures m.Keys == g.onlineUsers.Keys
    ensures PresenceWithin(g) ==> forall u :: u in m ==> m[u] >= 1
  {
    map u | u in g.onlineUsers :: |g.onlineUsers[u]|
  }

  /** Source lines 115-117: `or_insert(0)`, increment, and report whether it became 1. */
  function CountJoin(counts: map<UserID, nat>, user: UserID): (r: (map<UserID, nat>, bool))
    ensures r.0.Keys == counts.Keys + {user}
    ensures r.0[user] == (if user in counts then counts[user] else 0) + 1
    ensures forall u :: u in counts && u != user ==> r.0[u] == counts[u]
    ensures r.1 <==> user !in counts || counts[user] == 0
  {
    var n := (if user in counts then counts[user] else 0) + 1;
    (counts[user := n], n == 1)
  }

  /** Source lines 159-165: drop the entry at 1 (reporting Offline), else decrement. */
  function CountLeave(counts: map<UserID, nat>, user: UserID): (r: (map<UserID, nat>, bool))
    requires user in counts && counts[user] >= 1
    ensures r.1 <==> counts[user] == 1
    ensures r.1 ==> r.0.Keys == counts.Keys - {user}
    ensures !r.1 ==> r.0.Keys == counts.Keys && r.0[user] == counts[user] - 1
    ensures forall u :: u in counts && u != user ==> u in r.0 && r.0[u] == counts[u]
  {
    if counts[user] == 1 then (counts - {user}, true)
    else (counts[user := counts[user] - 1], false)
  }

  /**
   * The set-based join refines the counter: for a fresh connection the new
   * counts are the incremented counts, and Online is broadcast exactly when
   * the counter reports the 0 to 1 transition, i.e. when the user was not
   * online before.
   */
  lemma JoinRefinesCount(g: Group, user: UserID, conn: ConnID)
    requires PresenceWithin(g) && conn !in g.connections
    ensures Counts(JoinExisting(g, user, conn)) == CountJoin(Counts(g), user).0
    ensures var became1 := |PresenceOf(g, user) + {conn}| == 1;
      (became1 <==> CountJoin(Counts(g), user).1) && (became1 <==> user !in g.onlineUsers)
  {
    JoinedPresenceSize(g, user, conn);
    var before := PresenceOf(g, user);
    assert |before + {conn}| == |before| + 1;
    CountsAfterUpdate(g, JoinExisting(g, user, conn), user, before + {conn});
  }

  /** Replacing one presence entry replaces exactly that count. */
  lemma CountsAfterUpdate(g: Group, r: Group, user: UserID, presence: set<ConnID>)
    requires r.onlineUsers == g.onlineUsers[user := presence]
    ensures Counts(r) == Counts(g)[user := |presence|]
  {
    var m1, m2 := Counts(r), Counts(g)[user := |presence|];
    assert m1.Keys == m2.Keys;
    forall u | u in m1
      ensures m1[u] == m2[u]
    {
    }
  }

  /**
   * The set-based leave refines the counter: when `conn` is one of the
   * user's connections and others remain, the new counts are the
   * decremented counts and Offline is broadcast exactly when the counter
   * reports the 1 to 0 transition.
   */
  lemma LeaveRefinesCount(g: Group, user: UserID, conn: ConnID)
    requires PresenceWithin(g) && Owns(g, user, conn)
    requires g.connections.Keys - {conn} != {}
    ensures LeaveGroup(g, user, conn).Some?
    ensures Counts(LeaveGroup(g, user, conn).value) == CountLeave(Counts(g), user).0
    ensures (|g.onlineUsers[user]| == 1) <==> CountLeave(Counts(g), user).1
  {
    var r := LeaveGroup(g, user, conn).value;
    if |g.onlineUsers[user]| != 1 {
      assert |g.onlineUsers[user] - {conn}| == |g.onlineUsers[user]| - 1;
    }
  }

  /**
   * Under the invariant a user's presence set is exactly the set of that
   * user's connections in the group, so the count is the number of the
   * user's connections and is never zero.
   */
  lemma PresenceIsConnectionsOfUser(h: Hub, gid: GroupID, user: UserID)
    requires Inv(h) && gid in h.groups
    ensures var g := h.groups[gid];
      PresenceOf(g, user) == set c | c in g.connections && h.sessions[c].userId == user
    ensures var g := h.groups[gid];
      user in g.onlineUsers <==> exists c :: c in g.connections && h.sessions[c].userId == user
  {
    assert GroupWf(h.groups[gid], gid, h.sessions);
    var g := h.groups[gid];
    if user !in g.onlineUsers {
      forall c | c in g.connections
        ensures h.sessions[c].userId != user
      {
        assert Owns(g, h.sessions[c].userId, c);
      }
    } else {
      var c :| c in g.onlineUsers[user];
      assert c in g.connections && h.sessions[c].userId == user;
    }
  }

  /** A second connection of the creating user: no broadcast, both outboxes empty, two connections. */
  lemma SecondJoinOfCreator(channels: seq<Channel>, user: UserID, n: ConnID)
    ensures var g := JoinExisting(CreateGroup(channels, user, n), user, n + 1);
      && g.channels == channels
      && g.connections == map[n := [], n + 1 := []]
      && g.onlineUsers == map[user := {n, n + 1}]
  {
    var g1 := CreateGroup(channels, user, n);
    JoinBroadcastsOnline(g1, user, n + 1);
    var g := JoinExisting(g1, user, n + 1);
    assert PresenceOf(g1, user) + {n + 1} == {n, n + 1};
    assert g.connections.Keys == {n, n + 1};
  }

  /**
   * Two connections of one user to an absent group: the channels are
   * fetched once, Online is never broadcast, and the user's count is 2.
   */
  lemma SecondDeviceJoin(h: Hub, gid: GroupID, user: UserID, channels: seq<Channel>, second: Db<seq<Channel>>)
    requires gid !in h.groups
    ensures var a := Connect(h, gid, user, Ok(channels));
      var b := Connect(a.hub, gid, user, second);
      && a.fetched && !b.fetched && b.admitted
      && b.hub.groups[gid].channels == channels
      && Counts(b.hub.groups[gid])[user] == 2
      && forall c :: c in b.hub.groups[gid].connections ==> b.hub.groups[gid].connections[c] == []
  {
    var n := h.nextConnId;
    var a := Connect(h, gid, user, Ok(channels));
    ConnectCreates(h, gid, user, channels);
    ConnectJoins(a.hub, gid, user, second);
    SecondJoinOfCreator(channels, user, n);
    var g := Connect(a.hub, gid, user, second).hub.groups[gid];
    assert |g.onlineUsers[user]| == 2;
  }

  /** Connecting to an absent group with a successful fetch creates it. */
  lemma ConnectCreates(h: Hub, gid: GroupID, user: UserID, channels: seq<Channel>)
    requires gid !in h.groups
    ensures var a := Connect(h, gid, user, Ok(channels));
      && a.fetched && a.admitted && a.hub.nextConnId == h.nextConnId + 1
      && gid in a.hub.groups && a.hub.groups[gid] == CreateGroup(channels, user, h.nextConnId)
  {
  }

  /** Connecting to a live group joins it without a fetch. */
  lemma ConnectJoins(h: Hub, gid: GroupID, user: UserID, fetch: Db<seq<Channel>>)
    requires gid in h.groups
    ensures var b := Connect(h, gid, user, fetch);
      && !b.fetched && b.admitted
      && b.hub.groups[gid] == JoinExisting(h.groups[gid], user, h.nextConnId)
  {
  }
}
