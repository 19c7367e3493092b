/**
 * The user-to-groups index the dispatcher reads when a group is renamed
 * (src/socket/handler.rs, the end of `rename_group`). The type `UserGroups`
 * is imported by src/socket/handler.rs:7 from `upgrade.rs`, which does not
 * define it; it is taken here as a map from a user to the set of live
 * groups in which that user is online.
 */
module UserIndex {
  import opened Protocol
  import opened GroupState

  type UserGroups = map<UserID, set<GroupID>>

  /** Every indexed pair names a live group in which the user has a presence entry. */
  ghost predicate IndexSound(groups: map<GroupID, Group>, ug: UserGroups) {
    forall u, gid :: u in ug && gid in ug[u] ==> gid in groups && u in groups[gid].onlineUsers
  }

  /** Every presence entry of every live group is indexed. */
  ghost predicate IndexComplete(groups: map<GroupID, Group>, ug: UserGroups) {
    forall gid, u :: gid in groups && u in groups[gid].onlineUsers ==> u in ug && gid in ug[u]
  }

  /** Presence is coherent in every live group. */
  ghost predicate AllPresenceWithin(groups: map<GroupID, Group>) {
    forall gid :: gid in groups ==> PresenceWithin(groups[gid])
  }

  /** The two maps have the same groups, and each group changed at most in its outboxes. */
  ghost predicate OutboxesOnly(before: map<GroupID, Group>, after: map<GroupID, Group>) {
    && after.Keys == before.Keys
    && forall gid :: gid in before ==> OnlyOutboxes(before[gid], after[gid])
  }

  /** The index sends `user`'s copy to connection `c` of group `gid`. */
  predicate Reaches(ug: UserGroups, online: map<UserID, set<ConnID>>, user: UserID, gid: GroupID, c: ConnID) {
    user in ug && gid in ug[user] && user in online && c in online[user]
  }

  /** `n` copies of `f`. */
  function Repeat(f: Frame, n: nat): (q: seq<Frame>)
    ensures |q| == n
    ensures forall i :: 0 <= i < n ==> q[i] == f
  {
    if n == 0 then [] else [f] + Repeat(f, n - 1)
  }

  lemma {:induction false} RepeatAdd(f: Frame, a: nat, b: nat)
    ensures Repeat(f, a) + Repeat(f, b) == Repeat(f, a + b)
  {
    var l, r := Repeat(f, a) + Repeat(f, b), Repeat(f, a + b);
    assert |l| == |r|;
    forall i | 0 <= i < |l|
      ensures l[i] == r[i]
    {
      if i < a {
        assert l[i] == Repeat(f, a)[i];
      } else {
        assert l[i] == Repeat(f, b)[i - a];
      }
    }
  }

  /** How many roster entries the index routes to connection `c` of group `gid`. */
  function Hits(users: seq<UserID>, ug: UserGroups, online: map<UserID, set<ConnID>>, gid: GroupID, c: ConnID): nat
  {
    if |users| == 0 then 0
    else (if Reaches(ug, online, users[0], gid, c) then 1 else 0) + Hits(users[1..], ug, online, gid, c)
  }

  /**
   * The two inner loops for one roster entry: every connection of `user`
   * in every group the index lists for `user` receives `f`; nothing else
   * changes. A user absent from the index is skipped.
   */
  function NotifyUser(groups: map<GroupID, Group>, ug: UserGroups, user: UserID, f: Frame): (r: map<GroupID, Group>)
    requires IndexSound(groups, ug) && AllPresenceWithin(groups)
    ensures OutboxesOnly(groups, r)
    ensures forall gid, c :: gid in groups && c in groups[gid].connections ==>
      r[gid].connections[c] ==
        groups[gid].connections[c] + (if Reaches(ug, groups[gid].onlineUsers, user, gid, c) then [f] else [])
  {
    map gid | gid in groups ::
      if user in ug && gid in ug[user] then SendToUser(groups[gid], user, f) else groups[gid]
  }

  /** Changing outboxes only keeps the index sound and presence coherent. */
  lemma OutboxesOnlyKeepsIndex(before: map<GroupID, Group>, after: map<GroupID, Group>, ug: UserGroups)
    requires OutboxesOnly(before, after)
    ensures IndexSound(before, ug) ==> IndexSound(after, ug)
    ensures IndexComplete(before, ug) ==> IndexComplete(after, ug)
    ensures AllPresenceWithin(before) ==> AllPresenceWithin(after)
  {
    if AllPresenceWithin(before) {
      forall gid | gid in after
        ensures PresenceWithin(after[gid])
      {
        assert PresenceWithin(before[gid]);
      }
    }
  }

  /**
   * The fan-out of `rename_group`: each connection receives one copy of `f`
   * per roster entry that the index routes to it, and nothing else changes.
   */
  function FanOut(groups: map<GroupID, Group>, ug: UserGroups, users: seq<UserID>, f: Frame): (r: map<GroupID, Group>)
    requires IndexSound(groups, ug) && AllPresenceWithin(groups)
    decreases |users|
    ensures OutboxesOnly(groups, r)
    ensures forall gid, c :: gid in groups && c in groups[gid].connections ==>
      r[gid].connections[c] ==
        groups[gid].connections[c] + Repeat(f, Hits(users, ug, groups[gid].onlineUsers, gid, c))
  {
    if |users| == 0 then groups
    else
      var next := NotifyUser(groups, ug, users[0], f);
      OutboxesOnlyKeepsIndex(groups, next, ug);
      var r := FanOut(next, ug, users[1..], f);
      FanOutStep(groups, next, r, ug, users, f);
      r
  }

  /** One unrolling of the fan-out, connection by connection. */
  lemma FanOutStep(groups: map<GroupID, Group>, next: map<GroupID, Group>, r: map<GroupID, Group>,
                   ug: UserGroups, users: seq<UserID>, f: Frame)
    requires |users| > 0
    requires OutboxesOnly(groups, next) && OutboxesOnly(next, r)
    requires forall gid, c :: gid in groups && c in groups[gid].connections ==>
      next[gid].connections[c] ==
        groups[gid].connections[c] + (if Reaches(ug, groups[gid].onlineUsers, users[0], gid, c) then [f] else [])
    requires forall gid, c :: gid in next && c in next[gid].connections ==>
      r[gid].connections[c] ==
        next[gid].connections[c] + Repeat(f, Hits(users[1..], ug, next[gid].onlineUsers, gid, c))
    ensures OutboxesOnly(groups, r)
    ensures forall gid, c :: gid in groups && c in groups[gid].connections ==>
      r[gid].connections[c] ==
        groups[gid].connections[c] + Repeat(f, Hits(users, ug, groups[gid].onlineUsers, gid, c))
  {
    forall gid, c | gid in groups && c in groups[gid].connections
      ensures r[gid].connections[c] ==
        groups[gid].connections[c] + Repeat(f, Hits(users, ug, groups[gid].onlineUsers, gid, c))
    {
      var online := groups[gid].onlineUsers;
      assert next[gid].onlineUsers == online && c in next[gid].connections;
      AppendOneMore(groups[gid].connections[c], f, Reaches(ug, online, users[0], gid, c),
                    Hits(users[1..], ug, online, gid, c));
    }
  }

  /** A conditional copy followed by `n` copies is `n` copies plus one when the condition holds. */
  lemma AppendOneMore(q: seq<Frame>, f: Frame, hit: bool, n: nat)
    ensures q + (if hit then [f] else []) + Repeat(f, n) == q + Repeat(f, (if hit then 1 else 0) + n)
  {
    var first := if hit then 1 else 0;
    assert (if hit then [f] else []) == Repeat(f, first);
    RepeatAdd(f, first, n);
    assert q + Repeat(f, first) + Repeat(f, n) == q + (Repeat(f, first) + Repeat(f, n));
  }

  /** A roster without repetitions. */
  ghost predicate Distinct(users: seq<UserID>) {
    forall i, j :: 0 <= i < j < |users| ==> users[i] != users[j]
  }

  /**
   * A connection owned by exactly one user, whose group the index lists
   * for that user, is hit once when the owner is on a distinct roster and
   * not at all otherwise.
   */
  lemma {:induction false} HitsOfOwner(users: seq<UserID>, ug: UserGroups, online: map<UserID, set<ConnID>>,
                                      gid: GroupID, c: ConnID, owner: UserID)
    requires owner in online && c in online[owner]
    requires forall v :: v in online && c in online[v] ==> v == owner
    requires owner in ug && gid in ug[owner]
    requires Distinct(users)
    decreases |users|
    ensures Hits(users, ug, online, gid, c) == if owner in users then 1 else 0
  {
    if |users| > 0 {
      HitsOfOwner(users[1..], ug, online, gid, c, owner);
      if users[0] == owner {
        assert owner !in users[1..] by {
          forall j | 1 <= j < |users|
            ensures users[j] != owner
          {
          }
        }
      } else {
        assert owner in users <==> owner in users[1..] by {
          if owner in users {
            var k :| 0 <= k < |users| && users[k] == owner;
            assert users[1..][k - 1] == owner;
          }
        }
      }
    }
  }

  /**
   * With a complete index over a group whose presence entries are disjoint,
   * renaming reaches a connection of user `owner` exactly once when the
   * owner is on the (distinct) roster, and not at all otherwise.
   */
  lemma FanOutReachesOwnerOnce(groups: map<GroupID, Group>, ug: UserGroups, users: seq<UserID>, f: Frame,
                               gid: GroupID, c: ConnID, owner: UserID)
    requires IndexSound(groups, ug) && IndexComplete(groups, ug) && AllPresenceWithin(groups)
    requires Distinct(users)
    requires gid in groups && PresenceDisjoint(groups[gid])
    requires owner in groups[gid].onlineUsers && c in groups[gid].onlineUsers[owner]
    ensures c in groups[gid].connections
    ensures FanOut(groups, ug, users, f)[gid].connections[c] ==
      groups[gid].connections[c] + (if owner in users then [f] else [])
  {
    var online := groups[gid].onlineUsers;
    assert PresenceWithin(groups[gid]);
    HitsOfOwner(users, ug, online, gid, c, owner);
  }

  /** A connection of a group that no online user owns receives nothing. */
  lemma FanOutSkipsUnowned(groups: map<GroupID, Group>, ug: UserGroups, users: seq<UserID>, f: Frame,
                           gid: GroupID, c: ConnID)
    requires IndexSound(groups, ug) && AllPresenceWithin(groups)
    requires gid in groups && c in groups[gid].connections
    requires forall v :: v in groups[gid].onlineUsers ==> c !in groups[gid].onlineUsers[v]
    ensures FanOut(groups, ug, users, f)[gid].connections[c] == groups[gid].connections[c]
  {
    HitsNone(users, ug, groups[gid].onlineUsers, gid, c);
  }

  /** A connection that no user owns is never hit. */
  lemma {:induction false} HitsNone(users: seq<UserID>, ug: UserGroups, online: map<UserID, set<ConnID>>,
                                   gid: GroupID, c: ConnID)
    requires forall v :: v in online ==> c !in online[v]
    decreases |users|
    ensures Hits(users, ug, online, gid, c) == 0
  {
    if |users| > 0 {
      HitsNone(users[1..], ug, online, gid, c);
    }
  }
}
