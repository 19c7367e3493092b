/**
 * An earlier revision of the hub (src/handlers/socket.rs): one flat map from
 * connection id to outbox, no groups, and a single client message that is
 * echoed as a receipt to its sender and forwarded to everyone else.
 */
module FlatHub {
  import opened Protocol

  /** Events of this revision. */
  datatype FlatEvent =
    | FlatError(message: string)
    | MessageSent(timestamp: Timestamp)
    | NewMessage(timestamp: Timestamp, content: string, from: ConnID)

  /** The connection map and the process-wide id counter, which starts at 1. */
  datatype Flat = Flat(connections: map<ConnID, seq<FlatEvent>>, nextConnId: ConnID)

  const InitialFlat: Flat := Flat(map[], 1)

  /** Every live id was handed out before: it lies in `[1, nextConnId)`. */
  ghost predicate FlatInv(h: Flat) {
    && h.nextConnId >= 1
    && forall c :: c in h.connections ==> 1 <= c < h.nextConnId
  }

  lemma InitialFlatInv()
    ensures FlatInv(InitialFlat)
  {
  }

  /**
   * The reply/peer split of one pass over a connection map: `reply` to
   * `conn`, `peer` to every other connection, one event each.
   */
  function PeerSplit<E>(m: map<ConnID, seq<E>>, conn: ConnID, peer: E, reply: E): (r: map<ConnID, seq<E>>)
    ensures r.Keys == m.Keys
    ensures conn in m ==> r[conn] == m[conn] + [reply]
    ensures forall c :: c in m && c != conn ==> r[c] == m[c] + [peer]
  {
    map c | c in m :: m[c] + [if c == conn then reply else peer]
  }

  /** `connected`: take the next id and insert it with an empty outbox. */
  function Connected(h: Flat): (r: (Flat, ConnID))
    ensures r.1 == h.nextConnId && r.0.nextConnId == h.nextConnId + 1
    ensures r.0.connections.Keys == h.connections.Keys + {r.1}
    ensures r.0.connections[r.1] == []
    ensures forall c :: c in h.connections && c != r.1 ==> r.0.connections[c] == h.connections[c]
  {
    var conn := h.nextConnId;
    (Flat(h.connections[conn := []], conn + 1), conn)
  }

  /** `disconnected`: remove exactly that id. */
  function Disconnected(h: Flat, conn: ConnID): (r: Flat)
    ensures r.nextConnId == h.nextConnId
    ensures r.connections.Keys == h.connections.Keys - {conn}
    ensures forall c :: c in r.connections ==> r.connections[c] == h.connections[c]
  {
    h.(connections := h.connections - {conn})
  }

  /** Under the invariant the id `connected` takes is not live, so no outbox is replaced. */
  lemma ConnectedIsFresh(h: Flat)
    requires FlatInv(h)
    ensures h.nextConnId !in h.connections
    ensures FlatInv(Connected(h).0)
  {
  }

  lemma DisconnectedPreservesInv(h: Flat, conn: ConnID)
    requires FlatInv(h)
    ensures FlatInv(Disconnected(h, conn))
  {
  }

  /** Successive connections get strictly increasing, hence distinct, ids, both live. */
  lemma SuccessiveIdsIncrease(h: Flat)
    requires FlatInv(h)
    ensures var (h1, a) := Connected(h);
      var (h2, b) := Connected(h1);
      && 1 <= a < b
      && a in h2.connections && b in h2.connections
      && h2.connections[a] == [] && h2.connections[b] == []
  {
  }

  /** A frame read from the socket in this revision. */
  datatype FlatInbound =
    | FlatNonText
    | FlatUndecodable(reason: string)
    | FlatSendMessage(content: string)

  /**
   * `parse_client_message`: the content of a send, or nothing. A frame that
   * does not decode is answered with an error, but only when the sender is
   * still in the map.
   */
  function ParseClientMessage(h: Flat, conn: ConnID, inbound: FlatInbound): (r: (Flat, Option<string>))
    ensures r.0.nextConnId == h.nextConnId && r.0.connections.Keys == h.connections.Keys
    ensures (r.1.Some?) <==> inbound.FlatSendMessage?
    ensures r.1.Some? ==> r.1.value == inbound.content
    ensures !inbound.FlatUndecodable? || conn !in h.connections ==> r.0 == h
    ensures inbound.FlatUndecodable? && conn in h.connections ==>
      && r.0.connections[conn] == h.connections[conn] + [FlatError(inbound.reason)]
      && forall c :: c in h.connections && c != conn ==> r.0.connections[c] == h.connections[c]
  {
    match inbound
    case FlatNonText => (h, None)
    case FlatUndecodable(reason) =>
      if conn in h.connections then
        (h.(connections := h.connections[conn := h.connections[conn] + [FlatError(reason)]]), None)
      else (h, None)
    case FlatSendMessage(content) => (h, Some(content))
  }

  /**
   * `message_received`: a send is echoed to the sender as `MessageSent` and
   * forwarded to every other connection as `NewMessage` from the sender's
   * id, both stamped with the receive time.
   */
  function MessageReceived(h: Flat, conn: ConnID, inbound: FlatInbound, now: Timestamp): (r: Flat)
    ensures r.nextConnId == h.nextConnId && r.connections.Keys == h.connections.Keys
    ensures inbound.FlatNonText? ==> r == h
    ensures inbound.FlatUndecodable? ==> r == ParseClientMessage(h, conn, inbound).0
    ensures inbound.FlatSendMessage? ==>
      && (conn in h.connections ==> r.connections[conn] == h.connections[conn] + [MessageSent(now)])
      && forall c :: c in h.connections && c != conn ==>
           r.connections[c] == h.connections[c] + [NewMessage(now, inbound.content, conn)]
  {
    var (parsed, content) := ParseClientMessage(h, conn, inbound);
    match content
    case None => parsed
    case Some(text) =>
      parsed.(connections := PeerSplit(parsed.connections, conn, NewMessage(now, text, conn), MessageSent(now)))
  }

  /** No frame changes which connections are live. */
  lemma MessageReceivedPreservesInv(h: Flat, conn: ConnID, inbound: FlatInbound, now: Timestamp)
    requires FlatInv(h)
    ensures FlatInv(MessageReceived(h, conn, inbound, now))
  {
  }

  /** Each connection gains at most one event per received frame. */
  lemma OneEventPerFrame(h: Flat, conn: ConnID, inbound: FlatInbound, now: Timestamp, c: ConnID)
    requires c in h.connections
    ensures var r := MessageReceived(h, conn, inbound, now);
      && |r.connections[c]| <= |h.connections[c]| + 1
      && r.connections[c][..|h.connections[c]|] == h.connections[c]
  {
  }
}
