/**
 * The connection manager and message router (`Network<NP>`, src/managers/network.rs, with
 * the state fields declared in src/managers.rs).
 *
 * The manager owns a table of established connections, a registry from message-kind tag to
 * the packets of that kind awaiting delivery, the queue of sockets not yet turned into
 * connections, the queue of connection ids whose receive task ended, an error queue, an
 * optional listener task, the bookkeeping of connect attempts and the connection counter.
 * Background tasks appear here as the methods `Incoming`, `ReceiveTaskEnded`,
 * `ConnectTaskFinished` and `Demux`, which do what the spawned tasks do to the shared state.
 */
module NetworkManager {
  import opened Wrappers
  import opened Eventwork

  // ---------------------------------------------------------------------------------------
  // Connection ids handed out by the poll step
  // ---------------------------------------------------------------------------------------

  /** `connection_count += 1` on a `u32`, wrapping to 0 past the top (release-build arithmetic). */
  function Succ(c: u32): u32
  {
    if c == U32 - 1 then 0 else c + 1
  }

  /** The counter after `n` increments from `c`. */
  function Advance(c: u32, n: nat): u32
  {
    if n == 0 then c else Succ(Advance(c, n - 1))
  }

  /** The id of the `k`-th socket (from 0) of a poll step that starts with counter `c`. */
  function NextId(c: u32, k: nat): ConnectionId
  {
    ConnectionId(Advance(c, k + 1))
  }

  /** The poll step does not pass the end of the `u32` counter. */
  predicate NoWrap(c: u32, n: nat)
  {
    c + n < U32
  }

  /** The ids a poll step with counter `c` gives to `n` sockets. */
  function NewIds(c: u32, n: nat): set<ConnectionId>
  {
    if n == 0 then {} else NewIds(c, n - 1) + {NextId(c, n - 1)}
  }

  /** The `Connected` events of those `n` sockets, in queue order. */
  function ConnectedEvents(c: u32, n: nat): seq<NetworkEvent>
  {
    if n == 0 then [] else ConnectedEvents(c, n - 1) + [Connected(NextId(c, n - 1))]
  }

  /** The `Disconnected` events for a drained disconnect queue, in queue order. */
  function DisconnectedEvents(ids: seq<ConnectionId>): seq<NetworkEvent>
  {
    if ids == [] then [] else DisconnectedEvents(ids[..|ids| - 1]) + [Disconnected(ids[|ids| - 1])]
  }

  /** The set of ids in a queue. */
  function Elements(ids: seq<ConnectionId>): set<ConnectionId>
  {
    set id | id in ids
  }

  /** `s` lists every key of `keys` exactly once. */
  ghost predicate Enumerates(s: seq<ConnectionId>, keys: set<ConnectionId>)
  {
    && (forall i | 0 <= i < |s| :: s[i] in keys)
    && (forall k | k in keys :: k in s)
    && (forall i, j | 0 <= i < j < |s| :: s[i] != s[j])
  }

  /** A list that enumerates a set has exactly one entry per element. */
  lemma {:induction false} EnumeratesCount(s: seq<ConnectionId>, keys: set<ConnectionId>)
    requires Enumerates(s, keys)
    ensures |s| == |keys|
  {
    if s == [] {
      assert keys <= Elements(s);
    } else {
      var n := |s| - 1;
      var last, front := s[n], s[..n];
      forall k | k in keys - {last}
        ensures k in front
      {
        var i :| 0 <= i < |s| && s[i] == k;
        assert front[i] == k;
      }
      assert Enumerates(front, keys - {last});
      EnumeratesCount(front, keys - {last});
    }
  }

  /** Advancing a wrapped counter by one is the same as wrapping the advanced count. */
  lemma WrapSucc(a: nat)
    ensures (a % U32 + 1) % U32 == (a + 1) % U32
  {
    if a % U32 + 1 == U32 {
      assert a + 1 == (a / U32 + 1) * U32;
    } else {
      assert a + 1 == (a / U32) * U32 + (a % U32 + 1);
    }
  }

  /** The increment is addition modulo 2^32. */
  lemma SuccWraps(c: u32)
    ensures Succ(c) == (c + 1) % U32
  {
  }

  /** `n` increments add `n` modulo 2^32. */
  lemma {:induction false} AdvanceWraps(c: u32, n: nat)
    ensures Advance(c, n) == (c + n) % U32
  {
    if n > 0 {
      AdvanceWraps(c, n - 1);
      SuccWraps(Advance(c, n - 1));
      WrapSucc(c + n - 1);
    }
  }

  /** Without wrap-around, `n` increments add `n`. */
  lemma {:induction false} AdvanceNoWrap(c: u32, n: nat)
    requires NoWrap(c, n)
    ensures Advance(c, n) == c + n
  {
    if n > 0 {
      AdvanceNoWrap(c, n - 1);
    }
  }

  lemma NextIdNoWrap(c: u32, k: nat)
    requires c + k + 1 < U32
    ensures NextId(c, k).id == c + k + 1
  {
    AdvanceNoWrap(c, k + 1);
  }

  /**
   * Without wrap-around the ids of one poll step are above the counter it started from
   * and strictly increase in queue order, so none repeats an earlier one.
   */
  lemma IdsIncrease(c: u32, n: nat, i: nat, j: nat)
    requires NoWrap(c, n) && i < j < n
    ensures c < NextId(c, i).id < NextId(c, j).id <= c + n
  {
    NextIdNoWrap(c, i);
    NextIdNoWrap(c, j);
  }

  /** Without wrap-around the new ids are exactly the counter values `c + 1 .. c + n`. */
  lemma {:induction false} NewIdsRange(c: u32, n: nat, id: ConnectionId)
    requires NoWrap(c, n)
    ensures id in NewIds(c, n) <==> c < id.id <= c + n
  {
    if n > 0 {
      NewIdsRange(c, n - 1, id);
      NextIdNoWrap(c, n - 1);
    }
  }

  /** The events of the first `n` sockets are `Connected` with the ids `NextId(c, 0 .. n-1)`. */
  lemma {:induction false} ConnectedEventsAt(c: u32, n: nat, k: nat)
    requires k < n
    ensures |ConnectedEvents(c, n)| == n
    ensures ConnectedEvents(c, n)[k] == Connected(NextId(c, k))
  {
    if k < n - 1 {
      ConnectedEventsAt(c, n - 1, k);
    } else {
      ConnectedEventsLength(c, n - 1);
    }
  }

  lemma {:induction false} ConnectedEventsLength(c: u32, n: nat)
    ensures |ConnectedEvents(c, n)| == n
  {
    if n > 0 {
      ConnectedEventsLength(c, n - 1);
    }
  }

  // ---------------------------------------------------------------------------------------
  // Demultiplexing into the registry, and typed delivery
  // ---------------------------------------------------------------------------------------

  /** `recv_message_map`: per registered kind, the `(source, bytes)` entries awaiting delivery. */
  type Registry = map<string, seq<(ConnectionId, Bytes)>>

  /** One step of the demultiplex task: append to the packet's kind, or drop an unknown kind. */
  function Route(m: Registry, source: ConnectionId, p: NetworkPacket): Registry
  {
    if p.kind in m then m[p.kind := m[p.kind] + [(source, p.data)]] else m
  }

  /** The registry after the demultiplex task has routed `packets` from `source`, in order. */
  function Routed(m: Registry, source: ConnectionId, packets: seq<NetworkPacket>): (r: Registry)
    ensures r.Keys == m.Keys
  {
    if packets == [] then m
    else Route(Routed(m, source, packets[..|packets| - 1]), source, packets[|packets| - 1])
  }

  /** The entries for `kind` among `packets`, in arrival order (the reference definition). */
  function KindEntries(source: ConnectionId, packets: seq<NetworkPacket>, kind: string): seq<(ConnectionId, Bytes)>
  {
    if packets == [] then []
    else
      var last := packets[|packets| - 1];
      KindEntries(source, packets[..|packets| - 1], kind) + (if last.kind == kind then [(source, last.data)] else [])
  }

  /**
   * Routing never adds or removes a kind, and each registered kind's list grows by exactly
   * that kind's packets, appended in arrival order.
   */
  lemma {:induction false} RoutedSpec(m: Registry, source: ConnectionId, packets: seq<NetworkPacket>)
    ensures Routed(m, source, packets).Keys == m.Keys
    ensures forall kind | kind in m :: Routed(m, source, packets)[kind] == m[kind] + KindEntries(source, packets, kind)
  {
    if packets != [] {
      var init := packets[..|packets| - 1];
      RoutedSpec(m, source, init);
    }
  }

  /** A packet whose kind is not registered is dropped: routing it leaves the registry as it was. */
  lemma {:induction false} UnregisteredDropped(m: Registry, source: ConnectionId, packets: seq<NetworkPacket>)
    requires forall i | 0 <= i < |packets| :: packets[i].kind !in m
    ensures Routed(m, source, packets) == m
  {
    if packets != [] {
      UnregisteredDropped(m, source, packets[..|packets| - 1]);
    }
  }

  /** What one drained entry delivers: its message with its source when it deserializes, else nothing. */
  function DecodeEntry<T>(c: Codec<T>, e: (ConnectionId, Bytes)): seq<NetworkData<T>>
  {
    match c.decode(e.1) case Some(x) => [NetworkData(e.0, x)] case None => []
  }

  /** What `register_message` delivers from a drained list: the entries that deserialize, in order. */
  function DecodeAll<T>(c: Codec<T>, entries: seq<(ConnectionId, Bytes)>): (r: seq<NetworkData<T>>)
    ensures |r| <= |entries|
  {
    if entries == [] then []
    else
      DecodeAll(c, entries[..|entries| - 1]) + DecodeEntry(c, entries[|entries| - 1])
  }

  /** When every entry deserializes, each one is delivered, in order, with its source. */
  lemma {:induction false} DecodeAllDecodable<T>(c: Codec<T>, entries: seq<(ConnectionId, Bytes)>)
    requires forall i | 0 <= i < |entries| :: c.decode(entries[i].1).Some?
    ensures |DecodeAll(c, entries)| == |entries|
    ensures forall i | 0 <= i < |entries| ::
      DecodeAll(c, entries)[i] == NetworkData(entries[i].0, c.decode(entries[i].1).value)
  {
    if entries != [] {
      DecodeAllDecodable(c, entries[..|entries| - 1]);
    }
  }

  /** The delivery of a concatenation is the deliveries of its parts, in order. */
  lemma {:induction false} DecodeAllConcat<T>(c: Codec<T>, a: seq<(ConnectionId, Bytes)>, b: seq<(ConnectionId, Bytes)>)
    ensures DecodeAll(c, a + b) == DecodeAll(c, a) + DecodeAll(c, b)
  {
    if b != [] {
      var n := |b| - 1;
      assert (a + b)[..|a + b| - 1] == a + b[..n] && (a + b)[|a + b| - 1] == b[n];
      DecodeAllConcat(c, a, b[..n]);
    } else {
      assert a + b == a;
    }
  }

  /**
   * A mixed list is filtered entry by entry: the delivery of a concatenation is the
   * deliveries of its parts in order, and one entry yields its message exactly when it
   * deserializes. So the output is the decodable entries, in their original order.
   */
  lemma {:induction false} DecodeAllSplits<T>(c: Codec<T>, a: seq<(ConnectionId, Bytes)>, b: seq<(ConnectionId, Bytes)>)
    ensures DecodeAll(c, a + b) == DecodeAll(c, a) + DecodeAll(c, b)
    ensures forall e :: DecodeAll(c, [e]) == DecodeEntry(c, e)
  {
    DecodeAllConcat(c, a, b);
    forall e: (ConnectionId, Bytes)
      ensures DecodeAll(c, [e]) == DecodeEntry(c, e)
    {
      assert [e][..0] == [];
    }
  }

  /** Entries that do not deserialize are dropped. */
  lemma {:induction false} DecodeAllUndecodable<T>(c: Codec<T>, entries: seq<(ConnectionId, Bytes)>)
    requires forall i | 0 <= i < |entries| :: c.decode(entries[i].1).None?
    ensures DecodeAll(c, entries) == []
  {
    if entries != [] {
      DecodeAllUndecodable(c, entries[..|entries| - 1]);
    }
  }

  /** The entries an in-order stream of messages of one type leaves under that type's kind. */
  lemma {:induction false} KindEntriesOfMessages<T>(t: MessageType<T>, source: ConnectionId,
                                                    xs: seq<T>, packets: seq<NetworkPacket>)
    requires |packets| == |xs|
    requires forall i | 0 <= i < |xs| :: Packet(t, xs[i]) == Some(packets[i])
    ensures |KindEntries(source, packets, t.name)| == |xs|
    ensures forall i | 0 <= i < |xs| ::
      KindEntries(source, packets, t.name)[i] == (source, packets[i].data)
  {
    if xs != [] {
      KindEntriesOfMessages(t, source, xs[..|xs| - 1], packets[..|packets| - 1]);
    }
  }

  /** Entries carrying the bytes of round-tripping messages decode to exactly those messages. */
  lemma DecodeEntriesOfMessages<T>(t: MessageType<T>, source: ConnectionId, xs: seq<T>,
                                   packets: seq<NetworkPacket>, entries: seq<(ConnectionId, Bytes)>)
    requires |packets| == |xs| && |entries| == |xs|
    requires forall i | 0 <= i < |xs| :: RoundTrips(t.codec, xs[i]) && Packet(t, xs[i]) == Some(packets[i])
    requires forall i | 0 <= i < |xs| :: entries[i] == (source, packets[i].data)
    ensures DecodeAll(t.codec, entries) == seq(|xs|, i requires 0 <= i < |xs| => NetworkData(source, xs[i]))
  {
    DecodeAllDecodable(t.codec, entries);
  }

  /**
   * The typed path end to end: messages of a registered type that round-trip through its
   * serializer, packed as `send_message` packs them and routed from one connection into an
   * empty list, are delivered by `register_message` as exactly those messages, in order,
   * each tagged with that connection.
   */
  lemma DeliveredAsSent<T>(t: MessageType<T>, m: Registry, source: ConnectionId,
                           xs: seq<T>, packets: seq<NetworkPacket>)
    requires t.name in m && m[t.name] == []
    requires |packets| == |xs|
    requires forall i | 0 <= i < |xs| :: RoundTrips(t.codec, xs[i]) && Packet(t, xs[i]) == Some(packets[i])
    ensures t.name in Routed(m, source, packets)
    ensures DecodeAll(t.codec, Routed(m, source, packets)[t.name]) ==
            seq(|xs|, i requires 0 <= i < |xs| => NetworkData(source, xs[i]))
  {
    RoutedSpec(m, source, packets);
    KindEntriesOfMessages(t, source, xs, packets);
    var entries := Routed(m, source, packets)[t.name];
    assert entries == KindEntries(source, packets, t.name);
    DecodeEntriesOfMessages(t, source, xs, packets, entries);
  }

  /** The panic message of a duplicate registration. */
  function DuplicateRegistration(role: string, name: string): string
  {
    "Duplicate registration of " + role + ": " + name
  }

  // ---------------------------------------------------------------------------------------
  // The manager
  // ---------------------------------------------------------------------------------------

  /**
   * The socket loop of the poll step after `i` of the sockets `pending`, run on the counter
   * `c0` and the table `base`: the `Connected` events of the `i` new ids in queue order;
   * each connection with its own unbounded outgoing queue; the old entries under all other
   * ids; and, when no wrap-around happened, the `k`-th socket under id `c0 + k + 1`.
   */
  ghost predicate AcceptedUpTo<S>(c0: u32, pending: seq<S>, base: map<ConnectionId, Connection<S>>, i: nat,
                                  table: map<ConnectionId, Connection<S>>, events: seq<NetworkEvent>)
  {
    && i <= |pending|
    && events == ConnectedEvents(c0, i)
    && OwnQueues(table)
    && table.Keys == base.Keys + NewIds(c0, i)
    && (forall id | id in table && id !in NewIds(c0, i) :: table[id] == base[id])
    && (NoWrap(c0, i) ==>
          forall id | id in NewIds(c0, i) :: c0 < id.id <= c0 + i && table[id].socket == pending[id.id - c0 - 1])
  }

  /**
   * What the socket loop leaves once every socket is taken: the above for all of
   * `pending`, and under each new id a connection whose tasks run and whose queue is empty.
   */
  ghost predicate Accepted<S>(c0: u32, pending: seq<S>, base: map<ConnectionId, Connection<S>>,
                              table: map<ConnectionId, Connection<S>>, events: seq<NetworkEvent>)
    reads set id | id in table :: table[id]
    reads set id | id in table :: table[id].sendMessage
  {
    && AcceptedUpTo(c0, pending, base, |pending|, table, events)
    && (forall id | id in NewIds(c0, |pending|) :: id in table && table[id].IsNew())
  }

  /** Without wrap-around, the `k`-th queued socket sits under the `k`-th new id. */
  lemma AcceptedSockets<S>(c0: u32, pending: seq<S>, base: map<ConnectionId, Connection<S>>,
                           table: map<ConnectionId, Connection<S>>, events: seq<NetworkEvent>)
    requires AcceptedUpTo(c0, pending, base, |pending|, table, events) && NoWrap(c0, |pending|)
    ensures forall k | 0 <= k < |pending| :: NextId(c0, k) in table && table[NextId(c0, k)].socket == pending[k]
  {
    forall k | 0 <= k < |pending|
      ensures NextId(c0, k) in table && table[NextId(c0, k)].socket == pending[k]
    {
      NextIdNoWrap(c0, k);
      NewIdsRange(c0, |pending|, NextId(c0, k));
    }
  }

  /** One socket more: entering a connection with a queue of its own under the next id. */
  lemma AcceptStep<S>(c0: u32, pending: seq<S>, base: map<ConnectionId, Connection<S>>, i: nat,
                      table: map<ConnectionId, Connection<S>>, events: seq<NetworkEvent>, connection: Connection<S>)
    requires AcceptedUpTo(c0, pending, base, i, table, events) && i < |pending|
    requires connection.socket == pending[i] && connection.sendMessage.bound == None
    requires forall id | id in table :: table[id].sendMessage != connection.sendMessage
    ensures AcceptedUpTo(c0, pending, base, i + 1, table[NextId(c0, i) := connection],
                         events + [Connected(NextId(c0, i))])
  {
    var connId := NextId(c0, i);
    if NoWrap(c0, i + 1) {
      NextIdNoWrap(c0, i);
      NewIdsRange(c0, i, connId);
    }
  }

  /**
   * The connection the poll step builds for a socket: an unbounded outgoing queue, and the
   * receive, demultiplex and send tasks started on the socket's halves.
   */
  method Open<S>(socket: S) returns (connection: Connection<S>)
    ensures fresh(connection) && fresh(connection.sendMessage)
    ensures connection.IsNew() && connection.socket == socket
  {
    var outgoing := new Channel<NetworkPacket>.Unbounded();
    connection := new Connection(socket, outgoing);
  }

  /**
   * The socket loop of the poll step: each socket of `pending`, in FIFO order, advances the
   * counter and is entered as a new connection, with running tasks and a fresh outgoing
   * queue, under the new counter value.
   */
  method AcceptAll<S>(c0: u32, pending: seq<S>, base: map<ConnectionId, Connection<S>>)
    returns (count: u32, table: map<ConnectionId, Connection<S>>, events: seq<NetworkEvent>)
    requires OwnQueues(base)
    ensures count == Advance(c0, |pending|)
    ensures Accepted(c0, pending, base, table, events)
    ensures forall id | id in NewIds(c0, |pending|) :: fresh(table[id]) && fresh(table[id].sendMessage)
  {
    ghost var i := 0;
    var queue := pending;
    count, table := c0, base;
    events := [];
    while queue != []
      invariant i <= |pending| && queue == pending[i..]
      invariant count == Advance(c0, i)
      invariant AcceptedUpTo(c0, pending, base, i, table, events)
      invariant forall id | id in NewIds(c0, i) ::
        id in table && fresh(table[id]) && fresh(table[id].sendMessage) && table[id].IsNew()
      decreases |queue|
    {
      var socket := queue[0];
      queue := queue[1..];
      count := Succ(count);
      var connId := ConnectionId(count);
      var connection := Open(socket);
      AcceptStep(c0, pending, base, i, table, events, connection);
      table := table[connId := connection];
      events := events + [Connected(connId)];
      i := i + 1;
    }
    assert |pending[i..]| == 0;
  }

  /** Each connection of `table` has its own outgoing queue, created by `unbounded()`. */
  ghost predicate OwnQueues<S>(table: map<ConnectionId, Connection<S>>)
  {
    && (forall id | id in table :: table[id].sendMessage.bound == None)
    && (forall a, b | a in table && b in table && a != b :: table[a].sendMessage != table[b].sendMessage)
  }

  /** Every connection of `table` and its outgoing queue. */
  ghost function Footprint<S>(table: map<ConnectionId, Connection<S>>): set<object>
  {
    (set id | id in table :: table[id] as object) + (set id | id in table :: table[id].sendMessage as object)
  }

  /** The status of every connection of `table`. */
  ghost function Statuses<S>(table: map<ConnectionId, Connection<S>>): map<ConnectionId, Liveness>
    reads Footprint(table)
  {
    map id | id in table :: table[id].Status()
  }

  /**
   * The connections of `table` under `ids` were dropped and every other one of them was
   * left as it was.
   */
  twostate predicate DroppedFrom<S>(table: map<ConnectionId, Connection<S>>, ids: set<ConnectionId>)
    reads Footprint(table)
  {
    forall id | id in table :: if id in ids then table[id].Released() else table[id].Kept()
  }

  /**
   * Drop the connections of `table` under `ids`, one by one, in an unspecified order; the
   * others are left alone.
   */
  method DropAll<S>(table: map<ConnectionId, Connection<S>>, ids: set<ConnectionId>)
    requires OwnQueues(table)
    modifies Footprint(table)
    ensures DroppedFrom(table, ids)
  {
    ghost var before := Statuses(table);
    var rest := ids * table.Keys;
    while rest != {}
      invariant rest <= table.Keys
      invariant forall j | j in table ::
        table[j].Status() == if j in ids && j !in rest then before[j].Dropped() else before[j]
      decreases rest
    {
      var id :| id in rest;
      table[id].Drop();
      rest := rest - {id};
    }
  }

  class Network<S> {
    var recvMessageMap: Registry
    var establishedConnections: map<ConnectionId, Connection<S>>
    var newConnections: seq<S>
    var disconnectedConnections: seq<ConnectionId>
    var errorChannel: seq<NetworkError>
    var serverHandle: Option<TaskHandle>
    var connectionTasks: map<u32, TaskHandle>
    var connectionTaskCounts: u32
    var connectionCount: u32

    /** Every connection has its own unbounded outgoing queue. */
    ghost predicate Valid()
      reads this
    {
      OwnQueues(establishedConnections)
    }

    /** The outgoing queues of all established connections. */
    ghost function Outgoing(): set<object>
      reads this
    {
      set id | id in establishedConnections :: establishedConnections[id].sendMessage
    }

    /** The outgoing queue of `id`, if it is established. */
    ghost function QueueOf(id: ConnectionId): set<object>
      reads this
    {
      if id in establishedConnections then {establishedConnections[id].sendMessage} else {}
    }

    /** Every established connection and its outgoing queue. */
    ghost function Connections(): set<object>
      reads this
    {
      Footprint(establishedConnections)
    }

    /** The connection `id` and its queue, if it is established. */
    ghost function ConnectionOf(id: ConnectionId): set<object>
      reads this
    {
      if id in establishedConnections
      then {establishedConnections[id], establishedConnections[id].sendMessage}
      else {}
    }

    twostate predicate SameTable() reads this { establishedConnections == old(establishedConnections) }
    twostate predicate SameRegistry() reads this { recvMessageMap == old(recvMessageMap) }

    /** The socket, disconnect and error queues are as they were. */
    twostate predicate SameQueues()
      reads this
    {
      && newConnections == old(newConnections)
      && disconnectedConnections == old(disconnectedConnections)
      && errorChannel == old(errorChannel)
    }

    /** The listener, the connect attempts and both counters are as they were. */
    twostate predicate SameBookkeeping()
      reads this
    {
      && serverHandle == old(serverHandle)
      && connectionTasks == old(connectionTasks)
      && connectionTaskCounts == old(connectionTaskCounts)
      && connectionCount == old(connectionCount)
    }

    /** `Network::new`. */
    constructor ()
      ensures Valid()
      ensures recvMessageMap == map[] && establishedConnections == map[]
      ensures newConnections == [] && disconnectedConnections == [] && errorChannel == []
      ensures serverHandle == None && connectionTasks == map[]
      ensures connectionTaskCounts == 0 && connectionCount == 0
    {
      recvMessageMap := map[];
      establishedConnections := map[];
      newConnections, disconnectedConnections, errorChannel := [], [], [];
      serverHandle := None;
      connectionTasks := map[];
      connectionTaskCounts, connectionCount := 0, 0;
    }

    /** `has_connections`: whether the table holds any connection. */
    function HasConnections(): (b: bool)
      reads this
      ensures b <==> establishedConnections != map[]
    {
      |establishedConnections| > 0
    }

    // -------------------------------------------------------------------------------------
    // Listening and stopping
    // -------------------------------------------------------------------------------------

    /** What `stop` does to everything but the disconnect queue and the listener handle. */
    twostate predicate Cleared()
      reads this
    {
      && establishedConnections == map[]
      && recvMessageMap == map[]
      && newConnections == []
      && errorChannel == old(errorChannel)
      && connectionTasks == old(connectionTasks)
      && connectionTaskCounts == old(connectionTaskCounts)
      && connectionCount == old(connectionCount)
    }

    /** One disconnect id was queued for every connection of the old table, after the old queue. */
    twostate predicate PostedDisconnects()
      reads this
    {
      var before := old(disconnectedConnections);
      && |before| <= |disconnectedConnections|
      && disconnectedConnections[..|before|] == before
      && Enumerates(disconnectedConnections[|before|..], old(establishedConnections).Keys)
    }

    /**
     * The loop of `stop` over the table: queue the id of every established connection once,
     * in the table's (unspecified) iteration order.
     */
    method PostDisconnects()
      modifies this
      ensures PostedDisconnects()
      ensures SameTable() && SameRegistry() && SameBookkeeping()
      ensures newConnections == old(newConnections) && errorChannel == old(errorChannel)
    {
      ghost var posted: seq<ConnectionId> := [];
      var remaining := establishedConnections.Keys;
      while remaining != {}
        invariant SameTable() && SameRegistry() && SameBookkeeping()
        invariant newConnections == old(newConnections) && errorChannel == old(errorChannel)
        invariant remaining <= establishedConnections.Keys
        invariant disconnectedConnections == old(disconnectedConnections) + posted
        invariant forall i | 0 <= i < |posted| :: posted[i] in establishedConnections && posted[i] !in remaining
        invariant forall id | id in establishedConnections :: id in posted || id in remaining
        invariant forall i, j | 0 <= i < j < |posted| :: posted[i] != posted[j]
        decreases remaining
      {
        var id :| id in remaining;
        disconnectedConnections := disconnectedConnections + [id];
        posted := posted + [id];
        remaining := remaining - {id};
      }
      assert disconnectedConnections[|old(disconnectedConnections)|..] == posted;
    }

    /**
     * `stop` as intended: when listening, abort and clear the listener, queue a disconnect
     * for every established connection, empty the table and the whole registry, and discard
     * the sockets not yet established. When not listening, nothing changes.
     */
    method Stop()
      requires Valid()
      modifies this, Connections()
      ensures Valid()
      ensures old(serverHandle).None? ==> unchanged(this) && DroppedFrom(old(establishedConnections), {})
      ensures old(serverHandle).Some? ==>
        serverHandle == None && Cleared() && PostedDisconnects() && !HasConnections()
        && DroppedFrom(old(establishedConnections), old(establishedConnections).Keys)
    {
      if serverHandle.Some? {
        var handle := serverHandle.value;
        serverHandle := None;
        handle := handle.Abort();
        PostDisconnects();
        DropAll(establishedConnections, establishedConnections.Keys);
        establishedConnections := map[];
        recvMessageMap := map[];
        DiscardNewConnections();
      }
    }

    /**
     * `stop` as the source writes it: the disconnect ids are handed to an asynchronous
     * `send` whose future is dropped without being polled, so none is queued.
     */
    method StopAsWritten()
      requires Valid()
      modifies this, Connections()
      ensures Valid()
      ensures old(serverHandle).None? ==> unchanged(this) && DroppedFrom(old(establishedConnections), {})
      ensures old(serverHandle).Some? ==>
        serverHandle == None && Cleared() && disconnectedConnections == old(disconnectedConnections)
        && DroppedFrom(old(establishedConnections), old(establishedConnections).Keys)
    {
      if serverHandle.Some? {
        var handle := serverHandle.value;
        serverHandle := None;
        handle := handle.Abort();
        DropAll(establishedConnections, establishedConnections.Keys);
        establishedConnections := map[];
        recvMessageMap := map[];
        DiscardNewConnections();
      }
    }

    /** The draining loop of `stop`: receive and drop every socket still queued. */
    method DiscardNewConnections()
      modifies this
      ensures newConnections == []
      ensures SameTable() && SameRegistry() && SameBookkeeping()
      ensures disconnectedConnections == old(disconnectedConnections) && errorChannel == old(errorChannel)
    {
      while newConnections != []
        invariant SameTable() && SameRegistry() && SameBookkeeping()
        invariant disconnectedConnections == old(disconnectedConnections) && errorChannel == old(errorChannel)
        decreases |newConnections|
      {
        newConnections := newConnections[1..];
      }
    }

    /**
     * `listen` with the corrected `stop`: always stop first, then leave exactly one running
     * listener, and succeed.
     */
    method Listen() returns (r: Result<(), NetworkError>)
      requires Valid()
      modifies this, Connections()
      ensures Valid()
      ensures r == Ok(()) && serverHandle == Some(Running)
      ensures old(serverHandle).Some? ==>
        Cleared() && PostedDisconnects() && DroppedFrom(old(establishedConnections), old(establishedConnections).Keys)
      ensures old(serverHandle).None? ==>
        && SameTable() && SameRegistry() && SameQueues() && connectionTasks == old(connectionTasks)
        && connectionTaskCounts == old(connectionTaskCounts) && connectionCount == old(connectionCount)
        && DroppedFrom(old(establishedConnections), {})
    {
      Stop();
      serverHandle := Some(Running);
      r := Ok(());
    }

    /**
     * `listen` as the source writes it: `stop` as written runs first, so restarting a
     * listener clears the table without queuing a disconnect for any of its connections.
     */
    method ListenAsWritten() returns (r: Result<(), NetworkError>)
      requires Valid()
      modifies this, Connections()
      ensures Valid()
      ensures r == Ok(()) && serverHandle == Some(Running)
      ensures old(serverHandle).Some? ==>
        && Cleared() && disconnectedConnections == old(disconnectedConnections)
        && DroppedFrom(old(establishedConnections), old(establishedConnections).Keys)
      ensures old(serverHandle).None? ==>
        && SameTable() && SameRegistry() && SameQueues() && connectionTasks == old(connectionTasks)
        && connectionTaskCounts == old(connectionTaskCounts) && connectionCount == old(connectionCount)
        && DroppedFrom(old(establishedConnections), {})
    {
      StopAsWritten();
      serverHandle := Some(Running);
      r := Ok(());
    }

    // -------------------------------------------------------------------------------------
    // Connecting
    // -------------------------------------------------------------------------------------

    /**
     * `connect`, bookkeeping only: the attempt's task is recorded under the old value of the
     * attempt counter, which is returned so that its completion can be reported.
     */
    method Connect() returns (attempt: u32)
      modifies this
      ensures attempt == old(connectionTaskCounts)
      ensures connectionTaskCounts == (old(connectionTaskCounts) + 1) % U32
      ensures connectionTasks == old(connectionTasks)[attempt := Running]
      ensures SameTable() && SameRegistry() && SameQueues()
      ensures serverHandle == old(serverHandle) && connectionCount == old(connectionCount)
    {
      attempt := connectionTaskCounts;
      connectionTaskCounts := (connectionTaskCounts + 1) % U32;
      connectionTasks := connectionTasks[attempt := Running];
    }

    /**
     * A connect task ends: a socket joins the new-connection queue, an error joins the error
     * queue, and the attempt removes itself from the bookkeeping.
     */
    method ConnectTaskFinished(attempt: u32, outcome: Result<S, NetworkError>)
      modifies this
      ensures connectionTasks == old(connectionTasks) - {attempt}
      ensures outcome.Ok? ==> newConnections == old(newConnections) + [outcome.value] && errorChannel == old(errorChannel)
      ensures outcome.Err? ==> errorChannel == old(errorChannel) + [outcome.error] && newConnections == old(newConnections)
      ensures SameTable() && SameRegistry() && disconnectedConnections == old(disconnectedConnections)
      ensures serverHandle == old(serverHandle) && connectionTaskCounts == old(connectionTaskCounts)
      ensures connectionCount == old(connectionCount)
    {
      match outcome {
        case Ok(socket) => newConnections := newConnections + [socket];
        case Err(e) => errorChannel := errorChannel + [e];
      }
      connectionTasks := connectionTasks - {attempt};
    }

    /** The accept loop hands over an inbound socket. */
    method Incoming(socket: S)
      modifies this
      ensures newConnections == old(newConnections) + [socket]
      ensures SameTable() && SameRegistry() && SameBookkeeping()
      ensures disconnectedConnections == old(disconnectedConnections) && errorChannel == old(errorChannel)
    {
      newConnections := newConnections + [socket];
    }

    /**
     * The accept loop reports a failure on the error queue: `Listen` when binding fails
     * (the loop then ends) and `Accept` when one accept fails (the loop goes on).
     */
    method AcceptLoopFailed(e: NetworkError)
      requires e.Listen? || e.Accept?
      modifies this
      ensures errorChannel == old(errorChannel) + [e]
      ensures SameTable() && SameRegistry() && SameBookkeeping()
      ensures newConnections == old(newConnections) && disconnectedConnections == old(disconnectedConnections)
    {
      errorChannel := errorChannel + [e];
    }

    /** A connection's receive task returned from `recv_loop` and reports its id. */
    method ReceiveTaskEnded(id: ConnectionId)
      modifies this
      ensures disconnectedConnections == old(disconnectedConnections) + [id]
      ensures SameTable() && SameRegistry() && SameBookkeeping()
      ensures newConnections == old(newConnections) && errorChannel == old(errorChannel)
    {
      disconnectedConnections := disconnectedConnections + [id];
    }

    /**
     * A connection's send task returned from `send_loop` (a write failed) and dropped the
     * receiving end of the outgoing queue, which refuses packets from then on.
     */
    method SendTaskEnded(id: ConnectionId)
      requires Valid()
      modifies QueueOf(id)
      ensures Valid()
      ensures id in establishedConnections ==>
        var q := establishedConnections[id].sendMessage;
        !q.open && q.items == old(q.items)
      ensures forall other | other in establishedConnections && other != id ::
        var q := establishedConnections[other].sendMessage;
        q.open == old(q.open) && q.items == old(q.items)
    {
      if id in establishedConnections {
        establishedConnections[id].sendMessage.CloseReceiver();
      }
    }

    // -------------------------------------------------------------------------------------
    // Sending
    // -------------------------------------------------------------------------------------

    /**
     * What `send_message(clientId, ·)` does when its message serializes to `p` (`None`
     * when serialization fails) and it returns `r`: an unknown id fails first, before
     * serialization; otherwise a serialization failure or a closed queue fails, and
     * success appends exactly that packet to that connection's queue. No other queue
     * changes, and no queue opens or closes.
     */
    twostate predicate Sent(clientId: ConnectionId, p: Option<NetworkPacket>, new r: Result<(), NetworkError>)
      reads this, Outgoing()
    {
      && establishedConnections == old(establishedConnections)
      && (clientId !in establishedConnections ==> r == Err(ConnectionNotFound(clientId)))
      && (clientId in establishedConnections ==>
        var q := old(establishedConnections)[clientId].sendMessage;
        && (p.None? ==> r == Err(Serialization))
        && (p.Some? && !old(q.open) ==> r == Err(ChannelClosed(clientId)))
        && (p.Some? && old(q.open) ==> r == Ok(()))
        && q.items == (if r.Ok? then old(q.items) + [p.value] else old(q.items))
        && q.open == old(q.open))
      && (forall id | id in old(establishedConnections) && id != clientId ::
        old(establishedConnections)[id].sendMessage.items == old(establishedConnections[id].sendMessage.items))
    }

    /** `send_message`: the packet is `T::NAME` with the serialized message. */
    method SendMessage<T>(clientId: ConnectionId, t: MessageType<T>, message: T) returns (r: Result<(), NetworkError>)
      requires Valid()
      modifies QueueOf(clientId)
      ensures Valid()
      ensures Sent(clientId, Packet(t, message), r)
    {
      if clientId !in establishedConnections {
        return Err(ConnectionNotFound(clientId));
      }
      var connection := establishedConnections[clientId];
      var packet := Packet(t, message);
      if packet.None? {
        return Err(Serialization);
      }
      var sent := connection.sendMessage.TrySend(packet.value);
      if !sent {
        return Err(ChannelClosed(clientId));
      }
      return Ok(());
    }

    /**
     * `broadcast`: serialize once (a failure panics), then offer the same packet to every
     * established connection; a queue that refuses is skipped.
     */
    method Broadcast<T>(t: MessageType<T>, message: T) returns (c: Completion)
      requires Valid()
      modifies Outgoing()
      ensures Valid()
      ensures c == (if Packet(t, message).None? then Panicked("Couldn't serialize message!") else Completed)
      ensures forall id | id in establishedConnections ::
        var q := establishedConnections[id].sendMessage;
        && q.open == old(q.open)
        && q.items == (if c.Completed? && old(q.open) then old(q.items) + [Packet(t, message).value] else old(q.items))
    {
      var packet := Packet(t, message);
      if packet.None? {
        return Panicked("Couldn't serialize message!");
      }
      var remaining := establishedConnections.Keys;
      while remaining != {}
        invariant remaining <= establishedConnections.Keys
        invariant forall id | id in establishedConnections ::
          var q := establishedConnections[id].sendMessage;
          && q.open == old(q.open)
          && q.items == (if id !in remaining && old(q.open) then old(q.items) + [packet.value] else old(q.items))
        decreases remaining
      {
        var id :| id in remaining;
        var _ := establishedConnections[id].sendMessage.TrySend(packet.value);
        remaining := remaining - {id};
      }
      return Completed;
    }

    /**
     * `disconnect`: remove the connection and stop it. An absent id fails and changes
     * nothing, so disconnecting the same id twice fails the second time.
     */
    method Disconnect(connId: ConnectionId) returns (r: Result<(), NetworkError>)
      requires Valid()
      modifies this, ConnectionOf(connId)
      ensures Valid()
      ensures connId !in old(establishedConnections) ==> r == Err(ConnectionNotFound(connId)) && unchanged(this)
      ensures connId in old(establishedConnections) ==>
        var c := old(establishedConnections)[connId];
        && r == Ok(())
        && establishedConnections == old(establishedConnections) - {connId}
        && c.Released()
      ensures SameRegistry() && SameQueues() && SameBookkeeping()
    {
      if connId !in establishedConnections {
        return Err(ConnectionNotFound(connId));
      }
      var connection := establishedConnections[connId];
      establishedConnections := establishedConnections - {connId};
      connection.Stop();
      return Ok(());
    }

    // -------------------------------------------------------------------------------------
    // The poll step
    // -------------------------------------------------------------------------------------

    /** Only the table, the socket queue and the connection counter may have changed. */
    twostate predicate KeepsAllButConnections()
      reads this
    {
      unchanged(this`recvMessageMap, this`disconnectedConnections, this`errorChannel, this`serverHandle,
                this`connectionTasks, this`connectionTaskCounts)
    }

    /**
     * First half of `handle_new_incoming_connections`: every queued socket, in FIFO order,
     * advances the counter, becomes a connection with three running tasks and a fresh
     * outgoing queue under the new counter value, and yields `Connected`.
     */
    method EstablishNewConnections() returns (events: seq<NetworkEvent>)
      requires Valid()
      modifies this
      ensures Valid()
      ensures newConnections == []
      ensures connectionCount == Advance(old(connectionCount), |old(newConnections)|)
      ensures Accepted(old(connectionCount), old(newConnections), old(establishedConnections), establishedConnections, events)
      ensures forall id | id in NewIds(old(connectionCount), |old(newConnections)|) ::
        fresh(establishedConnections[id]) && fresh(establishedConnections[id].sendMessage)
      ensures KeepsAllButConnections()
    {
      var count, table;
      count, table, events := AcceptAll(connectionCount, newConnections, establishedConnections);
      newConnections, connectionCount, establishedConnections := [], count, table;
    }

    /**
     * Second half of `handle_new_incoming_connections`: every queued disconnect id, in FIFO
     * order, is removed from the table (an absent id is no error) and yields `Disconnected`.
     * Each removed connection is dropped; dropping one touches no other, so the model drops
     * them all after the removals.
     */
    method DrainDisconnects() returns (events: seq<NetworkEvent>)
      requires Valid()
      modifies this, Connections()
      ensures Valid()
      ensures disconnectedConnections == []
      ensures events == DisconnectedEvents(old(disconnectedConnections))
      ensures establishedConnections == old(establishedConnections) - Elements(old(disconnectedConnections))
      ensures DroppedFrom(old(establishedConnections), Elements(old(disconnectedConnections)))
      ensures SameRegistry() && SameBookkeeping()
      ensures newConnections == old(newConnections) && errorChannel == old(errorChannel)
    {
      var table, pending := establishedConnections, disconnectedConnections;
      ghost var i := 0;
      events := [];
      while disconnectedConnections != []
        invariant 0 <= i <= |pending| && disconnectedConnections == pending[i..]
        invariant events == DisconnectedEvents(pending[..i])
        invariant establishedConnections == old(establishedConnections) - Elements(pending[..i])
        invariant Valid()
        invariant recvMessageMap == old(recvMessageMap) && SameBookkeeping()
        invariant newConnections == old(newConnections) && errorChannel == old(errorChannel)
        modifies this
        decreases |disconnectedConnections|
      {
        var id := disconnectedConnections[0];
        disconnectedConnections := disconnectedConnections[1..];
        assert pending[..i + 1] == pending[..i] + [id];
        assert Elements(pending[..i + 1]) == Elements(pending[..i]) + {id};
        establishedConnections := establishedConnections - {id};
        events := events + [Disconnected(id)];
        i := i + 1;
      }
      assert pending[..i] == pending;
      DropAll(table, Elements(pending));
    }

    /**
     * `handle_new_incoming_connections`, the per-tick poll step: all `Connected` events of
     * the queued sockets come first, then the `Disconnected` events of the queued ids.
     */
    method HandleNewIncomingConnections() returns (events: seq<NetworkEvent>)
      requires Valid()
      modifies this, Connections()
      ensures Valid()
      ensures newConnections == [] && disconnectedConnections == []
      ensures connectionCount == Advance(old(connectionCount), |old(newConnections)|)
      ensures events == ConnectedEvents(old(connectionCount), |old(newConnections)|) +
                        DisconnectedEvents(old(disconnectedConnections))
      ensures establishedConnections.Keys ==
              (old(establishedConnections).Keys + NewIds(old(connectionCount), |old(newConnections)|))
              - Elements(old(disconnectedConnections))
      ensures forall id | id in establishedConnections && id !in NewIds(old(connectionCount), |old(newConnections)|) ::
        establishedConnections[id] == old(establishedConnections)[id]
      ensures forall id | id in establishedConnections && id in NewIds(old(connectionCount), |old(newConnections)|) ::
        fresh(establishedConnections[id]) && fresh(establishedConnections[id].sendMessage)
        && establishedConnections[id].IsNew()
      ensures NoWrap(old(connectionCount), |old(newConnections)|) ==>
        forall k | 0 <= k < |old(newConnections)| && NextId(old(connectionCount), k) in establishedConnections ::
          establishedConnections[NextId(old(connectionCount), k)].socket == old(newConnections)[k]
      ensures DroppedFrom(old(establishedConnections) - NewIds(old(connectionCount), |old(newConnections)|),
                          Elements(old(disconnectedConnections)))
      ensures SameRegistry() && errorChannel == old(errorChannel) && serverHandle == old(serverHandle)
      ensures connectionTasks == old(connectionTasks) && connectionTaskCounts == old(connectionTaskCounts)
    {
      ghost var c0, pending, table := connectionCount, newConnections, establishedConnections;
      var connected := EstablishNewConnections();
      ghost var accepted := establishedConnections;
      ghost var kept := table - NewIds(c0, |pending|);
      if NoWrap(c0, |pending|) {
        AcceptedSockets(c0, pending, table, accepted, connected);
      }
      label established:
      var disconnected := DrainDisconnects();
      events := connected + disconnected;
      assert DroppedFrom(kept, Elements(old(disconnectedConnections))) by {
        forall id | id in kept
          ensures old@established(kept[id].Status()) == old(kept[id].Status())
        {
        }
      }
    }

    // -------------------------------------------------------------------------------------
    // Registration, demultiplexing and delivery
    // -------------------------------------------------------------------------------------

    /**
     * The duplicate check shared by every `listen_for_*` registration: a tag already in the
     * registry panics with `role` in the message; a new tag gets an empty list.
     */
    method Register(name: string, role: string) returns (c: Completion)
      modifies this
      ensures name in old(recvMessageMap) ==> c == Panicked(DuplicateRegistration(role, name)) && unchanged(this)
      ensures name !in old(recvMessageMap) ==> c == Completed && recvMessageMap == old(recvMessageMap)[name := []]
      ensures SameTable() && SameQueues() && SameBookkeeping()
    {
      if name in recvMessageMap {
        return Panicked(DuplicateRegistration(role, name));
      }
      recvMessageMap := recvMessageMap[name := []];
      return Completed;
    }

    /** `listen_for_message`: register a message type's tag for reception. */
    method ListenForMessage<T>(t: MessageType<T>) returns (c: Completion)
      modifies this
      ensures t.name in old(recvMessageMap) ==>
        c == Panicked(DuplicateRegistration("ServerMessage", t.name)) && unchanged(this)
      ensures t.name !in old(recvMessageMap) ==> c == Completed && recvMessageMap == old(recvMessageMap)[t.name := []]
      ensures SameTable() && SameQueues() && SameBookkeeping()
    {
      c := Register(t.name, "ServerMessage");
    }

    /**
     * The demultiplex task of connection `source`: each packet, in arrival order, is
     * appended to its kind's list, or dropped when its kind is not registered.
     */
    method Demux(source: ConnectionId, packets: seq<NetworkPacket>)
      modifies this
      ensures recvMessageMap == Routed(old(recvMessageMap), source, packets)
      ensures SameTable() && SameQueues() && SameBookkeeping()
    {
      var i := 0;
      while i < |packets|
        invariant 0 <= i <= |packets|
        invariant recvMessageMap == Routed(old(recvMessageMap), source, packets[..i])
        invariant SameTable() && SameQueues() && SameBookkeeping()
      {
        var packet := packets[i];
        assert packets[..i + 1][..i] == packets[..i];
        if packet.kind in recvMessageMap {
          recvMessageMap := recvMessageMap[packet.kind := recvMessageMap[packet.kind] + [(source, packet.data)]];
        }
        i := i + 1;
      }
      assert packets[..i] == packets;
    }

    /**
     * `register_message`: drain the type's list, delivering in arrival order exactly the
     * entries that deserialize; a type that is not registered is a no-op.
     */
    method RegisterMessage<T>(t: MessageType<T>) returns (delivered: seq<NetworkData<T>>)
      modifies this
      ensures t.name !in old(recvMessageMap) ==> delivered == [] && unchanged(this)
      ensures t.name in old(recvMessageMap) ==>
        && delivered == DecodeAll(t.codec, old(recvMessageMap)[t.name])
        && recvMessageMap == old(recvMessageMap)[t.name := []]
      ensures SameTable() && SameQueues() && SameBookkeeping()
    {
      if t.name !in recvMessageMap {
        return [];
      }
      delivered := DecodeAll(t.codec, recvMessageMap[t.name]);
      recvMessageMap := recvMessageMap[t.name := []];
    }
  }
}
