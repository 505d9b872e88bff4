/**
 * Concrete runs of the model: a fresh manager (or response map) driven through a short
 * sequence of calls, with the observable outcome stated in the contract. They pin down
 * the behaviours users meet first (a message sent before the poll step, ids starting at
 * 1, a second disconnect) and show both documented defects of the source next to their
 * corrections.
 */
module Scenarios {
  import opened Wrappers
  import opened Eventwork
  import opened NetworkManager
  import opened NetworkRequest
  import opened Tcp

  /** A sample one-byte message type whose serializer never fails. */
  const Chat: MessageType<byte> :=
    MessageType("Chat", Codec((x: byte) => Some([x]), (b: Bytes) => if |b| == 1 then Some(b[0]) else None))

  /** A sample request kind: `Ping` requests answered by `Pong` responses, one byte each. */
  const PingPong: RequestKind<byte, byte> :=
    RequestKind("Ping", "Pong",
                Codec((q: RequestInternal<byte>) => Some([q.request]), (b: Bytes) => None),
                Codec((r: ResponseInternal<byte>) => Some([r.response]), (b: Bytes) => None))

  /** A manager whose first queued socket has become connection 1 in one poll step. */
  method ConnectedManager() returns (net: Network<string>, events: seq<NetworkEvent>)
    ensures fresh(net) && net.Valid()
    ensures events == [Connected(ConnectionId(1))]
    ensures net.establishedConnections.Keys == {ConnectionId(1)}
    ensures fresh(net.establishedConnections[ConnectionId(1)])
    ensures fresh(net.establishedConnections[ConnectionId(1)].sendMessage)
    ensures net.establishedConnections[ConnectionId(1)].IsNew()
    ensures net.serverHandle == None && net.recvMessageMap == map[]
    ensures net.newConnections == [] && net.disconnectedConnections == []
  {
    net := new Network<string>();
    net.Incoming("peer");
    events := net.HandleNewIncomingConnections();
    forall id ensures id in NewIds(0, 1) <==> id == ConnectionId(1) {
      NewIdsRange(0, 1, id);
    }
  }

  /**
   * A socket is only a connection after the poll step: sending to its future id fails
   * with `ConnectionNotFound` before, and queues the packet after.
   */
  method SendBeforeAndAfterPoll() returns (before: Result<(), NetworkError>, events: seq<NetworkEvent>,
                                           after: Result<(), NetworkError>, queued: seq<NetworkPacket>)
    ensures before == Err(ConnectionNotFound(ConnectionId(1)))
    ensures events == [Connected(ConnectionId(1))]
    ensures after == Ok(()) && queued == [NetworkPacket("Chat", [7])]
  {
    var net := new Network<string>();
    net.Incoming("peer");
    before := net.SendMessage(ConnectionId(1), Chat, 7);
    events := net.HandleNewIncomingConnections();
    NewIdsRange(0, 1, ConnectionId(1));
    after := net.SendMessage(ConnectionId(1), Chat, 7);
    queued := net.establishedConnections[ConnectionId(1)].sendMessage.items;
  }

  /** The first two sockets become connections 1 and 2, announced in queue order. */
  method FirstIds() returns (events: seq<NetworkEvent>)
    ensures events == [Connected(ConnectionId(1)), Connected(ConnectionId(2))]
  {
    var net := new Network<string>();
    net.Incoming("first");
    net.Incoming("second");
    events := net.HandleNewIncomingConnections();
  }

  /** Disconnecting succeeds once; the second call, like any send to that id, fails. */
  method DisconnectTwice() returns (first: Result<(), NetworkError>, second: Result<(), NetworkError>,
                                    send: Result<(), NetworkError>)
    ensures first == Ok(())
    ensures second == Err(ConnectionNotFound(ConnectionId(1)))
    ensures send == Err(ConnectionNotFound(ConnectionId(1)))
  {
    var net, _ := ConnectedManager();
    first := net.Disconnect(ConnectionId(1));
    second := net.Disconnect(ConnectionId(1));
    send := net.SendMessage(ConnectionId(1), Chat, 7);
  }

  /** A manager whose first two queued sockets have become connections 1 and 2. */
  method TwoConnections() returns (net: Network<string>)
    ensures fresh(net) && net.Valid()
    ensures net.establishedConnections.Keys == {ConnectionId(1), ConnectionId(2)}
    ensures net.establishedConnections[ConnectionId(1)].IsNew() && net.establishedConnections[ConnectionId(2)].IsNew()
    ensures fresh(net.Outgoing())
  {
    net := new Network<string>();
    net.Incoming("first");
    net.Incoming("second");
    var _ := net.HandleNewIncomingConnections();
    forall id ensures id in NewIds(0, 2) <==> id == ConnectionId(1) || id == ConnectionId(2) {
      NewIdsRange(0, 2, id);
    }
  }

  /**
   * A connection whose send task has ended refuses packets: `send_message` reports
   * `ChannelClosed`, and `broadcast` skips it while still reaching the others.
   */
  method BroadcastSkipsClosedQueue() returns (direct: Result<(), NetworkError>, c: Completion,
                                              toFirst: seq<NetworkPacket>, toSecond: seq<NetworkPacket>)
    ensures direct == Err(ChannelClosed(ConnectionId(1)))
    ensures c == Completed && toFirst == [] && toSecond == [NetworkPacket("Chat", [9])]
  {
    var net := TwoConnections();
    assert net.establishedConnections[ConnectionId(1)].sendMessage in net.Outgoing();
    net.SendTaskEnded(ConnectionId(1));
    direct := net.SendMessage(ConnectionId(1), Chat, 9);
    c := net.Broadcast(Chat, 9);
    toFirst := net.establishedConnections[ConnectionId(1)].sendMessage.items;
    toSecond := net.establishedConnections[ConnectionId(2)].sendMessage.items;
  }

  /** The only list that enumerates a one-element set is that element alone. */
  lemma EnumeratesSingleton(s: seq<ConnectionId>, id: ConnectionId)
    requires Enumerates(s, {id})
    ensures s == [id]
  {
    EnumeratesCount(s, {id});
  }

  /**
   * `stop` as written on a listening server with one connection: no disconnect id is
   * queued, so the next poll step reports nothing.
   */
  method StopAsWrittenThenPoll() returns (events: seq<NetworkEvent>)
    ensures events == []
  {
    var net, _ := ConnectedManager();
    var _ := net.Listen();
    net.StopAsWritten();
    events := net.HandleNewIncomingConnections();
  }

  /** The corrected `stop` in the same situation: the next poll step reports connection 1. */
  method StopThenPoll() returns (events: seq<NetworkEvent>)
    ensures events == [Disconnected(ConnectionId(1))]
  {
    var net, _ := ConnectedManager();
    var _ := net.Listen();
    net.Stop();
    EnumeratesSingleton(net.disconnectedConnections, ConnectionId(1));
    events := net.HandleNewIncomingConnections();
  }

  /**
   * Restarting a listener as written drops its connections, and no `Disconnected` event
   * ever reports them.
   */
  method RelistenAsWrittenThenPoll() returns (events: seq<NetworkEvent>, connected: bool)
    ensures events == [] && !connected
  {
    var net, _ := ConnectedManager();
    var _ := net.ListenAsWritten();
    var _ := net.ListenAsWritten();
    connected := net.HasConnections();
    events := net.HandleNewIncomingConnections();
  }

  /** Restarting a listener with the corrected `stop`: the next poll step reports connection 1. */
  method RelistenThenPoll() returns (events: seq<NetworkEvent>)
    ensures events == [Disconnected(ConnectionId(1))]
  {
    var net, _ := ConnectedManager();
    var _ := net.Listen();
    var _ := net.Listen();
    EnumeratesSingleton(net.disconnectedConnections, ConnectionId(1));
    events := net.HandleNewIncomingConnections();
  }

  /** `stop` without a listener changes nothing: the connection stays. */
  method StopWhenNotListening() returns (connected: bool)
    ensures connected
  {
    var net, _ := ConnectedManager();
    net.Stop();
    connected := net.HasConnections();
  }

  /** Back-to-back `get_responder` calls on a fresh map give ids 0 and 1. */
  method ConsecutiveIds() returns (a: u64, b: u64)
    ensures a == 0 && b == a + 1
  {
    var responses := new ResponseMap<byte>();
    var ra, rb;
    a, ra := responses.GetResponder();
    b, rb := responses.GetResponder();
  }

  /** A slot is removed once: the second `remove` finds nothing. */
  method RemoveTwice() returns (first: bool, second: bool)
    ensures first && !second
  {
    var responses := new ResponseMap<byte>();
    var id, _ := responses.GetResponder();
    var slot := responses.Remove(id);
    first := slot.Some?;
    slot := responses.Remove(id);
    second := slot.Some?;
  }

  /**
   * Two requests answered in reverse order, followed by a duplicate of the first answer
   * and an answer to an id never issued: each handle gets its own response, the duplicate
   * and the stray are dropped, and nothing remains pending.
   */
  method OutOfOrderResponses() returns (first: Result<byte, Response<byte>>, second: Result<byte, Response<byte>>,
                                        pending: set<u64>)
    ensures first.Ok? && first.value == 10
    ensures second.Ok? && second.value == 20
    ensures pending == {}
  {
    var responses := new ResponseMap<byte>();
    var a, ra := responses.GetResponder();
    var b, rb := responses.GetResponder();
    var server := ConnectionId(1);
    var incoming := [NetworkData(server, ResponseInternal(b, 20)), NetworkData(server, ResponseInternal(a, 10)),
                     NetworkData(server, ResponseInternal(a, 30)), NetworkData(server, ResponseInternal(5, 40))];
    assert a == 0 && b == 1;
    assert responses.slots == map[a := ra.rx, b := rb.rx];
    FirstResponseIsEarliest(incoming, a, 1);
    FirstResponseIsEarliest(incoming, b, 0);
    assert responses.Valid() && OwnSlots(responses.slots);
    assert responses.slots[a] == ra.rx && responses.slots[b] == rb.rx;
    assert ra.rx.items == [] && ra.rx.open && ra.rx.bound == Some(1);
    assert rb.rx.items == [] && rb.rx.open && rb.rx.bound == Some(1);
    ResolveResponses(responses, incoming);
    assert ResolvedFrom(ra.rx, SlotState([], true), a, incoming);
    assert ResolvedFrom(rb.rx, SlotState([], true), b, incoming);
    first := ra.TryRecv();
    second := rb.TryRecv();
    pending := responses.slots.Keys;
  }

  /** Polling before the answer arrives hands back the same handle. */
  method PollTooEarly() returns (r: Result<byte, Response<byte>>, handle: Response<byte>)
    ensures r == Err(handle)
  {
    var responses := new ResponseMap<byte>();
    var _, response := responses.GetResponder();
    handle := response;
    r := response.TryRecv();
  }

  /**
   * The answer to a request whose `Response` handle was dropped. As written, the handler
   * panics; corrected, the answer is dropped and the slot is gone.
   */
  method AnswerToDroppedHandle() returns (asWritten: Completion, pendingAfterCorrected: set<u64>)
    ensures asWritten == Panicked("Internal channel closed!")
    ensures pendingAfterCorrected == {}
  {
    var responses := new ResponseMap<byte>();
    var id, response := responses.GetResponder();
    response.rx.CloseReceiver();
    var incoming := [NetworkData(ConnectionId(1), ResponseInternal(id, 10))];
    assert id in ResponseIds(incoming);
    asWritten := ResolveResponsesAsWritten(responses, incoming);

    var fixed := new ResponseMap<byte>();
    var fixedId, fixedResponse := fixed.GetResponder();
    fixedResponse.rx.CloseReceiver();
    var fixedIncoming := [NetworkData(ConnectionId(1), ResponseInternal(fixedId, 10))];
    assert ResponseIds(fixedIncoming) == {fixedId};
    ResolveResponses(fixed, fixedIncoming);
    pendingAfterCorrected := fixed.slots.Keys;
  }

  /**
   * A request whose connection is unknown fails like `send_message`, but its id is spent
   * and its slot stays pending with no receiver. A stray answer with that id then panics
   * the handler as written.
   */
  method RequestToUnknownConnection() returns (r: Result<Response<byte>, NetworkError>, count: u64, pending: set<u64>,
                                               closed: bool, answered: Completion)
    ensures r == Err(ConnectionNotFound(ConnectionId(9)))
    ensures count == 1 && pending == {0} && closed
    ensures answered == Panicked("Internal channel closed!")
  {
    var net := new Network<string>();
    var responses := new ResponseMap<byte>();
    r := SendRequest(PingPong, net, responses, ConnectionId(9), 3);
    count := responses.count;
    pending := responses.slots.Keys;
    closed := !responses.slots[0].open;
    var incoming := [NetworkData(ConnectionId(9), ResponseInternal(0, 10))];
    assert 0 in ResponseIds(incoming);
    answered := ResolveResponsesAsWritten(responses, incoming);
  }

  /**
   * The server side of a request: the handle answers on connection 1's queue while it is
   * connected; after a disconnect the answer fails with `SendError`, and a request arriving
   * from the departed connection yields no handle.
   */
  method RespondAfterDisconnect() returns (early: Result<(), NetworkError>, queued: seq<NetworkPacket>,
                                           late: Result<(), NetworkError>, stale: seq<Request<byte>>)
    ensures early == Ok(()) && queued == [NetworkPacket("Pong", [5])]
    ensures late == Err(SendError)
    ensures stale == []
  {
    var net, _ := ConnectedManager();
    var incoming := [NetworkData(ConnectionId(1), RequestInternal(0, 4))];
    var handles := CreateRequestHandlers(net, incoming);
    var handle := handles[0];
    early := Respond(PingPong, handle, 5);
    queued := net.establishedConnections[ConnectionId(1)].sendMessage.items;
    var _ := net.Disconnect(ConnectionId(1));
    late := Respond(PingPong, handle, 6);
    stale := CreateRequestHandlers(net, incoming);
  }

  /**
   * A request handle outliving its connection's removal by the poll step: the peer's
   * receive task reports the disconnect, the poll step removes and drops connection 1, and
   * the handle's answer then fails with `SendError`, with all three tasks of the dropped
   * connection cancelled.
   */
  method RespondAfterPoll() returns (events: seq<NetworkEvent>, late: Result<(), NetworkError>, cancelled: bool)
    ensures events == [Disconnected(ConnectionId(1))]
    ensures late == Err(SendError) && cancelled
  {
    var net, _ := ConnectedManager();
    var connection := net.establishedConnections[ConnectionId(1)];
    var handles := CreateRequestHandlers(net, [NetworkData(ConnectionId(1), RequestInternal(0, 4))]);
    var handle := handles[0];
    net.ReceiveTaskEnded(ConnectionId(1));
    events := net.HandleNewIncomingConnections();
    cancelled := connection.receiveTask == Aborted && connection.mapReceiveTask == Aborted && connection.sendTask == Aborted;
    late := Respond(PingPong, handle, 6);
  }

  /** Registering the request kind twice panics with the request tag in the message. */
  method RegisterRequestKindTwice() returns (first: Completion, second: Completion, response: Completion)
    ensures first == Completed
    ensures second == Panicked(DuplicateRegistration("RequestMessage", "Ping"))
    ensures response == Completed
  {
    var net := new Network<string>();
    first := ListenForRequestMessage(net, PingPong);
    assert "Ping" in net.recvMessageMap;
    second := ListenForRequestMessage(net, PingPong);
    assert "Pong" !in net.recvMessageMap;
    var responses;
    response, responses := ListenForResponseMessage(net, PingPong);
  }

  /** A frame declaring exactly the maximum is read; one byte more is rejected unread. */
  method LengthBound() returns (atMax: RecvOutcome, overMax: RecvOutcome)
    ensures atMax == RecvOutcome([NetworkPacket("k", [])], EndOfStream)
    ensures overMax == RecvOutcome([], TooLarge(9))
  {
    var payload: Bytes := [1, 2, 3, 4, 5, 6, 7, 8];
    var codec := Codec((p: NetworkPacket) => Some(payload),
                       (b: Bytes) => if b == payload then Some(NetworkPacket("k", [])) else None);
    FrameAccepted(codec, 8, NetworkPacket("k", []), []);
    assert Frame(payload) + [] == Frame(payload);
    assert Receiving(codec, 8, [], true) == RecvOutcome([], EndOfStream);
    atMax := Receiving(codec, 8, Frame(payload), true);
    OversizedFrameRejected(codec, 8, 9, payload + [9], true);
    overMax := Receiving(codec, 8, Frame(payload + [9]), true);
  }
}
