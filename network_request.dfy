/**
 * The request/response layer of `src/managers/network_request.rs`. A client keeps a
 * `ResponseMap`: a `u64` counter and a map from request id to a one-shot slot. Sending a
 * request allocates the next id and its slot and sends `RequestInternal { id, request }`.
 * The server turns each arriving request into a `Request` handle that remembers the
 * request id and the outgoing queue of the connection it came from; `respond` sends
 * `ResponseInternal { response_id, response }` back on that queue. On the client, each
 * arriving response removes its id's slot and fills it; the caller polls the slot through
 * its `Response` handle.
 */
module NetworkRequest {
  import opened Wrappers
  import opened Eventwork
  import opened NetworkManager

  /** `RequestInternal<T>`: a request tagged with its correlation id. */
  datatype RequestInternal<Q> = RequestInternal(id: u64, request: Q)

  /** `ResponseInternal<T>`: a response tagged with the id of the request it answers. */
  datatype ResponseInternal<R> = ResponseInternal(responseId: u64, response: R)

  /**
   * A `RequestMessage` type together with its `ResponseMessage` type: the request's
   * `REQUEST_NAME`, the response type's `NAME`, and the serializers of the two wire wrappers.
   */
  datatype RequestKind<!Q, !R> = RequestKind(
    requestName: string,
    responseName: string,
    requestCodec: Codec<RequestInternal<Q>>,
    responseCodec: Codec<ResponseInternal<R>>)
  {
    /** `RequestInternal<T>` as a network message. */
    function RequestType(): (t: MessageType<RequestInternal<Q>>)
      ensures t.name == requestName && t.codec == requestCodec
    {
      MessageType(requestName, requestCodec)
    }

    /** `ResponseInternal<T::ResponseMessage>` as a network message. */
    function ResponseType(): (t: MessageType<ResponseInternal<R>>)
      ensures t.name == responseName && t.codec == responseCodec
    {
      MessageType(responseName, responseCodec)
    }
  }

  // ---------------------------------------------------------------------------------------
  // The client's pending requests
  // ---------------------------------------------------------------------------------------

  /** `AtomicU64::fetch_add(1)` leaves the counter one higher, wrapping around at 2^64. */
  function NextCount(c: u64): (n: u64)
    ensures n == (c + 1) % U64
    ensures n != c
  {
    if c == U64 - 1 then 0 else c + 1
  }

  /** `Response<T>`: the receiving end of one request's slot. */
  datatype Response<R> = Response(rx: Channel<R>)
  {
    /**
     * `try_recv`: the slot's value once it is there; otherwise the very same handle, to
     * be polled again later.
     */
    function TryRecv(): (r: Result<R, Response<R>>)
      reads rx
      ensures r.Ok? <==> rx.items != []
      ensures r.Ok? ==> r.value == rx.items[0]
      ensures r.Err? ==> r.error == this
    {
      if rx.items == [] then Err(this) else Ok(rx.items[0])
    }
  }

  /** Each slot of `slots` is a `bounded(1)` channel, and no two ids share one. */
  ghost predicate OwnSlots<R>(slots: map<u64, Channel<R>>)
  {
    && (forall id | id in slots :: slots[id].bound == Some(1))
    && (forall a, b | a in slots && b in slots && a != b :: slots[a] != slots[b])
  }

  /** `ResponseMap<T>`: the next request id and the slot of every pending request. */
  class ResponseMap<R> {
    var count: u64
    var slots: map<u64, Channel<R>>

    /** Every slot is a `bounded(1)` channel of its own. */
    ghost predicate Valid()
      reads this
    {
      OwnSlots(slots)
    }

    /** The slot pending under `id`, if any. */
    ghost function SlotOf(id: u64): set<object>
      reads this
    {
      if id in slots then {slots[id]} else {}
    }

    /** The pending slots. */
    ghost function Slots(): set<object>
      reads this
    {
      set id | id in slots :: slots[id]
    }

    /** `ResponseMap::default`. */
    constructor ()
      ensures Valid() && count == 0 && slots == map[]
    {
      count, slots := 0, map[];
    }

    /**
     * `get_responder`: the current counter value is the id; the counter moves on by one
     * and a fresh, empty slot is stored under the id.
     */
    method GetResponder() returns (id: u64, response: Response<R>)
      requires Valid()
      modifies this
      ensures Valid()
      ensures id == old(count) && count == NextCount(old(count))
      ensures fresh(response.rx) && response.rx.items == [] && response.rx.open
      ensures slots == old(slots)[id := response.rx]
    {
      id := count;
      count := NextCount(count);
      var slot := new Channel<R>.Bounded(1);
      slots := slots[id := slot];
      response := Response(slot);
    }

    /** `remove`: hands out the slot stored under `id`, if any, and forgets it. */
    method Remove(id: u64) returns (slot: Option<Channel<R>>)
      requires Valid()
      modifies this
      ensures Valid()
      ensures slot == (if id in old(slots) then Some(old(slots)[id]) else None)
      ensures slots == old(slots) - {id} && count == old(count)
    {
      slot := if id in slots then Some(slots[id]) else None;
      slots := slots - {id};
    }
  }

  /**
   * `Requester::send_request`: the id and its slot are allocated first, then
   * `RequestInternal { id, request }` is sent with `send_message`. An error is passed on
   * and drops the `Response`: the counter has moved and the slot stays pending, but its
   * receiving end is gone, so the slot refuses any answer.
   */
  method SendRequest<S, Q, R>(kind: RequestKind<Q, R>, net: Network<S>, responses: ResponseMap<R>,
                              clientId: ConnectionId, request: Q)
    returns (r: Result<Response<R>, NetworkError>)
    requires net.Valid() && responses.Valid()
    modifies responses, net.QueueOf(clientId)
    ensures net.Valid() && responses.Valid()
    ensures responses.count == NextCount(old(responses.count))
    ensures var id := old(responses.count);
      && id in responses.slots
      && responses.slots == old(responses.slots)[id := responses.slots[id]]
      && fresh(responses.slots[id]) && responses.slots[id].items == []
      && (responses.slots[id].open <==> r.Ok?)
      && (r.Ok? ==> r.value.rx == responses.slots[id])
    ensures net.Sent(clientId, Packet(kind.RequestType(), RequestInternal(old(responses.count), request)),
                     if r.Ok? then Ok(()) else Err(r.error))
  {
    var id, response := responses.GetResponder();
    var sent := net.SendMessage(clientId, kind.RequestType(), RequestInternal(id, request));
    if sent.Err? {
      response.rx.CloseReceiver();
      return Err(sent.error);
    }
    return Ok(response);
  }

  // ---------------------------------------------------------------------------------------
  // The server's request handles
  // ---------------------------------------------------------------------------------------

  /**
   * `Request<T>`: an arrived request with its source, its correlation id, and a clone of
   * the source connection's outgoing queue.
   */
  datatype Request<Q> = Request(request: Q, source: ConnectionId, requestId: u64,
                                responseTx: Channel<NetworkPacket>)
  {
    /** `get_request`. */
    function GetRequest(): Q { request }

    /** `source`. */
    function Source(): ConnectionId { source }
  }

  /** The handle one arrived request yields: one when its source is still in `table`, else none. */
  function HandleOf<S, Q>(table: map<ConnectionId, Connection<S>>, d: NetworkData<RequestInternal<Q>>): seq<Request<Q>>
  {
    if d.source in table then [Request(d.inner.request, d.source, d.inner.id, table[d.source].sendMessage)] else []
  }

  /**
   * The handles `create_request_handlers` emits for `incoming`, in order: one per request
   * whose source connection is still in `table`; requests from other sources vanish.
   */
  function RequestHandles<S, Q>(table: map<ConnectionId, Connection<S>>,
                                incoming: seq<NetworkData<RequestInternal<Q>>>): (r: seq<Request<Q>>)
    ensures |r| <= |incoming|
  {
    if incoming == [] then []
    else
      var n := |incoming| - 1;
      RequestHandles(table, incoming[..n]) + HandleOf(table, incoming[n])
  }

  /** The handles of a concatenation are the handles of its parts, in order. */
  lemma {:induction false} RequestHandlesConcat<S, Q>(table: map<ConnectionId, Connection<S>>,
                                                      a: seq<NetworkData<RequestInternal<Q>>>,
                                                      b: seq<NetworkData<RequestInternal<Q>>>)
    ensures RequestHandles(table, a + b) == RequestHandles(table, a) + RequestHandles(table, b)
  {
    if b != [] {
      var n := |b| - 1;
      assert (a + b)[..|a + b| - 1] == a + b[..n] && (a + b)[|a + b| - 1] == b[n];
      RequestHandlesConcat(table, a, b[..n]);
    } else {
      assert a + b == a;
    }
  }

  /**
   * A mixed batch is filtered request by request: the handles of a concatenation are the
   * handles of its parts in order, and one request yields a handle exactly when its source
   * is still connected. So the output keeps the requests of connected sources, in order.
   */
  lemma {:induction false} RequestHandlesSplit<S, Q>(table: map<ConnectionId, Connection<S>>,
                                                     a: seq<NetworkData<RequestInternal<Q>>>,
                                                     b: seq<NetworkData<RequestInternal<Q>>>)
    ensures RequestHandles(table, a + b) == RequestHandles(table, a) + RequestHandles(table, b)
    ensures forall d: NetworkData<RequestInternal<Q>> :: RequestHandles(table, [d]) == HandleOf(table, d)
  {
    RequestHandlesConcat(table, a, b);
    forall d: NetworkData<RequestInternal<Q>>
      ensures RequestHandles(table, [d]) == HandleOf(table, d)
    {
      assert [d][..0] == [];
    }
  }

  /**
   * Every handle comes from a known source, answers on that source's queue, and carries
   * the id and the request of some arrived request from that source.
   */
  lemma {:induction false} HandlesFromKnownSources<S, Q>(table: map<ConnectionId, Connection<S>>,
                                                         incoming: seq<NetworkData<RequestInternal<Q>>>)
    ensures forall h | h in RequestHandles(table, incoming) ::
      && h.Source() in table && h.responseTx == table[h.Source()].sendMessage
      && exists i | 0 <= i < |incoming| ::
           incoming[i].Source() == h.Source() && incoming[i].IntoInner() == RequestInternal(h.requestId, h.GetRequest())
  {
    if incoming != [] {
      var n := |incoming| - 1;
      HandlesFromKnownSources(table, incoming[..n]);
      forall h | h in RequestHandles(table, incoming)
        ensures exists i | 0 <= i < |incoming| ::
          incoming[i].Source() == h.Source() && incoming[i].IntoInner() == RequestInternal(h.requestId, h.GetRequest())
      {
        if h in RequestHandles(table, incoming[..n]) {
          var i :| 0 <= i < n && incoming[..n][i].Source() == h.Source()
                   && incoming[..n][i].IntoInner() == RequestInternal(h.requestId, h.GetRequest());
          assert incoming[i] == incoming[..n][i];
        } else {
          assert incoming[n].IntoInner() == RequestInternal(h.requestId, h.GetRequest());
        }
      }
    }
  }

  /**
   * When every source is still connected, there is exactly one handle per request, in
   * arrival order, with that request's source, id and payload.
   */
  lemma {:induction false} HandlesForConnectedSources<S, Q>(table: map<ConnectionId, Connection<S>>,
                                                            incoming: seq<NetworkData<RequestInternal<Q>>>)
    requires forall i | 0 <= i < |incoming| :: incoming[i].Source() in table
    ensures |RequestHandles(table, incoming)| == |incoming|
    ensures forall i | 0 <= i < |incoming| ::
      var h := RequestHandles(table, incoming)[i];
      && h.GetRequest() == incoming[i].IntoInner().request
      && h.Source() == incoming[i].Source()
      && h.requestId == incoming[i].IntoInner().id
      && h.responseTx == table[incoming[i].Source()].sendMessage
  {
    if incoming != [] {
      var n := |incoming| - 1;
      assert forall i | 0 <= i < n :: incoming[..n][i] == incoming[i];
      HandlesForConnectedSources(table, incoming[..n]);
    }
  }

  /** Requests from sources that are all gone yield no handles. */
  lemma {:induction false} HandlesForDepartedSources<S, Q>(table: map<ConnectionId, Connection<S>>,
                                                           incoming: seq<NetworkData<RequestInternal<Q>>>)
    requires forall i | 0 <= i < |incoming| :: incoming[i].Source() !in table
    ensures RequestHandles(table, incoming) == []
  {
    if incoming != [] {
      var n := |incoming| - 1;
      assert forall i | 0 <= i < n :: incoming[..n][i] == incoming[i];
      HandlesForDepartedSources(table, incoming[..n]);
    }
  }

  /** `create_request_handlers`: one pass over the arrived requests. */
  method CreateRequestHandlers<S, Q>(net: Network<S>, incoming: seq<NetworkData<RequestInternal<Q>>>)
    returns (handles: seq<Request<Q>>)
    ensures handles == RequestHandles(net.establishedConnections, incoming)
  {
    handles := [];
    var i := 0;
    while i < |incoming|
      invariant i <= |incoming|
      invariant handles == RequestHandles(net.establishedConnections, incoming[..i])
    {
      assert incoming[..i + 1][..i] == incoming[..i];
      var request := incoming[i];
      if request.Source() in net.establishedConnections {
        var connection := net.establishedConnections[request.Source()];
        handles := handles + [Request(request.inner.request, request.source, request.inner.id,
                                      connection.sendMessage)];
      }
      i := i + 1;
    }
    assert incoming[..i] == incoming;
  }

  /** The packet `respond` sends: `ResponseInternal { response_id, response }` under `R::NAME`. */
  function ResponsePacket<Q, R>(kind: RequestKind<Q, R>, requestId: u64, response: R): (p: Option<NetworkPacket>)
    ensures p.Some? <==> kind.responseCodec.encode(ResponseInternal(requestId, response)).Some?
    ensures p.Some? ==> p.value.kind == kind.responseName
  {
    Packet(kind.ResponseType(), ResponseInternal(requestId, response))
  }

  /**
   * A response that serializes and round-trips travels under the response type's name,
   * and its bytes decode to the request's id paired with the response.
   */
  lemma ResponsePacketDecodes<Q, R>(kind: RequestKind<Q, R>, requestId: u64, response: R)
    requires RoundTrips(kind.responseCodec, ResponseInternal(requestId, response))
    ensures ResponsePacket(kind, requestId, response).Some?
    ensures ResponsePacket(kind, requestId, response).value.kind == kind.responseName
    ensures kind.responseCodec.decode(ResponsePacket(kind, requestId, response).value.data)
            == Some(ResponseInternal(requestId, response))
  {
  }

  /**
   * `Request::respond`: a serialization failure gives `Serialization` and sends nothing;
   * otherwise the packet is offered to the captured queue, and a refusal (the connection
   * is gone) gives `SendError`.
   */
  method Respond<Q, R>(kind: RequestKind<Q, R>, req: Request<Q>, response: R) returns (r: Result<(), NetworkError>)
    modifies req.responseTx
    ensures var p := ResponsePacket(kind, req.requestId, response);
      && (p.None? ==> r == Err(Serialization))
      && (p.Some? ==> r == (if old(req.responseTx.Accepts()) then Ok(()) else Err(SendError)))
      && req.responseTx.items == (if r.Ok? then old(req.responseTx.items) + [p.value] else old(req.responseTx.items))
    ensures req.responseTx.open == old(req.responseTx.open)
  {
    var packet := ResponsePacket(kind, req.requestId, response);
    if packet.None? {
      return Err(Serialization);
    }
    var sent := req.responseTx.TrySend(packet.value);
    if !sent {
      return Err(SendError);
    }
    return Ok(());
  }

  // ---------------------------------------------------------------------------------------
  // The client's response handling
  // ---------------------------------------------------------------------------------------

  /** The response ids among `incoming`. */
  function ResponseIds<R>(incoming: seq<NetworkData<ResponseInternal<R>>>): set<u64>
  {
    if incoming == [] then {}
    else ResponseIds(incoming[..|incoming| - 1]) + {incoming[|incoming| - 1].inner.responseId}
  }

  /** An id is among the response ids exactly when some response carries it. */
  lemma {:induction false} ResponseIdsSpec<R>(incoming: seq<NetworkData<ResponseInternal<R>>>, id: u64)
    ensures id in ResponseIds(incoming) <==> exists i | 0 <= i < |incoming| :: incoming[i].inner.responseId == id
  {
    if incoming != [] {
      var n := |incoming| - 1;
      ResponseIdsSpec(incoming[..n], id);
      if id in ResponseIds(incoming[..n]) {
        var i :| 0 <= i < n && incoming[..n][i].inner.responseId == id;
        assert incoming[i] == incoming[..n][i];
      }
      if exists i | 0 <= i < |incoming| :: incoming[i].inner.responseId == id {
        var i :| 0 <= i < |incoming| && incoming[i].inner.responseId == id;
        if i < n {
          assert incoming[..n][i] == incoming[i];
        }
      }
    }
  }

  /** The first response carrying `id`: the one that finds the slot still pending. */
  function FirstResponse<R>(incoming: seq<NetworkData<ResponseInternal<R>>>, id: u64): R
    requires id in ResponseIds(incoming)
  {
    var n := |incoming| - 1;
    if id in ResponseIds(incoming[..n]) then FirstResponse(incoming[..n], id) else incoming[n].inner.response
  }

  /** `FirstResponse` is the response at the earliest position carrying `id`. */
  lemma {:induction false} FirstResponseIsEarliest<R>(incoming: seq<NetworkData<ResponseInternal<R>>>, id: u64, i: nat)
    requires i < |incoming| && incoming[i].inner.responseId == id
    requires forall j | 0 <= j < i :: incoming[j].inner.responseId != id
    ensures id in ResponseIds(incoming) && FirstResponse(incoming, id) == incoming[i].inner.response
  {
    var n := |incoming| - 1;
    ResponseIdsSpec(incoming, id);
    if i < n {
      assert incoming[..n][i] == incoming[i];
      assert forall j | 0 <= j < i :: incoming[..n][j] == incoming[j];
      FirstResponseIsEarliest(incoming[..n], id, i);
    } else {
      ResponseIdsSpec(incoming[..n], id);
      assert forall j | 0 <= j < n :: incoming[..n][j] == incoming[j];
    }
  }

  /** A slot's buffered values and whether its receiver is alive, at one moment. */
  datatype SlotState<R> = SlotState(items: seq<R>, open: bool)

  /** The state of every slot in `slots`. */
  ghost function Snapshot<R>(slots: map<u64, Channel<R>>): (s: map<u64, SlotState<R>>)
    reads set id | id in slots :: slots[id]
    ensures s.Keys == slots.Keys
  {
    map id | id in slots :: SlotState(slots[id].items, slots[id].open)
  }

  /** Whether a channel with this bound, in state `before`, accepts a `try_send`. */
  predicate Admits<R>(bound: Option<nat>, before: SlotState<R>)
  {
    before.open && (bound.None? || |before.items| < bound.value)
  }

  /**
   * What the response handlers did to the slot pending under `id`, which was in state
   * `before`: when some response carries `id` and the slot accepted, it now holds the first
   * such response; otherwise it is as it was. It never opens or closes.
   */
  ghost predicate ResolvedFrom<R>(slot: Channel<R>, before: SlotState<R>, id: u64,
                                  incoming: seq<NetworkData<ResponseInternal<R>>>)
    reads slot
  {
    && slot.open == before.open
    && slot.items == (if id in ResponseIds(incoming) && Admits(slot.bound, before)
                      then before.items + [FirstResponse(incoming, id)]
                      else before.items)
  }

  /** `ResolvedFrom`, with `before` the slot's state in the previous heap. */
  twostate predicate Resolved<R>(slot: Channel<R>, id: u64, incoming: seq<NetworkData<ResponseInternal<R>>>)
    reads slot
  {
    ResolvedFrom(slot, SlotState(old(slot.items), old(slot.open)), id, incoming)
  }

  /**
   * The handlers have processed `incoming[..i]`, starting from the pending slots `slots0`
   * in the states `before`: the answered ids are gone and each slot is resolved so far.
   */
  ghost predicate ResolvedUpTo<R>(responses: ResponseMap<R>, slots0: map<u64, Channel<R>>,
                                  before: map<u64, SlotState<R>>,
                                  incoming: seq<NetworkData<ResponseInternal<R>>>, i: nat)
    reads responses, set id | id in slots0 :: slots0[id]
  {
    && i <= |incoming|
    && OwnSlots(slots0) && before.Keys == slots0.Keys
    && responses.Valid()
    && responses.slots == slots0 - ResponseIds(incoming[..i])
    && forall id | id in slots0 :: ResolvedFrom(slots0[id], before[id], id, incoming[..i])
  }

  /** Appending one response extends the ids by its id. */
  lemma ResponseIdsSnoc<R>(incoming: seq<NetworkData<ResponseInternal<R>>>, i: nat)
    requires i < |incoming|
    ensures ResponseIds(incoming[..i + 1]) == ResponseIds(incoming[..i]) + {incoming[i].inner.responseId}
    ensures forall id | id in ResponseIds(incoming[..i]) ::
      FirstResponse(incoming[..i + 1], id) == FirstResponse(incoming[..i], id)
    ensures incoming[i].inner.responseId !in ResponseIds(incoming[..i]) ==>
      FirstResponse(incoming[..i + 1], incoming[i].inner.responseId) == incoming[i].inner.response
  {
    assert incoming[..i + 1][..i] == incoming[..i];
  }

  /**
   * One response, as both handler loops treat it: if its id is pending, the slot is removed
   * and offered the response, and `offered` says whether it took it; otherwise nothing
   * happens and `offered` is `None`.
   */
  method Deliver<R>(responses: ResponseMap<R>, response: ResponseInternal<R>) returns (offered: Option<bool>)
    requires responses.Valid()
    modifies responses, responses.SlotOf(response.responseId)
    ensures responses.Valid() && responses.count == old(responses.count)
    ensures responses.slots == old(responses.slots) - {response.responseId}
    ensures response.responseId !in old(responses.slots) ==> offered == None
    ensures response.responseId in old(responses.slots) ==>
      var slot := old(responses.slots)[response.responseId];
      && offered == Some(old(slot.Accepts()))
      && slot.open == old(slot.open)
      && slot.items == (if old(slot.Accepts()) then old(slot.items) + [response.response] else old(slot.items))
  {
    var slot := responses.Remove(response.responseId);
    offered := None;
    if slot.Some? {
      var sent := slot.value.TrySend(response.response);
      offered := Some(sent);
    }
  }

  /**
   * One turn of either handler loop: `Deliver` on `incoming[i]` moves `ResolvedUpTo` from
   * `i` to `i + 1`. The slot is offered the response exactly when its id is pending and
   * unanswered, and it takes it exactly when it accepted before the handlers ran.
   */
  method DeliverNext<R>(responses: ResponseMap<R>, ghost slots0: map<u64, Channel<R>>,
                        ghost before: map<u64, SlotState<R>>,
                        incoming: seq<NetworkData<ResponseInternal<R>>>, i: nat)
    returns (offered: Option<bool>)
    requires i < |incoming| && ResolvedUpTo(responses, slots0, before, incoming, i)
    modifies responses, responses.SlotOf(incoming[i].inner.responseId)
    ensures ResolvedUpTo(responses, slots0, before, incoming, i + 1)
    ensures responses.count == old(responses.count)
    ensures var id := incoming[i].inner.responseId;
      offered == (if id in slots0 && id !in ResponseIds(incoming[..i])
                  then Some(Admits(slots0[id].bound, before[id]))
                  else None)
  {
    ghost var id := incoming[i].inner.responseId;
    ResponseIdsSnoc(incoming, i);
    RemoveOneMore(slots0, ResponseIds(incoming[..i]), id);
    offered := Deliver(responses, incoming[i].inner);
    forall other | other in slots0
      ensures ResolvedFrom(slots0[other], before[other], other, incoming[..i + 1])
    {
      if other != id {
        assert id in old(responses.slots) ==> slots0[other] != slots0[id];
        assert slots0[other].items == old(slots0[other].items) && slots0[other].open == old(slots0[other].open);
      }
    }
  }

  /**
   * `create_client_response_handlers`, corrected: a response whose id is pending removes
   * the slot and offers it the response, and a slot whose handle was dropped simply loses
   * it; responses for unknown, already answered or duplicate ids are dropped. Each slot
   * receives its own id's response, whatever the order of arrival.
   */
  method ResolveResponses<R>(responses: ResponseMap<R>, incoming: seq<NetworkData<ResponseInternal<R>>>)
    requires responses.Valid()
    modifies responses, responses.Slots()
    ensures responses.Valid()
    ensures responses.count == old(responses.count)
    ensures responses.slots == old(responses.slots) - ResponseIds(incoming)
    ensures forall id | id in old(responses.slots) :: Resolved(old(responses.slots)[id], id, incoming)
  {
    ghost var slots0, before := responses.slots, Snapshot(responses.slots);
    assert incoming[..0] == [];
    var i := 0;
    while i < |incoming|
      invariant ResolvedUpTo(responses, slots0, before, incoming, i)
      invariant responses.count == old(responses.count)
    {
      var _ := DeliverNext(responses, slots0, before, incoming, i);
      i := i + 1;
    }
    assert incoming[..i] == incoming;
    forall id | id in slots0
      ensures Resolved(slots0[id], id, incoming)
    {
      assert before[id] == SlotState(old(slots0[id].items), old(slots0[id].open));
    }
  }

  /** The message `create_client_response_handlers` panics with. */
  const InternalChannelClosed: string := "Internal channel closed!"

  /**
   * `create_client_response_handlers` as written: like `ResolveResponses`, except that a
   * slot that refuses its response panics (`.expect("Internal channel closed!")`). A slot
   * that is pending and still has room refuses only when its `Response` handle was
   * dropped, so a client that abandons a request panics when the answer arrives.
   */
  method ResolveResponsesAsWritten<R>(responses: ResponseMap<R>, incoming: seq<NetworkData<ResponseInternal<R>>>)
    returns (c: Completion)
    requires responses.Valid()
    modifies responses, responses.Slots()
    ensures c == Completed || c == Panicked(InternalChannelClosed)
    ensures c.Completed? <==>
      forall id | id in old(responses.slots) && id in ResponseIds(incoming) :: old(responses.slots[id].Accepts())
    ensures c.Completed? ==>
      && responses.slots == old(responses.slots) - ResponseIds(incoming)
      && forall id | id in old(responses.slots) :: Resolved(old(responses.slots)[id], id, incoming)
  {
    ghost var slots0, before := responses.slots, Snapshot(responses.slots);
    assert incoming[..0] == [];
    var i := 0;
    while i < |incoming|
      invariant ResolvedUpTo(responses, slots0, before, incoming, i)
      invariant forall id | id in slots0 && id in ResponseIds(incoming[..i]) :: Admits(slots0[id].bound, before[id])
    {
      ResponseIdsSnoc(incoming, i);
      var offered := DeliverNext(responses, slots0, before, incoming, i);
      if offered == Some(false) {
        ResponseIdsMonotone(incoming, i + 1);
        return Panicked(InternalChannelClosed);
      }
      i := i + 1;
    }
    assert incoming[..i] == incoming;
    forall id | id in slots0
      ensures Resolved(slots0[id], id, incoming)
    {
      assert before[id] == SlotState(old(slots0[id].items), old(slots0[id].open));
    }
    return Completed;
  }

  /** Removing a set of keys and then one more is removing their union. */
  lemma RemoveOneMore<R>(m: map<u64, Channel<R>>, ids: set<u64>, id: u64)
    ensures m - ids - {id} == m - (ids + {id})
  {
  }

  /** The ids of a prefix are among the ids of the whole. */
  lemma {:induction false} ResponseIdsMonotone<R>(incoming: seq<NetworkData<ResponseInternal<R>>>, i: nat)
    requires i <= |incoming|
    ensures ResponseIds(incoming[..i]) <= ResponseIds(incoming)
  {
    if i < |incoming| {
      var n := |incoming| - 1;
      assert incoming[..n][..i] == incoming[..i];
      ResponseIdsMonotone(incoming[..n], i);
    } else {
      assert incoming[..i] == incoming;
    }
  }

  // ---------------------------------------------------------------------------------------
  // Registration
  // ---------------------------------------------------------------------------------------

  /** `listen_for_request_message`: registers `REQUEST_NAME`, panicking if it is taken. */
  method ListenForRequestMessage<S, Q, R>(net: Network<S>, kind: RequestKind<Q, R>) returns (c: Completion)
    modifies net
    ensures kind.requestName in old(net.recvMessageMap) ==>
      c == Panicked(DuplicateRegistration("RequestMessage", kind.requestName)) && unchanged(net)
    ensures kind.requestName !in old(net.recvMessageMap) ==>
      c == Completed && net.recvMessageMap == old(net.recvMessageMap)[kind.requestName := []]
    ensures net.SameTable() && net.SameQueues() && net.SameBookkeeping()
  {
    c := net.Register(kind.RequestType().name, "RequestMessage");
  }

  /**
   * `listen_for_response_message`: installs a fresh, empty `ResponseMap` and then
   * registers the response type's `NAME`, panicking if it is taken.
   */
  method ListenForResponseMessage<S, Q, R>(net: Network<S>, kind: RequestKind<Q, R>)
    returns (c: Completion, responses: ResponseMap<R>)
    modifies net
    ensures fresh(responses) && responses.Valid() && responses.count == 0 && responses.slots == map[]
    ensures kind.responseName in old(net.recvMessageMap) ==>
      c == Panicked(DuplicateRegistration("ResponseMessage", kind.responseName)) && unchanged(net)
    ensures kind.responseName !in old(net.recvMessageMap) ==>
      c == Completed && net.recvMessageMap == old(net.recvMessageMap)[kind.responseName := []]
    ensures net.SameTable() && net.SameQueues() && net.SameBookkeeping()
  {
    responses := new ResponseMap<R>();
    c := net.Register(kind.ResponseType().name, "ResponseMessage");
  }
}
