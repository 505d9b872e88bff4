/**
 * The framing of `src/tcp.rs`. On the wire every packet is an 8-byte little-endian `u64`
 * length followed by that many bytes of the serialized `NetworkPacket`. `send_loop` frames
 * the packets of a connection's outgoing queue in order; `recv_loop` reads frames back,
 * rejects declared lengths above `max_packet_length`, and forwards each decoded packet to
 * the manager. The socket is a byte sequence (what the peer sent) and a count of write
 * calls that succeed.
 */
module Tcp {
  import opened Wrappers
  import opened Eventwork

  // ---------------------------------------------------------------------------------------
  // Little-endian integers
  // ---------------------------------------------------------------------------------------

  /** 256 to the power `k`. */
  function Pow256(k: nat): (p: nat)
    ensures p > 0
  {
    if k == 0 then 1 else 256 * Pow256(k - 1)
  }

  /** Eight bytes hold exactly the `u64` range. */
  lemma Pow256Eight()
    ensures Pow256(8) == U64
  {
    assert Pow256(2) == 0x1_0000;
    assert Pow256(4) == 0x1_0000_0000;
    assert Pow256(6) == 0x1_0000_0000_0000;
  }

  /**
   * The low `width` bytes of `n`, least significant first: `to_le_bytes` of `n` cast to a
   * `width`-byte integer, so higher bytes are cut off.
   */
  function LeBytes(n: nat, width: nat): (bs: Bytes)
    ensures |bs| == width
  {
    if width == 0 then [] else [n % 256] + LeBytes(n / 256, width - 1)
  }

  /** `from_le_bytes`: the number whose little-endian bytes are `bs`. */
  function FromLe(bs: Bytes): (n: nat)
    ensures n < Pow256(|bs|)
  {
    if bs == [] then 0 else bs[0] + 256 * FromLe(bs[1..])
  }

  /** Dividing by 256 splits off the lowest byte. */
  lemma DivMod256(n: nat, q: nat, r: nat)
    requires n == 256 * q + r && r < 256
    ensures n / 256 == q && n % 256 == r
  {
  }

  /** Reading back `width` little-endian bytes of a number below 256^`width` gives it back. */
  lemma {:induction false} FromLeOfLeBytes(n: nat, width: nat)
    requires n < Pow256(width)
    ensures FromLe(LeBytes(n, width)) == n
  {
    if width > 0 {
      assert LeBytes(n, width)[1..] == LeBytes(n / 256, width - 1);
      FromLeOfLeBytes(n / 256, width - 1);
    }
  }

  /** Writing `bs` back out in as many bytes gives `bs` itself. */
  lemma {:induction false} LeBytesOfFromLe(bs: Bytes)
    ensures LeBytes(FromLe(bs), |bs|) == bs
  {
    if bs != [] {
      DivMod256(FromLe(bs), FromLe(bs[1..]), bs[0]);
      LeBytesOfFromLe(bs[1..]);
    }
  }

  /** A `u64` survives `to_le_bytes` followed by `from_le_bytes`. */
  lemma LengthRoundTrip(n: nat)
    requires n < U64
    ensures FromLe(LeBytes(n, 8)) == n
  {
    Pow256Eight();
    FromLeOfLeBytes(n, 8);
  }

  // ---------------------------------------------------------------------------------------
  // Settings
  // ---------------------------------------------------------------------------------------

  /** `NetworkSettings`: the largest payload a frame may declare. */
  datatype NetworkSettings = NetworkSettings(maxPacketLength: usize)

  /** `NetworkSettings::new`: 10 MiB, whatever the address. */
  function NewSettings<A>(addr: A): (s: NetworkSettings)
    ensures s.maxPacketLength == 10 * 1024 * 1024
  {
    NetworkSettings(10 * 1024 * 1024)
  }

  // ---------------------------------------------------------------------------------------
  // Sending
  // ---------------------------------------------------------------------------------------

  /** The length prefix of an encoded packet: `(encoded.len() as u64).to_le_bytes()`. */
  function Header(encoded: Bytes): (h: Bytes)
    ensures |h| == 8
  {
    LeBytes(|encoded|, 8)
  }

  /** The frame of one encoded packet. */
  function Frame(encoded: Bytes): Bytes
  {
    Header(encoded) + encoded
  }

  /** The frames of the packets that serialize, in order; the others leave no trace. */
  function Frames(codec: Codec<NetworkPacket>, packets: seq<NetworkPacket>): Bytes
  {
    if packets == [] then []
    else
      match codec.encode(packets[0])
      case None => Frames(codec, packets[1..])
      case Some(encoded) => Frame(encoded) + Frames(codec, packets[1..])
  }

  /** Why `send_loop` stopped: its queue closed, or a write failed. */
  datatype SendEnd = QueueClosed | WriteFailed

  /** What `send_loop` did: the bytes it wrote, how many packets it took from the queue, and why it stopped. */
  datatype SendOutcome = SendOutcome(written: Bytes, consumed: nat, end: SendEnd)

  /**
   * `send_loop` over the packets `queue` receives before it closes, on a socket where the
   * first `writes` write calls succeed and the next one fails without writing. A packet
   * that does not serialize is skipped; each other packet costs one write for its header
   * and one for its bytes, and a failed write ends the loop.
   */
  function Sending(codec: Codec<NetworkPacket>, queue: seq<NetworkPacket>, writes: nat): (r: SendOutcome)
    ensures r.consumed <= |queue|
    ensures r.end == QueueClosed ==> r.consumed == |queue|
  {
    if queue == [] then SendOutcome([], 0, QueueClosed)
    else
      match codec.encode(queue[0])
      case None =>
        var rest := Sending(codec, queue[1..], writes);
        rest.(consumed := rest.consumed + 1)
      case Some(encoded) =>
        if writes == 0 then SendOutcome([], 1, WriteFailed)
        else if writes == 1 then SendOutcome(Header(encoded), 1, WriteFailed)
        else
          var rest := Sending(codec, queue[1..], writes - 2);
          SendOutcome(Frame(encoded) + rest.written, rest.consumed + 1, rest.end)
  }

  /** `done` followed by what is still to come. */
  function After(written: Bytes, consumed: nat, rest: SendOutcome): SendOutcome
  {
    SendOutcome(written + rest.written, consumed + rest.consumed, rest.end)
  }

  /** `send_loop`: takes packets off the queue until it closes or a write fails. */
  method SendLoop(codec: Codec<NetworkPacket>, queue: seq<NetworkPacket>, writes: nat) returns (r: SendOutcome)
    ensures r == Sending(codec, queue, writes)
  {
    var written: Bytes := [];
    var budget := writes;
    var pending := queue;
    var taken := 0;
    while pending != []
      invariant After(written, taken, Sending(codec, pending, budget)) == Sending(codec, queue, writes)
      decreases |pending|
    {
      var message := pending[0];
      pending, taken := pending[1..], taken + 1;
      var encoded := codec.encode(message);
      if encoded.None? {
        continue;
      }
      if budget == 0 {
        return SendOutcome(written, taken, WriteFailed);
      }
      written, budget := written + Header(encoded.value), budget - 1;
      if budget == 0 {
        return SendOutcome(written, taken, WriteFailed);
      }
      written, budget := written + encoded.value, budget - 1;
    }
    return SendOutcome(written, taken, QueueClosed);
  }

  /** With a write for every header and every payload, `send_loop` writes all frames and drains the queue. */
  lemma {:induction false} SendingWithEnoughWrites(codec: Codec<NetworkPacket>, queue: seq<NetworkPacket>, writes: nat)
    requires writes >= 2 * |queue|
    ensures Sending(codec, queue, writes) == SendOutcome(Frames(codec, queue), |queue|, QueueClosed)
  {
    if queue != [] {
      SendingWithEnoughWrites(codec, queue[1..], writes);
      if codec.encode(queue[0]).Some? {
        SendingWithEnoughWrites(codec, queue[1..], writes - 2);
      }
    }
  }

  /** Whatever fails, the bytes written are a prefix of the frames of the whole queue. */
  lemma {:induction false} WrittenIsPrefix(codec: Codec<NetworkPacket>, queue: seq<NetworkPacket>, writes: nat)
    ensures Sending(codec, queue, writes).written <= Frames(codec, queue)
    ensures Sending(codec, queue, writes).consumed <= |queue|
  {
    if queue != [] {
      match codec.encode(queue[0])
      case None =>
        WrittenIsPrefix(codec, queue[1..], writes);
      case Some(encoded) =>
        if writes >= 2 {
          WrittenIsPrefix(codec, queue[1..], writes - 2);
        }
    }
  }

  // ---------------------------------------------------------------------------------------
  // Receiving
  // ---------------------------------------------------------------------------------------

  /**
   * Why `recv_loop` stopped: the stream ended between frames, the header read returned
   * fewer than 8 bytes, the declared length was above the maximum, the payload was cut
   * short, the payload did not decode, the manager's end was gone, or the buffer was too
   * small for the 8-byte header slice (a panic).
   */
  datatype RecvExit =
    | EndOfStream
    | ShortHeader(got: nat)
    | TooLarge(length: nat)
    | ShortPayload
    | Undecodable
    | SinkClosed
    | BufferTooSmall

  /** What `recv_loop` did: the packets it forwarded, in order, and why it stopped. */
  datatype RecvOutcome = RecvOutcome(packets: seq<NetworkPacket>, exit: RecvExit)

  /** One turn of `recv_loop`: a packet forwarded after reading `size` bytes, or the reason to stop. */
  datatype FrameRead = Forward(packet: NetworkPacket, size: nat) | Stop(exit: RecvExit)

  /**
   * One turn of `recv_loop` on the bytes `s` still to come, with a `max`-byte buffer and a
   * channel whose receiver is alive exactly when `open`. The header read returns up to 8
   * of the bytes still in the stream.
   */
  function ReadFrame(codec: Codec<NetworkPacket>, max: nat, s: Bytes, open: bool): (f: FrameRead)
    ensures f.Forward? ==> 8 <= f.size <= |s|
  {
    if max < 8 then Stop(BufferTooSmall)
    else if |s| == 0 then Stop(EndOfStream)
    else if |s| < 8 then Stop(ShortHeader(|s|))
    else
      var length := FromLe(s[..8]);
      if length > max then Stop(TooLarge(length))
      else if |s| - 8 < length then Stop(ShortPayload)
      else
        match codec.decode(s[8..8 + length])
        case None => Stop(Undecodable)
        case Some(packet) => if open then Forward(packet, 8 + length) else Stop(SinkClosed)
  }

  /** `recv_loop` reading all of `stream`: turns until one says stop. */
  function Receiving(codec: Codec<NetworkPacket>, max: nat, stream: Bytes, open: bool): (r: RecvOutcome)
    ensures |r.packets| * 8 <= |stream|
    ensures !open ==> r.packets == []
    decreases |stream|
  {
    match ReadFrame(codec, max, stream, open)
    case Stop(exit) => RecvOutcome([], exit)
    case Forward(packet, size) =>
      var rest := Receiving(codec, max, stream[size..], open);
      RecvOutcome([packet] + rest.packets, rest.exit)
  }

  /**
   * The reads and the decode of one turn of `recv_loop` on the bytes `s` still to come,
   * into `buffer` (of length `max_packet_length`): the header read fills up to 8 bytes, a
   * length above the buffer stops, `read_exact` fills exactly `length` bytes or fails, and
   * the payload is decoded.
   */
  method ReadTurn(codec: Codec<NetworkPacket>, buffer: array<byte>, s: Bytes) returns (f: FrameRead)
    modifies buffer
    ensures f == ReadFrame(codec, buffer.Length, s, true)
  {
    var max := buffer.Length;
    if max < 8 {
      return Stop(BufferTooSmall);
    }
    var n := if |s| < 8 then |s| else 8;
    forall k | 0 <= k < n {
      buffer[k] := s[k];
    }
    if n == 0 {
      return Stop(EndOfStream);
    }
    if n != 8 {
      return Stop(ShortHeader(n));
    }
    assert buffer[..8] == s[..8];
    var length := FromLe(buffer[..8]);
    if length > max {
      return Stop(TooLarge(length));
    }
    if |s| - 8 < length {
      return Stop(ShortPayload);
    }
    forall k | 0 <= k < length {
      buffer[k] := s[8 + k];
    }
    assert buffer[..length] == s[8..8 + length];
    var packet := codec.decode(buffer[..length]);
    if packet.None? {
      return Stop(Undecodable);
    }
    return Forward(packet.value, 8 + length);
  }

  /** A turn with a closed channel ends where the same turn with an open one would forward. */
  lemma ClosedSinkStops(codec: Codec<NetworkPacket>, max: nat, s: Bytes)
    ensures ReadFrame(codec, max, s, false) ==
      (if ReadFrame(codec, max, s, true).Forward? then Stop(SinkClosed) else ReadFrame(codec, max, s, true))
  {
  }

  /** The packets already forwarded, followed by what reading the rest gives. */
  function Then(delivered: seq<NetworkPacket>, rest: RecvOutcome): RecvOutcome
  {
    RecvOutcome(delivered + rest.packets, rest.exit)
  }

  /** `recv_loop`: forwards into the connection's unbounded incoming channel `messages`. */
  method RecvLoop(codec: Codec<NetworkPacket>, settings: NetworkSettings, stream: Bytes,
                  messages: Channel<NetworkPacket>)
    returns (exit: RecvExit)
    requires messages.bound == None
    modifies messages
    ensures var r := Receiving(codec, settings.maxPacketLength, stream, old(messages.open));
      exit == r.exit && messages.items == old(messages.items) + r.packets
    ensures messages.open == old(messages.open)
  {
    var max := settings.maxPacketLength;
    var buffer := new byte[max](_ => 0);
    var remaining := stream;
    ghost var delivered: seq<NetworkPacket> := [];
    ghost var open := messages.open;
    while true
      invariant messages.open == open
      invariant messages.items == old(messages.items) + delivered
      invariant Receiving(codec, max, stream, open) == Then(delivered, Receiving(codec, max, remaining, open))
      decreases |remaining|
    {
      ClosedSinkStops(codec, max, remaining);
      var turn := ReadTurn(codec, buffer, remaining);
      if turn.Stop? {
        return turn.exit;
      }
      var sent := messages.TrySend(turn.packet);
      if !sent {
        return SinkClosed;
      }
      ghost var next := Receiving(codec, max, remaining[turn.size..], open);
      assert (delivered + [turn.packet]) + next.packets == delivered + ([turn.packet] + next.packets);
      remaining := remaining[turn.size..];
      delivered := delivered + [turn.packet];
    }
  }

  /** With room for the header the loop never panics; without it, it always does. */
  lemma {:induction false} PanicsOnlyOnSmallBuffer(codec: Codec<NetworkPacket>, max: nat, stream: Bytes, open: bool)
    ensures Receiving(codec, max, stream, open).exit == BufferTooSmall <==> max < 8
  {
    if max >= 8 && |stream| >= 8 {
      var length := FromLe(stream[..8]);
      if length <= max && |stream| - 8 >= length && codec.decode(stream[8..8 + length]).Some? && open {
        PanicsOnlyOnSmallBuffer(codec, max, stream[8 + length..], open);
      }
    }
  }

  /** The default settings leave room for the header, so a default receive loop never panics. */
  lemma DefaultSettingsFitHeader<A>(addr: A, codec: Codec<NetworkPacket>, stream: Bytes, open: bool)
    ensures NewSettings(addr).maxPacketLength >= 8
    ensures Receiving(codec, NewSettings(addr).maxPacketLength, stream, open).exit != BufferTooSmall
  {
    PanicsOnlyOnSmallBuffer(codec, NewSettings(addr).maxPacketLength, stream, open);
  }

  /** How the receiver sees a stream that starts with a whole frame. */
  lemma FrameSplits(encoded: Bytes, rest: Bytes)
    requires |encoded| < U64
    ensures var s := Frame(encoded) + rest;
      && |s| >= 8 && FromLe(s[..8]) == |encoded| && |s| - 8 >= |encoded|
      && s[8..8 + |encoded|] == encoded && s[8 + |encoded|..] == rest
  {
    var s := Frame(encoded) + rest;
    assert s[..8] == Header(encoded);
    LengthRoundTrip(|encoded|);
    assert s[8..8 + |encoded|] == encoded;
    assert s[8 + |encoded|..] == rest;
  }

  /**
   * A header declaring more than `max` bytes ends the loop with `TooLarge`, whatever
   * follows it: the payload is never read.
   */
  lemma OversizedFrameRejected(codec: Codec<NetworkPacket>, max: nat, length: nat, rest: Bytes, open: bool)
    requires 8 <= max < length < U64
    ensures Receiving(codec, max, LeBytes(length, 8) + rest, open) == RecvOutcome([], TooLarge(length))
  {
    var s := LeBytes(length, 8) + rest;
    assert s[..8] == LeBytes(length, 8);
    LengthRoundTrip(length);
  }

  /**
   * A frame of at most `max` bytes, up to and including `max`, whose payload decodes is
   * forwarded, and the loop goes on with the rest of the stream.
   */
  lemma FrameAccepted(codec: Codec<NetworkPacket>, max: usize, p: NetworkPacket, rest: Bytes)
    requires 8 <= max && RoundTrips(codec, p) && |codec.encode(p).value| <= max
    ensures var tail := Receiving(codec, max, rest, true);
      Receiving(codec, max, Frame(codec.encode(p).value) + rest, true) == RecvOutcome([p] + tail.packets, tail.exit)
  {
    FrameSplits(codec.encode(p).value, rest);
  }

  /**
   * Reading the frames of packets that round-trip and fit in `max` yields exactly those
   * packets, in order, and then the end of the stream.
   */
  lemma {:induction false} FramesRoundTrip(codec: Codec<NetworkPacket>, max: usize, packets: seq<NetworkPacket>)
    requires 8 <= max
    requires forall i | 0 <= i < |packets| ::
      RoundTrips(codec, packets[i]) && |codec.encode(packets[i]).value| <= max
    ensures Receiving(codec, max, Frames(codec, packets), true) == RecvOutcome(packets, EndOfStream)
  {
    if packets != [] {
      assert forall i | 0 <= i < |packets| - 1 :: packets[1..][i] == packets[i + 1];
      FramesRoundTrip(codec, max, packets[1..]);
      FrameAccepted(codec, max, packets[0], Frames(codec, packets[1..]));
      assert [packets[0]] + packets[1..] == packets;
    }
  }

  /**
   * End to end: when every write succeeds, the receiving side of the connection gets every
   * packet of the sender's queue, in the order they were queued.
   */
  lemma WireRoundTrip(codec: Codec<NetworkPacket>, max: usize, queue: seq<NetworkPacket>, writes: nat)
    requires 8 <= max && writes >= 2 * |queue|
    requires forall i | 0 <= i < |queue| ::
      RoundTrips(codec, queue[i]) && |codec.encode(queue[i]).value| <= max
    ensures Receiving(codec, max, Sending(codec, queue, writes).written, true) == RecvOutcome(queue, EndOfStream)
  {
    SendingWithEnoughWrites(codec, queue, writes);
    FramesRoundTrip(codec, max, queue);
  }
}
