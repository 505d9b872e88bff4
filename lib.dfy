/**
 * The crate's shared vocabulary (src/lib.rs, with the error enum of src/error.rs and the
 * `NetworkMessage` trait of src/network_message.rs): connection ids, the wire packet, the
 * notifications the manager emits, the typed delivery wrapper, task handles, channels and
 * the per-peer `Connection`.
 */
module Eventwork {
  import opened Wrappers

  /** One byte of a payload. */
  type byte = x: int | 0 <= x < 256

  type Bytes = seq<byte>

  const U32: nat := 0x1_0000_0000
  const U64: nat := 0x1_0000_0000_0000_0000

  /** Rust's `u32`, `u64` and (on a 64-bit target) `usize`. */
  type u32 = x: nat | x < U32
  type u64 = x: nat | x < U64
  type usize = u64

  // ---------------------------------------------------------------------------------------
  // Identifiers, packets, events, errors
  // ---------------------------------------------------------------------------------------

  /** `ConnectionId { id: u32 }`; its derived equality and hash look at `id` only. */
  datatype ConnectionId = ConnectionId(id: u32)

  /** The untyped packet that crosses the wire: a kind tag and the serialized payload. */
  datatype NetworkPacket = NetworkPacket(kind: string, data: Bytes)

  /** A transport error of the standard library, kept opaque. */
  datatype IoError = IoError(description: string)

  /**
   * `NetworkError`. `Serialization` and `SendError` are constructed by the manager and the
   * request layer, so they are part of the enum here.
   */
  datatype NetworkError =
    | Accept(acceptError: IoError)
    | ConnectionNotFound(missing: ConnectionId)
    | ChannelClosed(closed: ConnectionId)
    | NotConnected
    | Listen(listenError: IoError)
    | Connection(connectError: IoError)
    | Serialization
    | SendError

  /** The notifications the poll step hands to the host. */
  datatype NetworkEvent =
    | Connected(connected: ConnectionId)
    | Disconnected(disconnected: ConnectionId)
    | Error(failure: NetworkError)

  /** How a call that may abort the process ended: normally, or with an `assert!`/`expect` panic. */
  datatype Completion = Completed | Panicked(message: string)

  /** A typed message together with the connection it arrived on (`NetworkData<T>`). */
  datatype NetworkData<T> = NetworkData(source: ConnectionId, inner: T) {

    /** `NetworkData::source`. */
    function Source(): ConnectionId { source }

    /** `NetworkData::into_inner`. */
    function IntoInner(): T { inner }

    /** `Deref for NetworkData`: the wrapper reads as its message. */
    function Deref(): T { inner }
  }

  /** `NetworkData::new(s, x)` is the constructor; its accessors give back exactly `s` and `x`. */
  lemma NewDataAccessors<T>(s: ConnectionId, x: T)
    ensures NetworkData(s, x).Source() == s
    ensures NetworkData(s, x).IntoInner() == x && NetworkData(s, x).Deref() == x
  {
  }

  /** `ConnectionId` equality depends on the `u32` only. */
  lemma ConnectionIdEquality(a: ConnectionId, b: ConnectionId)
    ensures a == b <==> a.id == b.id
  {
  }

  // ---------------------------------------------------------------------------------------
  // Serialization
  // ---------------------------------------------------------------------------------------

  /** A serializer and its partial inverse, standing for `bincode::serialize`/`deserialize`. */
  datatype Codec<!T> = Codec(encode: T -> Option<Bytes>, decode: Bytes -> Option<T>)

  /** `x` serializes, and deserializing its bytes gives `x` back. */
  ghost predicate RoundTrips<T>(c: Codec<T>, x: T)
  {
    c.encode(x).Some? && c.decode(c.encode(x).value) == Some(x)
  }

  /** A message type: its `NetworkMessage::NAME` tag and its serde implementation. */
  datatype MessageType<!T> = MessageType(name: string, codec: Codec<T>)

  /**
   * The packet `send_message`, `broadcast` and `respond` build for `message`: tagged with the
   * type's name and carrying its serialized bytes, or nothing when serialization fails.
   */
  function Packet<T>(t: MessageType<T>, message: T): (p: Option<NetworkPacket>)
    ensures p.Some? <==> t.codec.encode(message).Some?
    ensures p.Some? ==> p.value.kind == t.name && p.value.data == t.codec.encode(message).value
  {
    match t.codec.encode(message)
    case None => None
    case Some(bytes) => Some(NetworkPacket(t.name, bytes))
  }

  /** Two messages that serialize and round-trip are equal when their packets are. */
  lemma PacketInjective<T>(t: MessageType<T>, x: T, y: T)
    requires RoundTrips(t.codec, x) && RoundTrips(t.codec, y)
    ensures Packet(t, x) == Packet(t, y) <==> x == y
  {
    if Packet(t, x) == Packet(t, y) {
      assert t.codec.encode(x) == t.codec.encode(y);
    }
  }

  // ---------------------------------------------------------------------------------------
  // Tasks and channels
  // ---------------------------------------------------------------------------------------

  /**
   * A spawned task's handle (`Option<Task<()>>` on the default runtime). `abort` is
   * `self.take()`, so aborting twice is the same as aborting once.
   */
  datatype TaskHandle = Running | Aborted {

    function Abort(): (h: TaskHandle)
      ensures h == Aborted
    {
      Aborted
    }
  }

  /**
   * An `async_channel` channel seen from one sender: the items sent and not yet received,
   * whether a receiver still exists, and the capacity (`None` for `unbounded()`).
   */
  class Channel<T> {
    var items: seq<T>
    var open: bool
    const bound: Option<nat>

    /** `AsyncChannel::new` / `unbounded()`. */
    constructor Unbounded()
      ensures items == [] && open && bound == None
    {
      items, open, bound := [], true, None;
    }

    /** `async_channel::bounded(capacity)`. */
    constructor Bounded(capacity: nat)
      requires capacity > 0
      ensures items == [] && open && bound == Some(capacity)
    {
      items, open, bound := [], true, Some(capacity);
    }

    /** Whether `try_send` would succeed now: a receiver exists and there is room. */
    predicate Accepts()
      reads this
    {
      open && (bound.None? || |items| < bound.value)
    }

    /** `Sender::try_send`: append when accepted, refuse otherwise. */
    method TrySend(x: T) returns (sent: bool)
      modifies this
      ensures sent == old(Accepts())
      ensures items == (if sent then old(items) + [x] else old(items))
      ensures open == old(open)
    {
      sent := Accepts();
      if sent {
        items := items + [x];
      }
    }

    /** The last receiver is dropped: later sends are refused. */
    method CloseReceiver()
      modifies this
      ensures !open && items == old(items)
    {
      open := false;
    }
  }

  /** A connection's three task handles and its outgoing queue, at one moment. */
  datatype Liveness = Liveness(receiveTask: TaskHandle, mapReceiveTask: TaskHandle, sendTask: TaskHandle,
                               open: bool, queued: seq<NetworkPacket>)
  {
    /** The same connection once dropped: no task left, the queue closed, its contents kept. */
    function Dropped(): (l: Liveness)
      ensures l.receiveTask == Aborted && l.mapReceiveTask == Aborted && l.sendTask == Aborted
      ensures !l.open && l.queued == queued
    {
      Liveness(Aborted, Aborted, Aborted, false, queued)
    }
  }

  /**
   * The live state for one peer: its outgoing queue and the receive, demultiplex and send
   * tasks. `socket` records the socket whose halves the receive and send tasks run on.
   */
  class Connection<S> {
    const socket: S
    var receiveTask: TaskHandle
    var mapReceiveTask: TaskHandle
    var sendTask: TaskHandle
    const sendMessage: Channel<NetworkPacket>

    constructor (socket: S, sendMessage: Channel<NetworkPacket>)
      ensures this.socket == socket && this.sendMessage == sendMessage
      ensures receiveTask == Running && mapReceiveTask == Running && sendTask == Running
    {
      this.socket := socket;
      this.sendMessage := sendMessage;
      receiveTask, mapReceiveTask, sendTask := Running, Running, Running;
    }

    /** The three tasks are still running and the outgoing queue is fresh-state. */
    predicate IsNew()
      reads this, sendMessage
    {
      && receiveTask == Running && mapReceiveTask == Running && sendTask == Running
      && sendMessage.items == [] && sendMessage.open && sendMessage.bound == None
    }

    /** The tasks and the outgoing queue of this connection now. */
    function Status(): Liveness
      reads this, sendMessage
    {
      Liveness(receiveTask, mapReceiveTask, sendTask, sendMessage.open, sendMessage.items)
    }

    /**
     * The connection was dropped: dropping a task handle cancels its task, so all three
     * tasks are gone, and the cancelled send task took the receiving end of the outgoing
     * queue with it, so the queue no longer accepts packets. Its contents are untouched.
     */
    twostate predicate Released()
      reads this, sendMessage
    {
      Status() == old(Status()).Dropped()
    }

    /** Neither the tasks nor the outgoing queue changed. */
    twostate predicate Kept()
      reads this, sendMessage
    {
      Status() == old(Status())
    }

    /** The last owner of the connection lets it go (a map removal, a `clear`, the end of `stop`). */
    method Drop()
      modifies this, sendMessage
      ensures Released()
    {
      receiveTask, mapReceiveTask, sendTask := receiveTask.Abort(), mapReceiveTask.Abort(), sendTask.Abort();
      sendMessage.CloseReceiver();
    }

    /**
     * `Connection::stop`: abort the receive and the send task. `stop` takes the connection
     * by value, so it is dropped on return and the demultiplex task goes with it.
     */
    method Stop()
      modifies this, sendMessage
      ensures Released()
    {
      receiveTask := receiveTask.Abort();
      sendTask := sendTask.Abort();
      Drop();
    }
  }

  // ---------------------------------------------------------------------------------------
  // Display and Debug
  // ---------------------------------------------------------------------------------------

  predicate IsDigit(c: char) { '0' <= c <= '9' }

  function DigitChar(d: nat): (c: char)
    requires d < 10
    ensures IsDigit(c)
  {
    ('0' as int + d) as char
  }

  /** `{}` of an unsigned integer: its decimal digits, most significant first. */
  function Decimal(n: nat): (s: string)
    ensures |s| > 0
    decreases n
  {
    if n < 10 then [DigitChar(n)] else Decimal(n / 10) + [DigitChar(n % 10)]
  }

  /** The number a string of decimal digits denotes. */
  function DecimalValue(s: string): nat
    requires forall i | 0 <= i < |s| :: IsDigit(s[i])
  {
    if s == [] then 0
    else
      var last := s[|s| - 1];
      assert IsDigit(last);
      DecimalValue(s[..|s| - 1]) * 10 + (last as int - '0' as int)
  }

  /** Decimal rendering is made of digits and reads back as the same number. */
  lemma {:induction false} DecimalRoundTrip(n: nat)
    ensures forall i | 0 <= i < |Decimal(n)| :: IsDigit(Decimal(n)[i])
    ensures DecimalValue(Decimal(n)) == n
    decreases n
  {
    if n >= 10 {
      DecimalRoundTrip(n / 10);
      var s := Decimal(n);
      assert s[..|s| - 1] == Decimal(n / 10);
    }
  }

  /** `Display for ConnectionId`: `Connection with ID={id}`. */
  function DisplayConnectionId(c: ConnectionId): string
  {
    "Connection with ID=" + Decimal(c.id)
  }

  /** Every id displays as the fixed prefix followed by digits, and distinct ids display differently. */
  lemma DisplayConnectionIdInjective(a: ConnectionId, b: ConnectionId)
    ensures DisplayConnectionId(a)[..19] == "Connection with ID="
    ensures DisplayConnectionId(a) == DisplayConnectionId(b) <==> a == b
  {
    var prefix := "Connection with ID=";
    assert DisplayConnectionId(a)[..19] == prefix;
    if DisplayConnectionId(a) == DisplayConnectionId(b) {
      assert DisplayConnectionId(a)[19..] == Decimal(a.id);
      assert DisplayConnectionId(b)[19..] == Decimal(b.id);
      DecimalRoundTrip(a.id);
      DecimalRoundTrip(b.id);
    }
  }

  /**
   * The control characters (U+0000 to U+001F and U+007F to U+009F): those without a
   * backslash escape of their own are written as a `\u{..}` escape.
   */
  predicate IsControl(c: char)
  {
    c as int < 0x20 || 0x7F <= c as int <= 0x9F
  }

  predicate IsHexDigit(c: char) { '0' <= c <= '9' || 'a' <= c <= 'f' }

  function HexDigitChar(d: nat): (c: char)
    requires d < 16
    ensures IsHexDigit(c)
  {
    if d < 10 then ('0' as int + d) as char else ('a' as int + d - 10) as char
  }

  function HexDigitValue(c: char): (d: nat)
    requires IsHexDigit(c)
    ensures d < 16
  {
    if c <= '9' then c as int - '0' as int else c as int - 'a' as int + 10
  }

  /** `{:x}` of an unsigned integer: lower-case hexadecimal digits without leading zeros. */
  function Hex(n: nat): (s: string)
    ensures |s| > 0
    decreases n
  {
    if n < 16 then [HexDigitChar(n)] else Hex(n / 16) + [HexDigitChar(n % 16)]
  }

  /** The number a string of hexadecimal digits denotes. */
  function HexValue(s: string): nat
    requires forall i | 0 <= i < |s| :: IsHexDigit(s[i])
  {
    if s == [] then 0
    else
      var last := s[|s| - 1];
      assert IsHexDigit(last);
      HexValue(s[..|s| - 1]) * 16 + HexDigitValue(last)
  }

  /** Hexadecimal rendering is made of hex digits and reads back as the same number. */
  lemma {:induction false} HexRoundTrip(n: nat)
    ensures forall i | 0 <= i < |Hex(n)| :: IsHexDigit(Hex(n)[i])
    ensures HexValue(Hex(n)) == n
    decreases n
  {
    if n >= 16 {
      HexRoundTrip(n / 16);
      var s := Hex(n);
      assert s[..|s| - 1] == Hex(n / 16);
    }
  }

  /** The number of hexadecimal digits `t` starts with. */
  function HexRun(t: string): (k: nat)
    ensures k <= |t|
    ensures forall i | 0 <= i < k :: IsHexDigit(t[i])
    ensures k < |t| ==> !IsHexDigit(t[k])
  {
    if t == [] || !IsHexDigit(t[0]) then 0 else 1 + HexRun(t[1..])
  }

  /** A run of hex digits followed by a non-digit is exactly that long. */
  lemma {:induction false} HexRunOf(h: string, rest: string)
    requires forall i | 0 <= i < |h| :: IsHexDigit(h[i])
    requires rest != [] && !IsHexDigit(rest[0])
    ensures HexRun(h + rest) == |h|
  {
    if h != [] {
      assert (h + rest)[1..] == h[1..] + rest;
      HexRunOf(h[1..], rest);
    }
  }

  /** One character as Rust's `Debug` for `str` escapes it. */
  function EscapeChar(c: char): string
  {
    match c
    case '"' => "\\\""
    case '\\' => "\\\\"
    case '\n' => "\\n"
    case '\r' => "\\r"
    case '\t' => "\\t"
    case '\0' => "\\0"
    case _ => if IsControl(c) then "\\u{" + Hex(c as int) + "}" else [c]
  }

  /** The body of a `Debug`-printed string, between its quotes. */
  function EscapeDebug(s: string): string
  {
    if s == [] then "" else EscapeChar(s[0]) + EscapeDebug(s[1..])
  }

  /**
   * Reads the `{hex}` part of a `\u{hex}` escape at the start of `t`: the character and
   * how many characters of `t` it takes; `None` when it is malformed or names no character.
   */
  function ReadUnicode(t: string): (r: Option<(char, nat)>)
    ensures r.Some? ==> 3 <= r.value.1 <= |t|
  {
    if t == [] || t[0] != '{' then None
    else
      var k := HexRun(t[1..]);
      if k == 0 || 1 + k >= |t| || t[1 + k] != '}' then None
      else
        var v := HexValue(t[1..1 + k]);
        if v < 0xD800 || 0xE000 <= v < 0x11_0000 then Some((v as char, k + 2)) else None
  }

  /** Reads an escaped body back; `None` on a dangling or unknown escape or a bare quote. */
  function UnescapeDebug(e: string): Option<string>
    decreases |e|
  {
    if e == [] then Some("")
    else if e[0] == '"' then None
    else if e[0] != '\\' then
      match UnescapeDebug(e[1..])
      case None => None
      case Some(rest) => Some([e[0]] + rest)
    else if |e| < 2 then None
    else if e[1] == 'u' then
      match ReadUnicode(e[2..])
      case None => None
      case Some((ch, n)) =>
        match UnescapeDebug(e[2 + n..])
        case None => None
        case Some(rest) => Some([ch] + rest)
    else
      var c :=
        match e[1]
        case '"' => Some('"')
        case '\\' => Some('\\')
        case 'n' => Some('\n')
        case 'r' => Some('\r')
        case 't' => Some('\t')
        case '0' => Some('\0')
        case _ => None;
      match (c, UnescapeDebug(e[2..]))
      case (Some(ch), Some(rest)) => Some([ch] + rest)
      case _ => None
  }

  /** The characters with a backslash escape of their own. */
  predicate HasNamedEscape(c: char)
  {
    c == '"' || c == '\\' || c == '\n' || c == '\r' || c == '\t' || c == '\0'
  }

  /** The `{hex}` of a code point in front of `rest` reads back as that character. */
  lemma ReadUnicodeHex(c: char, rest: string)
    ensures ReadUnicode("{" + Hex(c as int) + "}" + rest) == Some((c, |Hex(c as int)| + 2))
  {
    var h := Hex(c as int);
    HexRoundTrip(c as int);
    var t := "{" + h + "}" + rest;
    assert t[1..] == h + ("}" + rest);
    HexRunOf(h, "}" + rest);
    assert t[1..1 + |h|] == h;
  }

  /** Reading back a `\u{hex}` escape of a control character in front of `rest`. */
  lemma UnescapeControl(c: char, rest: string)
    requires IsControl(c) && !HasNamedEscape(c)
    ensures UnescapeDebug(EscapeChar(c) + rest) ==
            match UnescapeDebug(rest) case None => None case Some(t) => Some([c] + t)
  {
    var h := Hex(c as int);
    assert EscapeChar(c) == "\\u{" + h + "}";
    var e := EscapeChar(c) + rest;
    var t := "{" + h + "}" + rest;
    assert e == "\\u" + t;
    assert e[2..] == t;
    ReadUnicodeHex(c, rest);
    assert t[|h| + 2..] == rest;
  }

  /** Reading back one escaped character in front of `rest` yields that character. */
  lemma UnescapeStep(c: char, rest: string)
    ensures UnescapeDebug(EscapeChar(c) + rest) ==
            match UnescapeDebug(rest) case None => None case Some(t) => Some([c] + t)
  {
    var e := EscapeChar(c) + rest;
    if HasNamedEscape(c) {
      assert e[0] == '\\' && e[1] != 'u' && e[2..] == rest;
    } else if IsControl(c) {
      UnescapeControl(c, rest);
    } else {
      assert e[0] == c && e[1..] == rest;
    }
  }

  /** Escaping loses nothing: the escaped body reads back as the original string. */
  lemma {:induction false} EscapeRoundTrip(s: string)
    ensures UnescapeDebug(EscapeDebug(s)) == Some(s)
  {
    if s != [] {
      EscapeRoundTrip(s[1..]);
      UnescapeStep(s[0], EscapeDebug(s[1..]));
      assert [s[0]] + s[1..] == s;
    }
  }

  /** `Debug for NetworkPacket`: a struct with the `kind` field only. */
  function DebugPacket(p: NetworkPacket): string
  {
    "NetworkPacket { kind: \"" + EscapeDebug(p.kind) + "\" }"
  }

  /** The debug text never depends on the payload, and it determines the kind. */
  lemma DebugPacketShowsKindOnly(p: NetworkPacket, q: NetworkPacket)
    ensures DebugPacket(p) == DebugPacket(q) <==> p.kind == q.kind
  {
    if DebugPacket(p) == DebugPacket(q) {
      var open := "NetworkPacket { kind: \"";
      var close := "\" }";
      var dp, dq := DebugPacket(p), DebugPacket(q);
      assert dp[|open|..|dp| - |close|] == EscapeDebug(p.kind);
      assert dq[|open|..|dq| - |close|] == EscapeDebug(q.kind);
      EscapeRoundTrip(p.kind);
      EscapeRoundTrip(q.kind);
    }
  }
}
