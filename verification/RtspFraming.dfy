/** One RTSP control socket of lavc/ffserver.c, shared by request/reply traffic and by any number of RTP
    connections that send their packets inside it (section 10.12 of RFC 2326).  Every call of `send` may
    accept any part of what it is given. */
module RtspFraming {
  import opened Wrappers

  const BUFFER_SIZE := 8192       // IOBUFFER_INIT_SIZE
  const DOLLAR := 36
  const LF := 10
  const CR := 13

  /** What is meant to appear on the socket: a whole reply, or a whole interleaved packet of an RTP connection. */
  datatype Unit = Reply(bytes: seq<int>) | Packet(source: nat, channel: int, payload: seq<int>)

  /** The bytes of a unit; the frame header fields are stored in 8 bits each. */
  function Bytes(u: Unit): seq<int> {
    match u
    case Reply(bytes) => bytes
    case Packet(_, channel, payload) => FrameHeader(channel, |payload|) + payload
  }

  function FrameHeader(channel: int, len: nat): seq<int> { [DOLLAR, channel % 256, (len / 256) % 256, len % 256] }

  function Concat(units: seq<Unit>): seq<int> {
    if units == [] then [] else Concat(units[..|units| - 1]) + Bytes(units[|units| - 1])
  }

  datatype Phase = WaitRequest | SendReply | SendPacket | Closed

  /** The RTSP connection; `pending` is the unsent part of the reply or of the packet. */
  datatype Socket = Socket(
    phase: Phase, request: seq<int>, pending: seq<int>,
    // history: bytes on the socket, units begun, bytes received, requests answered
    sent: seq<int>, units: seq<Unit>, received: seq<int>, requests: seq<seq<int>>)

  /** A packet that has left its buffer: framed for the socket, or thrown away. */
  datatype Handled = Handled(payload: seq<int>, sent: bool)

  /** An RTP connection whose data goes through the socket; `buffer` holds length-prefixed packets. */
  datatype Rtp = Rtp(
    alive: bool, index: nat, buffer: seq<int>,
    // history: all packets ever put into the buffer, those that have left it, and those still there
    given: seq<seq<int>>, handled: seq<Handled>, queue: seq<seq<int>>)

  // ---------------------------------------------------------------- the RTSP side

  /** A request ends with an empty line. */
  predicate Complete(request: seq<int>) {
    var n := |request|;
    || (n >= 2 && request[n - 2..] == [LF, LF])
    || (n >= 4 && request[n - 4..] == [CR, LF, CR, LF])
  }

  /** One byte arrives in the waiting state; `reply` is what rtsp_parse_request would print. */
  function Receive(s: Socket, byte: int, reply: seq<int>): Socket {
    if s.phase != WaitRequest then s
    else
      var request := s.request + [byte];
      var s := s.(received := s.received + [byte]);
      if Complete(request) then
        s.(phase := SendReply, request := [], pending := reply, units := s.units + [Reply(reply)],
           requests := s.requests + [request])
      else if |request| >= BUFFER_SIZE - 1 then s.(phase := Closed, request := request)
      else s.(request := request)
  }

  /** `send` of the pending bytes accepts n of them; the two sending states of handle_connection. */
  function Flush(s: Socket, n: nat): Socket {
    if (s.phase != SendReply && s.phase != SendPacket) || n > |s.pending| then s
    else
      s.(phase := if n == |s.pending| then WaitRequest else s.phase,
         pending := s.pending[n..], sent := s.sent + s.pending[..n])
  }

  function Close(s: Socket): Socket { s.(phase := Closed) }

  // ---------------------------------------------------------------- the RTP side

  /** The four-byte length in front of a packet. */
  function Prefix(len: nat): seq<int> { [(len / 0x100_0000) % 256, (len / 0x1_0000) % 256, (len / 256) % 256, len % 256] }

  function Length(buffer: seq<int>): int
    requires |buffer| >= 4
  {
    buffer[0] * 0x100_0000 + buffer[1] * 0x1_0000 + buffer[2] * 256 + buffer[3]
  }

  function Packed(queue: seq<seq<int>>): seq<int> {
    if queue == [] then [] else Prefix(|queue[0]|) + queue[0] + Packed(queue[1..])
  }

  /** The channel computed from the buffer: byte 1 is compared with 200, the RTCP packet type. */
  function Channel(buffer: seq<int>, index: nat): int
    requires |buffer| >= 4
  {
    if buffer[1] == 200 then 2 * index + 1 else 2 * index
  }

  /** The buffer is what libavformat's packet buffers produce, with packet lengths that fit 16 bits. */
  ghost predicate Framed(c: Rtp) {
    c.buffer == Packed(c.queue) && Small(c.queue)
  }

  predicate Small(queue: seq<seq<int>>) { forall i :: 0 <= i < |queue| ==> |queue[i]| < 0x1_0000 }

  /** http_prepare_data, when everything has been sent. */
  function Refill(c: Rtp, index: nat, packets: seq<seq<int>>): Rtp {
    if !c.alive || c.buffer != [] then c
    else c.(index := index, buffer := Packed(packets), queue := packets, given := c.given + packets)
  }

  /** The interleaved unit made from the first packet of the buffer. */
  function FirstUnit(c: Rtp, k: nat): Unit
    requires Framed(c) && c.buffer != []
  {
    PackedHead(c.queue);
    Packet(k, Channel(c.buffer, c.index), c.buffer[4..4 + Length(c.buffer)])
  }

  /** The first packet has left the buffer. */
  function Advance(c: Rtp): Rtp
    requires Framed(c) && c.buffer != []
  {
    PackedHead(c.queue);
    c.(buffer := c.buffer[4 + Length(c.buffer)..], queue := c.queue[1..],
       handled := c.handled + [Handled(c.queue[0], true)])
  }

  /** The unit is put on the socket, and `send` accepts n bytes at once. */
  function Begin(s: Socket, unit: Unit, n: nat): Socket {
    var bytes := Bytes(unit);
    var m := if n < |bytes| then n else |bytes|;
    s.(phase := if m < |bytes| then SendPacket else s.phase, pending := bytes[m..], sent := s.sent + bytes[..m],
       units := s.units + [unit])
  }

  /** One pass of the RTP/TCP branch of http_send_data for connection k; `send` accepts n bytes, and
      `ready` tells whether the buffer for the framed packet could be opened. */
  function SendRtp(s: Socket, c: Rtp, k: nat, n: nat, ready: bool): (Socket, Rtp)
    requires Framed(c)
  {
    if !c.alive || c.buffer == [] then (s, c)
    else if |c.buffer| < 4 || Length(c.buffer) > |c.buffer| then (s, Discard(c))
    else if s.phase == Closed then (s, c.(alive := false))
    else if s.phase != WaitRequest then (s, c)
    else if !ready then (s, Discard(c))
    else (Begin(s, FirstUnit(c, k), n), Advance(c))
  }

  /** The error path that skips the rest of the buffer. */
  function Discard(c: Rtp): Rtp {
    c.(buffer := [], queue := [], handled := c.handled + Thrown(c.queue))
  }

  function Thrown(queue: seq<seq<int>>): seq<Handled> {
    seq(|queue|, i requires 0 <= i < |queue| => Handled(queue[i], false))
  }

  // ---------------------------------------------------------------- framing facts

  /** Reading the length prefix gives back the packet and the rest of the buffer. */
  lemma PackedHead(queue: seq<seq<int>>)
    requires queue != [] ==> |queue[0]| < 0x1_0000
    ensures queue == [] <==> Packed(queue) == []
    ensures queue != [] ==> var b := Packed(queue); var len := |queue[0]|;
      |b| >= 4 + len && Length(b) == len && b[4..4 + len] == queue[0] && b[4 + len..] == Packed(queue[1..]) && b[1] == 0
  {
    if queue != [] { LengthOfPrefix(|queue[0]|); }
  }

  lemma LengthOfPrefix(len: nat)
    requires len < 0x1_0000
    ensures Length(Prefix(len)) == len
  {
  }

  /** RTCP packets never reach the odd channel: byte 1 of the buffer is part of the length. */
  lemma ChannelAlwaysEven(c: Rtp, k: nat)
    requires Framed(c) && c.buffer != []
    ensures FirstUnit(c, k) == Packet(k, 2 * c.index, c.queue[0])
  {
    PackedHead(c.queue);
  }

  lemma FirstUnitBytes(c: Rtp, k: nat)
    requires Framed(c) && c.buffer != []
    ensures |c.buffer| >= 4 + Length(c.buffer) && Length(c.buffer) >= 0
    ensures Bytes(FirstUnit(c, k)) ==
      FrameHeader(Channel(c.buffer, c.index), Length(c.buffer)) + c.buffer[4..4 + Length(c.buffer)]
  {
    PackedHead(c.queue);
  }

  /** The receiver's side of section 10.12: channel, data and what follows. */
  function DecodeFrame(stream: seq<int>): Option<(int, seq<int>, seq<int>)> {
    if |stream| < 4 || stream[0] != DOLLAR then None
    else
      var len := stream[2] * 256 + stream[3];
      if len < 0 || |stream| < 4 + len then None else Some((stream[1], stream[4..4 + len], stream[4 + len..]))
  }

  /** A frame is read back, with what follows it, exactly when its length fits 16 bits. */
  lemma FrameRoundTrip(source: nat, channel: nat, payload: seq<int>, rest: seq<int>)
    requires channel < 256
    ensures var stream := Bytes(Packet(source, channel, payload)) + rest;
      DecodeFrame(stream) == Some((channel, payload, rest)) <==> |payload| < 0x1_0000
  {
    var stream := Bytes(Packet(source, channel, payload)) + rest;
    var len := (|payload| / 256) % 256 * 256 + |payload| % 256;
    assert stream[2] * 256 + stream[3] == len;
    assert len == |payload| <==> |payload| < 0x1_0000;
    assert |stream| == 4 + |payload| + |rest|;
    if len == |payload| {
      assert stream[4..4 + len] == payload && stream[4 + len..] == rest;
    } else {
      assert len < |payload|;
    }
  }

  // ---------------------------------------------------------------- runs

  datatype World = World(socket: Socket, rtps: seq<Rtp>)

  datatype Event =
    | Received(byte: int, reply: seq<int>)
    | Flushed(n: nat)
    | Hangup                                              // error, hang-up or timeout of the RTSP connection
    | RtpOpened
    | Refilled(k: nat, index: nat, packets: seq<seq<int>>)
    | RtpTurn(k: nat, n: nat, ready: bool)
    | RtpClosed(k: nat)

  /** The packet of connection k is partly sent. */
  predicate InFlight(s: Socket, k: nat) {
    s.phase == SendPacket && s.units != [] && s.units[|s.units| - 1].Packet? && s.units[|s.units| - 1].source == k
  }

  ghost predicate Allowed(w: World, e: Event) {
    match e
    case Refilled(k, _, packets) => k < |w.rtps| && Small(packets)
    case RtpTurn(k, _, _) => k < |w.rtps| && Framed(w.rtps[k])
    case RtpClosed(k) => k < |w.rtps| && !InFlight(w.socket, k)
    case _ => true
  }

  ghost function Next(w: World, e: Event): World
    requires Allowed(w, e)
  {
    match e
    case Received(byte, reply) => w.(socket := Receive(w.socket, byte, reply))
    case Flushed(n) => w.(socket := Flush(w.socket, n))
    case Hangup => w.(socket := Close(w.socket))
    case RtpOpened => w.(rtps := w.rtps + [NEW_RTP])
    case Refilled(k, index, packets) => w.(rtps := w.rtps[k := Refill(w.rtps[k], index, packets)])
    case RtpTurn(k, n, ready) =>
      var (s, c) := SendRtp(w.socket, w.rtps[k], k, n, ready);
      World(s, w.rtps[k := c])
    case RtpClosed(k) => w.(rtps := w.rtps[k := w.rtps[k].(alive := false)])
  }

  const NEW_RTP := Rtp(true, 0, [], [], [], [])

  const NEW_SOCKET := Socket(WaitRequest, [], [], [], [], [], [])

  /** What is on the wire and what is pending make up the units, and only the last unit is incomplete. */
  ghost predicate OnTheWire(s: Socket) {
    && s.sent + s.pending == Concat(s.units)
    && (s.phase == WaitRequest ==> s.pending == [])
    && (s.pending != [] ==> s.units != [] && |s.pending| <= |Bytes(s.units[|s.units| - 1])|)
    && (s.phase == SendReply ==> s.units != [] && s.units[|s.units| - 1].Reply?)
    && (s.phase == SendPacket ==> s.units != [] && s.units[|s.units| - 1].Packet?)
  }

  function Joined(requests: seq<seq<int>>): seq<int> {
    if requests == [] then [] else Joined(requests[..|requests| - 1]) + requests[|requests| - 1]
  }

  /** No received byte is lost, also while packets are being sent. */
  ghost predicate RequestsKept(s: Socket) {
    s.received == Joined(s.requests) + s.request
  }

  /** The packets of connection k among the units. */
  function PacketsOf(units: seq<Unit>, k: nat): seq<seq<int>> {
    if units == [] then []
    else
      var last := units[|units| - 1];
      PacketsOf(units[..|units| - 1], k) + if last.Packet? && last.source == k then [last.payload] else []
  }

  function Payloads(handled: seq<Handled>): seq<seq<int>> {
    seq(|handled|, i requires 0 <= i < |handled| => handled[i].payload)
  }

  /** The packets that were framed, without those thrown away. */
  function SentOf(handled: seq<Handled>): seq<seq<int>> {
    if handled == [] then []
    else
      var last := handled[|handled| - 1];
      SentOf(handled[..|handled| - 1]) + if last.sent then [last.payload] else []
  }

  /** Everything given to connection k has left its buffer, in order, or is still there; and what left it was
      framed, once and in order, unless it was thrown away. */
  ghost predicate Delivered(units: seq<Unit>, c: Rtp, k: nat) {
    Framed(c) && c.given == Payloads(c.handled) + c.queue && PacketsOf(units, k) == SentOf(c.handled)
  }

  lemma SentOne(handled: seq<Handled>, payload: seq<int>)
    ensures SentOf(handled + [Handled(payload, true)]) == SentOf(handled) + [payload]
    ensures Payloads(handled + [Handled(payload, true)]) == Payloads(handled) + [payload]
  {
    assert (handled + [Handled(payload, true)])[..|handled|] == handled;
  }

  lemma {:induction false} SentNone(handled: seq<Handled>, queue: seq<seq<int>>)
    ensures SentOf(handled + Thrown(queue)) == SentOf(handled)
    ensures Payloads(handled + Thrown(queue)) == Payloads(handled) + queue
    decreases |queue|
  {
    if queue == [] {
      assert handled + Thrown(queue) == handled;
    } else {
      var n := |queue| - 1;
      var all := handled + Thrown(queue);
      assert all[..|all| - 1] == handled + Thrown(queue[..n]);
      SentNone(handled, queue[..n]);
    }
  }

  ghost predicate Inv(w: World) {
    && OnTheWire(w.socket) && RequestsKept(w.socket)
    && AllDelivered(w.socket.units, w.rtps)
    && (forall i :: 0 <= i < |w.socket.units| ==> FramedUnit(w.socket.units[i], |w.rtps|))
  }

  ghost predicate AllDelivered(units: seq<Unit>, rtps: seq<Rtp>) {
    forall k :: 0 <= k < |rtps| ==> Delivered(units, rtps[k], k)
  }

  /** A packet unit belongs to a known connection, has an even channel and a length that fits 16 bits. */
  predicate FramedUnit(u: Unit, connections: nat) {
    u.Packet? ==> u.source < connections && u.channel % 2 == 0 && |u.payload| < 0x1_0000
  }

  lemma ConcatLast(units: seq<Unit>, u: Unit)
    ensures Concat(units + [u]) == Concat(units) + Bytes(u)
  {
    assert (units + [u])[..|units|] == units;
  }

  lemma PacketsOfLast(units: seq<Unit>, u: Unit, k: nat)
    ensures PacketsOf(units + [u], k) == PacketsOf(units, k) + if u.Packet? && u.source == k then [u.payload] else []
  {
    assert (units + [u])[..|units|] == units;
  }

  /** The first m bytes end with an empty line: two line feeds, or two pairs of carriage return and line feed. */
  predicate EndsAt(request: seq<int>, m: nat) {
    && 2 <= m <= |request| && request[m - 1] == 10
    && (request[m - 2] == 10 || (m >= 4 && request[m - 2] == 13 && request[m - 3] == 10 && request[m - 4] == 13))
  }

  lemma CompleteMeans(request: seq<int>)
    ensures Complete(request) <==> EndsAt(request, |request|)
  {
    if |request| >= 2 { LastTwo(request, LF, LF); }
    if |request| >= 4 { LastFour(request, CR, LF, CR, LF); }
  }

  lemma LastTwo(r: seq<int>, a: int, b: int)
    requires |r| >= 2
    ensures r[|r| - 2..] == [a, b] <==> r[|r| - 2] == a && r[|r| - 1] == b
  {
    var end := r[|r| - 2..];
    assert end == [end[0], end[1]];
  }

  lemma LastFour(r: seq<int>, a: int, b: int, c: int, d: int)
    requires |r| >= 4
    ensures r[|r| - 4..] == [a, b, c, d] <==> r[|r| - 4] == a && r[|r| - 3] == b && r[|r| - 2] == c && r[|r| - 1] == d
  {
    var end := r[|r| - 4..];
    assert end == [end[0], end[1], end[2], end[3]];
  }

  lemma ReceiveKeeps(s: Socket, byte: int, reply: seq<int>)
    requires OnTheWire(s) && RequestsKept(s)
    ensures var after := Receive(s, byte, reply);
      OnTheWire(after) && RequestsKept(after) && (after.units == s.units || after.units == s.units + [Reply(reply)])
    ensures var after := Receive(s, byte, reply); var request := s.request + [byte];
      s.phase == WaitRequest && EndsAt(request, |request|) ==>
        && after.phase == SendReply && after.units == s.units + [Reply(reply)] && after.pending == reply
        && after.requests == s.requests + [request] && after.request == []
    ensures var after := Receive(s, byte, reply); var request := s.request + [byte];
      s.phase == WaitRequest && !EndsAt(request, |request|) ==>
        && after.units == s.units && after.requests == s.requests && after.request == request
        && (after.phase == Closed <==> |request| >= 8191) && (after.phase != Closed ==> after.phase == WaitRequest)
    ensures s.phase != WaitRequest ==> Receive(s, byte, reply) == s
  {
    CompleteMeans(s.request + [byte]);
    hide EndsAt;
    hide Complete, Concat, PacketsOf;
    var after := Receive(s, byte, reply);
    ConcatLast(s.units, Reply(reply));
    var request := s.request + [byte];
    assert Joined(s.requests) + request == Joined(s.requests) + s.request + [byte];
    if after.requests != s.requests { assert (s.requests + [request])[..|s.requests|] == s.requests; }
  }

  lemma FlushKeeps(s: Socket, n: nat)
    requires OnTheWire(s) && RequestsKept(s)
    ensures var after := Flush(s, n); OnTheWire(after) && RequestsKept(after) && after.units == s.units
    ensures var after := Flush(s, n);
      (s.phase == SendReply || s.phase == SendPacket) && n <= |s.pending| ==>
        && |after.pending| == |s.pending| - n && after.sent == s.sent + s.pending[..n]
        && (after.phase == WaitRequest <==> n == |s.pending|) && (n < |s.pending| ==> after.phase == s.phase)
  {
    hide Concat, Bytes, Joined;
    if n <= |s.pending| {
      assert s.pending == s.pending[..n] + s.pending[n..];
      assert s.sent + s.pending[..n] + s.pending[n..] == s.sent + s.pending;
    }
  }

  lemma BeginKeeps(s: Socket, u: Unit, n: nat)
    requires OnTheWire(s) && RequestsKept(s) && s.phase == WaitRequest && u.Packet?
    ensures var after := Begin(s, u, n); OnTheWire(after) && RequestsKept(after)
  {
    hide Concat, Bytes, Joined;
    ConcatLast(s.units, u);
    var bytes := Bytes(u);
    var m := if n < |bytes| then n else |bytes|;
    assert s.sent + [] == s.sent;
    assert s.sent + bytes[..m] + bytes[m..] == s.sent + bytes;
  }

  /** What one pass does.  With nothing to send, or while the socket is busy, nothing; on a closed socket the
      connection ends; otherwise exactly its first packet is begun, with as many bytes as `send` accepts, and
      the socket is locked for the rest; without a buffer for the frame all its packets are thrown away. */
  lemma TurnEffect(s: Socket, c: Rtp, k: nat, n: nat, ready: bool)
    requires Framed(c)
    ensures !c.alive || c.queue == [] || s.phase == SendReply || s.phase == SendPacket ==>
      SendRtp(s, c, k, n, ready) == (s, c)
    ensures c.alive && c.queue != [] && s.phase == Closed ==> SendRtp(s, c, k, n, ready) == (s, c.(alive := false))
    ensures var (_, c1) := SendRtp(s, c, k, n, ready); c.alive && c.queue != [] && s.phase == WaitRequest && ready ==>
      && c1 == c.(buffer := c1.buffer, queue := c.queue[1..], handled := c.handled + [Handled(c.queue[0], true)])
      && Framed(c1)
    ensures var (s1, _) := SendRtp(s, c, k, n, ready); c.alive && c.queue != [] && s.phase == WaitRequest && ready ==>
      var bytes := [36, (2 * c.index) % 256, |c.queue[0]| / 256, |c.queue[0]| % 256] + c.queue[0];
      if n >= |bytes| then s1 == s.(sent := s.sent + bytes, pending := [], units := s1.units)
      else s1 == s.(phase := SendPacket, sent := s.sent + bytes[..n], pending := bytes[n..], units := s1.units)
    ensures var (s1, _) := SendRtp(s, c, k, n, ready); c.alive && c.queue != [] && s.phase == WaitRequest && ready ==>
      s1.units == s.units + [Packet(k, 2 * c.index, c.queue[0])]
    ensures var (s1, c1) := SendRtp(s, c, k, n, ready); c.alive && c.queue != [] && s.phase == WaitRequest && !ready ==>
      s1 == s && c1 == c.(buffer := [], queue := [], handled := c.handled + Thrown(c.queue))
  {
    hide Packed, Thrown, Length;
    PackedHead(c.queue);
    if c.alive && c.queue != [] && s.phase == WaitRequest && ready { SentBytes(s, c, k, n); }
  }

  lemma SentBytes(s: Socket, c: Rtp, k: nat, n: nat)
    requires Framed(c) && c.queue != [] && c.buffer != [] && s.phase == WaitRequest
    ensures var s1 := Begin(s, FirstUnit(c, k), n);
      var bytes := [36, (2 * c.index) % 256, |c.queue[0]| / 256, |c.queue[0]| % 256] + c.queue[0];
      if n >= |bytes| then s1 == s.(sent := s.sent + bytes, pending := [], units := s1.units)
      else s1 == s.(phase := SendPacket, sent := s.sent + bytes[..n], pending := bytes[n..], units := s1.units)
    ensures Begin(s, FirstUnit(c, k), n).units == s.units + [Packet(k, 2 * c.index, c.queue[0])]
    ensures Framed(Advance(c))
  {
    hide Packed;
    ChannelAlwaysEven(c, k);
    PackedHead(c.queue);
    assert |c.queue[0]| < 0x1_0000;
    var bytes := [36, (2 * c.index) % 256, |c.queue[0]| / 256, |c.queue[0]| % 256] + c.queue[0];
    assert Bytes(FirstUnit(c, k)) == bytes;
    assert bytes[..|bytes|] == bytes && bytes[|bytes|..] == [];
  }

  /** A pass of the sending loop moves at most the first packet of connection k to the units. */
  lemma SendRtpKeeps(w: World, k: nat, n: nat, ready: bool)
    requires Inv(w) && k < |w.rtps|
    ensures var (s, c) := SendRtp(w.socket, w.rtps[k], k, n, ready);
      && OnTheWire(s) && RequestsKept(s) && Delivered(s.units, c, k)
      && (s.units == w.socket.units || exists payload ::
           s.units == w.socket.units + [Packet(k, 2 * w.rtps[k].index, payload)] && |payload| < 0x1_0000)
  {
    hide OnTheWire, RequestsKept, PacketsOf, Packed, Bytes, FramedUnit, Concat, SentOf, Payloads, Thrown;
    var c := w.rtps[k];
    SentNone(c.handled, c.queue);
    assert Payloads(c.handled) + c.queue + [] == Payloads(c.handled) + c.queue;
    assert Delivered(w.socket.units, c, k);
    PackedHead(c.queue);
    assert Packed([]) == [] by { PackedHead([]); }
    if c.alive && c.buffer != [] && w.socket.phase == WaitRequest {
      if ready {
        ChannelAlwaysEven(c, k);
        var unit := Packet(k, 2 * c.index, c.queue[0]);
        BeginKeeps(w.socket, unit, n);
        PacketsOfLast(w.socket.units, unit, k);
        SentOne(c.handled, c.queue[0]);
        assert c.queue == [c.queue[0]] + c.queue[1..];
        assert Payloads(c.handled) + [c.queue[0]] + c.queue[1..] == Payloads(c.handled) + c.queue;
        assert Begin(w.socket, unit, n).units == w.socket.units + [Packet(k, 2 * c.index, c.queue[0])];
      }
    }
  }

  lemma OthersKeep(units: seq<Unit>, rtps: seq<Rtp>, after: seq<Unit>, c: Rtp, k: nat, u: Unit)
    requires AllDelivered(units, rtps) && k < |rtps|
    requires after == units || (after == units + [u] && u.Packet? && u.source == k)
    requires Delivered(after, c, k)
    ensures AllDelivered(after, rtps[k := c])
  {
    hide PacketsOf, Framed;
    var rtps1 := rtps[k := c];
    forall j | 0 <= j < |rtps| ensures Delivered(after, rtps1[j], j) {
      if j != k {
        assert Delivered(units, rtps[j], j);
        PacketsOfLast(units, u, j);
        assert PacketsOf(units, j) + [] == PacketsOf(units, j);
      }
    }
  }

  /** A reply changes nothing for the RTP connections. */
  lemma ReplyKeepsDelivered(units: seq<Unit>, rtps: seq<Rtp>, reply: seq<int>)
    requires AllDelivered(units, rtps)
    ensures AllDelivered(units + [Reply(reply)], rtps)
  {
    hide PacketsOf, Framed;
    forall j | 0 <= j < |rtps| ensures Delivered(units + [Reply(reply)], rtps[j], j) {
      assert Delivered(units, rtps[j], j);
      PacketsOfLast(units, Reply(reply), j);
      assert PacketsOf(units, j) + [] == PacketsOf(units, j);
    }
  }

  lemma RefillKeeps(units: seq<Unit>, c: Rtp, k: nat, index: nat, packets: seq<seq<int>>)
    requires Delivered(units, c, k) && Small(packets)
    ensures Delivered(units, Refill(c, index, packets), k)
    ensures var after := Refill(c, index, packets); c.alive && c.queue == [] ==>
      after == c.(index := index, buffer := after.buffer, queue := packets, given := c.given + packets)
    ensures !c.alive || c.queue != [] ==> Refill(c, index, packets) == c
  {
    hide PacketsOf, SentOf, Payloads;
    PackedHead(c.queue);
    assert Payloads(c.handled) + [] == Payloads(c.handled);
  }

  /** A new connection has no packets on the socket yet: sources are known connections. */
  lemma {:induction false} NoPacketsYet(units: seq<Unit>, k: nat)
    requires forall i :: 0 <= i < |units| ==> FramedUnit(units[i], k)
    ensures PacketsOf(units, k) == []
  {
    if units != [] { NoPacketsYet(units[..|units| - 1], k); }
  }

  lemma RtpTurnKeepsInv(w: World, e: Event)
    requires Allowed(w, e) && Inv(w) && e.RtpTurn?
    ensures Inv(Next(w, e))
  {
    hide OnTheWire, RequestsKept, AllDelivered, Delivered, SendRtp, Framed;
    var (s, c) := SendRtp(w.socket, w.rtps[e.k], e.k, e.n, e.ready);
    SendRtpKeeps(w, e.k, e.n, e.ready);
    var units := w.socket.units;
    if s.units == units {
      OthersKeep(units, w.rtps, s.units, c, e.k, Packet(e.k, 0, []));
    } else {
      var payload :| s.units == units + [Packet(e.k, 2 * w.rtps[e.k].index, payload)] && |payload| < 0x1_0000;
      OthersKeep(units, w.rtps, s.units, c, e.k, Packet(e.k, 2 * w.rtps[e.k].index, payload));
    }
  }

  lemma NewRtpFramed()
    ensures Framed(NEW_RTP) && SentOf(NEW_RTP.handled) == []
  {
  }

  lemma RtpSideKeepsInv(w: World, e: Event)
    requires Allowed(w, e) && Inv(w) && (e.RtpOpened? || e.Refilled? || e.RtpClosed?)
    ensures Inv(Next(w, e))
  {
    hide OnTheWire, RequestsKept, PacketsOf, Refill, Small, Packed, SentOf;
    var units := w.socket.units;
    match e
    case RtpOpened =>
      NoPacketsYet(units, |w.rtps|);
      NewRtpFramed();
      assert Delivered(units, NEW_RTP, |w.rtps|);
    case Refilled(k, index, packets) =>
      RefillKeeps(units, w.rtps[k], k, index, packets);
      OthersKeep(units, w.rtps, units, Refill(w.rtps[k], index, packets), k, Packet(k, 0, []));
    case RtpClosed(k) =>
      assert Delivered(units, w.rtps[k], k);
      OthersKeep(units, w.rtps, units, w.rtps[k].(alive := false), k, Packet(k, 0, []));
  }

  lemma SocketKeepsInv(w: World, e: Event)
    requires Allowed(w, e) && Inv(w) && (e.Received? || e.Flushed? || e.Hangup?)
    ensures Inv(Next(w, e))
  {
    hide AllDelivered, Receive, Flush, RequestsKept;
    match e
    case Received(byte, reply) =>
      ReceiveKeeps(w.socket, byte, reply);
      ReplyKeepsDelivered(w.socket.units, w.rtps, reply);
    case Flushed(n) =>
      FlushKeeps(w.socket, n);
    case Hangup =>
      assert OnTheWire(Close(w.socket)) && RequestsKept(Close(w.socket)) by { HangupKeeps(w.socket); }
  }

  lemma HangupKeeps(s: Socket)
    requires OnTheWire(s) && RequestsKept(s)
    ensures OnTheWire(Close(s)) && RequestsKept(Close(s))
  {
  }

  ghost predicate Run(worlds: seq<World>, events: seq<Event>) {
    && |worlds| == |events| + 1 && worlds[0] == World(NEW_SOCKET, [])
    && forall i :: 0 <= i < |events| ==> Allowed(worlds[i], events[i]) && worlds[i + 1] == Next(worlds[i], events[i])
  }

  lemma {:induction false} RunKeepsInv(worlds: seq<World>, events: seq<Event>)
    requires Run(worlds, events)
    ensures Inv(worlds[|events|])
  {
    hide Allowed, Next, Inv;
    if events == [] {
      assert Inv(World(NEW_SOCKET, [])) by { NewSocketInv(); }
    } else {
      var n := |events| - 1;
      RunKeepsInv(worlds[..n + 1], events[..n]);
      var w, e := worlds[n], events[n];
      if e.RtpTurn? { RtpTurnKeepsInv(w, e); }
      else if e.Received? || e.Flushed? || e.Hangup? { SocketKeepsInv(w, e); }
      else { RtpSideKeepsInv(w, e); }
    }
  }

  lemma NewSocketInv()
    ensures Inv(World(NEW_SOCKET, []))
  {
  }

  /** The bytes on the socket are whole units followed by a beginning of the next one, however sends are
      split; every packet unit has an even channel and a 16-bit length; the bytes received are the requests in
      order followed by the unfinished one; and of the packets given to an RTP connection those that left its
      buffer come first, and the socket carries exactly the ones not thrown away, once and in order. */
  lemma WholeUnitsOnly(worlds: seq<World>, events: seq<Event>)
    requires Run(worlds, events)
    ensures var s := worlds[|events|].socket; var n := |s.units|;
      && s.sent <= Concat(s.units)
      && (n > 0 ==> Concat(s.units[..n - 1]) <= s.sent)
      && (s.phase == WaitRequest ==> s.sent == Concat(s.units))
      && s.received == Joined(s.requests) + s.request
      && forall i :: 0 <= i < n ==> FramedUnit(s.units[i], |worlds[|events|].rtps|)
    ensures forall k :: 0 <= k < |worlds[|events|].rtps| ==>
      var c := worlds[|events|].rtps[k];
      c.given == Payloads(c.handled) + c.queue && PacketsOf(worlds[|events|].socket.units, k) == SentOf(c.handled)
  {
    hide FramedUnit, PacketsOf, SentOf, Payloads, Framed;
    RunKeepsInv(worlds, events);
    var w := worlds[|events|];
    assert OnTheWire(w.socket) && RequestsKept(w.socket);
    WireShape(w.socket);
    forall k | 0 <= k < |w.rtps|
      ensures w.rtps[k].given == Payloads(w.rtps[k].handled) + w.rtps[k].queue
      ensures PacketsOf(w.socket.units, k) == SentOf(w.rtps[k].handled)
    {
      assert Delivered(w.socket.units, w.rtps[k], k);
    }
  }

  /** One request: it ends with its first empty line. */
  predicate Whole(request: seq<int>) {
    EndsAt(request, |request|) && forall m :: 0 <= m < |request| ==> !EndsAt(request, m)
  }

  predicate Unfinished(request: seq<int>) { forall m :: 0 <= m <= |request| ==> !EndsAt(request, m) }

  ghost predicate Collecting(s: Socket) {
    && (forall i :: 0 <= i < |s.requests| ==> Whole(s.requests[i]) && |s.requests[i]| <= 8191)
    && Unfinished(s.request) && (s.phase != Closed ==> |s.request| < 8191)
  }

  lemma ReceiveCollects(s: Socket, byte: int, reply: seq<int>)
    requires Collecting(s)
    ensures Collecting(Receive(s, byte, reply))
  {
    hide EndsAt, Complete;
    var request := s.request + [byte];
    CompleteMeans(request);
    forall m | 0 <= m < |request| ensures !EndsAt(request, m) {
      SameEnd(s.request, byte, m);
    }
    assert !EndsAt([], 0) by { NothingEnds(); }
  }

  lemma SameEnd(request: seq<int>, byte: int, m: nat)
    requires m <= |request|
    ensures EndsAt(request + [byte], m) <==> EndsAt(request, m)
  {
  }

  lemma NothingEnds()
    ensures !EndsAt([], 0)
  {
  }

  lemma SocketCollects(w: World, e: Event)
    requires Allowed(w, e) && Collecting(w.socket)
    ensures Collecting(Next(w, e).socket)
  {
    hide Collecting, Receive, Framed;
    match e {
      case Received(byte, reply) => ReceiveCollects(w.socket, byte, reply);
      case _ => SameCollects(w.socket, Next(w, e).socket);
    }
  }

  lemma SameCollects(s: Socket, after: Socket)
    requires Collecting(s) && after.requests == s.requests && after.request == s.request
    requires s.phase == Closed ==> after.phase == Closed
    ensures Collecting(after)
  {
  }

  /** In every run the bytes received are cut into requests at their first empty lines, and nowhere else; and no
      connection that is open has collected a whole buffer without one. */
  lemma {:induction false} RequestsEndAtEmptyLine(worlds: seq<World>, events: seq<Event>)
    requires Run(worlds, events)
    ensures Collecting(worlds[|events|].socket)
  {
    hide Allowed, Next, Collecting;
    if events == [] {
      assert Collecting(NEW_SOCKET) by { NewCollects(); }
    } else {
      var n := |events| - 1;
      RequestsEndAtEmptyLine(worlds[..n + 1], events[..n]);
      SocketCollects(worlds[n], events[n]);
    }
  }

  lemma NewCollects()
    ensures Collecting(NEW_SOCKET)
  {
  }

  // ---------------------------------------------------------------- which packets are lost

  predicate AllSent(handled: seq<Handled>) { forall i :: 0 <= i < |handled| ==> handled[i].sent }

  /** A pass for connection k that could send but fails to open the buffer for the framed packet. */
  predicate Loses(w: World, e: Event, k: nat) {
    && e.RtpTurn? && e.k == k && !e.ready && k < |w.rtps| && w.socket.phase == WaitRequest
    && w.rtps[k].alive && w.rtps[k].buffer != []
  }

  lemma StepLoses(w: World, e: Event, k: nat)
    requires Allowed(w, e) && Inv(w) && k < |w.rtps|
    ensures k < |Next(w, e).rtps|
    ensures AllSent(Next(w, e).rtps[k].handled) <==> AllSent(w.rtps[k].handled) && !Loses(w, e, k)
  {
    var c := w.rtps[k];
    assert Delivered(w.socket.units, c, k);
    PackedHead(c.queue);
    if e.RtpTurn? && e.k == k {
      hide Inv;
      TurnLoses(w.socket, c, k, e.n, e.ready);
    }
  }

  lemma TurnLoses(s: Socket, c: Rtp, k: nat, n: nat, ready: bool)
    requires Framed(c)
    ensures AllSent(SendRtp(s, c, k, n, ready).1.handled) <==>
      AllSent(c.handled) && !(!ready && s.phase == WaitRequest && c.alive && c.buffer != [])
  {
    hide Packed, Begin, Length;
    PackedHead(c.queue);
    assert c.queue != [] ==> !Thrown(c.queue)[0].sent;
    forall more: seq<Handled> ensures AllSent(c.handled + more) <==> AllSent(c.handled) && AllSent(more) {
      SplitSent(c.handled, more);
    }
    assert AllSent([Handled([], true)]);
    if c.queue != [] { assert AllSent([Handled(c.queue[0], true)]); }
  }

  lemma SplitSent(a: seq<Handled>, b: seq<Handled>)
    ensures AllSent(a + b) <==> AllSent(a) && AllSent(b)
  {
    assert forall i :: 0 <= i < |a| ==> (a + b)[i] == a[i];
    assert forall i :: 0 <= i < |b| ==> (a + b)[|a| + i] == b[i];
  }

  ghost predicate NoLoss(worlds: seq<World>, events: seq<Event>, k: nat)
    requires |worlds| == |events| + 1
  {
    forall i :: 0 <= i < |events| ==> !Loses(worlds[i], events[i], k)
  }

  lemma NoLossSplit(worlds: seq<World>, events: seq<Event>, k: nat)
    requires |worlds| == |events| + 1 && events != []
    ensures var n := |events| - 1;
      NoLoss(worlds, events, k) <==> NoLoss(worlds[..n + 1], events[..n], k) && !Loses(worlds[n], events[n], k)
  {
    hide Loses;
    var n := |events| - 1;
    assert forall i :: 0 <= i < n ==> worlds[..n + 1][i] == worlds[i] && events[..n][i] == events[i];
  }

  /** A packet of connection k is lost in a run exactly when some pass for it failed to open that buffer. */
  lemma {:induction false} LostIff(worlds: seq<World>, events: seq<Event>, k: nat)
    requires Run(worlds, events) && k < |worlds[|events|].rtps|
    ensures AllSent(worlds[|events|].rtps[k].handled) <==> NoLoss(worlds, events, k)
  {
    if events != [] {
      hide Allowed, Next, Inv, AllSent, Loses, NoLoss;
      var n := |events| - 1;
      NoLossSplit(worlds, events, k);
      RunKeepsInv(worlds[..n + 1], events[..n]);
      if k < |worlds[n].rtps| {
        LostIff(worlds[..n + 1], events[..n], k);
        StepLoses(worlds[n], events[n], k);
      } else {
        NewConnection(worlds[n], events[n], k);
        NotYetThere(worlds, events, k);
      }
    }
  }

  lemma NewConnection(w: World, e: Event, k: nat)
    requires Allowed(w, e) && k >= |w.rtps| && k < |Next(w, e).rtps|
    ensures AllSent(Next(w, e).rtps[k].handled) && !Loses(w, e, k)
  {
  }

  lemma {:induction false} NotYetThere(worlds: seq<World>, events: seq<Event>, k: nat)
    requires Run(worlds, events) && events != [] && k >= |worlds[|events| - 1].rtps|
    ensures NoLoss(worlds, events, k)
  {
    hide Allowed, Next, NoLoss;
    var n := |events| - 1;
    NoLossSplit(worlds, events, k);
    assert !Loses(worlds[n], events[n], k);
    if n > 0 {
      ConnectionsGrow(worlds[n - 1], events[n - 1]);
      NotYetThere(worlds[..n + 1], events[..n], k);
    } else {
      assert NoLoss(worlds[..1], [], k) by { NoEvents(worlds[..1], k); }
    }
  }

  lemma NoEvents(worlds: seq<World>, k: nat)
    requires |worlds| == 1
    ensures NoLoss(worlds, [], k)
  {
  }

  lemma ConnectionsGrow(w: World, e: Event)
    requires Allowed(w, e)
    ensures |w.rtps| <= |Next(w, e).rtps|
  {
  }

  // ---------------------------------------------------------------- the receiver

  /** What a receiver makes of a unit. */
  datatype Seen = SeenReply(bytes: seq<int>) | SeenFrame(channel: int, data: seq<int>)

  function SeenOf(u: Unit): Seen {
    match u case Reply(bytes) => SeenReply(bytes) case Packet(_, channel, payload) => SeenFrame(channel % 256, payload)
  }

  /** The receiver takes a frame when it sees a dollar sign, and otherwise a reply, whose length it knows from
      the reply itself; `lengths` are the lengths of the replies in order. */
  function Split(stream: seq<int>, lengths: seq<nat>): Option<seq<Seen>>
    decreases |stream|
  {
    if stream == [] then Some([])
    else if stream[0] == DOLLAR then
      match DecodeFrame(stream)
      case None => None
      case Some((channel, data, rest)) => More(SeenFrame(channel, data), Split(rest, lengths))
    else if lengths == [] || lengths[0] == 0 || lengths[0] > |stream| then None
    else More(SeenReply(stream[..lengths[0]]), Split(stream[lengths[0]..], lengths[1..]))
  }

  function More(x: Seen, rest: Option<seq<Seen>>): Option<seq<Seen>> {
    match rest case None => None case Some(xs) => Some([x] + xs)
  }

  function AllSeen(units: seq<Unit>): seq<Seen> {
    if units == [] then [] else [SeenOf(units[0])] + AllSeen(units[1..])
  }

  function ReplyLengths(units: seq<Unit>): seq<nat> {
    if units == [] then []
    else (match units[0] case Reply(bytes) => [|bytes|] case Packet(_, _, _) => []) + ReplyLengths(units[1..])
  }

  /** A reply does not look like a frame: it starts with the protocol name.  A packet length fits 16 bits. */
  predicate Recognisable(u: Unit) {
    match u case Reply(bytes) => bytes != [] && bytes[0] != DOLLAR case Packet(_, _, payload) => |payload| < 0x1_0000
  }

  lemma {:induction false} ConcatFront(u: Unit, units: seq<Unit>)
    ensures Concat([u] + units) == Bytes(u) + Concat(units)
  {
    hide Bytes;
    if units == [] {
      assert [u] + units == [] + [u];
      ConcatLast([], u);
      assert [] + Bytes(u) == Bytes(u) + [];
    } else {
      var n := |units| - 1;
      assert ([u] + units)[..n + 1] == [u] + units[..n];
      ConcatFront(u, units[..n]);
    }
  }

  lemma {:induction false} UnitsSplit(units: seq<Unit>)
    requires forall i :: 0 <= i < |units| ==> Recognisable(units[i])
    ensures Split(Concat(units), ReplyLengths(units)) == Some(AllSeen(units))
  {
    if units != [] {
      hide Concat, DecodeFrame, Bytes;
      var u, rest := units[0], units[1..];
      assert units == [u] + rest && Recognisable(u);
      UnitsSplit(rest);
      ConcatFront(u, rest);
      FirstSplits(u, Concat(rest), ReplyLengths(rest));
    } else {
      assert Concat([]) == [];
    }
  }

  lemma FirstSplits(u: Unit, rest: seq<int>, lengths: seq<nat>)
    requires Recognisable(u)
    ensures Split(Bytes(u) + rest, (match u case Reply(bytes) => [|bytes|] case Packet(_, _, _) => []) + lengths) ==
      More(SeenOf(u), Split(rest, lengths))
  {
    match u
    case Reply(bytes) =>
      var all := [|bytes|] + lengths;
      assert all[1..] == lengths && (bytes + rest)[|bytes|..] == rest && (bytes + rest)[..|bytes|] == bytes;
    case Packet(source, channel, payload) =>
      hide DecodeFrame;
      FrameRoundTrip(source, channel % 256, payload, rest);
      assert FrameHeader(channel % 256, |payload|) == FrameHeader(channel, |payload|);
      assert (Bytes(u) + rest)[0] == DOLLAR;
      assert [] + lengths == lengths;
  }

  /** Between two units a receiver reads back exactly the units sent, replies and frames apart. */
  lemma ReceiverSeesUnits(worlds: seq<World>, events: seq<Event>)
    requires Run(worlds, events) && worlds[|events|].socket.phase == WaitRequest
    requires forall u :: u in worlds[|events|].socket.units && u.Reply? ==> u.bytes != [] && u.bytes[0] != DOLLAR
    ensures var s := worlds[|events|].socket; Split(s.sent, ReplyLengths(s.units)) == Some(AllSeen(s.units))
  {
    hide Split, Concat, AllSeen, ReplyLengths;
    WholeUnitsOnly(worlds, events);
    UnitsSplit(worlds[|events|].socket.units);
  }

  lemma WireShape(s: Socket)
    requires OnTheWire(s)
    ensures var n := |s.units|;
      && s.sent <= Concat(s.units) && (n > 0 ==> Concat(s.units[..n - 1]) <= s.sent)
      && (s.phase == WaitRequest ==> s.sent == Concat(s.units))
  {
    hide Bytes;
    assert s.sent <= s.sent + s.pending;
    if s.units != [] {
      var n := |s.units|;
      var whole := Concat(s.units[..n - 1]);
      assert s.sent + s.pending == whole + Bytes(s.units[n - 1]);
      assert |whole| <= |s.sent|;
      assert whole == (s.sent + s.pending)[..|whole|];
    }
  }

  // ---------------------------------------------------------------- the connections as the handlers update them

  class RtspConnection {
    var state: Phase
    var buffer: seq<int>                 // the request read so far
    var reply: seq<int>                  // unsent part of the reply
    var packetBuffer: seq<int>           // unsent part of the packet
    ghost var sent: seq<int>
    ghost var units: seq<Unit>
    ghost var received: seq<int>
    ghost var requests: seq<seq<int>>

    ghost predicate Valid()
      reads this
    {
      (state != SendReply ==> reply == []) && (state != SendPacket ==> packetBuffer == [])
    }

    ghost function View(): Socket
      reads this
    {
      Socket(state, buffer, reply + packetBuffer, sent, units, received, requests)
    }

    constructor ()
      ensures Valid() && View() == NEW_SOCKET
    {
      state, buffer, reply, packetBuffer := WaitRequest, [], [], [];
      sent, units, received, requests := [], [], [], [];
    }

    /** The waiting state of handle_connection with one byte to read; false closes the connection. */
    method ReadRequest(byte: int, answer: seq<int>) returns (ok: bool)
      requires Valid() && state == WaitRequest
      modifies this
      ensures Valid() && (ok <==> Receive(old(View()), byte, answer).phase != Closed)
      ensures ok ==> View() == Receive(old(View()), byte, answer)
      ensures !ok ==> Close(View()) == Receive(old(View()), byte, answer)
    {
      buffer := buffer + [byte];
      received := received + [byte];
      if Complete(buffer) {
        requests, units := requests + [buffer], units + [Reply(answer)];
        state, reply, buffer := SendReply, answer, [];
        return true;
      }
      return |buffer| < BUFFER_SIZE - 1;
    }

    /** The sending states of handle_connection; the kernel accepts n bytes. */
    method SendPending(n: nat)
      requires Valid() && (state == SendReply || state == SendPacket)
      requires n <= |if state == SendReply then reply else packetBuffer|
      modifies this
      ensures Valid() && View() == Flush(old(View()), n)
    {
      if state == SendReply {
        sent := sent + reply[..n];
        reply := reply[n..];
        if reply == [] { state := WaitRequest; }
      } else {
        sent := sent + packetBuffer[..n];
        packetBuffer := packetBuffer[n..];
        if packetBuffer == [] { state := WaitRequest; }
      }
    }

    /** A framed packet is handed over and `send` tried at once; the rest locks the connection. */
    method BeginPacket(packet: seq<int>, ghost unit: Unit, n: nat)
      requires Valid() && state == WaitRequest && packet == Bytes(unit)
      modifies this
      ensures Valid() && View() == Begin(old(View()), unit, n)
    {
      var m := if n < |packet| then n else |packet|;
      packetBuffer := packet[m..];
      sent, units := sent + packet[..m], units + [unit];
      if m < |packet| { state := SendPacket; }
    }
  }

  class RtpConnection {
    var buffer: seq<int>
    var packetStreamIndex: nat
    ghost var given: seq<seq<int>>
    ghost var handled: seq<Handled>
    ghost var queue: seq<seq<int>>

    ghost function View(): Rtp
      reads this
    {
      Rtp(true, packetStreamIndex, buffer, given, handled, queue)
    }

    constructor ()
      ensures View() == NEW_RTP
    {
      buffer, packetStreamIndex, given, handled, queue := [], 0, [], [], [];
    }

    /** One pass of the RTP/TCP branch of http_send_data with something to send.  False ends the connection. */
    method SendPacketOn(rtspC: RtspConnection?, k: nat, n: nat, ready: bool) returns (ok: bool)
      requires buffer != [] && Framed(View()) && (rtspC != null ==> rtspC.Valid() && rtspC.state != Closed)
      modifies this, rtspC
      ensures ok <==> rtspC != null
      ensures rtspC == null ==> View() == old(View())
      ensures rtspC != null ==> rtspC.Valid()
      ensures rtspC != null ==> (rtspC.View(), View()) == SendRtp(old(rtspC.View()), old(View()), k, n, ready)
    {
      PackedHead(queue);
      hide Packed, Bytes, Begin;
      var len := Length(buffer);
      if rtspC == null { return false; }
      if rtspC.state != WaitRequest { return true; }
      if !ready {
        handled := handled + Thrown(queue);
        buffer, queue := [], [];
        return true;
      }
      var packet := FrameHeader(Channel(buffer, packetStreamIndex), len) + buffer[4..4 + len];
      assert packet == Bytes(FirstUnit(View(), k)) by { FirstUnitBytes(View(), k); }
      rtspC.BeginPacket(packet, FirstUnit(View(), k), n);
      handled := handled + [Handled(queue[0], true)];
      buffer, queue := buffer[4 + len..], queue[1..];
      return true;
    }
  }
}
