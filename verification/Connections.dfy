/** Connection accounting of lavc/ffserver.c: the connection list, the bandwidth in use, which feeds have a
    feeder, and which connections wait for a feed.  One event is one pass of the server loop over one
    connection, or one accepted connection. */
module Connections {

  datatype StreamType = Live | Status | Redirect

  const NONE := -1

  /** A configured stream; `feed` is the index of its feed, or NONE.  A feed is its own feed. */
  datatype Stream = Stream(kind: StreamType, bandwidth: nat, isFeed: bool, readonly: bool, feed: int, rtp: bool)

  datatype Config = Config(streams: seq<Stream>, maxConnections: int, maxBandwidth: int)

  /** What the configuration parser produces: feeds are live and feed themselves, and streams that can be sent
      by RTP are live or carry no audio or video. */
  ghost predicate ValidConfig(g: Config) {
    forall i {:trigger g.streams[i]} :: 0 <= i < |g.streams| ==>
      var st := g.streams[i];
      && NONE <= st.feed < |g.streams| && (st.isFeed ==> st.feed == i && st.kind == Live)
      && (st.rtp ==> st.kind == Live || st.bandwidth == 0)
  }

  datatype Phase =
    | HttpWaitRequest | SendHeader | SendDataHeader | SendData | SendDataTrailer | ReceiveData | WaitFeed | Ready
    | RtspWaitRequest | RtspSendReply | RtspSendPacket

  /** HTTPContext: `id` stands for its address, `rtspC` for the address of its RTSP connection. */
  datatype Conn = Conn(id: int, phase: Phase, post: bool, stream: int, httpError: bool, rtspC: int, session: int)

  datatype State = State(list: seq<Conn>, nbConnections: int, bandwidth: int, feedOpened: seq<bool>, nextId: int)

  // ---------------------------------------------------------------- sums over the connection list

  /** What is summed: bandwidth of the streams being served, or the feeders of one feed. */
  datatype Measure = Bandwidth | Feeders(feed: int)

  function Value(g: Config, m: Measure, c: Conn): nat {
    match m
    case Bandwidth =>
      if 0 <= c.stream < |g.streams| && !c.post && g.streams[c.stream].kind == Live
      then g.streams[c.stream].bandwidth
      else 0
    case Feeders(feed) => if c.phase == ReceiveData && c.stream == feed then 1 else 0
  }

  function Total(g: Config, m: Measure, list: seq<Conn>): nat {
    if list == [] then 0 else Value(g, m, list[0]) + Total(g, m, list[1..])
  }

  lemma {:induction false} TotalSplit(g: Config, m: Measure, a: seq<Conn>, b: seq<Conn>)
    ensures Total(g, m, a + b) == Total(g, m, a) + Total(g, m, b)
  {
    if a == [] {
      assert a + b == b;
    } else {
      assert (a + b)[1..] == a[1..] + b;
      TotalSplit(g, m, a[1..], b);
    }
  }

  lemma TotalOne(g: Config, m: Measure, c: Conn)
    ensures Total(g, m, [c]) == Value(g, m, c)
  {
  }

  lemma TotalWithout(g: Config, m: Measure, list: seq<Conn>, k: nat)
    requires k < |list|
    ensures Total(g, m, list) == Total(g, m, Without(list, k)) + Value(g, m, list[k])
  {
    assert list == list[..k] + ([list[k]] + list[k + 1..]);
    TotalSplit(g, m, list[..k], [list[k]] + list[k + 1..]);
    TotalSplit(g, m, [list[k]], list[k + 1..]);
    TotalSplit(g, m, list[..k], list[k + 1..]);
    TotalOne(g, m, list[k]);
  }

  lemma TotalUpdate(g: Config, m: Measure, list: seq<Conn>, k: nat, c: Conn)
    requires k < |list|
    ensures Total(g, m, list[k := c]) == Total(g, m, list) - Value(g, m, list[k]) + Value(g, m, c)
  {
    TotalWithout(g, m, list, k);
    TotalWithout(g, m, list[k := c], k);
    assert Without(list[k := c], k) == Without(list, k);
  }

  /** Connections that differ only in fields the measure does not look at. */
  lemma {:induction false} TotalSame(g: Config, m: Measure, a: seq<Conn>, b: seq<Conn>)
    requires |a| == |b| && forall i :: 0 <= i < |a| ==> Value(g, m, a[i]) == Value(g, m, b[i])
    ensures Total(g, m, a) == Total(g, m, b)
  {
    if a != [] { TotalSame(g, m, a[1..], b[1..]); }
  }

  function Without(list: seq<Conn>, k: nat): seq<Conn>
    requires k < |list|
  {
    list[..k] + list[k + 1..]
  }

  // ---------------------------------------------------------------- the handlers

  /** new_connection, after accept. */
  function Accept(g: Config, s: State, rtsp: bool, ok: bool): State {
    if s.nbConnections >= g.maxConnections || !ok then s
    else
      var c := Conn(s.nextId, if rtsp then RtspWaitRequest else HttpWaitRequest, false, NONE, false, NONE, 0);
      s.(list := [c] + s.list, nbConnections := s.nbConnections + 1, nextId := s.nextId + 1)
  }

  /** rtp_new_connection for a session; it adds the bandwidth whatever the stream type. */
  function RtpNew(g: Config, s: State, stream: nat, session: int, ok: bool): State
    requires stream < |g.streams|
  {
    if s.nbConnections >= g.maxConnections || !ok then s
    else
      var c := Conn(s.nextId, Ready, false, stream, false, NONE, session);
      s.(list := [c] + s.list, nbConnections := s.nbConnections + 1, nextId := s.nextId + 1,
         bandwidth := s.bandwidth + g.streams[stream].bandwidth)
  }

  /** References to a removed connection are cleared. */
  function ClearRefs(list: seq<Conn>, id: int): (r: seq<Conn>)
    ensures |r| == |list|
    ensures forall i :: 0 <= i < |list| ==> r[i] == if list[i].rtspC == id then list[i].(rtspC := NONE) else list[i]
  {
    seq(|list|, i requires 0 <= i < |list| => if list[i].rtspC == id then list[i].(rtspC := NONE) else list[i])
  }

  /** The feed flag is cleared when the connection is the feeder. */
  function ReleaseFeed(flags: seq<bool>, c: Conn): seq<bool> {
    if c.phase == ReceiveData && 0 <= c.stream < |flags| then flags[c.stream := false] else flags
  }

  function CloseConn(g: Config, s: State, k: nat): State
    requires k < |s.list|
  {
    var c := s.list[k];
    s.(list := ClearRefs(Without(s.list, k), c.id), nbConnections := s.nbConnections - 1,
       bandwidth := s.bandwidth - Value(g, Bandwidth, c), feedOpened := ReleaseFeed(s.feedOpened, c))
  }

  /** An HTTP request as http_parse_request sees it; the flags are results of the calls it makes. */
  datatype Request = Request(wellFormed: bool, post: bool, stream: int, redirected: bool, feedFileOk: bool, inputOk: bool)

  /** http_parse_request: the new connection, the bandwidth and the feed flags; None closes the connection. */
  datatype Parsed = Rejected | Accepted(conn: Conn, bandwidth: int, flags: seq<bool>)

  predicate CountsAs(st: Stream, post: bool) { !post && st.kind == Live }

  function ParseHttp(g: Config, s: State, c: Conn, r: Request): Parsed {
    if !r.wellFormed then Rejected
    else
      var c := c.(post := r.post, phase := SendHeader, httpError := true);
      if !(0 <= r.stream < |g.streams|) || |s.feedOpened| != |g.streams| then Accepted(c, s.bandwidth, s.feedOpened)
      else
        var st := g.streams[r.stream];
        var c := c.(stream := r.stream);
        if st.kind == Redirect then Accepted(c, s.bandwidth, s.feedOpened)
        else
          var bandwidth := if CountsAs(st, r.post) then s.bandwidth + st.bandwidth else s.bandwidth;
          if s.feedOpened[r.stream] || (!r.post && g.maxBandwidth < bandwidth) || r.redirected then
            Accepted(c, bandwidth, s.feedOpened)
          else if r.post && !st.isFeed then Accepted(c.(stream := NONE), bandwidth, s.feedOpened)
          else if r.post && (st.readonly || !r.feedFileOk) then Accepted(c, bandwidth, s.feedOpened)
          else if r.post then
            Accepted(c.(httpError := false, phase := ReceiveData), bandwidth, s.feedOpened[r.stream := true])
          else if st.kind == Status || !r.inputOk then Accepted(c, bandwidth, s.feedOpened)
          else Accepted(c.(httpError := false), bandwidth, s.feedOpened)
  }

  function HttpRequest(g: Config, s: State, k: nat, r: Request): State
    requires k < |s.list|
  {
    match ParseHttp(g, s, s.list[k], r)
    case Rejected => CloseConn(g, s, k)
    case Accepted(c, bandwidth, flags) => s.(list := s.list[k := c], bandwidth := bandwidth, feedOpened := flags)
  }

  /** The connection waits for a packet of this feed. */
  predicate WaitsFor(g: Config, c: Conn, feed: int) {
    c.phase == WaitFeed && 0 <= c.stream < |g.streams| && g.streams[c.stream].feed == feed
  }

  function Wake(g: Config, list: seq<Conn>, feed: int, to: Phase): (r: seq<Conn>)
    ensures |r| == |list|
    ensures forall i :: 0 <= i < |list| ==> r[i] == if WaitsFor(g, list[i], feed) then list[i].(phase := to) else list[i]
  {
    seq(|list|, i requires 0 <= i < |list| => if WaitsFor(g, list[i], feed) then list[i].(phase := to) else list[i])
  }

  /** http_receive_data has stored a packet of the feed, or failed; then the feeder is closed. */
  function PacketStored(g: Config, s: State, k: nat): State
    requires k < |s.list| && 0 <= s.list[k].stream < |g.streams|
  {
    s.(list := Wake(g, s.list, g.streams[s.list[k].stream].feed, SendData))
  }

  function FeederFailed(g: Config, s: State, k: nat): State
    requires k < |s.list| && 0 <= s.list[k].stream < |g.streams|
  {
    var woken := s.(feedOpened := ReleaseFeed(s.feedOpened, s.list[k]),
                    list := Wake(g, s.list, g.streams[s.list[k].stream].feed, SendDataTrailer));
    CloseConn(g, woken, k)
  }

  // ---------------------------------------------------------------- the invariant

  /** What the state of one connection implies. */
  predicate ConnOk(g: Config, c: Conn) {
    && NONE <= c.stream < |g.streams|
    && (c.phase in {HttpWaitRequest, RtspWaitRequest, RtspSendReply, RtspSendPacket} ==> c.stream == NONE)
    && (c.phase in {SendDataHeader, SendData, SendDataTrailer, WaitFeed, ReceiveData, Ready} ==> c.stream != NONE)
    && (c.phase == SendHeader && !c.httpError ==> c.stream != NONE)
    && (c.phase == WaitFeed ==> g.streams[c.stream].feed != NONE)
    && (c.phase == ReceiveData ==> c.post && g.streams[c.stream].isFeed)
  }

  ghost predicate AllOk(g: Config, s: State) {
    |s.feedOpened| == |g.streams| && forall i :: 0 <= i < |s.list| ==> ConnOk(g, s.list[i])
  }

  predicate HasId(list: seq<Conn>, id: int) { exists j :: 0 <= j < |list| && list[j].id == id }

  /** Addresses are distinct, and no connection refers to one that is gone. */
  ghost predicate Refs(s: State) {
    && s.nextId >= 0
    && (forall i :: 0 <= i < |s.list| ==> 0 <= s.list[i].id < s.nextId)
    && (forall i, j :: 0 <= i < j < |s.list| ==> s.list[i].id != s.list[j].id)
    && (forall i :: 0 <= i < |s.list| && s.list[i].rtspC != NONE ==> HasId(s.list, s.list[i].rtspC))
  }

  ghost predicate Counted(g: Config, s: State) {
    s.nbConnections == |s.list| && 0 <= s.nbConnections <= g.maxConnections
  }

  ghost predicate BandwidthExact(g: Config, s: State) { s.bandwidth == Total(g, Bandwidth, s.list) }

  ghost predicate FeedersExact(g: Config, s: State) {
    forall f :: 0 <= f < |s.feedOpened| ==> Total(g, Feeders(f), s.list) == if s.feedOpened[f] then 1 else 0
  }

  ghost predicate Inv(g: Config, s: State) {
    AllOk(g, s) && Refs(s) && Counted(g, s) && BandwidthExact(g, s) && FeedersExact(g, s)
  }

  // ---------------------------------------------------------------- events

  datatype Event =
    | Connect(rtsp: bool, ok: bool)
    | HttpParse(k: nat, request: Request)
    | Moved(k: nat, to: Phase)                     // a change of phase that touches nothing else
    | Closed(k: nat)                               // error, hang-up, timeout, end of data, TEARDOWN
    | RtpOpened(stream: nat, session: int, ok: bool)
    | Attached(k: nat, control: nat)                  // rtp_new_av_stream over TCP
    | Stored(k: nat)
    | FeedFailed(k: nat)

  predicate MayMove(g: Config, c: Conn, to: Phase)
    requires ConnOk(g, c)
  {
    match (c.phase, to)
    case (SendHeader, SendDataHeader) => !c.httpError
    case (SendDataHeader, SendData) => true
    case (SendData, WaitFeed) => g.streams[c.stream].feed != NONE
    case (SendData, SendDataTrailer) => true
    case (SendData, Ready) => true
    case (WaitFeed, Ready) => true
    case (WaitFeed, SendData) => true
    case (Ready, SendData) => true
    case (RtspWaitRequest, RtspSendReply) => true
    case (RtspSendReply, RtspWaitRequest) => true
    case (RtspWaitRequest, RtspSendPacket) => true
    case (RtspSendPacket, RtspWaitRequest) => true
    case _ => false
  }

  ghost predicate Allowed(g: Config, s: State, e: Event) {
    match e
    case Connect(_, _) => true
    case HttpParse(k, _) => k < |s.list| && s.list[k].phase == HttpWaitRequest
    case Moved(k, to) => k < |s.list| && ConnOk(g, s.list[k]) && MayMove(g, s.list[k], to)
    case Closed(k) => k < |s.list|
    case RtpOpened(stream, _, _) => stream < |g.streams| && g.streams[stream].rtp
    case Attached(k, control) => k < |s.list| && control < |s.list|
    case Stored(k) => k < |s.list| && s.list[k].phase == ReceiveData && ConnOk(g, s.list[k])
    case FeedFailed(k) => k < |s.list| && s.list[k].phase == ReceiveData && ConnOk(g, s.list[k])
  }

  ghost function Next(g: Config, s: State, e: Event): State
    requires Allowed(g, s, e)
  {
    match e
    case Connect(rtsp, ok) => Accept(g, s, rtsp, ok)
    case HttpParse(k, request) => HttpRequest(g, s, k, request)
    case Moved(k, to) => s.(list := s.list[k := s.list[k].(phase := to)])
    case Closed(k) => CloseConn(g, s, k)
    case RtpOpened(stream, session, ok) => RtpNew(g, s, stream, session, ok)
    case Attached(k, control) => s.(list := s.list[k := s.list[k].(rtspC := s.list[control].id)])
    case Stored(k) => PacketStored(g, s, k)
    case FeedFailed(k) => FeederFailed(g, s, k)
  }

  // ---------------------------------------------------------------- closing

  lemma CloseKeepsLists(g: Config, s: State, k: nat)
    requires AllOk(g, s) && Refs(s) && Counted(g, s) && k < |s.list|
    ensures var after := CloseConn(g, s, k); AllOk(g, after) && Refs(after) && Counted(g, after)
    ensures !HasId(CloseConn(g, s, k).list, s.list[k].id)
  {
    hide Value, Total;
    var id := s.list[k].id;
    var rest := Without(s.list, k);
    var after := CloseConn(g, s, k);
    forall i | 0 <= i < |rest| ensures rest[i] == s.list[if i < k then i else i + 1] && rest[i].id != id {
    }
    forall i | 0 <= i < |rest| && after.list[i].rtspC != NONE ensures HasId(after.list, after.list[i].rtspC) {
      var target := rest[i].rtspC;
      assert HasId(s.list, target);
      var j :| 0 <= j < |s.list| && s.list[j].id == target;
      var j1 := if j < k then j else j - 1;
      assert after.list[j1].id == target;
    }
  }

  lemma ClearRefsTotal(g: Config, m: Measure, list: seq<Conn>, id: int)
    ensures Total(g, m, ClearRefs(list, id)) == Total(g, m, list)
  {
    TotalSame(g, m, ClearRefs(list, id), list);
  }

  lemma CloseTotal(g: Config, m: Measure, s: State, k: nat)
    requires k < |s.list|
    ensures Total(g, m, CloseConn(g, s, k).list) == Total(g, m, s.list) - Value(g, m, s.list[k])
  {
    hide Value;
    ClearRefsTotal(g, m, Without(s.list, k), s.list[k].id);
    TotalWithout(g, m, s.list, k);
  }

  predicate Feeds(c: Conn, f: int) { c.phase == ReceiveData && c.stream == f }

  /** When the feeder itself failed its flag is cleared before the close. */
  lemma CloseKeepsSums(g: Config, s: State, k: nat)
    requires AllOk(g, s) && BandwidthExact(g, s) && k < |s.list|
    requires forall f :: 0 <= f < |s.feedOpened| ==>
      Total(g, Feeders(f), s.list) == if s.feedOpened[f] || Feeds(s.list[k], f) then 1 else 0
    ensures var after := CloseConn(g, s, k); BandwidthExact(g, after) && FeedersExact(g, after)
  {
    hide Total;
    CloseTotal(g, Bandwidth, s, k);
    var after := CloseConn(g, s, k);
    forall f | 0 <= f < |s.feedOpened|
      ensures Total(g, Feeders(f), after.list) == if after.feedOpened[f] then 1 else 0
    {
      CloseTotal(g, Feeders(f), s, k);
    }
  }

  /** A connection that is counted as feeder of f shows that f has one. */
  lemma {:induction false} FeederCounts(g: Config, list: seq<Conn>, k: nat, f: int)
    requires k < |list| && list[k].phase == ReceiveData && list[k].stream == f
    ensures Total(g, Feeders(f), list) >= 1
  {
    TotalWithout(g, Feeders(f), list, k);
  }

  lemma CloseKeepsInv(g: Config, s: State, k: nat)
    requires Inv(g, s) && k < |s.list|
    ensures Inv(g, CloseConn(g, s, k))
  {
    hide Total, CloseConn, Refs, ConnOk;
    CloseKeepsLists(g, s, k);
    forall f | 0 <= f < |s.feedOpened|
      ensures Total(g, Feeders(f), s.list) == if s.feedOpened[f] || Feeds(s.list[k], f) then 1 else 0
    {
      if s.list[k].phase == ReceiveData && s.list[k].stream == f { FeederCounts(g, s.list, k, f); }
    }
    CloseKeepsSums(g, s, k);
  }

  // ---------------------------------------------------------------- the other events

  lemma PrependKeepsRefs(s: State, c: Conn, after: State)
    requires Refs(s) && c.id == s.nextId && c.rtspC == NONE
    requires after.list == [c] + s.list && after.nextId == s.nextId + 1
    ensures Refs(after)
  {
    forall i | 0 <= i < |after.list| && after.list[i].rtspC != NONE ensures HasId(after.list, after.list[i].rtspC) {
      var target := s.list[i - 1].rtspC;
      assert HasId(s.list, target);
      var j :| 0 <= j < |s.list| && s.list[j].id == target;
      assert after.list[j + 1].id == target;
    }
  }

  lemma PrependTotal(g: Config, m: Measure, c: Conn, list: seq<Conn>)
    ensures Total(g, m, [c] + list) == Value(g, m, c) + Total(g, m, list)
  {
    assert ([c] + list)[1..] == list;
  }

  /** A new connection with a free place in the list, and the bandwidth it brings. */
  lemma PrependKeepsInv(g: Config, s: State, c: Conn, after: State)
    requires Inv(g, s) && c.id == s.nextId && c.rtspC == NONE && ConnOk(g, c) && c.phase != ReceiveData
    requires s.nbConnections < g.maxConnections
    requires after == s.(list := [c] + s.list, nbConnections := s.nbConnections + 1, nextId := s.nextId + 1,
                         bandwidth := s.bandwidth + Value(g, Bandwidth, c))
    ensures Inv(g, after)
  {
    hide Total, ConnOk, Refs;
    PrependKeepsRefs(s, c, after);
    PrependTotal(g, Bandwidth, c, s.list);
    forall f | 0 <= f < |s.feedOpened|
      ensures Total(g, Feeders(f), after.list) == if after.feedOpened[f] then 1 else 0
    {
      PrependTotal(g, Feeders(f), c, s.list);
    }
    forall i | 0 <= i < |after.list| ensures ConnOk(g, after.list[i]) {
      if i > 0 { assert after.list[i] == s.list[i - 1]; }
    }
  }

  /** A connection is taken exactly when there is room and accept succeeded: it is put in front, waiting for a
      request, and nothing else changes. */
  lemma AcceptEffect(g: Config, s: State, rtsp: bool, ok: bool)
    ensures var after := Accept(g, s, rtsp, ok); var taken := |after.list| == |s.list| + 1;
      (taken <==> s.nbConnections < g.maxConnections && ok) && (!taken ==> after == s)
    ensures var after := Accept(g, s, rtsp, ok);
      after != s ==>
        && after == s.(list := after.list, nbConnections := s.nbConnections + 1, nextId := s.nextId + 1)
        && after.list[1..] == s.list && after.list[0].phase == (if rtsp then RtspWaitRequest else HttpWaitRequest)
        && after.list[0].stream == NONE && after.list[0].rtspC == NONE
  {
  }

  /** The same for an RTP connection, which is ready at once, knows its stream and adds its bandwidth. */
  lemma RtpNewEffect(g: Config, s: State, stream: nat, session: int, ok: bool)
    requires stream < |g.streams|
    ensures var after := RtpNew(g, s, stream, session, ok); var taken := |after.list| == |s.list| + 1;
      (taken <==> s.nbConnections < g.maxConnections && ok) && (!taken ==> after == s)
    ensures var after := RtpNew(g, s, stream, session, ok);
      after != s ==>
        && after == s.(list := after.list, nbConnections := s.nbConnections + 1, nextId := s.nextId + 1,
                       bandwidth := s.bandwidth + g.streams[stream].bandwidth)
        && after.list[1..] == s.list && after.list[0].phase == Ready && after.list[0].stream == stream
        && after.list[0].session == session && after.list[0].rtspC == NONE
  {
  }

  lemma AcceptKeepsInv(g: Config, s: State, rtsp: bool, ok: bool)
    requires Inv(g, s)
    ensures Inv(g, Accept(g, s, rtsp, ok))
  {
    hide Inv;
    if s.nbConnections < g.maxConnections && ok {
      var c := Conn(s.nextId, if rtsp then RtspWaitRequest else HttpWaitRequest, false, NONE, false, NONE, 0);
      PrependKeepsInv(g, s, c, Accept(g, s, rtsp, ok));
    }
  }

  /** An RTP connection adds exactly its share: its stream is live, or has no bandwidth. */
  lemma RtpNewKeepsInv(g: Config, s: State, stream: nat, session: int, ok: bool)
    requires Inv(g, s) && ValidConfig(g) && stream < |g.streams| && g.streams[stream].rtp
    ensures Inv(g, RtpNew(g, s, stream, session, ok))
  {
    hide Inv;
    if s.nbConnections < g.maxConnections && ok {
      var c := Conn(s.nextId, Ready, false, stream, false, NONE, session);
      assert Value(g, Bandwidth, c) == g.streams[stream].bandwidth;
      PrependKeepsInv(g, s, c, RtpNew(g, s, stream, session, ok));
    }
  }

  /** Without that premise the sum is no longer exact: the premise is needed as it stands. */
  lemma RtpPremiseNeeded(g: Config, s: State, stream: nat, session: int)
    requires BandwidthExact(g, s) && stream < |g.streams| && s.nbConnections < g.maxConnections
    ensures BandwidthExact(g, RtpNew(g, s, stream, session, true)) <==>
      g.streams[stream].kind == Live || g.streams[stream].bandwidth == 0
  {
    PrependTotal(g, Bandwidth, Conn(s.nextId, Ready, false, stream, false, NONE, session), s.list);
  }

  lemma UpdateKeepsRefs(s: State, k: nat, c: Conn, after: State)
    requires Refs(s) && k < |s.list| && c.id == s.list[k].id && (c.rtspC != NONE ==> HasId(s.list, c.rtspC))
    requires after.list == s.list[k := c] && after.nextId == s.nextId
    ensures Refs(after)
  {
    forall i | 0 <= i < |after.list| && after.list[i].rtspC != NONE ensures HasId(after.list, after.list[i].rtspC) {
      var target := after.list[i].rtspC;
      assert HasId(s.list, target) by { if i != k { assert after.list[i] == s.list[i]; } }
      var j :| 0 <= j < |s.list| && s.list[j].id == target;
      assert after.list[j].id == target;
    }
  }

  /** One connection changes; bandwidth and feed flags change with its contribution. */
  lemma UpdateKeepsInv(g: Config, s: State, k: nat, c: Conn, bandwidth: int, flags: seq<bool>)
    requires Inv(g, s) && k < |s.list| && c.id == s.list[k].id && ConnOk(g, c)
    requires c.rtspC != NONE ==> HasId(s.list, c.rtspC)
    requires bandwidth == s.bandwidth - Value(g, Bandwidth, s.list[k]) + Value(g, Bandwidth, c)
    requires |flags| == |s.feedOpened|
    requires forall f :: 0 <= f < |flags| ==>
      (if flags[f] then 1 else 0) + Value(g, Feeders(f), s.list[k]) ==
      (if s.feedOpened[f] then 1 else 0) + Value(g, Feeders(f), c)
    ensures Inv(g, s.(list := s.list[k := c], bandwidth := bandwidth, feedOpened := flags))
  {
    hide Total, ConnOk, Refs, Value, HasId;
    var after := s.(list := s.list[k := c], bandwidth := bandwidth, feedOpened := flags);
    UpdateKeepsRefs(s, k, c, after);
    TotalUpdate(g, Bandwidth, s.list, k, c);
    forall f | 0 <= f < |flags| ensures Total(g, Feeders(f), after.list) == if flags[f] then 1 else 0 {
      TotalUpdate(g, Feeders(f), s.list, k, c);
    }
    forall i | 0 <= i < |after.list| ensures ConnOk(g, after.list[i]) {
      if i != k { assert after.list[i] == s.list[i]; }
    }
  }

  /** What http_parse_request does to its connection, the bandwidth and the feed flags, in terms of shares. */
  lemma ParseEffect(g: Config, s: State, c: Conn, r: Request)
    requires ConnOk(g, c) && c.phase == HttpWaitRequest && |s.feedOpened| == |g.streams|
    ensures var p := ParseHttp(g, s, c, r); p.Accepted? ==>
      && p.conn.id == c.id && p.conn.rtspC == c.rtspC && |p.flags| == |s.feedOpened|
      && p.bandwidth == s.bandwidth + Value(g, Bandwidth, p.conn)
      && (forall f :: 0 <= f < |p.flags| ==>
           p.flags[f] == (s.feedOpened[f] || Value(g, Feeders(f), p.conn) == 1)
           && (s.feedOpened[f] ==> Value(g, Feeders(f), p.conn) == 0) && Value(g, Feeders(f), p.conn) <= 1)
  {
  }

  lemma ParsedConnOk(g: Config, s: State, c: Conn, r: Request)
    requires ValidConfig(g) && ConnOk(g, c) && c.phase == HttpWaitRequest && |s.feedOpened| == |g.streams|
    ensures var p := ParseHttp(g, s, c, r); p.Accepted? ==> ConnOk(g, p.conn)
  {
  }

  /** A well-formed request keeps its connection, and is served exactly when its stream is known, not a redirect
      and has no feeder yet, and: a feeder sends to a feed that may be written and whose file opens; a reader
      asks for a stream whose input opens and whose bandwidth fits within the limit beside what is in use. */
  lemma ServedIff(g: Config, s: State, c: Conn, r: Request)
    requires |s.feedOpened| == |g.streams|
    ensures ParseHttp(g, s, c, r).Rejected? <==> !r.wellFormed
    ensures var p := ParseHttp(g, s, c, r); p.Accepted? ==> (!p.conn.httpError <==>
      && 0 <= r.stream < |g.streams| && g.streams[r.stream].kind != Redirect && !s.feedOpened[r.stream] && !r.redirected
      && (r.post ==> g.streams[r.stream].isFeed && !g.streams[r.stream].readonly && r.feedFileOk)
      && (!r.post ==> g.streams[r.stream].kind != Status && r.inputOk)
      && (!r.post ==> s.bandwidth + Load(g.streams[r.stream]) <= g.maxBandwidth))
    ensures var p := ParseHttp(g, s, c, r); p.Accepted? && !p.conn.httpError ==>
      p.conn == c.(post := r.post, stream := r.stream, httpError := false,
                   phase := if r.post then ReceiveData else SendHeader)
    ensures var p := ParseHttp(g, s, c, r); p.Accepted? && p.conn.httpError ==>
      p.conn.phase == SendHeader && p.flags == s.feedOpened
  {
  }

  function Load(st: Stream): nat { if st.kind == Live then st.bandwidth else 0 }

  lemma HttpParseKeepsInv(g: Config, s: State, k: nat, r: Request)
    requires Inv(g, s) && ValidConfig(g) && k < |s.list| && s.list[k].phase == HttpWaitRequest
    ensures Inv(g, HttpRequest(g, s, k, r))
  {
    hide Inv, ParseHttp, Value, ConnOk, HasId;
    assert AllOk(g, s) && Refs(s) by { Parts(g, s); }
    var c := s.list[k];
    assert ConnOk(g, c);
    match ParseHttp(g, s, c, r)
    case Rejected => CloseKeepsInv(g, s, k);
    case Accepted(c1, bandwidth, flags) =>
      ParseEffect(g, s, c, r);
      ParsedConnOk(g, s, c, r);
      WaitingHasNoShare(g, c);
      UpdateKeepsInv(g, s, k, c1, bandwidth, flags);
  }

  lemma Parts(g: Config, s: State)
    requires Inv(g, s)
    ensures AllOk(g, s) && Refs(s)
  {
  }

  lemma WaitingHasNoShare(g: Config, c: Conn)
    requires ConnOk(g, c) && c.phase == HttpWaitRequest
    ensures Value(g, Bandwidth, c) == 0 && forall f :: Value(g, Feeders(f), c) == 0
  {
  }

  lemma MovedKeepsInv(g: Config, s: State, k: nat, to: Phase)
    requires Inv(g, s) && k < |s.list| && ConnOk(g, s.list[k]) && MayMove(g, s.list[k], to)
    ensures Inv(g, s.(list := s.list[k := s.list[k].(phase := to)]))
  {
    hide Inv;
    assert Refs(s) by { Parts(g, s); }
    var c := s.list[k];
    assert c.phase != ReceiveData && to != ReceiveData && ConnOk(g, c.(phase := to));
    assert c.rtspC != NONE ==> HasId(s.list, c.rtspC);
    assert |s.feedOpened| == |g.streams| by { Parts(g, s); }
    UpdateKeepsInv(g, s, k, c.(phase := to), s.bandwidth, s.feedOpened);
  }

  lemma AttachedKeepsInv(g: Config, s: State, k: nat, control: nat)
    requires Inv(g, s) && k < |s.list| && control < |s.list|
    ensures Inv(g, s.(list := s.list[k := s.list[k].(rtspC := s.list[control].id)]))
  {
    hide Inv;
    assert AllOk(g, s) by { Parts(g, s); }
    var c := s.list[k];
    assert ConnOk(g, c.(rtspC := s.list[control].id));
    assert HasId(s.list, s.list[control].id);
    UpdateKeepsInv(g, s, k, c.(rtspC := s.list[control].id), s.bandwidth, s.feedOpened);
  }

  lemma WakeKeepsRefs(g: Config, s: State, feed: int, to: Phase, after: State)
    requires Refs(s) && after.nextId == s.nextId && after.list == Wake(g, s.list, feed, to)
    ensures Refs(after)
  {
    hide WaitsFor;
    forall i | 0 <= i < |after.list| && after.list[i].rtspC != NONE ensures HasId(after.list, after.list[i].rtspC) {
      assert HasId(s.list, s.list[i].rtspC);
      var j :| 0 <= j < |s.list| && s.list[j].id == s.list[i].rtspC;
      assert after.list[j].id == s.list[i].rtspC;
    }
  }

  /** Waking changes only the phase of waiting connections, which have no share in the feeders. */
  lemma WakeKeeps(g: Config, s: State, feed: int, to: Phase, flags: seq<bool>)
    requires AllOk(g, s) && Refs(s) && Counted(g, s) && BandwidthExact(g, s) && (to == SendData || to == SendDataTrailer)
    requires |flags| == |s.feedOpened|
    ensures var after := s.(list := Wake(g, s.list, feed, to), feedOpened := flags);
      && AllOk(g, after) && Refs(after) && Counted(g, after) && BandwidthExact(g, after)
      && forall f :: Total(g, Feeders(f), after.list) == Total(g, Feeders(f), s.list)
  {
    hide Total, Refs;
    var after := s.(list := Wake(g, s.list, feed, to), feedOpened := flags);
    WakeKeepsRefs(g, s, feed, to, after);
    TotalSame(g, Bandwidth, after.list, s.list);
    forall f ensures Total(g, Feeders(f), after.list) == Total(g, Feeders(f), s.list) {
      TotalSame(g, Feeders(f), after.list, s.list);
    }
  }

  lemma StoredKeepsInv(g: Config, s: State, k: nat)
    requires Inv(g, s) && k < |s.list| && 0 <= s.list[k].stream < |g.streams|
    ensures Inv(g, PacketStored(g, s, k))
  {
    hide Total, ConnOk, Refs, WaitsFor;
    WakeKeeps(g, s, g.streams[s.list[k].stream].feed, SendData, s.feedOpened);
  }

  /** After a packet is stored nobody waits for its feed, and a failed feeder wakes everybody to finish. */
  lemma NobodyWaits(g: Config, s: State, k: nat)
    requires ValidConfig(g) && k < |s.list| && ConnOk(g, s.list[k]) && s.list[k].phase == ReceiveData
    ensures forall i :: 0 <= i < |s.list| ==> !WaitsFor(g, PacketStored(g, s, k).list[i], s.list[k].stream)
    ensures forall i :: 0 <= i < |FeederFailed(g, s, k).list| ==>
      !WaitsFor(g, FeederFailed(g, s, k).list[i], s.list[k].stream)
  {
    var woken := Wake(g, s.list, s.list[k].stream, SendDataTrailer);
    var after := FeederFailed(g, s, k).list;
    forall i | 0 <= i < |after| ensures !WaitsFor(g, after[i], s.list[k].stream) {
      assert after[i] in ClearRefs(Without(woken, k), s.list[k].id);
      assert !WaitsFor(g, woken[if i < k then i else i + 1], s.list[k].stream);
    }
  }

  /** The connection waits for what the feeder at position k sends. */
  predicate Awaits(g: Config, s: State, c: Conn, k: nat)
    requires k < |s.list|
  {
    c.phase == WaitFeed && 0 <= c.stream < |g.streams| && g.streams[c.stream].feed == s.list[k].stream
  }

  /** After a stored packet every connection that waited for the feed is still listed and sends data; nothing
      else about it, no other connection and no account changes. */
  lemma StoredEffect(g: Config, s: State, k: nat)
    requires ValidConfig(g) && k < |s.list| && ConnOk(g, s.list[k]) && s.list[k].phase == ReceiveData
    ensures var after := PacketStored(g, s, k);
      && after == s.(list := after.list) && |after.list| == |s.list|
      && (forall i :: 0 <= i < |s.list| && Awaits(g, s, s.list[i], k) ==> after.list[i] == s.list[i].(phase := SendData))
      && forall i :: 0 <= i < |s.list| && !Awaits(g, s, s.list[i], k) ==> after.list[i] == s.list[i]
  {
  }

  /** After a failed feeder it is gone and its feed free; the connections that waited for it are still listed
      and finish, the others stay as they are, except that references to the feeder are cleared. */
  lemma FailedEffect(g: Config, s: State, k: nat)
    requires ValidConfig(g) && k < |s.list| && ConnOk(g, s.list[k]) && s.list[k].phase == ReceiveData
    requires |s.feedOpened| == |g.streams|
    ensures var after := FeederFailed(g, s, k); var feeder := s.list[k];
      after == s.(list := after.list, nbConnections := s.nbConnections - 1,
                  feedOpened := s.feedOpened[feeder.stream := false]) && |after.list| == |s.list| - 1
    ensures var after := FeederFailed(g, s, k); forall i :: 0 <= i < |after.list| ==>
      var was := s.list[if i < k then i else i + 1];
      after.list[i] == was.(phase := if Awaits(g, s, was, k) then SendDataTrailer else was.phase,
                            rtspC := if was.rtspC == s.list[k].id then NONE else was.rtspC)
  {
    hide Total;
    var woken := Wake(g, s.list, s.list[k].stream, SendDataTrailer);
    var rest := Without(woken, k);
    var after := FeederFailed(g, s, k);
    assert after.list == ClearRefs(rest, s.list[k].id);
    forall i | 0 <= i < |rest| ensures rest[i] == woken[if i < k then i else i + 1] {
    }
  }

  // ---------------------------------------------------------------- why a connection finishes

  predicate Finishing(list: seq<Conn>, id: int) {
    exists j :: 0 <= j < |list| && list[j].id == id && list[j].phase == SendDataTrailer
  }

  /** The event ends the data of the connection: its own input is at an end or failed while it was sending, or
      the feeder it waits for fails. */
  ghost predicate EndsData(g: Config, s: State, e: Event, id: int) {
    match e
    case Moved(k, to) => k < |s.list| && s.list[k].id == id && s.list[k].phase == SendData && to == SendDataTrailer
    case FeedFailed(k) =>
      && k < |s.list| && s.list[k].phase == ReceiveData
      && exists j :: 0 <= j < |s.list| && s.list[j].id == id && Awaits(g, s, s.list[j], k)
    case _ => false
  }

  /** Closing changes nothing about the other connections but references to the closed one. */
  lemma KeptWhenClosed(g: Config, s: State, k: nat, j: nat) returns (i: nat)
    requires k < |s.list| && j < |CloseConn(g, s, k).list|
    ensures i < |s.list| && i == if j < k then j else j + 1
    ensures CloseConn(g, s, k).list[j] ==
      s.list[i].(rtspC := if s.list[i].rtspC == s.list[k].id then NONE else s.list[i].rtspC)
  {
    i := if j < k then j else j + 1;
    assert Without(s.list, k)[j] == s.list[i];
  }

  lemma ParsedPhase(g: Config, s: State, c: Conn, r: Request)
    ensures var p := ParseHttp(g, s, c, r); p.Accepted? ==> p.conn.phase == SendHeader || p.conn.phase == ReceiveData
  {
  }

  lemma FinishingStep(g: Config, s: State, e: Event, j: nat)
    requires ValidConfig(g) && Allowed(g, s, e) && j < |Next(g, s, e).list|
    requires Next(g, s, e).list[j].phase == SendDataTrailer
    ensures var id := Next(g, s, e).list[j].id; Finishing(s.list, id) || EndsData(g, s, e, id)
  {
    hide ConnOk, ValidConfig, CloseConn, Value, ParseHttp;
    match e
    case Connect(_, _) =>
      var after := Next(g, s, e);
      assert |after.list| == |s.list| + 1 ==> after.list[j] == s.list[j - 1];
    case HttpParse(k, request) =>
      ParsedPhase(g, s, s.list[k], request);
      if ParseHttp(g, s, s.list[k], request).Rejected? {
        var i := KeptWhenClosed(g, s, k, j);
        assert Finishing(s.list, s.list[i].id);
      }
    case Moved(k, to) => MoveFinishes(g, s, k, to, j);
    case Closed(k) =>
      var i := KeptWhenClosed(g, s, k, j);
      assert Finishing(s.list, s.list[i].id);
    case RtpOpened(_, _, _) =>
      var after := Next(g, s, e);
      assert |after.list| == |s.list| + 1 ==> after.list[j] == s.list[j - 1];
    case Attached(k, _) =>
    case Stored(k) => StreamOfFeeder(g, s.list[k]);
    case FeedFailed(k) => FailureFinishes(g, s, k, j);
  }

  lemma MoveFinishes(g: Config, s: State, k: nat, to: Phase, j: nat)
    requires Allowed(g, s, Moved(k, to)) && j < |s.list| && Next(g, s, Moved(k, to)).list[j].phase == SendDataTrailer
    ensures Finishing(s.list, s.list[j].id) || EndsData(g, s, Moved(k, to), s.list[j].id)
  {
  }

  lemma FailureFinishes(g: Config, s: State, k: nat, j: nat)
    requires ValidConfig(g) && Allowed(g, s, FeedFailed(k)) && j < |FeederFailed(g, s, k).list|
    requires FeederFailed(g, s, k).list[j].phase == SendDataTrailer
    ensures var id := FeederFailed(g, s, k).list[j].id; Finishing(s.list, id) || EndsData(g, s, FeedFailed(k), id)
  {
    hide CloseConn;
    var feed := g.streams[s.list[k].stream].feed;
    var woken := s.(feedOpened := ReleaseFeed(s.feedOpened, s.list[k]), list := Wake(g, s.list, feed, SendDataTrailer));
    var i := KeptWhenClosed(g, woken, k, j);
    assert s.list[i].phase == SendDataTrailer || Awaits(g, s, s.list[i], k);
  }

  lemma StreamOfFeeder(g: Config, c: Conn)
    requires ConnOk(g, c) && c.phase == ReceiveData
    ensures 0 <= c.stream < |g.streams|
  {
  }

  lemma FeedFailedKeepsInv(g: Config, s: State, k: nat)
    requires Inv(g, s) && k < |s.list| && s.list[k].phase == ReceiveData && ConnOk(g, s.list[k])
    ensures Inv(g, FeederFailed(g, s, k))
  {
    hide Total, Refs, Value, CloseConn;
    var c := s.list[k];
    var flags := ReleaseFeed(s.feedOpened, c);
    var feed := g.streams[c.stream].feed;
    WakeKeeps(g, s, feed, SendDataTrailer, flags);
    var woken := s.(feedOpened := flags, list := Wake(g, s.list, feed, SendDataTrailer));
    assert woken.list[k] == c;
    FeederCounts(g, s.list, k, c.stream);
    forall f | 0 <= f < |flags| ensures
      Total(g, Feeders(f), woken.list) == if flags[f] || (c.phase == ReceiveData && c.stream == f) then 1 else 0
    {
    }
    CloseKeepsSums(g, woken, k);
    CloseKeepsLists(g, woken, k);
  }

  lemma StepKeepsInv(g: Config, s: State, e: Event)
    requires Inv(g, s) && ValidConfig(g) && Allowed(g, s, e)
    ensures Inv(g, Next(g, s, e))
  {
    hide Inv, ValidConfig, ConnOk, MayMove;
    match e
    case Connect(rtsp, ok) => AcceptKeepsInv(g, s, rtsp, ok);
    case HttpParse(k, request) => HttpParseKeepsInv(g, s, k, request);
    case Moved(k, to) => MovedKeepsInv(g, s, k, to);
    case Closed(k) => CloseKeepsInv(g, s, k);
    case RtpOpened(stream, session, ok) => RtpNewKeepsInv(g, s, stream, session, ok);
    case Attached(k, control) => AttachedKeepsInv(g, s, k, control);
    case Stored(k) => assert ConnOk(g, s.list[k]); StreamOfFeeder(g, s.list[k]); StoredKeepsInv(g, s, k);
    case FeedFailed(k) => FeedFailedKeepsInv(g, s, k);
  }

  // ---------------------------------------------------------------- whole runs

  function Empty(g: Config): State { State([], 0, 0, seq(|g.streams|, _ => false), 0) }

  ghost predicate Run(g: Config, states: seq<State>, events: seq<Event>) {
    && |states| == |events| + 1 && states[0] == Empty(g)
    && forall i :: 0 <= i < |events| ==> Allowed(g, states[i], events[i]) && states[i + 1] == Next(g, states[i], events[i])
  }

  lemma {:induction false} RunKeepsInv(g: Config, states: seq<State>, events: seq<Event>)
    requires Run(g, states, events) && ValidConfig(g) && g.maxConnections >= 0
    ensures Inv(g, states[|events|])
  {
    hide Allowed, Next, Inv, ValidConfig;
    if events == [] {
      assert Inv(g, Empty(g)) by { EmptyInv(g); }
    } else {
      var n := |events| - 1;
      RunKeepsInv(g, states[..n + 1], events[..n]);
      StepKeepsInv(g, states[n], events[n]);
    }
  }

  lemma EmptyInv(g: Config)
    requires g.maxConnections >= 0
    ensures Inv(g, Empty(g))
  {
  }

  /** The connection has been finishing since event i, which ended its data. */
  ghost predicate FinishesSince(g: Config, states: seq<State>, events: seq<Event>, id: int, i: nat)
    requires |states| == |events| + 1
  {
    && i < |events| && EndsData(g, states[i], events[i], id)
    && forall m :: i < m <= |events| ==> Finishing(states[m].list, id)
  }

  /** In every run a listed connection finishes only because its own data came to an end or failed, or the feeder
      it was waiting for did; and from then on it did nothing else. */
  lemma {:induction false} FinishesForAReason(g: Config, states: seq<State>, events: seq<Event>, id: int)
    requires Run(g, states, events) && ValidConfig(g) && Finishing(states[|events|].list, id)
    ensures exists i :: FinishesSince(g, states, events, id, i)
  {
    hide Allowed, Next, ValidConfig, EndsData, Finishing;
    if events == [] {
      NobodyFinishes(id);
      assert false;
    } else {
      var n := |events| - 1;
      var j := FinishingAt(states[n + 1].list, id);
      FinishingStep(g, states[n], events[n], j);
      if EndsData(g, states[n], events[n], id) {
        assert FinishesSince(g, states, events, id, n);
      } else {
        FinishesForAReason(g, states[..n + 1], events[..n], id);
        var i: nat :| FinishesSince(g, states[..n + 1], events[..n], id, i);
        FinishesStill(g, states, events, id, i);
      }
    }
  }

  lemma FinishesStill(g: Config, states: seq<State>, events: seq<Event>, id: int, i: nat)
    requires |states| == |events| + 1 && events != [] && Finishing(states[|events|].list, id)
    requires FinishesSince(g, states[..|events|], events[..|events| - 1], id, i)
    ensures FinishesSince(g, states, events, id, i)
  {
    hide EndsData, Finishing;
    forall m | i < m <= |events| ensures Finishing(states[m].list, id) {
      if m < |events| { assert states[..|events|][m] == states[m]; }
    }
  }

  lemma NobodyFinishes(id: int)
    ensures !Finishing([], id)
  {
  }

  lemma FinishingAt(list: seq<Conn>, id: int) returns (j: nat)
    requires Finishing(list, id)
    ensures j < |list| && list[j].id == id && list[j].phase == SendDataTrailer
  {
    j :| j < |list| && list[j].id == id && list[j].phase == SendDataTrailer;
  }

  ghost predicate ExactlyOneFeeder(list: seq<Conn>, f: int) {
    exists k :: 0 <= k < |list| && Feeds(list[k], f) && forall j :: 0 <= j < |list| && Feeds(list[j], f) ==> j == k
  }

  lemma OneFeeder(g: Config, list: seq<Conn>, f: int)
    ensures Total(g, Feeders(f), list) == 0 ==> forall k :: 0 <= k < |list| ==> !Feeds(list[k], f)
    ensures Total(g, Feeders(f), list) == 1 ==> ExactlyOneFeeder(list, f)
  {
    forall k | 0 <= k < |list| && Feeds(list[k], f) ensures Total(g, Feeders(f), list) >= 1 {
      FeederCounts(g, list, k, f);
    }
    if Total(g, Feeders(f), list) == 1 {
      var k := SomeFeeder(g, list, f);
      forall j | 0 <= j < |list| && Feeds(list[j], f) ensures j == k {
        TwoFeeders(g, list, k, j, f);
      }
    }
  }

  lemma TwoFeeders(g: Config, list: seq<Conn>, k: nat, j: nat, f: int)
    requires k < |list| && j < |list| && Feeds(list[k], f) && Feeds(list[j], f)
    ensures j != k ==> Total(g, Feeders(f), list) >= 2
  {
    if j != k {
      TotalWithout(g, Feeders(f), list, k);
      var j1 := if j < k then j else j - 1;
      assert Without(list, k)[j1] == list[j];
      FeederCounts(g, Without(list, k), j1, f);
    }
  }

  lemma {:induction false} SomeFeeder(g: Config, list: seq<Conn>, f: int) returns (k: nat)
    requires Total(g, Feeders(f), list) >= 1
    ensures k < |list| && Feeds(list[k], f)
  {
    if Feeds(list[0], f) { k := 0; }
    else {
      k := SomeFeeder(g, list[1..], f);
      k := k + 1;
    }
  }

  /** At every event boundary: the counter is the list length and within the limit, the bandwidth is the sum
      over the listed connections, no reference dangles, and a feed is open exactly when one listed
      connection feeds it. */
  lemma ServerAccounting(g: Config, states: seq<State>, events: seq<Event>)
    requires Run(g, states, events) && ValidConfig(g) && g.maxConnections >= 0
    ensures var s := states[|events|];
      && s.nbConnections == |s.list| <= g.maxConnections
      && s.bandwidth == Total(g, Bandwidth, s.list)
      && (forall i :: 0 <= i < |s.list| && s.list[i].rtspC != NONE ==> HasId(s.list, s.list[i].rtspC))
      && |s.feedOpened| == |g.streams|
      && forall f :: 0 <= f < |g.streams| ==> s.feedOpened[f] == ExactlyOneFeeder(s.list, f)
    ensures var s := states[|events|];
      forall f, k :: 0 <= f < |g.streams| && 0 <= k < |s.list| && Feeds(s.list[k], f) ==> s.feedOpened[f]
  {
    hide Total, Next, Allowed, ConnOk, HasId, ValidConfig;
    RunKeepsInv(g, states, events);
    var s := states[|events|];
    forall f | 0 <= f < |g.streams|
      ensures s.feedOpened[f] == ExactlyOneFeeder(s.list, f)
      ensures forall k :: 0 <= k < |s.list| && Feeds(s.list[k], f) ==> s.feedOpened[f]
    {
      OneFeeder(g, s.list, f);
    }
  }

  // ---------------------------------------------------------------- the server as the handlers update it

  class Server {
    const config: Config
    var httpContexts: seq<Conn>
    var nbConnections: int
    var currentBandwidth: int
    var feedOpened: seq<bool>
    var nextId: int

    function View(): State
      reads this
    {
      State(httpContexts, nbConnections, currentBandwidth, feedOpened, nextId)
    }

    constructor (config: Config)
      ensures this.config == config && View() == Empty(config)
    {
      this.config := config;
      httpContexts, nbConnections, currentBandwidth, nextId := [], 0, 0, 0;
      feedOpened := seq(|config.streams|, _ => false);
    }

    method NewConnection(rtsp: bool, ok: bool)
      modifies this
      ensures View() == Accept(config, old(View()), rtsp, ok)
    {
      if nbConnections >= config.maxConnections { return; }
      if !ok { return; }
      var c := Conn(nextId, if rtsp then RtspWaitRequest else HttpWaitRequest, false, NONE, false, NONE, 0);
      nextId := nextId + 1;
      httpContexts := [c] + httpContexts;
      nbConnections := nbConnections + 1;
    }

    method RtpNewConnection(stream: nat, session: int, ok: bool)
      requires stream < |config.streams|
      modifies this
      ensures View() == RtpNew(config, old(View()), stream, session, ok)
    {
      if nbConnections >= config.maxConnections { return; }
      if !ok { return; }
      var c := Conn(nextId, Ready, false, stream, false, NONE, session);
      nextId := nextId + 1;
      nbConnections := nbConnections + 1;
      currentBandwidth := currentBandwidth + config.streams[stream].bandwidth;
      httpContexts := [c] + httpContexts;
    }

    /** close_connection: the walk that unlinks the context, the walk that clears references, the accounts. */
    method CloseConnection(k: nat)
      requires k < |httpContexts| && Refs(View()) && |feedOpened| == |config.streams|
      modifies this
      ensures View() == CloseConn(config, old(View()), k)
    {
      var c := httpContexts[k];
      Unlink(k);
      ClearReferences(c.id);
      if 0 <= c.stream < |config.streams| && !c.post && config.streams[c.stream].kind == Live {
        currentBandwidth := currentBandwidth - config.streams[c.stream].bandwidth;
      }
      if c.phase == ReceiveData && 0 <= c.stream < |feedOpened| { feedOpened := feedOpened[c.stream := false]; }
      nbConnections := nbConnections - 1;
    }

    method Unlink(k: nat)
      requires k < |httpContexts| && Refs(View())
      modifies this`httpContexts
      ensures httpContexts == Without(old(httpContexts), k)
    {
      var c := httpContexts[k];
      var kept := [];
      for i := 0 to |httpContexts|
        invariant kept == if i <= k then httpContexts[..i] else httpContexts[..k] + httpContexts[k + 1..i]
      {
        if httpContexts[i].id != c.id { kept := kept + [httpContexts[i]]; }
      }
      httpContexts := kept;
    }

    method ClearReferences(id: int)
      modifies this`httpContexts
      ensures httpContexts == ClearRefs(old(httpContexts), id)
    {
      for i := 0 to |httpContexts|
        invariant |httpContexts| == |old(httpContexts)|
        invariant forall j :: i <= j < |httpContexts| ==> httpContexts[j] == old(httpContexts)[j]
        invariant forall j :: 0 <= j < i ==> httpContexts[j] == ClearRefs(old(httpContexts), id)[j]
      {
        if httpContexts[i].rtspC == id { httpContexts := httpContexts[i := httpContexts[i].(rtspC := NONE)]; }
      }
    }

    method WakeWaiting(feed: int, to: Phase)
      modifies this`httpContexts
      ensures httpContexts == Wake(config, old(httpContexts), feed, to)
    {
      for i := 0 to |httpContexts|
        invariant |httpContexts| == |old(httpContexts)|
        invariant forall j :: i <= j < |httpContexts| ==> httpContexts[j] == old(httpContexts)[j]
        invariant forall j :: 0 <= j < i ==> httpContexts[j] == Wake(config, old(httpContexts), feed, to)[j]
      {
        var c1 := httpContexts[i];
        if c1.phase == WaitFeed && 0 <= c1.stream < |config.streams| && config.streams[c1.stream].feed == feed {
          httpContexts := httpContexts[i := c1.(phase := to)];
        }
      }
    }

    /** The end of http_receive_data: a full packet was stored, or the fail path and the close it causes. */
    method ReceiveOutcome(k: nat, stored: bool)
      requires k < |httpContexts| && Inv(config, View()) && httpContexts[k].phase == ReceiveData
      modifies this
      ensures View() == if stored then PacketStored(config, old(View()), k) else FeederFailed(config, old(View()), k)
    {
      var c := httpContexts[k];
      assert ConnOk(config, c);
      var feed := config.streams[c.stream].feed;
      if stored {
        WakeWaiting(feed, SendData);
      } else {
        feedOpened := feedOpened[c.stream := false];
        WakeKeeps(config, View(), feed, SendDataTrailer, feedOpened);
        WakeWaiting(feed, SendDataTrailer);
        CloseConnection(k);
      }
    }

    /** http_parse_request on the connection at position k. */
    method ParseRequest(k: nat, r: Request)
      requires k < |httpContexts| && Inv(config, View())
      modifies this
      ensures View() == HttpRequest(config, old(View()), k, r)
    {
      hide Total;
      if !r.wellFormed { CloseConnection(k); return; }
      var c := httpContexts[k].(post := r.post, phase := SendHeader, httpError := true);
      if 0 <= r.stream < |config.streams| {
        var stream := config.streams[r.stream];
        c := c.(stream := r.stream);
        if stream.kind != Redirect {
          if !c.post && stream.kind == Live { currentBandwidth := currentBandwidth + stream.bandwidth; }
          var refused := feedOpened[r.stream] || (!c.post && config.maxBandwidth < currentBandwidth) || r.redirected;
          if !refused && c.post {
            if !stream.isFeed {
              c := c.(stream := NONE);
            } else if !stream.readonly && r.feedFileOk {
              feedOpened := feedOpened[r.stream := true];
              c := c.(httpError := false, phase := ReceiveData);
            }
          } else if !refused && stream.kind != Status && r.inputOk {
            c := c.(httpError := false);
          }
        }
      }
      httpContexts := httpContexts[k := c];
    }
  }
}
