/** The flush-marker protocol of lavc/ffplay.c around one packet queue.

    Three threads move: the read thread (reads packets, and on a seek flushes the queue and then puts the
    marker, in two critical sections), the decoding thread (gets packets, flushes its decoder when it meets
    a marker), and the thread that opens and closes the stream.  Epoch e is the time after the e-th seek.

    The rest is history: `current` is the epoch of the packets decoded since the decoder was last flushed or
    opened, `mixed` records that packets of two epochs were decoded without a flush between them; `flushedAt`
    is the number of seeks done at the last flush or opening, and `unflushed` records that a packet was
    decoded though neither had happened since its seek. */
module SeekEpochs {
  import opened PacketQueue

  datatype ReadThread = RRun | RCheck | RFlush | RPutMarker

  datatype Decoder = DGet | DMustFlush | DDecode(packet: Packet) | DGone

  /** stream_component_open and stream_component_close. */
  datatype Control = KClosed | KCodec | KOpening | KStarted | KOpen | KAborting | KJoined | KFlushed

  const NONE := -1

  datatype State = State(
    queue: Queue, reader: ReadThread, decoder: Decoder, control: Control, seeks: nat,
    current: int, mixed: bool, flushedAt: nat, unflushed: bool)

  datatype Label =
    | Seek | Read(bytes: nat, ok: bool) | ReaderGo(ok: bool)   // read thread; ok: list node allocated
    | DecoderGo                                                // decoding thread
    | ControlGo(ok: bool)                                      // opening and closing

  const INIT := State(EMPTY, RRun, DGone, KClosed, 0, NONE, false, 0, false)

  /** video_stream >= 0 */
  predicate Registered(k: Control) { !k.KClosed? && !k.KCodec? }

  function ReaderStep(s: State, l: Label): State {
    match s.reader
    case RRun =>
      if l.Seek? then s.(seeks := s.seeks + 1, reader := RCheck)
      else if l.Read? then s.(queue := Put(s.queue, Data(s.seeks, l.bytes), l.ok).0)
      else s
    case RCheck => if l.ReaderGo? then s.(reader := if Registered(s.control) then RFlush else RRun) else s
    case RFlush => if l.ReaderGo? then s.(queue := Flush(s.queue), reader := RPutMarker) else s
    case RPutMarker => if l.ReaderGo? then s.(queue := Put(s.queue, Marker, l.ok).0, reader := RRun) else s
  }

  function DecoderStep(s: State): State {
    match s.decoder
    case DGet =>
      var (q, r) := Get(s.queue, true);
      (match r
       case Aborted => s.(decoder := DGone)
       case Got(p) => s.(queue := q, decoder := if p.Marker? then DMustFlush else DDecode(p))
       case _ => s)
    case DMustFlush => s.(flushedAt := s.seeks, current := NONE, decoder := DGet)
    case DDecode(p) => Decode(s, p)
    case DGone => s
  }

  function Decode(s: State, p: Packet): State {
    if p.Marker? then s.(decoder := DGet)
    else
      s.(mixed := s.mixed || (s.current != NONE && s.current != p.epoch), current := p.epoch,
         unflushed := s.unflushed || p.epoch > s.flushedAt, decoder := DGet)
  }

  function ControlStep(s: State, ok: bool): State {
    match s.control
    case KClosed => s.(control := KCodec, flushedAt := s.seeks, current := NONE)
    case KCodec => s.(control := KOpening)
    case KOpening => s.(queue := Start(s.queue, ok), control := KStarted)
    case KStarted => s.(decoder := DGet, control := KOpen)
    case KOpen => s.(queue := Abort(s.queue), control := KAborting)
    case KAborting => if s.decoder.DGone? || s.decoder.DGet? then s.(decoder := DGone, control := KJoined) else s
    case KJoined => s.(queue := Flush(s.queue), control := KFlushed)
    case KFlushed => s.(control := KClosed)
  }

  function Step(s: State, l: Label): State {
    match l
    case DecoderGo => DecoderStep(s)
    case ControlGo(ok) => ControlStep(s, ok)
    case _ => ReaderStep(s, l)
  }

  /** This step is a marker put that finds the queue open for packets but cannot allocate its node. */
  predicate LosesMarker(s: State, l: Label) {
    || (s.reader.RPutMarker? && l == ReaderGo(false) && !s.queue.aborted)
    || (s.control.KOpening? && l == ControlGo(false))
  }

  // ---------------------------------------------------------------- what the threads do to the queue

  /** The packet-queue operation that a step makes, if any: one put for a packet read; after a seek on a
      registered stream a flush and then the marker; a blocking get by the decoder; start, abort and the last
      flush by the thread that opens and closes. */
  function OpOf(s: State, l: Label): seq<Op> {
    match l
    case Read(bytes, ok) => if s.reader.RRun? then [PutOp(Data(s.seeks, bytes), ok)] else []
    case ReaderGo(ok) =>
      if s.reader.RFlush? then [FlushOp] else if s.reader.RPutMarker? then [PutOp(Marker, ok)] else []
    case DecoderGo => if s.decoder.DGet? then [GetOp(true)] else []
    case ControlGo(ok) =>
      if s.control.KOpening? then [StartOp(ok)] else if s.control.KOpen? then [AbortOp]
      else if s.control.KJoined? then [FlushOp] else []
    case Seek => []
  }

  function OpsOf(s: State, labels: seq<Label>): seq<Op>
    decreases |labels|
  {
    if labels == [] then [] else OpOf(s, labels[0]) + OpsOf(Step(s, labels[0]), labels[1..])
  }

  lemma StepIsOp(s: State, l: Label)
    ensures var q := Step(s, l).queue; q == if OpOf(s, l) == [] then s.queue else Perform(s.queue, OpOf(s, l)[0])
    ensures |OpOf(s, l)| <= 1
  {
  }

  lemma RunNothing(s: State)
    ensures Run(s, []) == s && OpsOf(s, []) == []
  {
  }

  lemma RunFirst(s: State, labels: seq<Label>)
    requires labels != []
    ensures Run(s, labels) == Run(Step(s, labels[0]), labels[1..])
    ensures OpsOf(s, labels) == OpOf(s, labels[0]) + OpsOf(Step(s, labels[0]), labels[1..])
  {
  }

  lemma StepAppendsOp(s: State, before: seq<Op>, l: Label)
    requires s.queue == PacketQueue.After(before)
    ensures Step(s, l).queue == PacketQueue.After(before + OpOf(s, l))
  {
    hide Perform, Step, OpOf;
    var op := OpOf(s, l);
    StepIsOp(s, l);
    if op == [] {
      assert before + op == before;
    } else {
      assert op == [op[0]] && (before + op)[..|before|] == before;
    }
  }

  /** The queue of every run is what those operations make of a new one; PacketQueue.QueueIsLog says what that is. */
  lemma {:induction false} QueueFollowsOps(s: State, before: seq<Op>, labels: seq<Label>)
    requires s.queue == PacketQueue.After(before)
    ensures Run(s, labels).queue == PacketQueue.After(before + OpsOf(s, labels))
    decreases |labels|
  {
    hide *;
    if labels == [] {
      RunNothing(s);
      assert before + [] == before;
    } else {
      var op, next := OpOf(s, labels[0]), Step(s, labels[0]);
      RunFirst(s, labels);
      StepAppendsOp(s, before, labels[0]);
      QueueFollowsOps(next, before + op, labels[1..]);
      assert before + op + OpsOf(next, labels[1..]) == before + (op + OpsOf(next, labels[1..]));
    }
  }

  /** A seek that the other threads do not interrupt: a registered stream is left with nothing but the marker, or
      with nothing at all when it is stopped; a stream that is closed or only has its codec open is untouched. */
  lemma SeekAlone(s: State, ok: bool)
    requires s.reader.RRun? && (ok || s.queue.aborted)
    ensures s.control.KClosed? || s.control.KCodec? ==>
      Run(s, [Seek, ReaderGo(ok)]) == s.(seeks := s.seeks + 1)
    ensures !s.control.KClosed? && !s.control.KCodec? ==>
      Run(s, [Seek, ReaderGo(ok), ReaderGo(ok), ReaderGo(ok)]) ==
        s.(seeks := s.seeks + 1, queue := s.queue.(items := if s.queue.aborted then [] else [Marker]))
  {
    var labels := [Seek, ReaderGo(ok), ReaderGo(ok), ReaderGo(ok)];
    assert labels[1..] == [ReaderGo(ok), ReaderGo(ok), ReaderGo(ok)];
    assert labels[1..][1..] == [ReaderGo(ok), ReaderGo(ok)] && labels[1..][1..][1..] == [ReaderGo(ok)];
    assert [Seek, ReaderGo(ok)][1..] == [ReaderGo(ok)] && [ReaderGo(ok)][1..] == [];
    var s1 := Step(s, Seek);
    var s2 := Step(s1, ReaderGo(ok));
    var s3 := Step(s2, ReaderGo(ok));
    var s4 := Step(s3, ReaderGo(ok));
    assert Run(s, [Seek, ReaderGo(ok)]) == Run(s1, [ReaderGo(ok)]) == Run(s2, []) == s2;
    assert Run(s, labels) == Run(s1, labels[1..]) == Run(s2, [ReaderGo(ok), ReaderGo(ok)]) == Run(s3, [ReaderGo(ok)]);
    assert Run(s3, [ReaderGo(ok)]) == Run(s4, []) == s4;
  }

  // ---------------------------------------------------------------- the structure of a state

  ghost predicate Live(s: State) { s.control.KStarted? || s.control.KOpen? }

  predicate NotRunning(k: Control) {
    k.KClosed? || k.KCodec? || k.KOpening? || k.KStarted? || k.KJoined? || k.KFlushed?
  }

  ghost predicate Structure(s: State) {
    && s.flushedAt <= s.seeks
    && (s.queue.aborted <==> !Live(s))
    && (s.control.KOpen? ==> !s.decoder.DGone?)
    && (s.decoder.DDecode? ==> s.decoder.packet.Data?)
    && (NotRunning(s.control) ==> s.decoder.DGone?)
    && (s.control.KCodec? || s.control.KOpening? || s.control.KStarted? ==> s.current == NONE)
    && (NotRunning(s.control) && !Live(s) && !s.control.KJoined? ==> s.queue.items == [])
    && (s.reader.RPutMarker? ==> AllMarkers(s.queue.items))
  }

  predicate AllMarkers(items: seq<Packet>) { forall i :: 0 <= i < |items| ==> items[i].Marker? }

  lemma StepKeepsStructure(s: State, l: Label)
    requires Structure(s)
    ensures Structure(Step(s, l))
  {
  }

  // ---------------------------------------------------------------- epochs between two flushes

  /** Each packet has the epoch of the one decoded before it, unless a flush lies between; c is the epoch
      before the first packet, or NONE after a flush. */
  predicate Uniform(c: int, items: seq<Packet>)
    decreases items
  {
    items == [] ||
    match items[0]
    case Marker => Uniform(NONE, items[1..])
    case Data(e, _) => (c == NONE || c == e) && Uniform(e, items[1..])
  }

  /** The epoch of the decoder's state after it has worked through the packets. */
  function After(c: int, items: seq<Packet>): int
    decreases items
  {
    if items == [] then c
    else After(if items[0].Marker? then NONE else items[0].epoch, items[1..])
  }

  /** The epoch of the decoder's state when it gets to the first queued packet. */
  function Context(s: State): int {
    match s.decoder
    case DMustFlush => NONE
    case DDecode(p) => if p.Data? then p.epoch else s.current
    case _ => s.current
  }

  ghost predicate OneEpoch(s: State) {
    && Structure(s) && !s.mixed
    && Uniform(Context(s), s.queue.items)
    && (s.decoder.DDecode? ==> s.current == NONE || s.current == s.decoder.packet.epoch)
    && (Live(s) && s.reader.RRun? ==>
          After(Context(s), s.queue.items) == NONE || After(Context(s), s.queue.items) == s.seeks)
  }

  lemma {:induction false} UniformAppend(c: int, items: seq<Packet>, p: Packet)
    ensures After(c, items + [p]) == if p.Marker? then NONE else p.epoch
    ensures Uniform(c, items + [p]) <==>
      Uniform(c, items) && (p.Data? ==> After(c, items) == NONE || After(c, items) == p.epoch)
    decreases items
  {
    if items == [] {
      assert items + [p] == [p] && [p][1..] == [];
    } else {
      assert (items + [p])[1..] == items[1..] + [p];
      UniformAppend(if items[0].Marker? then NONE else items[0].epoch, items[1..], p);
    }
  }

  lemma {:induction false} MarkersOnly(c: int, items: seq<Packet>)
    requires AllMarkers(items)
    ensures Uniform(c, items) && After(c, items) == if items == [] then c else NONE
    decreases items
  {
    if items != [] { MarkersOnly(NONE, items[1..]); }
  }

  lemma ReaderKeepsOneEpoch(s: State, l: Label)
    requires OneEpoch(s) && !LosesMarker(s, l)
    ensures OneEpoch(ReaderStep(s, l))
  {
    hide Uniform, After;
    StepKeepsStructure(s, l);
    assert Uniform(Context(s), []) by { MarkersOnly(Context(s), []); }
    if s.reader.RRun? && l.Read? { UniformAppend(Context(s), s.queue.items, Data(s.seeks, l.bytes)); }
    if s.reader.RPutMarker? { UniformAppend(Context(s), s.queue.items, Marker); }
  }

  lemma DecoderKeepsOneEpoch(s: State)
    requires OneEpoch(s)
    ensures OneEpoch(DecoderStep(s))
  {
    StepKeepsStructure(s, DecoderGo);
  }

  lemma ControlKeepsOneEpoch(s: State, ok: bool)
    requires OneEpoch(s) && !LosesMarker(s, ControlGo(ok))
    ensures OneEpoch(ControlStep(s, ok))
  {
    hide Uniform, After;
    StepKeepsStructure(s, ControlGo(ok));
    MarkersOnly(Context(s), []);
    MarkersOnly(NONE, []);
    if s.control.KOpening? { UniformAppend(Context(s), s.queue.items, Marker); }
  }

  // ---------------------------------------------------------------- a flush after every seek

  ghost predicate MarkerBefore(items: seq<Packet>, i: int)
    requires i <= |items|
  {
    exists j :: 0 <= j < i && items[j].Marker?
  }

  /** The decoder is flushed since seek `e`, or will be before it decodes the queue's item i. */
  ghost predicate Covered(s: State, e: nat, i: int)
    requires i <= |s.queue.items|
  {
    s.flushedAt >= e || s.decoder.DMustFlush? || MarkerBefore(s.queue.items, i)
  }

  ghost predicate ItemsCovered(s: State) {
    forall i :: 0 <= i < |s.queue.items| && s.queue.items[i].Data? ==>
      s.queue.items[i].epoch <= s.seeks && Covered(s, s.queue.items[i].epoch, i)
  }

  ghost predicate Flushed(s: State) {
    && Structure(s) && !s.unflushed
    && ItemsCovered(s)
    && (s.decoder.DDecode? ==> s.decoder.packet.epoch <= s.flushedAt)
    && (Live(s) && s.reader.RRun? ==> Covered(s, s.seeks, |s.queue.items|))
  }

  lemma MarkerStays(items: seq<Packet>, i: int, more: seq<Packet>)
    requires 0 <= i <= |items|
    ensures MarkerBefore(items + more, i) == MarkerBefore(items, i)
  {
    assert forall j :: 0 <= j < i ==> (items + more)[j] == items[j];
  }

  lemma MarkerAfterPop(items: seq<Packet>, i: int)
    requires 0 < i <= |items| && items[0].Data? && MarkerBefore(items, i)
    ensures MarkerBefore(items[1..], i - 1)
  {
    var j :| 0 <= j < i && items[j].Marker?;
    assert items[1..][j - 1].Marker?;
  }

  lemma PutKeepsCovered(s: State, p: Packet)
    requires Flushed(s)
    requires p.Data? ==> p.epoch == s.seeks && Covered(s, s.seeks, |s.queue.items|)
    ensures ItemsCovered(s.(queue := s.queue.(items := s.queue.items + [p])))
  {
    var r := s.(queue := s.queue.(items := s.queue.items + [p]));
    forall i | 0 <= i < |r.queue.items| && r.queue.items[i].Data?
      ensures r.queue.items[i].epoch <= r.seeks && Covered(r, r.queue.items[i].epoch, i)
    {
      MarkerStays(s.queue.items, i, [p]);
    }
  }

  lemma ReaderKeepsFlushed(s: State, l: Label)
    requires Flushed(s) && !LosesMarker(s, l)
    ensures Flushed(ReaderStep(s, l))
  {
    StepKeepsStructure(s, l);
    var items := s.queue.items;
    if s.reader.RRun? && l.Read? && !s.queue.aborted && l.ok {
      PutKeepsCovered(s, Data(s.seeks, l.bytes));
      if MarkerBefore(items, |items|) {
        var j :| 0 <= j < |items| && items[j].Marker?;
        assert (items + [Data(s.seeks, l.bytes)])[j].Marker?;
      }
    } else if s.reader.RPutMarker? && l.ReaderGo? && !s.queue.aborted {
      PutKeepsCovered(s, Marker);
      assert (items + [Marker])[|items|].Marker?;
    }
  }

  lemma DecoderKeepsFlushed(s: State)
    requires Flushed(s)
    ensures Flushed(DecoderStep(s))
  {
    StepKeepsStructure(s, DecoderGo);
    var items := s.queue.items;
    if s.decoder.DGet? && !s.queue.aborted && items != [] && items[0].Data? {
      assert !MarkerBefore(items, 0);
      var r := DecoderStep(s);
      forall i | 0 <= i < |r.queue.items| && r.queue.items[i].Data?
        ensures r.queue.items[i].epoch <= r.seeks && Covered(r, r.queue.items[i].epoch, i)
      {
        assert r.queue.items[i] == items[i + 1];
        if MarkerBefore(items, i + 1) { MarkerAfterPop(items, i + 1); }
      }
      if MarkerBefore(items, |items|) { MarkerAfterPop(items, |items|); }
    }
  }

  lemma ControlKeepsFlushed(s: State, ok: bool)
    requires Flushed(s) && !LosesMarker(s, ControlGo(ok))
    ensures Flushed(ControlStep(s, ok))
  {
    StepKeepsStructure(s, ControlGo(ok));
    if s.control.KOpening? {
      PutKeepsCovered(s, Marker);
      assert (s.queue.items + [Marker])[|s.queue.items|].Marker?;
    }
  }

  // ---------------------------------------------------------------- all runs

  /** The two ways a packet can meet a decoder that was not flushed for it. */
  datatype Fault = MixedEpochs | NoFlushSinceSeek

  predicate Faulty(f: Fault, s: State) { if f.MixedEpochs? then s.mixed else s.unflushed }

  ghost predicate Inv(f: Fault, s: State) { if f.MixedEpochs? then OneEpoch(s) else Flushed(s) }

  function Run(s: State, labels: seq<Label>): State
    decreases |labels|
  {
    if labels == [] then s else Run(Step(s, labels[0]), labels[1..])
  }

  /** No step of the run loses a marker. */
  predicate MarkersKept(s: State, labels: seq<Label>)
    decreases |labels|
  {
    labels == [] || (!LosesMarker(s, labels[0]) && MarkersKept(Step(s, labels[0]), labels[1..]))
  }

  lemma StepKeepsInv(f: Fault, s: State, l: Label)
    requires Inv(f, s) && !LosesMarker(s, l)
    ensures Inv(f, Step(s, l))
  {
    hide OneEpoch, Flushed, ReaderStep, DecoderStep, ControlStep, LosesMarker;
    match l
    case DecoderGo => if f.MixedEpochs? { DecoderKeepsOneEpoch(s); } else { DecoderKeepsFlushed(s); }
    case ControlGo(ok) => if f.MixedEpochs? { ControlKeepsOneEpoch(s, ok); } else { ControlKeepsFlushed(s, ok); }
    case _ => if f.MixedEpochs? { ReaderKeepsOneEpoch(s, l); } else { ReaderKeepsFlushed(s, l); }
  }

  lemma {:induction false} RunKeepsInv(f: Fault, s: State, labels: seq<Label>)
    requires Inv(f, s) && MarkersKept(s, labels)
    ensures Inv(f, Run(s, labels))
    decreases |labels|
  {
    hide Inv, Step, LosesMarker;
    if labels != [] {
      StepKeepsInv(f, s, labels[0]);
      RunKeepsInv(f, Step(s, labels[0]), labels[1..]);
    }
  }

  lemma InitInv(f: Fault)
    ensures Inv(f, INIT)
  {
  }

  lemma InvIsNotFaulty(f: Fault, s: State)
    requires Inv(f, s)
    ensures !Faulty(f, s)
  {
  }

  /** Over every run that loses no marker, no two packets of different epochs are decoded without a flush
      between them, and no packet is decoded by a decoder neither flushed nor opened since the packet's seek. */
  lemma NoUnflushedDecode(labels: seq<Label>)
    requires MarkersKept(INIT, labels)
    ensures !Run(INIT, labels).mixed && !Run(INIT, labels).unflushed
  {
    forall f: Fault ensures !Faulty(f, Run(INIT, labels)) {
      InitInv(f);
      RunKeepsInv(f, INIT, labels);
      InvIsNotFaulty(f, Run(INIT, labels));
    }
    assert !Faulty(MixedEpochs, Run(INIT, labels)) && !Faulty(NoFlushSinceSeek, Run(INIT, labels));
  }

  // ---------------------------------------------------------------- a lost marker

  /** Packets of the last seek can be queued now that no flush precedes: the decoder's state, after what is
      queued, belongs to an earlier epoch; or it is not flushed since the last seek. */
  ghost predicate Exposed(f: Fault, s: State) {
    Live(s) && s.reader.RRun? &&
    if f.MixedEpochs? then After(Context(s), s.queue.items) != NONE && After(Context(s), s.queue.items) != s.seeks
    else !Covered(s, s.seeks, |s.queue.items|)
  }

  lemma AfterLostMarker(f: Fault, s: State, l: Label)
    requires Inv(f, s) && LosesMarker(s, l)
    ensures var r := Step(s, l);
      && Structure(r) && r.queue.items == s.queue.items && Live(r) && !Faulty(f, r)
      && (!Exposed(f, r) ==> Inv(f, r))
      && (Exposed(f, r) ==> r.queue.items == [])
  {
    hide Uniform, After;
    StepKeepsStructure(s, l);
    var r := Step(s, l);
    assert AllMarkers(r.queue.items);
    MarkersOnly(Context(r), r.queue.items);
    assert r.queue.items != [] && r.queue.items[0].Marker? ==> Covered(r, r.seeks, |r.queue.items|);
  }

  ghost predicate GoesWrong(f: Fault, s: State, labels: seq<Label>) {
    MarkersKept(s, labels) && Faulty(f, Run(s, labels))
  }

  lemma StepGoesWrong(f: Fault, s: State, l: Label, rest: seq<Label>)
    requires !LosesMarker(s, l) && GoesWrong(f, Step(s, l), rest)
    ensures GoesWrong(f, s, [l] + rest)
  {
    assert ([l] + rest)[1..] == rest;
  }

  /** The decoder waits with the state of another epoch, or unflushed since the last seek. */
  predicate Waiting(f: Fault, s: State) {
    s.decoder.DGet? && if f.MixedEpochs? then s.current != NONE && s.current != s.seeks else s.flushedAt < s.seeks
  }

  /** A waiting decoder gets the first packet of the epoch and decodes it unflushed. */
  lemma WaitingDecoderGoesWrong(f: Fault, s: State)
    requires !s.queue.aborted && Waiting(f, s) && s.queue.items == [Data(s.seeks, 0)]
    ensures GoesWrong(f, s, [DecoderGo] + ([DecoderGo] + []))
  {
    var s1 := Step(s, DecoderGo);
    assert GoesWrong(f, Step(s1, DecoderGo), []);
    StepGoesWrong(f, s1, DecoderGo, []);
    StepGoesWrong(f, s, DecoderGo, [DecoderGo] + []);
  }

  lemma ContinuationGoesWrong(f: Fault, s: State) returns (labels: seq<Label>)
    requires Structure(s) && Exposed(f, s) && s.queue.items == []
    ensures GoesWrong(f, s, labels)
  {
    hide GoesWrong;
    var tail := [DecoderGo] + ([DecoderGo] + []);
    if s.decoder.DDecode? {
      var s1 := Step(s, DecoderGo);
      WaitingDecoderGoesWrong(f, Step(s1, Read(0, true)));
      StepGoesWrong(f, s1, Read(0, true), tail);
      StepGoesWrong(f, s, DecoderGo, [Read(0, true)] + tail);
      labels := [DecoderGo] + ([Read(0, true)] + tail);
    } else if s.control.KStarted? {
      var s1 := Step(s, Read(0, true));
      WaitingDecoderGoesWrong(f, Step(s1, ControlGo(true)));
      StepGoesWrong(f, s1, ControlGo(true), tail);
      StepGoesWrong(f, s, Read(0, true), [ControlGo(true)] + tail);
      labels := [Read(0, true)] + ([ControlGo(true)] + tail);
    } else {
      WaitingDecoderGoesWrong(f, Step(s, Read(0, true)));
      StepGoesWrong(f, s, Read(0, true), tail);
      labels := [Read(0, true)] + tail;
    }
  }

  /** When a marker is lost, some later run decodes packets of two epochs without a flush between them
      exactly if the decoder's state, once it has worked through the queue, is left from an earlier epoch and
      no seek is under way; and likewise for a decoder not flushed since the seek. */
  lemma LostMarkerMatters(f: Fault, s: State, l: Label)
    requires Inv(f, s) && LosesMarker(s, l)
    ensures (exists labels :: GoesWrong(f, Step(s, l), labels)) <==> Exposed(f, Step(s, l))
  {
    hide Inv, Exposed, Structure, Step, LosesMarker;
    var r := Step(s, l);
    AfterLostMarker(f, s, l);
    if Exposed(f, r) {
      var labels := ContinuationGoesWrong(f, r);
    } else {
      forall labels | MarkersKept(r, labels) ensures !GoesWrong(f, r, labels) {
        RunKeepsInv(f, r, labels);
        InvIsNotFaulty(f, Run(r, labels));
      }
    }
  }

  // ---------------------------------------------------------------- and it can happen

  ghost predicate Reachable(s: State) {
    exists labels :: MarkersKept(INIT, labels) && Run(INIT, labels) == s
  }

  lemma {:induction false} RunAppend(s: State, labels: seq<Label>, l: Label)
    ensures Run(s, labels + [l]) == Step(Run(s, labels), l)
    ensures MarkersKept(s, labels + [l]) <==> MarkersKept(s, labels) && !LosesMarker(Run(s, labels), l)
    decreases |labels|
  {
    hide Step, LosesMarker;
    if labels == [] {
      assert [] + [l] == [l] && [l][1..] == [];
    } else {
      assert (labels + [l])[1..] == labels[1..] + [l] && (labels + [l])[0] == labels[0];
      RunAppend(Step(s, labels[0]), labels[1..], l);
    }
  }

  lemma ReachStep(s: State, l: Label)
    requires Reachable(s) && !LosesMarker(s, l)
    ensures Reachable(Step(s, l))
  {
    hide Step, LosesMarker, Run, MarkersKept;
    var labels :| MarkersKept(INIT, labels) && Run(INIT, labels) == s;
    RunAppend(INIT, labels, l);
  }

  /** A stream that is open, with its first marker taken from the queue and one packet behind it. */
  lemma OpenReachable()
    ensures Reachable(State(Queue([Data(0, 0)], false), RRun, DMustFlush, KOpen, 0, NONE, false, 0, false))
  {
    hide Reachable;
    assert Reachable(INIT) by { StartReachable(); }
    var s := INIT;
    ReachStep(s, ControlGo(true));
    s := Step(s, ControlGo(true));
    ReachStep(s, ControlGo(true));
    s := Step(s, ControlGo(true));
    ReachStep(s, ControlGo(true));
    s := Step(s, ControlGo(true));
    ReachStep(s, ControlGo(true));
    s := Step(s, ControlGo(true));
    assert s == State(Queue([Marker], false), RRun, DGet, KOpen, 0, NONE, false, 0, false);
    ReachStep(s, Read(0, true));
    s := Step(s, Read(0, true));
    assert s.queue.items == [Marker, Data(0, 0)];
    ReachStep(s, DecoderGo);
    assert Step(s, DecoderGo).queue.items == [Data(0, 0)];
  }

  lemma StartReachable()
    ensures Reachable(INIT)
  {
    assert Run(INIT, []) == INIT && MarkersKept(INIT, []);
  }

  /** A run without a lost marker leads to a put whose failure matters, though the decoder was flushed after
      the seek: that flush answered an older marker, and a packet of the old epoch was decoded after it. */
  lemma LostMarkerReachable() returns (s: State)
    ensures Reachable(s) && LosesMarker(s, ReaderGo(false))
    ensures Exposed(MixedEpochs, Step(s, ReaderGo(false))) && s.flushedAt == s.seeks
  {
    hide Reachable;
    OpenReachable();
    s := State(Queue([Data(0, 0)], false), RRun, DMustFlush, KOpen, 0, NONE, false, 0, false);
    ReachStep(s, Seek);
    s := Step(s, Seek);
    ReachStep(s, DecoderGo);
    s := Step(s, DecoderGo);
    ReachStep(s, DecoderGo);
    s := Step(s, DecoderGo);
    assert s == State(Queue([], false), RCheck, DDecode(Data(0, 0)), KOpen, 1, NONE, false, 1, false);
    ReachStep(s, DecoderGo);
    s := Step(s, DecoderGo);
    ReachStep(s, ReaderGo(true));
    s := Step(s, ReaderGo(true));
    ReachStep(s, ReaderGo(true));
    s := Step(s, ReaderGo(true));
    assert s == State(Queue([], false), RPutMarker, DGet, KOpen, 1, 0, false, 1, false);
  }

  /** So does a run where no flush at all happened since the seek. */
  lemma LostFlushReachable() returns (s: State)
    ensures Reachable(s) && LosesMarker(s, ReaderGo(false))
    ensures Exposed(NoFlushSinceSeek, Step(s, ReaderGo(false)))
  {
    hide Reachable;
    OpenReachable();
    s := State(Queue([Data(0, 0)], false), RRun, DMustFlush, KOpen, 0, NONE, false, 0, false);
    ReachStep(s, DecoderGo);
    s := Step(s, DecoderGo);
    ReachStep(s, Seek);
    s := Step(s, Seek);
    ReachStep(s, ReaderGo(true));
    s := Step(s, ReaderGo(true));
    ReachStep(s, ReaderGo(true));
    s := Step(s, ReaderGo(true));
    assert s == State(Queue([], false), RPutMarker, DGet, KOpen, 1, NONE, false, 0, false);
  }
}
