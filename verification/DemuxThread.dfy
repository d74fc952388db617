/** The per-file demux thread of lavc/ffmpeg.c, the main thread that takes its packets, and their shutdown.

    The two threads share a fifo under a mutex with one condition variable, and two flags, `finished` and
    `transcodingFinished`, that are read and written without it.  Each lock, unlock, wait, signal, fifo
    access and flag access is one step; a run is any sequence of labels. */
module DemuxThread {

  /** Packets matter only by their identity here. */
  type Packet = int

  const FIFO_SLOTS := 8

  datatype Owner = Free | ByThread | ByMain

  /** What av_read_frame returns. */
  datatype ReadResult = Frame(pkt: Packet) | Again | Failed

  /** Program counter of input_thread. */
  datatype Thread =
    | TTest                  // loop test: about to load transcoding_finished
    | TRead                  // about to call av_read_frame
    | TLock(pkt: Packet)          // about to lock
    | TCheck(pkt: Packet)         // holds the lock: is there space?
    | TWaiting(pkt: Packet)       // inside pthread_cond_wait, lock released
    | TWoken(pkt: Packet)         // woken, about to take the lock again
    | TWrite(pkt: Packet)         // holds the lock, there is space
    | TUnlock                // holds the lock, packet written
    | TFinish                // left the loop, about to set finished
    | TDone

  datatype GetResult = Got(pkt: Packet) | Eof | TryAgain

  /** Program counter of the main thread: get_input_packet_mt, then free_input_threads. */
  datatype Main =
    | MIdle
    | MGetLock
    | MGetRead               // holds the lock
    | MGetSignal(pkt: Packet)     // holds the lock, took a packet
    | MGetFlag               // holds the lock, fifo was empty, about to load finished
    | MGetUnlock(result: GetResult)
    | MFreeLock              // transcoding_finished is set
    | MDrain                 // holds the lock
    | MFreeSignal            // holds the lock, fifo empty
    | MFreeUnlock
    | MJoin
    | MDrainRest             // the thread has been joined
    | MDone

  datatype State = State(
    fifo: seq<Packet>, owner: Owner, finished: bool, transcodingFinished: bool, thread: Thread, main: Main,
    // history
    read: seq<Packet>, delivered: seq<Packet>, discarded: seq<Packet>, failed: bool, eof: bool, lateWrites: nat,
    results: seq<GetResult>)    // what the calls of get_input_packet_mt have returned

  function Init(): State {
    State([], Free, false, false, TTest, MIdle, [], [], [], false, false, 0, [])
  }

  datatype Label = ByInput(result: ReadResult) | ByCaller(shutdown: bool) | Spurious

  // ---------------------------------------------------------------- the steps

  /** Neither blocked on the lock nor waiting on the condition variable. */
  predicate ThreadCanStep(s: State) {
    match s.thread
    case TLock(_) => s.owner == Free
    case TWoken(_) => s.owner == Free
    case TWaiting(_) => false
    case TDone => false
    case _ => true
  }

  function ThreadStep(s: State, result: ReadResult): State
    requires ThreadCanStep(s)
  {
    match s.thread
    case TTest => s.(thread := if s.transcodingFinished then TFinish else TRead)
    case TRead => (
      match result
      case Frame(pkt) => s.(thread := TLock(pkt), read := s.read + [pkt])
      case Again => s.(thread := TTest)
      case Failed => s.(thread := TFinish, failed := true))
    case TLock(pkt) => s.(thread := TCheck(pkt), owner := ByThread)
    case TCheck(pkt) =>
      if |s.fifo| < FIFO_SLOTS then s.(thread := TWrite(pkt)) else s.(thread := TWaiting(pkt), owner := Free)
    case TWoken(pkt) => s.(thread := TCheck(pkt), owner := ByThread)
    case TWrite(pkt) =>
      s.(thread := TUnlock, fifo := s.fifo + [pkt],
         lateWrites := if s.transcodingFinished then s.lateWrites + 1 else s.lateWrites)
    case TUnlock => s.(thread := TTest, owner := Free)
    case TFinish => s.(thread := TDone, finished := true)
    case _ => s
  }

  /** pthread_cond_signal. */
  function Signalled(t: Thread): Thread { if t.TWaiting? then TWoken(t.pkt) else t }

  predicate MainCanStep(s: State) {
    match s.main
    case MGetLock => s.owner == Free
    case MFreeLock => s.owner == Free
    case MJoin => s.thread.TDone?
    case MDone => false
    case _ => true
  }

  /** In free_input_threads, after transcoding_finished was set. */
  predicate ShuttingDown(m: Main) {
    m.MFreeLock? || m.MDrain? || m.MFreeSignal? || m.MFreeUnlock? || m.MJoin? || m.MDrainRest? || m.MDone?
  }

  /** get_input_packet_mt, and the decision to shut down between two calls. */
  function GetStep(s: State, shutdown: bool): State {
    match s.main
    case MIdle => if shutdown then s.(main := MFreeLock, transcodingFinished := true) else s.(main := MGetLock)
    case MGetLock => s.(main := MGetRead, owner := ByMain)
    case MGetRead =>
      if s.fifo != []
      then s.(main := MGetSignal(s.fifo[0]), fifo := s.fifo[1..], delivered := s.delivered + [s.fifo[0]])
      else s.(main := MGetFlag)
    case MGetSignal(pkt) => s.(main := MGetUnlock(Got(pkt)), thread := Signalled(s.thread))
    case MGetFlag => s.(main := MGetUnlock(if s.finished then Eof else TryAgain))
    case MGetUnlock(result) =>
      s.(main := MIdle, owner := Free, eof := s.eof || result.Eof?, results := s.results + [result])
    case _ => s
  }

  /** free_input_threads. */
  function FreeStep(s: State): State {
    match s.main
    case MFreeLock => s.(main := MDrain, owner := ByMain)
    case MDrain =>
      if s.fifo != [] then s.(fifo := s.fifo[1..], discarded := s.discarded + [s.fifo[0]])
      else s.(main := MFreeSignal)
    case MFreeSignal => s.(main := MFreeUnlock, thread := Signalled(s.thread))
    case MFreeUnlock => s.(main := MJoin, owner := Free)
    case MJoin => s.(main := MDrainRest)
    case MDrainRest =>
      if s.fifo != [] then s.(fifo := s.fifo[1..], discarded := s.discarded + [s.fifo[0]]) else s.(main := MDone)
    case _ => s
  }

  function MainStep(s: State, shutdown: bool): State
    requires MainCanStep(s)
  {
    if ShuttingDown(s.main) then FreeStep(s) else GetStep(s, shutdown)
  }

  predicate Enabled(s: State, l: Label) {
    match l
    case ByInput(_) => ThreadCanStep(s)
    case ByCaller(_) => MainCanStep(s)
    case Spurious => s.thread.TWaiting?
  }

  function Step(s: State, l: Label): State
    requires Enabled(s, l)
  {
    match l
    case ByInput(result) => ThreadStep(s, result)
    case ByCaller(shutdown) => MainStep(s, shutdown)
    case Spurious => s.(thread := TWoken(s.thread.pkt))
  }

  // ---------------------------------------------------------------- the invariant

  predicate ThreadHolds(t: Thread) { t.TCheck? || t.TWrite? || t.TUnlock? }

  predicate MainHolds(m: Main) {
    m.MGetRead? || m.MGetSignal? || m.MGetFlag? || m.MGetUnlock? || m.MDrain? || m.MFreeSignal? || m.MFreeUnlock?
  }

  predicate Drained(m: Main) { m.MFreeUnlock? || m.MJoin? || m.MDrainRest? || m.MDone? }

  /** The thread will not write another packet. */
  predicate NoMoreWrites(t: Thread) { t.TUnlock? || t.TTest? || t.TFinish? || t.TDone? }

  predicate HasPacket(t: Thread) { t.TLock? || t.TCheck? || t.TWaiting? || t.TWoken? || t.TWrite? }

  /** The packet the thread has read and not yet queued. */
  function Pending(t: Thread): seq<Packet> { if HasPacket(t) then [t.pkt] else [] }

  predicate Locking(s: State) {
    && (s.owner == ByThread <==> ThreadHolds(s.thread))
    && (s.owner == ByMain <==> MainHolds(s.main))
    && |s.fifo| <= FIFO_SLOTS
    && (s.thread.TWrite? ==> |s.fifo| < FIFO_SLOTS)
  }

  /** No packet is lost, duplicated or reordered. */
  predicate Conserved(s: State) {
    && s.read == s.delivered + s.discarded + s.fifo + Pending(s.thread)
    && (!ShuttingDown(s.main) ==> s.discarded == [])
  }

  predicate Flags(s: State) {
    && (s.finished <==> s.thread.TDone?)
    && (s.transcodingFinished <==> ShuttingDown(s.main))
    && (s.thread.TFinish? || s.thread.TDone? ==> s.failed || s.transcodingFinished)
    && (s.failed ==> s.thread.TFinish? || s.thread.TDone?)
  }

  /** End of file is reported only once nothing is left. */
  predicate EndOfFile(s: State) {
    && (s.main.MGetFlag? ==> s.fifo == [])
    && (s.main == MGetUnlock(Eof) ==> s.fifo == [] && s.finished)
    && (s.eof ==> s.finished && s.failed && s.delivered == s.read)
  }

  /** A waiting thread sees a full fifo until it is signalled. */
  predicate Waiting(s: State) {
    s.thread.TWaiting? ==>
      |s.fifo| == FIFO_SLOTS || s.main.MGetSignal? || s.main.MDrain? || s.main.MFreeSignal?
  }

  predicate Shutdown(s: State) {
    && s.lateWrites <= 1 && (!s.transcodingFinished ==> s.lateWrites == 0)
    && (s.lateWrites == 1 ==> NoMoreWrites(s.thread))
    && (s.main.MFreeSignal? ==> s.fifo == [])
    && (Drained(s.main) ==> |s.fifo| <= 1 && (s.fifo == [] || NoMoreWrites(s.thread)))
    && (s.main.MDrainRest? || s.main.MDone? ==> s.thread.TDone?)
    && (s.main.MDone? ==> s.fifo == [])
  }

  function PacketsIn(results: seq<GetResult>): seq<Packet> {
    if results == [] then []
    else
      var last := results[|results| - 1];
      PacketsIn(results[..|results| - 1]) + if last.Got? then [last.pkt] else []
  }

  /** The packet that the call under way has taken from the fifo. */
  function InHand(m: Main): seq<Packet> {
    match m
    case MGetSignal(pkt) => [pkt]
    case MGetUnlock(Got(pkt)) => [pkt]
    case _ => []
  }

  /** The packets delivered are those the calls returned, and the one the current call will return. */
  predicate Returned(s: State) { s.delivered == PacketsIn(s.results) + InHand(s.main) }

  predicate Inv(s: State) {
    Returned(s) && Locking(s) && Conserved(s) && Flags(s) && EndOfFile(s) && Waiting(s) && Shutdown(s)
  }

  lemma ThreadKeepsLocking(s: State, result: ReadResult)
    requires ThreadCanStep(s) && Locking(s)
    ensures Locking(ThreadStep(s, result))
  {
  }

  lemma GetKeepsLocking(s: State, shutdown: bool)
    requires MainCanStep(s) && !ShuttingDown(s.main) && Locking(s)
    ensures Locking(GetStep(s, shutdown))
  {
  }

  lemma FreeKeepsLocking(s: State)
    requires MainCanStep(s) && ShuttingDown(s.main) && Locking(s)
    ensures Locking(FreeStep(s))
  {
  }

  lemma ReadAdds(s: State, result: ReadResult)
    requires s.thread.TRead?
    ensures var after := ThreadStep(s, result); var added := if result.Frame? then [result.pkt] else [];
      && after == s.(thread := after.thread, read := s.read + added, failed := after.failed)
      && Pending(after.thread) == added
  {
    if !result.Frame? { assert s.read + [] == s.read; }
  }

  lemma OthersKeepOrder(s: State, result: ReadResult)
    requires ThreadCanStep(s) && !s.thread.TRead?
    ensures var after := ThreadStep(s, result);
      && after.fifo + Pending(after.thread) == s.fifo + Pending(s.thread)
      && after.read == s.read && after.delivered == s.delivered && after.discarded == s.discarded && after.main == s.main
  {
    if s.thread.TWrite? { assert s.fifo + [s.thread.pkt] + [] == s.fifo + [s.thread.pkt]; }
  }

  lemma ThreadKeepsConserved(s: State, result: ReadResult)
    requires ThreadCanStep(s) && Conserved(s)
    ensures Conserved(ThreadStep(s, result))
  {
    hide ThreadStep, ThreadCanStep, ShuttingDown;
    var gone := s.delivered + s.discarded;
    if s.thread.TRead? {
      ReadAdds(s, result);
      assert gone + s.fifo + [] == gone + s.fifo;
    } else {
      hide Pending;
      OthersKeepOrder(s, result);
      var after := ThreadStep(s, result);
      assert gone + (after.fifo + Pending(after.thread)) == gone + after.fifo + Pending(after.thread);
      assert gone + (s.fifo + Pending(s.thread)) == gone + s.fifo + Pending(s.thread);
    }
  }

  lemma GetTakes(s: State, shutdown: bool)
    requires !ShuttingDown(s.main)
    ensures var after := GetStep(s, shutdown); var n := if s.main.MGetRead? && s.fifo != [] then 1 else 0;
      && after.read == s.read && Pending(after.thread) == Pending(s.thread) && after.discarded == s.discarded
      && after.fifo == s.fifo[n..] && after.delivered == s.delivered + s.fifo[..n]
  {
  }

  lemma FreeTakes(s: State)
    requires ShuttingDown(s.main)
    ensures var after := FreeStep(s); var n := if (s.main.MDrain? || s.main.MDrainRest?) && s.fifo != [] then 1 else 0;
      && after.read == s.read && Pending(after.thread) == Pending(s.thread) && after.delivered == s.delivered
      && after.fifo == s.fifo[n..] && after.discarded == s.discarded + s.fifo[..n] && ShuttingDown(after.main)
  {
  }

  lemma Regroup(gone: seq<Packet>, fifo: seq<Packet>, pending: seq<Packet>, n: nat)
    requires n <= |fifo|
    ensures gone + fifo + pending == gone + fifo[..n] + fifo[n..] + pending
  {
  }

  lemma GetKeepsConserved(s: State, shutdown: bool)
    requires MainCanStep(s) && !ShuttingDown(s.main) && Conserved(s)
    ensures Conserved(GetStep(s, shutdown))
  {
    hide GetStep, MainCanStep, Pending, ShuttingDown;
    GetTakes(s, shutdown);
    var n := if s.main.MGetRead? && s.fifo != [] then 1 else 0;
    assert s.delivered + [] == s.delivered && s.delivered + s.fifo[..n] + [] == s.delivered + s.fifo[..n];
    Regroup(s.delivered, s.fifo, Pending(s.thread), n);
  }

  lemma FreeKeepsConserved(s: State)
    requires MainCanStep(s) && ShuttingDown(s.main) && Conserved(s)
    ensures Conserved(FreeStep(s))
  {
    hide FreeStep, MainCanStep, Pending, ShuttingDown;
    FreeTakes(s);
    var n := if (s.main.MDrain? || s.main.MDrainRest?) && s.fifo != [] then 1 else 0;
    Regroup(s.delivered + s.discarded, s.fifo, Pending(s.thread), n);
    assert s.delivered + s.discarded + s.fifo[..n] == s.delivered + (s.discarded + s.fifo[..n]);
  }

  lemma ThreadKeepsFlags(s: State, result: ReadResult)
    requires ThreadCanStep(s) && Flags(s)
    ensures Flags(ThreadStep(s, result))
  {
  }

  lemma GetKeepsFlags(s: State, shutdown: bool)
    requires MainCanStep(s) && !ShuttingDown(s.main) && Flags(s)
    ensures Flags(GetStep(s, shutdown))
  {
  }

  lemma FreeKeepsFlags(s: State)
    requires MainCanStep(s) && ShuttingDown(s.main) && Flags(s)
    ensures Flags(FreeStep(s))
  {
  }

  lemma ThreadKeepsEndOfFile(s: State, result: ReadResult)
    requires ThreadCanStep(s) && Locking(s) && Conserved(s) && Flags(s) && EndOfFile(s)
    ensures EndOfFile(ThreadStep(s, result))
  {
  }

  lemma GetKeepsEndOfFile(s: State, shutdown: bool)
    requires MainCanStep(s) && !ShuttingDown(s.main) && Locking(s) && Conserved(s) && Flags(s) && EndOfFile(s)
    ensures EndOfFile(GetStep(s, shutdown))
  {
  }

  lemma FreeKeepsEndOfFile(s: State)
    requires MainCanStep(s) && ShuttingDown(s.main) && Locking(s) && Conserved(s) && Flags(s) && EndOfFile(s)
    ensures EndOfFile(FreeStep(s))
  {
  }

  lemma ThreadKeepsWaiting(s: State, result: ReadResult)
    requires ThreadCanStep(s) && Locking(s) && Shutdown(s) && Waiting(s)
    ensures Waiting(ThreadStep(s, result))
  {
  }

  lemma GetKeepsWaiting(s: State, shutdown: bool)
    requires MainCanStep(s) && !ShuttingDown(s.main) && Locking(s) && Shutdown(s) && Waiting(s)
    ensures Waiting(GetStep(s, shutdown))
  {
  }

  lemma FreeKeepsWaiting(s: State)
    requires MainCanStep(s) && ShuttingDown(s.main) && Locking(s) && Shutdown(s) && Waiting(s)
    ensures Waiting(FreeStep(s))
  {
  }

  lemma ThreadKeepsShutdown(s: State, result: ReadResult)
    requires ThreadCanStep(s) && Locking(s) && Flags(s) && Shutdown(s)
    ensures Shutdown(ThreadStep(s, result))
  {
  }

  lemma GetKeepsShutdown(s: State, shutdown: bool)
    requires MainCanStep(s) && !ShuttingDown(s.main) && Locking(s) && Flags(s) && Shutdown(s)
    ensures Shutdown(GetStep(s, shutdown))
  {
  }

  lemma FreeKeepsShutdown(s: State)
    requires MainCanStep(s) && ShuttingDown(s.main) && Locking(s) && Flags(s) && Shutdown(s)
    ensures Shutdown(FreeStep(s))
  {
  }

  lemma ThreadKeepsReturned(s: State, result: ReadResult)
    requires ThreadCanStep(s) && Returned(s)
    ensures Returned(ThreadStep(s, result))
  {
    hide PacketsIn, InHand, ThreadCanStep;
  }

  lemma GetKeepsReturned(s: State, shutdown: bool)
    requires !ShuttingDown(s.main) && Returned(s)
    ensures Returned(GetStep(s, shutdown))
  {
    hide PacketsIn;
    var done := PacketsIn(s.results);
    assert done + [] == done;
    if s.main.MGetUnlock? { OneMoreResult(s.results, s.main.result); }
  }

  lemma OneMoreResult(results: seq<GetResult>, r: GetResult)
    ensures PacketsIn(results + [r]) == PacketsIn(results) + if r.Got? then [r.pkt] else []
  {
    assert (results + [r])[..|results|] == results;
  }

  lemma FreeKeepsReturned(s: State)
    requires ShuttingDown(s.main) && Returned(s)
    ensures Returned(FreeStep(s))
  {
    hide PacketsIn;
  }

  lemma ThreadKeepsInv(s: State, result: ReadResult)
    requires ThreadCanStep(s) && Inv(s)
    ensures Inv(ThreadStep(s, result))
  {
    hide ThreadCanStep, ThreadStep, Locking, Conserved, Flags, EndOfFile, Waiting, Shutdown, Returned;
    ThreadKeepsReturned(s, result);
    ThreadKeepsLocking(s, result);
    ThreadKeepsConserved(s, result);
    ThreadKeepsFlags(s, result);
    ThreadKeepsEndOfFile(s, result);
    ThreadKeepsWaiting(s, result);
    ThreadKeepsShutdown(s, result);
  }

  lemma GetKeepsInv(s: State, shutdown: bool)
    requires MainCanStep(s) && !ShuttingDown(s.main) && Inv(s)
    ensures Inv(GetStep(s, shutdown))
  {
    hide MainCanStep, ShuttingDown, GetStep, Locking, Conserved, Flags, EndOfFile, Waiting, Shutdown, Returned;
    GetKeepsReturned(s, shutdown);
    GetKeepsLocking(s, shutdown);
    GetKeepsConserved(s, shutdown);
    GetKeepsFlags(s, shutdown);
    GetKeepsEndOfFile(s, shutdown);
    GetKeepsWaiting(s, shutdown);
    GetKeepsShutdown(s, shutdown);
  }

  lemma FreeKeepsInv(s: State)
    requires MainCanStep(s) && ShuttingDown(s.main) && Inv(s)
    ensures Inv(FreeStep(s))
  {
    hide MainCanStep, ShuttingDown, FreeStep, Locking, Conserved, Flags, EndOfFile, Waiting, Shutdown, Returned;
    FreeKeepsReturned(s);
    FreeKeepsLocking(s);
    FreeKeepsConserved(s);
    FreeKeepsFlags(s);
    FreeKeepsEndOfFile(s);
    FreeKeepsWaiting(s);
    FreeKeepsShutdown(s);
  }

  lemma SpuriousKeepsInv(s: State)
    requires s.thread.TWaiting? && Inv(s)
    ensures Inv(Step(s, Spurious))
  {
  }

  /** Every step of either thread keeps the invariant. */
  lemma StepKeepsInv(s: State, l: Label)
    requires Enabled(s, l) && Inv(s)
    ensures Inv(Step(s, l))
  {
    hide ThreadCanStep, ThreadStep, MainCanStep, GetStep, FreeStep, Inv;
    match l
    case ByInput(result) => ThreadKeepsInv(s, result);
    case ByCaller(shutdown) => if ShuttingDown(s.main) { FreeKeepsInv(s); } else { GetKeepsInv(s, shutdown); }
    case Spurious => SpuriousKeepsInv(s);
  }

  // ---------------------------------------------------------------- whole runs

  ghost predicate Run(states: seq<State>, labels: seq<Label>) {
    && |states| == |labels| + 1 && states[0] == Init()
    && forall i :: 0 <= i < |labels| ==> Enabled(states[i], labels[i]) && states[i + 1] == Step(states[i], labels[i])
  }

  lemma {:induction false} RunKeepsInv(states: seq<State>, labels: seq<Label>)
    requires Run(states, labels)
    ensures Inv(states[|labels|])
  {
    hide Enabled, Step, Inv;
    if labels == [] {
      assert Inv(Init()) by { InitInv(); }
    } else {
      var n := |labels| - 1;
      RunKeepsInv(states[..n + 1], labels[..n]);
      StepKeepsInv(states[n], labels[n]);
    }
  }

  lemma InitInv()
    ensures Inv(Init())
  {
  }

  /** In every reachable state: what was delivered, that is what the calls returned, is a prefix of what was
      read, each packet once and in order; the rest, until shutdown discards it, is queued or about to be
      queued; end of file has been returned only if everything was delivered; and at most 8 packets are queued. */
  lemma PacketsExactlyOnce(states: seq<State>, labels: seq<Label>)
    requires Run(states, labels)
    ensures var s := states[|labels|];
      && s.delivered <= s.read && |s.fifo| <= FIFO_SLOTS
      && (!s.transcodingFinished ==> s.read == s.delivered + s.fifo + Pending(s.thread))
      && (s.main == MGetUnlock(Eof) || s.eof ==> s.failed && s.delivered == s.read)
      && s.lateWrites <= 1
      && (s.main.MIdle? || ShuttingDown(s.main) ==> s.delivered == PacketsIn(s.results))
  {
    RunKeepsInv(states, labels);
    EofDelivered(states[|labels|]);
    var s := states[|labels|];
    var left := s.discarded + s.fifo + Pending(s.thread);
    assert s.delivered + s.discarded + s.fifo + Pending(s.thread) == s.delivered + left;
    if !s.transcodingFinished { assert s.delivered + [] == s.delivered; }
  }

  lemma EofDelivered(s: State)
    requires Inv(s)
    ensures s.main == MGetUnlock(Eof) ==> s.failed && s.delivered == s.read
  {
    if s.main == MGetUnlock(Eof) { assert s.discarded == [] && s.fifo == [] && Pending(s.thread) == []; }
  }

  /** av_read_frame returns this result in step i of a run. */
  predicate Returns(states: seq<State>, labels: seq<Label>, i: nat, result: ReadResult)
    requires |states| == |labels| + 1
  {
    i < |labels| && states[i].thread.TRead? && labels[i] == ByInput(result)
  }

  /** The frames that av_read_frame returned in a run, in order. */
  function Frames(states: seq<State>, labels: seq<Label>): seq<Packet>
    requires |states| == |labels| + 1
    decreases labels
  {
    if labels == [] then []
    else
      var n := |labels| - 1;
      Frames(states[..n + 1], labels[..n]) +
      if states[n].thread.TRead? && labels[n].ByInput? && labels[n].result.Frame? then [labels[n].result.pkt] else []
  }

  ghost predicate ReadFailed(states: seq<State>, labels: seq<Label>)
    requires |states| == |labels| + 1
  {
    exists i :: Returns(states, labels, i, Failed)
  }

  lemma ReadFailedSplit(states: seq<State>, labels: seq<Label>)
    requires |states| == |labels| + 1 && labels != []
    ensures var n := |labels| - 1;
      ReadFailed(states, labels) <==> ReadFailed(states[..n + 1], labels[..n]) || Returns(states, labels, n, Failed)
  {
    var n := |labels| - 1;
    var states0, labels0 := states[..n + 1], labels[..n];
    forall i: nat | i < n ensures Returns(states, labels, i, Failed) <==> Returns(states0, labels0, i, Failed) {
    }
  }

  /** The thread reads on until av_read_frame fails for good or transcoding is finished: in every run its packets
      are exactly the frames returned, `failed` says that a read failed, and nothing but that or the end of
      transcoding, not even a read that has to be repeated, stops the thread. */
  lemma ReadsUntilFailure(states: seq<State>, labels: seq<Label>)
    requires Run(states, labels)
    ensures var s := states[|labels|]; s.read == Frames(states, labels)
    ensures states[|labels|].failed <==> exists i :: Returns(states, labels, i, Failed)
    ensures var s := states[|labels|];
      s.thread.TFinish? || s.thread.TDone? ==> s.transcodingFinished || exists i :: Returns(states, labels, i, Failed)
  {
    hide Inv, Enabled, Step;
    RunKeepsInv(states, labels);
    StopReason(states[|labels|]);
    ReadsAndFailures(states, labels);
  }

  lemma {:induction false} ReadsAndFailures(states: seq<State>, labels: seq<Label>)
    requires Run(states, labels)
    ensures states[|labels|].read == Frames(states, labels)
    ensures states[|labels|].failed <==> ReadFailed(states, labels)
  {
    if labels != [] {
      hide Enabled, Step, ReadFailed;
      var n := |labels| - 1;
      ReadsAndFailures(states[..n + 1], labels[..n]);
      StepReads(states[n], labels[n]);
      ReadFailedSplit(states, labels);
    }
  }

  lemma StopReason(s: State)
    requires Inv(s)
    ensures s.thread.TFinish? || s.thread.TDone? ==> s.failed || s.transcodingFinished
  {
  }

  lemma StepReads(s: State, l: Label)
    requires Enabled(s, l)
    ensures var after := Step(s, l); var returned := s.thread.TRead? && l.ByInput?;
      && after.read == s.read + (if returned && l.result.Frame? then [l.result.pkt] else [])
      && (after.failed <==> s.failed || (returned && l.result.Failed?))
  {
    hide ThreadStep, ThreadCanStep, MainStep, MainCanStep;
    assert s.read + [] == s.read;
    match l
    case ByInput(result) => ThreadReads(s, result);
    case ByCaller(shutdown) => MainReadsNothing(s, shutdown);
    case Spurious => assert s.thread.TWaiting?;
  }

  lemma ThreadReads(s: State, result: ReadResult)
    requires ThreadCanStep(s)
    ensures var after := ThreadStep(s, result);
      && after.read == (if s.thread.TRead? && result.Frame? then s.read + [result.pkt] else s.read)
      && (after.failed <==> s.failed || (s.thread.TRead? && result.Failed?))
  {
  }

  lemma MainReadsNothing(s: State, shutdown: bool)
    requires MainCanStep(s)
    ensures MainStep(s, shutdown).read == s.read && MainStep(s, shutdown).failed == s.failed
  {
    hide GetStep, FreeStep, ShuttingDown, MainCanStep;
    GetReadsNothing(s, shutdown);
    FreeReadsNothing(s);
  }

  lemma GetReadsNothing(s: State, shutdown: bool)
    ensures GetStep(s, shutdown).read == s.read && GetStep(s, shutdown).failed == s.failed
  {
  }

  lemma FreeReadsNothing(s: State)
    ensures FreeStep(s).read == s.read && FreeStep(s).failed == s.failed
  {
  }

  // ---------------------------------------------------------------- shutdown

  /** Remaining steps of the main thread, once shutdown has begun. */
  function MainRank(s: State): nat {
    match s.main
    case MFreeLock => 40
    case MDrain => 20 + |s.fifo|
    case MFreeSignal => 19
    case MFreeUnlock => 18
    case MJoin => 17
    case MDrainRest => 1 + |s.fifo|
    case _ => 0
  }

  /** Bound on the steps of the demux thread before it waits or exits, once transcoding_finished is set. */
  function ThreadRank(t: Thread): nat {
    match t
    case TRead => 8
    case TLock(_) => 7
    case TWoken(_) => 7
    case TCheck(_) => 6
    case TWrite(_) => 5
    case TUnlock => 4
    case TTest => 3
    case TFinish => 2
    case TWaiting(_) => 1
    case TDone => 0
  }

  /** Until both threads are done, one of them can step: nobody waits for ever. */
  lemma NoDeadlock(s: State)
    requires Inv(s) && !s.main.MDone?
    ensures MainCanStep(s) || ThreadCanStep(s)
    ensures s.main.MJoin? ==> s.thread.TDone? || ThreadCanStep(s)
  {
  }

  /** Once shutdown has begun every step makes progress, except that pthread_cond_wait may return early while
      the fifo is still full; after the signal it cannot. */
  lemma ShutdownProgress(s: State, l: Label)
    requires Inv(s) && s.transcodingFinished && Enabled(s, l)
    ensures Step(s, l).transcodingFinished
    ensures var after := Step(s, l);
      || MainRank(after) < MainRank(s)
      || (MainRank(after) == MainRank(s) && ThreadRank(after.thread) < ThreadRank(s.thread))
      || (l.Spurious? && (s.main.MFreeLock? || s.main.MDrain? || s.main.MFreeSignal?))
  {
    match l
    case ByInput(result) => ThreadProgress(s, result);
    case ByCaller(shutdown) => MainProgress(s, shutdown);
    case Spurious =>
  }

  lemma ThreadProgress(s: State, result: ReadResult)
    requires Inv(s) && s.transcodingFinished && ThreadCanStep(s)
    ensures var after := ThreadStep(s, result);
      after.transcodingFinished && MainRank(after) == MainRank(s) && ThreadRank(after.thread) < ThreadRank(s.thread)
  {
  }

  lemma MainProgress(s: State, shutdown: bool)
    requires Inv(s) && s.transcodingFinished && MainCanStep(s)
    ensures var after := MainStep(s, shutdown); after.transcodingFinished && MainRank(after) < MainRank(s)
  {
  }

  /** Both ranks in one number. */
  function Rank(s: State): nat { 10 * MainRank(s) + ThreadRank(s.thread) }

  ghost predicate Segment(states: seq<State>, labels: seq<Label>) {
    && |states| == |labels| + 1 && Inv(states[0]) && states[0].transcodingFinished
    && forall i :: 0 <= i < |labels| ==> Enabled(states[i], labels[i]) && states[i + 1] == Step(states[i], labels[i])
  }

  function Wakeups(labels: seq<Label>): nat {
    if labels == [] then 0
    else Wakeups(labels[..|labels| - 1]) + if labels[|labels| - 1].Spurious? then 1 else 0
  }

  /** Once it has begun, shutdown takes at most 408 steps and 7 more for every early wakeup, whatever the
      interleaving; when no step is left the main thread has joined the demux thread and emptied the fifo. */
  lemma {:induction false} ShutdownEnds(states: seq<State>, labels: seq<Label>)
    requires Segment(states, labels)
    ensures Inv(states[|labels|]) && states[|labels|].transcodingFinished
    ensures |labels| + Rank(states[|labels|]) <= Rank(states[0]) + 7 * Wakeups(labels) <= 408 + 7 * Wakeups(labels)
    ensures var s := states[|labels|];
      !MainCanStep(s) && !ThreadCanStep(s) ==> s.main.MDone? && s.thread.TDone? && s.fifo == []
  {
    if labels == [] {
      RankBound(states[0]);
    } else {
      hide Enabled, Step, Inv, MainRank, ThreadRank, MainCanStep, ThreadCanStep;
      var n := |labels| - 1;
      ShutdownEnds(states[..n + 1], labels[..n]);
      StepKeepsInv(states[n], labels[n]);
      RankDecreases(states[n], labels[n]);
    }
    FinishedAtRest(states[|labels|]);
  }

  lemma RankBound(s: State)
    requires Inv(s)
    ensures Rank(s) <= 408
  {
  }

  lemma RankDecreases(s: State, l: Label)
    requires Inv(s) && s.transcodingFinished && Enabled(s, l)
    ensures Step(s, l).transcodingFinished
    ensures !l.Spurious? ==> Rank(Step(s, l)) < Rank(s)
    ensures l.Spurious? ==> Rank(Step(s, l)) == Rank(s) + 6
  {
    if !l.Spurious? {
      hide Enabled, Step, Inv, MainRank;
      ShutdownProgress(s, l);
    }
  }

  lemma FinishedAtRest(s: State)
    requires Inv(s) && s.transcodingFinished
    ensures !MainCanStep(s) && !ThreadCanStep(s) ==> s.main.MDone? && s.thread.TDone? && s.fifo == []
  {
  }

  // ---------------------------------------------------------------- the calls as methods

  /** Up to n steps of the demux thread alone, every read with the same result. */
  function ThreadGo(s: State, result: ReadResult, n: nat): State
    decreases n
  {
    if n == 0 || !ThreadCanStep(s) then s else ThreadGo(ThreadStep(s, result), result, n - 1)
  }

  lemma ThreadGoStep(s: State, result: ReadResult, n: nat)
    requires n > 0 && ThreadCanStep(s)
    ensures ThreadGo(s, result, n) == ThreadGo(ThreadStep(s, result), result, n - 1)
  {
  }

  /** The first two steps of a pass: the flag is tested and a frame is read. */
  lemma ReadAlone(s: State, result: ReadResult, n: nat)
    requires s.thread.TTest? && !s.transcodingFinished && n >= 2
    ensures var p := if result.Frame? then result.pkt else 0; result.Frame? ==>
      ThreadGo(s, result, n) == ThreadGo(s.(thread := TLock(p), read := s.read + [p]), result, n - 2)
    ensures result.Again? ==> ThreadGo(s, result, 2) == s
    ensures result.Failed? ==> ThreadGo(s, result, 3) == s.(thread := TDone, finished := true, failed := true)
  {
    hide ThreadGo;
    var t := s.(thread := TRead);
    ThreadGoStep(s, result, n);
    ThreadGoStep(t, result, n - 1);
    ThreadGoStep(s, result, 2);
    ThreadGoStep(t, result, 1);
    ThreadGoStep(s, result, 3);
    ThreadGoStep(t, result, 2);
    ThreadGoStop(s, result);
    if result.Failed? {
      var u := s.(thread := TFinish, failed := true);
      ThreadGoStep(u, result, 1);
      ThreadGoStop(u.(thread := TDone, finished := true), result);
    }
  }

  lemma ThreadGoStop(s: State, result: ReadResult)
    ensures ThreadGo(s, result, 0) == s
    ensures !ThreadCanStep(s) ==> forall n :: ThreadGo(s, result, n) == s
  {
  }

  /** One pass of the loop that nothing interrupts: a frame is queued while fewer than 8 are, and otherwise the
      thread waits with it in hand; and once transcoding is finished the thread ends at once. */
  lemma ThreadAlone(s: State, p: Packet)
    requires s.thread.TTest? && s.owner == Free
    ensures !s.transcodingFinished && |s.fifo| < 8 ==>
      ThreadGo(s, Frame(p), 6) == s.(fifo := s.fifo + [p], read := s.read + [p])
    ensures !s.transcodingFinished && |s.fifo| >= 8 ==>
      ThreadGo(s, Frame(p), 6) == s.(thread := TWaiting(p), read := s.read + [p])
    ensures s.transcodingFinished ==> ThreadGo(s, Frame(p), 6) == s.(thread := TDone, finished := true)
  {
    hide ThreadGo;
    var r := Frame(p);
    if s.transcodingFinished {
      ThreadGoStep(s, r, 6);
      ThreadGoStep(s.(thread := TFinish), r, 5);
      ThreadGoStop(s.(thread := TDone, finished := true), r);
    } else {
      ReadAlone(s, r, 6);
      var t := s.(thread := TLock(p), read := s.read + [p]);
      ThreadGoStep(t, r, 4);
      var u := t.(thread := TCheck(p), owner := ByThread);
      ThreadGoStep(u, r, 3);
      if |s.fifo| < 8 {
        var v := u.(thread := TWrite(p));
        ThreadGoStep(v, r, 2);
        var w := v.(thread := TUnlock, fifo := s.fifo + [p]);
        ThreadGoStep(w, r, 1);
        ThreadGoStop(s.(fifo := s.fifo + [p], read := s.read + [p]), r);
      } else {
        ThreadGoStop(t.(thread := TWaiting(p)), r);
      }
    }
  }

  /** The steps of one call of get_input_packet_mt with no step of the other thread between them. */
  function GetCall(s: State): State {
    var read := GetStep(GetStep(GetStep(s, false), false), false);
    GetStep(GetStep(read, false), false)
  }

  /** They deliver the oldest packet if there is one and wake a waiting thread, and otherwise report the end
      of the file or that the caller should try again. */
  lemma GetAlone(s: State)
    requires s.main.MIdle?
    ensures s.fifo != [] ==> GetCall(s) == s.(fifo := s.fifo[1..], delivered := s.delivered + [s.fifo[0]],
      owner := Free, thread := Signalled(s.thread), results := s.results + [Got(s.fifo[0])])
    ensures s.fifo == [] ==> GetCall(s) == s.(owner := Free, eof := s.eof || s.finished,
      results := s.results + [if s.finished then Eof else TryAgain])
  {
    hide Signalled;
    var locked := GetStep(GetStep(s, false), false);
    assert locked == s.(main := MGetRead, owner := ByMain);
  }

  /** The main thread's side of an input file, with the state of the protocol beside it. */
  class InputFile {
    var fifo: seq<Packet>
    var finished: bool
    ghost var state: State

    ghost predicate Valid()
      reads this
    {
      fifo == state.fifo && finished == state.finished
    }

    /** get_input_packet_mt: each statement is the next step of the protocol, and the result is what the
        protocol records for the call. */
    method GetInputPacketMt() returns (ret: GetResult)
      requires Valid() && state.main.MIdle? && state.owner == Free
      modifies this
      ensures Valid() && state == GetCall(old(state)) && state.results == old(state.results) + [ret]
      ensures state.delivered + fifo == old(state.delivered + fifo)
    {
      GetAlone(state);
      ghost var s := GetStep(GetStep(state, false), false);
      if |fifo| > 0 {
        ret := Got(fifo[0]);
        fifo := fifo[1..];
        s := GetStep(GetStep(s, false), false);
      } else {
        s := GetStep(s, false);
        ret := if finished then Eof else TryAgain;
        s := GetStep(s, false);
      }
      state := GetStep(s, false);
    }

    /** The loop of free_input_threads that empties the fifo under the lock. */
    method DrainFifo() returns (freed: seq<Packet>)
      requires Valid() && state.main.MDrain?
      modifies this
      ensures Valid() && freed == old(fifo) && fifo == []
      ensures state == old(state).(fifo := [], discarded := old(state.discarded) + freed, main := MFreeSignal)
    {
      freed := [];
      ghost var start := state;
      while |fifo| > 0
        invariant Valid() && freed + fifo == old(fifo)
        invariant state == start.(fifo := fifo, discarded := start.discarded + freed)
      {
        freed := freed + [fifo[0]];
        fifo := fifo[1..];
        state := FreeStep(state);
      }
      state := FreeStep(state);
    }
  }
}
