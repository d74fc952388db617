/** The feed file of lavc/ffserver.c: a header packet followed by a circular log of fixed-size packets.
    The write index kept inside the header by libavformat is a separate field here, `saved`. */
module FeedLog {
  import opened Modular
  import opened Wrappers

  const PACKET_SIZE := 4096

  /** The file and the in-memory fields of its FFStream; maxSize 0 means unlimited. */
  datatype Log = Log(file: seq<int>, index: int, size: int, maxSize: int, saved: int)

  function Max(a: int, b: int): int { if a > b then a else b }

  /** lseek to `pos` and write: the file grows when needed, and a hole reads as zeros. */
  function WriteAt(file: seq<int>, pos: nat, data: seq<int>): (r: seq<int>)
    requires data != []
    ensures |r| == Max(|file|, pos + |data|)
    ensures r[pos..pos + |data|] == data
    ensures forall i :: 0 <= i < |r| && !(pos <= i < pos + |data|) ==> r[i] == if i < |file| then file[i] else 0
  {
    seq(Max(|file|, pos + |data|), i requires i >= 0 =>
      if pos <= i < pos + |data| then data[i - pos] else if i < |file| then file[i] else 0)
  }

  /** The packet at a file position. */
  function PacketAt(file: seq<int>, pos: int): seq<int>
    requires 0 <= pos && pos + PACKET_SIZE <= |file|
  {
    file[pos..pos + PACKET_SIZE]
  }

  /** The branch of http_receive_data that stores a received packet; false is its error path. */
  function Store(log: Log, packet: seq<int>, writeOk: bool, indexOk: bool): (Log, bool)
    requires |packet| == PACKET_SIZE && log.index >= 0
  {
    if !writeOk then (log, false)
    else
      var index := log.index + PACKET_SIZE;
      var next := if log.maxSize != 0 && index >= log.maxSize then PACKET_SIZE else index;
      var written := log.(file := WriteAt(log.file, log.index, packet),
                          size := if index > log.size then index else log.size, index := next);
      if indexOk then (written.(saved := next), true) else (written, false)
  }

  /** http_start_receive_data: the feeder connects again, with or without truncation of the old log. */
  function Open(log: Log, truncate: bool): (Log, bool)
    requires |log.file| >= PACKET_SIZE
  {
    if !truncate && log.saved < 0 then (log.(index := log.saved), false)
    else
      var cut := if truncate then log.(file := log.file[..PACKET_SIZE], saved := PACKET_SIZE) else log;
      (cut.(index := Max(cut.saved, PACKET_SIZE), size := |cut.file|), true)
  }

  // ---------------------------------------------------------------- where the packets go

  /** Number of packet-aligned positions p with PACKET_SIZE <= p < maxSize. */
  function SlotCount(maxSize: int): int { (maxSize - 1) / PACKET_SIZE }

  /** Position of the n-th slot in write order, counted from the start of the log. */
  function SlotPos(maxSize: int, n: nat): (p: int)
    requires HasSlots(maxSize)
    ensures p >= PACKET_SIZE && p % PACKET_SIZE == 0
    ensures maxSize != 0 ==> p < maxSize
  {
    if maxSize == 0 then PACKET_SIZE * (1 + n) else PACKET_SIZE * (1 + n % SlotCount(maxSize))
  }

  /** SlotCount is what its name says. */
  lemma SlotsBelow(maxSize: int, m: int)
    ensures 1 <= m <= SlotCount(maxSize) <==> PACKET_SIZE <= PACKET_SIZE * m < maxSize
  {
  }

  /** An index the code can be at is the position of some slot. */
  lemma IndexIsSlot(maxSize: int, index: int) returns (n: nat)
    requires index % PACKET_SIZE == 0 && PACKET_SIZE <= index && (maxSize == 0 || index < maxSize)
    ensures maxSize == 0 || n < SlotCount(maxSize)
    ensures SlotPos(maxSize, n) == index
  {
    n := index / PACKET_SIZE - 1;
    SlotsBelow(maxSize, n + 1);
  }

  /** The index update, with its wrap, moves to the next slot. */
  lemma NextSlot(maxSize: int, n: nat)
    requires HasSlots(maxSize)
    ensures var p := SlotPos(maxSize, n) + PACKET_SIZE;
      SlotPos(maxSize, n + 1) == if maxSize != 0 && p >= maxSize then PACKET_SIZE else p
  {
    if maxSize != 0 {
      var k := SlotCount(maxSize);
      SlotsBelow(maxSize, n % k + 2);
      if n % k + 1 < k {
        QuotientUnique(k, n + 1, n / k, n % k + 1);
      } else {
        QuotientUnique(k, n + 1, n / k + 1, 0);
      }
    }
  }

  /** Two of any SlotCount successive stores go to different slots. */
  lemma SlotsDiffer(maxSize: int, j: nat, n: nat)
    requires HasSlots(maxSize)
    requires j < n && (maxSize == 0 || n < j + SlotCount(maxSize))
    ensures SlotPos(maxSize, j) != SlotPos(maxSize, n)
  {
    if maxSize != 0 && j % SlotCount(maxSize) == n % SlotCount(maxSize) {
      SameSlot(SlotCount(maxSize), j, n);
    }
  }

  /** ... and the next one after them reuses the slot of the oldest. */
  lemma SlotReused(maxSize: int, n: nat)
    requires maxSize != 0 && SlotCount(maxSize) >= 1
    ensures SlotPos(maxSize, n + SlotCount(maxSize)) == SlotPos(maxSize, n)
  {
    var k := SlotCount(maxSize);
    QuotientUnique(k, n + k, n / k + 1, n % k);
  }

  // ---------------------------------------------------------------- what the log holds

  /** Number of the latest packets that the file is sure to hold.  After a failed index write the slot about
      to be written already holds the lost packet instead of the oldest one. */
  function Depth(maxSize: int, lost: bool): int { SlotCount(maxSize) - if lost then 1 else 0 }

  /** Packet j of `packets` is still in the log: fewer than `depth` later packets were stored. */
  predicate Kept(maxSize: int, depth: int, packets: seq<seq<int>>, j: int) {
    0 <= j < |packets| && (maxSize == 0 || |packets| - j <= depth)
  }

  ghost predicate HoldsAt(log: Log, pos: int, packet: seq<int>) {
    0 <= pos && pos + PACKET_SIZE <= |log.file| && PacketAt(log.file, pos) == packet
  }

  /** `packets` were stored one after another, starting at slot `first`, and the last `depth` of them are in
      their slots, behind the header. */
  ghost predicate HoldsLast(log: Log, header: seq<int>, first: nat, packets: seq<seq<int>>, depth: int) {
    && HasSlots(log.maxSize) && |log.file| >= PACKET_SIZE && log.size == |log.file|
    && log.file[..PACKET_SIZE] == header
    && forall j :: Kept(log.maxSize, depth, packets, j) ==> HoldsAt(log, SlotPos(log.maxSize, first + j), packets[j])
  }

  ghost predicate Holds(log: Log, header: seq<int>, first: nat, packets: seq<seq<int>>) {
    && HoldsLast(log, header, first, packets, SlotCount(log.maxSize))
    && log.index == SlotPos(log.maxSize, first + |packets|)
  }

  predicate HasSlots(maxSize: int) { maxSize == 0 || SlotCount(maxSize) >= 1 }

  lemma OtherSlotUntouched(file: seq<int>, pos: nat, data: seq<int>, other: nat)
    requires |data| == PACKET_SIZE && pos % PACKET_SIZE == 0 && other % PACKET_SIZE == 0 && pos != other
    requires other + PACKET_SIZE <= |file|
    ensures PacketAt(WriteAt(file, pos, data), other) == PacketAt(file, other)
  {
    assert pos + PACKET_SIZE <= other || other + PACKET_SIZE <= pos;
  }

  /** One store keeps the header, replaces the packet in the slot at the index, and keeps the rest; the slot
      may have held the oldest packet or a lost one. */
  lemma StoreKeepsLog(log: Log, header: seq<int>, first: nat, packets: seq<seq<int>>, lost: bool, packet: seq<int>,
                      indexOk: bool)
    requires HoldsLast(log, header, first, packets, Depth(log.maxSize, lost)) && |packet| == PACKET_SIZE
    requires log.index == SlotPos(log.maxSize, first + |packets|)
    ensures Holds(Store(log, packet, true, indexOk).0, header, first, packets + [packet])
  {
    var after := Store(log, packet, true, indexOk).0;
    var n := |packets|;
    NextSlot(log.maxSize, first + n);
    assert after.index == SlotPos(log.maxSize, first + |packets + [packet]|);
    assert after.file[..PACKET_SIZE] == header;
    forall j | Kept(log.maxSize, SlotCount(log.maxSize), packets + [packet], j)
      ensures HoldsAt(after, SlotPos(log.maxSize, first + j), (packets + [packet])[j])
    {
      if j < n {
        assert Kept(log.maxSize, Depth(log.maxSize, lost), packets, j);
        SlotsDiffer(log.maxSize, first + j, first + n);
        OtherSlotUntouched(log.file, log.index, packet, SlotPos(log.maxSize, first + j));
      }
    }
  }

  // ---------------------------------------------------------------- whole runs

  /** What can happen to a feed.  A failed write of the packet or of the index ends the connection. */
  datatype Event =
    | Stored(packet: seq<int>) | WriteFailed(packet: seq<int>) | IndexFailed(packet: seq<int>)
    | Disconnected | Reopened(truncate: bool)

  /** The feed, and whether a feeder is connected. */
  datatype World = World(log: Log, feeding: bool)

  ghost predicate StoreStep(w: World, packet: seq<int>, writeOk: bool, indexOk: bool, after: World) {
    w.feeding && |packet| == PACKET_SIZE && w.log.index >= 0 &&
    (after.log, after.feeding) == Store(w.log, packet, writeOk, indexOk)
  }

  ghost predicate Step(w: World, e: Event, after: World) {
    match e
    case Stored(packet) => StoreStep(w, packet, true, true, after)
    case WriteFailed(packet) => StoreStep(w, packet, false, true, after)
    case IndexFailed(packet) => StoreStep(w, packet, true, false, after)
    case Disconnected => after == w.(feeding := false)
    case Reopened(truncate) =>
      !w.feeding && |w.log.file| >= PACKET_SIZE && (after.log, after.feeding) == Open(w.log, truncate)
  }

  ghost predicate Run(worlds: seq<World>, events: seq<Event>) {
    |worlds| == |events| + 1 && forall i :: 0 <= i < |events| ==> Step(worlds[i], events[i], worlds[i + 1])
  }

  /** What the events amount to: the packets of the log since it was last truncated; whether the last of them
      is missing from the saved index; and the packet that such a failure left in the slot at the index. */
  datatype Past = Past(packets: seq<seq<int>>, unsaved: bool, lost: Option<seq<int>>, truncated: bool)

  function PastOf(events: seq<Event>): Past {
    if events == [] then Past([], false, None, false)
    else PastStep(PastOf(events[..|events| - 1]), events[|events| - 1])
  }

  ghost predicate Start(log: Log, header: seq<int>) {
    && log.index % PACKET_SIZE == 0 && PACKET_SIZE <= log.index == Max(log.saved, PACKET_SIZE)
    && 0 <= log.saved && (log.maxSize == 0 || log.index < log.maxSize)
    && |log.file| >= PACKET_SIZE && log.size == |log.file| && log.file[..PACKET_SIZE] == header
  }

  /** The log agrees with its past. */
  ghost predicate Agrees(w: World, header: seq<int>, first: nat, past: Past) {
    var log := w.log;
    && HoldsLast(log, header, first, past.packets, Depth(log.maxSize, past.lost.Some?))
    && log.index == SlotPos(log.maxSize, first + |past.packets|)
    && (past.lost.Some? ==> HoldsAt(log, log.index, past.lost.value))
    && (past.unsaved ==> past.lost.None? && past.packets != [] && !w.feeding)
    && 0 <= log.saved
    && Max(log.saved, PACKET_SIZE) == SlotPos(log.maxSize, first + |past.packets| - if past.unsaved then 1 else 0)
  }

  /** What the events so far and one more amount to. */
  function PastStep(past: Past, e: Event): Past {
    match e
    case Stored(packet) => past.(packets := past.packets + [packet], lost := None)
    case IndexFailed(packet) => past.(packets := past.packets + [packet], lost := None, unsaved := true)
    case Reopened(truncate) =>
      if truncate then Past([], false, None, true)
      else if past.unsaved && past.packets != [] then
        past.(packets := past.packets[..|past.packets| - 1], unsaved := false,
              lost := Some(past.packets[|past.packets| - 1]))
      else past
    case _ => past
  }

  lemma StoreAgrees(w: World, packet: seq<int>, indexOk: bool, after: World, header: seq<int>, first: nat, past: Past)
    requires StoreStep(w, packet, true, indexOk, after) && Agrees(w, header, first, past)
    ensures after.log.maxSize == w.log.maxSize
    ensures Agrees(after, header, first, PastStep(past, if indexOk then Stored(packet) else IndexFailed(packet)))
  {
    hide HoldsLast, HoldsAt, SlotPos;
    StoreKeepsLog(w.log, header, first, past.packets, past.lost.Some?, packet, indexOk);
    assert SlotPos(w.log.maxSize, first + |past.packets| + 1) >= PACKET_SIZE;
  }

  lemma ReopenAgrees(w: World, truncate: bool, after: World, header: seq<int>, first: nat, past: Past)
    requires Step(w, Reopened(truncate), after) && Agrees(w, header, first, past)
    ensures after.log.maxSize == w.log.maxSize
    ensures Agrees(after, header, if truncate then 0 else first, PastStep(past, Reopened(truncate)))
  {
    if truncate { FirstSlot(w.log.maxSize); } else if past.unsaved { Retracted(w, after, header, first, past); }
  }

  /** The file grows and changes only by stores, and is cut back to its header only by a truncation; the feeder
      stays, or connects, unless a write fails. */
  lemma StepFile(w: World, e: Event, after: World, header: seq<int>, first: nat, past: Past)
    requires Step(w, e, after) && Agrees(w, header, first, past)
    ensures e.Stored? || e.IndexFailed? ==> e.packet != [] && w.log.index >= 0
    ensures after.log.file == match e
      case Stored(packet) => WriteAt(w.log.file, w.log.index, packet)
      case IndexFailed(packet) => WriteAt(w.log.file, w.log.index, packet)
      case Reopened(truncate) => if truncate then header else w.log.file
      case _ => w.log.file
    ensures after.feeding <==> e.Stored? || e.Reopened?
  {
    hide WriteAt, SlotPos, HoldsAt, SlotCount;
  }

  lemma StepAgrees(w: World, e: Event, after: World, header: seq<int>, first: nat, past: Past)
    requires Step(w, e, after) && Agrees(w, header, first, past)
    ensures after.log.maxSize == w.log.maxSize
    ensures Agrees(after, header, if e == Reopened(true) then 0 else first, PastStep(past, e))
    ensures after.log.file == match e
      case Stored(packet) => WriteAt(w.log.file, w.log.index, packet)
      case IndexFailed(packet) => WriteAt(w.log.file, w.log.index, packet)
      case Reopened(truncate) => if truncate then header else w.log.file
      case _ => w.log.file
    ensures after.feeding <==> e.Stored? || e.Reopened?
  {
    StepFile(w, e, after, header, first, past);
    match e
    case Stored(packet) => hide Agrees, Store; StoreAgrees(w, packet, true, after, header, first, past);
    case IndexFailed(packet) => hide Agrees, Store; StoreAgrees(w, packet, false, after, header, first, past);
    case WriteFailed(_) => hide HoldsLast, SlotPos;
    case Disconnected => hide HoldsLast, SlotPos;
    case Reopened(truncate) => hide Agrees, Step; ReopenAgrees(w, truncate, after, header, first, past);
  }

  /** A feeder that reconnects after a failed index write finds the last packet retracted: it is left in the
      slot at the index, where the oldest packet should be. */
  lemma Retracted(w: World, after: World, header: seq<int>, first: nat, past: Past)
    requires Agrees(w, header, first, past) && past.unsaved
    requires |w.log.file| >= PACKET_SIZE && (after.log, after.feeding) == Open(w.log, false)
    ensures var n := |past.packets| - 1;
      Agrees(after, header, first, past.(packets := past.packets[..n], unsaved := false, lost := Some(past.packets[n])))
  {
    var n := |past.packets| - 1;
    assert Kept(w.log.maxSize, SlotCount(w.log.maxSize), past.packets, n);
    forall j | Kept(w.log.maxSize, SlotCount(w.log.maxSize) - 1, past.packets[..n], j)
      ensures HoldsAt(after.log, SlotPos(w.log.maxSize, first + j), past.packets[..n][j])
    {
      assert Kept(w.log.maxSize, SlotCount(w.log.maxSize), past.packets, j);
    }
  }

  /** The log at the end of any run: header intact, index aligned and in range, and every one of the last
      SlotCount packets in its slot, or one less while a lost packet waits to be replaced. */
  lemma {:induction false} FeedIsCircularLog(worlds: seq<World>, events: seq<Event>, header: seq<int>)
    returns (first: nat)
    requires Run(worlds, events) && Start(worlds[0].log, header)
    ensures Agrees(worlds[|events|], header, first, PastOf(events))
    ensures worlds[|events|].log.maxSize == worlds[0].log.maxSize
    ensures SlotPos(worlds[0].log.maxSize, first) ==
      if PastOf(events).truncated then PACKET_SIZE else worlds[0].log.index
  {
    hide HoldsLast, SlotPos, SlotCount, Step, Store, Open;
    StartAgrees(worlds[0], header);
    if events == [] {
      var log := worlds[0].log;
      first := IndexIsSlot(log.maxSize, log.index);
      assert HoldsLast(log, header, first, [], Depth(log.maxSize, false));
    } else {
      var n := |events| - 1;
      first := FeedIsCircularLog(worlds[..n + 1], events[..n], header);
      StepAgrees(worlds[n], events[n], worlds[n + 1], header, first, PastOf(events[..n]));
      if events[n] == Reopened(true) {
        first := 0;
        FirstSlot(worlds[0].log.maxSize);
      }
    }
  }

  lemma StartAgrees(w: World, header: seq<int>)
    requires Start(w.log, header)
    ensures HasSlots(w.log.maxSize) && forall first: nat, depth :: HoldsLast(w.log, header, first, [], depth)
  {
    SlotsBelow(w.log.maxSize, 1);
  }

  lemma FirstSlot(maxSize: int)
    requires HasSlots(maxSize)
    ensures SlotPos(maxSize, 0) == PACKET_SIZE
  {
  }

  /** Reading all slots in file order from the index, wrapping like the writer, gives the last SlotCount
      packets, oldest first: the slot about to be written holds the oldest. */
  lemma OldestFirst(log: Log, header: seq<int>, first: nat, packets: seq<seq<int>>, i: nat)
    requires Holds(log, header, first, packets) && log.maxSize != 0
    requires |packets| >= SlotCount(log.maxSize) > i
    ensures HoldsAt(log, SlotPos(log.maxSize, first + |packets| + i), packets[|packets| - SlotCount(log.maxSize) + i])
  {
    var k := SlotCount(log.maxSize);
    var j := |packets| - k + i;
    assert Kept(log.maxSize, k, packets, j);
    SlotReused(log.maxSize, first + j);
  }

  /** The slot that was written last: that of the newest packet, or the one with the lost packet. */
  function LastWritten(first: nat, past: Past): int {
    first + |past.packets| - if past.lost.Some? then 0 else 1
  }

  /** At any point of any run with a feeder connected, its next store goes to the slot after the one written
      last, which is oldest first, exactly when no index write was lost just before it connected, or there is
      only one slot. */
  lemma ReplacesOldestIff(worlds: seq<World>, events: seq<Event>, header: seq<int>) returns (first: nat)
    requires Run(worlds, events) && Start(worlds[0].log, header)
    ensures Agrees(worlds[|events|], header, first, PastOf(events))
    ensures var log := worlds[|events|].log; var past := PastOf(events);
      worlds[|events|].feeding && LastWritten(first, past) >= 0 ==>
      (log.index == SlotPos(log.maxSize, LastWritten(first, past) + 1) <==>
        past.lost.None? || (log.maxSize != 0 && SlotCount(log.maxSize) == 1))
  {
    hide HoldsLast, HoldsAt, SlotPos, SlotCount, Step;
    first := FeedIsCircularLog(worlds, events, header);
    StartAgrees(worlds[0], header);
    var log, past := worlds[|events|].log, PastOf(events);
    if past.lost.Some? { NextSlotDiffersIff(log.maxSize, first + |past.packets|); }
  }

  lemma NextSlotDiffersIff(maxSize: int, n: nat)
    requires HasSlots(maxSize)
    ensures SlotPos(maxSize, n) == SlotPos(maxSize, n + 1) <==> maxSize != 0 && SlotCount(maxSize) == 1
  {
    if maxSize == 0 || SlotCount(maxSize) > 1 { SlotsDiffer(maxSize, n, n + 1); } else { SlotReused(maxSize, n); }
  }

  /** The failing side is met: one packet, its index write fails, the feeder reconnects. */
  lemma LostIndexReachable(log: Log, header: seq<int>, packet: seq<int>) returns (worlds: seq<World>, events: seq<Event>)
    requires Start(log, header) && |packet| == PACKET_SIZE
    ensures Run(worlds, events) && worlds[0] == World(log, true) && PastOf(events).lost == Some(packet)
  {
    var w1 := World(Store(log, packet, true, false).0, false);
    var w2 := World(Open(w1.log, false).0, true);
    worlds, events := [World(log, true), w1, w2], [IndexFailed(packet), Reopened(false)];
    assert Step(worlds[0], events[0], worlds[1]) && Step(worlds[1], events[1], worlds[2]);
    assert events[..1] == [IndexFailed(packet)] && [IndexFailed(packet)][..0] == [];
    assert PastOf([IndexFailed(packet)]) == Past([packet], true, None, false) by {
      assert [] + [packet] == [packet];
    }
  }

  // ---------------------------------------------------------------- the feed as the server keeps it

  class Feed {
    const feedMaxSize: int
    var file: seq<int>
    var feedWriteIndex: int
    var feedSize: int
    var savedIndex: int

    function View(): Log
      reads this
    {
      Log(file, feedWriteIndex, feedSize, feedMaxSize, savedIndex)
    }

    constructor (file: seq<int>, saved: int, maxSize: int)
      ensures View() == Log(file, Max(saved, PACKET_SIZE), |file|,
        if maxSize != 0 && maxSize < |file| then |file| else maxSize, saved)
      ensures
        (|file| >= PACKET_SIZE && 0 <= saved && saved % PACKET_SIZE == 0 &&
         (maxSize == 0 || Max(saved, PACKET_SIZE) < Max(maxSize, |file|))) ==>
          Start(View(), file[..PACKET_SIZE])
    {
      this.file := file;
      feedWriteIndex, savedIndex := Max(saved, PACKET_SIZE), saved;
      feedSize := |file|;
      feedMaxSize := if maxSize != 0 && maxSize < |file| then |file| else maxSize;
    }

    method StorePacket(packet: seq<int>, writeOk: bool, indexOk: bool) returns (ok: bool)
      requires |packet| == PACKET_SIZE && feedWriteIndex >= 0
      modifies this
      ensures (View(), ok) == Store(old(View()), packet, writeOk, indexOk)
    {
      if !writeOk { return false; }
      file := WriteAt(file, feedWriteIndex, packet);
      feedWriteIndex := feedWriteIndex + PACKET_SIZE;
      if feedWriteIndex > feedSize { feedSize := feedWriteIndex; }
      if feedMaxSize != 0 && feedWriteIndex >= feedMaxSize { feedWriteIndex := PACKET_SIZE; }
      if !indexOk { return false; }
      savedIndex := feedWriteIndex;
      return true;
    }

    method StartReceive(truncate: bool) returns (ok: bool)
      requires |file| >= PACKET_SIZE
      modifies this
      ensures (View(), ok) == Open(old(View()), truncate)
    {
      if truncate {
        savedIndex := PACKET_SIZE;
        file := file[..PACKET_SIZE];
      } else {
        feedWriteIndex := savedIndex;
        if feedWriteIndex < 0 { return false; }
      }
      feedWriteIndex := Max(savedIndex, PACKET_SIZE);
      feedSize := |file|;
      return true;
    }
  }
}
