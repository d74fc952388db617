/** The two-process stream cache of TOOLS/cache2.c.

    A filler process and a reader process share `buffer`, `readPos`, `minPos`, `maxPos` and `offset`
    without a lock.  Every load or store of another process's variable is one step here, and so is every
    copied byte; a run is any sequence of labels that says which process moves next.  Loads of a variable
    that only the loading process writes cannot be told apart from local computation and are folded into
    the neighbouring step. */
module StreamCache {
  import opened Modular
  import opened Wrappers

  /** The constants that cache_init computes. */
  datatype Config = Config(bufferSize: nat, backSize: nat, fillLimit: nat)

  function CacheInit(size: nat, sector: nat): Config
    requires sector > 0
  {
    Config((size / sector) * sector, size / 2, 8 * sector)
  }

  /** What the two processes rely on: whole sectors, as many as fit; half of the size kept back; fills of eight
      sectors at least. */
  predicate Built(c: Config, size: nat, sector: nat)
    requires sector > 0
  {
    && c.bufferSize % sector == 0 && c.bufferSize <= size < c.bufferSize + sector
    && 2 * c.backSize <= size < 2 * c.backSize + 2
    && c.fillLimit == 8 * sector
  }

  lemma InitBuilds(size: nat, sector: nat)
    requires sector > 0
    ensures Built(CacheInit(size, sector), size, sector)
  {
    QuotientUnique(sector, (size / sector) * sector, size / sector, 0);
  }

  const MAX_BLOCK := 32768

  /** Program counter of cache_fill, with its live local variables. */
  datatype Filler =
    | FLoad                                                  // about to load read_filepos
    | FDecide(read: int)                                     // space computation
    | FStoreMin(read: int, back: int, pos: int, len: int)    // about to store min_filepos
    | FCopy(pos: int, len: int, done: int)                   // copying; the last step stores max_filepos
    | FStoreOffset(pos: int, len: int)                       // about to store offset

  /** Program counter of cache_read, with its live local variables. */
  datatype Reader =
    | RIdle                                                  // between two calls
    | RHead(size: int)                                       // loop test, then load of offset
    | RHavePos(size: int, pos: int)                          // about to load max_filepos
    | RCopy(size: int, pos: int, len: int, done: int)        // copying; the last step stores read_filepos

  datatype State<T> = State(
    buffer: seq<T>, readPos: int, minPos: int, maxPos: int, offset: int,
    filler: Filler, reader: Reader,
    consumed: seq<T>)                                        // history: everything delivered so far

  // ---------------------------------------------------------------- the filler

  function Back(c: Config, read: int, minPos: int): int {
    var back := read - minPos;
    var back := if back < 0 then 0 else back;
    if back > c.backSize then c.backSize else back
  }

  /** Free space as cache_fill computes it from the loaded read position. */
  function Space<T>(c: Config, s: State<T>, read: int): int {
    var newb := s.maxPos - read;
    c.bufferSize - ((if newb < 0 then 0 else newb) + Back(c, read, s.minPos))
  }

  function FillPos<T>(c: Config, s: State<T>): int {
    var pos := s.maxPos - s.offset;
    if pos >= c.bufferSize then pos - c.bufferSize else pos
  }

  /** Number of bytes that a call which loaded `read` adds; 0 when it gives up. */
  function FillLength<T>(c: Config, s: State<T>, read: int): int {
    var space := Space(c, s, read);
    if space < c.fillLimit then 0
    else Min(Min(space, c.bufferSize - FillPos(c, s)), MAX_BLOCK)
  }

  /** The buffer accesses of the next filler step are inside the buffer. */
  predicate FillerInBounds<T>(s: State<T>) {
    s.filler.FCopy? && s.filler.done < s.filler.len ==>
      0 <= s.filler.pos + s.filler.done < |s.buffer| && 0 <= s.maxPos + s.filler.done
  }

  function FillerStep<T>(c: Config, file: nat -> T, s: State<T>): State<T>
    requires FillerInBounds(s)
  {
    match s.filler
    case FLoad => s.(filler := FDecide(s.readPos))
    case FDecide(read) =>
      if Space(c, s, read) < c.fillLimit then s.(filler := FLoad)
      else s.(filler := FStoreMin(read, Back(c, read, s.minPos), FillPos(c, s), FillLength(c, s, read)))
    case FStoreMin(read, back, pos, len) => s.(minPos := read - back, filler := FCopy(pos, len, 0))
    case FCopy(pos, len, done) =>
      if done < len
      then s.(buffer := s.buffer[pos + done := file(s.maxPos + done)], filler := FCopy(pos, len, done + 1))
      else s.(maxPos := s.maxPos + len, filler := FStoreOffset(pos, len))
    case FStoreOffset(pos, len) =>
      s.(offset := if pos + len >= c.bufferSize then s.offset + c.bufferSize else s.offset, filler := FLoad)
  }

  // ---------------------------------------------------------------- the reader

  /** The reader's buffer position, with its own fix-up in both directions. */
  function ReadPosition<T>(c: Config, s: State<T>): int {
    var pos := s.readPos - s.offset;
    if pos < 0 then pos + c.bufferSize else if pos >= c.bufferSize then pos - c.bufferSize else pos
  }

  predicate ReaderInBounds<T>(s: State<T>) {
    s.reader.RCopy? && s.reader.done < s.reader.len ==> 0 <= s.reader.pos + s.reader.done < |s.buffer|
  }

  function ReaderStep<T>(c: Config, s: State<T>, request: nat): State<T>
    requires ReaderInBounds(s)
  {
    match s.reader
    case RIdle => s.(reader := RHead(request))
    case RHead(size) =>
      if size <= 0 then s.(reader := RIdle) else s.(reader := RHavePos(size, ReadPosition(c, s)))
    case RHavePos(size, pos) =>
      var newb := s.maxPos - s.readPos;
      if newb <= 0 then s.(reader := RHead(size))
      else s.(reader := RCopy(size, pos, Min(Min(newb, c.bufferSize - pos), size), 0))
    case RCopy(size, pos, len, done) =>
      if done < len
      then s.(consumed := s.consumed + [s.buffer[pos + done]], reader := RCopy(size, pos, len, done + 1))
      else s.(readPos := s.readPos + len, reader := RHead(size - len))
  }

  // ---------------------------------------------------------------- the invariant

  /** Bytes the reader has copied out but not yet added to read_filepos. */
  function InFlight(r: Reader): int { if r.RCopy? then r.done else 0 }

  /** Buffer slot of a file position. */
  function Slot(c: Config, p: nat): (slot: nat)
    requires c.bufferSize > 0
    ensures slot < c.bufferSize
  {
    p % c.bufferSize
  }

  ghost predicate Positions<T>(c: Config, s: State<T>) {
    && c.fillLimit > 0
    && |s.buffer| == c.bufferSize
    && 0 <= s.minPos <= s.readPos <= s.maxPos <= s.minPos + c.bufferSize
    && (s.minPos == 0 || s.readPos - s.minPos >= c.backSize)
    && 0 <= s.offset
    && (c.bufferSize > 0 ==> s.offset % c.bufferSize == 0)
    && (c.bufferSize == 0 ==> s.filler.FLoad? || s.filler.FDecide?)
    && if s.filler.FStoreOffset?
       then 0 <= s.maxPos - s.offset == s.filler.pos + s.filler.len <= c.bufferSize
       else c.bufferSize > 0 ==> 0 <= s.maxPos - s.offset < c.bufferSize
  }

  ghost predicate FillerOk<T>(c: Config, file: nat -> T, s: State<T>)
    requires Positions(c, s)
  {
    match s.filler
    case FLoad => true
    case FDecide(read) => s.minPos <= read <= s.readPos
    case FStoreMin(read, back, pos, len) =>
      && 0 <= back && s.minPos <= read - back && read <= s.readPos
      && (back == c.backSize || read - back == s.minPos)
      && pos == s.maxPos - s.offset && 1 <= len && pos + len <= c.bufferSize
      && s.maxPos + len <= read - back + c.bufferSize
    case FCopy(pos, len, done) =>
      && pos == s.maxPos - s.offset && 1 <= len && 0 <= done <= len && pos + len <= c.bufferSize
      && s.maxPos + len <= s.minPos + c.bufferSize
      && forall p: nat :: s.maxPos <= p < s.maxPos + done ==> s.buffer[Slot(c, p)] == file(p)
    case FStoreOffset(pos, len) => 0 <= pos && 1 <= len
  }

  ghost predicate ReaderOk<T>(c: Config, s: State<T>)
    requires Positions(c, s)
  {
    match s.reader
    case RIdle => true
    case RHead(size) => true
    case RHavePos(size, pos) => size > 0 && (c.bufferSize > 0 ==> pos == Slot(c, s.readPos))
    case RCopy(size, pos, len, done) =>
      && c.bufferSize > 0 && pos == Slot(c, s.readPos)
      && 0 <= done <= len <= size && 1 <= len && pos + len <= c.bufferSize && s.readPos + len <= s.maxPos
  }

  /** Every cached position holds its file byte, and everything consumed so far is a file prefix. */
  ghost predicate Faithful<T>(c: Config, file: nat -> T, s: State<T>)
    requires Positions(c, s)
  {
    && (forall p: nat :: s.minPos <= p < s.maxPos ==> s.buffer[Slot(c, p)] == file(p))
    && |s.consumed| == s.readPos + InFlight(s.reader)
    && (forall i: nat :: i < |s.consumed| ==> s.consumed[i] == file(i))
  }

  ghost predicate Inv<T>(c: Config, file: nat -> T, s: State<T>) {
    Positions(c, s) && FillerOk(c, file, s) && ReaderOk(c, s) && Faithful(c, file, s)
  }

  // ---------------------------------------------------------------- one step keeps the invariant

  /** The file positions being written, [maxPos, maxPos + done), occupy pos, pos + 1, ... */
  lemma FillSlots<T>(c: Config, s: State<T>, pos: int, p: nat)
    requires Positions(c, s) && c.bufferSize > 0 && !s.filler.FStoreOffset?
    requires pos == s.maxPos - s.offset && s.maxPos <= p < s.maxPos + (c.bufferSize - pos)
    ensures Slot(c, p) == pos + (p - s.maxPos)
  {
    SlotOf(c.bufferSize, p, s.offset);
  }

  /** cache_fill writes a byte only into a slot that no position of [minPos, maxPos) occupies. */
  lemma FillerNeverOverwrites<T>(c: Config, file: nat -> T, s: State<T>, p: nat)
    requires Inv(c, file, s) && s.filler.FCopy? && s.filler.done < s.filler.len
    requires s.minPos <= p < s.maxPos
    ensures Slot(c, p) != s.filler.pos + s.filler.done
  {
    FillSlots(c, s, s.filler.pos, s.maxPos + s.filler.done);
    if Slot(c, p) == Slot(c, s.maxPos + s.filler.done) {
      SameSlot(c.bufferSize, p, s.maxPos + s.filler.done);
    }
  }

  lemma CopyKeepsInv<T>(c: Config, file: nat -> T, s: State<T>)
    requires Inv(c, file, s) && s.filler.FCopy? && s.filler.done < s.filler.len
    ensures Inv(c, file, FillerStep(c, file, s))
  {
    hide Slot;
    var s' := FillerStep(c, file, s);
    var pos, done := s.filler.pos, s.filler.done;
    FillSlots(c, s, pos, s.maxPos + done);
    forall p: nat | s.minPos <= p < s.maxPos + done
      ensures s'.buffer[Slot(c, p)] == file(p)
    {
      if p < s.maxPos { FillerNeverOverwrites(c, file, s, p); } else { FillSlots(c, s, pos, p); }
    }
  }

  lemma DecideKeepsInv<T>(c: Config, file: nat -> T, s: State<T>)
    requires Inv(c, file, s) && (s.filler.FLoad? || s.filler.FDecide?)
    ensures Inv(c, file, FillerStep(c, file, s))
  {
  }

  lemma StoreKeepsInv<T>(c: Config, file: nat -> T, s: State<T>)
    requires Inv(c, file, s) && (s.filler.FStoreMin? || (s.filler.FCopy? && s.filler.done == s.filler.len))
    ensures Inv(c, file, FillerStep(c, file, s))
  {
  }

  lemma OffsetKeepsInv<T>(c: Config, file: nat -> T, s: State<T>)
    requires Inv(c, file, s) && s.filler.FStoreOffset?
    ensures Inv(c, file, FillerStep(c, file, s))
  {
    NextLap(c.bufferSize, s.offset);
  }

  lemma FillerKeepsInv<T>(c: Config, file: nat -> T, s: State<T>)
    requires Inv(c, file, s)
    ensures Inv(c, file, FillerStep(c, file, s))
  {
    match s.filler
    case FLoad => DecideKeepsInv(c, file, s);
    case FDecide(read) => DecideKeepsInv(c, file, s);
    case FStoreMin(read, back, pos, len) => StoreKeepsInv(c, file, s);
    case FCopy(pos, len, done) => if done < len { CopyKeepsInv(c, file, s); } else { StoreKeepsInv(c, file, s); }
    case FStoreOffset(pos, len) => OffsetKeepsInv(c, file, s);
  }

  /** Between the filler's two stores offset lags by a whole lap; the fix-up still finds the right slot. */
  lemma ReadPositionIsSlot<T>(c: Config, s: State<T>)
    requires Positions(c, s) && c.bufferSize > 0
    ensures ReadPosition(c, s) == Slot(c, s.readPos)
  {
    var b := c.bufferSize;
    if s.readPos < s.offset {
      assert b * (s.offset / b - 1) == s.offset - b;
      QuotientUnique(b, s.readPos, s.offset / b - 1, s.readPos - s.offset + b);
    } else if s.readPos < s.offset + b {
      SlotOf(b, s.readPos, s.offset);
    } else {
      NextLap(b, s.offset);
    }
  }

  lemma ConsumeKeepsInv<T>(c: Config, file: nat -> T, s: State<T>)
    requires Inv(c, file, s) && s.reader.RCopy? && s.reader.done < s.reader.len
    ensures Inv(c, file, ReaderStep(c, s, 0))
  {
    var p := s.readPos + s.reader.done;
    SlotShift(c.bufferSize, s.readPos, s.reader.done);
    assert s.buffer[Slot(c, p)] == file(p);
  }

  lemma HeadKeepsInv<T>(c: Config, file: nat -> T, s: State<T>, request: nat)
    requires Inv(c, file, s) && (s.reader.RIdle? || s.reader.RHead?)
    ensures Inv(c, file, ReaderStep(c, s, request))
  {
    if c.bufferSize > 0 { ReadPositionIsSlot(c, s); }
  }

  lemma HavePosKeepsInv<T>(c: Config, file: nat -> T, s: State<T>)
    requires Inv(c, file, s) && s.reader.RHavePos?
    ensures Inv(c, file, ReaderStep(c, s, 0))
  {
  }

  lemma AdvanceKeepsInv<T>(c: Config, file: nat -> T, s: State<T>)
    requires Inv(c, file, s) && s.reader.RCopy? && s.reader.done == s.reader.len
    ensures Inv(c, file, ReaderStep(c, s, 0))
  {
  }

  lemma ReaderKeepsInv<T>(c: Config, file: nat -> T, s: State<T>, request: nat)
    requires Inv(c, file, s)
    ensures Inv(c, file, ReaderStep(c, s, request))
  {
    match s.reader
    case RIdle => HeadKeepsInv(c, file, s, request);
    case RHead(size) => HeadKeepsInv(c, file, s, request);
    case RHavePos(size, pos) => HavePosKeepsInv(c, file, s);
    case RCopy(size, pos, len, done) =>
      if done < len { ConsumeKeepsInv(c, file, s); } else { AdvanceKeepsInv(c, file, s); }
  }

  // ---------------------------------------------------------------- runs

  /** Which process moves next; `request` is the size of a cache_read call that starts. */
  datatype Label = Fill | Read(request: nat)

  ghost predicate Initial<T>(c: Config, s: State<T>) {
    c.fillLimit > 0 && |s.buffer| == c.bufferSize &&
    s == State(s.buffer, 0, 0, 0, 0, FLoad, RIdle, [])
  }

  function Step<T>(c: Config, file: nat -> T, s: State<T>, l: Label): State<T>
    requires FillerInBounds(s) && ReaderInBounds(s)
  {
    match l case Fill => FillerStep(c, file, s) case Read(request) => ReaderStep(c, s, request)
  }

  lemma StepKeepsInv<T>(c: Config, file: nat -> T, s: State<T>, l: Label)
    requires Inv(c, file, s)
    ensures Inv(c, file, Step(c, file, s, l))
    ensures var r := Step(c, file, s, l); s.minPos <= r.minPos && s.maxPos <= r.maxPos && s.readPos <= r.readPos
  {
    match l case Fill => FillerKeepsInv(c, file, s); case Read(request) => ReaderKeepsInv(c, file, s, request);
  }

  lemma AccessesInBounds<T>(c: Config, file: nat -> T, s: State<T>)
    requires Inv(c, file, s)
    ensures FillerInBounds(s) && ReaderInBounds(s)
  {
  }

  /** The state after any interleaving.  Every buffer access on the way is inside the buffer, and the
      invariant holds after every single load and store. */
  ghost function Run<T>(c: Config, file: nat -> T, s: State<T>, labels: seq<Label>): (r: State<T>)
    requires Inv(c, file, s)
    ensures Inv(c, file, r) && FillerInBounds(r) && ReaderInBounds(r)
    ensures s.minPos <= r.minPos && s.maxPos <= r.maxPos && s.readPos <= r.readPos
  {
    hide Inv, Step, FillerInBounds, ReaderInBounds;
    if labels == [] then
      AccessesInBounds(c, file, s);
      s
    else
      var m := Run(c, file, s, labels[..|labels| - 1]);
      var l := labels[|labels| - 1];
      StepKeepsInv(c, file, m, l);
      var r := Step(c, file, m, l);
      AccessesInBounds(c, file, r);
      r
  }

  // ---------------------------------------------------------------- the reader's view over all runs

  /** Under every interleaving, what cache_read has delivered is a prefix of the file, as long as the read
      position says (plus the bytes of the copy under way), and the next copied byte sits where the
      reader's position says. */
  lemma ReaderSeesTheFile<T>(c: Config, file: nat -> T, s: State<T>, labels: seq<Label>)
    requires Initial(c, s)
    ensures Inv(c, file, s)
    ensures var r := Run(c, file, s, labels);
      && |r.consumed| == r.readPos + InFlight(r.reader)
      && (forall i: nat :: i < |r.consumed| ==> r.consumed[i] == file(i))
      && (r.reader.RHavePos? && c.bufferSize > 0 ==> r.reader.pos == r.readPos % c.bufferSize)
      && (r.reader.RCopy? ==> 0 < c.bufferSize && r.reader.pos == r.readPos % c.bufferSize)
      && r.readPos - r.minPos >= Min(c.backSize, r.readPos)
  {
  }

  // ---------------------------------------------------------------- progress

  function CountFills(labels: seq<Label>): nat {
    if labels == [] then 0
    else CountFills(labels[..|labels| - 1]) + if labels[|labels| - 1].Fill? then 1 else 0
  }

  /** Filler steps left until the current call stores max_filepos. */
  function FillsLeft<T>(c: Config, s: State<T>): int {
    match s.filler
    case FLoad => FillLength(c, s, s.readPos) + 4
    case FDecide(read) => FillLength(c, s, read) + 3
    case FStoreMin(_, _, _, len) => len + 2
    case FCopy(_, len, done) => len - done + 1
    case FStoreOffset(_, _) => 0
  }

  /** cache_fill adds bytes exactly when the free space reaches fill_limit: what is neither unread nor among the
      back_size bytes kept behind the read position. */
  lemma FillsWhenSpace<T>(c: Config, file: nat -> T, s: State<T>, read: int)
    requires Inv(c, file, s) && !s.filler.FStoreOffset? && s.minPos <= read <= s.readPos
    ensures Space(c, s, read) == c.bufferSize - (s.maxPos - read) - Min(c.backSize, read - s.minPos)
    ensures FillLength(c, s, read) >= 1 <==> Space(c, s, read) >= c.fillLimit
    ensures FillLength(c, s, read) >= 0
  {
  }

  /** A fill takes all the free space, unless the end of the buffer or 32768 bytes come first. */
  lemma FillIsLongest<T>(c: Config, file: nat -> T, s: State<T>, read: int)
    requires Inv(c, file, s) && !s.filler.FStoreOffset? && s.minPos <= read <= s.readPos
    requires Space(c, s, read) >= c.fillLimit
    ensures var len := FillLength(c, s, read); var room := c.bufferSize - (s.maxPos - s.offset);
      && len <= c.bufferSize - (s.maxPos - read) - Min(c.backSize, read - s.minPos) && len <= room && len <= 32768
      && (len == c.bufferSize - (s.maxPos - read) - Min(c.backSize, read - s.minPos) || len == room || len == 32768)
  {
  }

  ghost predicate Advancing<T>(c: Config, s: State<T>, from: int, left: int) {
    || s.maxPos > from
    || (&& s.maxPos == from
        && !s.filler.FStoreOffset?
        && (s.filler.FLoad? ==> s.readPos == from && Space(c, s, from) >= c.fillLimit)
        && (s.filler.FDecide? ==> s.filler.read == from && Space(c, s, from) >= c.fillLimit)
        && FillsLeft(c, s) <= left)
  }

  lemma AdvancingFill<T>(c: Config, file: nat -> T, s: State<T>, from: int, left: int)
    requires Inv(c, file, s) && Advancing(c, s, from, left)
    ensures Advancing(c, FillerStep(c, file, s), from, left - 1)
  {
    if s.maxPos == from && s.filler.FDecide? { FillsWhenSpace(c, file, s, from); }
  }

  lemma AdvancingRead<T>(c: Config, file: nat -> T, s: State<T>, from: int, left: int, request: nat)
    requires Inv(c, file, s) && Advancing(c, s, from, left)
    ensures Advancing(c, ReaderStep(c, s, request), from, left)
  {
  }

  /** The two processes never both stall: when the reader has caught up and cache_fill starts with enough
      space, max_filepos grows after FillsLeft steps of the filler, whatever the reader does meanwhile. */
  lemma {:induction false} FillerProgress<T>(c: Config, file: nat -> T, s: State<T>, labels: seq<Label>)
    requires Inv(c, file, s) && s.filler.FLoad? && s.readPos == s.maxPos
    requires Space(c, s, s.readPos) >= c.fillLimit
    ensures Advancing(c, Run(c, file, s, labels), s.maxPos, FillsLeft(c, s) - CountFills(labels))
    ensures CountFills(labels) >= FillsLeft(c, s) ==> Run(c, file, s, labels).maxPos > s.maxPos
  {
    if labels != [] {
      var rest, l := labels[..|labels| - 1], labels[|labels| - 1];
      FillerProgress(c, file, s, rest);
      var m := Run(c, file, s, rest);
      var left := FillsLeft(c, s) - CountFills(rest);
      match l
      case Fill => AdvancingFill(c, file, m, s.maxPos, left);
      case Read(request) => AdvancingRead(c, file, m, s.maxPos, left, request);
    }
    if CountFills(labels) >= FillsLeft(c, s) {
      AdvancingEnds(c, file, Run(c, file, s, labels), s.maxPos, FillsLeft(c, s) - CountFills(labels));
    }
  }

  lemma AdvancingEnds<T>(c: Config, file: nat -> T, s: State<T>, from: int, left: int)
    requires Inv(c, file, s) && Advancing(c, s, from, left) && left <= 0
    ensures s.maxPos > from
  {
    if s.maxPos == from && (s.filler.FLoad? || s.filler.FDecide?) { FillsWhenSpace(c, file, s, from); }
  }

  /** The reader has nothing new, the filler gives up, and neither can change that. */
  ghost predicate Stuck<T>(c: Config, s: State<T>) {
    && s.readPos == s.maxPos && Space(c, s, s.readPos) < c.fillLimit
    && (s.filler.FLoad? || s.filler == FDecide(s.readPos))
    && !s.reader.RCopy?
  }

  lemma StuckStep<T>(c: Config, file: nat -> T, s: State<T>, l: Label)
    requires Inv(c, file, s) && Stuck(c, s)
    ensures var r := Step(c, file, s, l); Stuck(c, r) && r.(filler := s.filler, reader := s.reader) == s
  {
  }

  lemma {:induction false} StuckForever<T>(c: Config, file: nat -> T, s: State<T>, labels: seq<Label>)
    requires Inv(c, file, s) && Stuck(c, s)
    ensures var r := Run(c, file, s, labels);
      Stuck(c, r) && r.(filler := s.filler, reader := s.reader) == s
  {
    if labels != [] {
      hide Inv, Stuck, Step;
      StuckForever(c, file, s, labels[..|labels| - 1]);
      StuckStep(c, file, Run(c, file, s, labels[..|labels| - 1]), labels[|labels| - 1]);
    }
  }

  /** With buffer_size - back_size >= fill_limit no reachable state is stuck. */
  lemma NeverStuck<T>(c: Config, file: nat -> T, s: State<T>)
    requires Inv(c, file, s) && c.bufferSize - c.backSize >= c.fillLimit
    ensures !Stuck(c, s)
  {
  }

  // ---------------------------------------------------------------- whole calls

  ghost predicate Reaches<T(!new)>(c: Config, file: nat -> T, s: State<T>, t: State<T>)
    requires Inv(c, file, s)
  {
    exists labels :: Run(c, file, s, labels) == t
  }

  lemma ReachInv<T(!new)>(c: Config, file: nat -> T, s: State<T>, t: State<T>)
    requires Inv(c, file, s) && Reaches(c, file, s, t)
    ensures Inv(c, file, t)
  {
    hide Inv, Run;
    var labels :| Run(c, file, s, labels) == t;
  }

  lemma RunSnoc<T>(c: Config, file: nat -> T, s: State<T>, labels: seq<Label>, l: Label)
    requires Inv(c, file, s)
    ensures Run(c, file, s, labels + [l]) == Step(c, file, Run(c, file, s, labels), l)
  {
    hide Inv, Step;
    assert (labels + [l])[..|labels|] == labels;
  }

  lemma ReachStep<T(!new)>(c: Config, file: nat -> T, s: State<T>, t: State<T>, l: Label)
    requires Inv(c, file, s) && Reaches(c, file, s, t)
    ensures Inv(c, file, t)
    ensures Inv(c, file, Step(c, file, t, l)) && Reaches(c, file, s, Step(c, file, t, l))
  {
    hide Inv, Run, Step;
    ReachInv(c, file, s, t);
    StepKeepsInv(c, file, t, l);
    var labels :| Run(c, file, s, labels) == t;
    RunSnoc(c, file, s, labels, l);
  }

  lemma ReachSelf<T(!new)>(c: Config, file: nat -> T, s: State<T>)
    requires Inv(c, file, s)
    ensures Reaches(c, file, s, s)
  {
    assert Run(c, file, s, []) == s;
  }

  lemma {:induction false} ReachRun<T(!new)>(c: Config, file: nat -> T, s: State<T>, t: State<T>, labels: seq<Label>)
    requires Inv(c, file, s) && Reaches(c, file, s, t) && Inv(c, file, t)
    ensures Reaches(c, file, s, Run(c, file, t, labels))
  {
    if labels != [] {
      ReachRun(c, file, s, t, labels[..|labels| - 1]);
      ReachStep(c, file, s, Run(c, file, t, labels[..|labels| - 1]), labels[|labels| - 1]);
    }
  }

  lemma ReachTrans<T(!new)>(c: Config, file: nat -> T, s: State<T>, t: State<T>, u: State<T>)
    requires Inv(c, file, s) && Reaches(c, file, s, t) && Inv(c, file, t) && Reaches(c, file, t, u)
    ensures Reaches(c, file, s, u)
  {
    var labels :| Run(c, file, t, labels) == u;
    ReachRun(c, file, s, t, labels);
  }

  /** The bytes [from, from + n) of the file in consecutive slots starting at pos. */
  ghost function Filled<T>(file: nat -> T, buffer: seq<T>, pos: nat, from: nat, n: nat): (r: seq<T>)
    requires pos + n <= |buffer|
    ensures |r| == |buffer|
  {
    seq(|buffer|, i requires 0 <= i < |buffer| => if pos <= i < pos + n then file(from + (i - pos)) else buffer[i])
  }

  lemma FilledSnoc<T>(file: nat -> T, buffer: seq<T>, pos: nat, from: nat, k: nat)
    requires pos + k < |buffer|
    ensures Filled(file, buffer, pos, from, k)[pos + k := file(from + k)] == Filled(file, buffer, pos, from, k + 1)
  {
  }

  /** The state of a copy after k bytes. */
  ghost function Copied<T>(file: nat -> T, s: State<T>, k: nat): State<T>
    requires s.filler.FCopy? && s.filler.pos >= 0 && s.maxPos >= 0 && s.filler.pos + k <= |s.buffer|
  {
    s.(buffer := Filled(file, s.buffer, s.filler.pos, s.maxPos, k), filler := FCopy(s.filler.pos, s.filler.len, k))
  }

  lemma CopyOne<T>(c: Config, file: nat -> T, s: State<T>, k: nat)
    requires s.filler.FCopy? && s.filler.pos >= 0 && s.maxPos >= 0 && s.filler.pos + k < |s.buffer| && k < s.filler.len
    requires ReaderInBounds(s)
    ensures FillerInBounds(Copied(file, s, k)) && ReaderInBounds(Copied(file, s, k))
    ensures Step(c, file, Copied(file, s, k), Fill) == Copied(file, s, k + 1)
  {
    FilledSnoc(file, s.buffer, s.filler.pos, s.maxPos, k);
  }

  lemma CopyNone<T>(file: nat -> T, s: State<T>)
    requires s.filler.FCopy? && s.filler.done == 0
    requires s.filler.pos >= 0 && s.maxPos >= 0 && s.filler.pos <= |s.buffer|
    ensures Copied(file, s, 0) == s
  {
    assert Filled(file, s.buffer, s.filler.pos, s.maxPos, 0) == s.buffer;
  }

  lemma {:induction false} CopyRun<T(!new)>(c: Config, file: nat -> T, s: State<T>, t: State<T>, k: nat)
    requires Inv(c, file, s) && Reaches(c, file, s, t)
    requires t.filler.FCopy? && t.filler.done == 0 && k <= t.filler.len && ReaderInBounds(t)
    requires t.filler.pos >= 0 && t.maxPos >= 0 && t.filler.pos + t.filler.len <= |t.buffer|
    ensures Inv(c, file, Copied(file, t, k)) && Reaches(c, file, s, Copied(file, t, k))
  {
    hide *;
    if k == 0 {
      CopyNone(file, t);
      ReachInv(c, file, s, t);
    } else {
      CopyRun(c, file, s, t, k - 1);
      CopyOne(c, file, t, k - 1);
      ReachStep(c, file, s, Copied(file, t, k - 1), Fill);
    }
  }

  /** The effect of one whole cache_fill call that runs while the reader does not move. */
  ghost function FillCall<T>(c: Config, file: nat -> T, s: State<T>): State<T>
    requires Inv(c, file, s) && s.filler.FLoad?
  {
    var n := FillLength(c, s, s.readPos);
    if n <= 0 then s
    else
      var pos := s.maxPos - s.offset;
      s.(buffer := Filled(file, s.buffer, pos, s.maxPos, n),
         minPos := s.readPos - Back(c, s.readPos, s.minPos),
         maxPos := s.maxPos + n,
         offset := if pos + n >= c.bufferSize then s.offset + c.bufferSize else s.offset)
  }

  /** The state in which a call that adds n bytes starts copying. */
  ghost function CopyStart<T>(c: Config, s: State<T>, n: int): State<T> {
    s.(minPos := s.readPos - Back(c, s.readPos, s.minPos), filler := FCopy(s.maxPos - s.offset, n, 0))
  }

  lemma CopyStartSteps<T>(c: Config, file: nat -> T, s: State<T>, n: int)
    requires s.filler.FLoad? && ReaderInBounds(s)
    requires n == FillLength(c, s, s.readPos) > 0 && s.maxPos - s.offset < c.bufferSize
    requires Space(c, s, s.readPos) >= c.fillLimit
    ensures var s1 := Step(c, file, s, Fill);
      FillerInBounds(s1) && FillerInBounds(Step(c, file, s1, Fill))
      && Step(c, file, Step(c, file, s1, Fill), Fill) == CopyStart(c, s, n)
  {
  }

  lemma ReachCopyStart<T(!new)>(c: Config, file: nat -> T, s: State<T>)
    requires Inv(c, file, s) && s.filler.FLoad? && FillLength(c, s, s.readPos) > 0
    ensures var t := CopyStart(c, s, FillLength(c, s, s.readPos)); Inv(c, file, t) && Reaches(c, file, s, t)
  {
    CopyStartSteps(c, file, s, FillLength(c, s, s.readPos));
    hide *;
    ReachSelf(c, file, s);
    ReachStep(c, file, s, s, Fill);
    ReachStep(c, file, s, Step(c, file, s, Fill), Fill);
    ReachStep(c, file, s, Step(c, file, Step(c, file, s, Fill), Fill), Fill);
  }

  lemma FillCallSteps<T>(c: Config, file: nat -> T, s: State<T>, u: State<T>)
    requires Inv(c, file, s) && s.filler.FLoad? && FillLength(c, s, s.readPos) > 0
    requires var t := CopyStart(c, s, FillLength(c, s, s.readPos)); Inv(c, file, t) && u == Copied(file, t, t.filler.len)
    ensures FillerInBounds(u) && FillerInBounds(Step(c, file, u, Fill))
    ensures Step(c, file, Step(c, file, u, Fill), Fill) == FillCall(c, file, s)
  {
    hide Filled;
  }

  lemma ReachFillCall<T(!new)>(c: Config, file: nat -> T, s: State<T>)
    requires Inv(c, file, s) && s.filler.FLoad?
    ensures Inv(c, file, FillCall(c, file, s)) && Reaches(c, file, s, FillCall(c, file, s))
  {
    var n := FillLength(c, s, s.readPos);
    if n <= 0 {
      ReachSelf(c, file, s);
    } else {
      ReachCopyStart(c, file, s);
      var t := CopyStart(c, s, n);
      CopyRun(c, file, s, t, n);
      var u := Copied(file, t, n);
      FillCallSteps(c, file, s, u);
      hide *;
      ReachStep(c, file, s, u, Fill);
      ReachStep(c, file, s, Step(c, file, u, Fill), Fill);
    }
  }

  /** The copy of a chunk of a cache_read call that still has to deliver `size` bytes, after k bytes. */
  ghost function Taken<T>(s: State<T>, size: int, pos: nat, len: nat, k: nat): State<T>
    requires pos + k <= |s.buffer|
  {
    s.(consumed := s.consumed + s.buffer[pos..pos + k], reader := RCopy(size, pos, len, k))
  }

  /** The chunk has been delivered. */
  ghost function ChunkRead<T>(s: State<T>, pos: nat, n: nat): State<T>
    requires pos + n <= |s.buffer|
  {
    s.(consumed := s.consumed + s.buffer[pos..pos + n], readPos := s.readPos + n)
  }

  lemma TakeOne<T>(c: Config, file: nat -> T, s: State<T>, size: int, pos: nat, len: nat, k: nat)
    requires pos + len <= |s.buffer| && k < len && FillerInBounds(s)
    ensures ReaderInBounds(Taken(s, size, pos, len, k)) && FillerInBounds(Taken(s, size, pos, len, k))
    ensures Step(c, file, Taken(s, size, pos, len, k), Read(0)) == Taken(s, size, pos, len, k + 1)
  {
    assert s.buffer[pos..pos + k] + [s.buffer[pos + k]] == s.buffer[pos..pos + k + 1];
  }

  lemma {:induction false} TakeRun<T(!new)>(c: Config, file: nat -> T, s0: State<T>, s: State<T>, size: int,
                                            pos: nat, len: nat, k: nat)
    requires Inv(c, file, s0) && FillerInBounds(s) && pos + len <= |s.buffer| && k <= len
    requires Inv(c, file, Taken(s, size, pos, len, 0)) && Reaches(c, file, s0, Taken(s, size, pos, len, 0))
    ensures Inv(c, file, Taken(s, size, pos, len, k)) && Reaches(c, file, s0, Taken(s, size, pos, len, k))
  {
    hide Inv, Reaches, Run, Step;
    if k > 0 {
      TakeRun(c, file, s0, s, size, pos, len, k - 1);
      TakeOne(c, file, s, size, pos, len, k - 1);
      ReachStep(c, file, s0, Taken(s, size, pos, len, k - 1), Read(0));
    }
  }

  /** The chunk that the next pass of the loop delivers: up to the end of the buffer. */
  ghost function ChunkLength<T>(c: Config, s: State<T>, size: int): int
    requires c.bufferSize > 0 && s.readPos >= 0
  {
    Min(c.bufferSize - Slot(c, s.readPos), size)
  }

  lemma TakeStart<T>(c: Config, file: nat -> T, s: State<T>, size: int)
    requires Inv(c, file, s) && s.reader == RHead(size) && 0 < size <= s.maxPos - s.readPos && c.bufferSize > 0
    ensures var pos, len := Slot(c, s.readPos), ChunkLength(c, s, size);
      && len > 0 && pos + len <= |s.buffer| && ReaderInBounds(Step(c, file, s, Read(0)))
      && FillerInBounds(Step(c, file, s, Read(0)))
      && Step(c, file, Step(c, file, s, Read(0)), Read(0)) == Taken(s, size, pos, len, 0)
  {
    ReadPositionIsSlot(c, s);
    var pos := Slot(c, s.readPos);
    assert s.consumed + s.buffer[pos..pos] == s.consumed;
  }

  lemma TakeEnd<T>(c: Config, file: nat -> T, s: State<T>, size: int, pos: nat, len: nat)
    requires FillerInBounds(s) && pos + len <= |s.buffer|
    ensures ReaderInBounds(Taken(s, size, pos, len, len)) && FillerInBounds(Taken(s, size, pos, len, len))
    ensures Step(c, file, Taken(s, size, pos, len, len), Read(0)) == ChunkRead(s, pos, len).(reader := RHead(size - len))
  {
  }

  /** One pass of the cache_read loop. */
  lemma ReachChunk<T(!new)>(c: Config, file: nat -> T, s0: State<T>, s: State<T>, size: int) returns (len: nat)
    requires Inv(c, file, s0) && Inv(c, file, s) && Reaches(c, file, s0, s)
    requires s.reader == RHead(size) && 0 < size <= s.maxPos - s.readPos && s.readPos >= 0 && c.bufferSize > 0
    ensures 0 < len <= size
    ensures var t := Delivered(file, s, len).(reader := RHead(size - len)); Inv(c, file, t) && Reaches(c, file, s0, t)
  {
    TakeStart(c, file, s, size);
    var pos := Slot(c, s.readPos);
    len := ChunkLength(c, s, size);
    TakeEnd(c, file, s, size, pos, len);
    assert |s.buffer| == c.bufferSize && FillerInBounds(s);
    ChunkIsFile(c, file, s, pos, len);
    hide *;
    assert ChunkRead(s, pos, len) == Delivered(file, s, len) by { SameChunk(file, s, pos, len); }
    ReachStep(c, file, s0, s, Read(0));
    ReachStep(c, file, s0, Step(c, file, s, Read(0)), Read(0));
    TakeRun(c, file, s0, s, size, pos, len, len);
    ReachStep(c, file, s0, Taken(s, size, pos, len, len), Read(0));
  }

  lemma SameChunk<T>(file: nat -> T, s: State<T>, pos: nat, len: nat)
    requires s.readPos >= 0 && pos + len <= |s.buffer| && s.buffer[pos..pos + len] == FileRange(file, s.readPos, len)
    ensures ChunkRead(s, pos, len) == Delivered(file, s, len)
  {
  }

  /** The next n bytes of the file have been delivered. */
  ghost function Delivered<T>(file: nat -> T, s: State<T>, n: nat): State<T>
    requires s.readPos >= 0
  {
    s.(consumed := s.consumed + FileRange(file, s.readPos, n), readPos := s.readPos + n)
  }

  lemma DeliveredTwice<T>(file: nat -> T, s: State<T>, m: nat, n: nat, r: Reader)
    requires s.readPos >= 0
    ensures Delivered(file, Delivered(file, s, m).(reader := r), n) == Delivered(file, s, m + n).(reader := r)
  {
    RangeAppend(file, s.readPos, m, n);
    assert s.consumed + FileRange(file, s.readPos, m) + FileRange(file, s.readPos + m, n) ==
      s.consumed + (FileRange(file, s.readPos, m) + FileRange(file, s.readPos + m, n));
  }

  /** The passes of the loop, as many as the wrap-around needs. */
  lemma {:induction false} ReachPasses<T(!new)>(c: Config, file: nat -> T, s0: State<T>, s: State<T>, size: nat)
    requires Inv(c, file, s0) && Inv(c, file, s) && Reaches(c, file, s0, s)
    requires s.reader == RHead(size) && size <= s.maxPos - s.readPos && s.readPos >= 0 && c.bufferSize > 0
    ensures var t := Delivered(file, s, size).(reader := RHead(0)); Inv(c, file, t) && Reaches(c, file, s0, t)
    decreases size
  {
    hide Inv, Reaches, Run, Step, FileRange;
    if size == 0 {
      assert s.consumed + FileRange(file, s.readPos, 0) == s.consumed by { RangeEmpty(file, s.readPos); }
    } else {
      var len := ReachChunk(c, file, s0, s, size);
      var u := Delivered(file, s, len).(reader := RHead(size - len));
      ReachPasses(c, file, s0, u, size - len);
      DeliveredTwice(file, s, len, size - len, RHead(size - len));
    }
  }

  /** The steps of one uninterrupted cache_read of bytes that are cached deliver exactly those bytes. */
  lemma ReachReadCall<T(!new)>(c: Config, file: nat -> T, s0: State<T>, s: State<T>, n: nat)
    requires Inv(c, file, s0) && Inv(c, file, s) && Reaches(c, file, s0, s)
    requires s.reader.RIdle? && 0 < n <= s.maxPos - s.readPos && s.readPos >= 0
    ensures Inv(c, file, Delivered(file, s, n)) && Reaches(c, file, s0, Delivered(file, s, n))
  {
    assert c.bufferSize > 0;
    var t := Delivered(file, s, n).(reader := RHead(0));
    assert Step(c, file, s, Read(n)) == s.(reader := RHead(n));
    hide Inv, Reaches, Run, FileRange;
    ReachStep(c, file, s0, s, Read(n));
    ReachPasses(c, file, s0, s.(reader := RHead(n)), n);
    assert Delivered(file, s.(reader := RHead(n)), n).(reader := RHead(0)) == t;
    ReachStep(c, file, s0, t, Read(0));
    assert Step(c, file, t, Read(0)) == Delivered(file, s, n);
  }

  ghost predicate AtRest<T>(s: State<T>) {
    s.filler.FLoad? && s.reader.RIdle? && s.readPos == s.maxPos
  }

  /** One filling call, then one reading call that drains it: the distance from min_filepos grows. */
  lemma FillAndDrain<T(!new)>(c: Config, file: nat -> T, s: State<T>) returns (t: State<T>)
    requires Inv(c, file, s) && AtRest(s)
    requires c.bufferSize - c.backSize < c.fillLimit <= Space(c, s, s.readPos)
    ensures Inv(c, file, t) && Reaches(c, file, s, t) && AtRest(t)
    ensures t.minPos == s.minPos && t.readPos > s.readPos
  {
    FillsWhenSpace(c, file, s, s.readPos);
    ReachFillCall(c, file, s);
    var f := FillCall(c, file, s);
    var n := FillLength(c, s, s.readPos);
    assert f.readPos == s.readPos && f.maxPos == s.maxPos + n && f.reader.RIdle? && f.filler.FLoad? && f.minPos == s.minPos;
    ReachReadCall(c, file, s, f, n);
    t := Delivered(file, f, n);
  }

  /** A stuck state is reachable when buffer_size - back_size < fill_limit. */
  lemma StuckReachable<T(!new)>(c: Config, file: nat -> T, s: State<T>) returns (t: State<T>)
    requires Inv(c, file, s) && AtRest(s) && c.bufferSize - c.backSize < c.fillLimit
    ensures Inv(c, file, t) && Reaches(c, file, s, t) && Stuck(c, t)
    decreases c.backSize - (s.readPos - s.minPos)
  {
    if Space(c, s, s.readPos) < c.fillLimit {
      t := s;
      ReachSelf(c, file, s);
    } else {
      var u := FillAndDrain(c, file, s);
      assert s.readPos - s.minPos < c.backSize;
      t := StuckReachable(c, file, u);
      hide *;
      ReachTrans(c, file, s, u, t);
    }
  }

  /** The two processes can stall for ever exactly when the space that back_size leaves is below fill_limit. */
  lemma StallCondition<T(!new)>(c: Config, file: nat -> T, s: State<T>)
    requires Initial(c, s)
    ensures Inv(c, file, s)
    ensures (exists t :: Reaches(c, file, s, t) && Stuck(c, t)) <==> c.bufferSize - c.backSize < c.fillLimit
  {
    if c.bufferSize - c.backSize < c.fillLimit {
      var t := StuckReachable(c, file, s);
    } else {
      forall t | Reaches(c, file, s, t) ensures !Stuck(c, t) {
        var labels :| Run(c, file, s, labels) == t;
        NeverStuck(c, file, t);
      }
    }
  }

  /** The exact condition for the sizes given to cache_init; 18 sectors are always enough. */
  lemma CacheStallsIff<T(!new)>(c: Config, size: nat, sector: nat, file: nat -> T, s: State<T>)
    requires sector > 0 && Built(c, size, sector) && Initial(c, s)
    ensures Inv(c, file, s)
    ensures (exists t :: Reaches(c, file, s, t) && Stuck(c, t)) <==> size - size % sector - size / 2 < 8 * sector
    ensures size >= 18 * sector ==> forall t :: Reaches(c, file, s, t) ==> !Stuck(c, t)
  {
    StallCondition(c, file, s);
    hide Inv, Reaches, Stuck, Initial;
    WholeSectors(c.bufferSize, size, sector);
    assert size % sector < sector;
  }

  lemma WholeSectors(b: nat, size: nat, sector: nat)
    requires sector > 0 && b % sector == 0 && b <= size < b + sector
    ensures b == size - size % sector
  {
    QuotientUnique(sector, size, b / sector, size - b);
  }

  // ---------------------------------------------------------------- the calls in place

  /** The shared struct with its buffer, for calls that run while the other process does not move. */
  class Cache<T(0,!new)> {
    const c: Config
    const buffer: array<T>
    var readPos: int
    var minPos: int
    var maxPos: int
    var offset: int
    ghost var consumed: seq<T>

    ghost function Snapshot(): State<T>
      reads this, buffer
    {
      State(buffer[..], readPos, minPos, maxPos, offset, FLoad, RIdle, consumed)
    }

    ghost predicate Valid(file: nat -> T)
      reads this, buffer
    {
      Inv(c, file, Snapshot())
    }

    constructor (size: nat, sector: nat, ghost file: nat -> T)
      requires sector > 0
      ensures Built(c, size, sector) && Initial(c, Snapshot()) && Valid(file) && fresh(buffer)
    {
      InitBuilds(size, sector);
      c := CacheInit(size, sector);
      buffer := new T[(size / sector) * sector];
      readPos, minPos, maxPos, offset, consumed := 0, 0, 0, 0, [];
    }

    /** The byte transfer of a fill. */
    method Transfer(file: nat -> T, pos: nat, from: nat, len: nat)
      requires pos + len <= buffer.Length
      modifies buffer
      ensures buffer[..] == Filled(file, old(buffer[..]), pos, from, len)
    {
      for i := 0 to len
        invariant buffer[..] == Filled(file, old(buffer[..]), pos, from, i)
      {
        buffer[pos + i] := file(from + i);
        FilledSnoc(file, old(buffer[..]), pos, from, i);
      }
    }

    /** cache_fill: the in-place call has exactly the effect of its sequence of steps. */
    method Fill(file: nat -> T) returns (len: int)
      requires Valid(file)
      modifies this, buffer
      ensures Valid(file) && Snapshot() == FillCall(c, file, old(Snapshot()))
      ensures maxPos == old(maxPos) + len
      ensures len > 0 <==> Space(c, old(Snapshot()), readPos) >= c.fillLimit
      ensures len == FillLength(c, old(Snapshot()), readPos)
    {
      hide Inv, Filled, Reaches, Run;
      ghost var s := Snapshot();
      FillBounds(c, file, s);
      FillsWhenSpace(c, file, s, readPos);
      ReachFillCall(c, file, s);
      var read := readPos;
      var back := read - minPos;
      if back < 0 { back := 0; }
      if back > c.backSize { back := c.backSize; }
      var newb := maxPos - read;
      if newb < 0 { newb := 0; }
      var space := c.bufferSize - (newb + back);
      var pos := maxPos - offset;
      if pos >= c.bufferSize { pos := pos - c.bufferSize; }
      if space < c.fillLimit { return 0; }
      if space > c.bufferSize - pos { space := c.bufferSize - pos; }
      if space > MAX_BLOCK { space := MAX_BLOCK; }
      minPos := read - back;
      Transfer(file, pos, maxPos, space);
      len := space;
      maxPos := maxPos + len;
      if pos + len >= c.bufferSize { offset := offset + c.bufferSize; }
    }

    /** One pass of the cache_read loop: the longest run of new bytes up to the end of the buffer. */
    method ReadChunk(ghost file: nat -> T, left: int) returns (data: seq<T>, newb: int)
      requires Valid(file) && left > 0
      modifies this
      ensures Valid(file) && minPos == old(minPos) && maxPos == old(maxPos) && offset == old(offset)
      ensures 0 <= old(readPos) && 0 <= newb <= left && readPos == old(readPos) + newb <= maxPos
      ensures newb == 0 ==> readPos == maxPos
      ensures data == FileRange(file, old(readPos), newb)
    {
      hide Inv, FileRange, Slot;
      ReadBounds(c, file, Snapshot());
      var pos := readPos - offset;
      if pos < 0 { pos := pos + c.bufferSize; } else if pos >= c.bufferSize { pos := pos - c.bufferSize; }
      newb := maxPos - readPos;
      if newb <= 0 { RangeEmpty(file, readPos); return [], 0; }
      if newb > c.bufferSize - pos { newb := c.bufferSize - pos; }
      if newb > left { newb := left; }
      ChunkKeepsInv(c, file, Snapshot(), pos, newb);
      data := buffer[pos..pos + newb];
      consumed := consumed + data;
      readPos := readPos + newb;
    }

    lemma StartOfRead(file: nat -> T)
      requires Valid(file)
      ensures 0 <= readPos <= maxPos && FileRange(file, readPos, 0) == []
    {
    }

    /** cache_read up to the point where it would have to wait: it delivers the next bytes of the file,
        as many as asked for or as are cached. */
    method Read(ghost file: nat -> T, size: int) returns (data: seq<T>, total: int)
      requires Valid(file)
      modifies this
      ensures Valid(file) && readPos == old(readPos) + total
      ensures total ==
        if size <= 0 then 0 else if size < old(maxPos) - old(readPos) then size else old(maxPos) - old(readPos)
      ensures old(readPos) >= 0 && total >= 0 && data == FileRange(file, old(readPos), total)
      ensures minPos == old(minPos) && maxPos == old(maxPos) && offset == old(offset)
    {
      hide *;
      StartOfRead(file);
      data, total := [], 0;
      var left := size;
      while left > 0
        invariant Valid(file) && minPos == old(minPos) && maxPos == old(maxPos) && offset == old(offset)
        invariant readPos == old(readPos) + total <= maxPos && total + left == size && (left >= 0 || left == size)
        invariant 0 <= total && data == FileRange(file, old(readPos), total)
      {
        var chunk, newb := ReadChunk(file, left);
        if newb == 0 { return; }
        RangeAppend(file, old(readPos), total, newb);
        data := data + chunk;
        left := left - newb;
        total := total + newb;
      }
    }
  }

  lemma FillBounds<T>(c: Config, file: nat -> T, s: State<T>)
    requires Inv(c, file, s) && s.filler.FLoad?
    ensures |s.buffer| == c.bufferSize && c.fillLimit > 0 && 0 <= s.maxPos && s.minPos <= s.readPos
    ensures c.bufferSize > 0 ==> 0 <= s.maxPos - s.offset < c.bufferSize
    ensures c.bufferSize == 0 ==> Space(c, s, s.readPos) < c.fillLimit
  {
  }

  lemma ReadBounds<T>(c: Config, file: nat -> T, s: State<T>)
    requires Inv(c, file, s)
    ensures |s.buffer| == c.bufferSize && 0 <= s.readPos <= s.maxPos
    ensures s.readPos < s.maxPos ==> c.bufferSize > 0 && ReadPosition(c, s) == Slot(c, s.readPos) < c.bufferSize
  {
    if c.bufferSize > 0 { ReadPositionIsSlot(c, s); }
  }

  /** The n bytes of the file from a position on. */
  ghost function FileRange<T>(file: nat -> T, from: nat, n: nat): seq<T> {
    seq(n, i requires 0 <= i < n => file(from + i))
  }

  lemma RangeEmpty<T>(file: nat -> T, from: nat)
    ensures FileRange(file, from, 0) == []
  {
  }

  lemma RangeAppend<T>(file: nat -> T, from: nat, m: nat, n: nat)
    ensures FileRange(file, from, m) + FileRange(file, from + m, n) == FileRange(file, from, m + n)
  {
  }

  /** Consecutive slots from the reader's slot on hold consecutive file bytes. */
  lemma ChunkIsFile<T>(c: Config, file: nat -> T, s: State<T>, pos: nat, n: nat)
    requires Inv(c, file, s) && c.bufferSize > 0
    requires pos == Slot(c, s.readPos) && pos + n <= c.bufferSize && s.readPos + n <= s.maxPos
    ensures s.buffer[pos..pos + n] == FileRange(file, s.readPos, n)
  {
    forall i: nat | i < n ensures s.buffer[pos..pos + n][i] == FileRange(file, s.readPos, n)[i] {
      SlotShift(c.bufferSize, s.readPos, i);
      assert s.buffer[Slot(c, s.readPos + i)] == file(s.readPos + i);
    }
  }

  lemma ChunkKeepsInv<T>(c: Config, file: nat -> T, s: State<T>, pos: nat, n: nat)
    requires Inv(c, file, s) && s.reader.RIdle? && s.filler.FLoad? && c.bufferSize > 0
    requires pos == Slot(c, s.readPos) && pos + n <= c.bufferSize && s.readPos + n <= s.maxPos
    ensures s.buffer[pos..pos + n] == FileRange(file, s.readPos, n)
    ensures Inv(c, file, ChunkRead(s, pos, n))
  {
    ChunkIsFile(c, file, s, pos, n);
    hide Slot;
    var t := ChunkRead(s, pos, n);
    assert Positions(c, t) && FillerOk(c, file, t) && ReaderOk(c, t);
    assert t.consumed == s.consumed + FileRange(file, s.readPos, n);
  }
}
