/** The four-slot picture ring of lavc/ffplay.c, shared by the video thread (queue_picture and the flush in
    get_video_frame) and the main thread (video_refresh, with pictq_next_picture and pictq_prev_picture).

    `rindex` and `windex` change outside the lock, `size` inside it, and the `skip` and `allocated` flags are
    read without it, so each of these accesses is a step of its own.  `made`, `published` and `position` are
    history: pictures completed, pictures counted in `size`, and the number of the picture at `rindex`. */
module PictureRing {

  const N := 4    // VIDEO_PICTURE_QUEUE_SIZE

  /** `frame` is the number of the picture a slot holds, -1 while there is none or it is being replaced. */
  datatype Slot = Slot(isAllocated: bool, skip: bool, frame: int)

  datatype VideoThread =
    | VIdle
    | VWait                    // queue_picture waits for room
    | VFill                    // it owns the slot at windex
    | VAllocWait               // it asked the main thread for a bitmap
    | VCopy                    // pixels are being written
    | VCopied                  // about to clear skip
    | VAdvance                 // about to move windex
    | VPublish                 // about to count the picture, under the lock
    | VMark(i: nat)            // flush: holds the lock and marks slot i
    | VDrain                   // flush: waits until size is 0

  datatype MainThread =
    | MIdle
    | MPrevAllocated | MPrevSkip | MPrevLock      // pictq_prev_picture: its two tests, then its locked part
    | MRetry                                      // size == 0 test
    | MCheckSkip | MShow                          // skip test, then the decision about the picture
    | MNext(retry: bool) | MNextLock(retry: bool) // pictq_next_picture: rindex, then its locked part

  datatype State = State(
    slots: seq<Slot>, rindex: int, windex: int, size: int,
    video: VideoThread, main: MainThread,
    made: int, published: int, position: int, shown: seq<int>)

  datatype Label =
    | Picture | FlushPacket | Abort | Realloc | VideoGo          // video thread
    | Alloc | Refresh(force: bool) | TooEarly | DropLate | MainGo // main thread

  predicate Shape(s: State) {
    |s.slots| == N && 0 <= s.rindex < N && 0 <= s.windex < N && (s.video.VMark? ==> s.video.i < N)
  }

  function Init(): State {
    State(seq(N, _ => Slot(false, false, -1)), 0, 0, 0, VIdle, MIdle, 0, 0, 0, [])
  }

  function Inc(i: int): int { if i + 1 == N then 0 else i + 1 }

  /** The slot before rindex. */
  function Prev(s: State): int
    requires Shape(s)
  {
    (s.rindex + N - 1) % N
  }

  function SetSlot(s: State, i: int, slot: Slot): State
    requires Shape(s) && 0 <= i < N
  {
    s.(slots := s.slots[i := slot])
  }

  /** A step of the video thread; a label that does not fit the program counter leaves the state alone. */
  function VideoStep(s: State, l: Label): State
    requires Shape(s)
  {
    var w := s.slots[s.windex];
    match s.video
    case VIdle =>
      if l.Picture? then s.(video := VWait) else if l.FlushPacket? then s.(video := VMark(0)) else s
    case VWait =>
      if l.Abort? then s.(video := VIdle) else if l.VideoGo? && s.size < N - 2 then s.(video := VFill) else s
    case VFill =>
      if l.Abort? then s.(video := VIdle)
      else if l.Realloc? || (l.VideoGo? && !w.isAllocated)
      then SetSlot(s, s.windex, w.(isAllocated := false, frame := -1)).(video := VAllocWait)
      else if l.VideoGo? then SetSlot(s, s.windex, w.(frame := -1)).(video := VCopy)
      else s
    case VAllocWait =>
      if l.Abort? then s.(video := VIdle) else if l.VideoGo? && w.isAllocated then s.(video := VCopy) else s
    case VCopy => if l.VideoGo? then SetSlot(s, s.windex, w.(frame := s.made)).(video := VCopied) else s
    case VCopied => if l.VideoGo? then SetSlot(s, s.windex, w.(skip := false)).(video := VAdvance) else s
    case VAdvance => if l.VideoGo? then s.(windex := Inc(s.windex), made := s.made + 1, video := VPublish) else s
    case VPublish =>
      if l.VideoGo? then s.(size := s.size + 1, published := s.published + 1, video := VIdle) else s
    case VMark(i) =>
      if l.VideoGo?
      then SetSlot(s, i, s.slots[i].(skip := true)).(video := if i + 1 < N then VMark(i + 1) else VDrain)
      else s
    case VDrain =>
      if l.Abort? || (l.VideoGo? && s.size == 0) then s.(video := VIdle) else s
  }

  /** A step of the main thread; its locked parts wait while a flush holds the lock. */
  function MainStep(s: State, l: Label): State
    requires Shape(s)
  {
    var free := !s.video.VMark?;
    match s.main
    case MIdle =>
      if l.Refresh? then s.(main := if l.force then MPrevAllocated else MRetry)
      else if l.Alloc? && s.video.VAllocWait?
      then SetSlot(s, s.windex, s.slots[s.windex].(isAllocated := true))
      else s
    case MPrevAllocated =>
      if l.MainGo? then s.(main := if s.slots[Prev(s)].isAllocated then MPrevSkip else MRetry) else s
    case MPrevSkip =>
      if l.MainGo? then s.(main := if !s.slots[Prev(s)].skip then MPrevLock else MRetry) else s
    case MPrevLock =>
      if !(l.MainGo? && free) then s
      else if s.size < N - 1
      then s.(rindex := Prev(s), position := s.position - 1, size := s.size + 1, main := MRetry)
      else s.(main := MRetry)
    case MRetry => if l.MainGo? then s.(main := if s.size == 0 then MIdle else MCheckSkip) else s
    case MCheckSkip =>
      if l.MainGo? then s.(main := if s.slots[s.rindex].skip then MNext(true) else MShow) else s
    case MShow =>
      if l.TooEarly? then s.(main := MIdle)
      else if l.DropLate? && s.size > 1 then s.(main := MNext(true))
      else if l.MainGo? then s.(shown := s.shown + [s.slots[s.rindex].frame], main := MNext(false))
      else s
    case MNext(retry) =>
      if l.MainGo? then s.(rindex := Inc(s.rindex), position := s.position + 1, main := MNextLock(retry)) else s
    case MNextLock(retry) =>
      if l.MainGo? && free then s.(size := s.size - 1, main := if retry then MRetry else MIdle) else s
  }

  function Step(s: State, l: Label): State
    requires Shape(s)
  {
    match l
    case Picture => VideoStep(s, l)
    case FlushPacket => VideoStep(s, l)
    case Abort => VideoStep(s, l)
    case Realloc => VideoStep(s, l)
    case VideoGo => VideoStep(s, l)
    case _ => MainStep(s, l)
  }

  // ---------------------------------------------------------------- the invariant

  /** The video thread has passed the wait for room and not yet counted its picture. */
  predicate Filling(v: VideoThread) {
    v.VFill? || v.VAllocWait? || v.VCopy? || v.VCopied? || v.VAdvance? || v.VPublish?
  }

  ghost predicate Counters(s: State) {
    && Shape(s)
    && 0 <= s.position <= s.published
    && s.made == (if s.video.VPublish? then s.published + 1 else s.published)
    && s.rindex == s.position % N && s.windex == s.made % N
    && s.size == s.published - s.position + (if s.main.MNextLock? then 1 else 0)
    && s.size <= (if Filling(s.video) then N - 1 else N)
    && (s.main.MCheckSkip? || s.main.MShow? || s.main.MNext? ==> s.position < s.published)
  }

  /** Slots of recent pictures still hold them; only a picture three behind the count may have gone. */
  ghost predicate Contents(s: State)
    requires Shape(s)
  {
    && (forall k: nat :: s.published - (N - 1) <= k < s.made ==> s.slots[k % N].frame == k)
    && (s.position >= 0 && s.position == s.published - N ==> s.slots[s.position % N].frame == s.position)
    && (s.made >= 0 && (s.video.VCopied? || s.video.VAdvance?) ==> s.slots[s.made % N].frame == s.made)
  }

  ghost predicate Flags(s: State)
    requires Shape(s)
  {
    && (forall j :: 0 <= j < N && s.slots[j].isAllocated ==> s.published >= j)
    && ((s.main.MPrevSkip? || s.main.MPrevLock?) && s.position == 0 ==> s.published >= N - 1)
    && (s.video.VMark? ==> forall j :: 0 <= j < s.video.i ==> s.slots[j].skip)
    && (s.video.VDrain? ==> forall j :: 0 <= j < N ==> s.slots[j].skip)
  }

  ghost predicate Inv(s: State) {
    Counters(s) && Contents(s) && Flags(s)
  }

  lemma IncIsNext(k: nat)
    ensures Inc(k % N) == (k + 1) % N
  {
  }

  lemma PrevIsBefore(k: int)
    requires k >= 1
    ensures (k % N + N - 1) % N == (k - 1) % N
  {
  }

  lemma VideoKeepsCounters(s: State, l: Label)
    requires Counters(s)
    ensures Counters(VideoStep(s, l))
  {
    if s.video.VAdvance? { IncIsNext(s.made); }
  }

  lemma VideoKeepsInv(s: State, l: Label)
    requires Inv(s)
    ensures Inv(VideoStep(s, l))
  {
    VideoKeepsCounters(s, l);
    VideoKeepsContents(s, l);
    VideoKeepsFlags(s, l);
  }

  lemma VideoKeepsContents(s: State, l: Label)
    requires Inv(s)
    ensures Contents(VideoStep(s, l))
  {
    if Filling(s.video) && !s.video.VPublish? {
      FillKeepsContents(s, l);
    }
  }

  lemma FillKeepsContents(s: State, l: Label)
    requires Inv(s) && Filling(s.video) && !s.video.VPublish?
    ensures Contents(VideoStep(s, l))
  {
    hide Flags;
    forall k | s.made - N < k < s.made ensures k % N != s.windex { SlotsDiffer(k, s.made); }
    assert s.position != s.published - N;
  }

  lemma SlotsDiffer(k: int, m: int)
    requires 0 < m - k < N
    ensures k % N != m % N
  {
  }

  lemma VideoKeepsFlags(s: State, l: Label)
    requires Inv(s)
    ensures Flags(VideoStep(s, l))
  {
  }

  /** The locked part of a backward step either does nothing or makes readable again exactly the picture
      just before the read position, which its slot still holds. */
  lemma BackwardStepReexposes(s: State)
    requires Inv(s) && s.main.MPrevLock? && !s.video.VMark?
    ensures var r := MainStep(s, MainGo);
      if s.size < N - 1
      then r.position == s.position - 1 >= 0 && r.rindex == r.position % N && r.slots[r.rindex].frame == r.position
      else r == s.(main := MRetry)
    ensures Counters(MainStep(s, MainGo))
  {
    if s.size < N - 1 { PrevIsBefore(s.position); }
  }

  lemma MainKeepsCounters(s: State, l: Label)
    requires Inv(s)
    ensures Counters(MainStep(s, l))
  {
    if s.main.MPrevLock? {
      if l.MainGo? && !s.video.VMark? { BackwardStepReexposes(s); }
    } else if s.main.MNext? {
      IncIsNext(s.position);
    }
  }

  lemma MainKeepsContents(s: State, l: Label)
    requires Inv(s)
    ensures Contents(MainStep(s, l))
  {
  }

  lemma MainKeepsFlags(s: State, l: Label)
    requires Inv(s)
    ensures Flags(MainStep(s, l))
  {
  }

  lemma MainKeepsInv(s: State, l: Label)
    requires Inv(s)
    ensures Inv(MainStep(s, l))
  {
    MainKeepsCounters(s, l);
    MainKeepsContents(s, l);
    MainKeepsFlags(s, l);
  }

  // ---------------------------------------------------------------- all runs

  ghost function Run(s: State, labels: seq<Label>): (r: State)
    requires Inv(s)
    ensures Inv(r)
  {
    if labels == [] then s
    else
      var m := Run(s, labels[..|labels| - 1]);
      StepKeepsInv(m, labels[|labels| - 1]);
      Step(m, labels[|labels| - 1])
  }

  lemma StepKeepsInv(s: State, l: Label)
    requires Inv(s)
    ensures Inv(Step(s, l))
  {
    VideoKeepsInv(s, l);
    MainKeepsInv(s, l);
  }

  lemma InitInv()
    ensures Inv(Init())
  {
  }

  /** In every interleaving: the count stays in 0..4, the readable slots hold consecutive pictures in
      production order, the slot being filled is not readable, and the picture at rindex when the refresh
      has passed its skip test is the one at the read position. */
  lemma RingIsConsistent(labels: seq<Label>)
    ensures Inv(Init())
    ensures var s := Run(Init(), labels);
      && 0 <= s.size <= N
      && 0 <= s.published - s.position <= s.size
      && (forall k :: s.position <= k < s.published ==> s.slots[k % N].frame == k)
      && (Filling(s.video) && !s.video.VPublish? ==>
            forall k {:trigger k % N} :: s.position <= k < s.published ==> k % N != s.windex)
      && (s.main.MCheckSkip? || s.main.MShow? ==> s.rindex == s.position % N && s.position < s.published)
  {
    hide *;
    InitInv();
    ReadableSlots(Run(Init(), labels));
  }

  lemma ReadableSlots(s: State)
    requires Inv(s)
    ensures 0 <= s.size <= N && 0 <= s.published - s.position <= s.size
    ensures forall k :: s.position <= k < s.published ==> s.slots[k % N].frame == k
    ensures Filling(s.video) && !s.video.VPublish? ==>
      forall k {:trigger k % N} :: s.position <= k < s.published ==> k % N != s.windex
    ensures s.main.MCheckSkip? || s.main.MShow? ==> s.rindex == s.position % N && s.position < s.published
  {
    forall k | s.position <= k < s.published ensures s.slots[k % N].frame == k {
      if k == s.published - N { assert k == s.position; }
    }
  }

  /** A displayed picture is always the one at the read position, complete and already published. */
  lemma ShowsTheCurrentPicture(s: State)
    requires Inv(s) && s.main.MShow?
    ensures MainStep(s, MainGo).shown == s.shown + [s.position] && s.position < s.published
  {
    ReadableSlots(s);
  }

  /** A late picture is given up, unseen, exactly when a newer one is queued behind it. */
  lemma LateDropLeavesOne(s: State)
    requires Inv(s) && s.main.MShow?
    ensures MainStep(s, DropLate) == if s.published - s.position >= 2 then s.(main := MNext(true)) else s
    ensures s.published - s.position >= 2 ==> s.slots[(s.position + 1) % 4].frame == s.position + 1
  {
    ReadableSlots(s);
  }

  // ---------------------------------------------------------------- calls that nothing interrupts

  /** The same label n times. */
  ghost function Repeat(s: State, l: Label, n: nat): (r: State)
    requires Inv(s)
    ensures Inv(r)
    decreases n
  {
    if n == 0 then s
    else
      StepKeepsInv(s, l);
      Repeat(Step(s, l), l, n - 1)
  }

  lemma RepeatStep(s: State, l: Label, n: nat, t: State)
    requires Inv(s) && n > 0 && Step(s, l) == t
    ensures Inv(t) && Repeat(s, l, n) == Repeat(t, l, n - 1)
  {
    hide Step;
    StepKeepsInv(s, l);
  }

  lemma RepeatEnd(s: State, l: Label)
    requires Inv(s)
    ensures Repeat(s, l, 0) == s
  {
  }

  lemma HasShape(s: State)
    requires Inv(s)
    ensures Shape(s)
  {
  }

  lemma VideoGoes(s: State)
    requires Shape(s)
    ensures s.video.VWait? && s.size <= 1 ==> Step(s, VideoGo) == s.(video := VFill)
    ensures var slot := s.slots[s.windex].(frame := -1);
      s.video.VFill? && slot.isAllocated ==> Step(s, VideoGo) == s.(slots := s.slots[s.windex := slot], video := VCopy)
    ensures var slot := s.slots[s.windex].(frame := s.made);
      s.video.VCopy? ==> Step(s, VideoGo) == s.(slots := s.slots[s.windex := slot], video := VCopied)
  {
  }

  function SkipCleared(s: State): seq<Slot>
    requires Shape(s)
  {
    s.slots[s.windex := s.slots[s.windex].(skip := false)]
  }

  lemma ClearsSkip(s: State)
    requires Shape(s) && s.video.VCopied?
    ensures Step(s, VideoGo) == s.(slots := SkipCleared(s), video := VAdvance)
  {
  }

  lemma WindexMoves(s: State)
    requires Shape(s)
    ensures s.video.VAdvance? ==>
      Step(s, VideoGo) == s.(windex := (s.windex + 1) % 4, made := s.made + 1, video := VPublish)
    ensures s.video.VPublish? ==> Step(s, VideoGo) == s.(size := s.size + 1, published := s.published + 1, video := VIdle)
  {
  }

  lemma MainGoes(s: State)
    requires Shape(s) && !s.video.VMark?
    ensures s.main.MRetry? ==> Step(s, MainGo) == s.(main := if s.size == 0 then MIdle else MCheckSkip)
    ensures s.main.MCheckSkip? ==> Step(s, MainGo) == s.(main := if s.slots[s.rindex].skip then MNext(true) else MShow)
    ensures s.main.MShow? ==> Step(s, MainGo) == s.(shown := s.shown + [s.slots[s.rindex].frame], main := MNext(false))
    ensures s.main.MNext? ==>
      Step(s, MainGo) == s.(rindex := (s.rindex + 1) % 4, position := s.position + 1, main := MNextLock(s.main.retry))
    ensures s.main.MNextLock? ==>
      Step(s, MainGo) == s.(size := s.size - 1, main := if s.main.retry then MRetry else MIdle)
  {
  }

  /** queue_picture with at most one picture queued and a bitmap in the slot: the new picture is in the slot at
      windex, not to be skipped, and counted; nothing else changes. */
  lemma QueueAlone(s: State)
    requires Inv(s) && s.video.VIdle? && s.size <= 1 && s.slots[s.windex].isAllocated
    ensures Inv(Step(s, Picture))
    ensures Repeat(Step(s, Picture), VideoGo, 6) ==
      s.(slots := s.slots[s.windex := Slot(true, false, s.made)], windex := (s.windex + 1) % 4, size := s.size + 1,
         made := s.made + 1, published := s.published + 1)
  {
    HasShape(s);
    StepKeepsInv(s, Picture);
    var w, slot := s.windex, s.slots[s.windex];
    assert Step(s, Picture) == s.(video := VWait);
    hide Inv, Repeat, Step;
    CopyAlone(s.(video := VWait));
    CountAlone(s.(slots := s.slots[w := slot.(frame := s.made)], video := VCopied));
    assert s.slots[w := slot.(frame := s.made)][w := Slot(true, false, s.made)] ==
      s.slots[w := Slot(true, false, s.made)];
  }

  /** Its first half, up to the pixels. */
  lemma CopyAlone(s: State)
    requires Inv(s) && s.video.VWait? && s.size <= 1 && s.slots[s.windex].isAllocated
    ensures var t := s.(slots := s.slots[s.windex := s.slots[s.windex].(frame := s.made)], video := VCopied);
      Inv(t) && Repeat(s, VideoGo, 6) == Repeat(t, VideoGo, 3)
  {
    HasShape(s);
    hide Inv, Repeat, Step;
    var w, slot := s.windex, s.slots[s.windex];
    VideoGoes(s);
    var room := s.(video := VFill);
    RepeatStep(s, VideoGo, 6, room);
    VideoGoes(room);
    var cleared := s.(slots := s.slots[w := slot.(frame := -1)], video := VCopy);
    RepeatStep(room, VideoGo, 5, cleared);
    VideoGoes(cleared);
    var copied := s.(slots := s.slots[w := slot.(frame := s.made)], video := VCopied);
    assert cleared.slots[w := cleared.slots[w].(frame := s.made)] == copied.slots;
    RepeatStep(cleared, VideoGo, 4, copied);
  }

  /** Its second half. */
  lemma CountAlone(s: State)
    requires Inv(s) && Shape(s) && s.video.VCopied?
    ensures Repeat(s, VideoGo, 3) ==
      s.(slots := SkipCleared(s), windex := (s.windex + 1) % 4, size := s.size + 1,
         made := s.made + 1, published := s.published + 1, video := VIdle)
  {
    hide Inv, Repeat, Step, SkipCleared;
    ClearsSkip(s);
    var filled := s.(slots := SkipCleared(s), video := VAdvance);
    RepeatStep(s, VideoGo, 3, filled);
    PublishAlone(filled);
  }

  lemma PublishAlone(s: State)
    requires Inv(s) && s.video.VAdvance?
    ensures Repeat(s, VideoGo, 2) ==
      s.(windex := (s.windex + 1) % 4, size := s.size + 1, made := s.made + 1, published := s.published + 1,
         video := VIdle)
  {
    HasShape(s);
    WindexMoves(s);
    var advanced := Step(s, VideoGo);
    RepeatStep(s, VideoGo, 2, advanced);
    HasShape(advanced);
    WindexMoves(advanced);
    hide Inv, Repeat, Step;
    RepeatStep(advanced, VideoGo, 1, Step(advanced, VideoGo));
    RepeatEnd(Step(advanced, VideoGo), VideoGo);
  }

  /** video_refresh, not forced, while no flush marks the slots: with no picture queued it does nothing, else it
      shows the picture at the read position and takes it out; one to be skipped is taken out without being shown. */
  lemma RefreshAlone(s: State)
    requires Inv(s) && s.main.MIdle? && !s.video.VMark?
    ensures Inv(Step(s, Refresh(false)))
    ensures s.size == 0 ==> Repeat(Step(s, Refresh(false)), MainGo, 1) == s
    ensures var taken := s.(rindex := (s.rindex + 1) % 4, position := s.position + 1, size := s.size - 1);
      s.size > 0 && !s.slots[s.rindex].skip ==>
        Repeat(Step(s, Refresh(false)), MainGo, 5) == taken.(shown := s.shown + [s.position])
    ensures var taken := s.(rindex := (s.rindex + 1) % 4, position := s.position + 1, size := s.size - 1);
      s.size > 0 && s.slots[s.rindex].skip ==> Repeat(Step(s, Refresh(false)), MainGo, 4) == taken.(main := MRetry)
  {
    HasShape(s);
    StepKeepsInv(s, Refresh(false));
    if s.size > 0 { FirstReadable(s); }
    hide Inv, Repeat;
    var begun := s.(main := MRetry);
    if s.size == 0 {
      RepeatStep(begun, MainGo, 1, s);
      RepeatEnd(s, MainGo);
    } else {
      TakesOne(s, begun);
    }
  }

  lemma FirstReadable(s: State)
    requires Inv(s) && s.main.MIdle? && s.size > 0
    ensures s.slots[s.rindex].frame == s.position
  {
    ReadableSlots(s);
  }

  lemma TakesOne(s: State, begun: State)
    requires Inv(s) && Inv(begun) && s.main.MIdle? && !s.video.VMark? && begun == s.(main := MRetry)
    requires s.size > 0 && s.slots[s.rindex].frame == s.position
    ensures var taken := s.(rindex := (s.rindex + 1) % 4, position := s.position + 1, size := s.size - 1);
      if s.slots[s.rindex].skip then Repeat(begun, MainGo, 4) == taken.(main := MRetry)
      else Repeat(begun, MainGo, 5) == taken.(shown := s.shown + [s.position])
  {
    HasShape(s);
    hide Inv, Repeat, Step;
    var checked := s.(main := MCheckSkip);
    MainGoes(begun);
    MainGoes(checked);
    if s.slots[s.rindex].skip {
      RepeatStep(begun, MainGo, 4, checked);
      RepeatStep(checked, MainGo, 3, s.(main := MNext(true)));
      NextAlone(s.(main := MNext(true)));
    } else {
      RepeatStep(begun, MainGo, 5, checked);
      RepeatStep(checked, MainGo, 4, s.(main := MShow));
      MainGoes(s.(main := MShow));
      var next := s.(main := MNext(false), shown := s.shown + [s.position]);
      RepeatStep(s.(main := MShow), MainGo, 3, next);
      NextAlone(next);
    }
  }

  /** pictq_next_picture. */
  lemma NextAlone(s: State)
    requires Inv(s) && s.main.MNext? && !s.video.VMark?
    ensures Repeat(s, MainGo, 2) == s.(rindex := (s.rindex + 1) % 4, position := s.position + 1, size := s.size - 1,
                                       main := if s.main.retry then MRetry else MIdle)
  {
    HasShape(s);
    hide Inv, Repeat, Step;
    MainGoes(s);
    var moved := s.(rindex := (s.rindex + 1) % 4, position := s.position + 1, main := MNextLock(s.main.retry));
    RepeatStep(s, MainGo, 2, moved);
    MainGoes(moved);
    var after := moved.(size := s.size - 1, main := if s.main.retry then MRetry else MIdle);
    RepeatStep(moved, MainGo, 1, after);
    RepeatEnd(after, MainGo);
  }

  // ---------------------------------------------------------------- forced and unforced refreshes

  /** In the tests or the locked part of pictq_prev_picture. */
  predicate SteppingBack(m: MainThread) { m.MPrevAllocated? || m.MPrevSkip? || m.MPrevLock? }

  lemma StepBackSource(s: State, l: Label)
    requires Inv(s)
    ensures SteppingBack(Step(s, l).main) ==> SteppingBack(s.main) || (s.main.MIdle? && l == Refresh(true))
    ensures Step(s, l).position < s.position ==> s.main.MPrevLock?
  {
  }

  /** The refresh under way was started by label j, as a forced one, and has done nothing but step back. */
  ghost predicate ForcedAt(labels: seq<Label>, j: int)
    requires Inv(Init())
  {
    && 0 <= j < |labels| && labels[j] == Refresh(true) && Run(Init(), labels[..j]).main.MIdle?
    && forall k :: j < k <= |labels| ==> SteppingBack(Run(Init(), labels[..k]).main)
  }

  lemma {:induction false} SteppingBackIsForced(labels: seq<Label>) returns (j: int)
    requires Inv(Init()) && SteppingBack(Run(Init(), labels).main)
    ensures ForcedAt(labels, j)
  {
    hide Inv, Step;
    if labels == [] {
      j := 0;
    } else {
      var n := |labels| - 1;
      var before := Run(Init(), labels[..n]);
      StepBackSource(before, labels[n]);
      assert labels[..n + 1] == labels;
      if SteppingBack(before.main) {
        j := SteppingBackIsForced(labels[..n]);
        forall k | j < k <= |labels| ensures SteppingBack(Run(Init(), labels[..k]).main) {
          if k <= n { assert labels[..n][..k] == labels[..k]; }
        }
        assert labels[..n][..j] == labels[..j];
      } else {
        j := n;
      }
    }
  }

  /** In any run the read position falls only in a forced refresh, before that does anything else. */
  lemma BackOnlyWhenForced(labels: seq<Label>, l: Label) returns (j: int)
    ensures Inv(Init())
    ensures Step(Run(Init(), labels), l).position < Run(Init(), labels).position ==> ForcedAt(labels, j)
  {
    hide Inv, Step;
    InitInv();
    StepBackSource(Run(Init(), labels), l);
    j := 0;
    if SteppingBack(Run(Init(), labels).main) { j := SteppingBackIsForced(labels); }
  }

  predicate Unforced(labels: seq<Label>) { forall i :: 0 <= i < |labels| ==> labels[i] != Refresh(true) }

  predicate Increasing(shown: seq<int>) { forall i, j :: 0 <= i < j < |shown| ==> shown[i] < shown[j] }

  /** What has been shown lies before the read position, and at most two pictures are queued. */
  ghost predicate Forward(s: State) {
    && Increasing(s.shown) && !SteppingBack(s.main)
    && (forall i :: 0 <= i < |s.shown| ==>
          s.shown[i] < s.position || (s.main == MNext(false) && s.shown[i] == s.position))
    && s.size <= (if Filling(s.video) then N - 3 else N - 2)
  }

  lemma VideoKeepsForward(s: State, l: Label)
    requires Inv(s) && Forward(s)
    ensures Forward(VideoStep(s, l))
  {
  }

  lemma MainKeepsForward(s: State, l: Label)
    requires Inv(s) && Forward(s) && l != Refresh(true)
    ensures Forward(MainStep(s, l))
  {
    if s.main.MShow? { ShowsTheCurrentPicture(s); }
  }

  /** Without a forced refresh no picture is shown twice or out of order, and at most two are queued. */
  lemma {:induction false} UnforcedGoesForward(labels: seq<Label>)
    requires Unforced(labels)
    ensures Inv(Init())
    ensures Forward(Run(Init(), labels))
  {
    InitInv();
    if labels != [] {
      var n := |labels| - 1;
      UnforcedGoesForward(labels[..n]);
      var s, l := Run(Init(), labels[..n]), labels[n];
      VideoKeepsForward(s, l);
      MainKeepsForward(s, l);
      hide *;
    }
  }

  // ---------------------------------------------------------------- after a flush

  /** A flush has just ended its wait with an empty queue. */
  ghost predicate FlushEnded(s: State) {
    Inv(s) && s.video.VIdle? && s.size == 0 && forall j :: 0 <= j < N ==> s.slots[j].skip
  }

  /** The refresh tested the slot before rindex, and found it showable, before the flush marked it. */
  predicate LatePrev(s: State) {
    s.main.MPrevLock?
  }

  /** Pictures below `floor` are the ones queued before the flush.  `late` says whether a refresh had
      already passed the tests of pictq_prev_picture when the flush ended. */
  ghost predicate Flushed(s: State, floor: nat, late: bool)
    requires Shape(s)
  {
    && floor <= s.published
    && floor - 1 <= s.position
    && (forall k: nat :: s.published - (N - 1) <= k < s.made && k < floor ==> s.slots[k % N].skip)
    && (Exposed(s, floor) ==> late && s.size <= N - 1 && (s.main.MRetry? || s.main.MCheckSkip? || s.main == MNext(true)))
    && (Exposed(s, floor) || Pending(s, floor) ==>
          s.published <= floor + 2 && (Filling(s.video) ==> s.published <= floor + 1))
    && (Pending(s, floor) ==> late)
  }

  /** A picture from before the flush is readable again. */
  ghost predicate Exposed(s: State, floor: nat) {
    s.position == floor - 1
  }

  /** The next locked part of pictq_prev_picture would make one readable. */
  ghost predicate Pending(s: State, floor: nat) {
    s.main.MPrevLock? && s.position == floor && s.published < floor + N - 1
  }

  lemma FlushedAtStart(s: State)
    requires FlushEnded(s)
    ensures s.position == s.published && Flushed(s, s.published, LatePrev(s))
  {
  }

  lemma VideoKeepsFlushed(s: State, l: Label, floor: nat, late: bool)
    requires Inv(s) && Flushed(s, floor, late)
    ensures Shape(VideoStep(s, l)) && Flushed(VideoStep(s, l), floor, late)
  {
  }

  lemma MainKeepsFlushed(s: State, l: Label, floor: nat, late: bool)
    requires Inv(s) && Flushed(s, floor, late)
    ensures Shape(MainStep(s, l)) && Flushed(MainStep(s, l), floor, late)
  {
    if s.main.MPrevSkip? && s.position >= 1 {
      PrevIsBefore(s.position);
      assert s.published < s.position + N - 1 && s.position <= floor ==> s.slots[(s.position - 1) % N].skip;
    }
  }

  lemma StepKeepsFlushed(s: State, l: Label, floor: nat, late: bool)
    requires Inv(s) && Flushed(s, floor, late)
    ensures Inv(Step(s, l)) && Flushed(Step(s, l), floor, late)
    ensures forall i :: |s.shown| <= i < |Step(s, l).shown| ==> Step(s, l).shown[i] >= floor
    ensures s.shown <= Step(s, l).shown
  {
    StepKeepsInv(s, l);
    VideoKeepsFlushed(s, l, floor, late);
    MainKeepsFlushed(s, l, floor, late);
    ShownGrows(s, l);
    assert s.main.MShow? ==> s.position >= floor;
    hide *;
  }

  lemma ShownGrows(s: State, l: Label)
    requires Inv(s)
    ensures Step(s, l).shown == s.shown || (s.main.MShow? && Step(s, l).shown == s.shown + [s.position])
  {
    if s.main.MShow? { ShowsTheCurrentPicture(s); }
  }

  /** Once a flush has ended with an empty queue, no picture queued before it is ever displayed, in any
      run; and none is made readable again unless a refresh had already passed the tests of
      pictq_prev_picture when the flush ended. */
  lemma {:induction false} NothingOldAfterFlush(s: State, labels: seq<Label>)
    requires FlushEnded(s)
    ensures var r := Run(s, labels);
      && s.shown <= r.shown
      && (forall i :: |s.shown| <= i < |r.shown| ==> r.shown[i] >= s.published)
      && Flushed(r, s.published, LatePrev(s))
      && (Exposed(r, s.published) ==> LatePrev(s))
  {
    if labels == [] {
      FlushedAtStart(s);
    } else {
      NothingOldAfterFlush(s, labels[..|labels| - 1]);
      StepKeepsFlushed(Run(s, labels[..|labels| - 1]), labels[|labels| - 1], s.published, LatePrev(s));
    }
  }

  /** The stale step back happens exactly in that case. */
  lemma OldPictureReexposed(s: State)
    requires FlushEnded(s)
    ensures (exists labels :: Exposed(Run(s, labels), s.published)) <==> LatePrev(s)
  {
    if LatePrev(s) {
      BackwardStepReexposes(s);
      assert [MainGo][..0] == [];
      assert Run(s, [MainGo]) == Step(s, MainGo);
      assert Exposed(Run(s, [MainGo]), s.published);
    }
    forall labels | Exposed(Run(s, labels), s.published) ensures LatePrev(s) {
      NothingOldAfterFlush(s, labels);
    }
  }

  // ---------------------------------------------------------------- and it can happen

  lemma RunAppend(s: State, labels: seq<Label>, l: Label)
    requires Inv(s)
    ensures Run(s, labels + [l]) == Step(Run(s, labels), l)
  {
    hide Inv, Step;
    assert (labels + [l])[..|labels|] == labels;
  }

  ghost predicate Reachable(s: State)
    requires Inv(Init())
  {
    exists labels :: Run(Init(), labels) == s
  }

  lemma ReachStep(s: State, l: Label)
    requires Inv(Init()) && Reachable(s)
    ensures Inv(s) && Reachable(Step(s, l))
  {
    hide Inv, Step, Run;
    var labels :| Run(Init(), labels) == s;
    RunAppend(Init(), labels, l);
  }

  const NO_PICTURE := Slot(false, false, -1)

  /** The first picture gets its bitmap. */
  lemma PictureAllocated() returns (s: State)
    ensures Inv(Init()) && Reachable(s)
    ensures s == State([Slot(true, false, -1), NO_PICTURE, NO_PICTURE, NO_PICTURE], 0, 0, 0, VCopy, MIdle, 0, 0, 0, [])
  {
    hide Inv, Reachable;
    assert Inv(Init()) && Reachable(Init()) by { StartReachable(); }
    s := Init();
    assert s.slots == [NO_PICTURE, NO_PICTURE, NO_PICTURE, NO_PICTURE];
    ReachStep(s, Picture);
    s := Step(s, Picture);
    ReachStep(s, VideoGo);
    s := Step(s, VideoGo);
    ReachStep(s, VideoGo);
    s := Step(s, VideoGo);
    assert s.slots == [NO_PICTURE, NO_PICTURE, NO_PICTURE, NO_PICTURE] && s.video == VAllocWait;
    ReachStep(s, Alloc);
    s := Step(s, Alloc);
    ReachStep(s, VideoGo);
    s := Step(s, VideoGo);
    assert s.slots == [Slot(true, false, -1), NO_PICTURE, NO_PICTURE, NO_PICTURE];
  }

  lemma StartReachable()
    ensures Inv(Init()) && Reachable(Init())
  {
    InitInv();
    assert Run(Init(), []) == Init();
  }

  /** It is copied and counted. */
  lemma PictureQueued() returns (s: State)
    ensures Inv(Init()) && Reachable(s)
    ensures s == State([Slot(true, false, 0), NO_PICTURE, NO_PICTURE, NO_PICTURE], 0, 1, 1, VIdle, MIdle, 1, 1, 0, [])
  {
    hide Inv, Reachable;
    s := PictureAllocated();
    ReachStep(s, VideoGo);
    s := Step(s, VideoGo);
    assert s.slots == [Slot(true, false, 0), NO_PICTURE, NO_PICTURE, NO_PICTURE];
    ReachStep(s, VideoGo);
    s := Step(s, VideoGo);
    assert s.slots == [Slot(true, false, 0), NO_PICTURE, NO_PICTURE, NO_PICTURE];
    ReachStep(s, VideoGo);
    s := Step(s, VideoGo);
    ReachStep(s, VideoGo);
    s := Step(s, VideoGo);
  }

  /** It is shown, and a forced refresh passes the two tests of pictq_prev_picture. */
  lemma PictureShown() returns (s: State)
    ensures Inv(Init()) && Reachable(s)
    ensures s == State([Slot(true, false, 0), NO_PICTURE, NO_PICTURE, NO_PICTURE], 1, 1, 0, VIdle, MPrevLock, 1, 1, 1, [0])
  {
    hide Inv, Reachable;
    s := PictureQueued();
    ReachStep(s, Refresh(false));
    s := Step(s, Refresh(false));
    ReachStep(s, MainGo);
    s := Step(s, MainGo);
    ReachStep(s, MainGo);
    s := Step(s, MainGo);
    ReachStep(s, MainGo);
    s := Step(s, MainGo);
    assert s.shown == [0] && s.main == MNext(false);
    ReachStep(s, MainGo);
    s := Step(s, MainGo);
    ReachStep(s, MainGo);
    s := Step(s, MainGo);
    ReachStep(s, Refresh(true));
    s := Step(s, Refresh(true));
    ReachStep(s, MainGo);
    s := Step(s, MainGo);
    ReachStep(s, MainGo);
    s := Step(s, MainGo);
  }

  /** A run ends in the state where the stale step back follows: a whole flush, with an empty queue, between
      the tests of pictq_prev_picture and its lock. */
  lemma LatePrevReachable() returns (s: State)
    ensures Inv(Init()) && Reachable(s) && FlushEnded(s) && LatePrev(s)
  {
    hide Inv, Reachable;
    s := PictureShown();
    var skipped := Slot(false, true, -1);
    ReachStep(s, FlushPacket);
    s := Step(s, FlushPacket);
    ReachStep(s, VideoGo);
    s := Step(s, VideoGo);
    assert s.slots == [Slot(true, true, 0), NO_PICTURE, NO_PICTURE, NO_PICTURE];
    ReachStep(s, VideoGo);
    s := Step(s, VideoGo);
    assert s.slots == [Slot(true, true, 0), skipped, NO_PICTURE, NO_PICTURE];
    ReachStep(s, VideoGo);
    s := Step(s, VideoGo);
    assert s.slots == [Slot(true, true, 0), skipped, skipped, NO_PICTURE];
    ReachStep(s, VideoGo);
    s := Step(s, VideoGo);
    assert s.slots == [Slot(true, true, 0), skipped, skipped, skipped];
    ReachStep(s, VideoGo);
    s := Step(s, VideoGo);
    ReachInv(s);
  }

  lemma ReachInv(s: State)
    requires Inv(Init()) && Reachable(s)
    ensures Inv(s)
  {
  }
}
