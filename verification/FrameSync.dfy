/** Frame-rate synchronisation of lavc/ffmpeg.c: do_video_out decides how often an input picture is encoded.
    Arithmetic is exact; the encoder is the sequence of timestamps handed to it. */
module FrameSync {
  import opened Wrappers

  const INT64_MAX := 0x7fff_ffff_ffff_ffff

  datatype Format = Passthrough | Cfr | Vfr | Drop

  /** The -vsync option. */
  datatype SyncMethod = Auto | Chosen(format: Format)

  /** Options and time base of the output stream; threshold is dts_error_threshold. */
  datatype Config = Config(
    format: Format, maxFrames: int, threshold: real,
    recordingTime: int, firstPts: int, tbNum: int, tbDen: int)

  /** An input picture: its timestamp in the encoder time base, and the duration do_video_out computes. */
  datatype Picture = Picture(pts: int, duration: real)

  /** The counters; `emitted` lists the timestamps given to the encoder, oldest first. */
  datatype Counters = Counters(syncOpts: int, frameNumber: int, dup: int, drop: int, finished: bool, emitted: seq<int>)

  /** The choice made for VSYNC_AUTO from the flags of the output format. */
  function Resolve(m: SyncMethod, variableFps: bool, noTimestamps: bool): Format {
    if m.Chosen? then m.format
    else if variableFps then (if noTimestamps then Passthrough else Vfr)
    else Cfr
  }

  /** lrint and lrintf: to the nearest integer, ties to even. */
  function LRint(x: real): (n: int)
    ensures -0.5 <= x - n as real <= 0.5
    ensures x - n as real == 0.5 || x - n as real == -0.5 ==> n % 2 == 0
  {
    var below := x.Floor;
    var rest := x - below as real;
    if rest < 0.5 || (rest == 0.5 && below % 2 == 0) then below else below + 1
  }

  /** How far the end of the picture is ahead of the next output frame. */
  function Delta(s: Counters, p: Picture): real { p.pts as real - s.syncOpts as real + p.duration }

  /** Frames wanted before the limits apply, and the frame counter after a jump. */
  function Decide(c: Config, s: Counters, p: Picture): (int, int) {
    var delta := Delta(s, p);
    match c.format
    case Cfr => (if delta < -1.1 then 0 else if delta > 1.1 then LRint(delta) else 1, s.syncOpts)
    case Vfr =>
      if delta <= -0.6 then (0, s.syncOpts)
      else (1, if delta > 0.6 then LRint(p.pts as real) else s.syncOpts)
    case _ => (1, LRint(p.pts as real))
  }

  /** check_recording_time fails: the frame time, as a fraction, has reached the recording time. */
  predicate OverLimit(c: Config, sync: int) {
    c.recordingTime != INT64_MAX && (sync - c.firstPts) * c.tbNum * 1000000 >= c.recordingTime * c.tbDen
  }

  /** The encoding loop: up to n frames, until the recording limit closes the stream. */
  function Emit(c: Config, s: Counters, n: int): Counters
    decreases n
  {
    if n <= 0 then s
    else if OverLimit(c, s.syncOpts) then s.(finished := true)
    else
      var next := s.(emitted := s.emitted + [s.syncOpts], syncOpts := s.syncOpts + 1, frameNumber := s.frameNumber + 1);
      Emit(c, next, n - 1)
  }

  predicate TooMany(c: Config, n: int) { n > 1 && n as real > c.threshold * 30.0 }

  /** Frames wanted after max_frames has been applied. */
  function Planned(c: Config, s: Counters, p: Picture): int {
    Min(Decide(c, s, p).0, c.maxFrames - s.frameNumber)
  }

  function VideoOut(c: Config, s: Counters, p: Picture): Counters {
    var n := Planned(c, s, p);
    var s := s.(syncOpts := Decide(c, s, p).1);
    if n == 0 || TooMany(c, n) then s.(drop := s.drop + 1)
    else Emit(c, if n > 1 then s.(dup := s.dup + n - 1) else s, n)
  }

  // ---------------------------------------------------------------- the encoding loop

  /** The loop is cut short by the recording limit. */
  predicate Limited(c: Config, sync: int, n: int) { n > 0 && OverLimit(c, sync + n - 1) }

  function Consecutive(from: int, n: nat): (r: seq<int>)
    ensures |r| == n && forall i :: 0 <= i < n ==> r[i] == from + i
    decreases n
  {
    if n == 0 then [] else [from] + Consecutive(from + 1, n - 1)
  }

  lemma OverLimitMonotone(c: Config, a: int, b: int)
    requires c.tbNum > 0 && a <= b && OverLimit(c, a)
    ensures OverLimit(c, b)
  {
    Scale(a - c.firstPts, b - c.firstPts, c.tbNum);
  }

  lemma Scale(x: int, y: int, k: int)
    requires x <= y && k > 0
    ensures x * k <= y * k
  {
  }

  /** The loop emits k consecutive timestamps, all n of them unless the limit is reached on the way. */
  lemma {:induction false} EmitEffect(c: Config, s: Counters, n: nat) returns (k: nat)
    requires c.tbNum > 0
    ensures k <= n && (k == n <==> !Limited(c, s.syncOpts, n))
    ensures Emit(c, s, n) == s.(syncOpts := s.syncOpts + k, frameNumber := s.frameNumber + k,
                                emitted := s.emitted + Consecutive(s.syncOpts, k), finished := s.finished || k < n)
    decreases n
  {
    hide OverLimit;
    if n == 0 {
      k := 0;
      assert s.emitted + [] == s.emitted;
    } else if OverLimit(c, s.syncOpts) {
      k := 0;
      OverLimitMonotone(c, s.syncOpts, s.syncOpts + n - 1);
      assert s.emitted + [] == s.emitted;
    } else {
      var next := s.(emitted := s.emitted + [s.syncOpts], syncOpts := s.syncOpts + 1, frameNumber := s.frameNumber + 1);
      var rest := EmitEffect(c, next, n - 1);
      k := rest + 1;
      assert next.emitted + Consecutive(next.syncOpts, rest) == s.emitted + Consecutive(s.syncOpts, k);
    }
  }

  // ---------------------------------------------------------------- one call

  /** The call reaches the encoding loop and the recording limit stops it. */
  predicate HitsLimit(c: Config, s: Counters, p: Picture) {
    var n := Planned(c, s, p);
    n > 0 && !TooMany(c, n) && Limited(c, Decide(c, s, p).1, n)
  }

  /** Nothing but the controller decided the number of frames. */
  predicate Uncut(c: Config, s: Counters, p: Picture) {
    Planned(c, s, p) == Decide(c, s, p).0 && !TooMany(c, Planned(c, s, p)) && !HitsLimit(c, s, p)
  }

  ghost predicate Sane(c: Config, s: Counters) { c.tbNum > 0 && 0 <= s.frameNumber <= c.maxFrames }

  /** What one call does, in closed form: k frames are emitted at consecutive timestamps. */
  lemma CallEffect(c: Config, s: Counters, p: Picture) returns (k: nat)
    requires Sane(c, s)
    ensures var n := Planned(c, s, p); var after := VideoOut(c, s, p);
      && n >= 0 && k <= n && (n == 0 || TooMany(c, n) ==> k == 0 && after.drop == s.drop + 1 && after.dup == s.dup)
      && (n > 0 && !TooMany(c, n) ==> (k == n <==> !HitsLimit(c, s, p)))
      && (n > 0 && !TooMany(c, n) ==> after.drop == s.drop && after.dup == s.dup + n - 1)
      && after.syncOpts == Decide(c, s, p).1 + k && after.frameNumber == s.frameNumber + k
      && after.emitted == s.emitted + Consecutive(Decide(c, s, p).1, k)
  {
    hide Decide, OverLimit, Emit;
    var n := Planned(c, s, p);
    assert n >= 0 by { WantedNatural(c, s, p); }
    if n == 0 || TooMany(c, n) {
      k := 0;
      assert s.emitted + [] == s.emitted;
    } else {
      var jumped := s.(syncOpts := Decide(c, s, p).1);
      k := EmitEffect(c, if n > 1 then jumped.(dup := s.dup + n - 1) else jumped, n);
    }
  }

  lemma WantedNatural(c: Config, s: Counters, p: Picture)
    ensures Decide(c, s, p).0 >= 0
  {
  }

  // ---------------------------------------------------------------- one call, from its inputs alone

  /** The format for every pair of flags: an explicit choice stands, containers with a fixed frame rate get CFR,
      and among the others those without timestamps get them passed through. */
  lemma FormatChosen(m: SyncMethod, variableFps: bool, noTimestamps: bool)
    ensures m.Chosen? ==> m == Chosen(Resolve(m, variableFps, noTimestamps))
    ensures m.Auto? ==> Resolve(m, variableFps, noTimestamps) != Drop
    ensures m.Auto? ==> (Resolve(m, variableFps, noTimestamps) == Cfr <==> !variableFps)
    ensures m.Auto? ==> (Resolve(m, variableFps, noTimestamps) == Passthrough <==> variableFps && noTimestamps)
  {
  }

  predicate Nearest(n: int, x: real) {
    -0.5 <= x - n as real <= 0.5 && (x - n as real == 0.5 || x - n as real == -0.5 ==> n % 2 == 0)
  }

  lemma OneNearest(m: int, n: int, x: real)
    requires Nearest(m, x) && Nearest(n, x)
    ensures m == n
  {
  }

  /** The timestamp, in seconds after the first one, is below the recording time in microseconds. */
  predicate InTime(c: Config, sync: int)
    requires c.tbDen > 0
  {
    c.recordingTime == INT64_MAX ||
    (sync - c.firstPts) as real * (c.tbNum as real / c.tbDen as real) < c.recordingTime as real / 1000000.0
  }

  lemma OverLimitMeans(c: Config, sync: int)
    requires c.tbDen > 0
    ensures OverLimit(c, sync) <==> !InTime(c, sync)
  {
    var x := (sync - c.firstPts) as real * c.tbNum as real;
    assert ((sync - c.firstPts) * c.tbNum) as real == x;
    assert (sync - c.firstPts) as real * (c.tbNum as real / c.tbDen as real) == x / c.tbDen as real;
    Compare(x, c.tbDen as real, c.recordingTime as real);
  }

  lemma Compare(x: real, d: real, limit: real)
    requires d > 0.0
    ensures x / d < limit / 1000000.0 <==> x * 1000000.0 < limit * d
  {
    var q := x / d;
    assert q * d == x;
    if q < limit / 1000000.0 { LessTimes(q, limit / 1000000.0, d); }
    else if q > limit / 1000000.0 { LessTimes(limit / 1000000.0, q, d); }
  }

  lemma LessTimes(a: real, b: real, d: real)
    requires a < b && d > 0.0
    ensures a * d < b * d
  {
  }

  /** Frames wanted for a picture and the timestamp of the first: in CFR none when the picture ends more than
      1.1 frames before the next output frame, as many as fit when more than 1.1 after, else one; in VFR none
      from 0.6 behind, else one, with the picture's own timestamp from 0.6 ahead; otherwise always one. */
  predicate Wants(format: Format, s: Counters, p: Picture, wanted: nat, from: int) {
    var ahead := p.pts as real + p.duration - s.syncOpts as real;
    match format
    case Cfr =>
      && from == s.syncOpts && (ahead < -1.1 ==> wanted == 0) && (-1.1 <= ahead <= 1.1 ==> wanted == 1)
      && (ahead > 1.1 ==> Nearest(wanted, ahead))
    case Vfr =>
      && (wanted == if ahead <= -0.6 then 0 else 1) && from == if ahead > 0.6 then p.pts else s.syncOpts
    case _ => wanted == 1 && from == p.pts
  }

  lemma WantsDecides(c: Config, s: Counters, p: Picture, wanted: nat, from: int)
    requires Wants(c.format, s, p, wanted, from)
    ensures Decide(c, s, p) == (wanted, from)
  {
    var ahead := p.pts as real + p.duration - s.syncOpts as real;
    OneNearest(LRint(p.pts as real), p.pts, p.pts as real);
    if c.format == Cfr && ahead > 1.1 { OneNearest(LRint(Delta(s, p)), wanted, ahead); }
  }

  /** max_frames leaves room for this many. */
  function Granted(c: Config, s: Counters, wanted: nat): int { Min(wanted, c.maxFrames - s.frameNumber) }

  /** Nothing is left to encode, or more than 30 times the error threshold. */
  predicate Refused(c: Config, granted: int) { granted == 0 || (granted > 1 && granted as real > c.threshold * 30.0) }

  /** One call, from its inputs: a picture is dropped exactly when the granted number is refused; otherwise
      the granted frames are encoded at consecutive timestamps, all but one counted as duplicates, up to
      the first timestamp that reaches the recording time. */
  lemma CallOutcome(c: Config, s: Counters, p: Picture, wanted: nat, from: int) returns (k: nat)
    requires Sane(c, s) && c.tbDen > 0 && Wants(c.format, s, p, wanted, from)
    ensures var n := Granted(c, s, wanted);
      Refused(c, n) ==> VideoOut(c, s, p) == s.(syncOpts := from, drop := s.drop + 1)
    ensures var n := Granted(c, s, wanted);
      !Refused(c, n) ==> VideoOut(c, s, p) == s.(syncOpts := from + k, frameNumber := s.frameNumber + k,
        dup := s.dup + n - 1, finished := s.finished || k < n, emitted := s.emitted + Consecutive(from, k))
    ensures var n := Granted(c, s, wanted);
      !Refused(c, n) ==> k <= n && (forall t :: from <= t < from + k ==> InTime(c, t)) && (k < n ==> !InTime(c, from + k))
  {
    hide Wants, Decide, OverLimit, InTime, Emit;
    WantsDecides(c, s, p, wanted, from);
    var n := Granted(c, s, wanted);
    assert n >= 0;
    if Refused(c, n) {
      k := 0;
    } else {
      var jumped := s.(syncOpts := from, dup := s.dup + n - 1);
      assert VideoOut(c, s, p) == Emit(c, jumped, n);
      k := EmitWhileInTime(c, jumped, n);
    }
  }

  lemma {:induction false} EmitWhileInTime(c: Config, s: Counters, n: nat) returns (k: nat)
    requires c.tbNum > 0 && c.tbDen > 0
    ensures Emit(c, s, n) == s.(syncOpts := s.syncOpts + k, frameNumber := s.frameNumber + k,
                                emitted := s.emitted + Consecutive(s.syncOpts, k), finished := s.finished || k < n)
    ensures k <= n && (forall t :: s.syncOpts <= t < s.syncOpts + k ==> InTime(c, t))
    ensures k < n ==> !InTime(c, s.syncOpts + k)
    decreases n
  {
    hide OverLimit, InTime;
    OverLimitMeans(c, s.syncOpts);
    if n == 0 || OverLimit(c, s.syncOpts) {
      k := 0;
      assert s.emitted + [] == s.emitted;
    } else {
      var next := s.(emitted := s.emitted + [s.syncOpts], syncOpts := s.syncOpts + 1, frameNumber := s.frameNumber + 1);
      var rest := EmitWhileInTime(c, next, n - 1);
      k := rest + 1;
      assert next.emitted + Consecutive(next.syncOpts, rest) == s.emitted + Consecutive(s.syncOpts, k);
    }
  }

  /** CFR fills gaps: without a recording time, a picture that ends more than 1.1 frames ahead is encoded as
      often as fits the gap best, and never dropped while there is room and the threshold allows it. */
  lemma CfrDuplicates(c: Config, s: Counters, p: Picture, n: nat)
    requires Sane(c, s) && c.format == Cfr && c.recordingTime == INT64_MAX
    requires p.pts as real + p.duration - s.syncOpts as real > 1.1
    requires Nearest(n, p.pts as real + p.duration - s.syncOpts as real)
    requires s.frameNumber + n <= c.maxFrames && (n > 1 ==> n as real <= c.threshold * 30.0)
    ensures VideoOut(c, s, p) == s.(syncOpts := s.syncOpts + n, frameNumber := s.frameNumber + n, dup := s.dup + n - 1,
                                    emitted := s.emitted + Consecutive(s.syncOpts, n))
  {
    hide Emit, LRint;
    assert Decide(c, s, p) == (n, s.syncOpts) by { WantsDecides(c, s, p, n, s.syncOpts); }
    var k := CallEffect(c, s, p);
    var k1 := EmitEffect(c, s.(dup := s.dup + n - 1), n);
  }

  /** After a call that nothing cut short, the output is at most half a frame behind the picture's end. */
  lemma CfrDrift(c: Config, s: Counters, p: Picture)
    requires Sane(c, s) && c.format == Cfr && Uncut(c, s, p)
    ensures Delta(VideoOut(c, s, p), p) <= 0.5
  {
    var k := CallEffect(c, s, p);
    CfrWanted(c, s, p);
  }

  /** Frames wanted in CFR stay within half a frame of the gap, or are at most one. */
  lemma CfrWanted(c: Config, s: Counters, p: Picture)
    requires c.format == Cfr
    ensures Delta(s, p) - Decide(c, s, p).0 as real <= 0.5
    ensures Decide(c, s, p).1 == s.syncOpts
    ensures Decide(c, s, p).0 > 0 ==> Decide(c, s, p).0 as real <= Delta(s, p) + 2.1
  {
  }

  // ---------------------------------------------------------------- whole runs

  ghost predicate Run(c: Config, states: seq<Counters>, pictures: seq<Picture>) {
    && |states| == |pictures| + 1 && Sane(c, states[0])
    && forall i :: 0 <= i < |pictures| ==> states[i + 1] == VideoOut(c, states[i], pictures[i])
  }

  function MaxR(a: real, b: real): real { if a > b then a else b }

  /** The start value, or the latest end of a picture plus 2.1. */
  function Ceiling(start: real, pictures: seq<Picture>): real {
    if pictures == [] then start
    else
      var p := pictures[|pictures| - 1];
      MaxR(Ceiling(start, pictures[..|pictures| - 1]), p.pts as real + p.duration + 2.1)
  }

  lemma CfrStep(c: Config, s: Counters, p: Picture)
    requires Sane(c, s) && c.format == Cfr
    ensures s.syncOpts <= VideoOut(c, s, p).syncOpts
    ensures VideoOut(c, s, p).syncOpts as real <= MaxR(s.syncOpts as real, p.pts as real + p.duration + 2.1)
  {
    var k := CallEffect(c, s, p);
    CfrWanted(c, s, p);
  }

  /** frame_number counts the emitted frames and stays within max_frames. */
  lemma {:induction false} FrameNumberBounded(c: Config, states: seq<Counters>, pictures: seq<Picture>)
    requires Run(c, states, pictures)
    ensures Sane(c, states[|pictures|])
    ensures states[|pictures|].frameNumber - states[0].frameNumber == |states[|pictures|].emitted| - |states[0].emitted|
  {
    if pictures != [] {
      hide VideoOut, Planned, Decide, TooMany, Limited;
      var n := |pictures| - 1;
      FrameNumberBounded(c, states[..n + 1], pictures[..n]);
      var k := CallEffect(c, states[n], pictures[n]);
      PlannedWithin(c, states[n], pictures[n]);
    }
  }

  lemma PlannedWithin(c: Config, s: Counters, p: Picture)
    ensures Planned(c, s, p) <= c.maxFrames - s.frameNumber
  {
  }

  /** Over a whole CFR run, however calls are cut short, the frame counter stays below the ceiling. */
  lemma {:induction false} CfrNeverRunsAhead(c: Config, states: seq<Counters>, pictures: seq<Picture>)
    requires Run(c, states, pictures) && c.format == Cfr
    ensures states[|pictures|].syncOpts as real <= Ceiling(states[0].syncOpts as real, pictures)
  {
    if pictures != [] {
      hide VideoOut;
      var n := |pictures| - 1;
      CfrNeverRunsAhead(c, states[..n + 1], pictures[..n]);
      FrameNumberBounded(c, states[..n + 1], pictures[..n]);
      CfrStep(c, states[n], pictures[n]);
    }
  }

  /** A run whose pictures end at most `gap` frames after the one before, with thresholds that allow such gaps
      and room for all of it: conditions on the options and the input only. */
  ghost predicate Steady(c: Config, s: Counters, pictures: seq<Picture>, gap: real) {
    && c.format == Cfr && c.recordingTime == INT64_MAX && gap + 1.0 <= c.threshold * 30.0
    && forall i {:trigger pictures[i]} :: 0 <= i < |pictures| ==>
      && EndOf(pictures[i]) <= EndBefore(s, pictures, i) + gap
      && EndOf(pictures[i]) + 2.1 <= (s.syncOpts + c.maxFrames - s.frameNumber) as real
  }

  function EndOf(p: Picture): real { p.pts as real + p.duration }

  function EndBefore(s: Counters, pictures: seq<Picture>, i: nat): real
    requires i <= |pictures|
  {
    if i == 0 then s.syncOpts as real else EndOf(pictures[i - 1])
  }

  /** In a steady run no picture is lost for its gap: after every call the output is at most half a frame behind
      the picture's end, and a picture was dropped exactly when it ended more than 1.1 frames behind. */
  lemma {:induction false} CfrKeepsUp(c: Config, states: seq<Counters>, pictures: seq<Picture>, gap: real)
    requires Run(c, states, pictures) && Steady(c, states[0], pictures, gap) && pictures != []
    ensures var n := |pictures| - 1; var p, s, after := pictures[n], states[n], states[n + 1];
      && EndOf(p) - after.syncOpts as real <= 0.5 && !(after.finished && !s.finished)
      && (after.drop == s.drop + 1 <==> EndOf(p) - s.syncOpts as real < -1.1) && s.drop <= after.drop <= s.drop + 1
      && after.syncOpts - states[0].syncOpts == after.frameNumber - states[0].frameNumber
  {
    hide VideoOut, Steady;
    var n := |pictures| - 1;
    SteadyLast(c, states[0], pictures, gap);
    if n > 0 {
      SteadyBefore(c, states[0], pictures, gap);
      assert states[..n + 1][0] == states[0] && pictures[..n][n - 1] == pictures[n - 1];
      CfrKeepsUp(c, states[..n + 1], pictures[..n], gap);
    }
    FrameNumberBounded(c, states[..n + 1], pictures[..n]);
    KeepsUpStep(c, states[n], pictures[n], gap);
  }

  lemma SteadyLast(c: Config, s: Counters, pictures: seq<Picture>, gap: real)
    requires Steady(c, s, pictures, gap) && pictures != []
    ensures c.format == Cfr && c.recordingTime == INT64_MAX && gap + 1.0 <= c.threshold * 30.0
    ensures var n := |pictures| - 1;
      && EndOf(pictures[n]) <= (if n == 0 then s.syncOpts as real else EndOf(pictures[n - 1])) + gap
      && EndOf(pictures[n]) + 2.1 <= (s.syncOpts + c.maxFrames - s.frameNumber) as real
  {
    assert EndOf(pictures[|pictures| - 1]) <= EndBefore(s, pictures, |pictures| - 1) + gap;
  }

  lemma SteadyBefore(c: Config, s: Counters, pictures: seq<Picture>, gap: real)
    requires Steady(c, s, pictures, gap) && pictures != []
    ensures Steady(c, s, pictures[..|pictures| - 1], gap)
  {
    var before := pictures[..|pictures| - 1];
    forall i | 0 <= i < |before|
      ensures EndOf(before[i]) <= EndBefore(s, before, i) + gap
      ensures EndOf(before[i]) + 2.1 <= (s.syncOpts + c.maxFrames - s.frameNumber) as real
    {
      assert before[i] == pictures[i] && EndBefore(s, before, i) == EndBefore(s, pictures, i);
    }
  }

  lemma KeepsUpStep(c: Config, s: Counters, p: Picture, gap: real)
    requires Sane(c, s) && c.format == Cfr && c.recordingTime == INT64_MAX && gap + 1.0 <= c.threshold * 30.0
    requires EndOf(p) - s.syncOpts as real <= gap + 0.5
    requires EndOf(p) + 2.1 <= (s.syncOpts + c.maxFrames - s.frameNumber) as real
    ensures var after := VideoOut(c, s, p);
      && EndOf(p) - after.syncOpts as real <= 0.5 && after.finished == s.finished
      && (after.drop == s.drop + 1 <==> EndOf(p) - s.syncOpts as real < -1.1) && s.drop <= after.drop <= s.drop + 1
      && after.syncOpts - s.syncOpts == after.frameNumber - s.frameNumber
  {
    hide Emit;
    var n := Decide(c, s, p).0;
    assert n > 0 ==> n as real <= EndOf(p) - s.syncOpts as real + 2.1;
    var k := EmitEffect(c, if n > 1 then s.(dup := s.dup + n - 1) else s, if n >= 0 then n else 0);
  }

  /** Every timestamp encoded in a run is below the recording time, and a stream is finished only by a call
      whose next timestamp is not. */
  lemma {:induction false} EncodedInTime(c: Config, states: seq<Counters>, pictures: seq<Picture>)
    requires Run(c, states, pictures) && c.tbDen > 0 && states[0].emitted == [] && !states[0].finished
    ensures forall i :: 0 <= i < |states[|pictures|].emitted| ==> InTime(c, states[|pictures|].emitted[i])
    ensures states[|pictures|].finished ==> exists i :: 0 < i <= |pictures| && !InTime(c, states[i].syncOpts)
  {
    if pictures != [] {
      hide VideoOut, InTime, Wants, Granted, Refused;
      var n := |pictures| - 1;
      EncodedInTime(c, states[..n + 1], pictures[..n]);
      FrameNumberBounded(c, states[..n + 1], pictures[..n]);
      StepInTime(c, states[n], pictures[n]);
      if states[n].finished {
        var i :| 0 < i <= n && !InTime(c, states[..n + 1][i].syncOpts);
        assert !InTime(c, states[i].syncOpts);
      }
    }
  }

  lemma StepInTime(c: Config, s: Counters, p: Picture)
    requires Sane(c, s) && c.tbDen > 0
    ensures var after := VideoOut(c, s, p);
      && |after.emitted| >= |s.emitted| && after.emitted[..|s.emitted|] == s.emitted
      && (forall i :: |s.emitted| <= i < |after.emitted| ==> InTime(c, after.emitted[i]))
      && (after.finished && !s.finished ==> !InTime(c, after.syncOpts))
  {
    hide VideoOut, InTime;
    var wanted, from := Decide(c, s, p).0, Decide(c, s, p).1;
    assert wanted >= 0 && Wants(c.format, s, p, wanted, from);
    var k := CallOutcome(c, s, p, wanted, from);
  }

  /** The 2.1 cannot be lowered: one uncut call reaches it. */
  lemma CeilingReached()
    ensures var c := Config(Cfr, 10, 108000.0, INT64_MAX, 0, 1, 1);
      var s := Counters(2, 0, 0, 0, false, []); var p := Picture(0, 0.9);
      && Sane(c, s) && Uncut(c, s, p)
      && VideoOut(c, s, p).syncOpts as real == p.pts as real + p.duration + 2.1
  {
    var c := Config(Cfr, 10, 108000.0, INT64_MAX, 0, 1, 1);
    var s := Counters(2, 0, 0, 0, false, []);
    var k := CallEffect(c, s, Picture(0, 0.9));
  }

  ghost predicate NoneLimited(c: Config, states: seq<Counters>, pictures: seq<Picture>)
    requires |states| == |pictures| + 1
  {
    forall i :: 0 <= i < |pictures| ==> !HitsLimit(c, states[i], pictures[i])
  }

  /** Emitted plus dropped frames, against calls plus duplicates. */
  function Balance(s: Counters): int { |s.emitted| + s.drop - s.dup }

  lemma CallBalance(c: Config, s: Counters, p: Picture)
    requires Sane(c, s)
    ensures Balance(VideoOut(c, s, p)) <= Balance(s) + 1
    ensures Balance(VideoOut(c, s, p)) == Balance(s) + 1 <==> !HitsLimit(c, s, p)
  {
    hide VideoOut, Planned, Decide, Limited;
    var k := CallEffect(c, s, p);
  }

  /** Conservation: emitted + drops == calls + dups over any run, exactly when no call hit the recording
      limit; otherwise frames are missing. */
  lemma {:induction false} FramesConserved(c: Config, states: seq<Counters>, pictures: seq<Picture>)
    requires Run(c, states, pictures)
    ensures Balance(states[|pictures|]) <= Balance(states[0]) + |pictures|
    ensures Balance(states[|pictures|]) == Balance(states[0]) + |pictures| <==> NoneLimited(c, states, pictures)
  {
    if pictures != [] {
      hide VideoOut, HitsLimit, Balance;
      var n := |pictures| - 1;
      var states0, pictures0 := states[..n + 1], pictures[..n];
      FramesConserved(c, states0, pictures0);
      FrameNumberBounded(c, states0, pictures0);
      CallBalance(c, states[n], pictures[n]);
      var last := HitsLimit(c, states[n], pictures[n]);
      assert NoneLimited(c, states, pictures) <==> NoneLimited(c, states0, pictures0) && !last by {
        assert forall i :: 0 <= i < n ==> states0[i] == states[i] && pictures0[i] == pictures[i];
      }
    }
  }

  /** In CFR the encoder sees every timestamp from the start value on, one after another. */
  lemma {:induction false} CfrTimestampsConsecutive(c: Config, states: seq<Counters>, pictures: seq<Picture>)
    requires Run(c, states, pictures) && c.format == Cfr && states[0].emitted == []
    ensures states[|pictures|].emitted == Consecutive(states[0].syncOpts, |states[|pictures|].emitted|)
    ensures states[|pictures|].syncOpts == states[0].syncOpts + |states[|pictures|].emitted|
  {
    if pictures != [] {
      hide VideoOut;
      var n := |pictures| - 1;
      CfrTimestampsConsecutive(c, states[..n + 1], pictures[..n]);
      FrameNumberBounded(c, states[..n + 1], pictures[..n]);
      CfrWanted(c, states[n], pictures[n]);
      var k := CallEffect(c, states[n], pictures[n]);
    }
  }

  predicate Increasing(ts: seq<int>) { forall i, j :: 0 <= i < j < |ts| ==> ts[i] < ts[j] }

  /** The next timestamp is above everything emitted so far. */
  ghost predicate Ahead(s: Counters) {
    Increasing(s.emitted) && forall i :: 0 <= i < |s.emitted| ==> s.emitted[i] < s.syncOpts
  }

  /** The VFR jump never goes back, up to a duration of 1.6: picture timestamps are integers. */
  lemma VfrJump(c: Config, s: Counters, p: Picture)
    requires c.format == Vfr && p.duration <= 1.6
    ensures Decide(c, s, p).1 >= s.syncOpts
  {
  }

  lemma {:induction false} VfrAhead(c: Config, states: seq<Counters>, pictures: seq<Picture>)
    requires Run(c, states, pictures) && c.format == Vfr && states[0].emitted == []
    requires forall i :: 0 <= i < |pictures| ==> pictures[i].duration <= 1.6
    ensures Ahead(states[|pictures|])
  {
    if pictures != [] {
      hide VideoOut, Decide, Planned;
      var n := |pictures| - 1;
      VfrAhead(c, states[..n + 1], pictures[..n]);
      FrameNumberBounded(c, states[..n + 1], pictures[..n]);
      VfrJump(c, states[n], pictures[n]);
      var k := CallEffect(c, states[n], pictures[n]);
    }
  }

  predicate Constant(pictures: seq<Picture>, duration: real) {
    forall i :: 0 <= i < |pictures| ==> pictures[i].duration == duration
  }

  /** In VFR an uncut call encodes at most one frame: with its own timestamp, or with the next one when that is
      within 0.6 of the picture's end; a picture is dropped exactly when its end is 0.6 or more behind. */
  lemma VfrAccuracy(c: Config, s: Counters, p: Picture)
    requires Sane(c, s) && c.format == Vfr && Uncut(c, s, p)
    ensures Delta(s, p) <= -0.6 ==> VideoOut(c, s, p) == s.(drop := s.drop + 1)
    ensures var after := VideoOut(c, s, p); var t := after.syncOpts - 1;
      Delta(s, p) > -0.6 ==> after.emitted == s.emitted + [t] && after.drop == s.drop
    ensures var t := VideoOut(c, s, p).syncOpts - 1;
      Delta(s, p) > -0.6 ==> t == p.pts || -0.6 < p.pts as real + p.duration - t as real <= 0.6
  {
    var k := CallEffect(c, s, p);
  }

  ghost predicate AlwaysIncreasing(duration: real) {
    forall c: Config, states: seq<Counters>, pictures: seq<Picture> |
      Run(c, states, pictures) && c.format == Vfr && states[0].emitted == [] && Constant(pictures, duration)
      :: Increasing(states[|pictures|].emitted)
  }

  /** In VFR the timestamps are strictly increasing in every run with a given picture duration, exactly
      when that duration is at most 1.6. */
  lemma VfrIncreasingIff(duration: real)
    ensures AlwaysIncreasing(duration) <==> duration <= 1.6
  {
    if duration <= 1.6 {
      forall c: Config, states: seq<Counters>, pictures: seq<Picture> |
        Run(c, states, pictures) && c.format == Vfr && states[0].emitted == [] && Constant(pictures, duration)
        ensures Increasing(states[|pictures|].emitted)
      {
        VfrAhead(c, states, pictures);
      }
    } else {
      VfrGoesBack(duration);
    }
  }

  /** Beyond 1.6, the same picture timestamp given twice is encoded twice with it. */
  lemma VfrGoesBack(duration: real)
    requires duration > 1.6
    ensures !AlwaysIncreasing(duration)
  {
    var c := Config(Vfr, 10, 108000.0, INT64_MAX, 0, 1, 1);
    var p := Picture(0, duration);
    var s0 := Counters(0, 0, 0, 0, false, []);
    var s1 := VideoOut(c, s0, p);
    var s2 := VideoOut(c, s1, p);
    var k1 := CallEffect(c, s0, p);
    var k2 := CallEffect(c, s1, p);
    assert s2.emitted == [0, 0];
    assert Run(c, [s0, s1, s2], [p, p]);
    var ts := [s0, s1, s2][|[p, p]|].emitted;
    assert ts[0] == ts[1];
    assert !Increasing(ts);
    assert Constant([p, p], duration);
  }

  /** The other methods hand every picture to the encoder with its own timestamp. */
  lemma PassthroughKeepsTimestamp(c: Config, s: Counters, p: Picture)
    requires Sane(c, s) && (c.format == Passthrough || c.format == Drop) && Uncut(c, s, p)
    ensures VideoOut(c, s, p).emitted == s.emitted + [p.pts] && VideoOut(c, s, p).drop == s.drop
  {
    var k := CallEffect(c, s, p);
  }

  // ---------------------------------------------------------------- the stream as the program updates it

  class OutputStream {
    const vsync: SyncMethod              // the option, and the flags of the output format
    const variableFps: bool
    const noTimestamps: bool
    const options: Config
    var syncOpts: int
    var frameNumber: int
    var nbFramesDup: int
    var nbFramesDrop: int
    var finished: bool
    var emitted: seq<int>

    function View(): Counters
      reads this
    {
      Counters(syncOpts, frameNumber, nbFramesDup, nbFramesDrop, finished, emitted)
    }

    /** The configuration with the method that VSYNC_AUTO stands for. */
    function Settings(): Config { options.(format := Resolve(vsync, variableFps, noTimestamps)) }

    constructor (vsync: SyncMethod, variableFps: bool, noTimestamps: bool, options: Config)
      ensures Settings() == options.(format := Resolve(vsync, variableFps, noTimestamps))
      ensures View() == Counters(0, 0, 0, 0, false, [])
    {
      this.vsync, this.variableFps, this.noTimestamps, this.options := vsync, variableFps, noTimestamps, options;
      syncOpts, frameNumber, nbFramesDup, nbFramesDrop, finished, emitted := 0, 0, 0, 0, false, [];
    }

    method CheckRecordingTime() returns (ok: bool)
      modifies this`finished
      ensures ok == !OverLimit(Settings(), syncOpts) && finished == (old(finished) || !ok)
    {
      if options.recordingTime != INT64_MAX &&
         (syncOpts - options.firstPts) * options.tbNum * 1000000 >= options.recordingTime * options.tbDen {
        finished := true;
        return false;
      }
      return true;
    }

    /** The loop that ends do_video_out. */
    method EncodeFrames(nbFrames: int)
      modifies this
      ensures View() == Emit(Settings(), old(View()), nbFrames)
    {
      hide OverLimit;
      var i := 0;
      while i < nbFrames
        invariant i >= 0 && Emit(Settings(), View(), nbFrames - i) == Emit(Settings(), old(View()), nbFrames)
      {
        var ok := CheckRecordingTime();
        if !ok { return; }
        emitted := emitted + [syncOpts];
        syncOpts := syncOpts + 1;
        frameNumber := frameNumber + 1;
        i := i + 1;
      }
    }

    method DoVideoOut(p: Picture)
      modifies this
      ensures View() == VideoOut(Settings(), old(View()), p)
    {
      hide LRint, Emit;
      var delta := p.pts as real - syncOpts as real + p.duration;
      var nbFrames := 1;
      var formatVideoSync :=
        match vsync
        case Chosen(format) => format
        case Auto => if variableFps then (if noTimestamps then Passthrough else Vfr) else Cfr;
      match formatVideoSync {
        case Cfr =>
          if delta < -1.1 { nbFrames := 0; } else if delta > 1.1 { nbFrames := LRint(delta); }
        case Vfr =>
          if delta <= -0.6 { nbFrames := 0; } else if delta > 0.6 { syncOpts := LRint(p.pts as real); }
        case _ =>
          syncOpts := LRint(p.pts as real);
      }
      nbFrames := Min(nbFrames, options.maxFrames - frameNumber);
      if nbFrames == 0 {
        nbFramesDrop := nbFramesDrop + 1;
        return;
      } else if nbFrames > 1 {
        if nbFrames as real > options.threshold * 30.0 {
          nbFramesDrop := nbFramesDrop + 1;
          return;
        }
        nbFramesDup := nbFramesDup + nbFrames - 1;
      }
      EncodeFrames(nbFrames);
    }
  }
}
