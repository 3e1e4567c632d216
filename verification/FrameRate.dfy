/** Frame-rate conversion of a video output: how often each frame is sent to the encoder,
    and the count of dropped and duplicated frames.

    Times are reals in units of the output time base; doubles and floats are taken to be
    exact. The consumer of the frames is taken to accept them all. */
module FrameRate {
  import opened Options

  datatype Method = CFR | VSCFR | VFR | PASSTHROUGH | DROP

  /** maxDup is dts_error_threshold * 30. */
  datatype Config = Config(vsync: Method, dropThreshold: real, maxDup: real)

  /** A filtered frame with its exact timestamp, which adjust_frame_pts_to_encoder_tb
      computes, and its duration. */
  datatype Frame = Frame(pts: real, duration: real)

  /** A frame sent: its timestamp, and which of the frames received it is. */
  datatype Out = Out(pts: int, id: nat)

  /** The last three values of nb_frames_prev, latest first. */
  datatype History = History(h0: nat, h1: nat, h2: nat)

  datatype Fps = Fps(nextPts: int, history: History, lastDropped: nat, nbDrop: nat, nbDup: nat,
                     lastFrame: Option<nat>, received: nat, sent: seq<Out>)

  datatype Choice = Choice(nbFrames: nat, nbPrev: nat, nextPts: int)

  // ---- Rounding and median ----

  /** llrint: to the nearest integer, halves to the even one. */
  function Llrint(x: real): (r: int)
    ensures -0.5 <= r as real - x <= 0.5
  {
    var f := x.Floor;
    var d := x - f as real;
    if d < 0.5 || (d == 0.5 && f % 2 == 0) then f else f + 1
  }

  lemma LlrintMonotone(x: real, y: real)
    requires x <= y
    ensures Llrint(x) <= Llrint(y)
  {
  }

  lemma LlrintOfInt(n: int)
    ensures Llrint(n as real) == n
  {
  }

  /** At least two of the three are at most the median, and two at least. */
  function Median3(a: int, b: int, c: int): (m: int)
    ensures m == a || m == b || m == c
    ensures (m <= a && m <= b) || (m <= a && m <= c) || (m <= b && m <= c)
    ensures (a <= m && b <= m) || (a <= m && c <= m) || (b <= m && c <= m)
  {
    var max2, min2 := if a >= b then a else b, if a >= b then b else a;
    var m := if c >= max2 then max2 else c;
    if m >= min2 then m else min2
  }

  // ---- How many frames ----

  predicate Clips(vsync: Method) {
    vsync != PASSTHROUGH && vsync != DROP
  }

  /** A frame that begins before the next output frame and ends after it is clipped. */
  predicate IsClipped(c: Config, next: int, f: Frame) {
    f.pts < next as real && f.pts + f.duration > next as real && Clips(c.vsync)
  }

  function Start(c: Config, next: int, f: Frame): real {
    if IsClipped(c, next, f) then next as real else f.pts
  }

  /** The end of the frame, which clipping does not change. */
  function End(f: Frame): real {
    f.pts + f.duration
  }

  predicate SkipsTo(c: Config, s: Fps, f: Frame) {
    c.vsync == VSCFR && s.sent == [] && Start(c, s.nextPts, f) - s.nextPts as real >= 0.5
  }

  /** The switch of video_sync_process. */
  function Choose(c: Config, s: Fps, f: Frame): Choice
    requires f.duration >= 0.0
  {
    var start := Start(c, s.nextPts, f);
    match c.vsync
    case CFR => Constant(c, s.sent != [], s.nextPts, start - s.nextPts as real, End(f) - s.nextPts as real)
    case VSCFR =>
      if SkipsTo(c, s, f) then Constant(c, false, Llrint(start), 0.0, End(f) - start)
      else Constant(c, s.sent != [], s.nextPts, start - s.nextPts as real, End(f) - s.nextPts as real)
    case VFR =>
      var delta := End(f) - s.nextPts as real;
      if delta <= -0.6 then Choice(0, 0, s.nextPts)
      else if delta > 0.6 then Choice(1, 0, Llrint(start))
      else Choice(1, 0, s.nextPts)
    case _ => Choice(1, 0, Llrint(start))
  }

  function Constant(c: Config, any: bool, next: int, delta0: real, delta: real): Choice {
    if c.dropThreshold != 0.0 && delta < c.dropThreshold && any then Choice(0, 0, next)
    else if delta < -1.1 then Choice(0, 0, next)
    else if delta > 1.1 then Choice(Llrint(delta), if delta0 > 1.1 then Llrint(delta0 - 0.6) else 0, next)
    else Choice(1, 0, next)
  }

  // ---- Counting ----

  function Bit(b: bool): nat {
    if b then 1 else 0
  }

  /** The frames that are no duplicates: the one kept back, and the new one. */
  function Originals(n: nat, p: nat, lastDropped: nat): nat {
    Bit(p > 0 && lastDropped > 0) + Bit(n > p)
  }

  predicate IsSkipped(c: Config, s: Fps, n: nat, p: nat) {
    n > Originals(n, p, s.lastDropped) && n as real > c.maxDup
  }

  /** The frame asks for more repetitions than are allowed, and nothing is sent for it. */
  predicate Skips(c: Config, s: Fps, f: Frame)
    requires f.duration >= 0.0
  {
    IsSkipped(c, s, Choose(c, s, f).nbFrames, Choose(c, s, f).nbPrev)
  }

  /** A pending frame that is not repeated now is dropped for good. */
  function Remembered(s: Fps, p: nat): Fps {
    s.(history := History(p, s.history.h0, s.history.h1), nbDrop := s.nbDrop + Bit(p == 0 && s.lastDropped > 0))
  }

  function Duplicated(c: Config, s: Fps, n: nat, p: nat, isFrame: bool): Fps {
    var originals := Originals(n, p, s.lastDropped);
    if IsSkipped(c, s, n, p) then s.(nbDrop := s.nbDrop + 1)
    else
      s.(nbDup := s.nbDup + (if n > originals then n - originals else 0),
         lastDropped := Bit(n == p && isFrame))
  }

  /** What follows the label finish in video_sync_process. */
  function Counted(c: Config, s: Fps, n: nat, p: nat, isFrame: bool): Fps {
    Duplicated(c, Remembered(s, p), n, p, isFrame)
  }

  /** The median repeated at the end of the stream. */
  function AtEnd(s: Fps): nat {
    Median3(s.history.h0, s.history.h1, s.history.h2)
  }

  /** video_sync_process: the new state, the frames to send and how many of them repeat
      the previous frame. */
  function Synced(c: Config, s: Fps, f: Option<Frame>): (Fps, nat, nat)
    requires f.Some? ==> f.value.duration >= 0.0
  {
    if f.None? then
      var m := AtEnd(s);
      var s' := if m == 0 && s.lastDropped > 0
                then s.(nbDrop := s.nbDrop + 1, lastDropped := s.lastDropped + 1) else s;
      (Counted(c, s', m, m, false), if IsSkipped(c, s', m, m) then 0 else m, m)
    else
      var ch := Choose(c, s, f.value);
      var s' := s.(nextPts := ch.nextPts);
      (Counted(c, s', ch.nbFrames, ch.nbPrev, true),
       if IsSkipped(c, s', ch.nbFrames, ch.nbPrev) then 0 else ch.nbFrames, ch.nbPrev)
  }

  // ---- Sending ----

  /** The i-th frame sent: the previous one at first, then the new one. */
  function Source(i: nat, p: nat, prev: Option<nat>, cur: Option<nat>): Option<nat> {
    if i < p && prev.Some? then prev else cur
  }

  function Repeated(next: int, n: nat, p: nat, prev: Option<nat>, cur: Option<nat>): (r: seq<Out>)
    ensures |r| <= n && (cur.Some? || (prev.Some? && n <= p) ==> |r| == n)
    ensures forall i | 0 <= i < |r| :: Source(i, p, prev, cur) == Some(r[i].id) && r[i].pts == next + i
  {
    if n == 0 then []
    else
      var front := Repeated(next, n - 1, p, prev, cur);
      var source := Source(n - 1, p, prev, cur);
      if |front| < n - 1 || source.None? then front else front + [Out(next + n - 1, source.value)]
  }

  function Current(s: Fps, f: Option<Frame>): Option<nat> {
    if f.Some? then Some(s.received) else None
  }

  /** fg_output_frame for a video output. gotFrame: the filtergraph has output some frame. */
  function Output(c: Config, s: Fps, f: Option<Frame>, gotFrame: bool): Fps
    requires f.Some? ==> f.value.duration >= 0.0
  {
    if f.None? && !gotFrame then s
    else
      var (t, n, p) := Synced(c, s, f);
      var out := Repeated(t.nextPts, n, p, s.lastFrame, Current(s, f));
      t.(nextPts := t.nextPts + |out|, sent := s.sent + out, received := s.received + Bit(f.Some?),
         lastFrame := if f.Some? then Current(s, f) else s.lastFrame)
  }

  // ---- One frame ----

  /** No more repetitions of the previous frame than frames in all. */
  lemma PrevAreAmong(c: Config, s: Fps, f: Frame)
    requires f.duration >= 0.0
    ensures Choose(c, s, f).nbPrev <= Choose(c, s, f).nbFrames
  {
    var start := Start(c, s.nextPts, f);
    if start - s.nextPts as real > 1.1 {
      LlrintMonotone(start - s.nextPts as real - 0.6, End(f) - s.nextPts as real);
    }
  }

  /** Frames sent, dropped or kept back, less those received and duplicated. */
  function Balance(s: Fps): int {
    |s.sent| + s.nbDrop + Bit(s.lastDropped > 0) - s.received - s.nbDup
  }

  /** A frame is skipped for asking too many repetitions while a dropped frame is pending:
      the pending frame is counted as dropped, and stays pending. */
  predicate CountsTwice(c: Config, s: Fps, f: Frame)
    requires f.duration >= 0.0
  {
    s.lastDropped > 0 && Choose(c, s, f).nbPrev == 0 && Skips(c, s, f)
  }

  lemma FrameBalance(c: Config, s: Fps, f: Frame, gotFrame: bool)
    requires f.duration >= 0.0
    ensures Balance(Output(c, s, Some(f), gotFrame)) == Balance(s) + Bit(CountsTwice(c, s, f))
  {
    PrevAreAmong(c, s, f);
  }

  /** At the end of the stream a pending frame that is not repeated is counted twice, and
      a repetition that is skipped is counted as a dropped frame. */
  lemma EndBalance(c: Config, s: Fps)
    requires s.lastFrame.Some?
    ensures Balance(Output(c, s, None, true)) ==
            Balance(s) + Bit(AtEnd(s) == 0 && s.lastDropped > 0) + Bit(IsSkipped(c, s, AtEnd(s), AtEnd(s)))
  {
  }

  // ---- A whole run ----

  predicate AllProper(frames: seq<Frame>) {
    forall k | 0 <= k < |frames| :: frames[k].duration >= 0.0
  }

  const NEW := Fps(0, History(0, 0, 0), 0, 0, 0, None, 0, [])

  /** The state after the given frames. */
  function Run(c: Config, frames: seq<Frame>): Fps
    requires AllProper(frames)
  {
    if frames == [] then NEW
    else Output(c, Run(c, frames[..|frames| - 1]), Some(frames[|frames| - 1]), true)
  }

  /** How many frames of the run were counted twice. */
  function DoubleCounts(c: Config, frames: seq<Frame>): nat
    requires AllProper(frames)
  {
    if frames == [] then 0
    else
      var front, f := frames[..|frames| - 1], frames[|frames| - 1];
      DoubleCounts(c, front) + Bit(CountsTwice(c, Run(c, front), f))
  }

  /** Frames sent, dropped and kept back make up those received and duplicated, but for
      the frames counted twice: exactly when there are none, the counts agree. */
  lemma {:induction false} Conservation(c: Config, frames: seq<Frame>)
    requires AllProper(frames)
    ensures var s := Run(c, frames);
            |s.sent| + s.nbDrop + Bit(s.lastDropped > 0) == s.received + s.nbDup + DoubleCounts(c, frames)
    ensures Run(c, frames).received == |frames|
  {
    if frames != [] {
      var front := frames[..|frames| - 1];
      Conservation(c, front);
      FrameBalance(c, Run(c, front), frames[|frames| - 1], true);
    }
  }

  const STRICT := Config(CFR, 0.0, 3.0)

  lemma OnTime()
    ensures Output(STRICT, NEW, Some(Frame(0.0, 1.0)), true) ==
            Fps(1, History(0, 0, 0), 0, 0, 0, Some(0), 1, [Out(0, 0)])
  {
    var f := Frame(0.0, 1.0);
    assert Choose(STRICT, NEW, f) == Choice(1, 0, 0);
    assert Repeated(0, 1, 0, None, Some(0)) == [Out(0, 0)];
  }

  lemma Late(s: Fps)
    requires s == Fps(1, History(0, 0, 0), 0, 0, 0, Some(0), 1, [Out(0, 0)])
    ensures Output(STRICT, s, Some(Frame(-3.0, 1.0)), true) ==
            Fps(1, History(0, 0, 0), 1, 0, 0, Some(1), 2, [Out(0, 0)])
  {
    LateIsDropped(s);
    Nothing(s, Some(Frame(-3.0, 1.0)), 1, 0);
  }

  lemma LateIsDropped(s: Fps)
    requires s.nextPts == 1 && s.sent != []
    ensures Choose(STRICT, s, Frame(-3.0, 1.0)) == Choice(0, 0, 1)
  {
    assert Start(STRICT, 1, Frame(-3.0, 1.0)) == -3.0;
  }

  lemma Nothing(s: Fps, f: Option<Frame>, next: int, p: nat)
    ensures Repeated(next, 0, p, s.lastFrame, Current(s, f)) == []
    ensures s.sent + [] == s.sent
  {
  }

  lemma LongIsCountedTwice(s: Fps)
    requires s.nextPts == 1 && s.lastDropped > 0
    ensures CountsTwice(STRICT, s, Frame(1.0, 10.0))
  {
    assert Choose(STRICT, s, Frame(1.0, 10.0)) == Choice(10, 0, 1);
  }

  lemma RunAppend(c: Config, frames: seq<Frame>, f: Frame)
    requires AllProper(frames) && f.duration >= 0.0
    ensures AllProper(frames + [f]) && Run(c, frames + [f]) == Output(c, Run(c, frames), Some(f), true)
    ensures DoubleCounts(c, frames + [f]) == DoubleCounts(c, frames) + Bit(CountsTwice(c, Run(c, frames), f))
  {
    assert (frames + [f])[..|frames|] == frames;
  }

  /** It does happen: after a frame dropped for being late, one that lasts too long. */
  lemma CountedTwice() returns (frames: seq<Frame>)
    ensures AllProper(frames) && DoubleCounts(STRICT, frames) > 0
  {
    var s1 := Fps(1, History(0, 0, 0), 0, 0, 0, Some(0), 1, [Out(0, 0)]);
    RunAppend(STRICT, [], Frame(0.0, 1.0));
    OnTime();
    RunAppend(STRICT, [] + [Frame(0.0, 1.0)], Frame(-3.0, 1.0));
    Late(s1);
    frames := [] + [Frame(0.0, 1.0)] + [Frame(-3.0, 1.0)];
    LongIsCountedTwice(Run(STRICT, frames));
    RunAppend(STRICT, frames, Frame(1.0, 10.0));
    frames := frames + [Frame(1.0, 10.0)];
  }

  // ---- Constant frame rate ----

  predicate Consecutive(sent: seq<Out>, next: int) {
    && (forall k | 0 <= k < |sent| - 1 :: sent[k + 1].pts == sent[k].pts + 1)
    && (sent != [] ==> next == sent[|sent| - 1].pts + 1)
  }

  predicate IsConstant(c: Config) {
    c.vsync == CFR || c.vsync == VSCFR
  }

  /** In the constant modes no output time is left out and none is used twice. */
  lemma StaysConsecutive(c: Config, s: Fps, f: Option<Frame>, gotFrame: bool)
    requires f.Some? ==> f.value.duration >= 0.0
    requires IsConstant(c) && Consecutive(s.sent, s.nextPts)
    ensures var t := Output(c, s, f, gotFrame); Consecutive(t.sent, t.nextPts)
  {
    if f.Some? || gotFrame {
      var (t, n, p) := Synced(c, s, f);
      var out := Repeated(t.nextPts, n, p, s.lastFrame, Current(s, f));
      assert s.sent != [] ==> t.nextPts == s.nextPts;
      JoinConsecutive(s.sent, out, t.nextPts);
    }
  }

  lemma JoinConsecutive(sent: seq<Out>, out: seq<Out>, next: int)
    requires Consecutive(sent, next) && forall i | 0 <= i < |out| :: out[i].pts == next + i
    ensures Consecutive(sent + out, next + |out|)
  {
  }

  lemma {:induction false} EmittedAreConsecutive(c: Config, frames: seq<Frame>)
    requires AllProper(frames) && IsConstant(c)
    ensures Consecutive(Run(c, frames).sent, Run(c, frames).nextPts)
    ensures var t := Output(c, Run(c, frames), None, true); Consecutive(t.sent, t.nextPts)
  {
    hide Output, Choose;
    if frames != [] {
      var front := frames[..|frames| - 1];
      EmittedAreConsecutive(c, front);
      StaysConsecutive(c, Run(c, front), Some(frames[|frames| - 1]), true);
    }
    StaysConsecutive(c, Run(c, frames), None, true);
  }

  /** How far the output is ahead of the end of the input. */
  function Ahead(s: Fps, f: Frame): real {
    s.nextPts as real - End(f)
  }

  predicate NeverSkips(c: Config, frames: seq<Frame>)
    requires AllProper(frames)
  {
    frames == [] ||
    (NeverSkips(c, frames[..|frames| - 1]) && !Skips(c, Run(c, frames[..|frames| - 1]), frames[|frames| - 1]))
  }

  /** How far behind the input a frame may leave the output: half a frame for rounding the
      number of frames and, where the output jumps to a first frame, half for that. */
  function Lag(c: Config): real {
    if c.vsync == VSCFR then 1.0 else 0.5
  }

  /** One frame brings the output back to between the lag behind the input and 2.1 ahead, if
      it was not further ahead before. */
  lemma DriftStep(c: Config, s: Fps, f: Frame)
    requires f.duration >= 0.0 && IsConstant(c) && c.dropThreshold == 0.0
    requires Ahead(s, f) <= 2.1
    ensures var t := Output(c, s, Some(f), true);
            if Skips(c, s, f) then t.nextPts == Choose(c, s, f).nextPts else -Lag(c) <= Ahead(t, f) <= 2.1
  {
    PrevAreAmong(c, s, f);
  }

  predicate EndsNeverDecrease(frames: seq<Frame>) {
    forall j, k | 0 <= j < k < |frames| :: End(frames[j]) <= End(frames[k])
  }

  /** The drift bound over a whole run: after every frame the output is at most the lag
      behind the end of the input and at most 2.1 frames ahead. */
  lemma {:induction false} DriftIsBounded(c: Config, frames: seq<Frame>)
    requires AllProper(frames) && IsConstant(c) && c.dropThreshold == 0.0
    requires frames != [] && End(frames[0]) >= 0.0 && EndsNeverDecrease(frames)
    requires NeverSkips(c, frames)
    ensures -Lag(c) <= Ahead(Run(c, frames), frames[|frames| - 1]) <= 2.1
  {
    hide Output, Choose;
    var n := |frames|;
    var front := frames[..n - 1];
    if n > 1 {
      DriftIsBounded(c, front);
      assert front[n - 2] == frames[n - 2] && End(frames[n - 2]) <= End(frames[n - 1]);
    }
    DriftStep(c, Run(c, front), frames[n - 1]);
  }

  // ---- All modes that follow the clock ----

  predicate Increasing(sent: seq<Out>, next: int) {
    && (forall j, k | 0 <= j < k < |sent| :: sent[j].pts < sent[k].pts)
    && (forall k | 0 <= k < |sent| :: sent[k].pts < next)
  }

  /** The next output time never goes back. */
  lemma NextNeverDecreases(c: Config, s: Fps, f: Frame)
    requires f.duration >= 0.0 && Clips(c.vsync)
    ensures Choose(c, s, f).nextPts >= s.nextPts
  {
    var start := Start(c, s.nextPts, f);
    LlrintOfInt(s.nextPts);
    if start >= s.nextPts as real {
      LlrintMonotone(s.nextPts as real, start);
    }
  }

  lemma StaysIncreasing(c: Config, s: Fps, f: Option<Frame>, gotFrame: bool)
    requires f.Some? ==> f.value.duration >= 0.0
    requires Clips(c.vsync) && Increasing(s.sent, s.nextPts)
    ensures var t := Output(c, s, f, gotFrame); Increasing(t.sent, t.nextPts)
  {
    if f.Some? {
      NextNeverDecreases(c, s, f.value);
    }
    if f.Some? || gotFrame {
      var (t, n, p) := Synced(c, s, f);
      JoinIncreasing(s.sent, Repeated(t.nextPts, n, p, s.lastFrame, Current(s, f)), t.nextPts);
    }
  }

  lemma JoinIncreasing(sent: seq<Out>, out: seq<Out>, next: int)
    requires Increasing(sent, next) && forall i | 0 <= i < |out| :: out[i].pts == next + i
    ensures Increasing(sent + out, next + |out|)
  {
  }

  /** In every mode but passthrough and drop the timestamps sent strictly increase. */
  lemma {:induction false} EmittedIncrease(c: Config, frames: seq<Frame>)
    requires AllProper(frames) && Clips(c.vsync)
    ensures Increasing(Run(c, frames).sent, Run(c, frames).nextPts)
    ensures var t := Output(c, Run(c, frames), None, true); Increasing(t.sent, t.nextPts)
  {
    hide Output, Choose;
    if frames != [] {
      var front := frames[..|frames| - 1];
      EmittedIncrease(c, front);
      StaysIncreasing(c, Run(c, front), Some(frames[|frames| - 1]), true);
    }
    StaysIncreasing(c, Run(c, frames), None, true);
  }

  /** Frames are sent in the order in which they came. */
  predicate InOrder(s: Fps) {
    && (s.lastFrame == if s.received == 0 then None else Some(s.received - 1))
    && (forall j, k | 0 <= j < k < |s.sent| :: s.sent[j].id <= s.sent[k].id)
    && (forall k | 0 <= k < |s.sent| :: s.sent[k].id < s.received)
  }

  lemma StaysInOrder(c: Config, s: Fps, f: Frame)
    requires f.duration >= 0.0 && InOrder(s)
    ensures InOrder(Output(c, s, Some(f), true))
  {
    var (t, n, p) := Synced(c, s, Some(f));
    var out := Repeated(t.nextPts, n, p, s.lastFrame, Some(s.received));
    forall i | 0 <= i < |out| ensures out[i].id == if i < p && s.lastFrame.Some? then s.received - 1 else s.received {
      assert Source(i, p, s.lastFrame, Some(s.received)) == Some(out[i].id);
    }
  }

  lemma EndsInOrder(c: Config, s: Fps, gotFrame: bool)
    requires InOrder(s)
    ensures InOrder(Output(c, s, None, gotFrame))
  {
    if gotFrame {
      var (t, n, p) := Synced(c, s, None);
      var out := Repeated(t.nextPts, n, p, s.lastFrame, None);
      forall i | 0 <= i < |out| ensures s.lastFrame == Some(out[i].id) {
        assert Source(i, p, s.lastFrame, None) == Some(out[i].id);
      }
    }
  }

  /** Over the whole run, and with the repetitions at the end of the stream. */
  lemma {:induction false} SentInOrder(c: Config, frames: seq<Frame>, gotFrame: bool)
    requires AllProper(frames)
    ensures InOrder(Run(c, frames)) && InOrder(Output(c, Run(c, frames), None, gotFrame))
  {
    RunInOrder(c, frames);
    EndsInOrder(c, Run(c, frames), gotFrame);
  }

  lemma {:induction false} RunInOrder(c: Config, frames: seq<Frame>)
    requires AllProper(frames)
    ensures InOrder(Run(c, frames))
  {
    if frames != [] {
      var front := frames[..|frames| - 1];
      RunInOrder(c, front);
      StaysInOrder(c, Run(c, front), frames[|frames| - 1]);
    }
  }

  // ---- The conversion in place ----

  class FpsConv {
    const c: Config
    /** frames_prev_hist. */
    const history: array<nat>
    var nextPts: int
    var lastDropped: nat
    var nbDrop: nat
    var nbDup: nat
    var lastFrame: Option<nat>
    var received: nat
    var sent: seq<Out>

    constructor (c: Config)
      ensures this.c == c && Valid() && State() == NEW && fresh(history)
    {
      this.c := c;
      history := new nat[3](_ => 0);
      nextPts, lastDropped, nbDrop, nbDup, lastFrame, received, sent := 0, 0, 0, 0, None, 0, [];
    }

    ghost predicate Valid()
      reads this
    {
      history.Length == 3
    }

    ghost function State(): Fps
      requires Valid()
      reads this, history
    {
      Fps(nextPts, History(history[0], history[1], history[2]), lastDropped, nbDrop, nbDup, lastFrame, received, sent)
    }

    method ChooseFrames(frame: Frame) returns (nbFrames: nat, nbFramesPrev: nat)
      requires Valid() && frame.duration >= 0.0
      modifies this`nextPts
      ensures Choice(nbFrames, nbFramesPrev, nextPts) == Choose(c, old(State()), frame)
    {
      var duration, syncIpts := frame.duration, frame.pts;
      var delta0 := syncIpts - nextPts as real;
      var delta := delta0 + duration;
      nbFramesPrev, nbFrames := 0, 1;
      if delta0 < 0.0 && delta > 0.0 && c.vsync != PASSTHROUGH && c.vsync != DROP {
        syncIpts := nextPts as real;
        duration := duration + delta0;
        delta0 := 0.0;
      }
      if c.vsync == VSCFR && sent == [] && delta0 >= 0.5 {
        delta, delta0 := duration, 0.0;
        nextPts := Llrint(syncIpts);
      }
      if c.vsync == CFR || c.vsync == VSCFR {
        if c.dropThreshold != 0.0 && delta < c.dropThreshold && sent != [] {
          nbFrames := 0;
        } else if delta < -1.1 {
          nbFrames := 0;
        } else if delta > 1.1 {
          nbFrames := Llrint(delta);
          if delta0 > 1.1 {
            nbFramesPrev := Llrint(delta0 - 0.6);
          }
        }
      } else if c.vsync == VFR {
        if delta <= -0.6 {
          nbFrames := 0;
        } else if delta > 0.6 {
          nextPts := Llrint(syncIpts);
        }
      } else {
        nextPts := Llrint(syncIpts);
      }
    }

    /** memmove of the history. */
    method Shift(nbFramesPrev: nat)
      requires Valid()
      modifies history
      ensures history[0] == nbFramesPrev && history[1] == old(history[0]) && history[2] == old(history[1])
    {
      var i := 2;
      while i > 0
        invariant 0 <= i <= 2
        invariant forall k | 0 <= k < 3 :: history[k] == if k <= i then old(history[k]) else old(history[k - 1])
      {
        history[i] := history[i - 1];
        i := i - 1;
      }
      history[0] := nbFramesPrev;
    }

    method Remember(nbFramesPrev: nat)
      requires Valid()
      modifies this`nbDrop, history
      ensures State() == Remembered(old(State()), nbFramesPrev)
    {
      Shift(nbFramesPrev);
      if nbFramesPrev == 0 && lastDropped > 0 {
        nbDrop := nbDrop + 1;
      }
    }

    method CountDuplicates(nbFrames: nat, nbFramesPrev: nat, isFrame: bool) returns (toSend: nat)
      requires Valid()
      modifies this`nbDrop, this`nbDup, this`lastDropped
      ensures State() == Duplicated(c, old(State()), nbFrames, nbFramesPrev, isFrame)
      ensures toSend == if IsSkipped(c, old(State()), nbFrames, nbFramesPrev) then 0 else nbFrames
    {
      toSend := nbFrames;
      var originals := Originals(nbFrames, nbFramesPrev, lastDropped);
      if nbFrames > originals {
        if nbFrames as real > c.maxDup {
          nbDrop := nbDrop + 1;
          return 0;
        }
        nbDup := nbDup + (nbFrames - originals);
      }
      lastDropped := if nbFrames == nbFramesPrev && isFrame then 1 else 0;
    }

    method CountFrames(nbFrames: nat, nbFramesPrev: nat, isFrame: bool) returns (toSend: nat)
      requires Valid()
      modifies this`nbDrop, this`nbDup, this`lastDropped, history
      ensures State() == Counted(c, old(State()), nbFrames, nbFramesPrev, isFrame)
      ensures toSend == if IsSkipped(c, old(State()), nbFrames, nbFramesPrev) then 0 else nbFrames
    {
      Remember(nbFramesPrev);
      toSend := CountDuplicates(nbFrames, nbFramesPrev, isFrame);
    }

    method VideoSyncProcess(frame: Option<Frame>) returns (nbFrames: nat, nbFramesPrev: nat)
      requires Valid() && (frame.Some? ==> frame.value.duration >= 0.0)
      modifies this`nextPts, this`nbDrop, this`nbDup, this`lastDropped, history
      ensures (State(), nbFrames, nbFramesPrev) == Synced(c, old(State()), frame)
    {
      if frame.None? {
        nbFrames := Median3(history[0], history[1], history[2]);
        nbFramesPrev := nbFrames;
        if nbFrames == 0 && lastDropped > 0 {
          nbDrop := nbDrop + 1;
          lastDropped := lastDropped + 1;
        }
      } else {
        nbFrames, nbFramesPrev := ChooseFrames(frame.value);
      }
      nbFrames := CountFrames(nbFrames, nbFramesPrev, frame.Some?);
    }

    method SendFrames(nbFrames: nat, nbFramesPrev: nat, cur: Option<nat>)
      requires Valid()
      modifies this`nextPts, this`sent
      ensures var out := Repeated(old(nextPts), nbFrames, nbFramesPrev, lastFrame, cur);
              sent == old(sent) + out && nextPts == old(nextPts) + |out|
    {
      var i := 0;
      ghost var next := nextPts;
      while i < nbFrames
        invariant 0 <= i <= nbFrames
        invariant |Repeated(next, i, nbFramesPrev, lastFrame, cur)| == i
        invariant sent == old(sent) + Repeated(next, i, nbFramesPrev, lastFrame, cur)
        invariant nextPts == next + i
      {
        var frameIn := if i < nbFramesPrev && lastFrame.Some? then lastFrame else cur;
        if frameIn.None? {
          RepeatedStops(next, i, nbFrames, nbFramesPrev, lastFrame);
          return;
        }
        sent := sent + [Out(nextPts, frameIn.value)];
        nextPts := nextPts + 1;
        i := i + 1;
      }
    }

    /** A frame, or the end of the stream, comes out of the filtergraph. */
    method FgOutputFrame(frame: Option<Frame>, gotFrame: bool)
      requires Valid() && (frame.Some? ==> frame.value.duration >= 0.0)
      modifies this, history
      ensures State() == Output(c, old(State()), frame, gotFrame)
    {
      if frame.None? && !gotFrame {
        return;
      }
      var nbFrames, nbFramesPrev := VideoSyncProcess(frame);
      var cur := if frame.Some? then Some(received) else None;
      SendFrames(nbFrames, nbFramesPrev, cur);
      if frame.Some? {
        lastFrame, received := cur, received + 1;
      }
    }
  }

  /** With nothing to send at some point, nothing follows. */
  lemma {:induction false} RepeatedStops(next: int, i: nat, n: nat, p: nat, prev: Option<nat>)
    requires i < n && Source(i, p, prev, None).None? && |Repeated(next, i, p, prev, None)| == i
    ensures Repeated(next, n, p, prev, None) == Repeated(next, i, p, prev, None)
  {
    if i < n - 1 {
      RepeatedStops(next, i, n - 1, p, prev);
    }
  }
}
