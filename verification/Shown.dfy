/** Which frames a video output shows, and when: a frame may be shown as it comes, be kept
    back and shown with the next one or at the end of the stream, or never be shown. */
module Shown {
  import opened FrameRate
  import opened Options

  // ---- One frame ----

  /** The frame ends too long before the next output time. */
  predicate IsTooLate(c: Config, s: Fps, f: Frame) {
    var delta := End(f) - s.nextPts as real;
    match c.vsync
    case VFR => delta <= -0.6
    case PASSTHROUGH => false
    case DROP => false
    case _ => delta < -1.1 || (c.dropThreshold != 0.0 && delta < c.dropThreshold && s.sent != [])
  }

  /** The frame is in time, but all the output times up to its end go to the frame before. */
  predicate IsPassedOver(c: Config, s: Fps, f: Frame) {
    var next := s.nextPts as real;
    var start := Start(c, s.nextPts, f);
    && IsConstant(c) && !SkipsTo(c, s, f)
    && start - next > 1.1 && Llrint(start - next - 0.6) == Llrint(End(f) - next)
  }

  predicate IsKeptBack(c: Config, s: Fps, f: Frame)
    requires f.duration >= 0.0
  {
    !Skips(c, s, f) && Choose(c, s, f).nbFrames == Choose(c, s, f).nbPrev
  }

  /** Nothing is to be sent for a frame exactly when it is too late; nothing of the frame
      itself exactly when it is too late or passed over. */
  lemma KeptBackExactly(c: Config, s: Fps, f: Frame)
    requires f.duration >= 0.0
    ensures Choose(c, s, f).nbFrames == 0 <==> IsTooLate(c, s, f)
    ensures Choose(c, s, f).nbFrames == Choose(c, s, f).nbPrev <==> IsTooLate(c, s, f) || IsPassedOver(c, s, f)
  {
  }

  /** A frame kept back is pending; a frame that is skipped leaves pending what was. The
      count of dropped frames goes up for a pending frame that is not shown now, and for a
      frame that is skipped. */
  lemma DropsAreCounted(c: Config, s: Fps, f: Frame)
    requires f.duration >= 0.0
    ensures var t := Output(c, s, Some(f), true);
            && (t.lastDropped > 0 <==> if Skips(c, s, f) then s.lastDropped > 0 else IsKeptBack(c, s, f))
            && t.nbDrop == s.nbDrop + Bit(s.lastDropped > 0 && Choose(c, s, f).nbPrev == 0) + Bit(Skips(c, s, f))
  {
  }

  /** The output time from which a frame may be shown: after the repetitions of the one
      before it, and without them when the frame is skipped or is the first. */
  function ShownFrom(c: Config, s: Fps, f: Frame): int
    requires f.duration >= 0.0
  {
    var ch := Choose(c, s, f);
    if Skips(c, s, f) || s.received == 0 then ch.nextPts else ch.nextPts + ch.nbPrev
  }

  /** How far from its frame that time may lie. */
  function Slack(vsync: Method): real {
    match vsync
    case CFR => 1.1
    case VSCFR => 1.1
    case VFR => 0.6
    case _ => 0.5
  }

  /** That time is near the time the frame covers, unless the frame is too late: then it is
      the next output time. */
  lemma ShownNearItsTime(c: Config, s: Fps, f: Frame)
    requires f.duration >= 0.0 && !Skips(c, s, f) && s.received > 0
    ensures if IsTooLate(c, s, f) then ShownFrom(c, s, f) == s.nextPts
            else f.pts - Slack(c.vsync) <= ShownFrom(c, s, f) as real <= End(f) + Slack(c.vsync)
  {
  }

  // ---- What one step sends ----

  predicate IsShown(sent: seq<Out>, k: nat) {
    exists j | 0 <= j < |sent| :: sent[j].id == k
  }

  /** The frame is shown as it comes. */
  predicate ShowsNew(c: Config, s: Fps, f: Frame)
    requires f.duration >= 0.0
  {
    var ch := Choose(c, s, f);
    !Skips(c, s, f) && (ch.nbPrev < ch.nbFrames || (s.received == 0 && ch.nbFrames > 0))
  }

  /** The frame before is shown again, or at last. */
  predicate ShowsPrevious(c: Config, s: Fps, f: Frame)
    requires f.duration >= 0.0
  {
    s.received > 0 && !Skips(c, s, f) && Choose(c, s, f).nbPrev > 0
  }

  predicate EndShowsPrevious(c: Config, s: Fps, gotFrame: bool) {
    s.received > 0 && gotFrame && AtEnd(s) > 0 && !IsSkipped(c, s, AtEnd(s), AtEnd(s))
  }

  /** What a frame adds to what is sent. */
  function Added(c: Config, s: Fps, f: Frame): (out: seq<Out>)
    requires f.duration >= 0.0
    ensures Output(c, s, Some(f), true).sent == s.sent + out
    ensures Output(c, s, Some(f), true).nextPts == Choose(c, s, f).nextPts + |out|
  {
    var ch := Choose(c, s, f);
    Repeated(ch.nextPts, if Skips(c, s, f) then 0 else ch.nbFrames, ch.nbPrev, s.lastFrame, Some(s.received))
  }

  lemma AddedAt(c: Config, s: Fps, f: Frame)
    requires f.duration >= 0.0 && InOrder(s)
    ensures var out, ch := Added(c, s, f), Choose(c, s, f);
            && |out| == (if Skips(c, s, f) then 0 else ch.nbFrames)
            && forall i | 0 <= i < |out| ::
                 out[i] == Out(ch.nextPts + i, if i < ch.nbPrev && s.received > 0 then s.received - 1 else s.received)
  {
    var out, ch := Added(c, s, f), Choose(c, s, f);
    forall i | 0 <= i < |out| ensures Some(out[i].id) == Source(i, ch.nbPrev, s.lastFrame, Some(s.received)) {
    }
  }

  lemma AddedShows(c: Config, s: Fps, f: Frame, k: nat)
    requires f.duration >= 0.0 && InOrder(s)
    ensures IsShown(Added(c, s, f), k) <==>
            (k == s.received && ShowsNew(c, s, f)) || (k + 1 == s.received && ShowsPrevious(c, s, f))
  {
    AddedAt(c, s, f);
    PrevAreAmong(c, s, f);
    var out, ch := Added(c, s, f), Choose(c, s, f);
    if k == s.received && ShowsNew(c, s, f) {
      assert out[if k == 0 then 0 else ch.nbPrev].id == k;
    }
    if k + 1 == s.received && ShowsPrevious(c, s, f) {
      assert out[0].id == k;
    }
  }

  /** What the end of the stream adds. */
  function AddedAtEnd(c: Config, s: Fps, gotFrame: bool): (out: seq<Out>)
    ensures Output(c, s, None, gotFrame).sent == s.sent + out
  {
    var m := AtEnd(s);
    if gotFrame && !IsSkipped(c, s, m, m) then Repeated(s.nextPts, m, m, s.lastFrame, None) else []
  }

  lemma AddedAtEndAt(c: Config, s: Fps, gotFrame: bool)
    requires InOrder(s)
    ensures var out := AddedAtEnd(c, s, gotFrame);
            && (out != [] <==> EndShowsPrevious(c, s, gotFrame))
            && forall i | 0 <= i < |out| :: s.received > 0 && out[i] == Out(s.nextPts + i, s.received - 1)
  {
    var out := AddedAtEnd(c, s, gotFrame);
    if out != [] {
      assert Source(0, AtEnd(s), s.lastFrame, None) == Some(out[0].id);
    }
    forall i | 0 <= i < |out| ensures Some(out[i].id) == Source(i, AtEnd(s), s.lastFrame, None) {
    }
  }

  /** A frame is skipped when it asks for more frames than the limit, unless at most two are
      asked for and each is an original: one new frame or one kept back, or both. */
  lemma SkipsExactly(c: Config, s: Fps, f: Frame)
    requires f.duration >= 0.0
    ensures var n, p := Choose(c, s, f).nbFrames, Choose(c, s, f).nbPrev;
            Skips(c, s, f) <==>
            && n as real > c.maxDup && n > 0
            && !(n == 1 && (p == 0 || s.lastDropped > 0)) && !(n == 2 && p == 1 && s.lastDropped > 0)
    ensures c.maxDup >= 2.0 ==> (Skips(c, s, f) <==> Choose(c, s, f).nbFrames as real > c.maxDup)
  {
    PrevAreAmong(c, s, f);
  }

  /** The first frame sent in the CFR mode goes where the output stands; in the VSCFR mode
      the output first jumps to the frame, to the nearest output time, if that is ahead. */
  lemma FirstOutputTime(c: Config, s: Fps, f: Frame)
    requires f.duration >= 0.0 && InOrder(s) && IsConstant(c) && s.sent == []
    ensures var sent := Output(c, s, Some(f), true).sent;
            sent != [] ==>
              if c.vsync == VSCFR && f.pts >= s.nextPts as real + 0.5
              then sent[0].id == s.received && -0.5 <= sent[0].pts as real - f.pts <= 0.5
              else sent[0].pts == s.nextPts
  {
    AddedAt(c, s, f);
  }

  // ---- A whole run ----

  /** The state that frame k meets. */
  function Before(c: Config, frames: seq<Frame>, k: nat): Fps
    requires AllProper(frames) && k <= |frames|
  {
    Run(c, frames[..k])
  }

  /** What has been sent at the end of the stream. */
  function Final(c: Config, frames: seq<Frame>, gotFrame: bool): seq<Out>
    requires AllProper(frames)
  {
    Output(c, Run(c, frames), None, gotFrame).sent
  }

  predicate ShownAtOnce(c: Config, frames: seq<Frame>, k: nat)
    requires AllProper(frames) && k < |frames|
  {
    ShowsNew(c, Before(c, frames, k), frames[k])
  }

  /** The next frame, or the end of the stream, shows frame k. */
  predicate ShownNext(c: Config, frames: seq<Frame>, gotFrame: bool, k: nat)
    requires AllProper(frames) && k < |frames|
  {
    if k + 1 < |frames| then ShowsPrevious(c, Before(c, frames, k + 1), frames[k + 1])
    else EndShowsPrevious(c, Run(c, frames), gotFrame)
  }

  lemma BeforeReceives(c: Config, frames: seq<Frame>, k: nat)
    requires AllProper(frames) && k <= |frames|
    ensures InOrder(Before(c, frames, k)) && Before(c, frames, k).received == k
    ensures k < |frames| ==> Before(c, frames, k + 1) == Output(c, Before(c, frames, k), Some(frames[k]), true)
    ensures Before(c, frames, |frames|) == Run(c, frames)
  {
    RunInOrder(c, frames[..k]);
    Conservation(c, frames[..k]);
    assert frames[..|frames|] == frames;
    if k < |frames| {
      assert frames[..k + 1][..k] == frames[..k];
    }
  }

  lemma AppendShows(sent: seq<Out>, out: seq<Out>, k: nat)
    ensures IsShown(sent + out, k) <==> IsShown(sent, k) || IsShown(out, k)
  {
    if j :| 0 <= j < |sent| && sent[j].id == k {
      assert (sent + out)[j].id == k;
    }
    if j :| 0 <= j < |out| && out[j].id == k {
      assert (sent + out)[|sent| + j].id == k;
    }
  }

  lemma StepShows(c: Config, s: Fps, f: Frame, k: nat)
    requires f.duration >= 0.0 && InOrder(s)
    ensures IsShown(Output(c, s, Some(f), true).sent, k) <==>
            || IsShown(s.sent, k)
            || (k == s.received && ShowsNew(c, s, f))
            || (k + 1 == s.received && ShowsPrevious(c, s, f))
  {
    AppendShows(s.sent, Added(c, s, f), k);
    AddedShows(c, s, f, k);
  }

  /** After the first n frames, frame k has been shown if it was at once or by the next. */
  predicate HasBeenShown(c: Config, frames: seq<Frame>, n: nat, k: nat)
    requires AllProper(frames) && n <= |frames| && k < |frames|
  {
    || (k < n && ShownAtOnce(c, frames, k))
    || (k + 1 < n && ShowsPrevious(c, Before(c, frames, k + 1), frames[k + 1]))
  }

  lemma {:induction false} ShownSoFar(c: Config, frames: seq<Frame>, n: nat, k: nat)
    requires AllProper(frames) && n <= |frames| && k < |frames|
    ensures IsShown(Before(c, frames, n).sent, k) <==> HasBeenShown(c, frames, n, k)
    decreases n
  {
    hide Output, Choose;
    if n > 0 {
      ShownSoFar(c, frames, n - 1, k);
      BeforeReceives(c, frames, n - 1);
      StepShows(c, Before(c, frames, n - 1), frames[n - 1], k);
    } else {
      NothingShown(c, frames, k);
    }
  }

  lemma NothingShown(c: Config, frames: seq<Frame>, k: nat)
    requires AllProper(frames)
    ensures !IsShown(Before(c, frames, 0).sent, k)
  {
  }

  /** A frame is shown exactly when it is shown as it comes, or the next frame or the end of
      the stream shows it. It is never shown when it was kept back or skipped, and the next
      frame asks for no repetition or is skipped, or the median at the end is zero. */
  lemma ShownExactly(c: Config, frames: seq<Frame>, gotFrame: bool, k: nat)
    requires AllProper(frames) && k < |frames|
    ensures IsShown(Final(c, frames, gotFrame), k) <==>
            ShownAtOnce(c, frames, k) || ShownNext(c, frames, gotFrame, k)
  {
    var n := |frames|;
    ShownSoFar(c, frames, n, k);
    BeforeReceives(c, frames, n);
    var s := Run(c, frames);
    var out := AddedAtEnd(c, s, gotFrame);
    AppendShows(s.sent, out, k);
    AddedAtEndAt(c, s, gotFrame);
    if out != [] {
      assert out[0].id == n - 1;
    }
  }

  /** How often the frame that came `back` frames before the end asked for the one before
      it; no frame asked for none. */
  function AskedBefore(c: Config, frames: seq<Frame>, back: nat): nat
    requires AllProper(frames) && back > 0
  {
    if back > |frames| then 0
    else Choose(c, Before(c, frames, |frames| - back), frames[|frames| - back]).nbPrev
  }

  lemma AskedBeforeFront(c: Config, frames: seq<Frame>, back: nat)
    requires AllProper(frames) && frames != [] && back > 0
    ensures AskedBefore(c, frames[..|frames| - 1], back) == AskedBefore(c, frames, back + 1)
  {
    var front := frames[..|frames| - 1];
    if back <= |front| {
      assert front[..|front| - back] == frames[..|frames| - (back + 1)];
    }
  }

  /** The history holds what the last three frames asked for, the last one first. */
  lemma {:induction false} HistoryIs(c: Config, frames: seq<Frame>)
    requires AllProper(frames)
    ensures Run(c, frames).history ==
            History(AskedBefore(c, frames, 1), AskedBefore(c, frames, 2), AskedBefore(c, frames, 3))
  {
    if frames != [] {
      var n := |frames| - 1;
      HistoryIs(c, frames[..n]);
      AskedBeforeFront(c, frames, 1);
      AskedBeforeFront(c, frames, 2);
      HistoryStep(c, Run(c, frames[..n]), frames[n]);
    }
  }

  lemma HistoryStep(c: Config, s: Fps, f: Frame)
    requires f.duration >= 0.0
    ensures Output(c, s, Some(f), true).history == History(Choose(c, s, f).nbPrev, s.history.h0, s.history.h1)
  {
  }

  /** At the end of the stream the last frame is sent again, at the output times that
      follow, as often as the median of what the last three frames asked for; not at all
      when that passes the limit, other than for one frame kept back. */
  lemma EndRepeatsMedian(c: Config, frames: seq<Frame>)
    requires AllProper(frames) && frames != []
    ensures var m := Median3(AskedBefore(c, frames, 1), AskedBefore(c, frames, 2), AskedBefore(c, frames, 3));
            var s := Run(c, frames);
            var n := if m as real > c.maxDup && (m > 1 || s.lastDropped == 0) then 0 else m;
            Final(c, frames, true) == s.sent + seq(n, i => Out(s.nextPts + i, |frames| - 1))
  {
    hide Output, Choose, Run, AskedBefore;
    HistoryIs(c, frames);
    BeforeReceives(c, frames, |frames|);
    EndSends(c, Run(c, frames));
  }

  lemma EndSends(c: Config, s: Fps)
    requires InOrder(s) && s.received > 0
    ensures var n := if AtEnd(s) as real > c.maxDup && (AtEnd(s) > 1 || s.lastDropped == 0) then 0 else AtEnd(s);
            Output(c, s, None, true).sent == s.sent + seq(n, i => Out(s.nextPts + i, s.received - 1))
  {
    AddedAtEndAt(c, s, true);
    var n := if AtEnd(s) as real > c.maxDup && (AtEnd(s) > 1 || s.lastDropped == 0) then 0 else AtEnd(s);
    var out := AddedAtEnd(c, s, true);
    assert out == seq(n, i => Out(s.nextPts + i, s.received - 1));
  }

  /** Kept back or skipped is what a frame is that is not shown at once; the first frame is
      shown although it is kept back, for there is none before it to repeat. */
  lemma NotAtOnce(c: Config, frames: seq<Frame>, k: nat)
    requires AllProper(frames) && k < |frames|
    ensures var s, f := Before(c, frames, k), frames[k];
            !ShownAtOnce(c, frames, k) <==>
            Skips(c, s, f) || (IsKeptBack(c, s, f) && (k == 0 ==> Choose(c, s, f).nbFrames == 0))
  {
    BeforeReceives(c, frames, k);
    PrevAreAmong(c, Before(c, frames, k), frames[k]);
  }

  // ---- When a frame is first shown ----

  function From(c: Config, frames: seq<Frame>, k: nat): int
    requires AllProper(frames) && k < |frames|
  {
    ShownFrom(c, Before(c, frames, k), frames[k])
  }

  predicate NotBefore(c: Config, frames: seq<Frame>, o: Out)
    requires AllProper(frames)
  {
    o.id < |frames| && o.pts >= From(c, frames, o.id)
  }

  /** What a frame adds is of that frame, from its time on, or of the one before, from the
      next output time on. */
  lemma AddedNotBefore(c: Config, s: Fps, f: Frame)
    requires f.duration >= 0.0 && InOrder(s)
    ensures forall i | 0 <= i < |Added(c, s, f)| ::
              var o := Added(c, s, f)[i];
              if o.id == s.received then o.pts >= ShownFrom(c, s, f)
              else o.id + 1 == s.received && o.pts >= s.nextPts
    ensures Output(c, s, Some(f), true).nextPts >= ShownFrom(c, s, f)
  {
    AddedAt(c, s, f);
    PrevAreAmong(c, s, f);
    if Clips(c.vsync) {
      NextNeverDecreases(c, s, f);
    }
  }

  predicate AllNotBefore(c: Config, frames: seq<Frame>, sent: seq<Out>)
    requires AllProper(frames)
  {
    forall j | 0 <= j < |sent| :: NotBefore(c, frames, sent[j])
  }

  lemma JoinNotBefore(c: Config, frames: seq<Frame>, sent: seq<Out>, out: seq<Out>)
    requires AllProper(frames) && AllNotBefore(c, frames, sent) && AllNotBefore(c, frames, out)
    ensures AllNotBefore(c, frames, sent + out)
  {
  }

  lemma StepNotBefore(c: Config, frames: seq<Frame>, n: nat)
    requires AllProper(frames) && n < |frames|
    requires n > 0 ==> Before(c, frames, n).nextPts >= From(c, frames, n - 1)
    ensures AllNotBefore(c, frames, Added(c, Before(c, frames, n), frames[n]))
    ensures Before(c, frames, n + 1).nextPts >= From(c, frames, n)
  {
    BeforeReceives(c, frames, n);
    var s, f := Before(c, frames, n), frames[n];
    AddedNotBefore(c, s, f);
    var out := Added(c, s, f);
    forall i | 0 <= i < |out| ensures NotBefore(c, frames, out[i]) {
      assert out[i].id == n || out[i].id + 1 == n;
    }
  }

  /** No frame is shown before its time, and the output has come to that of the last. */
  lemma {:induction false} NoneBefore(c: Config, frames: seq<Frame>, n: nat)
    requires AllProper(frames) && n <= |frames|
    ensures AllNotBefore(c, frames, Before(c, frames, n).sent)
    ensures n > 0 ==> Before(c, frames, n).nextPts >= From(c, frames, n - 1)
    decreases n
  {
    hide Output, Choose;
    if n > 0 {
      NoneBefore(c, frames, n - 1);
      StepNotBefore(c, frames, n - 1);
      BeforeReceives(c, frames, n - 1);
      JoinNotBefore(c, frames, Before(c, frames, n - 1).sent, Added(c, Before(c, frames, n - 1), frames[n - 1]));
    }
  }

  /** A frame that waits to be shown does so at the next output time. */
  lemma WaitsAtNext(c: Config, frames: seq<Frame>, k: nat)
    requires AllProper(frames) && k < |frames| && !ShownAtOnce(c, frames, k)
    ensures Before(c, frames, k + 1).nextPts == From(c, frames, k)
  {
    BeforeReceives(c, frames, k);
    var s, f := Before(c, frames, k), frames[k];
    AddedAt(c, s, f);
    PrevAreAmong(c, s, f);
  }

  lemma {:induction false} SentStays(c: Config, frames: seq<Frame>, k: nat, n: nat, o: Out)
    requires AllProper(frames) && k <= n <= |frames| && o in Before(c, frames, k).sent
    ensures o in Before(c, frames, n).sent
    decreases n - k
  {
    hide Output, Choose;
    if k < n {
      BeforeReceives(c, frames, k);
      assert o in Before(c, frames, k).sent + Added(c, Before(c, frames, k), frames[k]);
      SentStays(c, frames, k + 1, n, o);
    }
  }

  lemma FirstAtOnce(c: Config, frames: seq<Frame>, k: nat)
    requires AllProper(frames) && k < |frames| && ShownAtOnce(c, frames, k)
    ensures Out(From(c, frames, k), k) in Run(c, frames).sent
  {
    BeforeReceives(c, frames, k);
    BeforeReceives(c, frames, |frames|);
    var s, f := Before(c, frames, k), frames[k];
    AddedAt(c, s, f);
    var out := Added(c, s, f);
    assert out[if k == 0 then 0 else Choose(c, s, f).nbPrev] == Out(From(c, frames, k), k);
    assert Out(From(c, frames, k), k) in s.sent + out;
    SentStays(c, frames, k + 1, |frames|, Out(From(c, frames, k), k));
  }

  lemma FirstByNext(c: Config, frames: seq<Frame>, k: nat)
    requires AllProper(frames) && k + 1 < |frames| && !ShownAtOnce(c, frames, k)
    requires ShowsPrevious(c, Before(c, frames, k + 1), frames[k + 1])
    ensures Out(From(c, frames, k), k) in Run(c, frames).sent
  {
    WaitsAtNext(c, frames, k);
    BeforeReceives(c, frames, k + 1);
    BeforeReceives(c, frames, |frames|);
    var s, f := Before(c, frames, k + 1), frames[k + 1];
    PreviousFirst(c, s, f);
    assert Out(From(c, frames, k), k) in s.sent + Added(c, s, f);
    SentStays(c, frames, k + 2, |frames|, Out(From(c, frames, k), k));
  }

  lemma PreviousFirst(c: Config, s: Fps, f: Frame)
    requires f.duration >= 0.0 && InOrder(s) && ShowsPrevious(c, s, f)
    ensures Added(c, s, f) != [] && Added(c, s, f)[0] == Out(s.nextPts, s.received - 1)
  {
    AddedAt(c, s, f);
    PrevAreAmong(c, s, f);
  }

  lemma NoneBeforeAtEnd(c: Config, frames: seq<Frame>, gotFrame: bool)
    requires AllProper(frames)
    ensures AllNotBefore(c, frames, Final(c, frames, gotFrame))
  {
    var n, s := |frames|, Run(c, frames);
    BeforeReceives(c, frames, n);
    NoneBefore(c, frames, n);
    AddedAtEndAt(c, s, gotFrame);
    var out := AddedAtEnd(c, s, gotFrame);
    forall j | 0 <= j < |out| ensures NotBefore(c, frames, out[j]) {
    }
    JoinNotBefore(c, frames, s.sent, out);
  }

  lemma FirstAtEnd(c: Config, frames: seq<Frame>, gotFrame: bool)
    requires AllProper(frames) && frames != [] && !ShownAtOnce(c, frames, |frames| - 1)
    requires EndShowsPrevious(c, Run(c, frames), gotFrame)
    ensures Out(From(c, frames, |frames| - 1), |frames| - 1) in AddedAtEnd(c, Run(c, frames), gotFrame)
  {
    var n := |frames|;
    BeforeReceives(c, frames, n);
    AddedAtEndAt(c, Run(c, frames), gotFrame);
    WaitsAtNext(c, frames, n - 1);
    assert AddedAtEnd(c, Run(c, frames), gotFrame)[0] == Out(From(c, frames, n - 1), n - 1);
  }

  lemma FirstIsSent(c: Config, frames: seq<Frame>, gotFrame: bool, k: nat)
    requires AllProper(frames) && k < |frames|
    requires ShownAtOnce(c, frames, k) || ShownNext(c, frames, gotFrame, k)
    ensures Out(From(c, frames, k), k) in Final(c, frames, gotFrame)
  {
    var out := AddedAtEnd(c, Run(c, frames), gotFrame);
    if ShownAtOnce(c, frames, k) {
      FirstAtOnce(c, frames, k);
    } else if k + 1 < |frames| {
      FirstByNext(c, frames, k);
    } else {
      FirstAtEnd(c, frames, gotFrame);
    }
    assert Final(c, frames, gotFrame) == Run(c, frames).sent + out;
  }

  /** A frame that is shown at all is, in every mode, first shown exactly at the time ShownFrom gives. */
  lemma FirstShownAt(c: Config, frames: seq<Frame>, gotFrame: bool, k: nat)
    requires AllProper(frames) && k < |frames| && IsShown(Final(c, frames, gotFrame), k)
    ensures Out(From(c, frames, k), k) in Final(c, frames, gotFrame)
    ensures forall o | o in Final(c, frames, gotFrame) && o.id == k :: o.pts >= From(c, frames, k)
  {
    hide Output, Choose;
    ShownExactly(c, frames, gotFrame, k);
    FirstIsSent(c, frames, gotFrame, k);
    NoneBeforeAtEnd(c, frames, gotFrame);
    forall o | o in Final(c, frames, gotFrame) && o.id == k ensures o.pts >= From(c, frames, k) {
      assert NotBefore(c, frames, o);
    }
  }

  /** In a constant mode, with ends that never decrease and nothing skipped, every frame but
      the first that is shown is first shown at most 1.1 frames before the time it covers
      and at most 2.1 after. */
  lemma ShownWithin(c: Config, frames: seq<Frame>, gotFrame: bool, k: nat)
    requires AllProper(frames) && IsConstant(c) && c.dropThreshold == 0.0
    requires 0 < k < |frames| && End(frames[0]) >= 0.0 && EndsNeverDecrease(frames) && NeverSkips(c, frames)
    requires IsShown(Final(c, frames, gotFrame), k)
    ensures Out(From(c, frames, k), k) in Final(c, frames, gotFrame)
    ensures forall o | o in Final(c, frames, gotFrame) && o.id == k :: o.pts >= From(c, frames, k)
    ensures frames[k].pts - 1.1 <= From(c, frames, k) as real <= End(frames[k]) + 2.1
  {
    hide Output, Choose;
    FirstShownAt(c, frames, gotFrame, k);
    BeforeReceives(c, frames, k);
    NeverSkipsBefore(c, frames, k);
    AheadBefore(c, frames, k);
    NearUnlessAhead(c, Before(c, frames, k), frames[k]);
  }

  lemma AheadBefore(c: Config, frames: seq<Frame>, k: nat)
    requires AllProper(frames) && IsConstant(c) && c.dropThreshold == 0.0
    requires 0 < k < |frames| && End(frames[0]) >= 0.0 && EndsNeverDecrease(frames) && NeverSkips(c, frames[..k])
    ensures Ahead(Before(c, frames, k), frames[k]) <= 2.1
  {
    hide Output, Choose, Run, NeverSkips;
    var front := frames[..k];
    DriftIsBounded(c, front);
    assert End(front[k - 1]) <= End(frames[k]);
  }

  lemma NearUnlessAhead(c: Config, s: Fps, f: Frame)
    requires f.duration >= 0.0 && IsConstant(c) && c.dropThreshold == 0.0 && s.received > 0
    requires !Skips(c, s, f) && Ahead(s, f) <= 2.1
    ensures f.pts - 1.1 <= ShownFrom(c, s, f) as real <= End(f) + 2.1
  {
    ShownNearItsTime(c, s, f);
  }

  lemma {:induction false} NeverSkipsBefore(c: Config, frames: seq<Frame>, k: nat)
    requires AllProper(frames) && NeverSkips(c, frames) && k < |frames|
    ensures NeverSkips(c, frames[..k]) && !Skips(c, Before(c, frames, k), frames[k])
    decreases |frames|
  {
    hide Output, Choose;
    var n := |frames| - 1;
    if k < n {
      NeverSkipsBefore(c, frames[..n], k);
      assert frames[..n][..k] == frames[..k];
    }
  }

  // ---- A frame in time that is never shown ----

  const PASSED := Frame(2.2, 0.2)
  const NEXT := Frame(2.4, 0.6)

  lemma PassedIsPassedOver(s: Fps)
    requires s.nextPts == 1 && s.sent != []
    ensures Choose(STRICT, s, PASSED) == Choice(1, 1, 1)
    ensures !IsTooLate(STRICT, s, PASSED) && IsPassedOver(STRICT, s, PASSED)
  {
    assert Start(STRICT, 1, PASSED) == 2.2 && End(PASSED) == 2.4;
  }

  lemma NextShowsItself(s: Fps)
    requires s.nextPts == 2 && s.sent != []
    ensures Choose(STRICT, s, NEXT) == Choice(1, 0, 2)
  {
    assert Start(STRICT, 2, NEXT) == 2.4 && End(NEXT) == 3.0;
  }

  /** One frame is asked for, and it is the one before. */
  lemma OnlyPrevious(c: Config, s: Fps, f: Frame)
    requires f.duration >= 0.0 && InOrder(s) && c.maxDup >= 1.0 && s.lastDropped == 0
    requires Choose(c, s, f).nbFrames == 1 == Choose(c, s, f).nbPrev
    ensures var t := Output(c, s, Some(f), true);
            && t.nextPts == Choose(c, s, f).nextPts + 1 && t.sent != [] && t.lastDropped == 1
            && t.received == s.received + 1 && t.nbDrop == s.nbDrop
    ensures s.received > 0 ==> !ShowsNew(c, s, f)
  {
    AddedAt(c, s, f);
  }

  lemma PassedOver(s: Fps)
    requires s == Fps(1, History(0, 0, 0), 0, 0, 0, Some(0), 1, [Out(0, 0)])
    ensures var t := Output(STRICT, s, Some(PASSED), true);
            t.nextPts == 2 && t.sent != [] && t.lastDropped == 1 && t.received == 2 && t.nbDrop == 0
    ensures !ShowsNew(STRICT, s, PASSED)
  {
    hide Output, Choose, ShowsNew;
    PassedIsPassedOver(s);
    OnlyPrevious(STRICT, s, PASSED);
  }

  const ONE: seq<Frame> := [Frame(0.0, 1.0)]
  const TWO: seq<Frame> := ONE + [PASSED]
  const THREE: seq<Frame> := TWO + [NEXT]

  lemma AfterOne()
    ensures AllProper(ONE) && Run(STRICT, ONE) == Fps(1, History(0, 0, 0), 0, 0, 0, Some(0), 1, [Out(0, 0)])
  {
    RunAppend(STRICT, [], Frame(0.0, 1.0));
    assert [] + [Frame(0.0, 1.0)] == ONE;
    OnTime();
  }

  lemma AfterTwo()
    ensures AllProper(TWO)
    ensures var t := Run(STRICT, TWO); t.nextPts == 2 && t.sent != [] && t.lastDropped == 1 && t.nbDrop == 0
  {
    AfterOne();
    RunAppend(STRICT, ONE, PASSED);
    PassedOver(Run(STRICT, ONE));
  }

  lemma AfterThree()
    ensures AllProper(THREE) && Run(STRICT, THREE).nbDrop == 1 && AllProper(TWO)
    ensures !ShowsPrevious(STRICT, Run(STRICT, TWO), NEXT)
  {
    hide Output, Choose, Run;
    AfterTwo();
    RunAppend(STRICT, TWO, NEXT);
    NextShowsItself(Run(STRICT, TWO));
    DropsAreCounted(STRICT, Run(STRICT, TWO), NEXT);
  }

  lemma Prefixes()
    ensures |THREE| == 3 && THREE[..1] == ONE && THREE[..2] == TWO && THREE[1] == PASSED && THREE[2] == NEXT
  {
  }

  /** A frame that ends after the next output time is kept back, for its output times went
      to the frame before, and never shown: it is counted as dropped when the next comes. */
  lemma InTimeButNeverShown(gotFrame: bool)
    ensures AllProper(THREE) && |THREE| == 3 && !IsTooLate(STRICT, Before(STRICT, THREE, 1), THREE[1])
    ensures !IsShown(Final(STRICT, THREE, gotFrame), 1) && Run(STRICT, THREE).nbDrop == 1
  {
    Prefixes();
    AfterOne();
    AfterThree();
    PassedOver(Run(STRICT, ONE));
    PassedIsPassedOver(Run(STRICT, ONE));
    ShownExactly(STRICT, THREE, gotFrame, 1);
  }
}
