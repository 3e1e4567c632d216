/** The time base in which a decoder counts audio time: after each change of the sample
    rate one that can represent the timestamps of every rate seen so far. */
module AudioTb {
  import opened Timestamps
  import opened Divisors
  import opened Options

  type Rate = r: nat | 0 < r <= INT_MAX witness 1

  /** The least common multiple of 192000 and 44100. */
  const FALLBACK := 28224000

  /** A unit time base 1/den. */
  function Unit(den: Rate): Rational {
    Rational(1, den)
  }

  /** The test of audio_samplerate_update on the quotients. */
  predicate FallsBack(prev: Rate, sr: Rate) {
    prev / Gcd(prev, sr) >= INT_MAX / sr
  }

  /** The denominator for the rates seen before, counted in prev, and sr. */
  function Candidate(prev: Rate, sr: Rate): (den: Rate) {
    CandidateFits(prev, sr);
    if FallsBack(prev, sr) then FALLBACK else prev / Gcd(prev, sr) * sr
  }

  /** A frame's own time base is kept when it is a strict refinement. */
  predicate IsFiner(tb: Rational, den: Rate) {
    tb.num == 1 && den < tb.den <= INT_MAX && tb.den % den == 0
  }

  function Chosen(prev: Rate, sr: Rate, frameTb: Rational): (den: Rate) {
    var c := Candidate(prev, sr);
    if IsFiner(frameTb, c) then frameTb.den else c
  }

  lemma QuotientLess(q: int, n: int, d: nat)
    requires d > 0
    ensures q < n / d <==> q * d + d <= n
  {
    assert n == d * (n / d) + n % d;
    if q < n / d {
      MulMonotone(q + 1, n / d, d);
    } else {
      MulMonotone(n / d, q, d);
    }
    assert (q + 1) * d == q * d + d;
  }

  /** The program falls back exactly when the least common multiple comes within one rate
      of the greatest int. */
  lemma FallsBackExactly(prev: Rate, sr: Rate)
    ensures FallsBack(prev, sr) <==> Lcm(prev, sr) + sr > INT_MAX
  {
    QuotientLess(prev / Gcd(prev, sr), INT_MAX, sr);
  }

  /** It may do so although the least common multiple itself is an int. */
  lemma FallsBackEarly() returns (prev: Rate, sr: Rate)
    ensures FallsBack(prev, sr) && Lcm(prev, sr) <= INT_MAX
  {
    prev, sr := 46340, 46341;
    GcdFromBezout(prev, sr, 1, -1, 1);
    FallsBackExactly(prev, sr);
  }

  lemma CandidateFits(prev: Rate, sr: Rate)
    ensures !FallsBack(prev, sr) ==> 0 < prev / Gcd(prev, sr) * sr <= INT_MAX
  {
    FallsBackExactly(prev, sr);
    LcmIsMultiple(prev, sr);
  }

  /** Unless it falls back, the candidate is the least common multiple of the denominator
      before and the new rate. */
  lemma CandidateIsLcm(prev: Rate, sr: Rate, c: nat)
    requires !FallsBack(prev, sr)
    ensures Divides(prev, Candidate(prev, sr)) && Divides(sr, Candidate(prev, sr))
    ensures Divides(prev, c) && Divides(sr, c) ==> Divides(Candidate(prev, sr), c)
  {
    LcmIsMultiple(prev, sr);
    if Divides(prev, c) && Divides(sr, c) {
      LcmIsLeast(prev, sr, c);
    }
  }

  lemma ChosenIsMultiple(prev: Rate, sr: Rate, frameTb: Rational)
    requires !FallsBack(prev, sr)
    ensures Divides(prev, Chosen(prev, sr, frameTb)) && Divides(sr, Chosen(prev, sr, frameTb))
  {
    var c := Candidate(prev, sr);
    CandidateIsLcm(prev, sr, 0);
    if IsFiner(frameTb, c) {
      DividesTransitive(prev, c, frameTb.den);
      DividesTransitive(sr, c, frameTb.den);
    }
  }

  // ---- The decoder's clock ----

  /** tbDen: the time base is 1/tbDen. sampleRate is 0 before the first frame. */
  datatype Clock = Clock(tbDen: Rate, lastPts: Option<int>, durationEst: int, sampleRate: nat)

  const START := Clock(1, None, 0, 0)

  /** rescaled is what av_rescale_delta makes of the timestamp of a frame that has one, in
      the time base the frame is counted in. */
  datatype Frame = Frame(pts: Option<int>, tb: Rational, nbSamples: nat, sampleRate: Rate, rescaled: int)

  function Moved(pts: int, from: Rate, to: Rate): int {
    RescaleQ(pts, Unit(from), Unit(to))
  }

  /** audio_samplerate_update. */
  function Updated(a: Clock, sr: Rate, frameTb: Rational): Clock {
    if sr == a.sampleRate then a
    else
      var den := Chosen(a.tbDen, sr, frameTb);
      Clock(den, if a.lastPts.Some? then Some(Moved(a.lastPts.value, a.tbDen, den)) else None,
            Moved(a.durationEst, a.tbDen, den), sr)
  }

  function Predicted(a: Clock): int {
    if a.lastPts.Some? then a.lastPts.value + a.durationEst else 0
  }

  /** audio_ts_process. */
  function Processed(a: Clock, f: Frame): Clock {
    var u := Updated(a, f.sampleRate, f.tb);
    u.(lastPts := Some(if f.pts.Some? then f.rescaled else Predicted(u)),
       durationEst := Moved(f.nbSamples, f.sampleRate, u.tbDen))
  }

  class AudioDecoder {
    var tbDen: Rate
    var lastPts: Option<int>
    var durationEst: int
    var sampleRate: nat

    constructor ()
      ensures State() == START
    {
      tbDen, lastPts, durationEst, sampleRate := 1, None, 0, 0;
    }

    ghost function State(): Clock
      reads this
    {
      Clock(tbDen, lastPts, durationEst, sampleRate)
    }

    method ChooseDen(sr: Rate, frameTb: Rational) returns (den: Rate)
      ensures den == Chosen(tbDen, sr, frameTb)
    {
      var gcd := AvGcd(tbDen, sr);
      CandidateFits(tbDen, sr);
      if tbDen / gcd >= INT_MAX / sr {
        den := FALLBACK;
      } else {
        den := tbDen / gcd * sr;
      }
      if frameTb.num == 1 && den < frameTb.den <= INT_MAX && frameTb.den % den == 0 {
        den := frameTb.den;
      }
    }

    method AudioSamplerateUpdate(sr: Rate, frameTb: Rational)
      modifies this
      ensures State() == Updated(old(State()), sr, frameTb)
    {
      if sr == sampleRate {
        return;
      }
      var den := ChooseDen(sr, frameTb);
      if lastPts.Some? {
        lastPts := Some(Moved(lastPts.value, tbDen, den));
      }
      durationEst := Moved(durationEst, tbDen, den);
      tbDen, sampleRate := den, sr;
    }

    /** outPts is in units of the frame's sample rate. */
    method AudioTsProcess(f: Frame) returns (outPts: int)
      modifies this
      ensures State() == Processed(old(State()), f)
      ensures outPts == Moved(State().lastPts.value, tbDen, f.sampleRate)
    {
      AudioSamplerateUpdate(f.sampleRate, f.tb);
      var ptsPred := if lastPts.None? then 0 else lastPts.value + durationEst;
      var pts := f.rescaled;
      if f.pts.None? {
        // the frame is given the internal time base, so that av_rescale_delta rounds simply
        pts := Moved(ptsPred, tbDen, tbDen);
        RescaleSame(ptsPred, Unit(tbDen));
      }
      lastPts := Some(pts);
      durationEst := Moved(f.nbSamples, f.sampleRate, tbDen);
      outPts := Moved(pts, tbDen, f.sampleRate);
    }
  }

  // ---- Exactness ----

  function InSeconds(pts: int, den: Rate): real {
    Seconds(pts, Unit(den))
  }

  /** Moving to a multiple of the denominator loses nothing. */
  lemma MovedIsExact(pts: int, from: Rate, to: Rate)
    requires Divides(from, to)
    ensures InSeconds(Moved(pts, from, to), to) == InSeconds(pts, from)
    ensures Moved(pts, from, to) == pts * (to / from)
  {
    Quotient(from, to);
    var k := pts * (to / from);
    assert pts * to == k * from;
    assert 1 * to == to && 1 * from == from;
    RescaleExact(pts, to, from, k);
    CrossMultiply(k, to, pts, from);
    assert k * 1 == k && pts * 1 == pts;
  }

  /** Moving a timestamp is exact precisely when it falls on a unit of the new time base. */
  lemma MovedExactly(pts: int, from: Rate, to: Rate)
    ensures InSeconds(Moved(pts, from, to), to) == InSeconds(pts, from) <==> Divides(from, pts * to)
  {
    var k := Moved(pts, from, to);
    CrossMultiply(k * 1, to, pts * 1, from);
    if Divides(from, pts * to) {
      Quotient(from, pts * to);
      RescaleExact(pts, 1 * to, 1 * from, pts * to / from);
    } else if k * from == pts * to {
      DividesFrom(from, pts * to, k);
    }
  }

  /** Whether a frame makes the clock fall back to a denominator that need not fit. */
  predicate Breaks(a: Clock, f: Frame) {
    f.sampleRate != a.sampleRate && FallsBack(a.tbDen, f.sampleRate)
  }

  /** The stored timestamp and duration stand for the same times as before. */
  predicate KeepsTimes(a: Clock, u: Clock) {
    && u.lastPts.Some? == a.lastPts.Some?
    && InSeconds(u.durationEst, u.tbDen) == InSeconds(a.durationEst, a.tbDen)
    && (a.lastPts.Some? ==> InSeconds(u.lastPts.value, u.tbDen) == InSeconds(a.lastPts.value, a.tbDen))
  }

  predicate CanExpressLast(a: Clock) {
    a.sampleRate > 0 ==> Divides(a.sampleRate, a.tbDen)
  }

  /** Without a fallback a change of rate keeps the time of the last frame and its length
      exactly, and the new denominator can express both rates. */
  lemma UpdateIsExact(a: Clock, f: Frame)
    requires CanExpressLast(a) && !Breaks(a, f)
    ensures var u := Updated(a, f.sampleRate, f.tb);
            Divides(a.tbDen, u.tbDen) && Divides(f.sampleRate, u.tbDen) && KeepsTimes(a, u)
  {
    if f.sampleRate != a.sampleRate {
      var den := Chosen(a.tbDen, f.sampleRate, f.tb);
      ChosenIsMultiple(a.tbDen, f.sampleRate, f.tb);
      MovedIsExact(a.durationEst, a.tbDen, den);
      if a.lastPts.Some? {
        MovedIsExact(a.lastPts.value, a.tbDen, den);
      }
    } else {
      DividesFrom(a.tbDen, a.tbDen, 1);
    }
  }

  /** tb is 1/n, with n an int and a multiple of den. */
  predicate IsRefinement(tb: Rational, den: Rate) {
    tb.num == 1 && 0 < tb.den <= INT_MAX && Divides(den, tb.den)
  }

  lemma FinerExactly(tb: Rational, c: Rate)
    ensures (if IsFiner(tb, c) then tb.den else c) == if IsRefinement(tb, c) then tb.den else c
  {
    if IsRefinement(tb, c) {
      AtMost(c, tb.den);
    }
  }

  /** Without a change of rate nothing is changed. The denominator after one is that of the
      frame's own time base, when it can express both the times counted before and the new
      rate, and otherwise the least that can; after a fallback the fallback, or the frame's
      own if it refines that. */
  lemma TimeBaseExactly(a: Clock, f: Frame)
    ensures f.sampleRate == a.sampleRate ==> Updated(a, f.sampleRate, f.tb) == a
    ensures f.sampleRate != a.sampleRate ==>
            Updated(a, f.sampleRate, f.tb).tbDen ==
            if FallsBack(a.tbDen, f.sampleRate) then
              if IsRefinement(f.tb, 28224000) then f.tb.den else 28224000
            else if IsRefinement(f.tb, a.tbDen) && IsRefinement(f.tb, f.sampleRate) then f.tb.den
            else Lcm(a.tbDen, f.sampleRate)
    ensures Updated(a, f.sampleRate, f.tb).sampleRate == f.sampleRate
  {
    var c := Candidate(a.tbDen, f.sampleRate);
    FinerExactly(f.tb, c);
    if !FallsBack(a.tbDen, f.sampleRate) {
      RefinesBoth(a.tbDen, f.sampleRate, f.tb);
    }
  }

  lemma RefinesBoth(prev: Rate, sr: Rate, tb: Rational)
    requires !FallsBack(prev, sr)
    ensures Candidate(prev, sr) == Lcm(prev, sr)
    ensures IsRefinement(tb, Candidate(prev, sr)) <==> IsRefinement(tb, prev) && IsRefinement(tb, sr)
  {
    CandidateIsLcm(prev, sr, if tb.den > 0 then tb.den else 0);
    if IsRefinement(tb, Candidate(prev, sr)) {
      DividesTransitive(prev, Candidate(prev, sr), tb.den);
      DividesTransitive(sr, Candidate(prev, sr), tb.den);
    }
  }

  /** A timestamp that is moved, such as the one handed on, which is in samples, stays within
      half a unit of where it was. */
  lemma MovedIsNear(pts: int, from: Rate, to: Rate)
    ensures var diff := InSeconds(Moved(pts, from, to), to) - InSeconds(pts, from);
            -Tick(Unit(to)) / 2.0 <= diff <= Tick(Unit(to)) / 2.0
  {
    RescaleQError(pts, Unit(from), Unit(to));
  }

  // ---- Runs ----

  /** The clock after some frames, with or without timestamps. */
  function Run(frames: seq<Frame>): Clock {
    if frames == [] then START else Processed(Run(frames[..|frames| - 1]), frames[|frames| - 1])
  }

  predicate NeverBreaks(frames: seq<Frame>) {
    frames == [] ||
    (NeverBreaks(frames[..|frames| - 1]) && !Breaks(Run(frames[..|frames| - 1]), frames[|frames| - 1]))
  }

  predicate CanExpress(den: Rate, frames: seq<Frame>) {
    forall k | 0 <= k < |frames| :: Divides(frames[k].sampleRate, den)
  }

  /** Until a fallback the denominator stays divisible by every rate seen. */
  lemma {:induction false} EveryRateIsExpressed(frames: seq<Frame>)
    requires NeverBreaks(frames)
    ensures CanExpress(Run(frames).tbDen, frames) && CanExpressLast(Run(frames))
    ensures frames != [] ==> Run(frames).lastPts.Some?
  {
    if frames != [] {
      var front, f := frames[..|frames| - 1], frames[|frames| - 1];
      EveryRateIsExpressed(front);
      var a := Run(front);
      UpdateIsExact(a, f);
      forall k | 0 <= k < |front| ensures Divides(frames[k].sampleRate, Run(frames).tbDen) {
        assert Divides(front[k].sampleRate, a.tbDen);
        DividesTransitive(frames[k].sampleRate, a.tbDen, Run(frames).tbDen);
      }
    }
  }

  lemma NeverBreaksBefore(frames: seq<Frame>, k: nat)
    requires NeverBreaks(frames) && k < |frames|
    ensures NeverBreaks(frames[..k]) && !Breaks(Run(frames[..k]), frames[k])
  {
    var n := |frames| - 1;
    if k < n {
      NeverBreaksBefore(frames[..n], k);
      assert frames[..n][..k] == frames[..k];
    }
  }

  /** Until a fallback no change of rate, whatever came before it, changes the times the
      stored timestamp and duration stand for. */
  lemma EveryUpdateIsExact(frames: seq<Frame>, k: nat)
    requires NeverBreaks(frames) && k < |frames|
    ensures KeepsTimes(Run(frames[..k]), Updated(Run(frames[..k]), frames[k].sampleRate, frames[k].tb))
  {
    NeverBreaksBefore(frames, k);
    EveryRateIsExpressed(frames[..k]);
    UpdateIsExact(Run(frames[..k]), frames[k]);
  }

  function Length(f: Frame): real {
    f.nbSamples as real / f.sampleRate as real
  }

  /** The end of the last frame as a clock without rounding has it: a frame begins at its
      timestamp, or where the one before it ended. */
  function EndTime(frames: seq<Frame>): real {
    if frames == [] then 0.0
    else
      var f := frames[|frames| - 1];
      Length(f) + if f.pts.Some? then InSeconds(f.rescaled, Run(frames).tbDen) else EndTime(frames[..|frames| - 1])
  }

  /** Until a fallback the prediction is the exact end of the last frame. */
  lemma {:induction false} PredictionIsExact(frames: seq<Frame>)
    requires NeverBreaks(frames)
    ensures InSeconds(Predicted(Run(frames)), Run(frames).tbDen) == EndTime(frames)
  {
    if frames != [] {
      var front, f := frames[..|frames| - 1], frames[|frames| - 1];
      PredictionIsExact(front);
      EveryRateIsExpressed(front);
      UpdateIsExact(Run(front), f);
      StepIsExact(Run(front), f);
    }
  }

  lemma StepIsExact(a: Clock, f: Frame)
    requires var u := Updated(a, f.sampleRate, f.tb); Divides(f.sampleRate, u.tbDen) && KeepsTimes(a, u)
    ensures var t := Processed(a, f);
            InSeconds(Predicted(t), t.tbDen) ==
            Length(f) + if f.pts.Some? then InSeconds(f.rescaled, t.tbDen) else InSeconds(Predicted(a), a.tbDen)
  {
    var u := Updated(a, f.sampleRate, f.tb);
    var t := Processed(a, f);
    MovedIsExact(f.nbSamples, f.sampleRate, u.tbDen);
    SecondsSum(t.lastPts.value, t.durationEst, t.tbDen);
    if a.lastPts.Some? {
      SecondsSum(u.lastPts.value, u.durationEst, u.tbDen);
      SecondsSum(a.lastPts.value, a.durationEst, a.tbDen);
    }
  }

  lemma SecondsSum(x: int, y: int, den: Rate)
    ensures InSeconds(x + y, den) == InSeconds(x, den) + InSeconds(y, den)
  {
  }

  /** The time the frames take. */
  function TotalTime(frames: seq<Frame>): real {
    if frames == [] then 0.0
    else TotalTime(frames[..|frames| - 1]) + Length(frames[|frames| - 1])
  }

  /** Without any timestamps the prediction is the sum of the lengths of the frames. */
  lemma {:induction false} PredictionIsTotal(frames: seq<Frame>)
    requires NeverBreaks(frames) && forall k | 0 <= k < |frames| :: frames[k].pts == None
    ensures InSeconds(Predicted(Run(frames)), Run(frames).tbDen) == TotalTime(frames)
  {
    PredictionIsExact(frames);
    if frames != [] {
      var front := frames[..|frames| - 1];
      PredictionIsTotal(front);
      PredictionIsExact(front);
    }
  }

  // ---- The fallback ----

  lemma FallbackIsLcm()
    ensures Lcm(192000, 44100) == FALLBACK
  {
    GcdFromBezout(192000, 44100, 300, -65, 283);
  }

  /** Rates that divide the fallback never lead to it. */
  lemma CommonRatesFit(prev: Rate, sr: Rate)
    requires Divides(prev, FALLBACK) && Divides(sr, FALLBACK)
    ensures !FallsBack(prev, sr) && Divides(Candidate(prev, sr), FALLBACK)
  {
    LcmIsLeast(prev, sr, FALLBACK);
    AtMost(Lcm(prev, sr), FALLBACK);
    AtMost(sr, FALLBACK);
    FallsBackExactly(prev, sr);
  }

  predicate IsCommon(r: Rate) {
    r in {8000, 11025, 12000, 16000, 22050, 24000, 32000, 44100, 48000, 64000, 88200, 96000, 176400, 192000}
  }

  /** If the time base of the frame is taken over, it divides the fallback. */
  predicate TakesOverDivisor(a: Clock, f: Frame) {
    f.sampleRate != a.sampleRate && IsFiner(f.tb, Candidate(a.tbDen, f.sampleRate)) ==> Divides(f.tb.den, FALLBACK)
  }

  predicate TakesOverDivisors(frames: seq<Frame>) {
    frames == [] ||
    (TakesOverDivisors(frames[..|frames| - 1]) &&
     TakesOverDivisor(Run(frames[..|frames| - 1]), frames[|frames| - 1]))
  }

  predicate AllCommon(frames: seq<Frame>) {
    forall k | 0 <= k < |frames| :: IsCommon(frames[k].sampleRate)
  }

  /** Streams at the usual sample rates never fall back, as long as no frame's own time base
      is taken over that does not divide the fallback. */
  lemma {:induction false} CommonRatesNeverBreak(frames: seq<Frame>)
    requires AllCommon(frames) && TakesOverDivisors(frames)
    ensures NeverBreaks(frames) && Divides(Run(frames).tbDen, FALLBACK)
  {
    if frames != [] {
      var front, f := frames[..|frames| - 1], frames[|frames| - 1];
      CommonRatesNeverBreak(front);
      CommonStep(Run(front), f);
    }
  }

  lemma CommonStep(a: Clock, f: Frame)
    requires Divides(a.tbDen, FALLBACK) && IsCommon(f.sampleRate) && TakesOverDivisor(a, f)
    ensures !Breaks(a, f) && Divides(Processed(a, f).tbDen, FALLBACK)
  {
    assert Divides(f.sampleRate, FALLBACK);
    CommonRatesFit(a.tbDen, f.sampleRate);
  }

  /** In particular when every frame comes in a time base whose denominator divides the
      fallback, such as that of its own sample rate, or in one that is no 1/n. */
  lemma {:induction false} UsualTimeBasesNeverBreak(frames: seq<Frame>)
    requires AllCommon(frames)
    requires forall k | 0 <= k < |frames| && frames[k].tb.num == 1 && frames[k].tb.den > 0 ::
               Divides(frames[k].tb.den, FALLBACK)
    ensures TakesOverDivisors(frames) && NeverBreaks(frames)
  {
    if frames != [] {
      UsualTimeBasesNeverBreak(frames[..|frames| - 1]);
    }
    CommonRatesNeverBreak(frames);
  }
}
