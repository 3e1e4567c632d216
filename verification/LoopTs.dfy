/** Reading a file again and again with -stream_loop: each pass is shifted by the length
    of the passes before it.

    A packet's timestamp is given as it is before the shift, after the offset and scale of
    its file were applied, which are the same in every pass. */
module LoopTs {
  import opened Timestamps

  const UNIT := Rational(1, 1)

  /** pts before the shift, duration, and the time base of the stream. */
  datatype Packet = Packet(pts: Timestamp, duration: nat, tb: TimeBase)

  predicate IsProper(p: Packet) {
    p.pts.At? ==> p.pts.tb == p.tb
  }

  /** The fields of a demuxer that looping uses. */
  datatype Loop = Loop(duration: int, durationTb: TimeBase, minPts: Timestamp, maxPts: Timestamp)

  const FIRST := Loop(0, UNIT, Unknown, Unknown)

  function Earlier(a: Timestamp, b: Timestamp): Timestamp
    requires b.At?
  {
    if a == Unknown || Before(b, a) then b else a
  }

  /** The pts a packet leaves ts_fixup with. */
  function Shifted(l: Loop, p: Packet): Timestamp {
    if p.pts.At? then At(p.pts.ts + RescaleQ(l.duration, l.durationTb, p.tb), p.tb) else Unknown
  }

  /** With an audio decoder its answer to the flush, and not the packet, gives the end. */
  function EndOf(l: Loop, p: Packet, haveAudioDec: bool): Timestamp
    requires p.pts.At?
  {
    At(Shifted(l, p).ts + (if haveAudioDec then 0 else p.duration), p.tb)
  }

  /** The loop fields after ts_fixup. */
  function Noted(l: Loop, p: Packet, haveAudioDec: bool): Loop {
    if p.pts == Unknown then l
    else l.(maxPts := Later(l.maxPts, EndOf(l, p, haveAudioDec)), minPts := Earlier(l.minPts, Shifted(l, p)))
  }

  /** seek_to_start. */
  function Restarted(l: Loop, end: Timestamp): Loop {
    var max := if end.At? then Later(l.maxPts, end) else l.maxPts;
    if max == Unknown then l.(durationTb := UNIT)
    else
      var min := if l.minPts.At? then RescaleQ(l.minPts.ts, l.minPts.tb, max.tb) else RescaleQ(0, UNIT, max.tb);
      Loop(max.ts - min, max.tb, l.minPts, max)
  }

  // ---- In place ----

  class Demuxer {
    const haveAudioDec: bool
    /** Passes left; negative for ever. */
    var loop: int
    var duration: int
    var durationTb: TimeBase
    var minPts: Timestamp
    var maxPts: Timestamp

    constructor (loop: int, haveAudioDec: bool)
      ensures State() == FIRST && this.loop == loop && this.haveAudioDec == haveAudioDec
    {
      this.loop, this.haveAudioDec := loop, haveAudioDec;
      duration, durationTb, minPts, maxPts := 0, UNIT, Unknown, Unknown;
    }

    ghost function State(): Loop
      reads this
    {
      Loop(duration, durationTb, minPts, maxPts)
    }

    /** The loop part of ts_fixup. */
    method TsFixup(p: Packet) returns (pts: Timestamp)
      requires IsProper(p)
      modifies this`minPts, this`maxPts
      ensures pts == Shifted(old(State()), p)
      ensures State() == Noted(old(State()), p, haveAudioDec)
    {
      var shift := RescaleQ(duration, durationTb, p.tb);
      if p.pts == Unknown {
        return Unknown;
      }
      var pktDuration := if haveAudioDec then 0 else p.duration;
      pts := At(p.pts.ts + shift, p.tb);
      var end := At(pts.ts + pktDuration, p.tb);
      if maxPts == Unknown || Before(maxPts, end) {
        maxPts := end;
      }
      if minPts == Unknown || Before(pts, minPts) {
        minPts := pts;
      }
    }

    method SeekToStart(end: Timestamp)
      modifies this
      ensures State() == Restarted(old(State()), end)
      ensures loop == if old(loop) > 0 then old(loop) - 1 else old(loop)
    {
      if end.At? && (maxPts == Unknown || Before(maxPts, end)) {
        maxPts := end;
      }
      if maxPts.At? {
        var min, minTb := 0, UNIT;
        if minPts.At? {
          min, minTb := minPts.ts, minPts.tb;
        }
        duration := maxPts.ts - RescaleQ(min, minTb, maxPts.tb);
        durationTb := maxPts.tb;
      } else {
        durationTb := UNIT;
      }
      if loop > 0 {
        loop := loop - 1;
      }
    }
  }

  // ---- One pass ----

  function NotedAll(l: Loop, ps: seq<Packet>, haveAudioDec: bool): Loop {
    if ps == [] then l
    else Noted(NotedAll(l, ps[..|ps| - 1], haveAudioDec), ps[|ps| - 1], haveAudioDec)
  }

  /** A pass, and the seek after it. */
  datatype Pass = Pass(packets: seq<Packet>, end: Timestamp)

  /** The loop fields after some passes. */
  function AfterPasses(passes: seq<Pass>, haveAudioDec: bool): Loop {
    if passes == [] then FIRST
    else
      var last := passes[|passes| - 1];
      Restarted(NotedAll(AfterPasses(passes[..|passes| - 1], haveAudioDec), last.packets, haveAudioDec), last.end)
  }

  // ---- What the fields stand for ----

  /** A packet is shifted by the length found, to within half a unit of its time base. */
  lemma ShiftIsNear(l: Loop, p: Packet)
    requires IsProper(p) && p.pts.At?
    ensures Shifted(l, p).At? && Shifted(l, p).tb == p.tb
    ensures var off := Time(Shifted(l, p)) - Time(p.pts) - Seconds(l.duration, l.durationTb);
            -Tick(p.tb) / 2.0 <= off <= Tick(p.tb) / 2.0
  {
    var shift := RescaleQ(l.duration, l.durationTb, p.tb);
    RescaleQError(l.duration, l.durationTb, p.tb);
    SecondsAdd(p.pts.ts, shift, p.tb);
  }

  /** The time a packet ends at: an audio decoder knows better than the packet. */
  function EndTime(l: Loop, p: Packet, haveAudioDec: bool): real
    requires p.pts.At?
  {
    Seconds(Shifted(l, p).ts + (if haveAudioDec then 0 else p.duration), p.tb)
  }

  /** max_pts is the latest end and min_pts the earliest begin. */
  lemma NotedExactly(l: Loop, p: Packet, haveAudioDec: bool)
    requires p.pts.At?
    ensures var t := Noted(l, p, haveAudioDec);
            && t.maxPts.At? && t.minPts.At? && t.duration == l.duration && t.durationTb == l.durationTb
            && Time(t.maxPts) == (if l.maxPts.At? && Time(l.maxPts) >= EndTime(l, p, haveAudioDec) then Time(l.maxPts)
                                  else EndTime(l, p, haveAudioDec))
            && Time(t.minPts) == (if l.minPts.At? && Time(l.minPts) <= Time(Shifted(l, p)) then Time(l.minPts)
                                  else Time(Shifted(l, p)))
  {
    if l.maxPts.At? {
      BeforeIsTime(l.maxPts, EndOf(l, p, haveAudioDec));
    }
    if l.minPts.At? {
      BeforeIsTime(Shifted(l, p), l.minPts);
    }
  }

  /** Restarting takes the end that the decoders report if it is later than max_pts, and the
      length of a pass from there back to min_pts, to within half a unit. */
  lemma RestartedExactly(l: Loop, end: Timestamp)
    ensures var t := Restarted(l, end);
            && t.minPts == l.minPts && t.maxPts in {l.maxPts, end}
            && (t.maxPts.At? <==> l.maxPts.At? || end.At?)
            && (l.maxPts.At? ==> Time(t.maxPts) >= Time(l.maxPts))
            && (end.At? ==> Time(t.maxPts) >= Time(end))
            && (t.maxPts.At? ==> t.durationTb == t.maxPts.tb)
            && (t.maxPts.At? && l.minPts.At? ==>
                  var off := Seconds(t.duration, t.durationTb) - (Time(t.maxPts) - Time(t.minPts));
                  -Tick(t.durationTb) / 2.0 <= off <= Tick(t.durationTb) / 2.0)
  {
    var t := Restarted(l, end);
    if l.maxPts.At? && end.At? {
      BeforeIsTime(l.maxPts, end);
    }
    if t.maxPts.At? && l.minPts.At? {
      RescaleQError(l.minPts.ts, l.minPts.tb, t.maxPts.tb);
      SecondsAdd(t.duration, RescaleQ(l.minPts.ts, l.minPts.tb, t.maxPts.tb), t.maxPts.tb);
    }
  }

  /** No packet of a pass ends after max_pts. */
  lemma {:induction false} PassReaches(l: Loop, ps: seq<Packet>, haveAudioDec: bool, k: nat)
    requires k < |ps| && ps[k].pts.At?
    ensures var t := NotedAll(l, ps, haveAudioDec);
            t.maxPts.At? && Time(t.maxPts) >= EndTime(l, ps[k], haveAudioDec)
    decreases |ps|
  {
    var n := |ps| - 1;
    PassKeepsShift(l, ps[..n], haveAudioDec);
    if ps[n].pts.At? {
      NotedExactly(NotedAll(l, ps[..n], haveAudioDec), ps[n], haveAudioDec);
    }
    if k < n {
      PassReaches(l, ps[..n], haveAudioDec, k);
    }
  }

  lemma PassKeepsShift(l: Loop, ps: seq<Packet>, haveAudioDec: bool)
    ensures NotedAll(l, ps, haveAudioDec).duration == l.duration
    ensures NotedAll(l, ps, haveAudioDec).durationTb == l.durationTb
  {
  }

  lemma SecondsAdd(x: int, y: int, tb: TimeBase)
    ensures Seconds(x + y, tb) == Seconds(x, tb) + Seconds(y, tb)
  {
    assert (x + y) * tb.num == x * tb.num + y * tb.num;
  }

  // ---- In a common time base ----

  predicate InBase(a: Timestamp, tb: TimeBase) {
    a.At? ==> a.tb == tb
  }

  predicate AllInBase(ps: seq<Packet>, tb: TimeBase) {
    forall k | 0 <= k < |ps| :: IsProper(ps[k]) && ps[k].tb == tb
  }

  predicate PassesInBase(passes: seq<Pass>, tb: TimeBase) {
    forall k | 0 <= k < |passes| :: AllInBase(passes[k].packets, tb) && InBase(passes[k].end, tb)
  }

  lemma SameBase(a: Timestamp, b: Timestamp)
    requires a.At? && b.At? && a.tb == b.tb
    ensures Before(a, b) <==> a.ts < b.ts
  {
    CompareTsIsExact(a.ts, a.tb, b.ts, b.tb);
    Positive(a.tb.num, a.tb.den);
    CompareScaled(a.ts, b.ts, a.tb.num * a.tb.den);
  }

  lemma CompareScaled(x: int, y: int, k: int)
    requires k > 0
    ensures Sign(x * k - y * k) == Sign(x - y)
  {
    assert x * k - y * k == (x - y) * k;
    if x > y {
      MulMonotone(1, x - y, k);
    } else if x < y {
      MulMonotone(x - y, -1, k);
    }
  }

  lemma RescaleZero(bq: Rational, cq: Rational)
    requires IsTimeBase(bq) && IsTimeBase(cq)
    ensures RescaleQ(0, bq, cq) == 0
  {
    Positive(bq.num, cq.den);
    Positive(cq.num, bq.den);
    RescaleExact(0, bq.num * cq.den, cq.num * bq.den, 0);
  }

  /** Between passes, once timestamps have been seen: the shift leads from the first
      timestamp to the last. */
  ghost predicate Settled(l: Loop, tb: TimeBase) {
    && l.minPts.At? && l.minPts.tb == tb && l.maxPts.At? && l.maxPts.tb == tb
    && l.minPts.ts <= l.maxPts.ts
    && l.durationTb == tb && l.duration == l.maxPts.ts - l.minPts.ts
  }

  lemma ShiftInBase(l: Loop, tb: TimeBase, p: Packet)
    requires l.durationTb == tb || l.duration == 0
    requires IsProper(p) && p.tb == tb && p.pts.At?
    ensures Shifted(l, p) == At(p.pts.ts + l.duration, tb)
  {
    if l.durationTb == tb {
      RescaleSame(l.duration, tb);
    } else {
      RescaleZero(l.durationTb, tb);
    }
  }

  /** In a later pass a packet comes out at or after everything before the pass exactly
      when it is at or after the first timestamp of the file. */
  lemma ShiftedPastTheEnd(l: Loop, tb: TimeBase, p: Packet)
    requires Settled(l, tb) && IsProper(p) && p.tb == tb && p.pts.At?
    ensures Shifted(l, p).ts >= l.maxPts.ts <==> p.pts.ts >= l.minPts.ts
  {
    ShiftInBase(l, tb, p);
  }

  /** Noting one packet, as integers. */
  lemma NotedInBase(l: Loop, tb: TimeBase, p: Packet, haveAudioDec: bool)
    requires InBase(l.minPts, tb) && InBase(l.maxPts, tb) && (l.durationTb == tb || l.duration == 0)
    requires IsProper(p) && p.tb == tb && p.pts.At?
    ensures var t := Noted(l, p, haveAudioDec);
            var pts := p.pts.ts + l.duration;
            var end := pts + if haveAudioDec then 0 else p.duration;
            && t.minPts == At(if l.minPts == Unknown || pts < l.minPts.ts then pts else l.minPts.ts, tb)
            && t.maxPts == At(if l.maxPts == Unknown || end > l.maxPts.ts then end else l.maxPts.ts, tb)
  {
    ShiftInBase(l, tb, p);
    if l.minPts.At? {
      SameBase(Shifted(l, p), l.minPts);
    }
    if l.maxPts.At? {
      SameBase(l.maxPts, EndOf(l, p, haveAudioDec));
    }
  }

  /** All packets with a timestamp are at or after a given one. */
  predicate NoneBefore(ps: seq<Packet>, ts: int) {
    forall k | 0 <= k < |ps| && ps[k].pts.At? :: ps[k].pts.ts >= ts
  }

  /** A later pass of the file leaves the first timestamp alone. */
  lemma {:induction false} LaterPass(l: Loop, tb: TimeBase, ps: seq<Packet>, haveAudioDec: bool)
    requires Settled(l, tb) && AllInBase(ps, tb) && NoneBefore(ps, l.minPts.ts)
    ensures var t := NotedAll(l, ps, haveAudioDec);
            && t.minPts == l.minPts && t.maxPts.At? && t.maxPts.tb == tb && t.maxPts.ts >= l.maxPts.ts
            && t.duration == l.duration && t.durationTb == tb
  {
    if ps != [] {
      var front, p := ps[..|ps| - 1], ps[|ps| - 1];
      LaterPass(l, tb, front, haveAudioDec);
      if p.pts.At? {
        NotedInBase(NotedAll(l, front, haveAudioDec), tb, p, haveAudioDec);
      }
    }
  }

  /** The first pass finds the first timestamp of the file. */
  lemma {:induction false} FirstPass(tb: TimeBase, ps: seq<Packet>, haveAudioDec: bool)
    requires AllInBase(ps, tb)
    ensures var t := NotedAll(FIRST, ps, haveAudioDec);
            && t.duration == 0 && t.durationTb == UNIT
            && (t.minPts.At? <==> exists k | 0 <= k < |ps| :: ps[k].pts.At?)
            && (t.minPts.At? ==> t.minPts.tb == tb && NoneBefore(ps, t.minPts.ts))
            && (t.minPts.At? ==> t.maxPts.At? && t.maxPts.tb == tb && t.minPts.ts <= t.maxPts.ts)
            && (t.minPts == Unknown ==> t.maxPts == Unknown)
  {
    if ps != [] {
      var front, p := ps[..|ps| - 1], ps[|ps| - 1];
      FirstPass(tb, front, haveAudioDec);
      assert forall k | 0 <= k < |front| :: front[k] == ps[k];
      if p.pts.At? {
        NotedInBase(NotedAll(FIRST, front, haveAudioDec), tb, p, haveAudioDec);
      }
    }
  }

  lemma RestartSettles(t: Loop, tb: TimeBase, end: Timestamp)
    requires t.minPts.At? && t.minPts.tb == tb && t.maxPts.At? && t.maxPts.tb == tb && t.minPts.ts <= t.maxPts.ts
    requires InBase(end, tb)
    ensures Settled(Restarted(t, end), tb) && Restarted(t, end).minPts == t.minPts
  {
    RescaleSame(t.minPts.ts, tb);
    if end.At? {
      SameBase(t.maxPts, end);
    }
  }

  // ---- Any number of passes ----

  /** Every pass after the first replays packets of the first. */
  predicate Replays(passes: seq<Pass>) {
    forall k, j | 0 < k < |passes| && 0 <= j < |passes[k].packets| :: passes[k].packets[j] in passes[0].packets
  }

  predicate HasTimestamps(pass: Pass) {
    exists k | 0 <= k < |pass.packets| :: pass.packets[k].pts.At?
  }

  lemma ReplayIsNotBefore(first: seq<Packet>, ps: seq<Packet>, ts: int)
    requires NoneBefore(first, ts) && forall j | 0 <= j < |ps| :: ps[j] in first
    ensures NoneBefore(ps, ts)
  {
  }

  /** After any number of passes the first timestamp is that found by the first pass, and
      the shift is the distance from it to the last. */
  lemma {:induction false} PassesSettle(tb: TimeBase, passes: seq<Pass>, haveAudioDec: bool)
    requires passes != [] && PassesInBase(passes, tb) && Replays(passes) && HasTimestamps(passes[0])
    ensures var l := AfterPasses(passes, haveAudioDec);
            && Settled(l, tb) && NoneBefore(passes[0].packets, l.minPts.ts)
            && l.minPts == NotedAll(FIRST, passes[0].packets, haveAudioDec).minPts
  {
    var n := |passes|;
    var front, last := passes[..n - 1], passes[n - 1];
    if n == 1 {
      assert front == [];
      FirstPass(tb, last.packets, haveAudioDec);
      RestartSettles(NotedAll(FIRST, last.packets, haveAudioDec), tb, last.end);
    } else {
      PassesSettle(tb, front, haveAudioDec);
      var l := AfterPasses(front, haveAudioDec);
      ReplayIsNotBefore(passes[0].packets, last.packets, l.minPts.ts);
      LaterPass(l, tb, last.packets, haveAudioDec);
      RestartSettles(NotedAll(l, last.packets, haveAudioDec), tb, last.end);
    }
  }

  /** For any number of passes over the same file, every timestamp of a later pass is at or
      after the greatest one before that pass, and the first timestamp never changes. */
  lemma PassesDoNotOverlap(tb: TimeBase, passes: seq<Pass>, next: seq<Packet>, j: nat, haveAudioDec: bool)
    requires passes != [] && PassesInBase(passes, tb) && Replays(passes) && HasTimestamps(passes[0])
    requires AllInBase(next, tb) && forall i | 0 <= i < |next| :: next[i] in passes[0].packets
    requires j < |next| && next[j].pts.At?
    ensures var l := AfterPasses(passes, haveAudioDec);
            && l.maxPts.At? && Shifted(l, next[j]).ts >= l.maxPts.ts
            && NotedAll(l, next, haveAudioDec).minPts == l.minPts
  {
    PassesSettle(tb, passes, haveAudioDec);
    var l := AfterPasses(passes, haveAudioDec);
    ReplayIsNotBefore(passes[0].packets, next, l.minPts.ts);
    LaterPass(l, tb, next, haveAudioDec);
    ShiftedPastTheEnd(l, tb, next[j]);
  }

  // ---- In any time bases ----

  /** When the streams have different time bases, a packet at or after the first timestamp
      comes out at most half a unit of its own and half a unit of the last timestamp's time
      base before the end of the passes so far. */
  lemma RestartOverlap(t: Loop, end: Timestamp, p: Packet)
    requires t.minPts.At? && t.maxPts.At?
    requires IsProper(p) && p.pts.At? && Time(p.pts) >= Time(t.minPts)
    ensures var l := Restarted(t, end);
            l.maxPts.At? && Time(Shifted(l, p)) >= Time(l.maxPts) - (Tick(l.maxPts.tb) + Tick(p.tb)) / 2.0
  {
    var l := Restarted(t, end);
    var max := l.maxPts;
    var min := RescaleQ(t.minPts.ts, t.minPts.tb, max.tb);
    RescaleQError(t.minPts.ts, t.minPts.tb, max.tb);
    SecondsAdd(l.duration, min, max.tb);
    var shift := RescaleQ(l.duration, max.tb, p.tb);
    RescaleQError(l.duration, max.tb, p.tb);
    SecondsAdd(p.pts.ts, shift, p.tb);
  }

  predicate AllProper(ps: seq<Packet>) {
    forall k | 0 <= k < |ps| :: IsProper(ps[k])
  }

  /** The first timestamp found is known and at or before a given time, and a last one is
      known with it. */
  predicate Spans(l: Loop, time: real) {
    l.minPts.At? && l.maxPts.At? && Time(l.minPts) <= time
  }

  lemma NotedSpans(l: Loop, p: Packet, haveAudioDec: bool, time: real)
    requires IsProper(p) && Spans(l, time)
    ensures Spans(Noted(l, p, haveAudioDec), time)
  {
    if p.pts.At? {
      BeforeIsTime(Shifted(l, p), l.minPts);
    }
  }

  lemma {:induction false} PassSpans(l: Loop, ps: seq<Packet>, haveAudioDec: bool, time: real)
    requires AllProper(ps) && Spans(l, time)
    ensures Spans(NotedAll(l, ps, haveAudioDec), time)
  {
    if ps != [] {
      var front := ps[..|ps| - 1];
      PassSpans(l, front, haveAudioDec, time);
      NotedSpans(NotedAll(l, front, haveAudioDec), ps[|ps| - 1], haveAudioDec, time);
    }
  }

  /** The first pass does not shift its packets. */
  lemma FirstNoted(l: Loop, p: Packet, haveAudioDec: bool)
    requires IsProper(p) && p.pts.At? && l.duration == 0
    requires l.minPts.At? ==> l.maxPts.At?
    ensures Spans(Noted(l, p, haveAudioDec), Time(p.pts))
  {
    RescaleZero(l.durationTb, p.tb);
    if l.minPts.At? {
      BeforeIsTime(Shifted(l, p), l.minPts);
    }
  }

  lemma {:induction false} FirstPassSpans(ps: seq<Packet>, haveAudioDec: bool, k: nat)
    requires AllProper(ps)
    ensures var t := NotedAll(FIRST, ps, haveAudioDec);
            && t.duration == 0 && (t.minPts.At? ==> t.maxPts.At?)
            && (k < |ps| && ps[k].pts.At? ==> Spans(t, Time(ps[k].pts)))
    decreases |ps|
  {
    if ps != [] {
      var n := |ps| - 1;
      FirstPassSpans(ps[..n], haveAudioDec, k);
      var t := NotedAll(FIRST, ps[..n], haveAudioDec);
      if k < n && ps[k].pts.At? {
        NotedSpans(t, ps[n], haveAudioDec, Time(ps[k].pts));
      } else if k == n && ps[n].pts.At? {
        FirstNoted(t, ps[n], haveAudioDec);
      }
    }
  }

  /** After any passes the first timestamp is at or before each of the first pass. */
  lemma {:induction false} PassesSpan(passes: seq<Pass>, haveAudioDec: bool, k: nat)
    requires passes != [] && forall i | 0 <= i < |passes| :: AllProper(passes[i].packets)
    requires k < |passes[0].packets| && passes[0].packets[k].pts.At?
    ensures var front, last := passes[..|passes| - 1], passes[|passes| - 1];
            Spans(NotedAll(AfterPasses(front, haveAudioDec), last.packets, haveAudioDec),
                  Time(passes[0].packets[k].pts))
  {
    var front, last := passes[..|passes| - 1], passes[|passes| - 1];
    if front == [] {
      FirstPassSpans(last.packets, haveAudioDec, k);
    } else {
      PassesSpan(front, haveAudioDec, k);
      PassSpans(AfterPasses(front, haveAudioDec), last.packets, haveAudioDec, Time(passes[0].packets[k].pts));
    }
  }

  /** For streams in any time bases: replayed after any number of passes, a packet of the
      file comes out at most half a unit of its own and half a unit of the last timestamp's
      time base before the end of those passes. */
  lemma OverlapIsBounded(passes: seq<Pass>, haveAudioDec: bool, k: nat)
    requires passes != [] && forall i | 0 <= i < |passes| :: AllProper(passes[i].packets)
    requires k < |passes[0].packets| && passes[0].packets[k].pts.At?
    ensures var l, p := AfterPasses(passes, haveAudioDec), passes[0].packets[k];
            l.maxPts.At? && Time(Shifted(l, p)) >= Time(l.maxPts) - (Tick(l.maxPts.tb) + Tick(p.tb)) / 2.0
  {
    var front, last := passes[..|passes| - 1], passes[|passes| - 1];
    PassesSpan(passes, haveAudioDec, k);
    RestartOverlap(NotedAll(AfterPasses(front, haveAudioDec), last.packets, haveAudioDec), last.end,
                   passes[0].packets[k]);
  }
}
