/** Repairing the timestamps of packets before they are written. Timestamps are in the
    time base of the stream; integers are unbounded. */
module MuxTs {

  /** AV_NOPTS_VALUE, the least 64-bit integer, which the program also compares as a number. */
  const NOPTS: int := -0x8000_0000_0000_0000

  datatype Ts = Ts(pts: int, dts: int)

  /** stamped: the format has timestamps. strict: it wants them strictly increasing.
      ordered: the stream is audio, video or subtitles. */
  datatype Config = Config(stamped: bool, strict: bool, ordered: bool, dropTs: bool, exitOnError: bool)

  predicate InRange(x: int) {
    x >= NOPTS
  }

  predicate Valid(p: Ts) {
    InRange(p.pts) && InRange(p.dts)
  }

  function Min(a: int, b: int): int { if a < b then a else b }

  function Max(a: int, b: int): int { if a > b then a else b }

  /** The guess for a packet whose dts is after its pts. */
  function Guess(p: Ts, next: int): int {
    p.pts + p.dts + next - Min(Min(p.pts, p.dts), next) - Max(Max(p.pts, p.dts), next)
  }

  predicate IsInverted(p: Ts) {
    p.dts != NOPTS && p.pts != NOPTS && p.dts > p.pts
  }

  /** The first repair: a dts after the pts. */
  function Uninverted(p: Ts, last: int): Ts {
    if IsInverted(p) then Ts(Guess(p, last + 1), Guess(p, last + 1)) else p
  }

  /** The least dts allowed after last. */
  function Floor(c: Config, last: int): int {
    if c.strict then last + 1 else last
  }

  predicate IsLate(c: Config, p: Ts, last: int) {
    c.ordered && p.dts != NOPTS && last != NOPTS && p.dts < Floor(c, last)
  }

  /** The second repair: a dts that does not follow that of the previous packet. */
  function Raised(c: Config, p: Ts, last: int): Ts {
    if IsLate(c, p, last) then
      Ts(if p.pts >= p.dts then Max(p.pts, Floor(c, last)) else p.pts, Floor(c, last))
    else p
  }

  function Dropped(c: Config, p: Ts): Ts {
    if c.dropTs then Ts(NOPTS, NOPTS) else p
  }

  /** The packet as mux_fixup_ts leaves it when it succeeds. */
  function Fixed(c: Config, p: Ts, last: int): Ts {
    var q := Dropped(c, p);
    if c.stamped then Raised(c, Uninverted(q, last), last) else q
  }

  predicate Fails(c: Config, p: Ts, last: int) {
    c.stamped && c.exitOnError && IsLate(c, Uninverted(Dropped(c, p), last), last)
  }

  // ---- In place ----

  class Packet {
    var pts: int
    var dts: int

    ghost function Contents(): Ts
      reads this
    {
      Ts(pts, dts)
    }
  }

  class MuxStream {
    var lastMuxDts: int

    constructor ()
      ensures lastMuxDts == NOPTS
    {
      lastMuxDts := NOPTS;
    }

    /** mux_fixup_ts after the rescaling. */
    method MuxFixupTs(c: Config, pkt: Packet) returns (ok: bool)
      modifies this, pkt
      ensures ok <==> !Fails(c, old(pkt.Contents()), old(lastMuxDts))
      ensures ok ==> pkt.Contents() == Fixed(c, old(pkt.Contents()), old(lastMuxDts)) && lastMuxDts == pkt.dts
      ensures !ok ==> lastMuxDts == old(lastMuxDts)
      ensures !ok ==> pkt.Contents() == Uninverted(Dropped(c, old(pkt.Contents())), lastMuxDts)
    {
      if c.dropTs {
        pkt.pts, pkt.dts := NOPTS, NOPTS;
      }
      if c.stamped {
        if pkt.dts != NOPTS && pkt.pts != NOPTS && pkt.dts > pkt.pts {
          var guess := Guess(Ts(pkt.pts, pkt.dts), lastMuxDts + 1);
          pkt.pts, pkt.dts := guess, guess;
        }
        if c.ordered && pkt.dts != NOPTS && lastMuxDts != NOPTS {
          var max := lastMuxDts + if c.strict then 1 else 0;
          if pkt.dts < max {
            if c.exitOnError {
              return false;
            }
            if pkt.pts >= pkt.dts {
              pkt.pts := Max(pkt.pts, max);
            }
            pkt.dts := max;
          }
        }
      }
      lastMuxDts := pkt.dts;
      ok := true;
    }
  }

  // ---- One packet ----

  /** The guess is the dts the stream expects, kept between the two timestamps. */
  lemma GuessIsClamped(p: Ts, next: int)
    requires p.pts < p.dts
    ensures Guess(p, next) == if next < p.pts then p.pts else if next > p.dts then p.dts else next
  {
  }

  /** A packet whose dts is after its pts leaves with both equal: to the dts the stream
      expects, last + 1, if that is between the two, and otherwise to the nearer of them,
      raised where it would not follow the previous packet. The first packet leaves with its
      pts. Only a dts that does not follow is an error. */
  lemma InvertedExactly(c: Config, p: Ts, last: int)
    requires Valid(p) && InRange(last) && c.stamped && !c.dropTs
    requires p.pts != NOPTS && p.dts != NOPTS && p.pts < p.dts
    ensures var q := Fixed(c, p, last);
            && q.pts == q.dts
            && (last == NOPTS ==> q.dts == p.pts)
            && (last != NOPTS && p.pts <= last + 1 <= p.dts ==> q.dts == last + 1)
            && (last != NOPTS && last + 1 < p.pts ==> q.dts == p.pts)
            && (last != NOPTS && p.dts < last + 1 ==>
                  q.dts == if !c.ordered then p.dts else if c.strict then last + 1 else last)
    ensures Fails(c, p, last) <==>
            c.exitOnError && c.ordered && last != NOPTS && p.dts < (if c.strict then last + 1 else last)
  {
  }

  /** Any other packet keeps a missing timestamp missing; its dts is raised to follow that of
      the previous packet, if there is one and the stream is ordered, and its pts to that. */
  lemma PlainExactly(c: Config, p: Ts, last: int)
    requires Valid(p) && InRange(last) && c.stamped && !c.dropTs
    requires p.pts != NOPTS && p.dts != NOPTS ==> p.dts <= p.pts
    ensures var q := Fixed(c, p, last);
            && q.dts == (if p.dts == NOPTS || !c.ordered || last == NOPTS then p.dts
                         else Max(p.dts, if c.strict then last + 1 else last))
            && q.pts == (if p.pts == NOPTS || p.dts == NOPTS then p.pts else Max(p.pts, q.dts))
    ensures Fails(c, p, last) <==>
            && c.exitOnError && c.ordered && p.dts != NOPTS && last != NOPTS
            && p.dts < (if c.strict then last + 1 else last)
  {
  }

  /** Formats without timestamps take packets as they are, and dropped timestamps stay so. */
  lemma LeftAlone(c: Config, p: Ts, last: int)
    requires !c.stamped || c.dropTs
    ensures Fixed(c, p, last) == (if c.dropTs then Ts(NOPTS, NOPTS) else p) && !Fails(c, p, last)
  {
  }

  /** A packet with both timestamps leaves with both, dts at or before pts; a timestamp
      that is missing stays so. */
  lemma FixedIsOrdered(c: Config, p: Ts, last: int)
    requires Valid(p) && InRange(last) && c.stamped && !c.dropTs
    ensures var q := Fixed(c, p, last);
            && (p.dts == NOPTS <==> q.dts == NOPTS) && (p.pts == NOPTS <==> q.pts == NOPTS)
            && (p.pts != NOPTS && p.dts != NOPTS ==> q.dts <= q.pts)
  {
  }

  // ---- A whole stream ----

  /** The packets written for the packets given. */
  function FixAll(c: Config, ps: seq<Ts>): (qs: seq<Ts>)
    ensures |qs| == |ps|
  {
    if ps == [] then []
    else
      var front := FixAll(c, ps[..|ps| - 1]);
      front + [Fixed(c, ps[|ps| - 1], Last(front))]
  }

  /** last_mux_dts once the packets are written. */
  function Last(qs: seq<Ts>): int {
    if qs == [] then NOPTS else qs[|qs| - 1].dts
  }

  lemma FixAllAt(c: Config, ps: seq<Ts>, k: nat)
    requires k < |ps|
    ensures FixAll(c, ps)[k] == Fixed(c, ps[k], Last(FixAll(c, ps)[..k]))
    ensures FixAll(c, ps)[..k] == FixAll(c, ps[..k])
  {
    var front := ps[..|ps| - 1];
    if k < |front| {
      FixAllAt(c, front, k);
      assert front[..k] == ps[..k];
      assert FixAll(c, ps)[..k] == FixAll(c, front)[..k];
    } else {
      assert FixAll(c, ps)[..k] == FixAll(c, front);
    }
  }

  predicate AllValid(ps: seq<Ts>) {
    forall k | 0 <= k < |ps| :: Valid(ps[k])
  }

  predicate Follows(c: Config, x: int, y: int) {
    if c.strict then x < y else x <= y
  }

  /** Of two adjacent packets with a dts, the second follows the first. */
  lemma AdjacentFollow(c: Config, ps: seq<Ts>, k: nat)
    requires c.stamped && c.ordered && k + 1 < |ps|
    ensures var qs := FixAll(c, ps);
            qs[k].dts != NOPTS && qs[k + 1].dts != NOPTS ==> Follows(c, qs[k].dts, qs[k + 1].dts)
  {
    FixAllAt(c, ps, k + 1);
  }

  /** Packets with a dts follow one another as long as no packet without one comes between. */
  lemma {:induction false} RunsFollow(c: Config, ps: seq<Ts>, j: nat, k: nat)
    requires c.stamped && c.ordered && j < k < |ps|
    requires forall i | j <= i <= k :: FixAll(c, ps)[i].dts != NOPTS
    ensures Follows(c, FixAll(c, ps)[j].dts, FixAll(c, ps)[k].dts)
    decreases k
  {
    AdjacentFollow(c, ps, k - 1);
    if j < k - 1 {
      RunsFollow(c, ps, j, k - 1);
    }
  }

  /** Every known dts follows all those before it. */
  predicate AllFollow(c: Config, qs: seq<Ts>) {
    forall j, k | 0 <= j < k < |qs| && qs[j].dts != NOPTS && qs[k].dts != NOPTS :: Follows(c, qs[j].dts, qs[k].dts)
  }

  /** The first dts after a gap, as it comes or corrected against its own pts, follows all
      those written before. */
  predicate ResumesInOrder(c: Config, ps: seq<Ts>, k: nat)
    requires 0 < k < |ps|
  {
    ps[k - 1].dts == NOPTS && ps[k].dts != NOPTS ==>
      forall j | 0 <= j < k && ps[j].dts != NOPTS :: Follows(c, FixAll(c, ps)[j].dts, Uninverted(ps[k], NOPTS).dts)
  }

  predicate IsOrderedConfig(c: Config) {
    c.stamped && c.ordered && !c.dropTs
  }

  lemma SameGaps(c: Config, ps: seq<Ts>, k: nat)
    requires AllValid(ps) && IsOrderedConfig(c) && k < |ps|
    ensures FixAll(c, ps)[k].dts == NOPTS <==> ps[k].dts == NOPTS
  {
    FixAllAt(c, ps, k);
    RepairIsIdempotent(c, ps);
    LastIsValid(FixAll(c, ps)[..k]);
    FixedIsOrdered(c, ps[k], Last(FixAll(c, ps)[..k]));
  }

  /** After a gap a packet is only corrected against its own pts. */
  lemma Resumes(c: Config, ps: seq<Ts>, k: nat)
    requires AllValid(ps) && IsOrderedConfig(c) && 0 < k < |ps| && ps[k - 1].dts == NOPTS
    ensures FixAll(c, ps)[k] == Uninverted(ps[k], NOPTS)
  {
    SameGaps(c, ps, k - 1);
    FixAllAt(c, ps, k);
  }

  lemma {:induction false} FollowsUpTo(c: Config, ps: seq<Ts>, j: nat, k: nat)
    requires AllValid(ps) && IsOrderedConfig(c) && j < k < |ps|
    requires forall i | 0 < i < |ps| :: ResumesInOrder(c, ps, i)
    requires FixAll(c, ps)[j].dts != NOPTS && FixAll(c, ps)[k].dts != NOPTS
    ensures Follows(c, FixAll(c, ps)[j].dts, FixAll(c, ps)[k].dts)
    decreases k
  {
    SameGaps(c, ps, j);
    SameGaps(c, ps, k - 1);
    SameGaps(c, ps, k);
    if ps[k - 1].dts == NOPTS {
      Resumes(c, ps, k);
      assert ResumesInOrder(c, ps, k);
    } else {
      AdjacentFollow(c, ps, k - 1);
      if j < k - 1 {
        FollowsUpTo(c, ps, j, k - 1);
      }
    }
  }

  /** The dts written are in order throughout exactly when the stream resumes in order
      after every gap. */
  lemma InOrderExactly(c: Config, ps: seq<Ts>)
    requires AllValid(ps) && IsOrderedConfig(c)
    ensures AllFollow(c, FixAll(c, ps)) <==> forall k | 0 < k < |ps| :: ResumesInOrder(c, ps, k)
  {
    var qs := FixAll(c, ps);
    if AllFollow(c, qs) {
      forall k | 0 < k < |ps| ensures ResumesInOrder(c, ps, k) {
        ResumesIfOrdered(c, ps, k);
      }
    } else if forall k | 0 < k < |ps| :: ResumesInOrder(c, ps, k) {
      forall j, k | 0 <= j < k < |qs| && qs[j].dts != NOPTS && qs[k].dts != NOPTS
        ensures Follows(c, qs[j].dts, qs[k].dts)
      {
        FollowsUpTo(c, ps, j, k);
      }
    }
  }

  lemma ResumesIfOrdered(c: Config, ps: seq<Ts>, k: nat)
    requires AllValid(ps) && IsOrderedConfig(c) && AllFollow(c, FixAll(c, ps)) && 0 < k < |ps|
    ensures ResumesInOrder(c, ps, k)
  {
    if ps[k - 1].dts == NOPTS && ps[k].dts != NOPTS {
      Resumes(c, ps, k);
      SameGaps(c, ps, k);
      forall j | 0 <= j < k && ps[j].dts != NOPTS
        ensures Follows(c, FixAll(c, ps)[j].dts, Uninverted(ps[k], NOPTS).dts)
      {
        SameGaps(c, ps, j);
      }
    }
  }

  /** A packet without a dts makes the stream forget: the dts may then go back. */
  lemma MayGoBack(c: Config)
    requires c.stamped && c.ordered && !c.dropTs
    ensures var qs := FixAll(c, [Ts(9, 9), Ts(NOPTS, NOPTS), Ts(3, 3)]);
            qs[0].dts == 9 && qs[2].dts == 3
  {
    var ps := [Ts(9, 9), Ts(NOPTS, NOPTS), Ts(3, 3)];
    FixAllAt(c, ps, 0);
    FixAllAt(c, ps, 1);
    FixAllAt(c, ps, 2);
  }

  // ---- What the repair amounts to ----

  /** Timestamps that need only the second repair. */
  predicate IsPlain(ps: seq<Ts>) {
    forall k | 0 <= k < |ps| :: NOPTS < ps[k].dts <= ps[k].pts
  }

  function Step(c: Config): nat {
    if c.strict then 1 else 0
  }

  /** The greatest of in[j] + (k - j), or of in[j] for formats that allow equal ones. */
  predicate IsPushed(c: Config, ps: seq<Ts>, k: nat, dts: int)
    requires k < |ps|
  {
    && (forall j | 0 <= j <= k :: ps[j].dts + (k - j) * Step(c) <= dts)
    && (exists j | 0 <= j <= k :: ps[j].dts + (k - j) * Step(c) == dts)
  }

  /** Each dts written is pushed just far enough by those before it. */
  lemma {:induction false} PushedExactly(c: Config, ps: seq<Ts>, k: nat)
    requires IsOrderedConfig(c) && IsPlain(ps) && k < |ps|
    ensures IsPushed(c, ps, k, FixAll(c, ps)[k].dts)
    ensures NOPTS < FixAll(c, ps)[k].dts
  {
    FixAllAt(c, ps, k);
    var dts := FixAll(c, ps)[k].dts;
    if k == 0 {
      assert ps[0].dts + (0 - 0) * Step(c) == dts;
    } else {
      PushedExactly(c, ps, k - 1);
      var prev := FixAll(c, ps)[k - 1].dts;
      assert dts == Max(ps[k].dts, prev + Step(c));
      forall j | 0 <= j <= k ensures ps[j].dts + (k - j) * Step(c) <= dts {
        if j < k {
          assert ps[j].dts + (k - 1 - j) * Step(c) <= prev;
          assert (k - j) * Step(c) == (k - 1 - j) * Step(c) + Step(c);
        }
      }
      if dts == ps[k].dts {
        assert ps[k].dts + (k - k) * Step(c) == dts;
      } else {
        var j :| 0 <= j <= k - 1 && ps[j].dts + (k - 1 - j) * Step(c) == prev;
        assert (k - j) * Step(c) == (k - 1 - j) * Step(c) + Step(c);
        assert ps[j].dts + (k - j) * Step(c) == dts;
      }
    }
  }

  predicate IsRepair(c: Config, ps: seq<Ts>, out: seq<int>) {
    && |out| == |ps|
    && (forall k | 0 <= k < |ps| :: ps[k].dts <= out[k])
    && (forall k | 0 <= k < |ps| - 1 :: Follows(c, out[k], out[k + 1]))
  }

  /** The repair delays as little as possible: no ordered sequence that is nowhere before
      the input is anywhere before the output. */
  lemma {:induction false} RepairIsLeast(c: Config, ps: seq<Ts>, out: seq<int>, k: nat)
    requires IsOrderedConfig(c) && IsPlain(ps) && IsRepair(c, ps, out) && k < |ps|
    ensures FixAll(c, ps)[k].dts <= out[k]
  {
    FixAllAt(c, ps, k);
    if k > 0 {
      RepairIsLeast(c, ps, out, k - 1);
      PushedExactly(c, ps, k - 1);
      assert Follows(c, out[k - 1], out[k]);
    }
  }

  /** Repairing again changes nothing. */
  lemma {:induction false} RepairIsIdempotent(c: Config, ps: seq<Ts>)
    requires AllValid(ps) && IsOrderedConfig(c)
    ensures FixAll(c, FixAll(c, ps)) == FixAll(c, ps)
    ensures AllValid(FixAll(c, ps))
  {
    if ps != [] {
      var front := ps[..|ps| - 1];
      RepairIsIdempotent(c, front);
      var qs := FixAll(c, ps);
      assert qs[..|qs| - 1] == FixAll(c, front);
      LastIsValid(FixAll(c, front));
      FixedIsOrdered(c, ps[|ps| - 1], Last(FixAll(c, front)));
    }
  }

  lemma LastIsValid(qs: seq<Ts>)
    requires AllValid(qs)
    ensures InRange(Last(qs))
  {
  }

  // ---- Order across gaps, from the input alone ----

  predicate NoneInverted(ps: seq<Ts>) {
    forall k | 0 <= k < |ps| :: !IsInverted(ps[k])
  }

  /** The last packet of the stretch of packets with a dts that holds packet j. */
  function StretchEnd(ps: seq<Ts>, j: nat): (e: nat)
    requires j < |ps|
    ensures j <= e < |ps|
    ensures forall i | j < i <= e :: ps[i].dts != NOPTS
    ensures e + 1 < |ps| ==> ps[e + 1].dts == NOPTS
    decreases |ps| - j
  {
    if j + 1 < |ps| && ps[j + 1].dts != NOPTS then StretchEnd(ps, j + 1) else j
  }

  /** Whatever of its own stretch pushes it, packet j is followed at the end of the stretch
      by in[j] + (e - j) at least; the first dts after a gap has to follow that. */
  predicate LeavesRoom(c: Config, ps: seq<Ts>, j: nat, k: nat)
    requires j < k < |ps|
  {
    ps[k - 1].dts == NOPTS && ps[j].dts != NOPTS && ps[k].dts != NOPTS ==>
      Follows(c, ps[j].dts + (StretchEnd(ps, j) - j) * Step(c), ps[k].dts)
  }

  /** What packet i became, when no packet is inverted. */
  lemma PlainStep(c: Config, ps: seq<Ts>, i: nat)
    requires AllValid(ps) && IsOrderedConfig(c) && NoneInverted(ps) && i < |ps| && ps[i].dts != NOPTS
    ensures var qs := FixAll(c, ps);
            qs[i].dts == if i > 0 && ps[i - 1].dts != NOPTS then Max(ps[i].dts, qs[i - 1].dts + Step(c)) else ps[i].dts
  {
    FixAllAt(c, ps, i);
    SameGaps(c, ps, i);
    if i > 0 {
      SameGaps(c, ps, i - 1);
    }
  }

  lemma {:induction false} PushesOn(c: Config, ps: seq<Ts>, j: nat, i: nat)
    requires AllValid(ps) && IsOrderedConfig(c) && NoneInverted(ps)
    requires j <= i < |ps| && forall a | j <= a <= i :: ps[a].dts != NOPTS
    ensures ps[j].dts + (i - j) * Step(c) <= FixAll(c, ps)[i].dts
    decreases i
  {
    PlainStep(c, ps, i);
    if j < i {
      PushesOn(c, ps, j, i - 1);
      assert (i - j) * Step(c) == (i - 1 - j) * Step(c) + Step(c);
    }
  }

  /** Some packet of the same stretch pushed packet j to where it is. */
  lemma {:induction false} PushedBy(c: Config, ps: seq<Ts>, j: nat) returns (i: nat)
    requires AllValid(ps) && IsOrderedConfig(c) && NoneInverted(ps) && j < |ps| && ps[j].dts != NOPTS
    ensures i <= j && forall a | i <= a <= j :: ps[a].dts != NOPTS
    ensures FixAll(c, ps)[j].dts == ps[i].dts + (j - i) * Step(c)
    decreases j
  {
    PlainStep(c, ps, j);
    i := j;
    if FixAll(c, ps)[j].dts != ps[j].dts {
      i := PushedBy(c, ps, j - 1);
      assert (j - i) * Step(c) == (j - 1 - i) * Step(c) + Step(c);
    }
  }

  lemma {:induction false} SameStretch(ps: seq<Ts>, i: nat, j: nat)
    requires i <= j < |ps| && forall a | i <= a <= j :: ps[a].dts != NOPTS
    ensures StretchEnd(ps, i) == StretchEnd(ps, j)
    decreases j - i
  {
    if i < j {
      SameStretch(ps, i + 1, j);
    }
  }

  lemma ResumesIfRoom(c: Config, ps: seq<Ts>, k: nat)
    requires AllValid(ps) && IsOrderedConfig(c) && NoneInverted(ps) && 0 < k < |ps|
    requires forall j | 0 <= j < k :: LeavesRoom(c, ps, j, k)
    ensures ResumesInOrder(c, ps, k)
  {
    if ps[k - 1].dts == NOPTS && ps[k].dts != NOPTS {
      forall j | 0 <= j < k && ps[j].dts != NOPTS ensures Follows(c, FixAll(c, ps)[j].dts, ps[k].dts) {
        var i := PushedBy(c, ps, j);
        SameStretch(ps, i, j);
        assert LeavesRoom(c, ps, i, k);
        Multiply(j - i, StretchEnd(ps, i) - i, Step(c));
      }
    }
  }

  lemma Multiply(a: int, b: int, k: nat)
    requires a <= b
    ensures a * k <= b * k
  {
  }

  lemma RoomIfOrdered(c: Config, ps: seq<Ts>, j: nat, k: nat)
    requires AllValid(ps) && IsOrderedConfig(c) && NoneInverted(ps) && j < k < |ps|
    requires AllFollow(c, FixAll(c, ps))
    ensures LeavesRoom(c, ps, j, k)
  {
    if ps[k - 1].dts == NOPTS && ps[j].dts != NOPTS && ps[k].dts != NOPTS {
      var e := StretchEnd(ps, j);
      PushesOn(c, ps, j, e);
      PlainStep(c, ps, k);
      SameGaps(c, ps, e);
      SameGaps(c, ps, k);
    }
  }

  /** For packets whose dts is not after their pts, the dts written are in order throughout
      exactly when every gap leaves room: a condition on the input alone. */
  lemma InOrderByInput(c: Config, ps: seq<Ts>)
    requires AllValid(ps) && IsOrderedConfig(c) && NoneInverted(ps)
    ensures AllFollow(c, FixAll(c, ps)) <==> forall j, k | 0 <= j < k < |ps| :: LeavesRoom(c, ps, j, k)
  {
    InOrderExactly(c, ps);
    if AllFollow(c, FixAll(c, ps)) {
      forall j: nat, k: nat | j < k < |ps| ensures LeavesRoom(c, ps, j, k) {
        RoomIfOrdered(c, ps, j, k);
      }
    } else if forall j, k | 0 <= j < k < |ps| :: LeavesRoom(c, ps, j, k) {
      forall k | 0 < k < |ps| ensures ResumesInOrder(c, ps, k) {
        ResumesIfRoom(c, ps, k);
      }
    }
  }
}
