/** Flushing the decoders of a demuxer after a seek: the demuxer puts a flush packet in
    each decoder's queue and waits for the end timestamp of those that answer. The demuxer
    and the decoders are threads, and so are those whose scheduling updates freeze and thaw
    the decoders' queues; every action is one queue operation. */
module Flush {
  import opened Timestamps

  datatype Item = Data | Flush

  /** A decoder thread closes its packet queue and then its reply queue. */
  datatype Stage = Running | Closing | Exited

  /** answers: the decoder was created with a queue for end timestamps. put: all that was ever
      put in its packet queue. frozen: the queue gives nothing out. handed: the end timestamp
      it handed over last. */
  datatype Decoder = Decoder(answers: bool, queue: seq<Item>, put: seq<Item>, frozen: bool, expectEndTs: bool,
                             endTs: seq<Timestamp>, handed: Timestamp, stage: Stage)

  datatype Phase =
    | Idle
    | Flushing(next: nat)  // about to flush destination next
    | Awaiting(j: nat)     // waits for the end timestamp of decoder j

  /** finished: the destination was closed by an earlier send. got: the answers so far. */
  datatype State = State(dec: seq<Decoder>, finished: seq<bool>, phase: Phase, maxEndTs: Timestamp, got: seq<Timestamp>)

  datatype Action =
    | SendData(j: nat)
    | StartFlush
    | FlushNext
    | TakeReply
    | TakeError
    | Reply(j: nat, ts: Timestamp)
    | Receive(j: nat)
    | Close(j: nat)
    | SetError(j: nat)
    | Freeze(j: nat)
    | Thaw(j: nat)

  predicate Enabled(s: State, a: Action) {
    match a
    case SendData(j) => j < |s.dec| == |s.finished| && s.phase == Idle && !s.finished[j]
    case StartFlush => s.phase == Idle
    case FlushNext => s.phase.Flushing? && |s.dec| == |s.finished|
    case TakeReply => s.phase.Awaiting? && s.phase.j < |s.dec| && s.dec[s.phase.j].endTs != []
    case TakeError =>
      s.phase.Awaiting? && s.phase.j < |s.dec| && s.dec[s.phase.j].endTs == [] && s.dec[s.phase.j].stage == Exited
    case Reply(j, _) => j < |s.dec| && WantsToReply(s.dec[j]) && |s.dec[j].endTs| < 1
    case Receive(j) => j < |s.dec| && MayReceive(s.dec[j]) && s.dec[j].queue != []
    case Close(j) => j < |s.dec| && s.dec[j].stage == Running
    case SetError(j) => j < |s.dec| && s.dec[j].stage == Closing
    case Freeze(j) => j < |s.dec|
    case Thaw(j) => j < |s.dec|
  }

  /** The decoder is in sch_dec_receive with nothing to hand over, and its queue is open. */
  predicate MayReceive(d: Decoder) {
    d.stage == Running && !d.expectEndTs && !d.frozen
  }

  /** The decoder is in sch_dec_receive with an end timestamp to hand over. */
  predicate WantsToReply(d: Decoder) {
    d.stage == Running && d.expectEndTs
  }

  function Set(s: State, j: nat, d: Decoder): State
    requires j < |s.dec|
  {
    s.(dec := s.dec[j := d])
  }

  /** The queue of a decoder takes items until the decoder closes it. */
  predicate Takes(d: Decoder) {
    d.stage == Running
  }

  function Given(d: Decoder, x: Item): Decoder {
    d.(queue := d.queue + [x], put := d.put + [x])
  }

  function Received(d: Decoder): Decoder
    requires d.queue != []
  {
    d.(queue := d.queue[1..], expectEndTs := d.queue[0] == Flush && d.answers)
  }

  function Replied(d: Decoder, ts: Timestamp): Decoder {
    d.(endTs := d.endTs + [ts], handed := ts, expectEndTs := false)
  }

  function Apply(s: State, a: Action): State
    requires Enabled(s, a)
  {
    match a
    case SendData(j) =>
      if Takes(s.dec[j]) then Set(s, j, Given(s.dec[j], Data))
      else s.(finished := s.finished[j := true])
    case StartFlush => s.(phase := Flushing(0), maxEndTs := Unknown, got := [])
    case FlushNext =>
      var j := s.phase.next;
      if j >= |s.dec| then s.(phase := Idle)
      else if s.finished[j] then s.(phase := Flushing(j + 1))
      else if !Takes(s.dec[j]) then s.(phase := Idle) // the flush fails
      else
        var s' := Set(s, j, Given(s.dec[j], Flush));
        s'.(phase := if s.dec[j].answers then Awaiting(j) else Flushing(j + 1))
    case TakeReply =>
      var j := s.phase.j;
      var ts := s.dec[j].endTs[0];
      Set(s, j, s.dec[j].(endTs := s.dec[j].endTs[1..]))
        .(phase := Flushing(j + 1), maxEndTs := Later(s.maxEndTs, ts), got := s.got + [ts])
    case TakeError => s.(phase := Idle) // the flush fails
    case Reply(j, ts) => Set(s, j, Replied(s.dec[j], ts))
    case Receive(j) => Set(s, j, Received(s.dec[j]))
    case Close(j) => Set(s, j, s.dec[j].(stage := Closing))
    case SetError(j) => Set(s, j, s.dec[j].(stage := Exited))
    case Freeze(j) => Set(s, j, s.dec[j].(frozen := true))
    case Thaw(j) => Set(s, j, s.dec[j].(frozen := false))
  }

  predicate IsStart(s: State) {
    && s.phase == Idle && |s.dec| == |s.finished| && s.maxEndTs == Unknown && s.got == []
    && forall j | 0 <= j < |s.dec| ::
         && s.dec[j].queue == [] == s.dec[j].put && !s.dec[j].expectEndTs
         && s.dec[j].endTs == [] && s.dec[j].stage == Running
  }

  predicate IsRun(s: State, actions: seq<Action>, t: State)
    decreases |actions|
  {
    if actions == [] then s == t
    else Enabled(s, actions[0]) && IsRun(Apply(s, actions[0]), actions[1..], t)
  }

  // ---- The invariant ----

  function Flushes(q: seq<Item>): nat {
    if q == [] then 0 else (if q[0] == Flush then 1 else 0) + Flushes(q[1..])
  }

  lemma FlushesAppend(q: seq<Item>, x: Item)
    ensures Flushes(q + [x]) == Flushes(q) + if x == Flush then 1 else 0
  {
    if q != [] {
      assert (q + [x])[1..] == q[1..] + [x];
    } else {
      assert q + [x] == [x];
    }
  }

  /** The flushes a decoder has not answered: still queued, taken but not replied to, or
      with a reply the demuxer has not read. */
  function Unanswered(d: Decoder): nat {
    Flushes(d.queue) + (if d.expectEndTs then 1 else 0) + |d.endTs|
  }

  ghost predicate Good(d: Decoder, awaited: bool) {
    d.answers ==>
      && Unanswered(d) <= 1 && (d.endTs != [] ==> d.endTs == [d.handed])
      && (!awaited ==> d.endTs == [] && (d.stage == Running ==> Unanswered(d) == 0))
      && (awaited && d.stage == Running ==> Unanswered(d) == 1)
  }

  /** max is the latest of the answers, unknown when they all are. */
  predicate IsLatest(max: Timestamp, got: seq<Timestamp>) {
    && (max == Unknown <==> forall k | 0 <= k < |got| :: got[k] == Unknown)
    && (max.At? ==> max in got)
    && (max.At? ==> forall k | 0 <= k < |got| && got[k].At? :: Time(got[k]) <= Time(max))
  }

  predicate IsAwaited(s: State, j: nat) {
    s.phase == Awaiting(j)
  }

  /** The destinations a flush asks for an end timestamp. */
  predicate IsAsked(s: State, j: nat)
    requires j < |s.dec| == |s.finished|
  {
    s.dec[j].answers && !s.finished[j]
  }

  /** What those among the first n of them handed over last, in order. */
  function Answers(s: State, n: nat): seq<Timestamp>
    requires n <= |s.dec| == |s.finished|
  {
    if n == 0 then []
    else Answers(s, n - 1) + if IsAsked(s, n - 1) then [s.dec[n - 1].handed] else []
  }

  lemma AnswersStay(s: State, t: State, n: nat)
    requires n <= |s.dec| == |s.finished| && |t.dec| == |s.dec| && t.finished == s.finished
    requires forall j | 0 <= j < n :: t.dec[j].answers == s.dec[j].answers && t.dec[j].handed == s.dec[j].handed
    ensures Answers(t, n) == Answers(s, n)
  {
  }

  /** The answers so far are those of every decoder asked so far in this flush. */
  ghost predicate AllAnswered(s: State)
    requires |s.dec| == |s.finished|
  {
    && (s.phase.Flushing? ==> s.phase.next <= |s.dec| && s.got == Answers(s, s.phase.next))
    && (s.phase.Awaiting? ==> s.phase.j < |s.dec| && IsAsked(s, s.phase.j) && s.got == Answers(s, s.phase.j))
  }

  ghost predicate Inv(s: State) {
    && |s.dec| == |s.finished|
    && (forall j | 0 <= j < |s.dec| :: Good(s.dec[j], IsAwaited(s, j)))
    && (forall j | 0 <= j < |s.dec| && !s.dec[j].answers :: !s.dec[j].expectEndTs)
    && (s.phase.Awaiting? ==> s.phase.j < |s.dec| && s.dec[s.phase.j].answers)
    && IsLatest(s.maxEndTs, s.got)
    && AllAnswered(s)
  }

  lemma LaterIsLatest(max: Timestamp, ts: Timestamp, got: seq<Timestamp>)
    requires IsLatest(max, got)
    ensures IsLatest(Later(max, ts), got + [ts])
  {
    var got' := got + [ts];
    assert forall k | 0 <= k < |got| :: got'[k] == got[k];
    assert got'[|got|] == ts;
    if max.At? && ts.At? {
      BeforeIsTime(max, ts);
    }
  }

  /** Only decoder j changes. */
  lemma DecoderStep(s: State, j: nat, d: Decoder)
    requires Inv(s) && j < |s.dec| && d.answers == s.dec[j].answers
    requires Good(d, IsAwaited(s, j)) && (d.expectEndTs ==> d.answers)
    requires d.handed == s.dec[j].handed || IsAwaited(s, j)
    ensures Inv(Set(s, j, d))
  {
    var t := Set(s, j, d);
    if s.phase.Flushing? {
      AnswersStay(s, t, s.phase.next);
    } else if s.phase.Awaiting? {
      AnswersStay(s, t, s.phase.j);
    }
    forall k | 0 <= k < |t.dec| ensures Good(t.dec[k], IsAwaited(t, k)) {
      assert Good(s.dec[k], IsAwaited(s, k));
    }
  }

  lemma FlushNextKeeps(s: State)
    requires Inv(s) && s.phase.Flushing?
    ensures Inv(Apply(s, FlushNext))
  {
    var j, t := s.phase.next, Apply(s, FlushNext);
    if j < |s.dec| {
      FlushesAppend(s.dec[j].queue, Flush);
      AnswersStay(s, t, j);
      forall k | 0 <= k < |t.dec| ensures Good(t.dec[k], IsAwaited(t, k)) {
        assert Good(s.dec[k], IsAwaited(s, k));
      }
    }
  }

  lemma TakeReplyKeeps(s: State)
    requires Inv(s) && Enabled(s, TakeReply)
    ensures Inv(Apply(s, TakeReply))
  {
    var j, t := s.phase.j, Apply(s, TakeReply);
    LaterIsLatest(s.maxEndTs, s.dec[j].endTs[0], s.got);
    AnswersStay(s, t, j);
    forall k | 0 <= k < |t.dec| ensures Good(t.dec[k], IsAwaited(t, k)) {
      assert Good(s.dec[k], IsAwaited(s, k));
    }
  }

  lemma GiveUpKeeps(s: State)
    requires Inv(s) && Enabled(s, TakeError)
    ensures Inv(Apply(s, TakeError))
  {
    var t := Apply(s, TakeError);
    forall k | 0 <= k < |t.dec| ensures Good(t.dec[k], IsAwaited(t, k)) {
      assert Good(s.dec[k], IsAwaited(s, k));
    }
  }

  lemma StepKeeps(s: State, a: Action)
    requires Inv(s) && Enabled(s, a)
    ensures Inv(Apply(s, a))
  {
    match a
    case SendData(j) =>
      assert Good(s.dec[j], IsAwaited(s, j));
      FlushesAppend(s.dec[j].queue, Data);
      DecoderStep(s, j, Given(s.dec[j], Data));
    case StartFlush =>
    case FlushNext => FlushNextKeeps(s);
    case TakeReply => TakeReplyKeeps(s);
    case TakeError => GiveUpKeeps(s);
    case Reply(j, ts) =>
      assert Good(s.dec[j], IsAwaited(s, j));
      DecoderStep(s, j, Replied(s.dec[j], ts));
    case Receive(j) =>
      assert Good(s.dec[j], IsAwaited(s, j));
      DecoderStep(s, j, Received(s.dec[j]));
    case Close(j) =>
      assert Good(s.dec[j], IsAwaited(s, j));
      DecoderStep(s, j, s.dec[j].(stage := Closing));
    case SetError(j) =>
      assert Good(s.dec[j], IsAwaited(s, j));
      DecoderStep(s, j, s.dec[j].(stage := Exited));
    case Freeze(j) =>
      assert Good(s.dec[j], IsAwaited(s, j));
      DecoderStep(s, j, s.dec[j].(frozen := true));
    case Thaw(j) =>
      assert Good(s.dec[j], IsAwaited(s, j));
      DecoderStep(s, j, s.dec[j].(frozen := false));
  }

  lemma {:induction false} RunKeeps(s: State, actions: seq<Action>, t: State)
    requires Inv(s) && IsRun(s, actions, t)
    ensures Inv(t)
    decreases |actions|
  {
    if actions != [] {
      StepKeeps(s, actions[0]);
      RunKeeps(Apply(s, actions[0]), actions[1..], t);
    }
  }

  lemma Reachable(s: State, actions: seq<Action>, t: State)
    requires IsStart(s) && IsRun(s, actions, t)
    ensures Inv(t)
  {
    RunKeeps(s, actions, t);
  }

  // ---- Results ----

  /** At most one flush is unanswered: that of the decoder the demuxer waits for. */
  lemma OneUnanswered(s: State, actions: seq<Action>, t: State, j: nat)
    requires IsStart(s) && IsRun(s, actions, t)
    requires j < |t.dec| && t.dec[j].answers && t.dec[j].stage == Running
    ensures Unanswered(t.dec[j]) == if t.phase == Awaiting(j) then 1 else 0
  {
    Reachable(s, actions, t);
    assert Good(t.dec[j], IsAwaited(t, j));
  }

  /** A decoder with an end timestamp to hand over finds the one-slot queue empty. */
  lemma ReplyNeverBlocks(s: State, actions: seq<Action>, t: State, j: nat, ts: Timestamp)
    requires IsStart(s) && IsRun(s, actions, t)
    requires j < |t.dec| && WantsToReply(t.dec[j])
    ensures Enabled(t, Reply(j, ts)) && t.phase == Awaiting(j)
  {
    Reachable(s, actions, t);
    assert Good(t.dec[j], IsAwaited(t, j));
  }

  /** While the demuxer waits, the flush is queued, its reply is due or there, or the
      decoder has gone and the error is or is about to be set. */
  lemma WaitHasReason(s: State, actions: seq<Action>, t: State)
    requires IsStart(s) && IsRun(s, actions, t) && t.phase.Awaiting?
    ensures t.phase.j < |t.dec|
    ensures var d := t.dec[t.phase.j];
            Flushes(d.queue) == 1 || d.expectEndTs || |d.endTs| == 1 || d.stage != Running
  {
    Reachable(s, actions, t);
    assert Good(t.dec[t.phase.j], IsAwaited(t, t.phase.j));
  }

  // ---- Progress ----

  predicate OfDemuxer(a: Action) {
    a.SendData? || a.StartFlush? || a.FlushNext? || a.TakeReply? || a.TakeError?
  }

  predicate OfDecoder(a: Action, j: nat) {
    a == Receive(j) || a == Close(j) || a == SetError(j) || (a.Reply? && a.j == j)
  }

  /** Neither the demuxer nor decoder j can take a step, but for the decoder giving up. */
  ghost predicate IsStuck(s: State, j: nat) {
    forall a: Action | (OfDemuxer(a) || OfDecoder(a, j)) && a != Close(j) :: !Enabled(s, a)
  }

  /** While the demuxer waits, both it and the decoder it waits for are stuck exactly when
      the decoder's queue was frozen before the flush was taken out of it. */
  lemma StuckExactly(s: State, actions: seq<Action>, t: State)
    requires IsStart(s) && IsRun(s, actions, t) && t.phase.Awaiting?
    ensures t.phase.j < |t.dec|
    ensures var d := t.dec[t.phase.j];
            IsStuck(t, t.phase.j) <==> d.frozen && d.stage == Running && !d.expectEndTs && d.endTs == []
  {
    Reachable(s, actions, t);
    var j := t.phase.j;
    var d := t.dec[j];
    assert Good(d, IsAwaited(t, j));
    if !(d.frozen && d.stage == Running && !d.expectEndTs && d.endTs == []) {
      var a := if d.endTs != [] then TakeReply
               else if d.stage == Exited then TakeError
               else if d.stage == Closing then SetError(j)
               else if d.expectEndTs then Reply(j, Unknown)
               else Receive(j);
      assert (OfDemuxer(a) || OfDecoder(a, j)) && a != Close(j) && Enabled(t, a);
    }
  }

  /** It does happen: an update on another thread holds the demuxer, and with it freezes
      the queue, just after the flush was put there. */
  lemma MayBeStuck() returns (s: State, actions: seq<Action>, t: State)
    ensures IsStart(s) && IsRun(s, actions, t) && t.phase == Awaiting(0) && IsStuck(t, 0)
  {
    var d := Decoder(true, [], [], false, false, [], Unknown, Running);
    s := State([d], [false], Idle, Unknown, []);
    var s1 := Apply(s, StartFlush);
    var s2 := Apply(s1, FlushNext);
    t := Apply(s2, Freeze(0));
    actions := [StartFlush, FlushNext, Freeze(0)];
    assert IsRun(s2, actions[2..], t) by { assert actions[2..][1..] == []; }
    assert IsRun(s1, actions[1..], t) by { assert actions[1..][1..] == actions[2..]; }
    StuckExactly(s, actions, t);
  }

  /** As long as the queue is not frozen, the demuxer can go on or the decoder can. */
  lemma WaitIsServed(s: State, actions: seq<Action>, t: State)
    requires IsStart(s) && IsRun(s, actions, t) && t.phase.Awaiting?
    requires t.phase.j < |t.dec| && !t.dec[t.phase.j].frozen
    ensures !IsStuck(t, t.phase.j)
  {
    StuckExactly(s, actions, t);
  }

  /** Thawing the queue, which an update may do at any time, ends a stuck wait. */
  lemma ThawServes(s: State, actions: seq<Action>, t: State)
    requires IsStart(s) && IsRun(s, actions, t) && t.phase.Awaiting? && IsStuck(t, t.phase.j)
    ensures Enabled(t, Thaw(t.phase.j)) && Enabled(Apply(t, Thaw(t.phase.j)), Receive(t.phase.j))
  {
    StuckExactly(s, actions, t);
    Reachable(s, actions, t);
    assert Good(t.dec[t.phase.j], IsAwaited(t, t.phase.j));
  }

  /** What a decoder has left to do before the demuxer stops waiting for it. */
  function Work(d: Decoder): nat {
    2 * |d.queue| + (if d.expectEndTs then 1 else 0) +
    match d.stage { case Running => 2 case Closing => 1 case Exited => 0 }
  }

  /** Each step of the decoder leaves it less to do, and no step adds to it. */
  lemma WorkFalls(t: State, a: Action)
    requires Inv(t) && t.phase.Awaiting? && Enabled(t, a)
    ensures |Apply(t, a).dec| == |t.dec|
    ensures Work(Apply(t, a).dec[t.phase.j]) + StepsOf([a], t.phase.j) <= Work(t.dec[t.phase.j])
  {
  }

  function StepsOf(actions: seq<Action>, j: nat): nat {
    if actions == [] then 0 else (if OfDecoder(actions[0], j) then 1 else 0) + StepsOf(actions[1..], j)
  }

  /** The demuxer waits for decoder j all through the run. */
  predicate WaitsThrough(s: State, actions: seq<Action>, j: nat)
    decreases |actions|
  {
    s.phase == Awaiting(j) &&
    (actions == [] || (Enabled(s, actions[0]) && WaitsThrough(Apply(s, actions[0]), actions[1..], j)))
  }

  lemma {:induction false} WaitIsBounded(t: State, actions: seq<Action>, u: State, j: nat)
    requires Inv(t) && IsRun(t, actions, u) && WaitsThrough(t, actions, j)
    ensures j < |t.dec| && StepsOf(actions, j) <= Work(t.dec[j])
    decreases |actions|
  {
    if actions != [] {
      var a := actions[0];
      StepKeeps(t, a);
      WorkFalls(t, a);
      WaitIsBounded(Apply(t, a), actions[1..], u, j);
    }
  }

  /** However the threads interleave, a wait is over after a number of steps of the decoder
      that is known when it begins: the flush stands behind what was queued before it. */
  lemma WaitEnds(s: State, before: seq<Action>, t: State, actions: seq<Action>, u: State, j: nat)
    requires IsStart(s) && IsRun(s, before, t) && IsRun(t, actions, u) && WaitsThrough(t, actions, j)
    ensures j < |t.dec| && StepsOf(actions, j) <= Work(t.dec[j])
  {
    Reachable(s, before, t);
    WaitIsBounded(t, actions, u, j);
  }

  // ---- A decoder that closes ----

  lemma StepAfterClose(s: State, a: Action, j: nat)
    requires Enabled(s, a) && j < |s.dec| && s.dec[j].stage != Running
    ensures j < |Apply(s, a).dec| && Apply(s, a).dec[j].stage != Running && Apply(s, a).dec[j].put == s.dec[j].put
  {
  }

  /** Nothing is put in the queue of a decoder that has closed it. */
  lemma {:induction false} NothingAfterClose(s: State, actions: seq<Action>, t: State, j: nat)
    requires IsRun(s, actions, t) && j < |s.dec| && s.dec[j].stage != Running
    ensures j < |t.dec| && t.dec[j].stage != Running && t.dec[j].put == s.dec[j].put
    decreases |actions|
  {
    hide Apply, Enabled;
    if actions != [] {
      StepAfterClose(s, actions[0], j);
      NothingAfterClose(Apply(s, actions[0]), actions[1..], t, j);
    }
  }

  /** Only decoders that have closed are given up as destinations. */
  predicate IsGivenUpRightly(s: State, j: nat) {
    j < |s.dec| && j < |s.finished| && (s.finished[j] ==> s.dec[j].stage != Running)
  }

  lemma StepGivesUp(s: State, a: Action, j: nat)
    requires Enabled(s, a) && IsGivenUpRightly(s, j)
    ensures IsGivenUpRightly(Apply(s, a), j)
    ensures a == SendData(j) ==> (Apply(s, a).finished[j] <==> s.dec[j].stage != Running)
  {
  }

  lemma {:induction false} FinishedIsClosed(s: State, actions: seq<Action>, t: State, j: nat)
    requires IsRun(s, actions, t) && IsGivenUpRightly(s, j)
    ensures IsGivenUpRightly(t, j)
    decreases |actions|
  {
    hide Apply, Enabled, IsGivenUpRightly;
    if actions != [] {
      StepGivesUp(s, actions[0], j);
      FinishedIsClosed(Apply(s, actions[0]), actions[1..], t, j);
    }
  }

  // ---- What a flush puts in the queues ----

  /** What is queued is the end of what was put there. */
  predicate IsLast(d: Decoder) {
    |d.queue| <= |d.put| && d.queue == d.put[|d.put| - |d.queue|..]
  }

  lemma {:induction false} QueuesAreFifo(s: State, actions: seq<Action>, t: State, j: nat)
    requires IsRun(s, actions, t) && j < |s.dec| && IsLast(s.dec[j])
    ensures j < |t.dec| && IsLast(t.dec[j])
    decreases |actions|
  {
    hide Apply, Enabled, IsLast;
    if actions != [] {
      StepIsFifo(s, actions[0], j);
      QueuesAreFifo(Apply(s, actions[0]), actions[1..], t, j);
    }
  }

  lemma StartIsFifo(s: State)
    requires IsStart(s)
    ensures forall j | 0 <= j < |s.dec| :: IsLast(s.dec[j])
  {
  }

  lemma StepIsFifo(s: State, a: Action, j: nat)
    requires Enabled(s, a) && j < |s.dec| && IsLast(s.dec[j])
    ensures j < |Apply(s, a).dec| && IsLast(Apply(s, a).dec[j])
  {
  }

  /** The destinations a flush under way is through with. */
  function Through(s: State): nat {
    match s.phase
    case Idle => 0
    case Flushing(n) => n
    case Awaiting(j) => j + 1
  }

  /** From t on, destination j was given a flush packet once the flush is through with it,
      unless it was finished, and nothing else. */
  predicate GaveOne(t: State, v: State, j: nat) {
    && j < |t.dec| == |t.finished| == |v.dec| && v.finished == t.finished
    && v.dec[j].put == t.dec[j].put + if j < Through(v) && !t.finished[j] then [Flush] else []
  }

  /** The flush is not over before the last of the actions. */
  predicate FlushesThrough(s: State, actions: seq<Action>)
    decreases |actions|
  {
    s.phase != Idle &&
    (actions == [] || (Enabled(s, actions[0]) && FlushesThrough(Apply(s, actions[0]), actions[1..])))
  }

  lemma StepGivesOne(t: State, v: State, a: Action, j: nat)
    requires GaveOne(t, v, j) && v.phase != Idle && Enabled(v, a) && Apply(v, a).phase != Idle
    ensures GaveOne(t, Apply(v, a), j)
  {
    assert t.dec[j].put + [] == t.dec[j].put;
  }

  lemma {:induction false} FlushGives(t: State, v: State, actions: seq<Action>, u: State, j: nat)
    requires GaveOne(t, v, j) && IsRun(v, actions, u) && FlushesThrough(v, actions)
    ensures GaveOne(t, u, j)
    decreases |actions|
  {
    hide Apply, Enabled, GaveOne;
    if actions != [] {
      StepGivesOne(t, v, actions[0], j);
      FlushGives(t, Apply(v, actions[0]), actions[1..], u, j);
    }
  }

  lemma StartGives(t: State, j: nat)
    requires t.phase == Idle && j < |t.dec| == |t.finished|
    ensures Enabled(t, StartFlush) && GaveOne(t, Apply(t, StartFlush), j) && Apply(t, StartFlush).dec == t.dec
  {
    assert t.dec[j].put + [] == t.dec[j].put;
  }

  /** A flush that completes puts one flush packet in the queue of every destination that is
      not finished, whether it answers or not, and nothing else; what is still queued then
      is the last of what was put there. */
  lemma FlushReachesAll(s: State, before: seq<Action>, t: State, actions: seq<Action>, u: State, j: nat)
    requires IsStart(s) && IsRun(s, before, t) && t.phase == Idle && Enabled(t, StartFlush)
    requires IsRun(Apply(t, StartFlush), actions, u) && FlushesThrough(Apply(t, StartFlush), actions)
    requires u.phase == Flushing(|u.dec|) && j < |t.dec|
    ensures |t.dec| == |t.finished| == |u.dec| && IsLast(u.dec[j])
    ensures u.dec[j].put == t.dec[j].put + if t.finished[j] then [] else [Flush]
  {
    hide Apply, Enabled, Inv, IsRun, FlushesThrough, IsLast, IsStart;
    StartIsFifo(s);
    Reachable(s, before, t);
    RunKeepsCount(s, before, t);
    InvHasFlags(t);
    StartGives(t, j);
    FlushGives(t, Apply(t, StartFlush), actions, u, j);
    QueuesAreFifo(s, before, t, j);
    QueuesAreFifo(Apply(t, StartFlush), actions, u, j);
  }

  lemma InvHasFlags(s: State)
    requires Inv(s)
    ensures |s.dec| == |s.finished|
  {
  }

  lemma {:induction false} RunKeepsCount(s: State, actions: seq<Action>, t: State)
    requires IsRun(s, actions, t)
    ensures |t.dec| == |s.dec|
    decreases |actions|
  {
    if actions != [] {
      RunKeepsCount(Apply(s, actions[0]), actions[1..], t);
    }
  }

  /** A flush that completes has, for each decoder it asked, the end timestamp that decoder
      handed over, and reports the latest of these. */
  lemma FlushReportsLatest(s: State, actions: seq<Action>, t: State)
    requires IsStart(s) && IsRun(s, actions, t)
    requires t.phase == Flushing(|t.dec|)
    ensures |t.dec| == |t.finished| && t.got == Answers(t, |t.dec|) && IsLatest(t.maxEndTs, Answers(t, |t.dec|))
  {
    Reachable(s, actions, t);
  }
}
