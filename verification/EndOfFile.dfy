/** How the end of a stream travels: from a source to each of its destinations, and
    through the inputs of a filtergraph. */
module EndOfFile {
  import opened PreMux

  /** Failed stands for any error other than end of file. */
  datatype Result = Ok | Ended | Failed

  // ---- A source and its destinations ----

  /** Data, then at most one end of file, which is there exactly when the destination is
      marked finished. */
  predicate WellEnded(log: seq<Item>, finished: bool) {
    EofLast(log) && (finished <==> Eof in log)
  }

  /** A destination after x went to it; closing: the end goes out whatever x is. One that is
      finished is left alone; x arrives, or the end does where x is the end or the destination
      wants no more; nothing does where the send fails. */
  predicate Served(log: seq<Item>, finished: bool, x: Item, closing: bool, answer: Result,
                   log': seq<Item>, finished': bool) {
    if finished then log' == log && finished'
    else if x == Eof || closing || answer == Ended then log' == log + [Eof] && finished'
    else if answer == Ok then log' == log + [x] && !finished'
    else log' == log && !finished'
  }

  /** The destination is tried, and fails in another way than by wanting no more. */
  predicate Fails(finished: bool, x: Item, closing: bool, answer: Result) {
    !finished && x != Eof && !closing && answer == Failed
  }

  /** The destinations of one demuxer stream, decoder output or encoder. */
  class FanOut {
    const isMux: seq<bool>
    /** dst_finished. */
    const finished: array<bool>
    /** What each destination was given, in order. */
    var log: seq<seq<Item>>

    constructor (isMux: seq<bool>)
      ensures Valid() && fresh(finished) && this.isMux == isMux
      ensures forall i | 0 <= i < |isMux| :: log[i] == [] && !finished[i]
    {
      this.isMux := isMux;
      finished := new bool[|isMux|](_ => false);
      log := seq(|isMux|, _ => []);
    }

    ghost predicate Valid()
      reads this, finished
    {
      && |isMux| == finished.Length == |log|
      && forall i | 0 <= i < |log| :: WellEnded(log[i], finished[i])
    }

    method Finish(i: nat)
      requires Valid() && i < |log| && !finished[i]
      modifies this, finished
      ensures Valid() && log == old(log[i := log[i] + [Eof]]) && finished[..] == old(finished[..][i := true])
    {
      log := log[i := log[i] + [Eof]];
      finished[i] := true;
    }

    /** demux_stream_send_to_dst, dec_send_to_dst and enc_send_to_dst. answer is what the
        destination says to a packet. */
    method SendToDst(i: nat, x: Item, streamcopyEof: bool, answer: Result) returns (ret: Result)
      requires Valid() && i < |log|
      modifies this, finished
      ensures Valid() && |log| == |old(log)|
      ensures Served(old(log[i]), old(finished[i]), x, isMux[i] && streamcopyEof, answer, log[i], finished[i])
      ensures ret == Failed <==> Fails(old(finished[i]), x, isMux[i] && streamcopyEof, answer)
      ensures ret == Ended <==> finished[i]
      ensures forall k | 0 <= k < |log| && k != i :: log[k] == old(log[k]) && finished[k] == old(finished[k])
    {
      if finished[i] {
        return Ended;
      }
      if x == Eof || (isMux[i] && streamcopyEof) {
        Finish(i);
        return Ended;
      }
      ret := answer;
      if ret == Ended {
        Finish(i);
      } else if ret == Ok {
        log := log[i := log[i] + [x]];
      }
    }

    /** Destination k fails, before anything is sent. */
    ghost predicate FailsAt(k: nat, x: Item, streamcopyEof: bool, answers: seq<Result>)
      requires Valid() && k < |log| == |answers|
      reads this, finished
    {
      Fails(finished[k], x, isMux[k] && streamcopyEof, answers[k])
    }

    /** demux_send_for_stream and sch_dec_send: destinations are served in turn up to the
        first that fails; end of file is reported exactly when none is left. */
    method Send(x: Item, streamcopyEof: bool, answers: seq<Result>) returns (ret: Result)
      requires Valid() && |answers| == |log|
      modifies this, finished
      ensures Valid() && |log| == |old(log)|
      ensures ret == Failed <==> exists j | 0 <= j < |log| :: old(FailsAt(j, x, streamcopyEof, answers))
      ensures forall k | 0 <= k < |log| ::
                if exists j | 0 <= j < k :: old(FailsAt(j, x, streamcopyEof, answers))
                then log[k] == old(log[k]) && finished[k] == old(finished[k])
                else Served(old(log[k]), old(finished[k]), x, isMux[k] && streamcopyEof, answers[k],
                            log[k], finished[k])
      ensures ret != Failed ==> (ret == Ended <==> forall k | 0 <= k < |log| :: finished[k])
    {
      var nbDone := 0;
      for i := 0 to finished.Length
        invariant Valid() && |log| == |old(log)|
        invariant forall k | 0 <= k < i :: !old(FailsAt(k, x, streamcopyEof, answers))
        invariant forall k | 0 <= k < i :: Served(old(log[k]), old(finished[k]), x, isMux[k] && streamcopyEof,
                                                  answers[k], log[k], finished[k])
        invariant forall k | i <= k < |log| :: log[k] == old(log[k]) && finished[k] == old(finished[k])
        invariant 0 <= nbDone <= i && (nbDone == i <==> forall k | 0 <= k < i :: finished[k])
      {
        ret := SendToDst(i, x, streamcopyEof, answers[i]);
        if ret == Failed {
          assert old(FailsAt(i, x, streamcopyEof, answers));
          return;
        }
        if ret == Ended {
          nbDone := nbDone + 1;
        }
      }
      ret := if nbDone == finished.Length then Ended else Ok;
    }

    /** sch_enc_send: an encoder is not told that its destinations have ended. */
    method EncSend(x: Item, answers: seq<Result>) returns (ret: Result)
      requires Valid() && |answers| == |log|
      modifies this, finished
      ensures Valid() && |log| == |old(log)| && ret != Ended
      ensures ret == Failed <==> exists j | 0 <= j < |log| :: old(FailsAt(j, x, false, answers))
      ensures forall k | 0 <= k < |log| ::
                if exists j | 0 <= j < k :: old(FailsAt(j, x, false, answers))
                then log[k] == old(log[k]) && finished[k] == old(finished[k])
                else Served(old(log[k]), old(finished[k]), x, false, answers[k], log[k], finished[k])
    {
      for i := 0 to finished.Length
        invariant Valid() && |log| == |old(log)|
        invariant forall k | 0 <= k < i :: !old(FailsAt(k, x, false, answers))
        invariant forall k | 0 <= k < i ::
                    Served(old(log[k]), old(finished[k]), x, false, answers[k], log[k], finished[k])
        invariant forall k | i <= k < |log| :: log[k] == old(log[k]) && finished[k] == old(finished[k])
      {
        ret := SendToDst(i, x, false, answers[i]);
        if ret == Failed {
          assert old(FailsAt(i, x, false, answers));
          return;
        }
      }
      ret := Ok;
    }

    /** The loops of demux_done, dec_done and enc_done over the destinations. */
    method Done()
      requires Valid()
      modifies this, finished
      ensures Valid() && |log| == |old(log)|
      ensures forall k | 0 <= k < |log| ::
                finished[k] && log[k] == if old(finished[k]) then old(log[k]) else old(log[k]) + [Eof]
    {
      for i := 0 to finished.Length
        invariant Valid() && |log| == |old(log)|
        invariant forall k | 0 <= k < i :: Served(old(log[k]), old(finished[k]), Eof, false, Ok, log[k], finished[k])
        invariant forall k | i <= k < |log| :: log[k] == old(log[k]) && finished[k] == old(finished[k])
      {
        var _ := SendToDst(i, Eof, false, Ok);
      }
    }
  }

  // ---- The inputs of a filtergraph ----

  function Count(s: seq<bool>): (n: nat)
    ensures n <= |s|
  {
    if s == [] then 0 else (if s[0] then 1 else 0) + Count(s[1..])
  }

  lemma CountSet(s: seq<bool>, i: nat)
    requires i < |s| && !s[i]
    ensures Count(s[i := true]) == Count(s) + 1
  {
    if i == 0 {
      assert s[i := true][1..] == s[1..];
    } else {
      CountSet(s[1..], i - 1);
      assert s[i := true][1..] == s[1..][i - 1 := true];
    }
  }

  lemma CountAll(s: seq<bool>)
    ensures Count(s) == |s| <==> forall i | 0 <= i < |s| :: s[i]
  {
    if s != [] {
      CountAll(s[1..]);
      assert s == [s[0]] + s[1..];
    }
  }

  predicate All(s: seq<bool>) {
    forall i | 0 <= i < |s| :: s[i]
  }

  /** One end of the inputs of a filtergraph: which have been finished, the count of
      those, and the flags of the queue, the last of which is the control stream's. */
  datatype End = End(finished: seq<bool>, nbFinished: nat, flag: seq<bool>)

  /** The count is right, and what is finished is closed in the queue; the control stream
      is when the last input was finished. */
  predicate Counted(e: End, n: nat) {
    && |e.finished| == n && |e.flag| == n + 1
    && e.nbFinished == Count(e.finished)
    && (forall i | 0 <= i < n && e.finished[i] :: e.flag[i])
    && (n > 0 && All(e.finished) ==> e.flag[n])
  }

  /** Finishing input i, the common part of send_to_filter and sch_filter_receive_finish. */
  function Finished(e: End, i: nat, n: nat): End
    requires Counted(e, n) && i < n
  {
    if e.finished[i] then e
    else
      var closed := e.flag[i := true];
      End(e.finished[i := true], e.nbFinished + 1, if e.nbFinished + 1 == n then closed[n := true] else closed)
  }

  lemma FinishedIsCounted(e: End, i: nat, n: nat)
    requires Counted(e, n) && i < n
    ensures Counted(Finished(e, i, n), n)
    ensures Finished(e, i, n).flag[n] ==> e.flag[n] || All(Finished(e, i, n).finished)
  {
    if !e.finished[i] {
      CountSet(e.finished, i);
      CountAll(e.finished[i := true]);
    }
  }

  class FilterInputs {
    const n: nat
    var send: End
    var receive: End
    /** The filtergraph's thread has cleaned up. */
    var done: bool

    constructor (n: nat)
      ensures Valid() && this.n == n && !done && Count(send.finished) == 0 == Count(receive.finished)
    {
      this.n, done := n, false;
      send := End(seq(n, _ => false), 0, seq(n + 1, _ => false));
      receive := End(seq(n, _ => false), 0, seq(n + 1, _ => false));
      new;
      CountNone(send.finished);
      CountAll(send.finished);
    }

    /** Both ends are counted right, and until the filtergraph is done the control stream is
        closed, on either side, exactly when there are inputs and all were finished on one
        side; a filtergraph without inputs never counts up to it. An input's
        send flag may also be set by the queue when the receive side is closed, and a
        receive flag by the queue when the end of file is delivered. */
    ghost predicate Valid()
      reads this
    {
      && Counted(send, n) && Counted(receive, n)
      && (!done ==> (send.flag[n] || receive.flag[n] <==> n > 0 && (All(send.finished) || All(receive.finished))))
      && (forall i | 0 <= i < n && send.flag[i] && !send.finished[i] :: receive.flag[i])
      && (forall i | 0 <= i < n && receive.flag[i] && !receive.finished[i] && !done :: send.flag[i])
    }

    /** send_to_filter with no frame: the first time, the input is closed, and with the
        last input the control stream. */
    method SendEof(i: nat)
      requires Valid() && i < n
      modifies this`send
      ensures Valid() && send.finished == old(send.finished)[i := true]
      ensures forall k | 0 <= k < n :: send.flag[k] <==> old(send.flag[k]) || (k == i && !old(send.finished[i]))
      ensures send.flag[n] <==> old(send.flag[n]) || All(send.finished)
    {
      FinishedIsCounted(send, i, n);
      if !send.finished[i] {
        send := send.(finished := send.finished[i := true], flag := send.flag[i := true]);
        send := send.(nbFinished := send.nbFinished + 1);
        if send.nbFinished == n {
          send := send.(flag := send.flag[n := true]);
        }
      }
      assert send == Finished(old(send), i, n);
    }

    /** sch_filter_receive_finish: the same on the receiving side. */
    method ReceiveFinish(i: nat)
      requires Valid() && i < n
      modifies this`receive
      ensures Valid() && receive.finished == old(receive.finished)[i := true]
      ensures forall k | 0 <= k < n ::
                receive.flag[k] <==> old(receive.flag[k]) || (k == i && !old(receive.finished[i]))
      ensures receive.flag[n] <==> old(receive.flag[n]) || All(receive.finished)
    {
      FinishedIsCounted(receive, i, n);
      if !receive.finished[i] {
        receive := receive.(finished := receive.finished[i := true], flag := receive.flag[i := true]);
        receive := receive.(nbFinished := receive.nbFinished + 1);
        if receive.nbFinished == n {
          receive := receive.(flag := receive.flag[n := true]);
        }
      }
      assert receive == Finished(old(receive), i, n);
    }

    /** tq_send of a frame to an input, or of a command to the control stream, on which the
        queue refuses what the receiver has closed. */
    method SendFrame(i: nat) returns (ret: Result)
      requires Valid() && i <= n
      modifies this`send
      ensures Valid() && send.finished == old(send.finished)
      ensures ret == Ok <==> !old(send.flag[i]) && !receive.flag[i]
      ensures send.flag == if ret == Ended then old(send.flag)[i := true] else old(send.flag)
    {
      if send.flag[i] {
        return Failed;
      }
      if receive.flag[i] {
        send := send.(flag := send.flag[i := true]);
        return Ended;
      }
      return Ok;
    }

    /** tq_receive finds a stream that the sender has closed, and reports its end once. */
    method ReceiveEof(i: nat)
      requires Valid() && i <= n && send.flag[i] && !receive.flag[i]
      modifies this`receive
      ensures Valid() && receive == old(receive).(flag := old(receive.flag)[i := true])
    {
      receive := receive.(flag := receive.flag[i := true]);
    }

    /** filter_done: the receiving side closes for good. */
    method Done()
      requires Valid()
      modifies this`receive, this`done
      ensures Valid() && done && receive.finished == old(receive.finished) && All(receive.flag)
    {
      done := true;
      for i := 0 to n + 1
        invariant Valid() && done && receive.finished == old(receive.finished)
        invariant forall k | 0 <= k < i :: receive.flag[k]
      {
        receive := receive.(flag := receive.flag[i := true]);
      }
    }
  }

  lemma CountNone(s: seq<bool>)
    requires forall i | 0 <= i < |s| :: !s[i]
    ensures Count(s) == 0
  {
  }
}
