/** Initialising the muxers as their streams become ready, and starting their tasks:
    each at once, or all together after the SDP has been written. */
module MuxInit {

  /** What was done to the muxers, and whether it succeeded. */
  datatype Event =
    | Init(i: nat, ok: bool)
    | Sdp(ok: bool)
    | Start(i: nat, ok: bool)

  predicate SameCall(e: Event, f: Event) {
    (e.Sdp? && f.Sdp?) || (e.Init? && f.Init? && e.i == f.i) || (e.Start? && f.Start? && e.i == f.i)
  }

  /** Every muxer is initialised and started at most once, the SDP written at most once. */
  predicate AtMostOnce(log: seq<Event>) {
    forall j, k | 0 <= j < k < |log| :: !SameCall(log[j], log[k])
  }

  predicate Happened(log: seq<Event>, e: Event) {
    e.(ok := true) in log || e.(ok := false) in log
  }

  /** No initialisation but perhaps that of muxer i was added. */
  ghost predicate SameInits(was: seq<Event>, log: seq<Event>, i: int) {
    forall k: nat | k != i ::
      (Ready(log, k) <==> Ready(was, k)) && (Happened(log, Init(k, true)) <==> Happened(was, Init(k, true)))
  }

  /** Muxer i was initialised. */
  predicate Ready(log: seq<Event>, i: nat) {
    Init(i, true) in log
  }

  predicate AllReady(log: seq<Event>, n: nat) {
    forall i | 0 <= i < n :: Ready(log, i)
  }

  /** A task starts only after its muxer is initialised and, when an SDP is wanted, after
      it is written; it is written only once every muxer is initialised. */
  predicate InOrder(log: seq<Event>, n: nat, sdp: bool) {
    forall k | 0 <= k < |log| :: MayFollow(log[..k], log[k], n, sdp)
  }

  predicate MayFollow(log: seq<Event>, e: Event, n: nat, sdp: bool) {
    match e
    case Init(i, _) => i < n
    case Sdp(_) => sdp && AllReady(log, n)
    case Start(i, _) => i < n && Ready(log, i) && (sdp ==> Sdp(true) in log)
  }

  /** Nothing that should have been started is missing. */
  predicate Complete(log: seq<Event>, n: nat, sdp: bool) {
    if sdp then n > 0 && AllReady(log, n) ==> Sdp(true) in log && AllStarted(log, n)
    else forall i | 0 <= i < n && Ready(log, i) :: Start(i, true) in log
  }

  predicate AllStarted(log: seq<Event>, n: nat) {
    forall i | 0 <= i < n :: Start(i, true) in log
  }

  /** The initialised muxers. */
  ghost function ReadySet(log: seq<Event>, n: nat): (r: set<nat>) {
    set i: nat | i < n && Ready(log, i)
  }

  ghost function NbReady(log: seq<Event>, n: nat): nat {
    |ReadySet(log, n)|
  }

  ghost function Below(n: nat): (r: set<nat>)
    ensures |r| == n
    ensures forall i: nat :: i in r <==> i < n
  {
    if n == 0 then {} else Below(n - 1) + {n - 1}
  }

  lemma SubsetSize<T>(a: set<T>, b: set<T>)
    requires a <= b
    ensures |a| <= |b| && (|a| == |b| ==> a == b)
  {
    if a != {} {
      var x :| x in a;
      SubsetSize(a - {x}, b - {x});
    }
  }

  /** The counter reaches the number of muxers exactly when all are initialised. */
  lemma CountIsComplete(log: seq<Event>, n: nat)
    ensures NbReady(log, n) <= n
    ensures NbReady(log, n) == n <==> AllReady(log, n)
  {
    SubsetSize(ReadySet(log, n), Below(n));
    if AllReady(log, n) {
      assert ReadySet(log, n) == Below(n);
    } else {
      var i :| 0 <= i < n && !Ready(log, i);
      assert i in Below(n) && i !in ReadySet(log, n);
    }
  }

  lemma Append(log: seq<Event>, e: Event, n: nat, sdp: bool)
    requires AtMostOnce(log) && InOrder(log, n, sdp)
    requires !Happened(log, e) && MayFollow(log, e, n, sdp)
    ensures AtMostOnce(log + [e]) && InOrder(log + [e], n, sdp)
  {
    var log' := log + [e];
    forall k | 0 <= k < |log'| ensures MayFollow(log'[..k], log'[k], n, sdp) {
      assert log'[..k] == log[..k];
      assert log[..|log|] == log;
    }
  }

  lemma AppendReady(log: seq<Event>, e: Event, n: nat)
    ensures forall i: nat :: Ready(log + [e], i) <==> Ready(log, i) || e == Init(i, true)
    ensures !(e.Init? && e.ok) ==> NbReady(log + [e], n) == NbReady(log, n)
    ensures e.Init? && e.ok && e.i < n && !Ready(log, e.i) ==> NbReady(log + [e], n) == NbReady(log, n) + 1
  {
    if e.Init? && e.ok && e.i < n && !Ready(log, e.i) {
      assert ReadySet(log + [e], n) == ReadySet(log, n) + {e.i};
    } else if !(e.Init? && e.ok) {
      assert ReadySet(log + [e], n) == ReadySet(log, n);
    }
  }

  /** Before a muxer is initialised it was not started, and with an SDP nothing was. */
  lemma NotStartedYet(log: seq<Event>, n: nat, sdp: bool, i: nat)
    requires InOrder(log, n, sdp) && i < n && !Ready(log, i)
    ensures !Happened(log, Start(i, true))
    ensures sdp ==> !Happened(log, Sdp(true)) && forall k: nat :: !Happened(log, Start(k, true))
  {
    forall k | 0 <= k < |log| && log[k].Start? ensures log[k].i != i && !sdp {
      StartedAt(log, n, sdp, i, k);
    }
    forall k | 0 <= k < |log| ensures !log[k].Sdp? {
      if log[k].Sdp? {
        SdpAt(log, n, sdp, i, k);
      }
    }
  }

  lemma SdpAt(log: seq<Event>, n: nat, sdp: bool, i: nat, k: nat)
    requires InOrder(log, n, sdp) && i < n && !Ready(log, i) && k < |log|
    ensures !log[k].Sdp?
  {
    assert MayFollow(log[..k], log[k], n, sdp);
    assert !Ready(log[..k], i);
  }

  lemma StartedAt(log: seq<Event>, n: nat, sdp: bool, i: nat, k: nat)
    requires InOrder(log, n, sdp) && i < n && !Ready(log, i) && k < |log| && log[k].Start?
    ensures log[k].i != i && !sdp
  {
    assert MayFollow(log[..k], log[k], n, sdp);
    assert !Ready(log[..k], i);
    if sdp {
      var j :| 0 <= j < k && log[..k][j] == Sdp(true);
      SdpAt(log, n, sdp, i, j);
    }
  }

  /** Muxer i was just initialised: its task was not started, and with an SDP no task was. */
  ghost predicate Startable(log: seq<Event>, n: nat, sdp: bool, i: nat) {
    && i < n && Ready(log, i) && !Happened(log, Start(i, true))
    && (sdp ==> !Happened(log, Sdp(true)) && forall k: nat :: !Happened(log, Start(k, true)))
  }

  predicate OthersStarted(log: seq<Event>, n: nat, i: nat) {
    forall k | 0 <= k < n && k != i && Ready(log, k) :: Start(k, true) in log
  }

  lemma AppendInit(log: seq<Event>, i: nat, ok: bool, n: nat, sdp: bool)
    requires AtMostOnce(log) && InOrder(log, n, sdp) && i < n && !Happened(log, Init(i, true))
    ensures AtMostOnce(log + [Init(i, ok)]) && InOrder(log + [Init(i, ok)], n, sdp)
    ensures NbReady(log + [Init(i, ok)], n) == NbReady(log, n) + if ok then 1 else 0
  {
    Append(log, Init(i, ok), n, sdp);
    AppendReady(log, Init(i, ok), n);
  }

  lemma AppendInitStarts(log: seq<Event>, i: nat, ok: bool, n: nat, sdp: bool)
    requires InOrder(log, n, sdp) && i < n && !Happened(log, Init(i, true))
    ensures SameInits(log, log + [Init(i, ok)], i)
    ensures ok ==> Startable(log + [Init(i, ok)], n, sdp, i)
    ensures !sdp && Complete(log, n, sdp) ==> OthersStarted(log + [Init(i, ok)], n, i)
  {
    var log' := log + [Init(i, ok)];
    assert forall e: Event :: e in log' <==> e in log || e == Init(i, ok);
    assert !Ready(log, i);
    NotStartedYet(log, n, sdp, i);
  }

  /** A muxer's task starts after its muxer is initialised and, when an SDP is wanted,
      after it is written, by when every muxer is initialised. */
  lemma StartComesLast(log: seq<Event>, n: nat, sdp: bool, k: nat)
    requires InOrder(log, n, sdp) && k < |log| && log[k].Start?
    ensures exists j | 0 <= j < k :: log[j] == Init(log[k].i, true)
    ensures sdp ==> exists j | 0 <= j < k :: log[j] == Sdp(true) && AllReady(log[..j], n)
  {
    assert MayFollow(log[..k], log[k], n, sdp);
    var j :| 0 <= j < k && log[..k][j] == Init(log[k].i, true);
    assert log[j] == Init(log[k].i, true);
    if sdp {
      var j' :| 0 <= j' < k && log[..k][j'] == Sdp(true);
      assert MayFollow(log[..j'], log[j'], n, sdp);
    }
  }

  lemma InitsStay(a: seq<Event>, b: seq<Event>, c: seq<Event>)
    requires SameInits(a, b, -1) && SameInits(b, c, -1)
    ensures SameInits(a, c, -1)
  {
  }

  /** The muxers of the scheduler. */
  class Muxers {
    const nbStreams: seq<nat>
    const sdp: bool
    var nbStreamsReady: seq<nat>
    var nbMuxReady: nat
    /** sch_start was called. */
    var started: bool
    /** Some call returned an error. */
    var failed: bool
    var log: seq<Event>

    constructor (nbStreams: seq<nat>, sdp: bool)
      ensures Valid() && !started && this.nbStreams == nbStreams && this.sdp == sdp
      ensures forall i | 0 <= i < |nbStreams| :: nbStreamsReady[i] == 0
    {
      this.nbStreams, this.sdp := nbStreams, sdp;
      nbStreamsReady, nbMuxReady, started, failed, log := seq(|nbStreams|, _ => 0), 0, false, false, [];
    }

    ghost predicate Valid()
      reads this
    {
      && Sane()
      && (!started ==> log == [])
      && (started && !failed ==> Caught(|nbStreams|) && Complete(log, |nbStreams|, sdp))
    }

    ghost predicate Sane()
      reads this
    {
      && |nbStreamsReady| == |nbStreams|
      && (forall i | 0 <= i < |nbStreams| :: nbStreamsReady[i] <= nbStreams[i])
      && (forall k | 0 <= k < |log| && log[k].Init? :: AllStreamsReady(log[k].i))
      && AtMostOnce(log) && InOrder(log, |nbStreams|, sdp)
      && nbMuxReady == NbReady(log, |nbStreams|)
    }

    ghost predicate AllStreamsReady(i: nat)
      reads this
    {
      i < |nbStreamsReady| == |nbStreams| && nbStreamsReady[i] == nbStreams[i]
    }

    /** The first n muxers whose streams are all ready have been initialised. */
    ghost predicate Caught(n: nat)
      reads this
      requires n <= |nbStreams|
    {
      forall i | 0 <= i < n && AllStreamsReady(i) :: Ready(log, i)
    }

    /** An event that may or may not succeed. */
    method Record(e: Event)
      requires Sane() && !Happened(log, e) && MayFollow(log, e, |nbStreams|, sdp) && !e.Init?
      modifies this`log, this`failed
      ensures Sane() && log == old(log) + [e]
      ensures failed == (old(failed) || !e.ok)
    {
      Append(log, e, |nbStreams|, sdp);
      AppendReady(log, e, |nbStreams|);
      log := log + [e];
      failed := failed || !e.ok;
    }

    /** mux_task_start; the flush it does is MuxTaskStart of module PreMux. */
    method MuxTaskStart(i: nat) returns (ok: bool)
      requires Sane() && !Happened(log, Start(i, true)) && MayFollow(log, Start(i, true), |nbStreams|, sdp)
      modifies this`log, this`failed
      ensures Sane() && log == old(log) + [Start(i, ok)]
      ensures failed == (old(failed) || !ok)
    {
      ok := *;
      Record(Start(i, ok));
    }

    /** The callback that writes the header, and the count of muxers that have one. */
    method CallInit(i: nat) returns (ok: bool)
      requires Sane() && AllStreamsReady(i) && !Happened(log, Init(i, true))
      requires !failed ==> Complete(log, |nbStreams|, sdp)
      modifies this`log, this`failed, this`nbMuxReady
      ensures Sane() && log == old(log) + [Init(i, ok)] && SameInits(old(log), log, i)
      ensures failed == (old(failed) || !ok)
      ensures ok ==> Startable(log, |nbStreams|, sdp, i)
      ensures !sdp && !failed ==> OthersStarted(log, |nbStreams|, i)
    {
      ok := *;
      AppendInit(log, i, ok, |nbStreams|, sdp);
      AppendInitStarts(log, i, ok, |nbStreams|, sdp);
      log := log + [Init(i, ok)];
      if !ok {
        failed := true;
        return;
      }
      nbMuxReady := nbMuxReady + 1;
    }

    /** Start every task, up to the first that fails. */
    method StartAll() returns (ok: bool)
      requires Sane() && sdp && AllReady(log, |nbStreams|) && Sdp(true) in log
      requires forall k: nat :: !Happened(log, Start(k, true))
      modifies this`log, this`failed
      ensures Sane() && old(log) <= log && SameInits(old(log), log, -1)
      ensures failed == (old(failed) || !ok)
      ensures ok ==> AllStarted(log, |nbStreams|)
    {
      for i := 0 to |nbStreams|
        invariant Sane() && old(log) <= log && failed == old(failed)
        invariant SameInits(old(log), log, -1)
        invariant forall k: nat | i <= k :: !Happened(log, Start(k, true))
        invariant AllStarted(log, i)
      {
        ok := MuxTaskStart(i);
        if !ok {
          return;
        }
      }
      ok := true;
    }

    /** print_sdp. */
    method WriteSdp() returns (ok: bool)
      requires Sane() && sdp && AllReady(log, |nbStreams|) && !Happened(log, Sdp(true))
      modifies this`log, this`failed
      ensures Sane() && log == old(log) + [Sdp(ok)] && AllReady(log, |nbStreams|) && (ok ==> Sdp(true) in log)
      ensures SameInits(old(log), log, -1)
      ensures forall k: nat :: Happened(log, Start(k, true)) <==> old(Happened(log, Start(k, true)))
      ensures failed == (old(failed) || !ok)
    {
      ok := *;
      AppendReady(log, Sdp(ok), |nbStreams|);
      Record(Sdp(ok));
    }

    method WriteSdpAndStartAll() returns (ok: bool)
      requires Sane() && sdp && AllReady(log, |nbStreams|) && !Happened(log, Sdp(true))
      requires forall k: nat :: !Happened(log, Start(k, true))
      modifies this`log, this`failed
      ensures Sane() && old(log) <= log && SameInits(old(log), log, -1)
      ensures failed == (old(failed) || !ok)
      ensures ok ==> Sdp(true) in log && AllStarted(log, |nbStreams|)
    {
      hide Happened, Ready, SameInits, AtMostOnce, InOrder;
      ok := WriteSdp();
      ghost var was := log;
      if ok {
        ok := StartAll();
        InitsStay(old(log), was, log);
      }
    }

    /** The rest of mux_init: start what may be started now that muxer i is initialised. */
    method StartReady(i: nat) returns (ok: bool)
      requires Sane() && Startable(log, |nbStreams|, sdp, i)
      requires !sdp && !failed ==> OthersStarted(log, |nbStreams|, i)
      modifies this`log, this`failed
      ensures Sane() && old(log) <= log && SameInits(old(log), log, -1)
      ensures failed == (old(failed) || !ok)
      ensures !failed ==> Complete(log, |nbStreams|, sdp)
    {
      if sdp {
        CountIsComplete(log, |nbStreams|);
        if nbMuxReady < |nbStreams| {
          return true;
        }
        ok := WriteSdpAndStartAll();
      } else {
        ok := MuxTaskStart(i);
      }
    }

    /** mux_init: at most one of the calls it makes fails, and then it is the last. */
    method MuxInit(i: nat) returns (ok: bool)
      requires Sane() && AllStreamsReady(i) && !Happened(log, Init(i, true))
      requires !failed ==> Complete(log, |nbStreams|, sdp)
      modifies this`log, this`failed, this`nbMuxReady
      ensures Sane() && old(log) <= log && SameInits(old(log), log, i)
      ensures Happened(log, Init(i, true)) && (ok ==> Ready(log, i))
      ensures failed == (old(failed) || !ok)
      ensures !failed ==> Complete(log, |nbStreams|, sdp)
    {
      ok := CallInit(i);
      if ok {
        ok := StartReady(i);
      }
    }

    /** sch_mux_stream_ready: the last stream of a muxer initialises it, unless the
        scheduler is not started yet. */
    method StreamReady(i: nat) returns (ok: bool)
      requires Valid() && i < |nbStreams| && nbStreamsReady[i] < nbStreams[i]
      modifies this
      ensures Valid() && started == old(started) && old(log) <= log
      ensures nbStreamsReady == old(nbStreamsReady)[i := old(nbStreamsReady[i]) + 1]
      ensures failed == (old(failed) || !ok)
    {
      assert !Happened(log, Init(i, true));
      nbStreamsReady := nbStreamsReady[i := nbStreamsReady[i] + 1];
      ok := true;
      if nbStreamsReady[i] == nbStreams[i] && started {
        ok := MuxInit(i);
      }
    }

    /** The part of sch_start that initialises the muxers that are already complete. */
    method SchStart() returns (ok: bool)
      requires Valid() && !started
      modifies this
      ensures Valid() && started && nbStreamsReady == old(nbStreamsReady)
      ensures failed == (old(failed) || !ok)
    {
      started := true;
      assert !Ready(log, 0);
      for i := 0 to |nbStreams|
        invariant Sane() && nbStreamsReady == old(nbStreamsReady) && started && failed == old(failed)
        invariant forall k: nat | i <= k :: !Happened(log, Init(k, true))
        invariant !failed ==> Caught(i) && Complete(log, |nbStreams|, sdp)
      {
        if nbStreamsReady[i] == nbStreams[i] {
          ok := MuxInit(i);
          if !ok {
            return;
          }
        }
      }
      ok := true;
    }
  }
}
