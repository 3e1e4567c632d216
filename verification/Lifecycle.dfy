/** Starting and stopping the tasks: which thread cleans up after which task, when the
    start may fail part-way and tasks may end at any time.

    Main runs sch_start and sch_stop; each started task is a thread of its own. Every
    action is atomic in the program. */
module Lifecycle {

  datatype Kind = Demux | Dec | Filter | Enc | Mux

  /** A thread that is Done has cleaned up after its task. */
  datatype Thread = NotStarted | Running | Done

  /** parented: the task belongs to the scheduler; a removed filtergraph does not.
      hasStreams: for a demuxer, that it has any. cleanups: calls of task_cleanup. */
  datatype Task = Task(kind: Kind, parented: bool, hasStreams: bool,
                       thread: Thread, threadRunning: bool, cleanups: nat)

  /** Where the main thread is: the loops of sch_start go through the tasks of one kind
      after the other, those of sch_stop through all. */
  datatype Main =
    | Uninit
    | Starting(kind: Kind, i: nat)
    | Up
    | Stopping(i: nat)
    | Stopped

  datatype State = State(tasks: seq<Task>, main: Main, nbMuxDone: nat)

  datatype Action =
    | Prepare(ok: bool)   // start_prepare
    | Start(ok: bool)     // the next step of the loops of sch_start
    | StartMux(m: nat)    // mux_task_start, by main or by a task whose stream became ready
    | MuxFails            // a muxer that main initialises fails
    | Finish(i: nat)      // a task function returns and its thread cleans up
    | Stop                // sch_stop is called
    | StopNext            // the next step of the loops of sch_stop

  function Rank(k: Kind): nat {
    match k { case Demux => 0 case Dec => 1 case Filter => 2 case Enc => 3 case Mux => 4 }
  }

  /** Tasks are listed in the order in which sch_stop visits them. */
  predicate IsLaidOut(tasks: seq<Task>) {
    forall i, j | 0 <= i < j < |tasks| :: Rank(tasks[i].kind) <= Rank(tasks[j].kind)
  }

  /** The loop of sch_start after that over kind k. */
  function NextLoop(k: Kind): Main {
    match k
    case Mux => Starting(Enc, 0)
    case Enc => Starting(Filter, 0)
    case Filter => Starting(Dec, 0)
    case Dec => Starting(Demux, 0)
    case Demux => Up
  }

  /** Whether sch_start creates a thread for the task in the loop over kind k. */
  predicate IsStarted(t: Task, k: Kind) {
    t.kind == k && k != Mux && t.parented && (k == Demux ==> t.hasStreams)
  }

  predicate Enabled(s: State, a: Action) {
    match a
    case Prepare(_) => s.main == Uninit
    case Start(_) => s.main.Starting?
    case StartMux(m) =>
      && m < |s.tasks| && s.tasks[m].kind == Mux && s.tasks[m].parented && s.tasks[m].thread == NotStarted
      && ((s.main.Starting? && s.main.kind == Mux) || SomeTaskRuns(s.tasks))
    case MuxFails => s.main.Starting? && s.main.kind == Mux
    case Finish(i) => i < |s.tasks| && s.tasks[i].thread == Running
    case Stop => s.main == Up
    case StopNext =>
      s.main.Stopping? && (s.main.i < |s.tasks| && s.tasks[s.main.i].threadRunning ==> s.tasks[s.main.i].thread == Done)
  }

  /** Only tasks other than muxers make the streams of a muxer ready. */
  predicate SomeTaskRuns(tasks: seq<Task>) {
    exists i | 0 <= i < |tasks| :: tasks[i].kind != Mux && tasks[i].thread == Running
  }

  function Set(s: State, i: nat, t: Task): State
    requires i < |s.tasks|
  {
    s.(tasks := s.tasks[i := t])
  }

  /** task_start. */
  function Started(t: Task): Task {
    t.(thread := Running, threadRunning := true)
  }

  /** task_cleanup: for a muxer, mux_done counts it. */
  function CleanUp(s: State, i: nat, thread: Thread): State
    requires i < |s.tasks|
  {
    var t := s.tasks[i];
    Set(s, i, t.(thread := thread, cleanups := t.cleanups + 1))
      .(nbMuxDone := if t.kind == Mux then s.nbMuxDone + 1 else s.nbMuxDone)
  }

  function Apply(s: State, a: Action): State
    requires Enabled(s, a)
  {
    match a
    case Prepare(ok) => if ok then s.(main := Starting(Mux, 0)) else s
    case Start(ok) =>
      var i := s.main.i;
      if i >= |s.tasks| then s.(main := NextLoop(s.main.kind))
      else if !IsStarted(s.tasks[i], s.main.kind) then s.(main := Starting(s.main.kind, i + 1))
      else if !ok then s.(main := Stopping(0))
      else Set(s, i, Started(s.tasks[i])).(main := Starting(s.main.kind, i + 1))
    case StartMux(m) => Set(s, m, Started(s.tasks[m]))
    case MuxFails => s.(main := Stopping(0))
    case Finish(i) => CleanUp(s, i, Done)
    case Stop => s.(main := Stopping(0))
    case StopNext =>
      var i := s.main.i;
      if i >= |s.tasks| then s.(main := Stopped)
      else
        var s' := s.(main := Stopping(i + 1));
        if !s.tasks[i].parented then s'
        else if !s.tasks[i].threadRunning then CleanUp(s', i, s.tasks[i].thread)
        else Set(s', i, s.tasks[i].(threadRunning := false)) // pthread_join
  }

  predicate IsStart(s: State) {
    && s.main == Uninit && s.nbMuxDone == 0 && IsLaidOut(s.tasks)
    && forall i | 0 <= i < |s.tasks| ::
         s.tasks[i].thread == NotStarted && !s.tasks[i].threadRunning && s.tasks[i].cleanups == 0
  }

  predicate IsRun(s: State, actions: seq<Action>, t: State)
    decreases |actions|
  {
    if actions == [] then s == t
    else Enabled(s, actions[0]) && IsRun(Apply(s, actions[0]), actions[1..], t)
  }

  // ---- The invariant ----

  /** sch_stop has been past task i. */
  predicate IsStopped(main: Main, i: nat) {
    main == Stopped || (main.Stopping? && i < main.i)
  }

  /** sch_start has yet to come to task i of a kind other than Mux. */
  predicate IsAhead(main: Main, kind: Kind, i: nat) {
    || main == Uninit
    || (main.Starting? && (Rank(kind) < Rank(main.kind) || (kind == main.kind && main.i <= i)))
  }

  /** sch_start has been past task i of a kind other than Mux, in the loop over its kind. */
  predicate IsBehind(main: Main, kind: Kind, i: nat) {
    || main == Up
    || (main.Starting? && (Rank(kind) > Rank(main.kind) || (kind == main.kind && i < main.i)))
  }

  /** Once sch_start is over the task is to have a thread; that of a muxer comes by itself. */
  predicate GetsThread(t: Task) {
    t.kind != Mux && t.parented && (t.kind == Demux ==> t.hasStreams)
  }

  ghost predicate Good(t: Task, main: Main, i: nat) {
    && (!t.parented ==> t.thread == NotStarted)
    && t.threadRunning == (t.thread != NotStarted && !IsStopped(main, i))
    && (IsStopped(main, i) ==> t.thread != Running)
    && t.cleanups == (if !t.parented || t.thread == Running then 0
                      else if t.thread == Done || IsStopped(main, i) then 1 else 0)
    && (t.kind != Mux && IsAhead(main, t.kind, i) ==> t.thread == NotStarted)
    && (main == Uninit ==> t.thread == NotStarted)
    && (GetsThread(t) && IsBehind(main, t.kind, i) ==> t.thread != NotStarted)
    && (t.kind != Mux && !GetsThread(t) ==> t.thread == NotStarted)
  }

  function MuxCleanups(tasks: seq<Task>): nat {
    if tasks == [] then 0
    else MuxCleanups(tasks[1..]) + if tasks[0].kind == Mux then tasks[0].cleanups else 0
  }

  lemma MuxCleanupsUpdate(tasks: seq<Task>, i: nat, t: Task)
    requires i < |tasks| && t.kind == tasks[i].kind
    ensures MuxCleanups(tasks[i := t]) ==
            MuxCleanups(tasks) + if t.kind == Mux then t.cleanups - tasks[i].cleanups else 0
  {
    if i == 0 {
      assert tasks[i := t][1..] == tasks[1..];
    } else {
      MuxCleanupsUpdate(tasks[1..], i - 1, t);
      assert tasks[i := t][1..] == tasks[1..][i - 1 := t];
    }
  }

  ghost predicate Inv(s: State) {
    && IsLaidOut(s.tasks)
    && (forall i | 0 <= i < |s.tasks| :: Good(s.tasks[i], s.main, i))
    && s.nbMuxDone == MuxCleanups(s.tasks)
    && (s.main.Starting? ==> s.main.i <= |s.tasks|)
    && (s.main.Stopping? ==> s.main.i <= |s.tasks|)
  }

  /** Task i changes and main moves from one place to the next. */
  lemma TaskStep(s: State, t: State, i: nat)
    requires Inv(s) && i < |s.tasks| == |t.tasks| && t.tasks == s.tasks[i := t.tasks[i]]
    requires t.tasks[i].kind == s.tasks[i].kind
    requires t.nbMuxDone == s.nbMuxDone +
             if s.tasks[i].kind == Mux then t.tasks[i].cleanups - s.tasks[i].cleanups else 0
    requires Good(t.tasks[i], t.main, i)
    requires forall k | 0 <= k < |s.tasks| && k != i :: Good(s.tasks[k], t.main, k)
    requires t.main.Starting? ==> t.main.i <= |s.tasks|
    requires t.main.Stopping? ==> t.main.i <= |s.tasks|
    ensures Inv(t)
  {
    MuxCleanupsUpdate(s.tasks, i, t.tasks[i]);
  }

  /** A muxer's task is not started once sch_stop has been past it. */
  lemma MuxNotStopped(s: State, m: nat)
    requires Inv(s) && Enabled(s, StartMux(m))
    ensures !IsStopped(s.main, m)
  {
    if !s.main.Starting? {
      var i :| 0 <= i < |s.tasks| && s.tasks[i].kind != Mux && s.tasks[i].thread == Running;
      assert Good(s.tasks[i], s.main, i);
      assert Rank(s.tasks[i].kind) < Rank(s.tasks[m].kind);
    }
  }

  lemma StartMuxKeeps(s: State, m: nat)
    requires Inv(s) && Enabled(s, StartMux(m))
    ensures Inv(Apply(s, StartMux(m)))
  {
    MuxNotStopped(s, m);
    assert Good(s.tasks[m], s.main, m);
    TaskStep(s, Apply(s, StartMux(m)), m);
  }

  /** The loop over a kind goes on past other tasks, or ends, or breaks off. */
  lemma LoopKeeps(t: Task, kind: Kind, i: nat, k: nat)
    requires Good(t, Starting(kind, i), k)
    ensures k != i ==> Good(t, Starting(kind, i + 1), k)
    ensures k < i ==> Good(t, NextLoop(kind), k)
    ensures Good(t, Stopping(0), k)
  {
  }

  lemma StartKeeps(s: State, ok: bool)
    requires Inv(s) && s.main.Starting?
    ensures Inv(Apply(s, Start(ok)))
  {
    var t := Apply(s, Start(ok));
    var i := s.main.i;
    forall k | 0 <= k < |s.tasks| && k != i ensures Good(s.tasks[k], t.main, k) {
      LoopKeeps(s.tasks[k], s.main.kind, i, k);
    }
    if i < |s.tasks| {
      LoopKeeps(s.tasks[i], s.main.kind, i, i);
      assert Good(t.tasks[i], t.main, i);
      hide Good;
      TaskStep(s, t, i);
    }
  }

  lemma FinishKeeps(s: State, i: nat)
    requires Inv(s) && Enabled(s, Finish(i))
    ensures Inv(Apply(s, Finish(i)))
  {
    assert Good(s.tasks[i], s.main, i);
    TaskStep(s, Apply(s, Finish(i)), i);
  }

  lemma StopNextKeeps(s: State)
    requires Inv(s) && Enabled(s, StopNext)
    ensures Inv(Apply(s, StopNext))
  {
    var i := s.main.i;
    if i < |s.tasks| {
      assert Good(s.tasks[i], s.main, i);
      TaskStep(s, Apply(s, StopNext), i);
    }
  }

  lemma StepKeeps(s: State, a: Action)
    requires Inv(s) && Enabled(s, a)
    ensures Inv(Apply(s, a))
  {
    match a
    case Prepare(ok) =>
    case Start(ok) => StartKeeps(s, ok);
    case StartMux(m) => StartMuxKeeps(s, m);
    case MuxFails =>
    case Finish(i) => FinishKeeps(s, i);
    case Stop =>
    case StopNext => StopNextKeeps(s);
  }

  lemma StartHolds(s: State)
    requires IsStart(s)
    ensures Inv(s)
  {
    NoCleanups(s.tasks);
  }

  lemma NoCleanups(tasks: seq<Task>)
    requires forall i | 0 <= i < |tasks| :: tasks[i].cleanups == 0
    ensures MuxCleanups(tasks) == 0
  {
  }

  /** The same tasks, whatever has become of them. */
  predicate SameTasks(s: seq<Task>, t: seq<Task>) {
    && |t| == |s|
    && forall i | 0 <= i < |s| ::
         t[i].kind == s[i].kind && t[i].parented == s[i].parented && t[i].hasStreams == s[i].hasStreams
  }

  lemma StepKeepsTasks(s: State, a: Action)
    requires Enabled(s, a)
    ensures SameTasks(s.tasks, Apply(s, a).tasks)
  {
  }

  lemma {:induction false} RunKeeps(s: State, actions: seq<Action>, t: State)
    requires Inv(s) && IsRun(s, actions, t)
    ensures Inv(t) && SameTasks(s.tasks, t.tasks)
    decreases |actions|
  {
    hide Inv, Apply;
    if actions != [] {
      StepKeeps(s, actions[0]);
      StepKeepsTasks(s, actions[0]);
      RunKeeps(Apply(s, actions[0]), actions[1..], t);
    }
  }

  // ---- Results ----

  /** In every run, however far the start got, a task is never cleaned up twice, and only
      a task with a parent is. */
  lemma AtMostOneCleanup(s: State, actions: seq<Action>, t: State, i: nat)
    requires IsStart(s) && IsRun(s, actions, t) && i < |t.tasks|
    ensures t.tasks[i].cleanups <= 1
    ensures !t.tasks[i].parented ==> t.tasks[i].cleanups == 0
  {
    StartHolds(s);
    RunKeeps(s, actions, t);
    assert Good(t.tasks[i], t.main, i);
  }

  /** After sch_stop exactly the tasks with a parent were cleaned up, each once, and no
      thread is left. */
  lemma StoppedMeansCleaned(s: State, actions: seq<Action>, t: State, i: nat)
    requires IsStart(s) && IsRun(s, actions, t) && i < |t.tasks| && t.main == Stopped
    ensures t.tasks[i].cleanups == if t.tasks[i].parented then 1 else 0
    ensures t.tasks[i].thread != Running && !t.tasks[i].threadRunning
  {
    StartHolds(s);
    RunKeeps(s, actions, t);
    assert Good(t.tasks[i], t.main, i);
  }

  /** When start_prepare fails nothing was started, and nothing is cleaned up. */
  lemma NothingBeforeStart(s: State, actions: seq<Action>, t: State, i: nat)
    requires IsStart(s) && IsRun(s, actions, t) && i < |t.tasks| && t.main == Uninit
    ensures t.tasks[i].cleanups == 0 && t.tasks[i].thread == NotStarted
  {
    StartHolds(s);
    RunKeeps(s, actions, t);
    assert Good(t.tasks[i], t.main, i);
  }

  function NbMux(tasks: seq<Task>): nat {
    if tasks == [] then 0 else NbMux(tasks[1..]) + if tasks[0].kind == Mux then 1 else 0
  }

  lemma CleanupsCount(tasks: seq<Task>)
    requires forall i | 0 <= i < |tasks| && tasks[i].kind == Mux :: tasks[i].cleanups <= 1
    ensures MuxCleanups(tasks) <= NbMux(tasks)
    ensures MuxCleanups(tasks) == NbMux(tasks) <==>
            forall i | 0 <= i < |tasks| && tasks[i].kind == Mux :: tasks[i].cleanups == 1
  {
    if tasks != [] {
      CleanupsCount(tasks[1..]);
      assert tasks == [tasks[0]] + tasks[1..];
    }
  }

  /** nb_mux_done never passes the number of muxers, and reaches it exactly when every
      muxer has been cleaned up. */
  lemma MuxDoneIsBounded(s: State, actions: seq<Action>, t: State)
    requires IsStart(s) && IsRun(s, actions, t)
    ensures t.nbMuxDone <= NbMux(t.tasks)
    ensures t.nbMuxDone == NbMux(t.tasks) <==>
            forall i | 0 <= i < |t.tasks| && t.tasks[i].kind == Mux :: t.tasks[i].cleanups == 1
  {
    StartHolds(s);
    RunKeeps(s, actions, t);
    forall i | 0 <= i < |t.tasks| ensures t.tasks[i].cleanups <= 1 {
      assert Good(t.tasks[i], t.main, i);
    }
    CleanupsCount(t.tasks);
  }

  /** When sch_stop returns, every muxer is done. */
  lemma StoppedMeansMuxDone(s: State, actions: seq<Action>, t: State)
    requires IsStart(s) && IsRun(s, actions, t) && t.main == Stopped
    requires forall i | 0 <= i < |t.tasks| && t.tasks[i].kind == Mux :: t.tasks[i].parented
    ensures t.nbMuxDone == NbMux(t.tasks)
  {
    MuxDoneIsBounded(s, actions, t);
    forall i | 0 <= i < |t.tasks| && t.tasks[i].kind == Mux ensures t.tasks[i].cleanups == 1 {
      StoppedMeansCleaned(s, actions, t, i);
    }
  }

  /** sch_start never creates a second thread for a task. */
  lemma StartFindsNoThread(s: State, actions: seq<Action>, t: State)
    requires IsStart(s) && IsRun(s, actions, t) && t.main.Starting? && t.main.i < |t.tasks|
    requires IsStarted(t.tasks[t.main.i], t.main.kind)
    ensures !t.tasks[t.main.i].threadRunning && t.tasks[t.main.i].thread == NotStarted
  {
    StartHolds(s);
    RunKeeps(s, actions, t);
    assert Good(t.tasks[t.main.i], t.main, t.main.i);
  }

  /** When sch_start returns, exactly these tasks have been started, besides muxers': those
      with a parent but for demuxers without streams. */
  lemma UpMeansStarted(s: State, actions: seq<Action>, t: State, i: nat)
    requires IsStart(s) && IsRun(s, actions, t) && i < |t.tasks| && t.main == Up && t.tasks[i].kind != Mux
    ensures t.tasks[i].thread != NotStarted <==>
            t.tasks[i].parented && (t.tasks[i].kind == Demux ==> t.tasks[i].hasStreams)
  {
    StartHolds(s);
    RunKeeps(s, actions, t);
    assert Good(t.tasks[i], t.main, i);
  }

  /** Task i has not been started, or task j has. */
  predicate After(s: State, i: nat, j: nat)
    requires i < |s.tasks| && j < |s.tasks|
  {
    s.tasks[i].thread == NotStarted || s.tasks[j].thread != NotStarted
  }

  lemma StepKeepsAfter(s: State, a: Action, i: nat, j: nat)
    requires Inv(s) && Enabled(s, a) && i < |s.tasks| && j < |s.tasks| && After(s, i, j)
    requires GetsThread(s.tasks[j]) && Rank(s.tasks[i].kind) < Rank(s.tasks[j].kind)
    ensures |Apply(s, a).tasks| == |s.tasks| && After(Apply(s, a), i, j)
  {
    assert Good(s.tasks[j], s.main, j);
  }

  lemma {:induction false} RunKeepsAfter(s: State, actions: seq<Action>, t: State, i: nat, j: nat)
    requires Inv(s) && IsRun(s, actions, t) && i < |s.tasks| && j < |s.tasks| && After(s, i, j)
    requires GetsThread(s.tasks[j]) && Rank(s.tasks[i].kind) < Rank(s.tasks[j].kind)
    ensures |t.tasks| == |s.tasks| && After(t, i, j)
    decreases |actions|
  {
    hide Inv, Apply;
    if actions != [] {
      StepKeeps(s, actions[0]);
      StepKeepsTasks(s, actions[0]);
      StepKeepsAfter(s, actions[0], i, j);
      RunKeepsAfter(Apply(s, actions[0]), actions[1..], t, i, j);
    }
  }

  /** Whatever fails, a task is started only after all those it may send to: encoders come
      before filtergraphs, these before decoders, and demuxers last. */
  lemma ConsumersFirst(s: State, actions: seq<Action>, t: State, i: nat, j: nat)
    requires IsStart(s) && IsRun(s, actions, t) && i < |t.tasks| && j < |t.tasks|
    requires Rank(t.tasks[i].kind) < Rank(t.tasks[j].kind) && t.tasks[j].kind != Mux && t.tasks[j].parented
    ensures t.tasks[i].thread != NotStarted ==> t.tasks[j].thread != NotStarted
  {
    StartHolds(s);
    RunKeeps(s, actions, t);
    RunKeepsAfter(s, actions, t, i, j);
  }

  /** sch_stop waits only for a thread that still runs. */
  lemma StopWaitsForThread(s: State, actions: seq<Action>, t: State)
    requires IsStart(s) && IsRun(s, actions, t) && t.main.Stopping?
    ensures Enabled(t, StopNext) || Enabled(t, Finish(t.main.i))
  {
    StartHolds(s);
    RunKeeps(s, actions, t);
    if t.main.i < |t.tasks| {
      assert Good(t.tasks[t.main.i], t.main, t.main.i);
    }
  }
}
