/** sch_stop beside a scheduling update on another thread. An update runs under the
    schedule lock, tests the termination flag once, and then holds or releases tasks one by
    one; sch_stop sets the flag and holds every task without taking the lock.

    Every action is one read or write of shared data. Tasks are numbered with the
    demuxers first, as updates go through them. */
module Stopping {

  /** Where the update in progress stands, if there is one. */
  datatype Update =
    | Idle
    | Reading(i: nat)   // the loop that notes which tasks are held
    | Applying(i: nat)  // the loop that holds or releases tasks as marked
    | Freezing(i: nat)  // demuxer i was held or released, the queues behind it follow

  /** Where sch_stop stands; it holds the filtergraphs before the demuxers. */
  datatype Main =
    | Up
    | Holding(k: nat)
    | Opening(k: nat)   // the demuxer is held, the queues behind it are next
    | Done

  /** What was done, in order: an update began, the flag was set, sch_stop held a task or
      opened the queues behind it, an update held or released a task or froze or thawed
      the queues behind it. */
  datatype Event =
    | Tested
    | Stored
    | Held(i: nat)
    | Opened(i: nat)
    | Set(i: nat, held: bool)
    | Froze(i: nat, frozen: bool)

  /** prev and next are choked_prev and choked_next of the tasks; frozen tells of the queues
      behind each of the nbDemux demuxers. */
  datatype State = State(nbDemux: nat, held: seq<bool>, frozen: seq<bool>, prev: seq<bool>, next: seq<bool>,
                         terminate: bool, update: Update, main: Main, log: seq<Event>)

  datatype Action =
    | Test                    // an update begins
    | Read                    // it notes whether the next task is held
    | Mark(next: seq<bool>)   // it decides what is to run
    | Apply                   // it goes on to the next task
    | Freeze
    | Store                   // sch_stop sets the flag
    | Hold
    | Open

  ghost predicate Shaped(s: State) {
    && s.nbDemux <= |s.held| == |s.prev| == |s.next| && |s.frozen| == s.nbDemux
    && (s.update.Reading? ==> s.update.i <= |s.held|)
    && (s.update.Applying? ==> s.update.i <= |s.held|)
    && (s.update.Freezing? ==> s.update.i < s.nbDemux)
    && (s.main.Holding? ==> s.main.k <= |s.held|)
    && (s.main.Opening? ==> s.main.k < |s.held| && Task(s, s.main.k) < s.nbDemux)
  }

  /** The task that sch_stop comes to as its k-th. */
  function Task(s: State, k: nat): nat
    requires s.nbDemux <= |s.held| && k < |s.held|
  {
    if k < |s.held| - s.nbDemux then s.nbDemux + k else k - (|s.held| - s.nbDemux)
  }

  ghost predicate Enabled(s: State, a: Action)
    requires Shaped(s)
  {
    match a
    case Test => s.update == Idle
    case Read => s.update.Reading? && s.update.i < |s.held|
    case Mark(next) => s.update == Reading(|s.held|) && |next| == |s.held|
    case Apply => s.update.Applying?
    case Freeze => s.update.Freezing?
    case Store => s.main == Up
    case Hold => s.main.Holding?
    case Open => s.main.Opening?
  }

  function Log(s: State, e: Event): State {
    s.(log := s.log + [e])
  }

  ghost function Next(s: State, a: Action): State
    requires Shaped(s) && Enabled(s, a)
  {
    match a
    case Test => if s.terminate then s else Log(s, Tested).(update := Reading(0))
    case Read =>
      var i := s.update.i;
      s.(prev := s.prev[i := s.held[i]], update := Reading(i + 1))
    case Mark(next) => s.(next := next, update := Applying(0))
    case Apply =>
      var i := s.update.i;
      if i == |s.held| then s.(update := Idle)
      else if s.prev[i] == s.next[i] then s.(update := Applying(i + 1))
      else Log(s, Set(i, s.next[i])).(held := s.held[i := s.next[i]],
                                      update := if i < s.nbDemux then Freezing(i) else Applying(i + 1))
    case Freeze =>
      var i := s.update.i;
      Log(s, Froze(i, s.next[i])).(frozen := s.frozen[i := s.next[i]], update := Applying(i + 1))
    case Store => Log(s, Stored).(terminate := true, main := Holding(0))
    case Hold =>
      var k := s.main.k;
      if k == |s.held| then s.(main := Done)
      else
        var i := Task(s, k);
        Log(s, Held(i)).(held := s.held[i := true], main := if i < s.nbDemux then Opening(k) else Holding(k + 1))
    case Open =>
      var k := s.main.k;
      var i := Task(s, k);
      Log(s, Opened(i)).(frozen := s.frozen[i := false], main := Holding(k + 1))
  }

  ghost predicate IsStart(s: State) {
    Shaped(s) && s.update == Idle && s.main == Up && !s.terminate && s.log == []
  }

  ghost predicate IsRun(s: State, actions: seq<Action>, t: State)
    decreases |actions|
  {
    Shaped(s) &&
    if actions == [] then s == t
    else Enabled(s, actions[0]) && IsRun(Next(s, actions[0]), actions[1..], t)
  }

  // ---- What undoes what ----

  /** Some `b` comes after some `a`. */
  predicate Precedes(log: seq<Event>, a: Event, b: Event) {
    exists h, r :: 0 <= h < r < |log| && log[h] == a && log[r] == b
  }

  lemma PrecedesAppend(log: seq<Event>, e: Event, a: Event, b: Event)
    ensures Precedes(log + [e], a, b) <==> Precedes(log, a, b) || (e == b && a in log)
  {
    var log' := log + [e];
    if e == b && a in log {
      var h :| 0 <= h < |log| && log[h] == a;
      assert log'[h] == a && log'[|log|] == b;
    }
    if h, r :| 0 <= h < r < |log| && log[h] == a && log[r] == b {
      assert log'[h] == a && log'[r] == b;
    }
    if h, r :| 0 <= h < r < |log'| && log'[h] == a && log'[r] == b {
      assert r < |log| ==> log[h] == a && log[r] == b;
      assert log[h] == a;
    }
  }

  /** Task i was released by an update after sch_stop had held it. */
  predicate IsReleasedLate(log: seq<Event>, i: nat) {
    Precedes(log, Held(i), Set(i, false))
  }

  /** The queues behind demuxer i were frozen by an update after sch_stop had opened them. */
  predicate IsFrozenLate(log: seq<Event>, i: nat) {
    Precedes(log, Opened(i), Froze(i, true))
  }

  // ---- The invariant ----

  /** When sch_stop comes to task i. */
  function Turn(s: State, i: nat): nat
    requires s.nbDemux <= |s.held| && i < |s.held|
  {
    if i >= s.nbDemux then i - s.nbDemux else i + (|s.held| - s.nbDemux)
  }

  predicate HasHeld(s: State, i: nat)
    requires s.nbDemux <= |s.held| && i < |s.held|
  {
    match s.main
    case Up => false
    case Holding(k) => Turn(s, i) < k
    case Opening(k) => Turn(s, i) <= k
    case Done => true
  }

  predicate HasOpened(s: State, i: nat)
    requires s.nbDemux <= |s.held| && i < |s.held|
  {
    match s.main
    case Up => false
    case Holding(k) => Turn(s, i) < k
    case Opening(k) => Turn(s, i) < k
    case Done => true
  }

  /** The update in progress, if any, has nothing more to do with task i. */
  predicate IsPastTask(s: State, i: nat) {
    match s.update
    case Idle => true
    case Reading(_) => false
    case Applying(j) => i < j
    case Freezing(j) => i <= j
  }

  predicate IsPastQueues(s: State, i: nat) {
    match s.update
    case Idle => true
    case Reading(_) => false
    case Applying(j) => i < j
    case Freezing(j) => i < j
  }

  ghost predicate TaskGood(s: State, i: nat)
    requires Shaped(s) && i < |s.held|
  {
    && (Held(i) in s.log <==> HasHeld(s, i))
    && (HasHeld(s, i) ==> s.held[i] == !IsReleasedLate(s.log, i))
    && (IsReleasedLate(s.log, i) ==> HasHeld(s, i) && IsPastTask(s, i))
  }

  ghost predicate QueuesGood(s: State, i: nat)
    requires Shaped(s) && i < s.nbDemux
  {
    && (Opened(i) in s.log <==> HasOpened(s, i))
    && (HasOpened(s, i) ==> s.frozen[i] == IsFrozenLate(s.log, i))
    && (IsFrozenLate(s.log, i) ==> HasOpened(s, i) && IsPastQueues(s, i))
  }

  /** No update begins after the flag is set, and nothing is done outside an update or
      before the flag is set. */
  ghost predicate LogGood(s: State) {
    && (Stored in s.log <==> s.terminate) && (s.main == Up <==> !s.terminate)
    && !Precedes(s.log, Stored, Tested)
    && (s.update != Idle ==> Tested in s.log)
    && (forall e | e in s.log && (e.Set? || e.Froze?) :: Tested in s.log)
    && (forall e | e in s.log && (e.Held? || e.Opened?) :: Precedes(s.log, Stored, e))
  }

  ghost predicate Inv(s: State) {
    && Shaped(s) && LogGood(s)
    && (forall i | 0 <= i < |s.held| :: TaskGood(s, i))
    && (forall i | 0 <= i < s.nbDemux :: QueuesGood(s, i))
  }

  lemma StartHolds(s: State)
    requires IsStart(s)
    ensures Inv(s)
  {
  }

  lemma StepKeepsShape(s: State, a: Action)
    requires Shaped(s) && Enabled(s, a)
    ensures Shaped(Next(s, a)) && |Next(s, a).held| == |s.held| && Next(s, a).nbDemux == s.nbDemux
  {
  }

  /** What a step adds to the log, if anything. */
  lemma LogGrows(s: State, a: Action) returns (es: seq<Event>)
    requires Shaped(s) && Enabled(s, a)
    ensures |es| <= 1 && Next(s, a).log == s.log + es
  {
    es := Next(s, a).log[|s.log|..];
  }

  lemma StepKeepsLog(s: State, a: Action)
    requires Inv(s) && Enabled(s, a)
    ensures LogGood(Next(s, a))
  {
    var t := Next(s, a);
    var es := LogGrows(s, a);
    if es == [] {
      assert t.log == s.log;
    } else {
      var e := es[0];
      assert t.log == s.log + [e];
      PrecedesAppend(s.log, e, Stored, Tested);
      forall x | x in t.log && (x.Held? || x.Opened?) ensures Precedes(t.log, Stored, x) {
        PrecedesAppend(s.log, e, Stored, x);
      }
    }
  }

  /** The event that a step logs, and what it means for one task or the queues behind it. */
  lemma LogsAt(s: State, a: Action, first: Event, second: Event)
    requires Shaped(s) && Enabled(s, a)
    ensures Next(s, a).log != s.log ==>
              var e := Next(s, a).log[|s.log|];
              && (first in Next(s, a).log <==> first in s.log || e == first)
              && (Precedes(Next(s, a).log, first, second) <==>
                  Precedes(s.log, first, second) || (e == second && first in s.log))
    ensures |s.log| <= |Next(s, a).log|
    ensures Next(s, a).log != s.log ==> |Next(s, a).log| == |s.log| + 1
  {
    hide Precedes;
    var t := Next(s, a);
    var es := LogGrows(s, a);
    if es == [] {
      assert t.log == s.log;
    } else {
      assert t.log == s.log + [es[0]] && t.log[|s.log|] == es[0];
      PrecedesAppend(s.log, es[0], first, second);
    }
  }

  lemma HoldKeepsTask(s: State, a: Action, i: nat)
    requires Inv(s) && Enabled(s, a) && i < |s.held| && a == Hold
    ensures Shaped(Next(s, a)) && |Next(s, a).held| == |s.held| && TaskGood(Next(s, a), i)
  {
    hide Precedes;
    StepKeepsShape(s, a);
    assert TaskGood(s, i);
    LogsAt(s, a, Held(i), Set(i, false));
  }

  lemma ApplyKeepsTask(s: State, a: Action, i: nat)
    requires Inv(s) && Enabled(s, a) && i < |s.held| && a == Apply
    ensures Shaped(Next(s, a)) && |Next(s, a).held| == |s.held| && TaskGood(Next(s, a), i)
  {
    hide Precedes;
    StepKeepsShape(s, a);
    assert TaskGood(s, i);
    LogsAt(s, a, Held(i), Set(i, false));
  }

  lemma OtherKeepsTask(s: State, a: Action, i: nat)
    requires Inv(s) && Enabled(s, a) && i < |s.held| && a != Hold && a != Apply
    ensures Shaped(Next(s, a)) && |Next(s, a).held| == |s.held| && TaskGood(Next(s, a), i)
  {
    hide Precedes;
    StepKeepsShape(s, a);
    assert TaskGood(s, i);
    LogsAt(s, a, Held(i), Set(i, false));
  }

  lemma StepKeepsTask(s: State, a: Action, i: nat)
    requires Inv(s) && Enabled(s, a) && i < |s.held|
    ensures Shaped(Next(s, a)) && |Next(s, a).held| == |s.held| && TaskGood(Next(s, a), i)
  {
    hide TaskGood, Precedes;
    if a == Hold {
      HoldKeepsTask(s, a, i);
    } else if a == Apply {
      ApplyKeepsTask(s, a, i);
    } else {
      OtherKeepsTask(s, a, i);
    }
  }

  lemma OpenKeepsQueues(s: State, a: Action, i: nat)
    requires Inv(s) && Enabled(s, a) && i < s.nbDemux && (a == Open || a == Hold)
    ensures Shaped(Next(s, a)) && Next(s, a).nbDemux == s.nbDemux && QueuesGood(Next(s, a), i)
  {
    hide Precedes;
    StepKeepsShape(s, a);
    assert QueuesGood(s, i);
    LogsAt(s, a, Opened(i), Froze(i, true));
  }

  lemma UpdateKeepsQueues(s: State, a: Action, i: nat)
    requires Inv(s) && Enabled(s, a) && i < s.nbDemux && (a == Freeze || a == Apply)
    ensures Shaped(Next(s, a)) && Next(s, a).nbDemux == s.nbDemux && QueuesGood(Next(s, a), i)
  {
    hide Precedes;
    StepKeepsShape(s, a);
    assert QueuesGood(s, i);
    LogsAt(s, a, Opened(i), Froze(i, true));
  }

  lemma OtherKeepsQueues(s: State, a: Action, i: nat)
    requires Inv(s) && Enabled(s, a) && i < s.nbDemux && a != Open && a != Hold && a != Freeze && a != Apply
    ensures Shaped(Next(s, a)) && Next(s, a).nbDemux == s.nbDemux && QueuesGood(Next(s, a), i)
  {
    hide Precedes;
    StepKeepsShape(s, a);
    assert QueuesGood(s, i);
    LogsAt(s, a, Opened(i), Froze(i, true));
  }

  lemma StepKeepsQueues(s: State, a: Action, i: nat)
    requires Inv(s) && Enabled(s, a) && i < s.nbDemux
    ensures Shaped(Next(s, a)) && Next(s, a).nbDemux == s.nbDemux && QueuesGood(Next(s, a), i)
  {
    hide QueuesGood, Precedes;
    if a == Open || a == Hold {
      OpenKeepsQueues(s, a, i);
    } else if a == Freeze || a == Apply {
      UpdateKeepsQueues(s, a, i);
    } else {
      OtherKeepsQueues(s, a, i);
    }
  }

  lemma StepKeeps(s: State, a: Action)
    requires Inv(s) && Enabled(s, a)
    ensures Inv(Next(s, a))
  {
    StepKeepsShape(s, a);
    StepKeepsLog(s, a);
    forall i | 0 <= i < |s.held| ensures TaskGood(Next(s, a), i) {
      StepKeepsTask(s, a, i);
    }
    forall i | 0 <= i < s.nbDemux ensures QueuesGood(Next(s, a), i) {
      StepKeepsQueues(s, a, i);
    }
  }

  lemma {:induction false} RunKeeps(s: State, actions: seq<Action>, t: State)
    requires Inv(s) && IsRun(s, actions, t)
    ensures Inv(t) && |t.held| == |s.held| && t.nbDemux == s.nbDemux
    decreases |actions|
  {
    if actions != [] {
      StepKeepsShape(s, actions[0]);
      StepKeeps(s, actions[0]);
      RunKeeps(Next(s, actions[0]), actions[1..], t);
    }
  }

  // ---- Results ----

  /** Once sch_stop's loop is over, a task is not held exactly when an update released it
      after sch_stop had held it. */
  lemma HeldUnlessReleased(s: State, actions: seq<Action>, t: State, i: nat)
    requires IsStart(s) && IsRun(s, actions, t) && t.main == Done && i < |t.held|
    ensures !t.held[i] <==> IsReleasedLate(t.log, i)
  {
    StartHolds(s);
    RunKeeps(s, actions, t);
    assert TaskGood(t, i);
  }

  /** And the queues behind a demuxer are frozen exactly when an update froze them after
      sch_stop had opened them. */
  lemma OpenUnlessFrozen(s: State, actions: seq<Action>, t: State, i: nat)
    requires IsStart(s) && IsRun(s, actions, t) && t.main == Done && i < t.nbDemux
    ensures i < |t.frozen| && (t.frozen[i] <==> IsFrozenLate(t.log, i))
  {
    StartHolds(s);
    RunKeeps(s, actions, t);
    assert QueuesGood(t, i);
  }

  /** An update that does so tested the flag before sch_stop set it, and no other update
      begins after that. */
  lemma LateMeansTestedBefore(s: State, actions: seq<Action>, t: State, i: nat)
    requires IsStart(s) && IsRun(s, actions, t) && (IsReleasedLate(t.log, i) || IsFrozenLate(t.log, i))
    ensures Precedes(t.log, Tested, Stored) && !Precedes(t.log, Stored, Tested)
  {
    StartHolds(s);
    RunKeeps(s, actions, t);
    assert Tested in t.log && Stored in t.log;
    var a :| 0 <= a < |t.log| && t.log[a] == Tested;
    var b :| 0 <= b < |t.log| && t.log[b] == Stored;
    assert a < b || b < a;
  }

  // ---- Updates by themselves ----

  /** Before sch_stop begins, an update has noted whether task k is held once it has come so
      far, and then has held or released it as marked once it has come so far. */
  ghost predicate IsAsMarked(s: State, k: nat)
    requires Shaped(s) && k < |s.held|
  {
    s.main == Up ==>
      match s.update
      case Idle => true
      case Reading(i) => k < i ==> s.prev[k] == s.held[k]
      case Applying(i) => s.held[k] == if k < i then s.next[k] else s.prev[k]
      case Freezing(i) => s.held[k] == if k <= i then s.next[k] else s.prev[k]
  }

  /** The queues behind demuxer d are frozen when it is held, but for the one at hand. */
  ghost predicate IsFollowed(s: State, d: nat)
    requires Shaped(s) && d < s.nbDemux
  {
    s.main == Up && s.update != Freezing(d) ==> s.frozen[d] == s.held[d]
  }

  lemma StepAsMarked(s: State, a: Action, k: nat)
    requires Shaped(s) && Enabled(s, a) && k < |s.held| && IsAsMarked(s, k)
    ensures Shaped(Next(s, a)) && |Next(s, a).held| == |s.held| && IsAsMarked(Next(s, a), k)
  {
    StepKeepsShape(s, a);
  }

  lemma StepIsFollowed(s: State, a: Action, d: nat)
    requires Shaped(s) && Enabled(s, a) && d < s.nbDemux && IsAsMarked(s, d) && IsFollowed(s, d)
    ensures Shaped(Next(s, a)) && Next(s, a).nbDemux == s.nbDemux && IsFollowed(Next(s, a), d)
  {
    StepKeepsShape(s, a);
  }

  lemma {:induction false} RunAsMarked(s: State, actions: seq<Action>, t: State, k: nat)
    requires Shaped(s) && IsRun(s, actions, t) && k < |s.held| && IsAsMarked(s, k)
    ensures Shaped(t) && |t.held| == |s.held| && IsAsMarked(t, k)
    decreases |actions|
  {
    hide Next, Enabled, IsAsMarked;
    if actions != [] {
      StepAsMarked(s, actions[0], k);
      RunAsMarked(Next(s, actions[0]), actions[1..], t, k);
    }
  }

  lemma {:induction false} RunIsFollowed(s: State, actions: seq<Action>, t: State, d: nat)
    requires Shaped(s) && IsRun(s, actions, t) && d < s.nbDemux && IsAsMarked(s, d) && IsFollowed(s, d)
    ensures Shaped(t) && t.nbDemux == s.nbDemux && IsFollowed(t, d)
    decreases |actions|
  {
    hide Next, Enabled, IsAsMarked, IsFollowed;
    if actions != [] {
      StepAsMarked(s, actions[0], d);
      StepIsFollowed(s, actions[0], d);
      RunIsFollowed(Next(s, actions[0]), actions[1..], t, d);
    }
  }

  /** An update that comes to its end before sch_stop begins leaves held exactly the tasks it
      marked to be. */
  lemma AppliedAsMarked(s: State, actions: seq<Action>, t: State, k: nat)
    requires IsStart(s) && IsRun(s, actions, t) && k < |s.held|
    requires t.main == Up && t.update == Applying(|s.held|)
    ensures k < |t.held| == |t.next| && t.held[k] == t.next[k]
  {
    RunAsMarked(s, actions, t, k);
  }

  /** And the queues behind a demuxer are frozen exactly when it is held, if they were so at
      first, whenever no update is between the two. */
  lemma QueuesAsHeld(s: State, actions: seq<Action>, t: State, d: nat)
    requires IsStart(s) && IsRun(s, actions, t) && d < s.nbDemux && s.frozen[d] == s.held[d]
    requires t.main == Up && t.update != Freezing(d)
    ensures d < |t.frozen| && d < |t.held| && t.frozen[d] == t.held[d]
  {
    RunIsFollowed(s, actions, t, d);
  }

  // ---- What the tasks are told ----

  datatype Answer = GoOn | EndNow | Waits

  /** waiter_wait: a task that is not held does not look at the flag. */
  function WaiterWait(s: State, i: nat): Answer
    requires i < |s.held|
  {
    if !s.held[i] then GoOn else if s.terminate then EndNow else Waits
  }

  /** When sch_stop's loop is over and no update is left, nothing changes any more. */
  lemma {:induction false} SettledStays(t: State, actions: seq<Action>, u: State)
    requires Inv(t) && t.main == Done && t.update == Idle && IsRun(t, actions, u)
    ensures u == t
    decreases |actions|
  {
    if actions != [] {
      assert Next(t, actions[0]) == t;
      SettledStays(t, actions[1..], u);
    }
  }

  /** So from then on each task is told to end, whenever it asks, unless it was released
      late: that one is told to go on, whenever it asks. */
  lemma ToldForGood(s: State, actions: seq<Action>, t: State, more: seq<Action>, u: State, i: nat)
    requires IsStart(s) && IsRun(s, actions, t) && t.main == Done && t.update == Idle && i < |t.held|
    requires IsRun(t, more, u)
    ensures i < |u.held|
    ensures WaiterWait(u, i) == if IsReleasedLate(t.log, i) then GoOn else EndNow
  {
    StartHolds(s);
    RunKeeps(s, actions, t);
    SettledStays(t, more, u);
    HeldUnlessReleased(s, actions, t, i);
  }

  lemma {:induction false} Extend(s: State, actions: seq<Action>, t: State, a: Action, u: State)
    requires IsRun(s, actions, t) && Shaped(t) && Enabled(t, a) && Next(t, a) == u
    ensures IsRun(s, actions + [a], u)
    decreases |actions|
  {
    StepKeepsShape(t, a);
    if actions == [] {
      assert [a][1..] == [];
    } else {
      Extend(Next(s, actions[0]), actions[1..], t, a, u);
      assert (actions + [a])[1..] == actions[1..] + [a];
    }
  }

  lemma {:induction false} Join(s: State, actions: seq<Action>, t: State, more: seq<Action>, u: State)
    requires IsRun(s, actions, t) && IsRun(t, more, u)
    ensures IsRun(s, actions + more, u)
    decreases |actions|
  {
    if actions == [] {
      assert actions + more == more;
    } else {
      Join(Next(s, actions[0]), actions[1..], t, more, u);
      assert (actions + more)[1..] == actions[1..] + more;
    }
  }

  // A run with one demuxer, held at first.

  const FIRST := State(1, [true], [true], [true], [true], false, Idle, Up, [])
  const DECIDED := State(1, [true], [true], [true], [false], false, Applying(0), Up, [Tested])
  const STOPPED := State(1, [true], [false], [true], [false], true, Applying(0), Done,
                         [Tested, Stored, Held(0), Opened(0)])
  const RELEASED := State(1, [false], [false], [true], [false], true, Idle, Done,
                          [Tested, Stored, Held(0), Opened(0), Set(0, false), Froze(0, false)])

  lemma UpdateDecides()
    ensures IsRun(FIRST, [Test, Read, Mark([false])], DECIDED)
  {
    var s1 := FIRST.(log := [Tested], update := Reading(0));
    var s2 := s1.(update := Reading(1));
    Extend(FIRST, [], FIRST, Test, s1);
    Extend(FIRST, [Test], s1, Read, s2);
    Extend(FIRST, [Test, Read], s2, Mark([false]), DECIDED);
  }

  lemma StopHolds()
    ensures IsRun(DECIDED, [Store, Hold, Open, Hold], STOPPED)
  {
    var s1 := DECIDED.(log := [Tested, Stored], terminate := true, main := Holding(0));
    var s2 := s1.(log := [Tested, Stored, Held(0)], main := Opening(0));
    var s3 := STOPPED.(main := Holding(1));
    Extend(DECIDED, [], DECIDED, Store, s1);
    Extend(DECIDED, [Store], s1, Hold, s2);
    Extend(DECIDED, [Store, Hold], s2, Open, s3);
    Extend(DECIDED, [Store, Hold, Open], s3, Hold, STOPPED);
  }

  lemma UpdateReleases()
    ensures IsRun(STOPPED, [Apply, Freeze, Apply], RELEASED)
  {
    var s1 := STOPPED.(log := STOPPED.log + [Set(0, false)], held := [false], update := Freezing(0));
    var s2 := RELEASED.(update := Applying(1));
    Extend(STOPPED, [], STOPPED, Apply, s1);
    Extend(STOPPED, [Apply], s1, Freeze, s2);
    Extend(STOPPED, [Apply, Freeze], s2, Apply, RELEASED);
  }

  /** It does happen: an update finds the flag clear and decides to release the only
      demuxer, sch_stop sets the flag and holds the demuxer, and then the update releases
      it. */
  lemma MayBeReleasedLate() returns (actions: seq<Action>)
    ensures IsStart(FIRST) && IsRun(FIRST, actions, RELEASED)
    ensures RELEASED.main == Done && RELEASED.update == Idle && WaiterWait(RELEASED, 0) == GoOn
  {
    UpdateDecides();
    StopHolds();
    UpdateReleases();
    Join(FIRST, [Test, Read, Mark([false])], DECIDED, [Store, Hold, Open, Hold], STOPPED);
    actions := [Test, Read, Mark([false])] + [Store, Hold, Open, Hold];
    Join(FIRST, actions, STOPPED, [Apply, Freeze, Apply], RELEASED);
    actions := actions + [Apply, Freeze, Apply];
  }
}
