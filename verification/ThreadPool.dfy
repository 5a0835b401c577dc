/** The thread pool as a monitor: any number of workers and producers around one mutex and one condition
    variable, and the call of Join that ends it. */
module ThreadPool {

  /** A worker before its lock, inside it, blocked in the wait, running a task, or returned. */
  datatype Worker = Top | Inside | Waiting | Running(task: nat) | Exited

  datatype Owner = Nobody | ByWorker(w: nat) | ByProducer(task: nat) | ByJoin

  /** Join has set the flag but not notified yet (`Owes`), is joining the threads, or has returned. */
  datatype JoinPc = NotCalled | Owes | Joining | Returned

  /** `owed` counts producers that pushed but did not call notify_one yet.  The last three fields are history:
      tasks accepted by enqueue, taken by workers, and run to the end. */
  datatype State = State(workers: seq<Worker>, tasks: seq<nat>, stop: bool, mutex: Owner, owed: nat, join: JoinPc,
                         accepted: seq<nat>, taken: seq<nat>, ran: seq<nat>)

  function Init(n: nat): State {
    State(seq(n, _ => Top), [], false, Nobody, 0, NotCalled, [], [], [])
  }

  datatype Action =
    | ProducerLock(task: nat)
    | ProducerPush
    | NotifyOne(w: nat)
    | Spurious(w: nat)
    | WorkerLock(w: nat)
    | WorkerStep(w: nat)
    | Finish(w: nat)
    | JoinLock
    | JoinStop
    | NotifyAll
    | JoinReturn

  predicate NoneWaiting(ws: seq<Worker>) {
    forall i :: 0 <= i < |ws| ==> !ws[i].Waiting?
  }

  predicate AllExited(ws: seq<Worker>) {
    forall i :: 0 <= i < |ws| ==> ws[i].Exited?
  }

  predicate Enabled(s: State, a: Action) {
    match a
    case ProducerLock(task) => s.mutex.Nobody? && task !in s.accepted
    case ProducerPush => s.mutex.ByProducer?
    case NotifyOne(w) => s.owed > 0 && if NoneWaiting(s.workers) then true else w < |s.workers| && s.workers[w].Waiting?
    case Spurious(w) => w < |s.workers| && s.workers[w].Waiting?
    case WorkerLock(w) => w < |s.workers| && s.workers[w].Top? && s.mutex.Nobody?
    case WorkerStep(w) => w < |s.workers| && s.workers[w].Inside? && s.mutex == ByWorker(w)
    case Finish(w) => w < |s.workers| && s.workers[w].Running?
    case JoinLock => s.join.NotCalled? && s.mutex.Nobody?
    case JoinStop => s.mutex.ByJoin?
    case NotifyAll => s.join.Owes?
    case JoinReturn => s.join.Joining? && AllExited(s.workers)
  }

  function WakeAll(ws: seq<Worker>): (r: seq<Worker>)
    ensures |r| == |ws|
    ensures forall i :: 0 <= i < |ws| ==> r[i] == if ws[i].Waiting? then Top else ws[i]
  {
    seq(|ws|, i requires 0 <= i < |ws| => if ws[i].Waiting? then Top else ws[i])
  }

  /** The locked part of a worker's loop, from the wait predicate to the release of the mutex. */
  function OnWorkerStep(s: State, w: nat): State
    requires w < |s.workers|
  {
    var released := s.(mutex := Nobody);
    if !s.stop && s.tasks == [] then released.(workers := s.workers[w := Waiting])
    else if s.tasks == [] then released.(workers := s.workers[w := Exited])
    else released.(workers := s.workers[w := Running(s.tasks[0])], tasks := s.tasks[1..],
                   taken := s.taken + [s.tasks[0]])
  }

  /** A producer inside the lock: rejected once the pool is stopped. */
  function OnProducerPush(s: State): State
    requires s.mutex.ByProducer?
  {
    var released := s.(mutex := Nobody);
    if s.stop then released
    else released.(tasks := s.tasks + [s.mutex.task], accepted := s.accepted + [s.mutex.task], owed := s.owed + 1)
  }

  function Apply(s: State, a: Action): State
    requires Enabled(s, a)
  {
    match a
    case ProducerLock(task) => s.(mutex := ByProducer(task))
    case ProducerPush => OnProducerPush(s)
    case NotifyOne(w) =>
      s.(owed := s.owed - 1, workers := if NoneWaiting(s.workers) then s.workers else s.workers[w := Top])
    case Spurious(w) => s.(workers := s.workers[w := Top])
    case WorkerLock(w) => s.(workers := s.workers[w := Inside], mutex := ByWorker(w))
    case WorkerStep(w) => OnWorkerStep(s, w)
    case Finish(w) => s.(workers := s.workers[w := Top], ran := s.ran + [s.workers[w].task])
    case JoinLock => s.(mutex := ByJoin)
    case JoinStop => s.(mutex := Nobody, stop := true, join := Owes)
    case NotifyAll => s.(workers := WakeAll(s.workers), join := Joining)
    case JoinReturn => s.(join := Returned)
  }

  ghost predicate Next(s: State, t: State) {
    exists a :: Enabled(s, a) && t == Apply(s, a)
  }

  ghost predicate Moves(path: seq<State>, i: nat)
    requires i + 1 < |path|
  {
    Next(path[i], path[i + 1])
  }

  ghost predicate Run(path: seq<State>) {
    path != [] && forall i {:trigger Moves(path, i)} :: 0 <= i < |path| - 1 ==> Moves(path, i)
  }

  ghost predicate Reaches(s: State, t: State) {
    exists path :: Run(path) && path[0] == s && path[|path| - 1] == t
  }

  /** Reachable by a pool of `n` workers. */
  ghost predicate Reachable(n: nat, s: State) {
    Reaches(Init(n), s)
  }

  // ---------------------------------------------------------------------------------------------------
  // Counting workers

  predicate IsAwake(p: Worker) {
    p.Top? || p.Inside?
  }

  /** Workers that are neither asleep, busy nor gone. */
  function Awake(ws: seq<Worker>): nat {
    if ws == [] then 0 else Awake(ws[..|ws| - 1]) + if IsAwake(ws[|ws| - 1]) then 1 else 0
  }

  predicate Runs(p: Worker, task: nat) {
    p.Running? && p.task == task
  }

  /** How many workers are running `task`. */
  function RunningOn(ws: seq<Worker>, task: nat): nat {
    if ws == [] then 0 else RunningOn(ws[..|ws| - 1], task) + if Runs(ws[|ws| - 1], task) then 1 else 0
  }

  function Steps(p: Worker): nat {
    match p
    case Running(_) => 3
    case Top => 2
    case Inside => 1
    case _ => 0
  }

  function TotalSteps(ws: seq<Worker>): nat {
    if ws == [] then 0 else TotalSteps(ws[..|ws| - 1]) + Steps(ws[|ws| - 1])
  }

  lemma {:induction false} UpdateCounts(ws: seq<Worker>, i: nat, p: Worker)
    requires i < |ws|
    ensures Awake(ws[i := p]) + (if IsAwake(ws[i]) then 1 else 0) == Awake(ws) + (if IsAwake(p) then 1 else 0)
    ensures TotalSteps(ws[i := p]) + Steps(ws[i]) == TotalSteps(ws) + Steps(p)
  {
    var n := |ws| - 1;
    if i < n {
      assert ws[i := p][..n] == ws[..n][i := p];
      UpdateCounts(ws[..n], i, p);
    } else {
      assert ws[i := p][..n] == ws[..n];
    }
  }

  lemma {:induction false} UpdateRunning(ws: seq<Worker>, i: nat, p: Worker, task: nat)
    requires i < |ws|
    ensures RunningOn(ws[i := p], task) + (if Runs(ws[i], task) then 1 else 0)
         == RunningOn(ws, task) + (if Runs(p, task) then 1 else 0)
  {
    var n := |ws| - 1;
    if i < n {
      assert ws[i := p][..n] == ws[..n][i := p];
      UpdateRunning(ws[..n], i, p, task);
    } else {
      assert ws[i := p][..n] == ws[..n];
    }
  }

  lemma {:induction false} WakeAllRunning(ws: seq<Worker>, task: nat)
    ensures RunningOn(WakeAll(ws), task) == RunningOn(ws, task)
  {
    if ws != [] {
      var n := |ws| - 1;
      assert WakeAll(ws)[..n] == WakeAll(ws[..n]);
      WakeAllRunning(ws[..n], task);
    }
  }

  lemma {:induction false} NobodyRuns(ws: seq<Worker>, task: nat)
    requires forall w :: 0 <= w < |ws| ==> !ws[w].Running?
    ensures RunningOn(ws, task) == 0
  {
    if ws != [] {
      NobodyRuns(ws[..|ws| - 1], task);
    }
  }

  // ---------------------------------------------------------------------------------------------------
  // What every action keeps

  ghost predicate Exclusive(s: State) {
    && (forall w :: 0 <= w < |s.workers| && s.workers[w].Inside? ==> s.mutex == ByWorker(w))
    && (s.mutex.ByWorker? ==> s.mutex.w < |s.workers| && s.workers[s.mutex.w].Inside?)
    && (s.mutex.ByProducer? ==> s.mutex.task !in s.accepted)
    && (s.mutex.ByJoin? ==> s.join.NotCalled?)
    && (s.stop <==> !s.join.NotCalled?)
  }

  ghost predicate Distinct(xs: seq<nat>) {
    forall i, j :: 0 <= i < j < |xs| ==> xs[i] != xs[j]
  }

  ghost predicate Queued(s: State) {
    s.accepted == s.taken + s.tasks && Distinct(s.accepted)
  }

  /** A task that was taken is running or has run, as often as it was taken. */
  ghost predicate Accounted(s: State, task: nat) {
    multiset(s.taken)[task] == RunningOn(s.workers, task) + multiset(s.ran)[task]
  }

  /** While somebody sleeps, every queued task has its own wake-up: a notification still to come or a worker on
      its way to the queue.  After Join has notified, nobody sleeps. */
  ghost predicate Woken(s: State) {
    && (!NoneWaiting(s.workers) ==> |s.tasks| <= s.owed + Awake(s.workers))
    && (s.stop && !NoneWaiting(s.workers) ==> s.join.Owes?)
  }

  ghost predicate Ended(s: State) {
    && ((exists w :: 0 <= w < |s.workers| && s.workers[w].Exited?) ==> s.stop && s.tasks == [])
    && (s.join.Returned? ==> AllExited(s.workers))
  }

  ghost predicate Inv(n: nat, s: State) {
    |s.workers| == n && Exclusive(s) && Queued(s) && Woken(s) && Ended(s) && forall task :: Accounted(s, task)
  }

  lemma ExclusiveStep(s: State, a: Action)
    requires Enabled(s, a) && Exclusive(s)
    ensures Exclusive(Apply(s, a))
  {
  }

  lemma QueuedStep(s: State, a: Action)
    requires Enabled(s, a) && Exclusive(s) && Queued(s)
    ensures Queued(Apply(s, a))
  {
  }

  lemma AccountedStep(s: State, a: Action, task: nat)
    requires Enabled(s, a) && Exclusive(s) && Accounted(s, task)
    ensures Accounted(Apply(s, a), task)
  {
    hide RunningOn;
    match a
    case WorkerStep(w) => UpdateRunning(s.workers, w, OnWorkerStep(s, w).workers[w], task);
    case Finish(w) => UpdateRunning(s.workers, w, Top, task);
    case NotifyOne(w) => if !NoneWaiting(s.workers) { UpdateRunning(s.workers, w, Top, task); }
    case Spurious(w) => UpdateRunning(s.workers, w, Top, task);
    case WorkerLock(w) => UpdateRunning(s.workers, w, Inside, task);
    case NotifyAll => WakeAllRunning(s.workers, task);
    case _ =>
  }

  lemma WokenStep(s: State, a: Action)
    requires Enabled(s, a) && Exclusive(s) && Ended(s) && Woken(s)
    ensures Woken(Apply(s, a))
  {
    hide Awake, TotalSteps;
    match a
    case WorkerStep(w) => UpdateCounts(s.workers, w, OnWorkerStep(s, w).workers[w]);
    case NotifyOne(w) => if !NoneWaiting(s.workers) { UpdateCounts(s.workers, w, Top); }
    case Spurious(w) => UpdateCounts(s.workers, w, Top);
    case WorkerLock(w) => UpdateCounts(s.workers, w, Inside);
    case Finish(w) => UpdateCounts(s.workers, w, Top);
    case _ =>
  }

  lemma EndedStep(s: State, a: Action)
    requires Enabled(s, a) && Exclusive(s) && Ended(s)
    ensures Ended(Apply(s, a))
  {
  }

  lemma InvStep(n: nat, s: State, a: Action)
    requires Enabled(s, a) && Inv(n, s)
    ensures Inv(n, Apply(s, a))
  {
    ExclusiveStep(s, a);
    QueuedStep(s, a);
    forall task ensures Accounted(Apply(s, a), task) {
      AccountedStep(s, a, task);
    }
    WokenStep(s, a);
    EndedStep(s, a);
  }

  lemma InvInit(n: nat)
    ensures Inv(n, Init(n))
  {
    forall task ensures Accounted(Init(n), task) {
      NobodyRuns(Init(n).workers, task);
    }
  }

  lemma {:induction false} InvAlong(n: nat, path: seq<State>, i: nat)
    requires Run(path) && Inv(n, path[0]) && i < |path|
    ensures Inv(n, path[i])
  {
    if i > 0 {
      InvAlong(n, path, i - 1);
      assert Moves(path, i - 1);
      var a :| Enabled(path[i - 1], a) && path[i] == Apply(path[i - 1], a);
      InvStep(n, path[i - 1], a);
    }
  }

  lemma InvReachable(n: nat, s: State)
    requires Reachable(n, s)
    ensures Inv(n, s)
  {
    InvInit(n);
    hide Inv;
    var path :| Run(path) && path[0] == Init(n) && path[|path| - 1] == s;
    InvAlong(n, path, |path| - 1);
  }

  // ---------------------------------------------------------------------------------------------------
  // Results

  /** Tasks are taken in the order they were accepted, and each accepted task is queued, running on one worker, or
      has run once; which of the three adds up over any schedule. */
  lemma TaskConservation(n: nat, s: State, task: nat)
    requires Reachable(n, s)
    ensures s.taken <= s.accepted
    ensures multiset(s.tasks)[task] + RunningOn(s.workers, task) + multiset(s.ran)[task]
      == if task in s.accepted then 1 else 0
  {
    InvReachable(n, s);
    OccursOnce(s.accepted, task);
    assert Accounted(s, task);
    assert multiset(s.accepted) == multiset(s.taken) + multiset(s.tasks);
  }

  lemma {:induction false} OccursOnce(xs: seq<nat>, x: nat)
    requires Distinct(xs)
    ensures multiset(xs)[x] == if x in xs then 1 else 0
  {
    if xs != [] {
      var front, last := xs[..|xs| - 1], xs[|xs| - 1];
      assert xs == front + [last];
      OccursOnce(front, x);
    }
  }

  /** After Join returned, every accepted task has run, exactly once, and none is left, if the pool has a worker. */
  lemma JoinDrains(n: nat, s: State)
    requires n > 0 && Reachable(n, s) && s.join.Returned?
    ensures s.tasks == [] && s.taken == s.accepted
    ensures multiset(s.ran) == multiset(s.accepted) && Distinct(s.accepted)
  {
    InvReachable(n, s);
    assert s.workers[0].Exited?;
    forall task ensures multiset(s.ran)[task] == multiset(s.accepted)[task] {
      NobodyRuns(s.workers, task);
      assert Accounted(s, task);
    }
  }

  /** A pool drains on Join, whatever the schedule, exactly when it was built with a worker. */
  lemma JoinDrainsIff(n: nat)
    ensures (forall s :: Reachable(n, s) && s.join.Returned? ==> multiset(s.ran) == multiset(s.accepted)) <==> n > 0
  {
    if n > 0 {
      forall s | Reachable(n, s) && s.join.Returned? ensures multiset(s.ran) == multiset(s.accepted) {
        JoinDrains(n, s);
      }
    } else {
      var s := EmptyPoolLosesTask();
      assert multiset(s.accepted)[0] == 1;
    }
  }

  lemma EmptyPoolLosesTask() returns (s: State)
    ensures Reachable(0, s) && s.join.Returned? && s.accepted == [0] && s.ran == []
  {
    s := Init(0);
    assert Run([s]);
    s := Then(0, s, ProducerLock(0));
    s := Then(0, s, ProducerPush);
    s := Then(0, s, JoinLock);
    s := Then(0, s, JoinStop);
    s := Then(0, s, NotifyAll);
    s := Then(0, s, JoinReturn);
  }

  lemma Then(n: nat, s: State, a: Action) returns (t: State)
    requires Reachable(n, s) && Enabled(s, a)
    ensures t == Apply(s, a) && Reachable(n, t)
  {
    t := Apply(s, a);
    var path :| Run(path) && path[0] == Init(n) && path[|path| - 1] == s;
    var longer := path + [t];
    forall i | 0 <= i < |longer| - 1 ensures Moves(longer, i) {
      if i < |path| - 1 {
        assert Moves(path, i);
      }
    }
    assert Run(longer);
  }

  /** Once the pool is stopped nothing more is accepted. */
  lemma NothingAcceptedAfterStop(s: State, t: State)
    requires s.stop && Reaches(s, t)
    ensures t.stop && t.accepted == s.accepted
  {
    var path :| Run(path) && path[0] == s && path[|path| - 1] == t;
    StoppedAlong(path, |path| - 1);
  }

  lemma {:induction false} StoppedAlong(path: seq<State>, i: nat)
    requires Run(path) && path[0].stop && i < |path|
    ensures path[i].stop && path[i].accepted == path[0].accepted
  {
    if i > 0 {
      StoppedAlong(path, i - 1);
      assert Moves(path, i - 1);
    }
  }

  /** No lost wake-up: while a worker sleeps there are never more queued tasks than notifications to come plus
      workers on their way to the queue; so if all sleep and a task is queued, a producer has yet to notify, and
      if a worker sleeps in a stopped pool, Join has. */
  lemma NoLostWakeUp(n: nat, s: State)
    requires Reachable(n, s) && !NoneWaiting(s.workers)
    ensures |s.tasks| <= s.owed + Awake(s.workers)
    ensures s.tasks != [] && (forall w :: 0 <= w < n ==> w < |s.workers| && s.workers[w].Waiting?) ==> s.owed > 0
    ensures s.stop ==> s.join.Owes?
  {
    InvReachable(n, s);
    if forall w :: 0 <= w < n ==> s.workers[w].Waiting? {
      NobodyAwake(s.workers);
    }
  }

  lemma {:induction false} NobodyAwake(ws: seq<Worker>)
    requires forall w :: 0 <= w < |ws| ==> ws[w].Waiting?
    ensures Awake(ws) == 0
  {
    if ws != [] {
      NobodyAwake(ws[..|ws| - 1]);
    }
  }

  // ---------------------------------------------------------------------------------------------------
  // Shutdown comes to an end

  predicate ByWorkers(a: Action) {
    a.WorkerLock? || a.WorkerStep? || a.Finish?
  }

  /** Worker actions still to come. */
  function Remaining(s: State): nat {
    4 * |s.tasks| + TotalSteps(s.workers)
  }

  predicate ShuttingDown(s: State) {
    s.join.Joining? || s.join.Returned?
  }

  /** Once Join waits for the threads, each worker action leaves strictly fewer of them, and no other action adds
      one: not a producer, not a notification, not a spurious wake-up. */
  lemma ShutdownStep(n: nat, s: State, a: Action)
    requires Inv(n, s) && ShuttingDown(s) && Enabled(s, a)
    ensures ShuttingDown(Apply(s, a))
    ensures if ByWorkers(a) then Remaining(Apply(s, a)) < Remaining(s) else Remaining(Apply(s, a)) == Remaining(s)
  {
    hide Awake, TotalSteps;
    match a
    case WorkerLock(w) => UpdateCounts(s.workers, w, Inside);
    case WorkerStep(w) => UpdateCounts(s.workers, w, OnWorkerStep(s, w).workers[w]);
    case Finish(w) => UpdateCounts(s.workers, w, Top);
    case _ =>
  }

  lemma WorkersProgress(n: nat, s: State, a: Action)
    requires Reachable(n, s) && ShuttingDown(s) && Enabled(s, a)
    ensures if ByWorkers(a) then Remaining(Apply(s, a)) < Remaining(s) else Remaining(Apply(s, a)) == Remaining(s)
  {
    InvReachable(n, s);
    ShutdownStep(n, s, a);
  }

  /** The states that `actions` lead through. */
  ghost predicate Performs(path: seq<State>, actions: seq<Action>) {
    && |path| == |actions| + 1
    && forall i :: 0 <= i < |actions| ==> Performed(path[i], actions[i], path[i + 1])
  }

  ghost predicate Performed(s: State, a: Action, t: State) {
    Enabled(s, a) && t == Apply(s, a)
  }

  function WorkerActions(actions: seq<Action>): nat {
    if actions == [] then 0
    else WorkerActions(actions[..|actions| - 1]) + if ByWorkers(actions[|actions| - 1]) then 1 else 0
  }

  /** However the run goes on once Join waits, its worker actions are at most those that remained then. */
  lemma ShutdownBounded(n: nat, path: seq<State>, actions: seq<Action>)
    requires Performs(path, actions) && Reachable(n, path[0]) && path[0].join.Joining?
    ensures WorkerActions(actions) + Remaining(path[|actions|]) <= Remaining(path[0])
  {
    InvReachable(n, path[0]);
    ShutdownAlong(n, path, actions);
  }

  lemma {:induction false} ShutdownAlong(n: nat, path: seq<State>, actions: seq<Action>)
    requires Performs(path, actions) && Inv(n, path[0]) && ShuttingDown(path[0])
    ensures Inv(n, path[|actions|]) && ShuttingDown(path[|actions|])
    ensures WorkerActions(actions) + Remaining(path[|actions|]) <= Remaining(path[0])
    decreases |actions|
  {
    hide Inv, Enabled, Apply, Remaining;
    if actions != [] {
      var k := |actions| - 1;
      assert Performs(path[..k + 1], actions[..k]) by {
        forall i | 0 <= i < k ensures Performed(path[..k + 1][i], actions[..k][i], path[..k + 1][i + 1]) {
          assert Performed(path[i], actions[i], path[i + 1]);
        }
      }
      ShutdownAlong(n, path[..k + 1], actions[..k]);
      assert Performed(path[k], actions[k], path[k + 1]);
      ShutdownStep(n, path[k], actions[k]);
      InvStep(n, path[k], actions[k]);
    }
  }

  /** While Join waits for the threads it is never stuck: unless all have exited, some worker can act, or a
      producer holds the lock and can leave it. */
  lemma ShutdownNeverStuck(n: nat, s: State)
    requires Reachable(n, s) && s.join.Joining? && !AllExited(s.workers)
    ensures exists a :: Enabled(s, a) && (ByWorkers(a) || a == ProducerPush)
  {
    InvReachable(n, s);
    var w :| 0 <= w < |s.workers| && !s.workers[w].Exited?;
    match s.workers[w] {
      case Running(_) => assert Enabled(s, Finish(w));
      case Inside => assert Enabled(s, WorkerStep(w));
      case Top =>
        match s.mutex {
          case Nobody => assert Enabled(s, WorkerLock(w));
          case ByWorker(v) => assert Enabled(s, WorkerStep(v));
          case ByProducer(_) => assert Enabled(s, ProducerPush);
          case ByJoin => assert false;
        }
      case Waiting => assert false;
    }
  }
}
