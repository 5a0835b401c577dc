/** The thread pool in the form of the source: one object, its locked sections as methods, and between any two
    steps of one thread any number of steps by the others.  `Valid` says that the fields are a state the monitor
    reaches, so the results about reachable states hold at every point. */
module PoolObject {
  import opened ThreadPool

  datatype Outcome = StillWaiting | Ran(task: nat) | Left

  /** What the others can change while the thread `me` is between two steps. */
  ghost predicate Undisturbed(me: Owner, s: State, t: State) {
    && |t.workers| == |s.workers|
    && (me.ByWorker? && me.w < |s.workers| ==>
         t.workers[me.w] == s.workers[me.w] || (s.workers[me.w].Waiting? && t.workers[me.w].Top?))
    && (!me.Nobody? && s.mutex == me ==>
          t.mutex == me && t.tasks == s.tasks && t.stop == s.stop && t.accepted == s.accepted && t.owed <= s.owed)
    && (s.stop ==> t.stop && t.accepted == s.accepted)
    && (me.ByJoin? ==> t.join == s.join)
    && s.accepted <= t.accepted && s.taken <= t.taken && s.ran <= t.ran
  }

  class Pool {
    const size: nat
    var workers: seq<Worker>
    var tasks: seq<nat>
    var stop: bool
    var mutex: Owner
    var owed: nat
    var join: JoinPc
    var accepted: seq<nat>
    ghost var taken: seq<nat>
    ghost var ran: seq<nat>

    ghost function View(): State
      reads this
    {
      State(workers, tasks, stop, mutex, owed, join, accepted, taken, ran)
    }

    ghost predicate Valid()
      reads this
    {
      Reachable(size, View())
    }

    constructor (threads: nat)
      ensures size == threads && Valid() && View() == Init(threads)
    {
      size := threads;
      workers, tasks, stop := seq(threads, _ => Top), [], false;
      mutex, owed, join := Nobody, 0, NotCalled;
      accepted, taken, ran := [], [], [];
      new;
      assert Run([Init(threads)]);
    }

    // -------------------------------------------------------------------------------------------------
    // Atomic steps

    method LockForProducer(task: nat)
      requires Valid() && mutex.Nobody? && task !in accepted
      modifies this
      ensures Valid() && View() == Apply(old(View()), ProducerLock(task))
    {
      ghost var t := Then(size, View(), ProducerLock(task));
      mutex := ByProducer(task);
    }

    /** The locked part of `enqueue`: refuse when stopped, else push. */
    method Push() returns (taken: bool)
      requires Valid() && mutex.ByProducer?
      modifies this
      ensures Valid() && View() == OnProducerPush(old(View())) && taken == !stop
    {
      ghost var t := Then(size, View(), ProducerPush);
      taken := !stop;
      if !stop {
        tasks, accepted, owed := tasks + [mutex.task], accepted + [mutex.task], owed + 1;
      }
      mutex := Nobody;
    }

    /** `notify_one`: wakes the sleeper `w` if anybody sleeps. */
    method NotifyOneWorker(w: nat)
      requires Valid() && Enabled(View(), NotifyOne(w))
      modifies this
      ensures Valid() && View() == Apply(old(View()), NotifyOne(w))
    {
      ghost var t := Then(size, View(), NotifyOne(w));
      owed := owed - 1;
      if !NoneWaiting(workers) {
        workers := workers[w := Top];
      }
    }

    method WakeSpuriously(w: nat)
      requires Valid() && w < |workers| && workers[w].Waiting?
      modifies this
      ensures Valid() && View() == Apply(old(View()), Spurious(w))
    {
      ghost var t := Then(size, View(), Spurious(w));
      workers := workers[w := Top];
    }

    method LockForWorker(w: nat)
      requires Valid() && w < |workers| && workers[w].Top? && mutex.Nobody?
      modifies this
      ensures Valid() && View() == Apply(old(View()), WorkerLock(w))
    {
      ghost var t := Then(size, View(), WorkerLock(w));
      workers, mutex := workers[w := Inside], ByWorker(w);
    }

    /** The locked part of the worker's loop. */
    method LockedSection(w: nat)
      requires Valid() && w < |workers| && workers[w].Inside? && mutex == ByWorker(w)
      modifies this
      ensures Valid() && View() == OnWorkerStep(old(View()), w)
    {
      ghost var t := Then(size, View(), WorkerStep(w));
      if !stop && tasks == [] {
        workers := workers[w := Waiting];
      } else if stop && tasks == [] {
        workers := workers[w := Exited];
      } else {
        var task := tasks[0];
        tasks := tasks[1..];
        taken := taken + [task];
        workers := workers[w := Running(task)];
      }
      mutex := Nobody;
    }

    method FinishTask(w: nat)
      requires Valid() && w < |workers| && workers[w].Running?
      modifies this
      ensures Valid() && View() == Apply(old(View()), Finish(w))
    {
      ghost var t := Then(size, View(), Finish(w));
      ran := ran + [workers[w].task];
      workers := workers[w := Top];
    }

    method LockForJoin()
      requires Valid() && mutex.Nobody? && join.NotCalled?
      modifies this
      ensures Valid() && View() == Apply(old(View()), JoinLock)
    {
      ghost var t := Then(size, View(), JoinLock);
      mutex := ByJoin;
    }

    method SetStop()
      requires Valid() && mutex.ByJoin?
      modifies this
      ensures Valid() && View() == Apply(old(View()), JoinStop)
    {
      ghost var t := Then(size, View(), JoinStop);
      mutex, stop, join := Nobody, true, Owes;
    }

    method NotifyEveryone()
      requires Valid() && join.Owes?
      modifies this
      ensures Valid() && View() == Apply(old(View()), NotifyAll)
    {
      ghost var t := Then(size, View(), NotifyAll);
      workers, join := WakeAll(workers), Joining;
    }

    /** One step by somebody other than `me`. */
    method InterfereOnce(me: Owner)
      requires Valid()
      modifies this
      ensures Valid() && Undisturbed(me, old(View()), View())
    {
      hide Reachable;
      InvReachable(size, View());
      hide Inv;
      var w: nat := *;
      var task: nat := *;
      if {
        case true =>
        case mutex.Nobody? && task !in accepted => LockForProducer(task);
        case mutex.ByProducer? && mutex != me => var taken := Push();
        case owed > 0 && (NoneWaiting(workers) || (0 <= w < |workers| && workers[w].Waiting?)) => NotifyOneWorker(w);
        case 0 <= w < |workers| && workers[w].Waiting? => WakeSpuriously(w);
        case 0 <= w < |workers| && me != ByWorker(w) && workers[w].Top? && mutex.Nobody? => LockForWorker(w);
        case 0 <= w < |workers| && me != ByWorker(w) && workers[w].Inside? && mutex == ByWorker(w) => LockedSection(w);
        case 0 <= w < |workers| && me != ByWorker(w) && workers[w].Running? => FinishTask(w);
        case !me.ByJoin? && mutex.Nobody? && join.NotCalled? => LockForJoin();
        case !me.ByJoin? && mutex.ByJoin? => SetStop();
        case !me.ByJoin? && join.Owes? => NotifyEveryone();
      }
    }

    /** Any number of steps by others. */
    method Interfere(me: Owner)
      requires Valid()
      modifies this
      ensures Valid() && Undisturbed(me, old(View()), View())
    {
      hide Reachable;
      var steps: nat := *;
      while steps > 0
        invariant Valid() && Undisturbed(me, old(View()), View())
      {
        InterfereOnce(me);
        steps := steps - 1;
      }
    }

    // -------------------------------------------------------------------------------------------------
    // The calls

    /** `enqueue`, from the moment the mutex is granted: false stands for the exception of a stopped pool.  The call
        leaves no notification owed: if a worker slept at the moment of the push, one of the sleepers `at` that moment
        is on its way. */
    method Enqueue(task: nat) returns (pushed: bool, ghost at: seq<Worker>)
      requires Valid() && mutex.Nobody? && task !in accepted
      modifies this
      ensures Valid() && (pushed ==> task in accepted && !old(stop))
      ensures pushed == !stop && (!pushed ==> task !in accepted)
      ensures pushed ==> tasks == old(tasks) + [task] && accepted == old(accepted) + [task]
      ensures !pushed ==> tasks == old(tasks) && accepted == old(accepted) && workers == at
      ensures owed <= old(owed)
      ensures pushed && NoneWaiting(at) ==> workers == at
      ensures pushed && !NoneWaiting(at) ==> exists w: nat :: w < |at| && at[w].Waiting? && workers == at[w := Top]
    {
      hide Reachable;
      LockForProducer(task);
      Interfere(ByProducer(task));
      at := workers;
      pushed := Push();
      if pushed {
        if NoneWaiting(workers) {
          NotifyOneWorker(0);
        } else {
          var w: nat :| w < |workers| && workers[w].Waiting?;
          NotifyOneWorker(w);
        }
      }
    }

    /** A worker that was granted the mutex: sleep, leave, or take the first task, release the mutex and run it. */
    method Attempt(w: nat) returns (outcome: Outcome)
      requires Valid() && w < |workers| && workers[w].Top? && mutex.Nobody?
      modifies this
      ensures Valid() && w < |workers|
      ensures outcome == if old(tasks) != [] then Ran(old(tasks)[0]) else if old(stop) then Left else StillWaiting
      ensures outcome.StillWaiting? ==> workers[w].Waiting? && |ran| >= |old(ran)|
      ensures outcome.Left? ==> workers[w].Exited? && stop && tasks == []
      ensures outcome.Ran? ==>
        workers[w].Top? && |ran| > |old(ran)| && ran[|ran| - 1] == outcome.task && outcome.task in accepted
    {
      hide Reachable;
      LockForWorker(w);
      Interfere(ByWorker(w));
      LockedSection(w);
      if workers[w].Exited? {
        return Left;
      }
      if workers[w].Running? {
        var task := workers[w].task;
        Interfere(ByWorker(w));
        FinishTask(w);
        RunWasAccepted(size, View(), task);
        return Ran(task);
      }
      return StillWaiting;
    }

    /** One round of a worker's endless loop: wait for a task, take it and run it, or leave when the pool is stopped
        and empty.  `patience` bounds the attempts followed; a worker that finds the mutex free and its wait over
        does not need a second one. */
    method WorkerRound(w: nat, patience: nat) returns (outcome: Outcome)
      requires Valid() && w < |workers| && (workers[w].Top? || workers[w].Waiting?)
      modifies this
      ensures Valid() && w < |workers|
      ensures outcome.StillWaiting? ==> workers[w].Top? || workers[w].Waiting?
      ensures patience > 0 && old(workers[w].Top? && mutex.Nobody? && tasks != []) ==> outcome == Ran(old(tasks)[0])
      ensures patience > 0 && old(workers[w].Top? && mutex.Nobody? && stop && tasks == []) ==> outcome == Left
      ensures outcome.Left? ==> workers[w].Exited? && stop && tasks == []
      ensures outcome.Ran? ==>
        workers[w].Top? && |ran| > |old(ran)| && ran[|ran| - 1] == outcome.task && outcome.task in accepted
    {
      hide Reachable;
      var left := patience;
      while left > 0
        invariant Valid() && w < |workers| && (workers[w].Top? || workers[w].Waiting?) && |ran| >= |old(ran)|
        invariant left <= patience && (left == patience ==> View() == old(View()))
        invariant left < patience && old(workers[w].Top? && mutex.Nobody?) ==> old(tasks) == [] && !old(stop)
      {
        left := left - 1;
        if workers[w].Top? && mutex.Nobody? {
          outcome := Attempt(w);
          if !outcome.StillWaiting? {
            return;
          }
        }
        Interfere(ByWorker(w));
      }
      return StillWaiting;
    }

    /** `Join`, from the moment the mutex is granted: stop, notify all, so that nobody sleeps any more, and wait for the
        threads; false means that they had not all returned within the attempts followed. */
    method Join(patience: nat) returns (joined: bool)
      requires Valid() && mutex.Nobody? && join.NotCalled?
      modifies this
      ensures Valid() && stop && NoneWaiting(workers)
      ensures join == (if joined then Returned else Joining) && (joined <==> AllExited(workers))
      ensures joined && size > 0 ==> tasks == [] && taken == accepted && multiset(ran) == multiset(accepted)
    {
      hide Reachable;
      LockForJoin();
      Interfere(ByJoin);
      SetStop();
      Interfere(ByJoin);
      NotifyEveryone();
      var left := patience;
      while left > 0 && !AllExited(workers)
        invariant Valid() && stop && join.Joining?
      {
        Interfere(ByJoin);
        left := left - 1;
      }
      NobodySleeps(size, View());
      if !AllExited(workers) {
        return false;
      }
      ghost var t := Then(size, View(), JoinReturn);
      join := Returned;
      if size > 0 {
        JoinDrains(size, View());
      }
      return true;
    }
  }

  lemma NobodySleeps(n: nat, s: State)
    requires Reachable(n, s) && s.stop && !s.join.Owes?
    ensures NoneWaiting(s.workers)
  {
    if !NoneWaiting(s.workers) {
      NoLostWakeUp(n, s);
    }
  }

  lemma RunWasAccepted(n: nat, s: State, task: nat)
    requires Reachable(n, s) && task in s.ran
    ensures task in s.accepted
  {
    TaskConservation(n, s, task);
    assert task in multiset(s.ran);
  }
}
