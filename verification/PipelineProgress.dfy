/** What becomes of the worker once Stop has set its flag: its own actions run out, and it is never stuck on the way. */
module PipelineProgress {
  import opened Requests
  import opened Completions
  import opened Pipeline
  import opened PipelineInvariants
  import opened PipelineTheorems

  /** Actions of the driving thread. */
  predicate ByDriver(a: Action) {
    match a
    case Enqueue(_, _) | Notify | RaiseStop | NotifyAll | StopConsumption | Spurious | Post(_) => false
    case CallSubmit(_, _) | CallFlush | CallReap => false
    case _ => true
  }

  /** Whatever the driving thread is in the middle of, it can go on unless it sleeps, has returned, or waits for a
      caller. */
  lemma DriverNeverStuck(c: Config, s: State)
    requires Reachable(c, s) && !s.th.pc.Blocked? && !s.th.pc.Exited? && !s.th.pc.Idle?
    ensures exists a :: ByDriver(a) && Enabled(c, s, a)
  {
    ControlKnown(c, s);
    hide Reachable, Patient, Heard;
    match s.th.pc
    case Lock => assert Enabled(c, s, Acquire);
    case Check => assert Enabled(c, s, CheckWait);
    case Parking => assert Enabled(c, s, Park);
    case Draining => assert Enabled(c, s, DrainNext);
    case Deciding => assert Enabled(c, s, Decide);
    case Getting => assert Enabled(c, s, TakeSqe);
    case Resubmitting => assert Enabled(c, s, Submit(|s.rings.sq|));
    case Flushing => assert Enabled(c, s, Submit(|s.rings.sq|));
    case Failing => assert Enabled(c, s, Fail);
    case Reaping => assert Enabled(c, s, Gate);
    case Waiting => assert Enabled(c, s, Reap(false, 0));
    case Handling => assert Enabled(c, s, if s.th.seen < s.th.peeked then HandleNext else Advance);
    case _ =>
  }

  lemma ControlKnown(c: Config, s: State)
    requires Reachable(c, s)
    ensures Moded(c, s) && RingOrder(c, s) && Patient(s) && Heard(s)
  {
    InvReachable(c, s);
  }

  /** Most actions one round of completion processing inside `GetSqe` can take, the submit included. */
  function RoundCost(c: Config): nat {
    c.maxDrain + 5
  }

  /** Most actions that many rounds can take. */
  function Ahead(c: Config, rounds: nat): nat {
    if rounds == 0 then 0 else RoundCost(c) + Ahead(c, rounds - 1)
  }

  /** Actions of the worker still to come once the sink is stopped. */
  function Remaining(c: Config, th: Thread): nat {
    match th.pc
    case Exited | Idle => 0
    case Deciding => 1
    case Draining | Failing => 2
    case Check => 3
    case Lock => 4
    case Blocked => 5
    case Parking => 6
    case Getting => 3 + Ahead(c, Rounds(th))
    case Resubmitting => 2 + Ahead(c, Rounds(th))
    case Reaping => if th.call.NoCall? then c.maxDrain + 7 else 1 + Ahead(c, Rounds(th))
    case Waiting => if th.call.NoCall? then c.maxDrain + 6 else Ahead(c, Rounds(th))
    case Handling =>
      (if th.call.NoCall? then 5 else 4 + if Rounds(th) > 0 then Ahead(c, Rounds(th) - 1) else 0) + Unseen(th)
    case Flushing => c.maxDrain + 8
  }

  /** Rounds `GetSqe` can still make, the current one included. */
  function Rounds(th: Thread): nat {
    if th.call.InGetSqe? && th.call.t < MAX_TRY then MAX_TRY - th.call.t else 0
  }

  function Unseen(th: Thread): nat {
    if th.seen < th.peeked then th.peeked - th.seen else 0
  }

  lemma {:induction false} AheadGrows(c: Config, i: nat, j: nat)
    requires i <= j
    ensures Ahead(c, i) + (j - i) * RoundCost(c) == Ahead(c, j)
  {
    if i < j {
      AheadGrows(c, i, j - 1);
    }
  }

  lemma ThreadBound(c: Config, th: Thread)
    requires th.pc.Handling? ==> th.peeked <= c.maxDrain
    ensures Remaining(c, th) <= 3 + MAX_TRY * RoundCost(c)
  {
    AheadGrows(c, 0, MAX_TRY);
    AheadGrows(c, Rounds(th), MAX_TRY);
    if Rounds(th) > 0 {
      AheadGrows(c, Rounds(th) - 1, MAX_TRY);
    }
    hide Ahead;
  }

  /** No state of the worker is further from its end than that. */
  lemma RemainingBound(c: Config, s: State)
    requires Reachable(c, s)
    ensures Remaining(c, s.th) <= 3 + MAX_TRY * RoundCost(c)
  {
    ControlKnown(c, s);
    hide Reachable, Moded, Patient, Heard, Remaining;
    ThreadBound(c, s.th);
  }

  /** The thread returned exactly when nothing is left to do. */
  lemma NothingRemains(c: Config, s: State)
    requires c.threaded && Reachable(c, s)
    ensures Remaining(c, s.th) == 0 <==> s.th.pc.Exited?
  {
    ControlKnown(c, s);
    assert s.th.pc.Waiting? && s.th.call.InGetSqe? ==> Rounds(s.th) > 0;
  }

  // ---------------------------------------------------------------------------------------------------
  // One action of a stopped worker

  lemma LeaveRemains(c: Config, th: Thread)
    requires c.threaded && (th.call.InGetSqe? ==> th.call.t < MAX_TRY)
    ensures Remaining(c, Leave(c, th)) <= if th.call.NoCall? then 4 else 3 + Ahead(c, Rounds(th) - 1)
  {
    hide Ahead;
  }

  /** Completion processing, wherever it was called from. */
  predicate InReap(a: Action) {
    a.Gate? || a.Reap? || a.HandleNext? || a.Advance?
  }

  lemma StoppedReapStep(c: Config, s: State, a: Action)
    requires Enabled(c, s, a) && c.threaded && InReap(a)
    requires RingOrder(c, s) && Patient(s)
    ensures Remaining(c, Apply(c, s, a).th) < Remaining(c, s.th)
  {
    hide Deliver;
    LeaveRemains(c, s.th);
    hide Ahead, Leave;
    if a.HandleNext? {
      assert Apply(c, s, a).th == s.th.(seen := s.th.seen + 1);
    } else if a.Reap? && a.found {
      assert Apply(c, s, a).th == s.th.(pc := Handling, seen := 0, peeked := Min(Visible(c, s), a.limit));
    } else {
      assert Apply(c, s, a).th == Leave(c, s.th) || (a.Gate? && Apply(c, s, a).th == At(s.th, Waiting));
    }
    hide Apply, Enabled;
  }

  lemma StoppedStep(c: Config, s: State, a: Action)
    requires Enabled(c, s, a) && c.threaded && s.sink.stop
    requires Moded(c, s) && RingOrder(c, s) && Patient(s)
    ensures if ByDriver(a) then Remaining(c, Apply(c, s, a).th) < Remaining(c, s.th)
      else Remaining(c, Apply(c, s, a).th) <= Remaining(c, s.th)
  {
    if InReap(a) {
      StoppedReapStep(c, s, a);
      hide Apply, Remaining;
    } else {
      hide Links, More, Deliver, SetException, Fresh, Ahead;
    }
  }

  lemma StopStays(c: Config, s: State, a: Action)
    requires Enabled(c, s, a) && s.sink.stop
    ensures Apply(c, s, a).sink.stop
  {
    hide Links, More, Deliver, SetException, Fresh;
  }

  // ---------------------------------------------------------------------------------------------------
  // Whole runs

  /** Moves from one state to the next by `a`. */
  ghost predicate Performed(c: Config, s: State, a: Action, t: State) {
    Enabled(c, s, a) && t == Apply(c, s, a)
  }

  /** The states that `actions` lead through. */
  ghost predicate Performs(c: Config, path: seq<State>, actions: seq<Action>) {
    && |path| == |actions| + 1
    && forall i :: 0 <= i < |actions| ==> Performed(c, path[i], actions[i], path[i + 1])
  }

  function DriverActions(actions: seq<Action>): nat {
    if actions == [] then 0
    else DriverActions(actions[..|actions| - 1]) + if ByDriver(actions[|actions| - 1]) then 1 else 0
  }

  lemma {:induction false} StoppedAlong(c: Config, path: seq<State>, actions: seq<Action>)
    requires c.threaded && Performs(c, path, actions) && Reachable(c, path[0]) && path[0].sink.stop
    ensures Reachable(c, path[|actions|]) && path[|actions|].sink.stop
    ensures DriverActions(actions) + Remaining(c, path[|actions|].th) <= Remaining(c, path[0].th)
    decreases |actions|
  {
    hide Reachable, Enabled, Apply, Remaining;
    if actions != [] {
      var k := |actions| - 1;
      assert Performs(c, path[..k + 1], actions[..k]) by {
        forall i | 0 <= i < k ensures Performed(c, path[..k + 1][i], actions[..k][i], path[..k + 1][i + 1]) {
          assert Performed(c, path[i], actions[i], path[i + 1]);
        }
      }
      StoppedAlong(c, path[..k + 1], actions[..k]);
      assert Performed(c, path[k], actions[k], path[k + 1]);
      ControlKnown(c, path[k]);
      hide Moded, RingOrder, Patient, Heard;
      StoppedStep(c, path[k], actions[k]);
      StopStays(c, path[k], actions[k]);
      var t := Then(c, path[k], actions[k]);
    }
  }

  /** Once Stop has set its flag, whatever the others do, the worker takes a bounded number of actions, and with that
      many it has returned. */
  lemma StopReachesExit(c: Config, path: seq<State>, actions: seq<Action>)
    requires c.threaded && Performs(c, path, actions) && Reachable(c, path[0]) && path[0].sink.stop
    ensures DriverActions(actions) <= 3 + MAX_TRY * RoundCost(c)
    ensures DriverActions(actions) >= 3 + MAX_TRY * RoundCost(c) ==> path[|actions|].th.pc.Exited?
  {
    StoppedAlong(c, path, actions);
    RemainingBound(c, path[0]);
    NothingRemains(c, path[|actions|]);
  }

  /** And it is never stuck before: a stopped worker that has not returned can act or sleeps, and while it sleeps a
      notification of Stop is to come unless it missed the last one. */
  lemma StopNeverStuck(c: Config, s: State)
    requires c.threaded && Reachable(c, s) && s.sink.stop && !s.th.pc.Exited?
    ensures !s.th.pc.Blocked? ==> exists a :: ByDriver(a) && Enabled(c, s, a)
    ensures s.th.pc.Blocked? ==> (Enabled(c, s, NotifyAll) <==> !s.log.missed)
  {
    ControlKnown(c, s);
    if !s.th.pc.Blocked? {
      DriverNeverStuck(c, s);
    }
  }
}
