/** The code that drives the ring, in the form of the source: an object whose methods update its fields, with
    everybody else acting between any two of its steps.  `Valid` says that the fields are a state the pipeline
    machine reaches, so every result about reachable states holds at each point of these methods. */
module Worker {
  import opened Requests
  import opened Completions
  import opened Pipeline
  import opened PipelineInvariants
  import opened Lifecycle
  import opened PipelineTheorems

  /** StatusCode::kClosed */
  const CLOSED: int := 100

  const ETIME: int := 62
  const EBUSY: int := 16

  datatype Slot = Null | Entry(cqe: Cqe)

  /** Conversion of a `size_t` or `unsigned` value to `int`, and of an `int` to `unsigned`. */
  function ToInt(x: uint32): int {
    if x < 0x8000_0000 then x else x - 0x1_0000_0000
  }

  function ToUnsigned(x: int): uint32
    requires -0x8000_0000 <= x < 0x8000_0000
  {
    if x < 0 then x + 0x1_0000_0000 else x
  }

  /** The number of slots asked for: `std::min<int>` of what is ready and the limit, passed on as `unsigned`. */
  function Requested(ready: uint32, limit: uint32): uint32 {
    ToUnsigned(if ToInt(ready) <= ToInt(limit) then ToInt(ready) else ToInt(limit))
  }

  /** The conversions do no harm: a limit in the range of `int` gives the minimum, a larger one itself. */
  lemma RequestedIsMinimum(ready: uint32, limit: uint32)
    requires ready < 0x8000_0000
    ensures Requested(ready, limit) == if limit < 0x8000_0000 then Min(ready, limit) else limit
  {
  }

  /** The clamp on the number of CQEs processed in one call: zero asks for the default, more than the default is
      cut down to it. */
  function Clamp(request: nat, limit: uint32): uint32 {
    if request == 0 || request > limit then limit else request
  }

  /** What the others can change while the driving thread is between two steps. */
  ghost predicate Undisturbed(s: State, t: State) {
    && (t.th == s.th || (s.th.pc.Blocked? && t.th == s.th.(pc := Lock)))
    && t.rings.sq == s.rings.sq && s.rings.cq <= t.rings.cq
    && t.f.count == s.f.count && t.f.linked == s.f.linked && (s.f.stopConsume ==> t.f.stopConsume)
    && (s.sink.stop ==> t.sink.stop)
    && s.sink.queue <= t.sink.queue && (!LockFree(s.th) ==> t.sink.queue == s.sink.queue)
    && s.log.accepted <= t.log.accepted && s.log.posted <= t.log.posted
    && t.log == s.log.(accepted := t.log.accepted, posted := t.log.posted, missed := t.log.missed)
  }

  /** Nothing of the surrounding drain changed: same queue while the mutex is held, same requests taken, prepared
      and dropped. */
  ghost predicate SameDrain(s: State, t: State) {
    && (!LockFree(s.th) ==> t.sink.queue == s.sink.queue)
    && (s.sink.stop ==> t.sink.stop)
    && t.log.taken == s.log.taken && t.log.prepared == s.log.prepared && t.log.dropped == s.log.dropped
    && t.log.drainStart == s.log.drainStart && t.f.linked == s.f.linked && (s.f.stopConsume ==> t.f.stopConsume)
    && s.log.accepted <= t.log.accepted && s.log.posted <= t.log.posted
    && s.log.handled <= t.log.handled && s.log.batches <= t.log.batches
  }

  /** Time passed: what happened stays, and flags that were raised stay up. */
  ghost predicate Grows(s: State, t: State) {
    && s.log.accepted <= t.log.accepted && s.log.taken <= t.log.taken && s.log.prepared <= t.log.prepared
    && s.log.dropped <= t.log.dropped && s.log.posted <= t.log.posted && s.log.handled <= t.log.handled
    && s.log.batches <= t.log.batches && (s.sink.stop ==> t.sink.stop) && (s.f.stopConsume ==> t.f.stopConsume)
  }

  lemma GrowsOn(s: State, t: State, u: State)
    requires Grows(s, t) && Grows(t, u)
    ensures Grows(s, u)
  {
  }

  lemma GrowsSelf(s: State)
    ensures Grows(s, s)
  {
  }

  lemma GrowsAt(s: State, pc: Pc)
    ensures Grows(s, s.(th := At(s.th, pc)))
  {
  }

  lemma GrowsDrainNext(s: State)
    ensures Grows(s, OnDrainNext(s))
  {
  }

  lemma GrowsGiveUp(c: Config, s: State, r: Request)
    ensures Grows(s, GiveUp(c, s, r))
  {
  }

  lemma GrowsUndisturbed(s: State, t: State)
    requires Undisturbed(s, t)
    ensures Grows(s, t)
  {
  }

  lemma GrowsInDrain(s: State, t: State)
    requires SameDrain(s, t)
    ensures Grows(s, t)
  {
  }

  /** All submits made meanwhile were made by `GetSqe`. */
  ghost predicate OnlyRetries(before: seq<Batch>, after: seq<Batch>) {
    before <= after && forall m :: |before| <= m < |after| ==> after[m].origin.RetryFlush?
  }

  /** What was drained was flushed: outside an open chain by one submit of the worker, the last one made, which takes
      the whole ring if submits do; in a chain by none. */
  ghost predicate FlushedDrain(c: Config, s: State, t: State) {
    if |t.log.prepared| > |s.log.prepared| && !t.f.linked && !t.th.pc.Exited? then
      && |t.log.batches| > |s.log.batches| && t.log.batches[|t.log.batches| - 1].origin.MainFlush?
      && OnlyRetries(s.log.batches, t.log.batches[..|t.log.batches| - 1]) && (c.fullAccept ==> t.rings.sq == [])
    else OnlyRetries(s.log.batches, t.log.batches)
  }

  /** A round of the worker's loop that starts before its wait: it ends if the sink is stopped; otherwise it takes a
      request if one is queued and handles a CQE if one is there, unless it is stopped meanwhile, and flushes. */
  ghost predicate RoundWork(c: Config, s: State, t: State) {
    && Grows(s, t) && FlushedDrain(c, s, t)
    && (s.th.pc.Lock? && s.sink.stop ==> t.th.pc.Exited?)
    && (s.th.pc.Lock? && s.sink.queue != [] && !t.sink.stop ==> |t.log.taken| > |s.log.taken|)
    && (s.th.pc.Lock? && !t.sink.stop ==> Reaped(c, s, t))
  }

  /** A CQE that was there before a drain was handled in it or still is there, and then it is pending. */
  lemma ReapsSomething(c: Config, s: State, t: State)
    requires Reachable(c, s) && Reachable(c, t) && Grows(s, t) && s.th.seen == 0 && t.th.seen == 0
    ensures s.rings.cq != [] ==> |t.log.handled| > |s.log.handled| || (t.rings.cq != [] && t.f.count > 0)
  {
    RingKnown(c, s);
    RingKnown(c, t);
    CounterExact(c, t);
  }

  /** Before its wait a worker with a CQE to handle has its predicate true. */
  lemma ReapableIsWork(c: Config, s: State)
    requires Reachable(c, s) && (s.th.pc.Lock? || s.th.pc.Blocked?)
    ensures s.rings.cq != [] ==> WaitDone(s)
  {
    RingKnown(c, s);
    CounterExact(c, s);
  }

  lemma SubmitInDrain(c: Config, s: State, t: State, k: nat)
    requires Undisturbed(s, t) && k <= |t.rings.sq| && (s.th.pc.Resubmitting? || s.th.pc.Flushing?)
    ensures SameDrain(s, OnSubmit(c, t, k)) && t.rings.sq == s.rings.sq && t.th == s.th
    ensures t.log.batches == s.log.batches && t.f.count == s.f.count
  {
  }

  lemma UndisturbedOn(s: State, t: State, u: State)
    requires Undisturbed(s, t) && Undisturbed(t, u) && s.th.pc.Waiting?
    ensures Undisturbed(s, u)
  {
  }

  lemma UndisturbedInDrain(s: State, t: State, th: Thread)
    requires Undisturbed(s, t) && s.th.pc.Waiting?
    ensures SameDrain(s, t.(th := th)) && t.th == s.th
    ensures t.rings.sq == s.rings.sq && t.log.batches == s.log.batches && t.log.handled == s.log.handled
  {
  }

  lemma SameDrainAfter(s: State, t: State, u: State)
    requires Undisturbed(s, t) && SameDrain(t, u) && s.th.pc.Waiting?
    ensures SameDrain(s, u)
  {
  }

  /** A queued request is taken in the first of the rounds that follow, unless the sink is stopped. */
  lemma TakesOne(c: Config, s: State, t: State, u: State)
    requires RoundWork(c, s, t) && Grows(t, u) && s.th.pc.Lock? && s.sink.queue != [] && !u.sink.stop
    ensures |u.log.taken| > |s.log.taken|
  {
  }

  lemma RoundAfter(c: Config, s: State, t: State, u: State)
    requires Undisturbed(s, t) && RoundWork(c, t, u)
    ensures RoundWork(c, s, u)
  {
    GrowsUndisturbed(s, t);
    GrowsOn(s, t, u);
    hide Grows;
  }

  /** All these submits were made by `GetSqe` on behalf of `r`. */
  ghost predicate MadeFor(tries: seq<Batch>, r: Request) {
    forall i :: 0 <= i < |tries| ==> tries[i].origin == RetryFlush(r)
  }

  /** The submits turned the ring from `before` to `after`, and all but the last took nothing. */
  ghost predicate LastTook(tries: seq<Batch>, before: seq<Request>, after: seq<Request>) {
    && (forall i :: 0 <= i < |tries| - 1 ==> tries[i].reqs == [])
    && before == if tries == [] then after else tries[|tries| - 1].reqs + after
  }

  /** `GetSqe` was called in `start`, made the submits `tries`, and stands in `s`. */
  ghost predicate Underway(c: Config, start: State, s: State, tries: seq<Batch>) {
    && start.th.call.InGetSqe? && start.th == Thread(Getting, start.th.drained, InGetSqe(start.th.call.r, 0), 0, 0)
    && |tries| <= MAX_TRY
    && s.th == start.th.(pc := if |tries| == MAX_TRY then Failing else Getting,
                          call := InGetSqe(start.th.call.r, |tries|))
    && SameDrain(start, s) && s.log.batches == start.log.batches + tries && MadeFor(tries, start.th.call.r)
    && LastTook(tries, start.rings.sq, s.rings.sq)
    && (if tries == [] then s == start else |start.rings.sq| == c.sqEntries)
    && (c.fullAccept && tries != [] ==> s.rings.sq == [])
    && (tries != [] ==> Reaped(c, start, s))
  }

  /** What one round of `GetSqe` does: a submit for the request, then completion processing. */
  ghost predicate Round(c: Config, s: State, t: State, batch: Batch) {
    && s.th.call.InGetSqe? && batch.origin == RetryFlush(s.th.call.r) && batch.reqs + t.rings.sq == s.rings.sq
    && SameDrain(s, t) && t.th == Leave(c, s.th) && t.log.batches == s.log.batches + [batch]
    && (c.fullAccept ==> t.rings.sq == []) && Reaped(c, s, t)
  }

  /** If there was a CQE, some were handled meanwhile, unless consumption is stopped. */
  ghost predicate Reaped(c: Config, s: State, t: State) {
    s.rings.cq != [] && c.maxDrain > 0 && !t.f.stopConsume ==> |t.log.handled| > |s.log.handled|
  }

  lemma OneMoreTry(c: Config, start: State, s: State, tries: seq<Batch>, batch: Batch, t: State)
    requires Underway(c, start, s, tries) && Round(c, s, t, batch)
    requires |start.rings.sq| <= c.sqEntries && |tries| < MAX_TRY && |s.rings.sq| >= c.sqEntries
    ensures Underway(c, start, t, tries + [batch])
  {
    hide SameDrain, LastTook, MadeFor, Reaped;
    var more := tries + [batch];
    assert |more| == |tries| + 1 && t.log.batches == start.log.batches + more;
    SameDrainStill(start, s, t);
    ReapedOn(c, start, s, t);
    LastTookMore(tries, start.rings.sq, s.rings.sq, batch, t.rings.sq);
    MadeForMore(tries, batch, start.th.call.r);
  }

  lemma ReapedOn(c: Config, s: State, t: State, u: State)
    requires SameDrain(s, t) && SameDrain(t, u) && Reaped(c, t, u) && (Reaped(c, s, t) || t == s)
    ensures Reaped(c, s, u)
  {
  }

  lemma MadeForMore(tries: seq<Batch>, batch: Batch, r: Request)
    requires MadeFor(tries, r) && batch.origin == RetryFlush(r)
    ensures MadeFor(tries + [batch], r)
  {
  }

  lemma SameDrainStill(s: State, t: State, u: State)
    requires SameDrain(s, t) && SameDrain(t, u) && LockFree(s.th) == LockFree(t.th)
    ensures SameDrain(s, u)
  {
  }

  lemma LastTookMore(tries: seq<Batch>, before: seq<Request>, full: seq<Request>, batch: Batch, after: seq<Request>)
    requires LastTook(tries, before, full) && |full| >= |before| && batch.reqs + after == full
    ensures LastTook(tries + [batch], before, after) && |full| == |before|
  {
    var more := tries + [batch];
    assert more[|more| - 1] == batch;
    forall i | 0 <= i < |more| - 1 ensures more[i].reqs == [] {
      assert more[i] == tries[i];
    }
  }

  /** With one room-making submit at most, and that the last, the count tells whether the first nine were in vain. */
  lemma Verdict(c: Config, start: State, s: State, tries: seq<Batch>)
    requires Underway(c, start, s, tries) && (|tries| < MAX_TRY ==> |s.rings.sq| < c.sqEntries)
    ensures Futile(tries) <==> |tries| == MAX_TRY
  {
    hide MadeFor, SameDrain;
  }

  /** What the last `io_uring_submit` and the last `io_uring_wait_cqe_timeout` returned. */
  class Answers {
    var submit: int
    var wait: int

    constructor () {
      submit, wait := 0, 0;
    }
  }

  class IoUring {
    const cfg: Config

    // io_sink_
    var pendingIo: seq<Request>
    var stopFlag: bool
    var owed: nat
    var stopsOwed: nat
    // ring_ and the kernel behind it
    var sq: seq<Request>
    var kernel: multiset<Request>
    var cq: seq<Cqe>
    // own fields
    var submissionPendingCount: int
    var linkedSqe: bool
    var stopConsumption: bool
    var completions: map<nat, Completion>
    const cqes: array<Slot>
    const answers: Answers
    // where the driving thread is, and what happened so far
    var th: Thread
    ghost var log: History

    ghost function View(): State
      reads this
    {
      State(Sink(pendingIo, stopFlag, owed, stopsOwed), Rings(sq, kernel, cq),
            Fields(submissionPendingCount, linkedSqe, stopConsumption), th, completions, log)
    }

    ghost predicate Valid()
      reads this
    {
      Reachable(cfg, View()) && cqes.Length == cfg.maxDrain
    }

    constructor (c: Config)
      ensures cfg == c && Valid() && View() == Init(c) && fresh(cqes) && fresh(answers)
    {
      cfg := c;
      pendingIo, stopFlag, owed, stopsOwed := [], false, 0, 0;
      sq, kernel, cq := [], multiset{}, [];
      submissionPendingCount, linkedSqe, stopConsumption := 0, false, false;
      completions := map[];
      cqes := new Slot[c.maxDrain];
      answers := new Answers();
      th := Thread(if c.threaded then Lock else Idle, 0, NoCall, 0, 0);
      log := History([], [], [], [], [], [], [], 0, false, false);
      new;
      ReachesSelf(c, Init(c));
    }

    // -------------------------------------------------------------------------------------------------
    // Producers, owners and the kernel

    /** The locked part of `EnqueueIoRequest`. */
    method Push(r: Request, garbage: bv32)
      requires Valid() && cfg.threaded && LockFree(th) && r.id !in completions
      modifies this
      ensures Valid() && View() == Apply(cfg, old(View()), Enqueue(r, garbage))
    {
      hide Reachable;
      ghost var t := Then(cfg, View(), Enqueue(r, garbage));
      completions := completions[r.id := Fresh(r.gid, garbage)];
      pendingIo, owed := pendingIo + [r], owed + 1;
      log := log.(accepted := log.accepted + [r]);
      assert View() == t;
    }

    method NotifyOne()
      requires Valid() && owed > 0
      modifies this
      ensures Valid() && View() == Apply(cfg, old(View()), Notify)
    {
      hide Reachable;
      ghost var t := Then(cfg, View(), Notify);
      owed := owed - 1;
      th := Wake(th);
      assert View() == t;
    }

    /** `IoSink::EnqueueIoRequest`: push under the mutex, notify after releasing it.  Calls by others are
        interleaved with the two halves through `InterfereOnce`. */
    method EnqueueIoRequest(r: Request, garbage: bv32)
      requires Valid() && cfg.threaded && LockFree(th) && r.id !in completions
      modifies this
      ensures Valid() && pendingIo == old(pendingIo) + [r] && owed == old(owed)
      ensures !th.pc.Blocked? && Undisturbed(old(View()), View())
      ensures completions == old(completions)[r.id := Completion(r.gid, garbage, 0, Unset, 0, 0)]
    {
      Push(r, garbage);
      NotifyOne();
    }

    method RaiseStopFlag()
      requires Valid()
      modifies this
      ensures stopFlag && Valid() && View() == Apply(cfg, old(View()), RaiseStop)
    {
      hide Reachable;
      ghost var t := Then(cfg, View(), RaiseStop);
      stopFlag, stopsOwed := true, stopsOwed + 1;
      log := log.(missed := false);
      assert View() == t;
    }

    method NotifyEveryone()
      requires Valid() && stopsOwed > 0
      modifies this
      ensures Valid() && View() == Apply(cfg, old(View()), NotifyAll)
    {
      hide Reachable;
      ghost var t := Then(cfg, View(), NotifyAll);
      log := log.(missed := th.pc.Parking? && stopsOwed == 1);
      stopsOwed := stopsOwed - 1;
      th := Wake(th);
      assert View() == t;
    }

    /** `IoSink::Stop`: raise the flag without the mutex, then notify.  A worker that slept before is on its way. */
    method Stop()
      requires Valid()
      modifies this
      ensures Valid() && stopFlag && !th.pc.Blocked? && stopsOwed == old(stopsOwed)
      ensures Undisturbed(old(View()), View())
    {
      RaiseStopFlag();
      NotifyEveryone();
    }

    method StopConsuming()
      requires Valid()
      modifies this
      ensures stopConsumption && Valid() && View() == Apply(cfg, old(View()), StopConsumption)
    {
      hide Reachable;
      ghost var t := Then(cfg, View(), StopConsumption);
      stopConsumption := true;
      assert View() == t;
    }

    method WakeSpuriously()
      requires Valid() && th.pc.Blocked?
      modifies this
      ensures Valid() && View() == Apply(cfg, old(View()), Spurious)
    {
      hide Reachable;
      ghost var t := Then(cfg, View(), Spurious);
      th := At(th, Lock);
      assert View() == t;
    }

    method KernelPost(cqe: Cqe)
      requires Valid() && cqe.req in kernel && !More(cqe.flags)
      modifies this
      ensures Valid() && View() == Apply(cfg, old(View()), Post(cqe))
    {
      hide Reachable;
      ghost var t := Then(cfg, View(), Post(cqe));
      kernel, cq := kernel - multiset{cqe.req}, cq + [cqe];
      log := log.(posted := log.posted + [cqe]);
      assert View() == t;
    }

    method InterfereOnce()
      requires Valid()
      modifies this
      ensures Valid() && Undisturbed(old(View()), View())
    {
      var r: Request := *;
      var garbage: bv32 := *;
      var cqe: Cqe := *;
      if {
        case true =>
        case cfg.threaded && LockFree(th) && r.id !in completions => Push(r, garbage);
        case owed > 0 => NotifyOne();
        case true => RaiseStopFlag();
        case stopsOwed > 0 => NotifyEveryone();
        case true => StopConsuming();
        case th.pc.Blocked? => WakeSpuriously();
        case cqe.req in kernel && !More(cqe.flags) => KernelPost(cqe);
      }
    }

    /** Any number of actions by producers, owners and the kernel. */
    method Interfere()
      requires Valid()
      modifies this
      ensures Valid() && Undisturbed(old(View()), View())
    {
      var steps: nat := *;
      while steps > 0
        invariant Valid() && Undisturbed(old(View()), View())
      {
        InterfereOnce();
        steps := steps - 1;
      }
    }

    // -------------------------------------------------------------------------------------------------
    // Submission

    /** `io_uring_submit`: how many entries the kernel takes, or a negative error. */
    method IoUringSubmit() returns (res: int)
      modifies answers
      ensures res == answers.submit <= |sq|
      ensures cfg.fullAccept ==> res == |sq|
    {
      res := *;
      if res > |sq| || cfg.fullAccept {
        res := |sq|;
      }
      answers.submit := res;
    }

    /** The kernel takes `k` entries and the counter is credited with them. */
    method TakeBatch(k: nat)
      requires Valid() && k <= |sq| && Enabled(cfg, View(), Submit(k))
      modifies this
      ensures Valid() && View() == OnSubmit(cfg, old(View()), k)
    {
      hide Reachable, Enabled;
      ghost var t := Then(cfg, View(), Submit(k));
      assert t == OnSubmit(cfg, View(), k);
      hide Apply;
      log := log.(batches := log.batches + [Batch(sq[..k], SubmitOrigin(cfg, th), k == |sq|)], shortfall := k < |sq|);
      kernel := kernel + multiset(sq[..k]);
      sq := sq[k..];
      submissionPendingCount := submissionPendingCount + k;
      th := At(th, if th.pc.Flushing? && !cfg.threaded then Idle else Reaping);
      assert View() == t;
    }

    /** `SubmitToKernel`: repeat while interrupted, then credit the counter with what was taken from the front of
        the ring. */
    method SubmitToKernel() returns (taken: nat)
      requires Valid() && (th.pc.Resubmitting? || th.pc.Flushing?)
      modifies this, answers
      ensures Valid() && SameDrain(old(View()), View())
      ensures taken <= |old(sq)| && sq == old(sq)[taken..] && (cfg.fullAccept ==> sq == [])
      ensures submissionPendingCount == old(submissionPendingCount) + taken
      ensures taken == if answers.submit < 0 then 0 else answers.submit
      ensures log.batches == old(log.batches) + [Batch(old(sq)[..taken], SubmitOrigin(cfg, old(th)), sq == [])]
      ensures th == At(old(th), if old(th).pc.Flushing? && !cfg.threaded then Idle else Reaping)
    {
      hide Reachable;
      var interruptions: nat := *;
      while interruptions > 0
        invariant Valid() && Undisturbed(old(View()), View())
      {
        Interfere();
        interruptions := interruptions - 1;
      }
      var res := IoUringSubmit();
      taken := if res < 0 then 0 else res;
      SubmitInDrain(cfg, old(View()), View(), taken);
      hide Undisturbed, SameDrain;
      TakeBatch(taken);
    }

    /** One round of `GetSqe` on a full ring: submit, then process completions. */
    method SubmitAndReap() returns (ghost batch: Batch)
      requires Valid() && th.pc.Getting? && th.call.InGetSqe? && |sq| >= cfg.sqEntries
      modifies this, cqes, answers
      ensures Valid() && Round(cfg, old(View()), View(), batch)
    {
      hide Reachable;
      ControlClean(cfg, View());
      ghost var t := Then(cfg, View(), TakeSqe);
      th := At(th, Resubmitting);
      assert View() == t;
      var taken := SubmitToKernel();
      batch := log.batches[|log.batches| - 1];
      ControlClean(cfg, View());
      GrowsInDrain(t, View());
      ReapsSomething(cfg, t, View());
      var ok, n, at := ProcessCompletionsRing();
    }

    /** `GetSqe`: while the ring is full, submit and process completions, at most `MAX_TRY` times.  `tries` are the
        submits it made: none if the ring had room, all but the last in vain.  It fails exactly when the first nine
        took nothing, whatever the tenth did: the entry is not asked for again after that one. */
    method GetSqe() returns (found: bool, ghost tries: seq<Batch>)
      requires Valid() && th.pc.Getting? && th.call.InGetSqe? && th.call.t == 0
      modifies this, cqes, answers
      ensures Valid() && Underway(cfg, old(View()), View(), tries)
      ensures tries == [] <==> |old(sq)| < cfg.sqEntries
      ensures found ==> |sq| < cfg.sqEntries
      ensures !found <==> Futile(tries)
      ensures !found <==> |tries| == 10
      ensures cfg.fullAccept ==> found
    {
      ControlClean(cfg, View());
      RingBound(cfg, View());
      var currentCount := 0;
      tries := [];
      assert Underway(cfg, View(), View(), tries);
      while |sq| >= cfg.sqEntries
        invariant Valid() && Underway(cfg, old(View()), View(), tries)
        invariant currentCount == |tries| < MAX_TRY
        invariant cfg.fullAccept && tries != [] ==> sq == []
        decreases MAX_TRY - currentCount
      {
        ghost var before := View();
        ghost var batch := SubmitAndReap();
        OneMoreTry(cfg, old(View()), before, tries, batch, View());
        tries := tries + [batch];
        currentCount := currentCount + 1;
        if currentCount >= MAX_TRY {
          Verdict(cfg, old(View()), View(), tries);
          return false, tries;
        }
      }
      Verdict(cfg, old(View()), View(), tries);
      return true, tries;
    }

    // -------------------------------------------------------------------------------------------------
    // Completion

    /** `HandleCqe` on the next unread entry: one off the counter, then the completion gets the result unless it
        belongs to a buffer group and no buffer was picked.  The completion is alive and unresolved. */
    method HandleCqe(cqe: Cqe)
      requires Valid() && th.pc.Handling? && th.seen < th.peeked <= |cq| && cqe == cq[th.seen]
      modifies this
      ensures Valid() && View() == OnHandleNext(old(View()))
      ensures cqe.req.id in old(completions) && Untouched(old(completions)[cqe.req.id])
      ensures cqe.req.id in completions && Delivered(completions[cqe.req.id], cqe)
      ensures cqe.req.gid != 0 && cqe.flags & 0x1 == 0 ==> completions == old(completions)
      ensures submissionPendingCount == old(submissionPendingCount) - 1
    {
      hide Reachable;
      ghost var t := Then(cfg, View(), HandleNext);
      HandlingDelivers(cfg, View());
      submissionPendingCount := submissionPendingCount - 1;
      var handler := completions[cqe.req.id];
      if handler.gid != INVALID_BUFF_GID {
        if CarriesBuffer(cqe) {
          completions := completions[cqe.req.id := CompleteWith(handler, cqe)];
        }
      } else {
        completions := completions[cqe.req.id := CompleteWith(handler, cqe)];
      }
      log := log.(handled := log.handled + [cqe]);
      th := th.(seen := th.seen + 1);
      assert completions == t.comps;
      assert View() == t;
    }

    /** `io_uring_wait_cqe_timeout`: zero when the completion ring is not empty, an error when it stayed empty. */
    method WaitCqeTimeout() returns (ret: int)
      requires Valid()
      modifies this, answers
      ensures Valid() && Undisturbed(old(View()), View())
      ensures ret == answers.wait && (if cq != [] then ret == 0 else ret < 0)
    {
      Interfere();
      ret := *;
      if cq != [] {
        ret := 0;
      } else if ret >= 0 {
        ret := -ETIME;
      }
      answers.wait := ret;
    }

    /** `io_uring_peek_batch_cqe`: fill the array from the ring's head and return how many were filled. */
    method PeekBatch(count: uint32) returns (n: nat)
      requires Min(Min(|cq|, cfg.cqEntries), count) <= cqes.Length
      modifies cqes
      ensures n == Min(Min(|cq|, cfg.cqEntries), count)
      ensures forall i :: 0 <= i < n ==> cqes[i] == Entry(cq[i])
    {
      n := Min(Min(|cq|, cfg.cqEntries), count);
      for i := 0 to n
        invariant forall j :: 0 <= j < i ==> cqes[j] == Entry(cq[j])
      {
        cqes[i] := Entry(cq[i]);
      }
    }

    /** Nothing to handle: return to whoever asked for completion processing. */
    method ReturnEmpty()
      requires Valid() && th.pc.Waiting?
      modifies this
      ensures Valid() && View() == old(View()).(th := Leave(cfg, old(th)))
    {
      hide Reachable;
      ghost var t := Then(cfg, View(), Reap(false, 0));
      LeaveReap();
      assert View() == t;
    }

    method LeaveReap()
      modifies this`th
      ensures View() == old(View()).(th := Leave(cfg, old(th)))
    {
      th := Leave(cfg, th);
    }

    /** The wait found CQEs: fix how many of them this call will handle. */
    method Commit(limit: uint32)
      requires Valid() && th.pc.Waiting? && cq != [] && limit <= cfg.maxDrain
      modifies this
      ensures Valid() && View() == OnReap(cfg, old(View()), true, limit)
    {
      hide Reachable;
      ghost var t := Then(cfg, View(), Reap(true, limit));
      th := th.(pc := Handling, seen := 0, peeked := Min(Min(|cq|, cfg.cqEntries), limit));
      assert View() == t;
    }

    /** `io_uring_cq_advance` by what was handled. */
    method AdvanceRing()
      requires Valid() && th.pc.Handling? && th.seen == th.peeked <= |cq|
      modifies this
      ensures Valid() && View() == Apply(cfg, old(View()), Advance)
    {
      hide Reachable;
      ghost var t := Then(cfg, View(), Advance);
      cq := cq[th.peeked..];
      LeaveReap();
      assert View() == t;
    }

    /** `std::fill` over the slots. */
    method ClearSlots()
      modifies cqes
      ensures forall i :: 0 <= i < cqes.Length ==> cqes[i] == Null
    {
      forall i | 0 <= i < cqes.Length {
        cqes[i] := Null;
      }
    }

    /** Handle the peeked entries in order; the others go on posting meanwhile. */
    method HandleBatch(n: nat)
      requires Valid() && th.pc.Handling? && th.seen == 0 && th.peeked == n <= |cq| && n <= cqes.Length
      requires forall i :: 0 <= i < n ==> cqes[i] == Entry(cq[i])
      modifies this
      ensures Valid() && SameDrain(old(View()), View())
      ensures th == old(th).(seen := n) && n <= |cq| && sq == old(sq) && log.batches == old(log.batches)
      ensures |log.handled| == |old(log.handled)| + n
    {
      hide Reachable;
      for i := 0 to n
        invariant Valid() && SameDrain(old(View()), View())
        invariant th == old(th).(seen := i) && n <= |cq| && sq == old(sq) && log.batches == old(log.batches)
        invariant |log.handled| == |old(log.handled)| + i
        invariant forall j :: 0 <= j < n ==> cqes[j] == Entry(cq[j])
      {
        HandleCqe(cqes[i].cqe);
        Interfere();
      }
    }

    /** Count the ring and fill the slots from its head.  No index leaves the slot array, whatever the limit: above
        the range of `int` the two conversions cancel out.  Both branches do the same, count and peek; they only
        differ in the moment that counts as the one at which the ring was read, since a limit beyond `int` lets the
        peek take what was posted after the count. */
    method PeekReady(limit: uint32) returns (n: nat, ghost at: State)
      requires Valid() && th.pc.Waiting? && cq != [] && limit <= cfg.maxDrain
      modifies this, cqes
      ensures Valid() && Undisturbed(old(View()), at) && SameDrain(old(View()), View())
      ensures th == old(th).(pc := Handling, seen := 0, peeked := n)
      ensures n == Min(Visible(cfg, at), limit) && n <= |cq| && n <= cqes.Length
      ensures forall i :: 0 <= i < n ==> cqes[i] == Entry(cq[i])
      ensures sq == old(sq) && log.batches == old(log.batches) && log.handled == old(log.handled)
    {
      hide Reachable;
      at := View();
      var ready := Min(|cq|, cfg.cqEntries);
      var count := Requested(ready, limit);
      RequestedIsMinimum(ready, limit);
      hide Requested;
      if limit < 0x8000_0000 {
        Commit(limit);
        Interfere();
        n := PeekBatch(count);
      } else {
        Interfere();
        at := View();
        n := PeekBatch(count);
        Commit(limit);
      }
    }

    /** Clear the slots, fill them, handle what they hold and advance the ring. */
    method HandleReady(limit: uint32) returns (n: nat, ghost at: State)
      requires Valid() && th.pc.Waiting? && cq != [] && limit <= cfg.maxDrain
      modifies this, cqes
      ensures Valid() && SameDrain(old(View()), View()) && Undisturbed(old(View()), at)
      ensures th == Leave(cfg, old(th)) && sq == old(sq) && log.batches == old(log.batches)
      ensures n == Min(Visible(cfg, at), limit) && |log.handled| == |old(log.handled)| + n
      ensures old(cq) <= at.rings.cq
    {
      hide Reachable;
      ClearSlots();
      n, at := PeekReady(limit);
      hide Undisturbed;
      HandleBatch(n);
      AdvanceRing();
    }

    /** `DoProcessComplitionsRing`: on a successful wait handle the CQEs at the head of the ring, as many as were
        ready but no more than the clamped request, and advance the ring by that number.  `at` is the state in
        which the ring was counted. */
    method DoProcessComplitionsRing(maxRequests: nat) returns (ok: bool, found: bool, n: nat, ghost at: State)
      requires Valid() && th.pc.Waiting?
      modifies this, cqes, answers
      ensures Valid() && SameDrain(old(View()), View())
      ensures th == Leave(cfg, old(th)) && sq == old(sq) && log.batches == old(log.batches)
      ensures Undisturbed(old(View()), at) && (found <==> at.rings.cq != []) && (found <==> answers.wait == 0)
      ensures ok <==> answers.wait == 0 || answers.wait == -62 || answers.wait == -16
      ensures !found ==> n == 0
      ensures found && (maxRequests == 0 || maxRequests > cfg.maxDrain) ==>
        n == Min(Min(|at.rings.cq|, cfg.cqEntries), cfg.maxDrain)
      ensures found && 0 < maxRequests <= cfg.maxDrain ==> n == Min(Min(|at.rings.cq|, cfg.cqEntries), maxRequests)
      ensures found ==> (n > 0 <==> cfg.maxDrain > 0)
      ensures |log.handled| == |old(log.handled)| + n
    {
      hide Reachable, Undisturbed, SameDrain;
      var limit := Clamp(maxRequests, cfg.maxDrain);
      var ret := WaitCqeTimeout();
      at := View();
      UndisturbedInDrain(old(View()), at, Leave(cfg, th));
      if ret < 0 {
        ok, found, n := ret == -ETIME || ret == -EBUSY, false, 0;
        ReturnEmpty();
      } else {
        ok, found := true, true;
        ghost var ready := at;
        n, at := HandleReady(limit);
        SameDrainAfter(old(View()), ready, View());
        UndisturbedOn(old(View()), ready, at);
      }
    }

    /** `ProcessCompletionsRing`: skip the ring when nothing is pending or consumption was stopped. */
    method ProcessCompletionsRing() returns (ok: bool, n: nat, ghost at: State)
      requires Valid() && th.pc.Reaping?
      modifies this, cqes, answers
      ensures Valid() && SameDrain(old(View()), View())
      ensures th == Leave(cfg, old(th)) && sq == old(sq) && log.batches == old(log.batches)
      ensures old(submissionPendingCount) <= 0 || old(stopConsumption) ==> ok && n == 0 && log == old(log)
      ensures old(submissionPendingCount) > 0 && !old(stopConsumption) ==>
        && old(cq) <= at.rings.cq && n == Min(Min(|at.rings.cq|, cfg.cqEntries), cfg.maxDrain)
        && (ok <==> answers.wait == 0 || answers.wait == -62 || answers.wait == -16)
      ensures |log.handled| == |old(log.handled)| + n
    {
      hide Reachable;
      ControlClean(cfg, View());
      ghost var t := Then(cfg, View(), Gate);
      if submissionPendingCount <= 0 || stopConsumption {
        LeaveReap();
        assert View() == t;
        return true, 0, View();
      }
      th := At(th, Waiting);
      assert View() == t;
      var found;
      ok, found, n, at := DoProcessComplitionsRing(0);
    }

    // -------------------------------------------------------------------------------------------------
    // The drain

    /** `SubmitToKernelRing` with `PrepareSqe` inside: fill an entry for the request `GetSqe` works for, or report
        that there is none.  A filled entry is the last one of the ring and sets the link flag. */
    method SubmitToKernelRing() returns (consumed: bool, ghost tries: seq<Batch>)
      requires Valid() && th.pc.Getting? && th.call.InGetSqe? && th.call.t == 0
      modifies this, cqes, answers
      ensures Valid()
      ensures log == old(log).(prepared := log.prepared, batches := log.batches, shortfall := log.shortfall,
                               accepted := log.accepted, posted := log.posted, handled := log.handled,
                               missed := log.missed)
      ensures log.batches == old(log.batches) + tries && MadeFor(tries, old(th.call.r))
      ensures !consumed <==> Futile(tries)
      ensures consumed ==>
        && log.prepared == old(log.prepared) + [old(th.call.r)]
        && sq != [] && sq[|sq| - 1] == old(th.call.r)
        && (linkedSqe <==> old(th.call.r).flags & 0x04 != 0 || old(th.call.r).flags & 0x08 != 0)
        && th == Prepared(cfg, old(th))
      ensures !consumed ==>
        && log.prepared == old(log.prepared) && th.call.InGetSqe? && th.call.r == old(th.call.r)
        && th == old(th).(pc := Failing, call := th.call)
      ensures cfg.fullAccept ==> consumed
      ensures old(log.accepted) <= log.accepted && (cfg.threaded ==> pendingIo == old(pendingIo))
      ensures old(stopFlag) ==> stopFlag
      ensures Grows(old(View()), View()) && OnlyRetries(old(log.batches), log.batches)
    {
      hide Reachable, LastTook, Futile;
      consumed, tries := GetSqe();
      if consumed {
        PrepareSqe();
      }
    }

    /** The end of `PrepareSqe`: the entry is the last one of the ring, and its link bits are the link flag. */
    method PrepareSqe()
      requires Valid() && th.pc.Getting? && th.call.InGetSqe? && |sq| < cfg.sqEntries
      modifies this
      ensures Valid() && View() == Prepare(cfg, old(View()), old(th.call.r))
      ensures linkedSqe <==> old(th.call.r).flags & 0x04 != 0 || old(th.call.r).flags & 0x08 != 0
    {
      hide Reachable;
      ghost var t := Then(cfg, View(), TakeSqe);
      var r := th.call.r;
      sq := sq + [r];
      linkedSqe := Links(r);
      log := log.(prepared := log.prepared + [r], shortfall := false);
      th := Prepared(cfg, th);
      assert View() == t;
    }

    /** The locked wait of `Drain`.  `patience` bounds the wake-ups followed in one call; a call that ends with
        false stands inside the wait, and the next call goes on from there. */
    method WaitForWork(patience: nat) returns (ready: bool)
      requires Valid() && (th.pc.Lock? || th.pc.Blocked?)
      modifies this
      ensures Valid()
      ensures log == old(log).(accepted := log.accepted, posted := log.posted,
                               missed := log.missed, drainStart := log.drainStart)
      ensures ready ==> WaitDone(View()) && th == old(th).(pc := Draining, drained := 0)
      ensures !ready ==> th.pc.Lock? || th.pc.Blocked?
      ensures patience > 0 && old(th.pc).Lock? && WaitDone(old(View())) ==> ready
      ensures old(pendingIo) <= pendingIo && Grows(old(View()), View())
    {
      hide Reachable;
      var left: nat := patience;
      while true
        invariant Valid() && (th.pc.Lock? || th.pc.Blocked?) && th == old(th).(pc := th.pc)
        invariant log == old(log).(accepted := log.accepted, posted := log.posted, missed := log.missed)
        invariant old(pendingIo) <= pendingIo && Grows(old(View()), View())
        invariant left < patience && old(th.pc).Lock? ==> !WaitDone(old(View()))
        invariant left == patience && old(th.pc).Lock? ==> View() == old(View())
        invariant left <= patience
        decreases left
      {
        if th.pc.Blocked? {
          Interfere();
        }
        if th.pc.Blocked? || left == 0 {
          return false;
        }
        ready := TestWait();
        if ready {
          return true;
        }
        left := left - 1;
      }
    }

    /** Take the mutex and evaluate the predicate.  Producers are locked out, Stop is not. */
    method EvaluateWait() returns (ready: bool)
      requires Valid() && th.pc.Check?
      modifies this
      ensures Valid() && View() == OnCheckWait(old(View())) && ready == WaitDone(old(View()))
    {
      hide Reachable;
      ghost var t := Then(cfg, View(), CheckWait);
      ready := stopFlag || pendingIo != [] || submissionPendingCount > 0;
      if ready {
        th := th.(pc := Draining, drained := 0);
        log := log.(drainStart := |log.prepared|);
      } else {
        th := At(th, Parking);
      }
      assert View() == t;
    }

    /** One test of the wait; when it fails release the mutex and block.  Stop can come in before and after the
        test. */
    method TestWait() returns (ready: bool)
      requires Valid() && th.pc.Lock?
      modifies this
      ensures Valid()
      ensures log == old(log).(accepted := log.accepted, posted := log.posted,
                               missed := log.missed, drainStart := log.drainStart)
      ensures ready ==> WaitDone(View()) && th == old(th).(pc := Draining, drained := 0)
      ensures !ready ==> th == At(old(th), Blocked) && log.drainStart == old(log.drainStart)
      ensures old(pendingIo) <= pendingIo && Grows(old(View()), View()) && (WaitDone(old(View())) ==> ready)
    {
      hide Reachable;
      ghost var t := Then(cfg, View(), Acquire);
      th := At(th, Check);
      assert View() == t;
      Interfere();
      ready := EvaluateWait();
      if !ready {
        hide Grows;
        ghost var parking := View();
        Block();
        GrowsOn(old(View()), parking, View());
      }
    }

    /** Release the mutex and sleep.  A notification that comes in before is not heard. */
    method Block()
      requires Valid() && th.pc.Parking?
      modifies this
      ensures Valid() && th == At(old(th), Blocked) && old(pendingIo) <= pendingIo && Grows(old(View()), View())
      ensures log == old(log).(accepted := log.accepted, posted := log.posted, missed := log.missed)
    {
      hide Reachable;
      Interfere();
      ghost var t := Then(cfg, View(), Park);
      th := At(th, Blocked);
      assert View() == t;
    }

    /** Pop the front of the queue for `consume`. */
    method PopFront()
      requires Valid() && th.pc.Draining? && !stopFlag && pendingIo != []
      modifies this
      ensures Valid() && View() == OnDrainNext(old(View()))
    {
      hide Reachable;
      ghost var t := Then(cfg, View(), DrainNext);
      var r := pendingIo[0];
      pendingIo := pendingIo[1..];
      log := log.(taken := log.taken + [r]);
      th := th.(pc := Getting, call := InGetSqe(r, 0));
      assert View() == t;
    }

    /** `GetSqe` failed: a drained request is dropped, a direct caller's completion gets an exception. */
    method FailRequest()
      requires Valid() && th.pc.Failing? && th.call.InGetSqe?
      modifies this
      ensures Valid() && View() == GiveUp(cfg, old(View()), old(th.call.r))
    {
      hide Reachable;
      ghost var t := Then(cfg, View(), Fail);
      var r := th.call.r;
      if !cfg.threaded && r.id in completions {
        completions := completions[r.id := SetException(completions[r.id])];
      }
      log := log.(dropped := log.dropped + [r]);
      th := th.(pc := if cfg.threaded then Deciding else Idle, call := NoCall);
      assert View() == t;
    }

    /** Pop the front of the queue and pass it to `consume`; a request that is refused is dropped.  While the
        loop goes on Stop and the kernel can come in afterwards, producers cannot. */
    method ConsumeFront() returns (consumed: bool)
      requires Valid() && cfg.threaded && th.pc.Draining? && !stopFlag && pendingIo != []
      modifies this, cqes, answers
      ensures Valid() && Grows(old(View()), View()) && OnlyRetries(old(log.batches), log.batches)
      ensures log.taken == old(log.taken) + [old(pendingIo)[0]] && pendingIo == old(pendingIo)[1..]
      ensures consumed ==>
        && log.prepared == old(log.prepared) + [old(pendingIo)[0]] && log.dropped == old(log.dropped)
        && sq != [] && sq[|sq| - 1] == old(pendingIo)[0]
        && th == old(th).(pc := if old(th.drained) + 1 >= cfg.maxDrain then Deciding else Draining,
                          drained := old(th.drained) + 1)
      ensures !consumed ==>
        && log.prepared == old(log.prepared) && log.dropped == old(log.dropped) + [old(pendingIo)[0]]
        && th == old(th).(pc := Deciding)
      ensures cfg.fullAccept ==> consumed
    {
      hide Reachable, Futile, MadeFor;
      ControlClean(cfg, View());
      PopFront();
      ghost var popped := View();
      GrowsDrainNext(old(View()));
      ghost var tries;
      consumed, tries := SubmitToKernelRing();
      GrowsOn(old(View()), popped, View());
      if !consumed {
        ghost var refused := View();
        FailRequest();
        hide Grows;
        GrowsGiveUp(cfg, refused, refused.th.call.r);
        GrowsOn(old(View()), refused, View());
      } else if th.pc.Draining? {
        ghost var prepared := View();
        Interfere();
        GrowsUndisturbed(prepared, View());
        hide Grows;
        GrowsOn(old(View()), prepared, View());
      }
    }

    /** The loop of `Drain`: consume from the front until stopped, empty, refused, or at the limit. */
    method DrainQueue() returns (currentDrained: nat)
      requires Valid() && cfg.threaded && th.pc.Draining? && th.drained == 0
      modifies this, cqes, answers
      ensures Valid() && th.pc.Deciding? && th.drained == currentDrained
      ensures |log.prepared| == |old(log.prepared)| + currentDrained
      ensures currentDrained <= 1 || currentDrained <= cfg.maxDrain
      ensures |log.dropped| <= |old(log.dropped)| + 1 && (cfg.fullAccept ==> log.dropped == old(log.dropped))
      ensures stopFlag || old(pendingIo) == [] || |log.taken| > |old(log.taken)|
      ensures stopFlag || pendingIo == [] || |log.dropped| > |old(log.dropped)| ||
        (currentDrained > 0 && currentDrained >= cfg.maxDrain)
      ensures Grows(old(View()), View()) && OnlyRetries(old(log.batches), log.batches)
      ensures cfg.fullAccept && currentDrained > 0 ==> sq != []
    {
      ControlClean(cfg, View());
      GrowsSelf(View());
      hide Reachable, Grows;
      currentDrained := 0;
      while !stopFlag
        invariant Valid() && th.pc.Draining? && th.drained == currentDrained && log.dropped == old(log.dropped)
        invariant |log.prepared| == |old(log.prepared)| + currentDrained
        invariant currentDrained == 0 || currentDrained < cfg.maxDrain
        invariant currentDrained == 0 ==> View() == old(View())
        invariant currentDrained > 0 ==> sq != [] && |log.taken| > |old(log.taken)|
        invariant Grows(old(View()), View()) && OnlyRetries(old(log.batches), log.batches)
        decreases |pendingIo|
      {
        if pendingIo == [] {
          break;
        }
        ghost var before := View();
        var consumed := ConsumeFront();
        GrowsOn(old(View()), before, View());
        if !consumed {
          return;
        }
        currentDrained := currentDrained + 1;
        if currentDrained >= cfg.maxDrain {
          return;
        }
      }
      ghost var before := View();
      EndDrain();
      GrowsAt(before, Deciding);
      GrowsOn(old(View()), before, View());
    }

    /** Leave the loop because the sink was stopped or the queue is empty. */
    method EndDrain()
      requires Valid() && th.pc.Draining? && (stopFlag || pendingIo == [])
      modifies this
      ensures Valid() && View() == old(View()).(th := At(old(th), Deciding))
    {
      hide Reachable;
      ghost var t := Then(cfg, View(), DrainNext);
      th := At(th, Deciding);
      assert View() == t;
    }

    /** `Drain`: wait for work, consume it, and return how many requests were prepared, or the closed code once
        the sink is stopped.  `woken` is false when the call is still waiting. */
    method Drain(patience: nat) returns (woken: bool, ret: int)
      requires Valid() && cfg.threaded && (th.pc.Lock? || th.pc.Blocked?)
      modifies this, cqes, answers
      ensures Valid()
      ensures !woken ==> ret == 0 && (th.pc.Lock? || th.pc.Blocked?) && log.prepared == old(log.prepared)
      ensures ret < 0 ==> woken && ret == -100 && th.pc.Exited?
      ensures woken ==> (ret < 0 <==> stopFlag)
      ensures Grows(old(View()), View()) && OnlyRetries(old(log.batches), log.batches)
      ensures patience > 0 && old(th.pc).Lock? && WaitDone(old(View())) ==> woken
      ensures woken && !stopFlag && old(pendingIo) != [] ==> |log.taken| > |old(log.taken)|
      ensures woken && ret >= 0 ==>
        && th.call.NoCall? && |log.prepared| == |old(log.prepared)| + ret && (ret <= 1 || ret <= cfg.maxDrain)
        && th.pc == (if ret > 0 && !linkedSqe then Flushing else Reaping)
        && (cfg.fullAccept && ret > 0 ==> sq != [])
    {
      hide Reachable;
      woken := WaitForWork(patience);
      if !woken {
        return false, 0;
      }
      var currentDrained := DrainQueue();
      Interfere();
      ControlClean(cfg, View());
      ghost var t := Then(cfg, View(), Decide);
      if stopFlag {
        th := At(th, Exited);
        assert View() == t;
        return true, -CLOSED;
      }
      th := At(th, if th.drained > 0 && !linkedSqe then Flushing else Reaping);
      assert View() == t;
      return true, currentDrained;
    }

    /** One round of the loop in `DoProcessIoRequests`: drain, flush what was drained unless a chain is open, process
        completions.  `count` is what Drain returned. */
    method ProcessRound(patience: nat) returns (woken: bool, count: int)
      requires Valid() && cfg.threaded && (th.pc.Lock? || th.pc.Blocked?)
      modifies this, cqes, answers
      ensures Valid()
      ensures patience > 0 && old(th.pc).Lock? && WaitDone(old(View())) ==> woken
      ensures if woken && count < 0 then stopFlag && th.pc.Exited? else th.pc.Lock? || th.pc.Blocked?
      ensures woken && old(stopFlag) ==> count < 0
      ensures woken && count >= 0 ==>
        |log.prepared| == |old(log.prepared)| + count && (count <= 1 || count <= cfg.maxDrain)
      ensures patience > 0 ==> RoundWork(cfg, old(View()), View())
      ensures Grows(old(View()), View())
    {
      hide Reachable;
      ControlClean(cfg, View());
      ReapableIsWork(cfg, View());
      woken, count := Drain(patience);
      if !woken || count < 0 {
        return;
      }
      ghost var drained := View();
      if count > 0 && !linkedSqe {
        var taken := SubmitToKernel();
        GrowsInDrain(drained, View());
        GrowsOn(old(View()), drained, View());
      }
      ghost var flushed := View();
      ControlClean(cfg, flushed);
      ReapsSomething(cfg, old(View()), flushed);
      var ok, n, at := ProcessCompletionsRing();
      GrowsInDrain(flushed, View());
      GrowsOn(old(View()), flushed, View());
    }

    /** `DoProcessIoRequests`, followed for a given number of rounds of its endless loop.  `trace` are the states
        between rounds: each round does its work.  The worker leaves the loop only because the sink was stopped, and
        between rounds it stands before or inside the wait. */
    method DoProcessIoRequests(rounds: nat, patience: nat) returns (cancelled: bool, ghost trace: seq<State>)
      requires Valid() && cfg.threaded && (th.pc.Lock? || th.pc.Blocked?)
      modifies this, cqes, answers
      ensures Valid()
      ensures if cancelled then stopFlag && th.pc.Exited? else th.pc.Lock? || th.pc.Blocked?
      ensures trace != [] && trace[0] == old(View()) && trace[|trace| - 1] == View()
      ensures if cancelled then 1 < |trace| <= rounds + 1 else |trace| == rounds + 1
      ensures patience > 0 ==> forall i :: 0 <= i < |trace| - 1 ==> RoundWork(cfg, trace[i], trace[i + 1])
      ensures rounds > 0 && patience > 0 && old(th.pc).Lock? && old(stopFlag) ==> cancelled && |trace| == 2
      ensures rounds > 0 && patience > 0 && old(th.pc).Lock? && old(pendingIo) != [] && !stopFlag ==>
        |log.taken| > |old(log.taken)|
    {
      hide Reachable, RoundWork, Grows, Undisturbed;
      trace := [View()];
      for round := 0 to rounds
        invariant Valid() && (th.pc.Lock? || th.pc.Blocked?)
        invariant |trace| == round + 1 && trace[0] == old(View()) && trace[round] == View()
        invariant patience > 0 ==> forall i :: 0 <= i < round ==> RoundWork(cfg, trace[i], trace[i + 1])
        invariant patience > 0 && old(th.pc).Lock? && old(stopFlag) ==> round == 0
        invariant patience > 0 && round > 0 ==> Grows(trace[1], View())
        invariant round > 0 && patience > 0 && old(th.pc).Lock? && old(pendingIo) != [] && !stopFlag ==>
          |log.taken| > |old(log.taken)|
      {
        ghost var before := View();
        Interfere();
        ghost var start := View();
        var woken, count := ProcessRound(patience);
        GrowsUndisturbed(before, start);
        GrowsOn(before, start, View());
        if patience > 0 {
          RoundAfter(cfg, before, start, View());
          if round > 0 {
            GrowsOn(trace[1], before, View());
          } else {
            GrowsSelf(View());
          }
        }
        trace := trace + [View()];
        if patience > 0 && old(th.pc).Lock? && old(pendingIo) != [] && !stopFlag {
          TakesOne(cfg, old(View()), trace[1], View());
        }
        if woken && count < 0 {
          return true, trace;
        }
      }
      return false, trace;
    }

    // -------------------------------------------------------------------------------------------------
    // Caller-driven mode: every call holds mutex_ from start to end

    /** `SubmitIoRequest` without a worker: the entry is prepared in the caller, and if there is none the completion
        gets an exception instead. */
    method SubmitIoRequest(r: Request, garbage: bv32) returns (accepted: bool, ghost tries: seq<Batch>)
      requires Valid() && !cfg.threaded && th.pc.Idle? && r.id !in completions
      modifies this, cqes, answers
      ensures Valid() && th.pc.Idle?
      ensures accepted ==> log.prepared == old(log.prepared) + [r] && sq != [] && sq[|sq| - 1] == r
      ensures accepted ==> (linkedSqe <==> r.flags & 0x04 != 0 || r.flags & 0x08 != 0)
      ensures !accepted ==> log.prepared == old(log.prepared) && log.dropped == old(log.dropped) + [r]
      ensures log.batches == old(log.batches) + tries && MadeFor(tries, r) && (!accepted <==> Futile(tries))
      ensures !accepted ==> r.id in completions && completions[r.id].promise.Exception?
      ensures cfg.fullAccept ==> accepted
    {
      hide Reachable;
      ghost var t := Then(cfg, View(), CallSubmit(r, garbage));
      completions := completions[r.id := Fresh(r.gid, garbage)];
      log := log.(accepted := log.accepted + [r], taken := log.taken + [r]);
      th := th.(pc := Getting, call := InGetSqe(r, 0));
      assert View() == t;
      accepted, tries := SubmitToKernelRing();
      if !accepted {
        assert log.accepted[|old(log.accepted)|] == r;
        FailRequest();
        CompletionLifecycle(cfg, View(), r);
      }
    }

    method FlushSubmissionRing() returns (taken: nat)
      requires Valid() && !cfg.threaded && th.pc.Idle?
      modifies this, answers
      ensures Valid() && th.pc.Idle?
      ensures taken <= |old(sq)| && sq == old(sq)[taken..] && (cfg.fullAccept ==> sq == [])
      ensures submissionPendingCount == old(submissionPendingCount) + taken
    {
      hide Reachable;
      ghost var t := Then(cfg, View(), CallFlush);
      th := At(th, Flushing);
      assert View() == t;
      taken := SubmitToKernel();
    }

    /** `ProcessComplitionsRing`: handle what is ready, up to the drain limit. */
    method ProcessComplitionsRing() returns (ok: bool, n: nat, ghost at: State)
      requires Valid() && !cfg.threaded && th.pc.Idle?
      modifies this, cqes, answers
      ensures Valid() && th.pc.Idle?
      ensures old(cq) <= at.rings.cq && n == Min(Min(|at.rings.cq|, cfg.cqEntries), cfg.maxDrain)
      ensures old(log.handled) <= log.handled && |log.handled| == |old(log.handled)| + n
      ensures ok <==> answers.wait == 0 || answers.wait == -62 || answers.wait == -16
    {
      hide Reachable;
      ControlClean(cfg, View());
      ghost var t := Then(cfg, View(), CallReap);
      th := At(th, Waiting);
      assert View() == t;
      var found;
      ok, found, n, at := DoProcessComplitionsRing(0);
    }
  }
}
