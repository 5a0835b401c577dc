/** What every action of the pipeline keeps, one predicate at a time. */
module PipelineInvariants {
  import opened Requests
  import opened Completions
  import opened Pipeline

  /** The request popped from the queue and not yet in the ring. */
  function Held(call: Call): seq<Request> {
    if call.InGetSqe? then [call.r] else []
  }

  /** Control state is well formed: where the thread stands fits the mode, it holds a request exactly inside
      `GetSqe`, and the batch counters are zero outside completion handling. */
  ghost predicate Moded(c: Config, s: State) {
    && (s.sink.owed > 0 || s.sink.queue != [] ==> c.threaded)
    && (!s.th.pc.Handling? ==> s.th.seen == 0 && s.th.peeked == 0)
    && match s.th.pc
       case Getting | Resubmitting | Failing => s.th.call.InGetSqe?
       case Idle => !c.threaded && s.th.call.NoCall?
       case Flushing => s.th.call.NoCall?
       case Reaping | Waiting | Handling => true
       case _ => c.threaded && s.th.call.NoCall?
  }

  /** Nothing overtakes in the queue. */
  ghost predicate QueueOrder(s: State) {
    s.log.accepted == s.log.taken + s.sink.queue
  }

  /** Nothing overtakes in the completion ring. */
  ghost predicate RingOrder(c: Config, s: State) {
    && s.th.seen <= |s.rings.cq|
    && s.log.posted == s.log.handled + s.rings.cq[s.th.seen..]
    && (s.th.pc.Handling? ==> s.th.seen <= s.th.peeked <= |s.rings.cq| && s.th.peeked <= c.maxDrain)
  }

  /** The counter is the number of submitted entries whose CQE was not handled yet. */
  ghost predicate Counted(s: State) {
    s.f.count == |s.rings.kernel| + |s.rings.cq| - s.th.seen
  }

  /** Every taken request was prepared, is held by `GetSqe`, or was dropped. */
  ghost predicate Consumed(s: State) {
    multiset(s.log.taken) == multiset(s.log.prepared) + multiset(Held(s.th.call)) + multiset(s.log.dropped)
  }

  /** Every prepared request is in the submission ring, in the kernel, or has its CQE. */
  ghost predicate Staged(s: State) {
    multiset(s.log.prepared) == multiset(s.rings.sq) + s.rings.kernel + multiset(Reqs(s.log.posted))
  }

  function Flatten(batches: seq<Batch>): seq<Request> {
    if batches == [] then [] else Flatten(batches[..|batches| - 1]) + batches[|batches| - 1].reqs
  }

  /** The submits `GetSqe` made for `r`, in order. */
  function Tries(batches: seq<Batch>, r: Request): seq<Batch> {
    if batches == [] then []
    else
      var last := batches[|batches| - 1];
      Tries(batches[..|batches| - 1], r) + if last.origin == RetryFlush(r) then [last] else []
  }

  /** None of the first `MAX_TRY - 1` submits took an entry. */
  predicate Futile(tries: seq<Batch>) {
    |tries| >= MAX_TRY - 1 && forall i :: 0 <= i < MAX_TRY - 1 ==> tries[i].reqs == []
  }

  predicate EndsLinked(rs: seq<Request>) {
    rs != [] && Links(rs[|rs| - 1])
  }

  predicate InDrain(th: Thread) {
    th.pc.Draining? || th.pc.Deciding? || th.call.InGetSqe?
  }

  /** The prepared stream is cut into batches by the submits. */
  ghost predicate Cut(s: State) {
    s.log.prepared == Flatten(s.log.batches) + s.rings.sq
  }

  /** `linked_sqe_` tells how the ring ends, and a short submit is one that left something. */
  ghost predicate Flagged(c: Config, s: State) {
    && (s.rings.sq != [] ==> s.f.linked == EndsLinked(s.rings.sq))
    && (s.log.shortfall ==> s.rings.sq != [] && !c.fullAccept)
  }

  /** The worker stands outside the drain, or in a drain that has prepared nothing. */
  predicate Quiet(th: Thread) {
    !th.pc.Flushing? && !th.pc.Exited? && (InDrain(th) ==> th.drained == 0)
  }

  /** An unlinked ring outlives a drain only after a short submit; a flush is made only outside every chain. */
  ghost predicate Settled(c: Config, s: State) {
    && (c.threaded && Quiet(s.th) && s.rings.sq != [] && !s.f.linked ==> s.log.shortfall)
    && (c.threaded && s.th.pc.Flushing? ==> !s.f.linked)
  }

  /** Outside `GetSqe` a worker only makes its own flushes, and those that take the whole ring end outside every
      chain. */
  ghost predicate FlushedWhole(c: Config, s: State) {
    forall b :: b in s.log.batches ==>
      && (c.threaded ==> !b.origin.UserFlush?)
      && (c.fullAccept ==> b.whole)
      && (c.threaded && b.origin.MainFlush? && b.whole ==> !EndsLinked(b.reqs))
  }

  /** A worker about to block, or blocked, has no work it was not told about. */
  ghost predicate Parked(s: State) {
    && (s.th.pc.Parking? ==> s.sink.queue == [] && s.f.count <= 0)
    && (s.th.pc.Blocked? ==> s.f.count <= 0 && (s.sink.queue != [] ==> s.sink.owed > 0))
  }

  /** Submits the current `GetSqe` call has made. */
  function Attempts(th: Thread): nat {
    if th.call.NoCall? then 0
    else if th.pc.Reaping? || th.pc.Waiting? || th.pc.Handling? then th.call.t + 1
    else th.call.t
  }

  ghost predicate Patient(s: State) {
    s.th.call.InGetSqe? ==> if s.th.pc.Failing? then s.th.call.t == MAX_TRY else s.th.call.t < MAX_TRY
  }

  /** `GetSqe` submits only for the request it holds, and only while the ring is full: every submit but the last
      was in vain, and what the last one took is missing from a full ring.  It gave up on exactly the requests for
      which nine submits in a row took nothing. */
  ghost predicate TriedFor(c: Config, s: State, r: Request) {
    var tries := Tries(s.log.batches, r);
    && (r !in s.log.taken ==> tries == [])
    && (s.th.call.InGetSqe? && s.th.call.r == r ==> HeldTries(c, s, tries))
    && (r in s.log.dropped ==> |tries| == MAX_TRY && Futile(tries))
    && (r in s.log.prepared ==> |tries| < MAX_TRY && !Futile(tries))
  }

  ghost predicate HeldTries(c: Config, s: State, tries: seq<Batch>) {
    && |tries| == Attempts(s.th)
    && (forall i :: 0 <= i < |tries| - 1 ==> tries[i].reqs == [])
    && (tries != [] ==> |s.rings.sq| + |tries[|tries| - 1].reqs| == c.sqEntries)
    && (s.th.pc.Resubmitting? ==> |s.rings.sq| == c.sqEntries)
  }

  /** What the worker may sleep through: once the flag is up, a worker about to block or blocked either has a
      notification coming or missed the last one. */
  ghost predicate Heard(s: State) {
    && (s.sink.stopsOwed > 0 ==> s.sink.stop)
    && (s.log.missed ==> s.sink.stop && s.sink.stopsOwed == 0)
    && ((s.th.pc.Parking? || s.th.pc.Blocked?) && s.sink.stop && s.sink.stopsOwed == 0 ==> s.log.missed)
  }

  /** When submits take the whole ring, the first one makes room, so nothing is dropped or reordered. */
  ghost predicate Roomy(c: Config, s: State) {
    c.fullAccept ==>
      && s.log.dropped == []
      && s.log.taken == s.log.prepared + Held(s.th.call)
      && Attempts(s.th) <= 1
      && (s.th.pc.Resubmitting? ==> s.th.call.InGetSqe? && s.th.call.t == 0)
      && (Attempts(s.th) == 1 ==> s.rings.sq == [])
  }

  function Limit(c: Config): nat {
    if c.maxDrain == 0 then 1 else c.maxDrain
  }

  /** The drain count is the number of entries prepared since Drain passed its wait, and stays in its limit. */
  ghost predicate Bounded(c: Config, s: State) {
    && |s.rings.sq| <= c.sqEntries
    && (forall b :: b in s.log.batches ==> |b.reqs| <= c.sqEntries)
    && s.log.drainStart <= |s.log.prepared|
    && (c.threaded && InDrain(s.th) ==>
      && s.th.drained == |s.log.prepared| - s.log.drainStart
      && s.th.drained <= Limit(c)
      && (!s.th.pc.Deciding? ==> s.th.drained < Limit(c)))
  }

  predicate AllLinked(rs: seq<Request>) {
    forall i :: 0 <= i < |rs| ==> Links(rs[i])
  }

  /** A worker that drains one request at a time, with submits that take the whole ring: nothing is kept in the ring
      but an open chain, so a submit inside `GetSqe` takes a ring full of linked entries. */
  ghost predicate Eager(c: Config, s: State) {
    c.threaded && c.fullAccept && Limit(c) == 1 ==>
      && (s.rings.sq != [] ==> AllLinked(s.rings.sq[..|s.rings.sq| - 1]))
      && (forall b :: b in s.log.batches && b.origin.RetryFlush? ==> |b.reqs| == c.sqEntries && AllLinked(b.reqs))
  }

  // ---------------------------------------------------------------------------------------------------
  // One action

  lemma ModedStep(c: Config, s: State, a: Action)
    requires Enabled(c, s, a) && Moded(c, s)
    ensures Moded(c, Apply(c, s, a))
  {
    hide Links, More, Deliver, SetException, Fresh;
  }

  lemma QueueOrderStep(c: Config, s: State, a: Action)
    requires Enabled(c, s, a) && Moded(c, s) && QueueOrder(s)
    ensures QueueOrder(Apply(c, s, a))
  {
    hide Links, More, Deliver, SetException, Fresh;
  }

  /** These actions leave the kernel, the completion ring and the counter alone. */
  predicate OffRing(a: Action) {
    !a.Submit? && !a.Post? && !a.Gate? && !a.Reap? && !a.HandleNext? && !a.Advance?
  }

  lemma RingFrame(c: Config, s: State, a: Action)
    requires Enabled(c, s, a) && Moded(c, s) && OffRing(a)
    ensures var s' := Apply(c, s, a);
      && s'.rings.kernel == s.rings.kernel && s'.rings.cq == s.rings.cq && s'.f.count == s.f.count
      && s'.log.posted == s.log.posted && s'.log.handled == s.log.handled
      && s'.th.seen == s.th.seen && s'.th.peeked == s.th.peeked && (s'.th.pc.Handling? ==> s.th.pc.Handling?)
  {
    hide Links, More, Deliver, SetException, Fresh;
  }

  lemma RingOrderPost(c: Config, s: State, cqe: Cqe)
    requires cqe.req in s.rings.kernel && RingOrder(c, s)
    ensures RingOrder(c, OnPost(s, cqe))
  {
  }

  lemma RingOrderHandle(c: Config, s: State)
    requires s.th.seen < s.th.peeked <= |s.rings.cq| && RingOrder(c, s)
    ensures RingOrder(c, OnHandleNext(s))
  {
    hide Deliver;
    assert s.rings.cq[s.th.seen..] == [s.rings.cq[s.th.seen]] + s.rings.cq[s.th.seen + 1..];
  }

  lemma RingOrderAdvance(c: Config, s: State)
    requires s.th.seen == s.th.peeked <= |s.rings.cq| && RingOrder(c, s)
    ensures RingOrder(c, OnAdvance(c, s))
  {
    assert s.rings.cq[s.th.peeked..][0..] == s.rings.cq[s.th.peeked..];
  }

  lemma RingOrderStep(c: Config, s: State, a: Action)
    requires Enabled(c, s, a) && Moded(c, s) && RingOrder(c, s)
    ensures RingOrder(c, Apply(c, s, a))
  {
    hide Links, More, Deliver, SetException, Fresh;
    if OffRing(a) {
      RingFrame(c, s, a);
      hide Apply;
    } else {
      match a
      case Post(cqe) => RingOrderPost(c, s, cqe); hide RingOrder;
      case HandleNext => RingOrderHandle(c, s); hide RingOrder;
      case Advance => RingOrderAdvance(c, s); hide RingOrder;
      case _ =>
    }
  }

  lemma CountedSubmit(c: Config, s: State, k: nat)
    requires k <= |s.rings.sq| && Counted(s)
    ensures Counted(OnSubmit(c, s, k))
  {
    assert |multiset(s.rings.sq[..k])| == k;
  }

  lemma CountedStep(c: Config, s: State, a: Action)
    requires Enabled(c, s, a) && Moded(c, s) && Counted(s)
    ensures Counted(Apply(c, s, a))
  {
    hide Links, More, Deliver, SetException, Fresh;
    if OffRing(a) {
      RingFrame(c, s, a);
      hide Apply;
    } else if a.Submit? {
      CountedSubmit(c, s, a.k);
    }
  }

  lemma ReqsAppend(cqes: seq<Cqe>, cqe: Cqe)
    ensures Reqs(cqes + [cqe]) == Reqs(cqes) + [cqe.req]
  {
  }

  lemma StagedSubmit(c: Config, s: State, k: nat)
    requires k <= |s.rings.sq| && Staged(s)
    ensures Staged(OnSubmit(c, s, k))
  {
    var sq := s.rings.sq;
    assert multiset(sq) == multiset(sq[..k]) + multiset(sq[k..]) by {
      assert sq == sq[..k] + sq[k..];
    }
  }

  lemma StagedPost(s: State, cqe: Cqe)
    requires cqe.req in s.rings.kernel && Staged(s)
    ensures Staged(OnPost(s, cqe))
  {
    ReqsAppend(s.log.posted, cqe);
  }

  lemma StagedTake(c: Config, s: State)
    requires s.th.call.InGetSqe? && Staged(s)
    ensures Staged(OnTakeSqe(c, s))
  {
    hide Links;
  }

  /** All other actions leave entries and CQEs where they are. */
  lemma EntryFrame(c: Config, s: State, a: Action)
    requires Enabled(c, s, a) && Moded(c, s) && !a.Post? && !a.Submit? && !a.TakeSqe?
    ensures var s' := Apply(c, s, a);
      && s'.log.prepared == s.log.prepared && s'.log.posted == s.log.posted && s'.log.batches == s.log.batches
      && s'.rings.sq == s.rings.sq && s'.rings.kernel == s.rings.kernel
  {
    hide Links, More, Deliver, SetException, Fresh;
  }

  lemma StagedStep(c: Config, s: State, a: Action)
    requires Enabled(c, s, a) && Moded(c, s) && Staged(s)
    ensures Staged(Apply(c, s, a))
  {
    match a
    case Post(cqe) => StagedPost(s, cqe); hide Staged;
    case Submit(k) => StagedSubmit(c, s, k); hide Staged;
    case TakeSqe => StagedTake(c, s); hide Staged;
    case _ => EntryFrame(c, s, a); hide Apply;
  }

  lemma ConsumedDrainNext(s: State)
    requires s.th.call.NoCall? && Consumed(s)
    ensures Consumed(OnDrainNext(s))
  {
  }

  lemma ConsumedCallSubmit(s: State, r: Request, garbage: bv32)
    requires s.th.call.NoCall? && Consumed(s)
    ensures Consumed(OnCallSubmit(s, r, garbage))
  {
  }

  lemma ConsumedTake(c: Config, s: State)
    requires s.th.call.InGetSqe? && Consumed(s)
    ensures Consumed(OnTakeSqe(c, s))
  {
  }

  lemma ConsumedGiveUp(c: Config, s: State)
    requires s.th.call.InGetSqe? && Consumed(s)
    ensures Consumed(GiveUp(c, s, s.th.call.r))
  {
  }

  /** All other actions leave the flow of requests through the drain alone. */
  lemma FlowFrame(c: Config, s: State, a: Action)
    requires Enabled(c, s, a) && Moded(c, s)
    requires !a.DrainNext? && !a.CallSubmit? && !a.TakeSqe? && !a.Fail?
    ensures var s' := Apply(c, s, a);
      && s'.log.taken == s.log.taken && s'.log.prepared == s.log.prepared && s'.log.dropped == s.log.dropped
      && Held(s'.th.call) == Held(s.th.call)
  {
    hide Links, More, Deliver, SetException, Fresh;
  }

  lemma ConsumedFrame(s: State, s': State)
    requires Consumed(s) && Held(s'.th.call) == Held(s.th.call)
    requires s'.log.taken == s.log.taken && s'.log.prepared == s.log.prepared && s'.log.dropped == s.log.dropped
    ensures Consumed(s')
  {
  }

  /** What `Consumed` needs of control: a request is held exactly where `GetSqe` is called. */
  lemma ConsumedControl(c: Config, s: State, a: Action)
    requires Enabled(c, s, a) && Moded(c, s)
    ensures a.DrainNext? || a.CallSubmit? ==> s.th.call.NoCall?
    ensures a.TakeSqe? || a.Fail? ==> s.th.call.InGetSqe?
  {
  }

  lemma ConsumedStep(c: Config, s: State, a: Action)
    requires Enabled(c, s, a) && Moded(c, s) && Consumed(s)
    ensures Consumed(Apply(c, s, a))
  {
    hide Consumed, Moded, Held;
    ConsumedControl(c, s, a);
    if a.DrainNext? {
      ConsumedDrainNext(s);
    } else if a.CallSubmit? {
      ConsumedCallSubmit(s, a.r, a.garbage);
    } else if a.TakeSqe? {
      ConsumedTake(c, s);
    } else if a.Fail? {
      ConsumedGiveUp(c, s);
    } else {
      FlowFrame(c, s, a);
      hide Apply;
      ConsumedFrame(s, Apply(c, s, a));
    }
  }

  lemma FlattenAppend(batches: seq<Batch>, b: Batch)
    ensures Flatten(batches + [b]) == Flatten(batches) + b.reqs
  {
    assert (batches + [b])[..|batches|] == batches;
  }

  lemma TriesAppend(batches: seq<Batch>, b: Batch, r: Request)
    ensures b.origin == RetryFlush(r) ==> Tries(batches + [b], r) == Tries(batches, r) + [b]
    ensures b.origin != RetryFlush(r) ==> Tries(batches + [b], r) == Tries(batches, r)
  {
    assert (batches + [b])[..|batches|] == batches;
  }

  lemma CutSubmit(c: Config, s: State, k: nat)
    requires k <= |s.rings.sq| && Cut(s)
    ensures Cut(OnSubmit(c, s, k))
  {
    FlattenAppend(s.log.batches, Batch(s.rings.sq[..k], SubmitOrigin(c, s.th), k == |s.rings.sq|));
    hide Flatten;
    assert s.rings.sq == s.rings.sq[..k] + s.rings.sq[k..];
  }

  lemma CutTake(c: Config, s: State)
    requires s.th.call.InGetSqe? && Cut(s)
    ensures Cut(OnTakeSqe(c, s))
  {
    hide Flatten, Links;
  }

  lemma CutStep(c: Config, s: State, a: Action)
    requires Enabled(c, s, a) && Moded(c, s) && Cut(s)
    ensures Cut(Apply(c, s, a))
  {
    match a
    case Submit(k) => CutSubmit(c, s, k); hide Cut;
    case TakeSqe => CutTake(c, s); hide Cut;
    case Post(_) =>
    case _ => EntryFrame(c, s, a); hide Apply;
  }

  lemma FlaggedSubmit(c: Config, s: State, k: nat)
    requires Enabled(c, s, Submit(k)) && Flagged(c, s)
    ensures Flagged(c, OnSubmit(c, s, k))
  {
    hide Links, More;
  }

  lemma FlaggedTake(c: Config, s: State)
    requires s.th.call.InGetSqe? && Flagged(c, s)
    ensures Flagged(c, OnTakeSqe(c, s))
  {
    hide Links, More;
  }

  /** All other actions leave the submission ring and its flags alone. */
  lemma FlagFrame(c: Config, s: State, a: Action)
    requires Enabled(c, s, a) && !a.Submit? && !a.TakeSqe?
    ensures var s' := Apply(c, s, a);
      s'.rings.sq == s.rings.sq && s'.f.linked == s.f.linked && s'.log.shortfall == s.log.shortfall
  {
    hide Links, More, Deliver, SetException, Fresh;
  }

  lemma FlaggedStep(c: Config, s: State, a: Action)
    requires Enabled(c, s, a) && Flagged(c, s)
    ensures Flagged(c, Apply(c, s, a))
  {
    match a
    case Submit(k) => FlaggedSubmit(c, s, k); hide Flagged;
    case TakeSqe => FlaggedTake(c, s); hide Flagged;
    case _ => FlagFrame(c, s, a); hide Apply;
  }

  lemma SettledStep(c: Config, s: State, a: Action)
    requires Enabled(c, s, a) && Moded(c, s) && Settled(c, s)
    ensures Settled(c, Apply(c, s, a))
  {
    hide Links, More, Deliver, SetException, Fresh;
  }

  lemma FlushedWholeStep(c: Config, s: State, a: Action)
    requires Enabled(c, s, a) && Moded(c, s) && Flagged(c, s) && Settled(c, s) && FlushedWhole(c, s)
    ensures FlushedWhole(c, Apply(c, s, a))
  {
    hide Links, More, Deliver, SetException, Fresh;
  }

  lemma ParkedStep(c: Config, s: State, a: Action)
    requires Enabled(c, s, a) && Moded(c, s) && Parked(s)
    ensures Parked(Apply(c, s, a))
  {
    hide Links, More, Deliver, SetException, Fresh;
  }

  lemma PatientStep(c: Config, s: State, a: Action)
    requires Enabled(c, s, a) && Moded(c, s) && Patient(s)
    ensures Patient(Apply(c, s, a))
  {
    hide Links, More, Deliver, SetException, Fresh;
  }

  lemma HeardStep(c: Config, s: State, a: Action)
    requires Enabled(c, s, a) && Moded(c, s) && Heard(s)
    ensures Heard(Apply(c, s, a))
  {
    hide Links, More, Deliver, SetException, Fresh;
  }

  /** The request `GetSqe` works for is neither prepared nor dropped yet. */
  lemma HeldIsNew(s: State)
    requires Consumed(s) && QueueOrder(s) && DistinctIds(s.log.accepted) && s.th.call.InGetSqe?
    ensures s.th.call.r !in s.log.prepared && s.th.call.r !in s.log.dropped && s.th.call.r in s.log.taken
  {
    var r := s.th.call.r;
    assert r in multiset(Held(s.th.call));
    assert r in multiset(s.log.taken);
    DistinctOccurOnce(s.log.accepted, r);
    assert multiset(s.log.accepted) == multiset(s.log.taken) + multiset(s.sink.queue);
    assert multiset(s.log.prepared)[r] == 0 && multiset(s.log.dropped)[r] == 0;
    assert r !in multiset(s.log.prepared) && r !in multiset(s.log.dropped);
  }

  lemma HeldTriesSubmit(c: Config, s: State, k: nat, tries: seq<Batch>)
    requires s.th.pc.Resubmitting? && s.th.call.InGetSqe? && k <= |s.rings.sq| && HeldTries(c, s, tries)
    ensures HeldTries(c, OnSubmit(c, s, k),
                tries + [Batch(s.rings.sq[..k], RetryFlush(s.th.call.r), k == |s.rings.sq|)])
  {
    assert tries != [] ==> tries[|tries| - 1].reqs == [];
  }

  lemma TriedForOwnSubmit(c: Config, s: State, k: nat)
    requires s.th.pc.Resubmitting? && s.th.call.InGetSqe? && k <= |s.rings.sq| && TriedFor(c, s, s.th.call.r)
    requires s.th.call.r !in s.log.prepared && s.th.call.r !in s.log.dropped && s.th.call.r in s.log.taken
    ensures TriedFor(c, OnSubmit(c, s, k), s.th.call.r)
  {
    var r := s.th.call.r;
    TriesAppend(s.log.batches, Batch(s.rings.sq[..k], RetryFlush(r), k == |s.rings.sq|), r);
    HeldTriesSubmit(c, s, k, Tries(s.log.batches, r));
    hide Tries, Futile, HeldTries;
  }

  lemma TriedForOtherSubmit(c: Config, s: State, k: nat, r: Request)
    requires k <= |s.rings.sq| && TriedFor(c, s, r)
    requires SubmitOrigin(c, s.th) != RetryFlush(r) && (s.th.call.InGetSqe? ==> s.th.call.r != r)
    ensures TriedFor(c, OnSubmit(c, s, k), r)
  {
    TriesAppend(s.log.batches, Batch(s.rings.sq[..k], SubmitOrigin(c, s.th), k == |s.rings.sq|), r);
    hide Tries, Futile, HeldTries;
  }

  lemma TriedForPrepare(c: Config, s: State, r: Request)
    requires Enabled(c, s, TakeSqe) && TriedFor(c, s, r) && Patient(s) && |s.rings.sq| < c.sqEntries
    ensures TriedFor(c, Prepare(c, s, s.th.call.r), r)
  {
    var tries, s' := Tries(s.log.batches, r), Prepare(c, s, s.th.call.r);
    hide Tries, Links;
    if s.th.call.r == r {
      assert tries != [] ==> tries[|tries| - 1].reqs != [];
      assert |tries| < MAX_TRY && !Futile(tries);
    } else {
      assert r in s'.log.prepared ==> r in s.log.prepared;
    }
  }

  lemma TriedForTake(c: Config, s: State, r: Request)
    requires Enabled(c, s, TakeSqe) && TriedFor(c, s, r) && Patient(s) && |s.rings.sq| <= c.sqEntries
    ensures TriedFor(c, OnTakeSqe(c, s), r)
  {
    if |s.rings.sq| < c.sqEntries {
      TriedForPrepare(c, s, r);
      hide TriedFor, Prepare;
    } else {
      hide Tries, Futile;
    }
  }

  lemma TriedForDrainNext(c: Config, s: State, r: Request)
    requires Enabled(c, s, DrainNext) && Moded(c, s) && TriedFor(c, s, r)
    requires QueueOrder(s) && DistinctIds(s.log.accepted)
    ensures TriedFor(c, OnDrainNext(s), r)
  {
    hide Tries, Futile;
    if s.sink.queue != [] {
      assert s.log.accepted[|s.log.taken|] == s.sink.queue[0];
      forall i | 0 <= i < |s.log.taken| ensures s.log.taken[i] != s.sink.queue[0] {
        assert s.log.taken[i] == s.log.accepted[i];
      }
    }
  }

  lemma TriedForFail(c: Config, s: State, r: Request)
    requires Enabled(c, s, Fail) && TriedFor(c, s, r) && Patient(s)
    ensures TriedFor(c, GiveUp(c, s, s.th.call.r), r)
  {
    hide Tries, SetException, More;
  }

  /** The number of submits made by `GetSqe` for the request it holds does not change but by a submit. */
  lemma AttemptsFrame(c: Config, s: State, a: Action)
    requires Enabled(c, s, a) && Moded(c, s) && Patient(s)
    requires !a.Submit? && !a.TakeSqe? && !a.DrainNext? && !a.Fail? && !a.CallSubmit?
    ensures Attempts(Apply(c, s, a).th) == Attempts(s.th)
    ensures Apply(c, s, a).th.pc.Resubmitting? ==> s.th.pc.Resubmitting?
  {
    hide Links, More, Deliver, SetException, Fresh;
  }

  /** All other actions leave the submits and the requests they were made for alone. */
  lemma TriesFrame(c: Config, s: State, a: Action)
    requires Enabled(c, s, a) && Moded(c, s) && Patient(s)
    requires !a.Submit? && !a.TakeSqe? && !a.DrainNext? && !a.Fail? && !a.CallSubmit?
    ensures var s' := Apply(c, s, a);
      && s'.log.batches == s.log.batches && s'.log.taken == s.log.taken && s'.rings.sq == s.rings.sq
      && s'.log.prepared == s.log.prepared && s'.log.dropped == s.log.dropped
      && Held(s'.th.call) == Held(s.th.call) && Attempts(s'.th) == Attempts(s.th)
      && (s'.th.pc.Resubmitting? ==> s.th.pc.Resubmitting?)
  {
    AttemptsFrame(c, s, a);
    FlowFrame(c, s, a);
    if !a.Post? {
      EntryFrame(c, s, a);
      hide Apply;
    }
    hide Moded, Patient, Attempts, Held;
  }

  lemma TriedForStep(c: Config, s: State, a: Action, r: Request)
    requires Enabled(c, s, a) && Moded(c, s) && Patient(s) && TriedFor(c, s, r)
    requires Consumed(s) && QueueOrder(s) && DistinctIds(s.log.accepted) && |s.rings.sq| <= c.sqEntries
    requires a.CallSubmit? ==> a.r !in s.log.taken
    ensures TriedFor(c, Apply(c, s, a), r)
  {
    if s.th.call.InGetSqe? {
      HeldIsNew(s);
    }
    hide Tries, Futile, Consumed, QueueOrder, DistinctIds;
    if a.Submit? {
      if s.th.pc.Resubmitting? && s.th.call.r == r {
        TriedForOwnSubmit(c, s, a.k);
      } else {
        TriedForOtherSubmit(c, s, a.k, r);
      }
      hide TriedFor;
    } else if a.TakeSqe? {
      TriedForTake(c, s, r);
      hide TriedFor;
    } else if a.DrainNext? {
      TriedForDrainNext(c, s, r);
      hide TriedFor;
    } else if a.Fail? {
      TriedForFail(c, s, r);
      hide TriedFor;
    } else if !a.CallSubmit? {
      TriesFrame(c, s, a);
      hide Apply;
    }
  }

  lemma RoomyStep(c: Config, s: State, a: Action)
    requires Enabled(c, s, a) && Moded(c, s) && Patient(s) && Roomy(c, s)
    ensures Roomy(c, Apply(c, s, a))
  {
    hide Links, More, Deliver, SetException, Fresh;
  }

  lemma BoundedSubmit(c: Config, s: State, k: nat)
    requires Enabled(c, s, Submit(k)) && Moded(c, s) && Bounded(c, s)
    ensures Bounded(c, OnSubmit(c, s, k))
  {
  }

  lemma BoundedTake(c: Config, s: State)
    requires Enabled(c, s, TakeSqe) && Moded(c, s) && Bounded(c, s)
    ensures Bounded(c, OnTakeSqe(c, s))
  {
    hide Links;
  }

  lemma BoundedStep(c: Config, s: State, a: Action)
    requires Enabled(c, s, a) && Moded(c, s) && Bounded(c, s)
    ensures Bounded(c, Apply(c, s, a))
  {
    hide Links, More, Deliver, SetException, Fresh;
    match a
    case Submit(k) => BoundedSubmit(c, s, k); hide Bounded;
    case TakeSqe => BoundedTake(c, s); hide Bounded;
    case Post(_) =>
    case _ => EntryFrame(c, s, a);
  }

  /** In such a run the ring holds an open chain whenever the worker stands before, or at the first request of,
      a drain. */
  lemma EagerRing(c: Config, s: State)
    requires c.threaded && c.fullAccept && Limit(c) == 1
    requires Flagged(c, s) && Settled(c, s) && Eager(c, s) && Quiet(s.th)
    ensures AllLinked(s.rings.sq)
  {
    var sq := s.rings.sq;
    if sq != [] {
      assert Links(sq[|sq| - 1]);
      forall i | 0 <= i < |sq| - 1 ensures Links(sq[i]) {
        assert sq[..|sq| - 1][i] == sq[i];
      }
    }
  }

  lemma EagerSubmit(c: Config, s: State, k: nat)
    requires Enabled(c, s, Submit(k)) && Eager(c, s)
    requires c.threaded && c.fullAccept && Limit(c) == 1 && s.th.pc.Resubmitting? ==>
      |s.rings.sq| == c.sqEntries && AllLinked(s.rings.sq)
    ensures Eager(c, OnSubmit(c, s, k))
  {
    hide Links;
    if c.fullAccept {
      assert s.rings.sq[..k] == s.rings.sq;
    }
  }

  lemma EagerTake(c: Config, s: State)
    requires s.th.call.InGetSqe? && Eager(c, s)
    requires c.threaded && c.fullAccept && Limit(c) == 1 ==> AllLinked(s.rings.sq)
    ensures Eager(c, OnTakeSqe(c, s))
  {
    hide Links;
    assert (s.rings.sq + [s.th.call.r])[..|s.rings.sq|] == s.rings.sq;
  }

  lemma EagerStep(c: Config, s: State, a: Action)
    requires Enabled(c, s, a) && Moded(c, s) && Flagged(c, s) && Settled(c, s) && Bounded(c, s) && Eager(c, s)
    requires s.th.pc.Resubmitting? ==> |s.rings.sq| == c.sqEntries
    ensures Eager(c, Apply(c, s, a))
  {
    if a.Submit? || a.TakeSqe? {
      if c.threaded && c.fullAccept && Limit(c) == 1 && s.th.call.InGetSqe? {
        EagerRing(c, s);
      }
      hide Flagged, Settled, Bounded, Eager, AllLinked;
      if a.Submit? {
        EagerSubmit(c, s, a.k);
      } else {
        EagerTake(c, s);
      }
    } else if !a.Post? {
      EntryFrame(c, s, a);
      hide Apply;
    }
  }
}
