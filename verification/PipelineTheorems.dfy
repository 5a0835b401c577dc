/** The main results about the request pipeline: each holds in the state after any run from the start. */
module PipelineTheorems {
  import opened Requests
  import opened Completions
  import opened Pipeline
  import opened PipelineInvariants
  import opened Lifecycle

  ghost predicate Inv(c: Config, s: State) {
    && Placed(c, s) && Counted(s) && Cut(s)
    && Flagged(c, s) && Settled(c, s) && FlushedWhole(c, s) && Parked(s)
    && Patient(s) && Roomy(c, s) && Bounded(c, s) && Heard(s)
    && Owned(s) && SingleShot(s) && Lived(c, s)
    && Eager(c, s)
    && forall r :: TriedFor(c, s, r)
  }

  lemma TriedForKept(c: Config, s: State, a: Action, r: Request)
    requires Enabled(c, s, a) && Placed(c, s) && Patient(s) && Bounded(c, s) && Owned(s) && TriedFor(c, s, r)
    ensures TriedFor(c, Apply(c, s, a), r)
  {
    hide Patient, TriedFor, Apply, Moded, Consumed, RingOrder, Staged;
    TriedForStep(c, s, a, r);
  }

  lemma EagerKept(c: Config, s: State, a: Action)
    requires Enabled(c, s, a) && Moded(c, s) && Flagged(c, s) && Settled(c, s) && Bounded(c, s) && Eager(c, s)
    requires forall r :: TriedFor(c, s, r)
    ensures Eager(c, Apply(c, s, a))
  {
    if s.th.pc.Resubmitting? {
      assert TriedFor(c, s, s.th.call.r);
    }
    hide Flagged, Settled, Bounded, Eager, Apply;
    EagerStep(c, s, a);
  }

  lemma InvStep(c: Config, s: State, a: Action)
    requires Enabled(c, s, a) && Inv(c, s)
    ensures Inv(c, Apply(c, s, a))
  {
    hide Enabled, Apply, Moded, QueueOrder, RingOrder, Counted, Staged, Consumed, Cut, Flagged, Settled, FlushedWhole;
    hide Parked, Patient, Roomy, Bounded, Heard, Owned, SingleShot, Lived, TriedFor, Eager;
    ModedStep(c, s, a);
    QueueOrderStep(c, s, a);
    RingOrderStep(c, s, a);
    CountedStep(c, s, a);
    StagedStep(c, s, a);
    ConsumedStep(c, s, a);
    CutStep(c, s, a);
    FlaggedStep(c, s, a);
    SettledStep(c, s, a);
    FlushedWholeStep(c, s, a);
    ParkedStep(c, s, a);
    PatientStep(c, s, a);
    RoomyStep(c, s, a);
    BoundedStep(c, s, a);
    HeardStep(c, s, a);
    OwnedStep(c, s, a);
    SingleShotStep(c, s, a);
    LivedStep(c, s, a);
    EagerKept(c, s, a);
    forall r ensures TriedFor(c, Apply(c, s, a), r) {
      TriedForKept(c, s, a, r);
    }
  }

  lemma {:induction false} InvAlong(c: Config, path: seq<State>, i: nat)
    requires Run(c, path) && Inv(c, path[0]) && i < |path|
    ensures Inv(c, path[i])
  {
    hide Inv;
    if i > 0 {
      InvAlong(c, path, i - 1);
      assert Moves(c, path, i - 1);
      var a :| Enabled(c, path[i - 1], a) && path[i] == Apply(c, path[i - 1], a);
      InvStep(c, path[i - 1], a);
    }
  }

  lemma InvInit(c: Config)
    ensures Inv(c, Init(c))
  {
  }

  /** `s` is the state after some run from the start. */
  ghost predicate Reachable(c: Config, s: State) {
    Reaches(c, Init(c), s)
  }

  lemma InvReachable(c: Config, s: State)
    requires Reachable(c, s)
    ensures Inv(c, s)
  {
    hide Inv;
    var path :| Run(c, path) && path[0] == Init(c) && path[|path| - 1] == s;
    InvInit(c);
    InvAlong(c, path, |path| - 1);
  }

  lemma LifecycleKnown(c: Config, s: State)
    requires Reachable(c, s)
    ensures Placed(c, s) && Owned(s) && SingleShot(s) && Lived(c, s)
  {
    InvReachable(c, s);
  }

  lemma RingKnown(c: Config, s: State)
    requires Reachable(c, s)
    ensures Moded(c, s) && RingOrder(c, s) && Flagged(c, s) && Settled(c, s) && Eager(c, s) && Bounded(c, s)
  {
    InvReachable(c, s);
  }

  lemma ControlClean(c: Config, s: State)
    requires Reachable(c, s)
    ensures Moded(c, s)
  {
    InvReachable(c, s);
  }

  lemma RingBound(c: Config, s: State)
    requires Reachable(c, s)
    ensures |s.rings.sq| <= c.sqEntries
  {
    InvReachable(c, s);
  }

  // ---------------------------------------------------------------------------------------------------
  // Conservation and order

  /** How often `r` occurs in each place a request can be, added up. */
  ghost function Places(s: State, r: Request): nat {
    multiset(s.sink.queue)[r] + multiset(Held(s.th.call))[r] + multiset(s.rings.sq)[r] + s.rings.kernel[r]
    + multiset(Reqs(s.rings.cq[Min(s.th.seen, |s.rings.cq|)..]))[r] + multiset(Reqs(s.log.handled))[r]
    + multiset(s.log.dropped)[r]
  }

  lemma Conservation(c: Config, s: State, r: Request)
    requires Reachable(c, s)
    ensures Places(s, r) == if r in s.log.accepted then 1 else 0
  {
    LifecycleKnown(c, s);
    Census(c, s);
    DistinctOccurOnce(s.log.accepted, r);
  }

  /** A request that was passed to `consume` and is no longer held by `GetSqe` was dropped exactly when the first
      nine submits made for it took nothing, and prepared otherwise.  What the tenth took makes no difference. */
  lemma DroppedIff(c: Config, s: State, r: Request)
    requires Reachable(c, s) && r in s.log.taken && r !in Held(s.th.call)
    ensures var tries := Tries(s.log.batches, r);
      r in s.log.dropped <==> |tries| >= 9 && forall i :: 0 <= i < 9 ==> tries[i].reqs == []
    ensures r in s.log.dropped <==> r !in s.log.prepared
    ensures r in s.log.dropped <==> |Tries(s.log.batches, r)| == 10
  {
    hide Tries;
    DropsKnown(c, s, r);
    TakenIsPlaced(s, r);
  }

  /** With whole submits nothing is dropped, and at most one submit is made for each request. */
  lemma WholeSubmitsDropNothing(c: Config, s: State)
    requires c.fullAccept && Reachable(c, s)
    ensures s.log.dropped == [] && Attempts(s.th) <= 1
  {
    InvReachable(c, s);
  }

  lemma DropsKnown(c: Config, s: State, r: Request)
    requires Reachable(c, s)
    ensures TriedFor(c, s, r) && Consumed(s)
  {
    InvReachable(c, s);
  }

  lemma TakenIsPlaced(s: State, r: Request)
    requires Consumed(s) && r in s.log.taken && r !in Held(s.th.call)
    ensures r in s.log.prepared || r in s.log.dropped
  {
    assert r in multiset(s.log.taken);
    assert r in multiset(s.log.prepared) + multiset(s.log.dropped);
  }

  /** `consume` sees the accepted requests in order, CQEs are handled in ring order, each once; and when every
      submit takes the whole ring the kernel receives the accepted requests in order too. */
  lemma FifoOrder(c: Config, s: State)
    requires Reachable(c, s)
    ensures s.log.taken <= s.log.accepted
    ensures s.log.handled <= s.log.posted
    ensures c.fullAccept ==>
      s.log.accepted == Flatten(s.log.batches) + s.rings.sq + Held(s.th.call) + s.sink.queue
  {
    InvReachable(c, s);
  }

  /** The value Drain is about to return, when it was not stopped, is the number of requests it prepared. */
  lemma DrainCount(c: Config, s: State)
    requires Reachable(c, s) && s.th.pc.Deciding?
    ensures s.log.drainStart + s.th.drained == |s.log.prepared|
    ensures s.th.drained <= 1 || s.th.drained <= c.maxDrain
  {
    InvReachable(c, s);
  }

  // ---------------------------------------------------------------------------------------------------
  // The counter

  lemma CounterExact(c: Config, s: State)
    requires Reachable(c, s)
    ensures s.th.seen <= |s.rings.cq|
    ensures s.f.count == |s.rings.kernel| + |s.rings.cq[s.th.seen..]|
    ensures s.f.count >= 0
    ensures s.f.count == 0 <==> s.rings.kernel == multiset{} && s.rings.cq[s.th.seen..] == []
  {
    InvReachable(c, s);
  }

  // ---------------------------------------------------------------------------------------------------
  // Parking

  /** A blocked worker has nothing in the kernel and nothing to handle; a request in the queue still has its
      notification coming. */
  lemma ParkedIsIdle(c: Config, s: State)
    requires Reachable(c, s) && s.th.pc.Blocked?
    ensures s.rings.kernel == multiset{} && s.rings.cq == [] && s.f.count == 0
    ensures s.sink.queue != [] ==> s.sink.owed > 0
    ensures s.th.call.NoCall?
  {
    InvReachable(c, s);
    assert s.rings.cq[0..] == s.rings.cq;
  }

  /** The ring of a blocked worker ends outside every chain exactly when the last submit was short and the link flag
      is off. */
  lemma RingEndIff(c: Config, s: State)
    requires Reachable(c, s) && s.th.pc.Blocked?
    ensures s.rings.sq != [] && !EndsLinked(s.rings.sq) <==> s.log.shortfall && !s.f.linked
  {
    InvReachable(c, s);
  }

  /** With whole submits, what a blocked worker leaves unsubmitted ends in an open chain; other entries may stand
      before that chain. */
  lemma ParkedOnlyOnOpenChain(c: Config, s: State)
    requires Reachable(c, s) && s.th.pc.Blocked? && c.fullAccept
    ensures s.rings.sq != [] ==> s.f.linked && EndsLinked(s.rings.sq)
    ensures s.sink.queue == [] ==> s.log.accepted == s.log.prepared
  {
    InvReachable(c, s);
  }

  /** With whole submits, a blocked worker leaves nothing but an open chain if it drains one request at a time, or if
      the ring has one entry. */
  lemma ParkedClean(c: Config, s: State)
    requires c.threaded && c.fullAccept && Reachable(c, s) && s.th.pc.Blocked?
    requires Limit(c) == 1 || c.sqEntries == 1
    ensures AllLinked(s.rings.sq)
  {
    RingKnown(c, s);
    hide Reachable;
    if Limit(c) == 1 {
      EagerRing(c, s);
    } else if s.rings.sq != [] {
      assert EndsLinked(s.rings.sq) && |s.rings.sq| == 1;
    }
  }

  // ---------------------------------------------------------------------------------------------------
  // Link chains

  /** The index of the batch that carried position `p` of the submitted stream. */
  function BatchOf(batches: seq<Batch>, p: nat): nat
    requires p < |Flatten(batches)|
  {
    var front := batches[..|batches| - 1];
    if p < |Flatten(front)| then BatchOf(front, p) else |batches| - 1
  }

  /** No batch was submitted with its last chain still open. */
  ghost predicate ChainsWhole(batches: seq<Batch>) {
    forall m :: 0 <= m < |batches| ==> !EndsLinked(batches[m].reqs)
  }

  /** Positions `i` to `j` of `rs` are entries of one chain. */
  ghost predicate OneChain(rs: seq<Request>, i: nat, j: nat) {
    i <= j < |rs| && forall k :: i <= k < j ==> Links(rs[k])
  }

  lemma {:induction false} NeighboursTogether(batches: seq<Batch>, p: nat)
    requires ChainsWhole(batches) && p + 1 < |Flatten(batches)| && Links(Flatten(batches)[p])
    ensures BatchOf(batches, p) == BatchOf(batches, p + 1)
  {
    var front, last := batches[..|batches| - 1], batches[|batches| - 1].reqs;
    if p + 1 < |Flatten(front)| {
      NeighboursTogether(front, p);
    } else if p + 1 == |Flatten(front)| {
      EndOfFlatten(front);
    }
  }

  lemma {:induction false} EndOfFlatten(batches: seq<Batch>)
    requires ChainsWhole(batches) && Flatten(batches) != []
    ensures !EndsLinked(Flatten(batches))
  {
    var front, last := batches[..|batches| - 1], batches[|batches| - 1].reqs;
    if last == [] {
      assert Flatten(batches) == Flatten(front);
      EndOfFlatten(front);
    } else {
      assert !EndsLinked(batches[|batches| - 1].reqs);
    }
  }

  lemma {:induction false} ChainTogether(batches: seq<Batch>, i: nat, j: nat)
    requires ChainsWhole(batches) && OneChain(Flatten(batches), i, j)
    ensures BatchOf(batches, i) == BatchOf(batches, j)
    decreases j
  {
    if i < j {
      ChainTogether(batches, i, j - 1);
      NeighboursTogether(batches, j - 1);
    }
  }

  /** When submits take the whole ring and `GetSqe` never had to submit, every chain, whatever its length and
      however many drains built it, reaches the kernel in one submit. */
  lemma ChainAtomicity(c: Config, s: State, i: nat, j: nat)
    requires c.threaded && c.fullAccept && Reachable(c, s)
    requires forall b :: b in s.log.batches ==> !b.origin.RetryFlush?
    requires OneChain(Flatten(s.log.batches), i, j)
    ensures BatchOf(s.log.batches, i) == BatchOf(s.log.batches, j)
  {
    forall m | 0 <= m < |s.log.batches| ensures !EndsLinked(s.log.batches[m].reqs) {
      MainFlushEndsUnlinked(c, s, m);
    }
    ChainTogether(s.log.batches, i, j);
  }

  lemma {:induction false} BatchSpan(batches: seq<Batch>, n: nat, i: nat, j: nat)
    requires forall b :: b in batches ==> |b.reqs| <= n
    requires i <= j < |Flatten(batches)| && BatchOf(batches, i) == BatchOf(batches, j)
    ensures j - i < n
  {
    var front, last := batches[..|batches| - 1], batches[|batches| - 1];
    assert last in batches;
    if j < |Flatten(front)| {
      BatchSpan(front, n, i, j);
    } else if i < |Flatten(front)| {
      BatchOfBelow(front, i);
    }
  }

  lemma {:induction false} BatchOfBelow(batches: seq<Batch>, p: nat)
    requires p < |Flatten(batches)|
    ensures BatchOf(batches, p) < |batches|
  {
    var front := batches[..|batches| - 1];
    if p < |Flatten(front)| {
      BatchOfBelow(front, p);
    }
  }

  /** Where the last entry of batch `m` sits in the stream, and that the entry after it is in a later batch. */
  lemma {:induction false} LastOfBatch(batches: seq<Batch>, m: nat) returns (p: nat)
    requires m < |batches| && batches[m].reqs != []
    ensures p < |Flatten(batches)| && Flatten(batches)[p] == batches[m].reqs[|batches[m].reqs| - 1]
    ensures BatchOf(batches, p) == m && (p + 1 < |Flatten(batches)| ==> BatchOf(batches, p + 1) > m)
  {
    var front := batches[..|batches| - 1];
    assert Flatten(batches) == Flatten(front) + batches[|batches| - 1].reqs;
    if m == |batches| - 1 {
      p := |Flatten(batches)| - 1;
      assert |Flatten(front)| <= p;
    } else {
      p := LastOfBatch(front, m);
    }
  }

  /** Every chain of the submitted stream travelled in one batch, and the stream does not end inside a chain. */
  ghost predicate Atomic(batches: seq<Batch>) {
    && (forall i, j :: OneChain(Flatten(batches), i, j) ==> BatchOf(batches, i) == BatchOf(batches, j))
    && !EndsLinked(Flatten(batches))
  }

  lemma AtomicIffWhole(batches: seq<Batch>)
    ensures Atomic(batches) <==> ChainsWhole(batches)
  {
    if ChainsWhole(batches) {
      forall i, j | OneChain(Flatten(batches), i, j) ensures BatchOf(batches, i) == BatchOf(batches, j) {
        ChainTogether(batches, i, j);
      }
      if Flatten(batches) != [] {
        EndOfFlatten(batches);
      }
    } else {
      var m :| 0 <= m < |batches| && EndsLinked(batches[m].reqs);
      var p := LastOfBatch(batches, m);
      assert p + 1 < |Flatten(batches)| ==> OneChain(Flatten(batches), p, p + 1);
    }
  }

  /** A submit the worker's own checks do not keep from cutting a chain: made inside `GetSqe`, or cut short. */
  predicate Unguarded(b: Batch) {
    b.origin.RetryFlush? || !b.whole
  }

  /** Exactly when chains stay together: the chains submitted so far are unbroken if and only if no submit made
      inside `GetSqe`, and none that was cut short, ended in an open chain. */
  lemma ChainAtomicityIff(c: Config, s: State)
    requires c.threaded && Reachable(c, s)
    ensures Atomic(s.log.batches) <==>
      forall m :: 0 <= m < |s.log.batches| && Unguarded(s.log.batches[m]) ==> !EndsLinked(s.log.batches[m].reqs)
  {
    AtomicIffWhole(s.log.batches);
    forall m | 0 <= m < |s.log.batches| && !Unguarded(s.log.batches[m])
      ensures !EndsLinked(s.log.batches[m].reqs)
    {
      MainFlushEndsUnlinked(c, s, m);
    }
    hide Atomic, Reachable;
  }

  lemma MainFlushEndsUnlinked(c: Config, s: State, m: nat)
    requires c.threaded && Reachable(c, s) && m < |s.log.batches|
    requires c.fullAccept || s.log.batches[m].whole
    requires !s.log.batches[m].origin.RetryFlush?
    ensures !EndsLinked(s.log.batches[m].reqs)
  {
    InvReachable(c, s);
    assert s.log.batches[m] in s.log.batches;
  }

  /** A submit that cuts a chain took at least `n` entries of that chain. */
  ghost predicate CutsOnlyLong(batches: seq<Batch>, n: nat) {
    forall m :: 0 <= m < |batches| && EndsLinked(batches[m].reqs) ==>
      |batches[m].reqs| >= n && AllLinked(batches[m].reqs)
  }

  /** If the stream ends in an open chain, that chain has at least `n` entries. */
  lemma {:induction false} LongTail(batches: seq<Batch>, n: nat)
    requires CutsOnlyLong(batches, n) && EndsLinked(Flatten(batches))
    ensures var rs := Flatten(batches); |rs| >= n && forall k :: |rs| - n <= k < |rs| ==> Links(rs[k])
  {
    var front, last := batches[..|batches| - 1], batches[|batches| - 1].reqs;
    assert Flatten(batches) == Flatten(front) + last;
    if last == [] {
      LongTail(front, n);
    } else {
      assert EndsLinked(batches[|batches| - 1].reqs);
    }
  }

  /** Position `i` starts a chain. */
  ghost predicate StartsChain(rs: seq<Request>, i: nat)
    requires i < |rs|
  {
    i == 0 || !Links(rs[i - 1])
  }

  lemma LastChainIsLong(batches: seq<Batch>, n: nat, i: nat)
    requires CutsOnlyLong(batches, n) && EndsLinked(Flatten(batches))
    requires i < |Flatten(batches)| && StartsChain(Flatten(batches), i)
    ensures |Flatten(batches)| - i >= n
  {
    LongTail(batches, n);
  }

  lemma {:induction false} ShortNeighbours(batches: seq<Batch>, n: nat, i: nat, p: nat)
    requires CutsOnlyLong(batches, n) && i <= p < p + 1 < |Flatten(batches)| && p + 1 - i < n
    requires StartsChain(Flatten(batches), i) && Links(Flatten(batches)[p])
    ensures BatchOf(batches, p) == BatchOf(batches, p + 1)
  {
    var front := batches[..|batches| - 1];
    var rs, head := Flatten(batches), Flatten(front);
    assert rs == head + batches[|batches| - 1].reqs;
    if p + 1 < |head| {
      ShortNeighbours(front, n, i, p);
    } else if p + 1 == |head| {
      LastChainIsLong(front, n, i);
    }
  }

  lemma {:induction false} ShortTogether(batches: seq<Batch>, n: nat, i: nat, j: nat)
    requires CutsOnlyLong(batches, n) && OneChain(Flatten(batches), i, j) && j - i < n
    requires StartsChain(Flatten(batches), i)
    ensures BatchOf(batches, i) == BatchOf(batches, j)
    decreases j
  {
    if i < j {
      ShortTogether(batches, n, i, j - 1);
      ShortNeighbours(batches, n, i, j - 1);
    }
  }

  /** What a caller can rely on beforehand: with whole submits and a drain limit of one, the entries of a chain from
      its first to the one at `j` travel together exactly when they fit into the submission ring. */
  lemma ChainFitsIff(c: Config, s: State, i: nat, j: nat)
    requires c.threaded && c.fullAccept && Limit(c) == 1 && Reachable(c, s)
    requires OneChain(Flatten(s.log.batches), i, j) && StartsChain(Flatten(s.log.batches), i)
    ensures BatchOf(s.log.batches, i) == BatchOf(s.log.batches, j) <==> j - i < c.sqEntries
  {
    if j - i < c.sqEntries {
      RetriesCutOnlyLong(c, s);
      ShortTogether(s.log.batches, c.sqEntries, i, j);
    } else {
      LongChainSplit(c, s, i, j);
    }
  }

  lemma RetriesCutOnlyLong(c: Config, s: State)
    requires c.threaded && c.fullAccept && Limit(c) == 1 && Reachable(c, s)
    ensures CutsOnlyLong(s.log.batches, c.sqEntries)
  {
    InvReachable(c, s);
    forall m | 0 <= m < |s.log.batches| && EndsLinked(s.log.batches[m].reqs)
      ensures |s.log.batches[m].reqs| >= c.sqEntries && AllLinked(s.log.batches[m].reqs)
    {
      assert s.log.batches[m] in s.log.batches;
    }
  }

  /** The other direction: a chain of more entries than the submission ring holds is always split, so some
      submit ended in an open chain. */
  lemma LongChainSplit(c: Config, s: State, i: nat, j: nat)
    requires Reachable(c, s) && OneChain(Flatten(s.log.batches), i, j) && j - i >= c.sqEntries
    ensures BatchOf(s.log.batches, i) != BatchOf(s.log.batches, j)
    ensures !ChainsWhole(s.log.batches)
  {
    InvReachable(c, s);
    if BatchOf(s.log.batches, i) == BatchOf(s.log.batches, j) {
      BatchSpan(s.log.batches, c.sqEntries, i, j);
    }
    if ChainsWhole(s.log.batches) {
      ChainTogether(s.log.batches, i, j);
    }
  }

  // ---------------------------------------------------------------------------------------------------
  // Completions

  /** A dropped request was not handled. */
  lemma DroppedUnhandled(c: Config, s: State, r: Request)
    requires Placed(c, s) && Owned(s) && r in s.log.dropped
    ensures r in s.log.accepted && r !in Reqs(s.log.handled)
  {
    Census(c, s);
    assert r in multiset(s.log.dropped) && r in multiset(s.log.accepted);
    DistinctOccurOnce(s.log.accepted, r);
    assert r !in multiset(Reqs(s.log.handled));
  }

  /** Over a whole run every completion is resolved and deleted at most once, a handled CQE left its own
      completion in exactly the state `Delivered` describes, and one that is still queued, held, submitted or
      unread is untouched.  So is one whose request a worker dropped: nobody resolves it.  The completion of a refused
      direct call holds an exception, and leaks exactly when its uninitialised flags announce more CQEs. */
  lemma CompletionLifecycle(c: Config, s: State, r: Request)
    requires Reachable(c, s) && r in s.log.accepted
    ensures r.id in s.comps && s.comps[r.id].resolves <= 1 && s.comps[r.id].frees <= 1
    ensures !Finished(c, s, r) ==> Untouched(s.comps[r.id])
    ensures forall j :: 0 <= j < |s.log.handled| && s.log.handled[j].req == r ==>
      Delivered(s.comps[r.id], s.log.handled[j])
    ensures c.threaded && r in s.log.dropped ==> Untouched(s.comps[r.id])
    ensures !c.threaded && r in s.log.dropped ==>
      s.comps[r.id].promise.Exception? && (s.comps[r.id].frees == 0 <==> More(s.comps[r.id].flags))
  {
    LifecycleKnown(c, s);
    if r in s.log.dropped {
      DroppedUnhandled(c, s, r);
    }
    hide Placed, Reachable;
    if r in Reqs(s.log.handled) {
      var j :| 0 <= j < |s.log.handled| && Reqs(s.log.handled)[j] == r;
      assert s.log.handled[j].req == r;
    }
  }

  /** Whenever `HandleCqe` runs, or `GetSqe` gives up, the completion it may touch was neither resolved nor
      deleted before. */
  lemma TouchesOnlyLive(c: Config, s: State)
    requires Reachable(c, s)
    ensures Enabled(c, s, HandleNext) ==>
      var id := s.rings.cq[s.th.seen].req.id; id in s.comps && Untouched(s.comps[id])
    ensures s.th.call.InGetSqe? ==> s.th.call.r.id in s.comps && Untouched(s.comps[s.th.call.r.id])
  {
    LifecycleKnown(c, s);
    hide Reachable, Placed, SingleShot;
    if s.th.seen < |s.rings.cq| {
      UnreadUnfinished(c, s);
    }
    if s.th.call.InGetSqe? {
      HeldUnfinished(c, s);
    }
  }

  /** `HandleCqe` leaves the completion of the CQE it handles in the state `Delivered` describes. */
  lemma HandlingDelivers(c: Config, s: State)
    requires Reachable(c, s) && Enabled(c, s, HandleNext)
    ensures var cqe := s.rings.cq[s.th.seen];
      && cqe.req.id in s.comps && Untouched(s.comps[cqe.req.id]) && s.comps[cqe.req.id].gid == cqe.req.gid
      && Delivered(Deliver(s.comps[cqe.req.id], cqe), cqe)
  {
    LifecycleKnown(c, s);
    UnreadUnfinished(c, s);
  }

  // ---------------------------------------------------------------------------------------------------
  // Stop

  /** Exactly when Stop is missed: a blocked worker sleeps through it if and only if the last notification fell after
      its test and before its wait. */
  lemma StopMissedIff(c: Config, s: State)
    requires Reachable(c, s) && s.th.pc.Blocked?
    ensures s.sink.stop && s.sink.stopsOwed == 0 <==> s.log.missed
  {
    InvReachable(c, s);
  }

  /** The step from `path[i]` is a notification by Stop while the worker stands between its test and its wait. */
  predicate InGap(path: seq<State>, i: nat)
    requires i + 1 < |path|
  {
    path[i].th.pc.Parking? && path[i + 1].sink.stopsOwed < path[i].sink.stopsOwed
  }

  /** In a run in which no notification falls in that gap, every Stop is heard: a worker blocked in a stopped sink
      has a notification coming. */
  lemma StopHeard(c: Config, path: seq<State>)
    requires Run(c, path) && path[0] == Init(c)
    requires forall i :: 0 <= i < |path| - 1 ==> !InGap(path, i)
    ensures var s := path[|path| - 1]; s.th.pc.Blocked? && s.sink.stop ==> s.sink.stopsOwed > 0
  {
    NothingMissedAlong(c, path, |path| - 1);
    StopMissedIfBlocked(c, path);
  }

  lemma StopMissedIfBlocked(c: Config, path: seq<State>)
    requires Run(c, path) && path[0] == Init(c)
    ensures var s := path[|path| - 1];
      s.th.pc.Blocked? ==> (s.sink.stop && s.sink.stopsOwed == 0 <==> s.log.missed)
  {
    if path[|path| - 1].th.pc.Blocked? {
      StopMissedIff(c, path[|path| - 1]);
    }
  }

  lemma {:induction false} NothingMissedAlong(c: Config, path: seq<State>, i: nat)
    requires Run(c, path) && path[0] == Init(c) && i < |path|
    requires forall i :: 0 <= i < |path| - 1 ==> !InGap(path, i)
    ensures !path[i].log.missed
  {
    if i > 0 {
      NothingMissedAlong(c, path, i - 1);
      assert Moves(c, path, i - 1) && !InGap(path, i - 1);
      var a :| Enabled(c, path[i - 1], a) && path[i] == Apply(c, path[i - 1], a);
      if path[i].log.missed {
        MissedStep(c, path[i - 1], a);
      }
    }
  }

  /** Only a notification in the gap sets the bit. */
  lemma MissedStep(c: Config, s: State, a: Action)
    requires Enabled(c, s, a) && !s.log.missed && Apply(c, s, a).log.missed
    ensures s.th.pc.Parking? && Apply(c, s, a).sink.stopsOwed < s.sink.stopsOwed
  {
    hide Links, More, Deliver, SetException, Fresh;
  }

  /** A last notification in that gap is the one that is missed, and then the worker is free to
      block. */
  lemma NotifyInGapIsMissed(c: Config, s: State)
    requires Reachable(c, s) && s.sink.stopsOwed == 1
    ensures var t := OnNotifyAll(s); t.log.missed <==> s.th.pc.Parking?
    ensures s.th.pc.Parking? ==> exists t ::
      Reachable(c, t) && t.th.pc.Blocked? && t.sink == s.sink.(stopsOwed := 0) && t.sink.stop && t.log.missed
  {
    InvReachable(c, s);
    if s.th.pc.Parking? {
      var t := Then(c, s, NotifyAll);
      t := Then(c, t, Park);
    }
  }

  lemma Then(c: Config, s: State, a: Action) returns (t: State)
    requires Reachable(c, s) && Enabled(c, s, a)
    ensures t == Apply(c, s, a) && Reachable(c, t)
  {
    t := Apply(c, s, a);
    ReachesBy(c, Init(c), s, a);
  }
}
