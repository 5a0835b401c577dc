/** Runs in which a promise of the pipeline does not hold, each from the start and by actions alone.  The kernel is busy
    in them only while the completion ring overflows. */
module PipelineRuns {
  import opened Requests
  import opened Completions
  import opened Pipeline
  import opened PipelineInvariants
  import opened Lifecycle
  import opened PipelineTheorems

  // ---------------------------------------------------------------------------------------------------
  // A backlog of CQEs

  function Plain(id: nat): Request {
    Request(id, 0, 0, INVALID_BUFF_GID)
  }

  predicate Older(s: State, n: nat) {
    && (forall id :: id in s.comps ==> id < n)
    && (forall r :: r in s.rings.kernel ==> r.id < n)
    && (forall e :: e in s.rings.cq ==> e.req.id < n)
  }

  /** Nothing is on its way to the kernel, the driving thread stands before its next round, and requests from `n` on
      are unused. */
  ghost predicate AtRest(c: Config, s: State, n: nat) {
    && Reachable(c, s) && Older(s, n)
    && s.th == Thread(if c.threaded then Lock else Idle, s.th.drained, NoCall, 0, 0)
    && s.sink == Sink([], false, 0, 0) && s.rings.sq == [] && s.log.dropped == []
    && !s.f.stopConsume && s.f.count == |s.rings.kernel| + |s.rings.cq|
  }

  /** A producer enqueues and notifies; the worker is not asleep. */
  lemma Offer(c: Config, s: State, r: Request) returns (t: State)
    requires c.threaded && Reachable(c, s) && LockFree(s.th) && !s.th.pc.Blocked?
    requires r.id !in s.comps && s.sink.owed == 0
    ensures Reachable(c, t)
    ensures t == s.(sink := s.sink.(queue := s.sink.queue + [r]), comps := s.comps[r.id := Fresh(r.gid, 0)],
                    log := s.log.(accepted := s.log.accepted + [r]))
  {
    t := Then(c, s, Enqueue(r, 0));
    t := Then(c, t, Notify);
  }

  /** The worker passes its wait. */
  lemma PassWait(c: Config, s: State) returns (t: State)
    requires Reachable(c, s) && s.th.pc.Lock? && WaitDone(s)
    ensures Reachable(c, t)
    ensures t == s.(th := s.th.(pc := Draining, drained := 0), log := s.log.(drainStart := |s.log.prepared|))
  {
    t := Then(c, s, Acquire);
    t := Then(c, t, CheckWait);
  }

  /** The worker takes the next request and finds room for it. */
  lemma DrainOne(c: Config, s: State) returns (t: State)
    requires c.threaded && Reachable(c, s) && s.th.pc.Draining? && !s.sink.stop && s.sink.queue != []
    requires |s.rings.sq| < c.sqEntries
    ensures Reachable(c, t) && t.sink == s.sink.(queue := s.sink.queue[1..])
    ensures var r := s.sink.queue[0];
      && t.rings == s.rings.(sq := s.rings.sq + [r]) && t.f == s.f.(linked := Links(r)) && t.comps == s.comps
    ensures t.th == s.th.(pc := if s.th.drained + 1 >= c.maxDrain then Deciding else Draining,
                          drained := s.th.drained + 1, call := NoCall)
    ensures t.log == s.log.(taken := t.log.taken, prepared := t.log.prepared, shortfall := false)
  {
    t := Then(c, s, DrainNext);
    t := Then(c, t, TakeSqe);
  }

  /** The worker's wait fails and it blocks. */
  lemma Sleep(c: Config, s: State) returns (t: State)
    requires Reachable(c, s) && s.th.pc.Lock? && !WaitDone(s)
    ensures Reachable(c, t) && t == s.(th := At(s.th, Blocked))
  {
    t := Then(c, s, Acquire);
    t := Then(c, t, CheckWait);
    t := Then(c, t, Park);
  }

  /** The queue is empty and something was prepared outside every chain: the drain ends in a flush. */
  lemma DrainEnds(c: Config, s: State) returns (t: State)
    requires Reachable(c, s) && (s.th.pc.Draining? || s.th.pc.Deciding?)
    requires s.sink.queue == [] && !s.sink.stop && s.th.drained > 0 && !s.f.linked
    ensures Reachable(c, t) && t == s.(th := At(s.th, Flushing))
  {
    t := s;
    if s.th.pc.Draining? {
      t := Then(c, s, DrainNext);
    }
    t := Then(c, t, Decide);
  }

  lemma PreparedByWorker(c: Config, s: State, n: nat) returns (t: State)
    requires c.threaded && AtRest(c, s, n)
    ensures Reachable(c, t) && Older(t, n + 1) && t.th == Thread(Flushing, 1, NoCall, 0, 0)
    ensures t.sink == s.sink && t.rings == s.rings.(sq := [Plain(n)])
    ensures t.log.dropped == [] && t.f == s.f.(linked := false)
  {
    t := Offer(c, s, Plain(n));
    t := PassWait(c, t);
    t := DrainOne(c, t);
    t := DrainEnds(c, t);
  }

  lemma PreparedByCaller(c: Config, s: State, n: nat) returns (t: State)
    requires !c.threaded && AtRest(c, s, n)
    ensures Reachable(c, t) && Older(t, n + 1) && t.th == Thread(Flushing, s.th.drained, NoCall, 0, 0)
    ensures t.sink == s.sink && t.rings == s.rings.(sq := [Plain(n)])
    ensures t.log.dropped == [] && t.f == s.f.(linked := false)
  {
    t := Then(c, s, CallSubmit(Plain(n), 0));
    t := Then(c, t, TakeSqe);
    t := Then(c, t, CallFlush);
  }

  /** One more request in the kernel. */
  lemma SubmitOne(c: Config, s: State, n: nat) returns (t: State)
    requires AtRest(c, s, n) && s.rings.cq == []
    ensures AtRest(c, t, n + 1) && t.rings.cq == [] && |t.rings.kernel| == |s.rings.kernel| + 1
  {
    if c.threaded {
      t := PreparedByWorker(c, s, n);
    } else {
      t := PreparedByCaller(c, s, n);
    }
    assert t.rings.sq[..1] == [Plain(n)] && t.rings.sq[1..] == [];
    t := Then(c, t, Submit(1));
    if c.threaded {
      t := Then(c, t, Gate);
      t := Then(c, t, Reap(false, 0));
    }
  }

  lemma PostOne(c: Config, s: State, n: nat) returns (t: State)
    requires AtRest(c, s, n) && s.rings.kernel != multiset{}
    ensures AtRest(c, t, n) && |t.rings.kernel| == |s.rings.kernel| - 1 && |t.rings.cq| == |s.rings.cq| + 1
  {
    var r :| r in s.rings.kernel;
    t := Then(c, s, Post(Cqe(r, 0, 0)));
  }

  /** `n` requests were submitted and answered, and none of the answers was handled yet. */
  lemma Backlog(c: Config, n: nat) returns (s: State)
    ensures AtRest(c, s, n) && s.rings.kernel == multiset{} && |s.rings.cq| == n
  {
    ReachesSelf(c, Init(c));
    s := Init(c);
    for i := 0 to n
      invariant AtRest(c, s, i) && s.rings.cq == [] && |s.rings.kernel| == i
    {
      s := SubmitOne(c, s, i);
    }
    for i := 0 to n
      invariant AtRest(c, s, n) && |s.rings.cq| == i && |s.rings.kernel| == n - i
    {
      s := PostOne(c, s, n);
    }
  }

  // ---------------------------------------------------------------------------------------------------
  // Handling a part of it

  /** The completions of requests from `n` on. */
  ghost predicate SameFrom(s: State, t: State, n: nat) {
    forall id :: id >= n ==> (id in s.comps <==> id in t.comps) && (id in s.comps ==> s.comps[id] == t.comps[id])
  }

  /** The peeked CQEs are handled and the ring advances. */
  lemma HandlePeeked(c: Config, s: State, n: nat) returns (t: State)
    requires Reachable(c, s) && s.th.pc.Handling? && s.th.seen == 0 && s.th.peeked <= |s.rings.cq|
    requires forall e :: e in s.rings.cq ==> e.req.id < n
    ensures Reachable(c, t) && t.th == Leave(c, s.th) && t.sink == s.sink
    ensures t.rings == s.rings.(cq := s.rings.cq[s.th.peeked..]) && t.f == s.f.(count := s.f.count - s.th.peeked)
    ensures t.log == s.log.(handled := t.log.handled) && SameFrom(s, t, n)
  {
    t := s;
    for i := 0 to s.th.peeked
      invariant Reachable(c, t) && t.th == s.th.(seen := i) && t.sink == s.sink && t.rings == s.rings
      invariant t.f == s.f.(count := s.f.count - i) && t.log == s.log.(handled := t.log.handled) && SameFrom(s, t, n)
    {
      assert s.rings.cq[i] in s.rings.cq;
      t := Then(c, t, HandleNext);
    }
    t := Then(c, t, Advance);
  }

  /** How many CQEs one round handles when the completion ring is full. */
  function PerRound(c: Config): nat {
    Min(c.cqEntries, c.maxDrain)
  }

  /** Completion processing with CQEs there. */
  lemma ReapSome(c: Config, s: State, n: nat) returns (t: State)
    requires Reachable(c, s) && s.th.pc.Reaping? && s.f.count > 0 && !s.f.stopConsume && s.rings.cq != []
    requires forall e :: e in s.rings.cq ==> e.req.id < n
    ensures var k := Min(|s.rings.cq|, PerRound(c));
      && t.rings == s.rings.(cq := s.rings.cq[k..]) && t.f == s.f.(count := s.f.count - k)
    ensures Reachable(c, t) && t.th == Leave(c, s.th) && t.sink == s.sink
    ensures t.log == s.log.(handled := t.log.handled) && SameFrom(s, t, n)
  {
    t := Then(c, s, Gate);
    t := Then(c, t, Reap(true, c.maxDrain));
    t := HandlePeeked(c, t, n);
  }

  /** `GetSqe` works for `r` in its round `t` on a full ring, with `backlog` CQEs of older requests to handle. */
  ghost predicate Trying(c: Config, s: State, r: Request, n: nat, t: nat, backlog: nat) {
    && Reachable(c, s) && s.th == Thread(Getting, s.th.drained, InGetSqe(r, t), 0, 0)
    && |s.rings.sq| == c.sqEntries && s.rings.kernel == multiset{} && s.sink == Sink([], false, 0, 0)
    && |s.rings.cq| == backlog && (forall e :: e in s.rings.cq ==> e.req.id < n)
    && s.f.count == backlog && !s.f.stopConsume && s.log.dropped == []
  }

  /** One round of `GetSqe` in which the kernel is busy, because the completion ring overflows. */
  lemma BusyRound(c: Config, s: State, r: Request, n: nat, t: nat, backlog: nat) returns (u: State)
    requires !c.fullAccept && t + 1 < MAX_TRY && backlog > c.cqEntries && Trying(c, s, r, n, t, backlog)
    ensures Trying(c, u, r, n, t + 1, backlog - PerRound(c)) && SameFrom(s, u, n)
    ensures u.th.drained == s.th.drained
  {
    assert s.rings.sq[0..] == s.rings.sq && s.rings.sq[..0] == [];
    u := Then(c, s, TakeSqe);
    u := Then(c, u, Submit(0));
    u := ReapSome(c, u, n);
  }

  /** The tenth round: the kernel takes the ring, but `GetSqe` does not look again. */
  lemma TenthRound(c: Config, s: State, r: Request, n: nat, backlog: nat) returns (u: State)
    requires 0 < backlog <= c.cqEntries && Trying(c, s, r, n, MAX_TRY - 1, backlog)
    ensures Reachable(c, u) && u.th == Thread(Failing, s.th.drained, InGetSqe(r, MAX_TRY), 0, 0)
    ensures u.rings.sq == [] && u.log.dropped == [] && SameFrom(s, u, n) && u.sink == s.sink
  {
    var k := |s.rings.sq|;
    u := Then(c, s, TakeSqe);
    u := Then(c, u, Submit(k));
    u := ReapSome(c, u, n);
  }

  /** As many CQEs as keep the completion ring overflowing for that many rounds and one more. */
  function Enough(c: Config, rounds: nat): (n: nat)
    ensures n > c.cqEntries
  {
    if rounds == 0 then c.cqEntries + 1 else Enough(c, rounds - 1) + PerRound(c)
  }

  lemma {:induction false} BusyUntilTenth(c: Config, s: State, r: Request, n: nat, rounds: nat) returns (u: State)
    requires !c.fullAccept && rounds < MAX_TRY - 1 && Trying(c, s, r, n, MAX_TRY - 2 - rounds, Enough(c, rounds))
    ensures Trying(c, u, r, n, MAX_TRY - 1, c.cqEntries + 1 - PerRound(c)) && SameFrom(s, u, n)
    ensures u.th.drained == s.th.drained
    decreases rounds
  {
    u := BusyRound(c, s, r, n, MAX_TRY - 2 - rounds, Enough(c, rounds));
    if rounds > 0 {
      u := BusyUntilTenth(c, u, r, n, rounds - 1);
    }
  }

  /** For nine rounds and not for the tenth. */
  function NineRounds(c: Config): nat {
    Enough(c, MAX_TRY - 2)
  }

  lemma TriesInVain(c: Config, s: State, r: Request, n: nat) returns (u: State)
    requires !c.fullAccept && c.maxDrain > 0 && Trying(c, s, r, n, 0, NineRounds(c))
    ensures Reachable(c, u) && u.th == Thread(Failing, s.th.drained, InGetSqe(r, MAX_TRY), 0, 0)
    ensures u.rings.sq == [] && u.log.dropped == [] && SameFrom(s, u, n) && u.sink == s.sink
  {
    u := BusyUntilTenth(c, s, r, n, MAX_TRY - 2);
    u := TenthRound(c, u, r, n, c.cqEntries + 1 - PerRound(c));
  }

  // ---------------------------------------------------------------------------------------------------
  // Lost requests

  /** The request is dropped although the tenth submit emptied the ring: after nine busy submits `GetSqe` returns the
      null it fetched before the tenth.  The worker goes on, and nobody ever resolves the completion. */
  lemma DropsWithEmptyRing(c: Config) returns (s: State, r: Request)
    requires c.threaded && !c.fullAccept && c.sqEntries == 1 && c.maxDrain >= 2
    ensures Reachable(c, s) && s.log.dropped == [r] && s.rings.sq == []
    ensures s.th.pc.Deciding? && !s.sink.stop
    ensures r.id in s.comps && s.comps[r.id].promise.Unset?
  {
    var n := NineRounds(c);
    s := Backlog(c, n);
    r := Plain(n + 1);
    s := SecondFindsNoRoom(c, s, n);
    s := TriesInVain(c, s, r, n);
    s := Then(c, s, Fail);
  }

  /** With a ring of one entry: the first of two requests fills it, the second one finds it full. */
  lemma SecondFindsNoRoom(c: Config, s: State, n: nat) returns (t: State)
    requires c.threaded && c.sqEntries == 1 && c.maxDrain >= 2 && AtRest(c, s, n) && s.rings.kernel == multiset{}
    ensures Trying(c, t, Plain(n + 1), n, 0, |s.rings.cq|)
    ensures n + 1 in t.comps && t.comps[n + 1].promise.Unset?
  {
    t := Offer(c, s, Plain(n));
    t := Offer(c, t, Plain(n + 1));
    t := PassWait(c, t);
    t := DrainOne(c, t);
    t := Then(c, t, DrainNext);
  }

  lemma CallFindsNoRoom(c: Config, s: State, n: nat) returns (t: State)
    requires !c.threaded && c.sqEntries == 1 && AtRest(c, s, n) && s.rings.kernel == multiset{}
    ensures Trying(c, t, Plain(n + 1), n, 0, |s.rings.cq|)
    ensures n + 1 in t.comps && t.comps[n + 1] == Fresh(INVALID_BUFF_GID, IORING_CQE_F_MORE)
  {
    t := Then(c, s, CallSubmit(Plain(n), 0));
    t := Then(c, t, TakeSqe);
    t := Then(c, t, CallSubmit(Plain(n + 1), IORING_CQE_F_MORE));
  }

  /** A refused direct call whose completion is resolved but never deleted. */
  lemma RefusedCallLeaks(c: Config) returns (s: State, r: Request)
    requires !c.threaded && !c.fullAccept && c.sqEntries == 1 && c.maxDrain >= 1
    ensures Reachable(c, s) && s.th.pc.Idle? && r in s.log.dropped && r.id in s.comps
    ensures s.comps[r.id].promise.Exception? && s.comps[r.id].resolves == 1 && s.comps[r.id].frees == 0
  {
    var n := NineRounds(c);
    s := Backlog(c, n);
    r := Plain(n + 1);
    s := CallFindsNoRoom(c, s, n);
    s := TriesInVain(c, s, r, n);
    s := Then(c, s, Fail);
  }

  // ---------------------------------------------------------------------------------------------------
  // Requests left behind

  /** A round of the worker with nothing to drain. */
  lemma IdleRound(c: Config, s: State, r: Request, n: nat) returns (t: State)
    requires c.maxDrain > 0 && s.rings.cq != [] && Left(c, s, r, n)
    ensures Left(c, t, r, n) && |t.rings.cq| < |s.rings.cq|
  {
    t := PassWait(c, s);
    t := Then(c, t, DrainNext);
    t := Then(c, t, Decide);
    t := ReapSome(c, t, n);
  }

  /** The worker stands before its wait, with `r` in the ring and only CQEs to handle. */
  ghost predicate Left(c: Config, s: State, r: Request, n: nat) {
    && Reachable(c, s) && c.threaded && s.th == Thread(Lock, s.th.drained, NoCall, 0, 0)
    && s.sink == Sink([], false, 0, 0) && s.rings.sq == [r] && s.rings.kernel == multiset{} && !s.f.linked
    && (forall e :: e in s.rings.cq ==> e.req.id < n) && s.f.count == |s.rings.cq| && !s.f.stopConsume
  }

  /** A short submit can strand an ordinary request: after one busy submit the worker handles what is left and blocks,
      with the request unsubmitted, no chain open, and nobody left to wake it. */
  lemma ShortSubmitStrands(c: Config) returns (s: State, r: Request)
    requires c.threaded && !c.fullAccept && c.maxDrain > 0
    ensures Reachable(c, s) && !Links(r)
    ensures s.th.pc.Blocked? && s.rings.sq == [r] && !s.f.linked && s.sink == Sink([], false, 0, 0)
  {
    var n := c.cqEntries + 1;
    s := Backlog(c, n);
    r := Plain(n);
    s := PreparedByWorker(c, s, n);
    assert s.rings.sq[0..] == s.rings.sq && s.rings.sq[..0] == [];
    s := Then(c, s, Submit(0));
    s := ReapSome(c, s, n + 1);
    while s.rings.cq != []
      invariant Left(c, s, r, n + 1)
      decreases |s.rings.cq|
    {
      s := IdleRound(c, s, r, n + 1);
    }
    s := Sleep(c, s);
  }

  /** A worker at the head of its drain loop with two requests in the queue. */
  lemma TwoRequestsToDrain(c: Config, a: Request, b: Request) returns (s: State)
    requires c.threaded && a.id != b.id
    ensures Reachable(c, s) && s.th == Thread(Draining, 0, NoCall, 0, 0)
    ensures s.rings == Rings([], multiset{}, []) && s.sink == Sink([a, b], false, 0, 0)
    ensures s.f == Fields(0, false, false)
    ensures s.log == Init(c).log.(accepted := [a, b])
  {
    ReachesSelf(c, Init(c));
    s := Init(c);
    s := Offer(c, s, a);
    s := Offer(c, s, b);
    s := PassWait(c, s);
  }

  /** Both requests are prepared in one drain. */
  lemma BothPrepared(c: Config, a: Request, b: Request) returns (s: State)
    requires c.threaded && a.id != b.id && c.sqEntries >= 2 && c.maxDrain >= 2
    ensures Reachable(c, s) && s.th.pc == (if c.maxDrain == 2 then Deciding else Draining)
    ensures s.th.drained == 2 && s.th.call.NoCall? && s.th.seen == 0 && s.th.peeked == 0
    ensures s.rings == Rings([a, b], multiset{}, []) && s.sink == Sink([], false, 0, 0)
    ensures s.f == Fields(0, Links(b), false)
    ensures s.log.batches == [] && !s.log.shortfall
  {
    s := TwoRequestsToDrain(c, a, b);
    s := DrainOne(c, s);
    s := DrainOne(c, s);
  }

  /** With whole submits too an ordinary request can be left behind: prepared in one drain with the start of a chain, it
      waits for the chain to be continued, and nobody is left to wake the worker. */
  lemma LinkedTailStrands(c: Config, x: Request, y: Request) returns (s: State)
    requires c.threaded && x.id != y.id && !Links(x) && Links(y) && c.sqEntries >= 2 && c.maxDrain >= 2
    ensures Reachable(c, s)
    ensures s.th.pc.Blocked? && s.rings.sq == [x, y] && s.sink == Sink([], false, 0, 0) && !s.log.shortfall
  {
    s := BothPrepared(c, x, y);
    if s.th.pc.Draining? {
      s := Then(c, s, DrainNext);
    }
    s := Then(c, s, Decide);
    s := Then(c, s, Gate);
    s := Sleep(c, s);
  }

  /** Exactly when a blocked worker leaves nothing but an open chain: with whole submits that is sure if and only if the
      worker drains one request at a time, or the submission ring has one entry. */
  lemma ParkedCleanIff(c: Config)
    requires c.threaded && c.fullAccept
    ensures (forall s :: Reachable(c, s) && s.th.pc.Blocked? ==> AllLinked(s.rings.sq))
      <==> Limit(c) == 1 || c.sqEntries == 1
  {
    if Limit(c) == 1 || c.sqEntries == 1 {
      forall s | Reachable(c, s) && s.th.pc.Blocked? ensures AllLinked(s.rings.sq) {
        ParkedClean(c, s);
      }
    } else {
      var s := LinkedTailStrands(c, Plain(0), Request(1, 0, IOSQE_IO_LINK, INVALID_BUFF_GID));
      assert !Links(s.rings.sq[0]);
    }
  }

  // ---------------------------------------------------------------------------------------------------
  // Split chains

  /** With a ring of one entry, `GetSqe` works for the second of two requests while the first one fills the ring. */
  lemma SecondFindsRingFull(c: Config, a: Request, b: Request) returns (s: State)
    requires c.threaded && a.id != b.id && c.sqEntries == 1 && c.maxDrain >= 2
    ensures Reachable(c, s) && s.th == Thread(Getting, 1, InGetSqe(b, 0), 0, 0)
    ensures s.rings == Rings([a], multiset{}, []) && s.sink == Sink([], false, 0, 0)
    ensures s.f == Fields(0, Links(a), false)
    ensures s.log.batches == [] && s.log.dropped == []
  {
    s := TwoRequestsToDrain(c, a, b);
    s := DrainOne(c, s);
    s := Then(c, s, DrainNext);
  }

  /** One round of `GetSqe` in which the kernel takes the whole ring and posts nothing yet. */
  lemma WholeRound(c: Config, s: State) returns (t: State)
    requires Reachable(c, s) && s.f.count == 0 && !s.f.stopConsume
    requires s.th.pc.Getting? && s.th.call.InGetSqe? && |s.rings.sq| == c.sqEntries
    ensures Reachable(c, t) && t.th == Leave(c, s.th) && t.sink == s.sink && t.f == s.f.(count := |s.rings.sq|)
    ensures t.rings == s.rings.(sq := [], kernel := s.rings.kernel + multiset(s.rings.sq))
    ensures t.log == s.log.(batches := s.log.batches + [Batch(s.rings.sq, RetryFlush(s.th.call.r), true)],
                        shortfall := false)
  {
    assert s.rings.sq[..|s.rings.sq|] == s.rings.sq;
    t := Then(c, s, TakeSqe);
    t := Then(c, t, Submit(|s.rings.sq|));
    t := Then(c, t, Gate);
    t := Then(c, t, Reap(false, 0));
  }

  lemma OpenEndBreaks(batches: seq<Batch>)
    requires batches != [] && EndsLinked(batches[0].reqs)
    ensures !Atomic(batches)
  {
    AtomicIffWhole(batches);
  }

  /** Both requests are prepared in one drain, and the worker is about to flush. */
  lemma TwoRequestsToFlush(c: Config, a: Request, b: Request) returns (s: State)
    requires c.threaded && a.id != b.id && !Links(b) && c.sqEntries >= 2 && c.maxDrain >= 2
    ensures Reachable(c, s) && s.th.pc.Flushing? && s.th.call.NoCall?
    ensures s.rings == Rings([a, b], multiset{}, []) && s.log.batches == []
  {
    s := BothPrepared(c, a, b);
    s := DrainEnds(c, s);
  }

  /** The same start, with the submit that makes room for the second request taking the first. */
  lemma RetryTakesFirst(c: Config, a: Request, b: Request) returns (s: State)
    requires c.threaded && a.id != b.id && !Links(b) && c.sqEntries == 1 && c.maxDrain >= 2
    ensures Reachable(c, s) && s.th.pc.Flushing? && s.th.call.NoCall?
    ensures s.rings == Rings([b], multiset{a}, []) && s.log.batches == [Batch([a], RetryFlush(b), true)]
  {
    s := SecondFindsRingFull(c, a, b);
    s := WholeRound(c, s);
    s := Then(c, s, TakeSqe);
    assert s.rings.sq == [b];
    s := DrainEnds(c, s);
  }

  /** A chain of two entries split by the submit that makes room for the second, whether or not submits take the
      whole ring. */
  lemma RetrySplitsChain(c: Config, a: Request, b: Request) returns (s: State)
    requires c.threaded && a.id != b.id && Links(a) && !Links(b) && c.sqEntries == 1 && c.maxDrain >= 2
    ensures Reachable(c, s)
    ensures s.log.batches == [Batch([a], RetryFlush(b), true), Batch([b], MainFlush, true)]
    ensures !Atomic(s.log.batches)
  {
    hide Atomic;
    s := RetryTakesFirst(c, a, b);
    assert s.rings.sq[..1] == [b];
    s := Then(c, s, Submit(1));
    OpenEndBreaks(s.log.batches);
  }

  /** A chain split by a short submit outside `GetSqe`: its first entry is with the kernel, the second one left
      behind. */
  lemma ShortSubmitSplitsChain(c: Config, a: Request, b: Request) returns (s: State)
    requires c.threaded && !c.fullAccept && a.id != b.id && Links(a) && !Links(b) && c.sqEntries >= 2 && c.maxDrain >= 2
    ensures Reachable(c, s)
    ensures s.log.batches == [Batch([a], MainFlush, false)] && s.rings.sq == [b] && !Atomic(s.log.batches)
  {
    hide Atomic;
    s := TwoRequestsToFlush(c, a, b);
    assert s.rings.sq[..1] == [a] && s.rings.sq[1..] == [b];
    s := Then(c, s, Submit(1));
    OpenEndBreaks(s.log.batches);
  }

  // ---------------------------------------------------------------------------------------------------
  // A missed Stop

  /** Stop sets its flag without the mutex, so its notification can fall between the worker's test and its wait:
      the worker is blocked although the sink is stopped and no notification is outstanding. */
  lemma StopCanBeMissed(c: Config) returns (s: State)
    requires c.threaded
    ensures Reachable(c, s)
    ensures s.th.pc.Blocked? && s.sink.stop && s.sink.stopsOwed == 0 && s.sink.owed == 0
  {
    ReachesSelf(c, Init(c));
    s := Init(c);
    s := Then(c, s, Acquire);
    s := Then(c, s, CheckWait);
    s := Then(c, s, RaiseStop);
    s := Then(c, s, NotifyAll);
    s := Then(c, s, Park);
  }
}
