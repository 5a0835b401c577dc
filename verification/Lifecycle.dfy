/** Completion objects over a run: who may still touch one, and what its end looks like. */
module Lifecycle {
  import opened Requests
  import opened Completions
  import opened Pipeline
  import opened PipelineInvariants

  /** Every accepted request has its own completion object. */
  ghost predicate Owned(s: State) {
    && DistinctIds(s.log.accepted)
    && forall r :: r in s.log.accepted ==> r.id in s.comps && s.comps[r.id].gid == r.gid
  }

  /** The ring is done with the completion of `r`. */
  ghost predicate Finished(c: Config, s: State, r: Request) {
    r in Reqs(s.log.handled) || (!c.threaded && r in s.log.dropped)
  }

  /** A completion that was delivered `cqe`: resolved once with the CQE's result and deleted once, unless it
      belongs to a buffer group and the CQE names no buffer, in which case nothing happened to it. */
  predicate Delivered(comp: Completion, cqe: Cqe) {
    if cqe.req.gid != 0 && cqe.flags & 0x1 == 0 then Untouched(comp) && comp.promise.Unset?
    else
      && comp.resolves == 1 && comp.frees == 1
      && comp.promise.Value? && comp.promise.res == cqe.res
      && (cqe.req.gid != INVALID_BUFF_GID ==> comp.promise.bid == DecodeBid(cqe.flags))
  }

  ghost predicate Lived(c: Config, s: State) {
    && (forall r :: r in s.log.accepted && !Finished(c, s, r) ==>
          r.id in s.comps && Untouched(s.comps[r.id]) && s.comps[r.id].promise.Unset?)
    && (forall j :: 0 <= j < |s.log.handled| ==>
          s.log.handled[j].req in s.log.accepted && s.log.handled[j].req.id in s.comps
          && Delivered(s.comps[s.log.handled[j].req.id], s.log.handled[j]))
    && (!c.threaded ==> forall r :: r in s.log.dropped ==>
          r in s.log.accepted && r.id in s.comps && s.comps[r.id].resolves == 1 &&
          s.comps[r.id].frees == (if More(s.comps[r.id].flags) then 0 else 1) && s.comps[r.id].promise.Exception?)
  }

  /** Each accepted request is in one place, counted with multiplicity. */
  ghost predicate Placed(c: Config, s: State) {
    Moded(c, s) && QueueOrder(s) && RingOrder(c, s) && Staged(s) && Consumed(s)
  }

  lemma Census(c: Config, s: State)
    requires Placed(c, s)
    ensures multiset(s.log.accepted) == multiset(s.sink.queue) + multiset(Held(s.th.call)) + multiset(s.rings.sq)
                  + s.rings.kernel
              + multiset(Reqs(s.rings.cq[s.th.seen..])) + multiset(Reqs(s.log.handled)) + multiset(s.log.dropped)
  {
    assert Reqs(s.log.posted) == Reqs(s.log.handled) + Reqs(s.rings.cq[s.th.seen..]);
  }

  lemma SameIdSameRequest(rs: seq<Request>, a: Request, b: Request)
    requires DistinctIds(rs) && a in rs && b in rs && a.id == b.id
    ensures a == b
  {
  }

  /** The CQE about to be handled belongs to a completion nobody has finished. */
  lemma UnreadUnfinished(c: Config, s: State)
    requires Placed(c, s) && DistinctIds(s.log.accepted) && s.th.seen < |s.rings.cq|
    ensures s.rings.cq[s.th.seen].req in s.log.accepted
    ensures !Finished(c, s, s.rings.cq[s.th.seen].req)
    ensures s.rings.cq[s.th.seen].req !in s.log.dropped
  {
    Census(c, s);
    var unread := Reqs(s.rings.cq[s.th.seen..]);
    var r := s.rings.cq[s.th.seen].req;
    assert unread[0] == r;
    assert r in multiset(unread) && r in multiset(s.log.accepted);
    DistinctOccurOnce(s.log.accepted, r);
    assert multiset(Reqs(s.log.handled))[r] == 0 && multiset(s.log.dropped)[r] == 0;
    assert r !in multiset(Reqs(s.log.handled)) && r !in multiset(s.log.dropped);
  }

  /** The request `GetSqe` works on was not finished either. */
  lemma HeldUnfinished(c: Config, s: State)
    requires Placed(c, s) && DistinctIds(s.log.accepted) && s.th.call.InGetSqe?
    ensures s.th.call.r in s.log.accepted && s.th.call.r !in Reqs(s.log.handled) && s.th.call.r !in s.log.dropped
  {
    Census(c, s);
    var r := s.th.call.r;
    assert r in multiset(Held(s.th.call)) && r in multiset(s.log.accepted);
    DistinctOccurOnce(s.log.accepted, r);
    assert multiset(Reqs(s.log.handled))[r] == 0 && multiset(s.log.dropped)[r] == 0;
    assert r !in multiset(Reqs(s.log.handled)) && r !in multiset(s.log.dropped);
  }

  lemma OwnedStep(c: Config, s: State, a: Action)
    requires Enabled(c, s, a) && Owned(s)
    ensures Owned(Apply(c, s, a))
  {
    hide Links, More, CarriesBuffer;
  }

  lemma LivedHandle(c: Config, s: State)
    requires Placed(c, s) && Owned(s) && Lived(c, s) && s.th.seen < |s.rings.cq|
    requires !More(s.rings.cq[s.th.seen].flags)
    ensures Lived(c, OnHandleNext(s))
  {
    var cqe, s' := s.rings.cq[s.th.seen], OnHandleNext(s);
    UnreadUnfinished(c, s);
    ReqsAppend(s.log.handled, cqe);
    forall r | r in s.log.accepted && r != cqe.req
      ensures s'.comps[r.id] == s.comps[r.id]
    {
      if r.id == cqe.req.id { SameIdSameRequest(s.log.accepted, r, cqe.req); }
    }
    forall j | 0 <= j < |s.log.handled|
      ensures s.log.handled[j].req != cqe.req
    {
      assert Reqs(s.log.handled)[j] == s.log.handled[j].req;
    }
  }

  lemma LivedGiveUp(c: Config, s: State)
    requires Placed(c, s) && Owned(s) && Lived(c, s) && s.th.call.InGetSqe?
    ensures Lived(c, GiveUp(c, s, s.th.call.r))
  {
    var r, s' := s.th.call.r, GiveUp(c, s, s.th.call.r);
    HeldUnfinished(c, s);
    forall q | q in s.log.accepted && q != r
      ensures s'.comps[q.id] == s.comps[q.id]
    {
      if q.id == r.id { SameIdSameRequest(s.log.accepted, q, r); }
    }
    forall j | 0 <= j < |s.log.handled|
      ensures s.log.handled[j].req != r
    {
      assert Reqs(s.log.handled)[j] == s.log.handled[j].req;
    }
  }

  /** The kernel never marks a CQE as one of several. */
  ghost predicate SingleShot(s: State) {
    forall j :: 0 <= j < |s.rings.cq| ==> !More(s.rings.cq[j].flags)
  }

  lemma SingleShotStep(c: Config, s: State, a: Action)
    requires Enabled(c, s, a) && SingleShot(s)
    ensures SingleShot(Apply(c, s, a))
  {
  }

  /** Actions that leave completions, drops and handled CQEs alone keep `Lived`. */
  lemma LivedFrame(c: Config, s: State, s': State)
    requires Lived(c, s)
    requires s'.comps == s.comps && s'.log.handled == s.log.handled && s'.log.dropped == s.log.dropped
    requires s'.log.accepted == s.log.accepted
    ensures Lived(c, s')
  {
  }

  lemma LivedNew(c: Config, s: State, s': State, r: Request, garbage: bv32)
    requires Owned(s) && Lived(c, s) && r.id !in s.comps
    requires s'.comps == s.comps[r.id := Fresh(r.gid, garbage)]
    requires s'.log.handled == s.log.handled && s'.log.dropped == s.log.dropped
    requires s'.log.accepted == s.log.accepted + [r]
    ensures Lived(c, s')
  {
  }

  lemma LivedStep(c: Config, s: State, a: Action)
    requires Enabled(c, s, a) && Placed(c, s) && Owned(s) && SingleShot(s) && Lived(c, s)
    ensures Lived(c, Apply(c, s, a))
  {
    match a
    case HandleNext => LivedHandle(c, s);
    case Enqueue(r, garbage) => LivedNew(c, s, Apply(c, s, a), r, garbage);
    case CallSubmit(r, garbage) => LivedNew(c, s, Apply(c, s, a), r, garbage);
    case Fail => LivedGiveUp(c, s);
    case _ => LivedFrame(c, s, Apply(c, s, a));
  }
}
