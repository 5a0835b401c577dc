/** The request pipeline as a machine: producers, the thread that drives the ring, and the kernel each take
    atomic actions on one shared state.  The driving thread is the worker started by the constructor, or, when
    the worker is switched off, a caller that holds `mutex_`. */
module Pipeline {
  import opened Requests
  import opened Completions

  /** `GetSqe` gives up after this many submit-and-reap rounds. */
  const MAX_TRY: nat := 10

  type uint32 = n: nat | n < 0x1_0000_0000

  /** Ring sizes: at least one entry, and small enough for a signed 32-bit count. */
  type entries = n: nat | 0 < n < 0x8000_0000 witness 1

  /** `maxDrain` is `max_cqe_to_drain_`.  `fullAccept` restricts runs to those in which every `io_uring_submit`
      takes the whole submission ring. */
  datatype Config = Config(threaded: bool, sqEntries: entries, cqEntries: entries, maxDrain: uint32, fullAccept: bool)

  /** Where the driving thread is. */
  datatype Pc =
    | Lock          // about to take pending_io_mutex_ (start of Drain, or woken up)
    | Check         // holds the mutex, about to evaluate the wait predicate
    | Parking       // predicate was false, about to release the mutex and block
    | Blocked       // inside condition_.wait, mutex released
    | Draining      // head of the drain loop
    | Deciding      // mutex released, Drain about to return
    | Exited        // the worker returned
    | Idle          // no caller inside the ring
    | Getting       // GetSqe: about to ask the ring for an entry
    | Resubmitting  // GetSqe: ring full, about to submit
    | Failing       // GetSqe returned null
    | Flushing      // about to submit, outside GetSqe
    | Reaping       // about to test whether the completion ring is worth looking at
    | Waiting       // about to wait for a CQE
    | Handling      // some peeked CQEs handled, ring head not yet advanced

  /** The activation of `GetSqe`, if any: the request it needs an entry for and the rounds it has made. */
  datatype Call = NoCall | InGetSqe(r: Request, t: nat)

  /** Control state of the driving thread: `drained` is `current_drained` of Drain, `seen` of the `peeked` CQEs
      have been passed to HandleCqe. */
  datatype Thread = Thread(pc: Pc, drained: nat, call: Call, seen: nat, peeked: nat)

  /** IoSink.  `owed` counts enqueuers that pushed but did not call notify_one yet, `stopsOwed`
      calls of Stop that set the flag but did not call notify_all yet. */
  datatype Sink = Sink(queue: seq<Request>, stop: bool, owed: nat, stopsOwed: nat)

  /** Submission ring, requests inside the kernel, completion ring from its head.  What exceeds the ring's
      entries waits, in order, in the kernel's overflow list. */
  datatype Rings = Rings(sq: seq<Request>, kernel: multiset<Request>, cq: seq<Cqe>)

  /** submission_pending_count_, linked_sqe_ and stop_consumption_ */
  datatype Fields = Fields(count: int, linked: bool, stopConsume: bool)

  /** Who asked for a submit: the worker after a drain, `GetSqe` on behalf of a request, or a direct caller. */
  datatype Origin = MainFlush | RetryFlush(r: Request) | UserFlush

  /** One `io_uring_submit`, the entries it took, and whether it took the whole ring. */
  datatype Batch = Batch(reqs: seq<Request>, origin: Origin, whole: bool)

  /** What happened so far.  `shortfall`: the last submit left entries behind and nothing was prepared since;
      `drainStart`: length of `prepared` when the current Drain passed its wait; `missed`: the last notify_all that
      Stop owed fell between the worker's test and its wait. */
  datatype History = History(
    accepted: seq<Request>,  // passed to EnqueueIoRequest, or submitted directly
    taken: seq<Request>,     // passed to consume
    prepared: seq<Request>,  // SQEs filled, in ring order
    dropped: seq<Request>,   // GetSqe gave up
    posted: seq<Cqe>,        // CQEs posted by the kernel
    handled: seq<Cqe>,       // CQEs passed to HandleCqe
    batches: seq<Batch>,
    drainStart: nat,
    shortfall: bool,
    missed: bool)

  datatype State = State(sink: Sink, rings: Rings, f: Fields, th: Thread, comps: map<nat, Completion>, log: History)

  function Init(c: Config): State {
    State(Sink([], false, 0, 0), Rings([], multiset{}, []), Fields(0, false, false),
          Thread(if c.threaded then Lock else Idle, 0, NoCall, 0, 0), map[],
          History([], [], [], [], [], [], [], 0, false, false))
  }

  datatype Action =
    // producers and owners
    | Enqueue(r: Request, garbage: bv32)
    | Notify
    | RaiseStop
    | NotifyAll
    | StopConsumption
    | Spurious
    // kernel
    | Post(cqe: Cqe)
    // driving thread
    | Acquire
    | CheckWait
    | Park
    | DrainNext
    | TakeSqe
    | Submit(k: nat)
    | Gate
    | Reap(found: bool, limit: uint32)
    | HandleNext
    | Advance
    | Fail
    | Decide
    // callers, when there is no worker
    | CallSubmit(r: Request, garbage: bv32)
    | CallFlush
    | CallReap

  /** The worker does not hold `pending_io_mutex_`.  It holds it through the whole drain loop, including the
      submits and completions processed inside `GetSqe`. */
  predicate LockFree(th: Thread) {
    match th.pc
    case Lock | Blocked | Deciding | Flushing | Idle | Exited => true
    case Reaping | Waiting | Handling => th.call.NoCall?
    case _ => false
  }

  function Min(a: nat, b: nat): (m: nat)
    ensures m <= a && m <= b && (m == a || m == b)
  {
    if a <= b then a else b
  }

  /** The predicate of the condition variable. */
  predicate WaitDone(s: State) {
    s.sink.stop || s.sink.queue != [] || s.f.count > 0
  }

  predicate Enabled(c: Config, s: State, a: Action) {
    match a
    case Enqueue(r, _) => c.threaded && LockFree(s.th) && r.id !in s.comps
    case Notify => s.sink.owed > 0
    case RaiseStop => true
    case NotifyAll => s.sink.stopsOwed > 0
    case StopConsumption => true
    case Spurious => s.th.pc.Blocked?
    case Post(cqe) => cqe.req in s.rings.kernel && !More(cqe.flags)
    case Acquire => s.th.pc.Lock?
    case CheckWait => s.th.pc.Check?
    case Park => s.th.pc.Parking?
    case DrainNext => s.th.pc.Draining?
    case TakeSqe => s.th.pc.Getting? && s.th.call.InGetSqe?
    case Submit(k) => (s.th.pc.Resubmitting? || s.th.pc.Flushing?) && k <= |s.rings.sq| &&
        (c.fullAccept ==> k == |s.rings.sq|)
    case Gate => s.th.pc.Reaping?
    case Reap(found, limit) => s.th.pc.Waiting? && (found ==> s.rings.cq != []) && limit <= c.maxDrain
    case HandleNext => s.th.pc.Handling? && s.th.seen < s.th.peeked <= |s.rings.cq|
    case Advance => s.th.pc.Handling? && s.th.seen == s.th.peeked <= |s.rings.cq|
    case Fail => s.th.pc.Failing? && s.th.call.InGetSqe?
    case Decide => s.th.pc.Deciding?
    case CallSubmit(r, _) => !c.threaded && s.th.pc.Idle? && r.id !in s.comps
    case CallFlush => s.th.pc.Idle?
    case CallReap => s.th.pc.Idle?
  }

  function At(th: Thread, pc: Pc): Thread {
    th.(pc := pc)
  }

  function Wake(th: Thread): Thread {
    if th.pc.Blocked? then At(th, Lock) else th
  }

  function Alter(comps: map<nat, Completion>, id: nat, f: Completion -> Completion): map<nat, Completion> {
    if id in comps then comps[id := f(comps[id])] else comps
  }

  function OnEnqueue(s: State, r: Request, garbage: bv32): State {
    s.(sink := s.sink.(queue := s.sink.queue + [r], owed := s.sink.owed + 1),
       comps := s.comps[r.id := Fresh(r.gid, garbage)],
       log := s.log.(accepted := s.log.accepted + [r]))
  }

  /** Stop sets its flag without the mutex; the notification is a second step. */
  function OnRaiseStop(s: State): State {
    s.(sink := s.sink.(stop := true, stopsOwed := s.sink.stopsOwed + 1), log := s.log.(missed := false))
  }

  function OnNotifyAll(s: State): State
    requires s.sink.stopsOwed > 0
  {
    s.(sink := s.sink.(stopsOwed := s.sink.stopsOwed - 1), th := Wake(s.th),
       log := s.log.(missed := s.th.pc.Parking? && s.sink.stopsOwed == 1))
  }

  function OnPost(s: State, cqe: Cqe): State {
    s.(rings := s.rings.(kernel := s.rings.kernel - multiset{cqe.req}, cq := s.rings.cq + [cqe]),
       log := s.log.(posted := s.log.posted + [cqe]))
  }

  function OnCheckWait(s: State): State {
    if WaitDone(s) then s.(th := s.th.(pc := Draining, drained := 0), log := s.log.(drainStart := |s.log.prepared|))
    else s.(th := At(s.th, Parking))
  }

  function OnDrainNext(s: State): State {
    if s.sink.stop || s.sink.queue == [] then s.(th := At(s.th, Deciding))
    else
      var r := s.sink.queue[0];
      s.(sink := s.sink.(queue := s.sink.queue[1..]), th := s.th.(pc := Getting, call := InGetSqe(r, 0)),
         log := s.log.(taken := s.log.taken + [r]))
  }

  function Prepared(c: Config, th: Thread): Thread {
    if !c.threaded then th.(pc := Idle, call := NoCall)
    else th.(pc := if th.drained + 1 >= c.maxDrain then Deciding else Draining,
              drained := th.drained + 1, call := NoCall)
  }

  /** Fill an entry for `r` and remember whether it continues a chain; then either the drain loop goes on, or it
      has reached its limit, or the direct caller is done. */
  function Prepare(c: Config, s: State, r: Request): State {
    s.(rings := s.rings.(sq := s.rings.sq + [r]),
       f := s.f.(linked := Links(r)),
       log := s.log.(prepared := s.log.prepared + [r], shortfall := false),
       th := Prepared(c, s.th))
  }

  function OnTakeSqe(c: Config, s: State): State
    requires s.th.call.InGetSqe?
  {
    if |s.rings.sq| < c.sqEntries then Prepare(c, s, s.th.call.r) else s.(th := At(s.th, Resubmitting))
  }

  function SubmitOrigin(c: Config, th: Thread): Origin {
    if th.pc.Resubmitting? && th.call.InGetSqe? then RetryFlush(th.call.r)
    else if c.threaded then MainFlush else UserFlush
  }

  function OnSubmit(c: Config, s: State, k: nat): State
    requires k <= |s.rings.sq|
  {
    var batch := Batch(s.rings.sq[..k], SubmitOrigin(c, s.th), k == |s.rings.sq|);
    s.(rings := s.rings.(sq := s.rings.sq[k..], kernel := s.rings.kernel + multiset(s.rings.sq[..k])),
       f := s.f.(count := s.f.count + k),
       log := s.log.(batches := s.log.batches + [batch], shortfall := k < |s.rings.sq|),
       th := At(s.th, if s.th.pc.Flushing? && !c.threaded then Idle else Reaping))
  }

  /** `GetSqe` returned null: the consume fails and the request is dropped; a direct caller's completion gets an
      exception instead. */
  function GiveUp(c: Config, s: State, r: Request): State {
    s.(log := s.log.(dropped := s.log.dropped + [r]),
       th := s.th.(pc := if c.threaded then Deciding else Idle, call := NoCall),
       comps := if c.threaded then s.comps else Alter(s.comps, r.id, SetException))
  }

  /** Completion processing is over: return to whoever asked for it. */
  function Leave(c: Config, th: Thread): Thread {
    if th.call.NoCall? then th.(pc := if c.threaded then Lock else Idle, seen := 0, peeked := 0)
    else th.(pc := if th.call.t + 1 >= MAX_TRY then Failing else Getting, call := InGetSqe(th.call.r, th.call.t + 1),
             seen := 0, peeked := 0)
  }

  /** `ProcessCompletionsRing` looks at the ring only when something is pending and consumption is not stopped. */
  function OnGate(c: Config, s: State): State {
    s.(th := if s.f.count <= 0 || s.f.stopConsume then Leave(c, s.th) else At(s.th, Waiting))
  }

  /** Number of CQEs the ring shows. */
  function Visible(c: Config, s: State): nat {
    Min(|s.rings.cq|, c.cqEntries)
  }

  function OnReap(c: Config, s: State, found: bool, limit: uint32): State {
    s.(th := if found then s.th.(pc := Handling, seen := 0, peeked := Min(Visible(c, s), limit)) else Leave(c, s.th))
  }

  function OnHandleNext(s: State): State
    requires s.th.seen < |s.rings.cq|
  {
    var cqe := s.rings.cq[s.th.seen];
    s.(f := s.f.(count := s.f.count - 1),
       comps := Alter(s.comps, cqe.req.id, x => Deliver(x, cqe)),
       log := s.log.(handled := s.log.handled + [cqe]),
       th := s.th.(seen := s.th.seen + 1))
  }

  function OnAdvance(c: Config, s: State): State
    requires s.th.peeked <= |s.rings.cq|
  {
    s.(rings := s.rings.(cq := s.rings.cq[s.th.peeked..]), th := Leave(c, s.th))
  }

  function OnDecide(s: State): State {
    s.(th := At(s.th, if s.sink.stop then Exited else if s.th.drained > 0 && !s.f.linked then Flushing else Reaping))
  }

  function OnCallSubmit(s: State, r: Request, garbage: bv32): State {
    s.(comps := s.comps[r.id := Fresh(r.gid, garbage)],
       log := s.log.(accepted := s.log.accepted + [r], taken := s.log.taken + [r]),
       th := s.th.(pc := Getting, call := InGetSqe(r, 0)))
  }

  function Apply(c: Config, s: State, a: Action): State
    requires Enabled(c, s, a)
  {
    match a
    case Enqueue(r, garbage) => OnEnqueue(s, r, garbage)
    case Notify => s.(sink := s.sink.(owed := s.sink.owed - 1), th := Wake(s.th))
    case RaiseStop => OnRaiseStop(s)
    case NotifyAll => OnNotifyAll(s)
    case StopConsumption => s.(f := s.f.(stopConsume := true))
    case Spurious => s.(th := At(s.th, Lock))
    case Post(cqe) => OnPost(s, cqe)
    case Acquire => s.(th := At(s.th, Check))
    case CheckWait => OnCheckWait(s)
    case Park => s.(th := At(s.th, Blocked))
    case DrainNext => OnDrainNext(s)
    case TakeSqe => OnTakeSqe(c, s)
    case Submit(k) => OnSubmit(c, s, k)
    case Gate => OnGate(c, s)
    case Reap(found, limit) => OnReap(c, s, found, limit)
    case HandleNext => OnHandleNext(s)
    case Advance => OnAdvance(c, s)
    case Fail => GiveUp(c, s, s.th.call.r)
    case Decide => OnDecide(s)
    case CallSubmit(r, garbage) => OnCallSubmit(s, r, garbage)
    case CallFlush => s.(th := At(s.th, Flushing))
    case CallReap => s.(th := At(s.th, Waiting))
  }

  /** One action leads from `s` to `t`. */
  ghost predicate Next(c: Config, s: State, t: State) {
    exists a :: Enabled(c, s, a) && t == Apply(c, s, a)
  }

  ghost predicate Moves(c: Config, path: seq<State>, i: nat)
    requires i + 1 < |path|
  {
    Next(c, path[i], path[i + 1])
  }

  /** A run, as the sequence of its states. */
  ghost predicate Run(c: Config, path: seq<State>) {
    path != [] && forall i {:trigger Moves(c, path, i)} :: 0 <= i < |path| - 1 ==> Moves(c, path, i)
  }

  /** Some run leads from `s` to `t`. */
  ghost predicate Reaches(c: Config, s: State, t: State) {
    exists path :: Run(c, path) && path[0] == s && path[|path| - 1] == t
  }

  lemma ReachesSelf(c: Config, s: State)
    ensures Reaches(c, s, s)
  {
    assert Run(c, [s]);
  }

  lemma ReachesBy(c: Config, s: State, t: State, a: Action)
    requires Reaches(c, s, t) && Enabled(c, t, a)
    ensures Reaches(c, s, Apply(c, t, a))
  {
    var path :| Run(c, path) && path[0] == s && path[|path| - 1] == t;
    var longer := path + [Apply(c, t, a)];
    forall i | 0 <= i < |longer| - 1 ensures Moves(c, longer, i) {
      if i < |path| - 1 {
        assert Moves(c, path, i);
      }
    }
    assert Run(c, longer);
  }
}
