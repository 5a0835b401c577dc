/** The scope guard: a clean-up action that travels between holders by moves and runs once. */
module Deferred {

  datatype Holder = Holder(action: nat, cancelled: bool)

  /** Living guards by name; actions created so far are numbered below `next`.  `ran` is the order in which actions
      ran, `withdrawn` lists those a holder gave up by Cancel. */
  datatype State = State(holders: map<nat, Holder>, next: nat, ran: seq<nat>, withdrawn: seq<nat>)

  function Init(): State {
    State(map[], 0, [], [])
  }

  datatype Op =
    | Create(h: nat)
    | MoveConstruct(h: nat, source: nat)
    | MoveAssign(h: nat, source: nat)
    | Cancel(h: nat)
    | Destroy(h: nat)

  predicate Enabled(s: State, op: Op) {
    match op
    case Create(h) => h !in s.holders
    case MoveConstruct(h, source) => h !in s.holders && source in s.holders
    case MoveAssign(h, source) => h in s.holders && source in s.holders
    case Cancel(h) => h in s.holders
    case Destroy(h) => h in s.holders
  }

  /** What the destructor runs. */
  function Fired(holder: Holder): seq<nat> {
    if holder.cancelled then [] else [holder.action]
  }

  function Apply(s: State, op: Op): State
    requires Enabled(s, op)
  {
    match op
    case Create(h) => s.(holders := s.holders[h := Holder(s.next, false)], next := s.next + 1)
    case MoveConstruct(h, source) =>
      s.(holders := s.holders[h := s.holders[source]][source := s.holders[source].(cancelled := true)])
    case MoveAssign(h, source) =>
      if h == source then s
      else s.(holders := s.holders[h := s.holders[source]][source := s.holders[source].(cancelled := true)],
              ran := s.ran + Fired(s.holders[h]))
    case Cancel(h) =>
      s.(holders := s.holders[h := s.holders[h].(cancelled := true)], withdrawn := s.withdrawn + Fired(s.holders[h]))
    case Destroy(h) => s.(holders := s.holders - {h}, ran := s.ran + Fired(s.holders[h]))
  }

  predicate Can(s: State, ops: seq<Op>)
    decreases |ops|
  {
    ops != [] ==> Enabled(s, ops[0]) && Can(Apply(s, ops[0]), ops[1..])
  }

  function Exec(s: State, ops: seq<Op>): State
    requires Can(s, ops)
    decreases |ops|
  {
    if ops == [] then s else Exec(Apply(s, ops[0]), ops[1..])
  }

  /** `h` is the guard that will run `action`. */
  predicate Holds(s: State, h: nat, action: nat) {
    h in s.holders && !s.holders[h].cancelled && s.holders[h].action == action
  }

  ghost predicate Held(s: State, action: nat) {
    exists h :: Holds(s, h, action)
  }

  /** Where `action` stands: one guard has it, it has run once, or it was withdrawn; never two of these. */
  ghost predicate Linear(s: State, action: nat) {
    && (forall h, k :: Holds(s, h, action) && Holds(s, k, action) ==> h == k)
    && multiset(s.ran)[action] + multiset(s.withdrawn)[action] == if action < s.next && !Held(s, action) then 1 else 0
  }

  /** Overwriting a guard runs what it held and nothing else. */
  lemma LinearAssign(s: State, h: nat, source: nat, action: nat)
    requires h != source && Enabled(s, MoveAssign(h, source)) && Linear(s, action) && s.holders[h].action < s.next
    ensures Linear(Apply(s, MoveAssign(h, source)), action)
  {
    var s' := Apply(s, MoveAssign(h, source));
    Moved(s, s', h, source, action);
    assert multiset(s'.ran)[action] == multiset(s.ran)[action] + if Holds(s, h, action) then 1 else 0;
    if Holds(s, h, action) {
      assert Held(s, action);
      assert forall g :: !Holds(s', g, action);
    } else if Held(s, action) {
      var g :| Holds(s, g, action);
      assert Holds(s', if g == source then h else g, action);
    } else {
      assert forall g :: !Holds(s', g, action);
    }
  }

  /** Giving up one guard, by cancel or destruction, ends the claim to what it held and to nothing else. */
  lemma LinearDrop(s: State, op: Op, action: nat)
    requires (op.Cancel? || op.Destroy?) && Enabled(s, op) && Linear(s, action) && s.holders[op.h].action < s.next
    ensures Linear(Apply(s, op), action)
  {
    var s' := Apply(s, op);
    FrameExcept(s, s', op.h, op.h, action);
    assert !Holds(s', op.h, action);
    if Holds(s, op.h, action) {
      assert Held(s, action);
      assert forall g :: !Holds(s', g, action);
    } else if Held(s, action) {
      var g :| Holds(s, g, action);
      assert Holds(s', g, action);
    } else {
      assert forall g :: !Holds(s', g, action);
    }
  }

  lemma LinearStep(s: State, op: Op, action: nat)
    requires Enabled(s, op) && Linear(s, action)
    requires forall h :: h in s.holders ==> s.holders[h].action < s.next
    ensures Linear(Apply(s, op), action)
  {
    match op
    case Create(h) =>
      var s' := Apply(s, op);
      FrameExcept(s, s', h, h, action);
      assert Holds(s', h, s.next);
    case MoveConstruct(h, source) => Moved(s, Apply(s, op), h, source, action);
    case MoveAssign(h, source) => if h != source { LinearAssign(s, h, source, action); }
    case Cancel(h) => LinearDrop(s, op, action);
    case Destroy(h) => LinearDrop(s, op, action);
  }

  /** Guards other than the two named keep what they hold. */
  lemma FrameExcept(s: State, s': State, h: nat, k: nat, action: nat)
    requires forall g :: g != h && g != k ==>
          (g in s.holders <==> g in s'.holders) && (g in s.holders ==> s.holders[g] == s'.holders[g])
    ensures forall g :: g != h && g != k ==> (Holds(s, g, action) <==> Holds(s', g, action))
  {
  }

  lemma Moved(s: State, s': State, h: nat, source: nat, action: nat)
    requires h != source && source in s.holders
    requires s'.holders == s.holders[h := s.holders[source]][source := s.holders[source].(cancelled := true)]
    ensures forall g :: g != h && g != source ==> (Holds(s, g, action) <==> Holds(s', g, action))
    ensures Holds(s', h, action) <==> Holds(s, source, action)
    ensures !Holds(s', source, action)
  {
  }

  ghost predicate Inv(s: State) {
    (forall h :: h in s.holders ==> s.holders[h].action < s.next) && forall action :: Linear(s, action)
  }

  lemma InvStep(s: State, op: Op)
    requires Enabled(s, op) && Inv(s)
    ensures Inv(Apply(s, op))
  {
    forall action ensures Linear(Apply(s, op), action) {
      LinearStep(s, op, action);
    }
  }

  lemma {:induction false} InvExec(s: State, ops: seq<Op>)
    requires Inv(s) && Can(s, ops)
    ensures Inv(Exec(s, ops))
    decreases |ops|
  {
    if ops != [] {
      InvStep(s, ops[0]);
      InvExec(Apply(s, ops[0]), ops[1..]);
    }
  }

  /** Over any history of construction, moves, self-moves, cancels and destruction, every action has at most one guard
      that will run it, and has run, been withdrawn or is still held, exactly one of the three, once. */
  lemma LinearCleanup(ops: seq<Op>, action: nat)
    requires Can(Init(), ops)
    ensures Linear(Exec(Init(), ops), action)
  {
    InvExec(Init(), ops);
  }

  /** An operation withdraws an action only by Cancel, which runs nothing; the others withdraw nothing, and run the
      action of a guard they destroy or overwrite, unless it was cancelled. */
  lemma WhatRuns(s: State, op: Op)
    requires Enabled(s, op)
    ensures var t := Apply(s, op);
      && (op.Create? || op.MoveConstruct? ==> t.ran == s.ran && t.withdrawn == s.withdrawn)
      && (op.Cancel? ==> t.ran == s.ran)
      && (op.Cancel? ==>
           t.withdrawn == s.withdrawn + if s.holders[op.h].cancelled then [] else [s.holders[op.h].action])
      && (op.Destroy? || (op.MoveAssign? && op.h != op.source) ==>
           && t.withdrawn == s.withdrawn
           && t.ran == s.ran + if s.holders[op.h].cancelled then [] else [s.holders[op.h].action])
      && (op.MoveAssign? && op.h == op.source ==> t == s)
  {
  }

  /** Without Cancel nothing is withdrawn. */
  lemma {:induction false} WithdrawnOnlyByCancel(s: State, ops: seq<Op>)
    requires Can(s, ops) && forall i :: 0 <= i < |ops| ==> !ops[i].Cancel?
    ensures Exec(s, ops).withdrawn == s.withdrawn
    decreases |ops|
  {
    if ops != [] {
      WhatRuns(s, ops[0]);
      WithdrawnOnlyByCancel(Apply(s, ops[0]), ops[1..]);
    }
  }

  /** In a history without Cancel that leaves no guard every action has run, once. */
  lemma EverythingRunsOnce(ops: seq<Op>, action: nat)
    requires Can(Init(), ops) && Exec(Init(), ops).holders == map[] && action < Exec(Init(), ops).next
    requires forall i :: 0 <= i < |ops| ==> !ops[i].Cancel?
    ensures multiset(Exec(Init(), ops).ran)[action] == 1
  {
    WithdrawnOnlyByCancel(Init(), ops);
    NothingLeaks(ops, action);
  }

  /** When no guard is left, every action has run once or was withdrawn: none leaked. */
  lemma NothingLeaks(ops: seq<Op>, action: nat)
    requires Can(Init(), ops) && Exec(Init(), ops).holders == map[] && action < Exec(Init(), ops).next
    ensures var s := Exec(Init(), ops); multiset(s.ran)[action] + multiset(s.withdrawn)[action] == 1
  {
    LinearCleanup(ops, action);
  }

  // ---------------------------------------------------------------------------------------------------
  // The object

  /** Where clean-up actions leave their trace. */
  class Effects {
    var ran: seq<nat>

    constructor ()
      ensures ran == []
    {
      ran := [];
    }
  }

  class DeferredAction {
    var func: nat
    var cancelled: bool

    function Value(): Holder
      reads this
    {
      Holder(func, cancelled)
    }

    constructor (f: nat)
      ensures Value() == Holder(f, false)
    {
      func, cancelled := f, false;
    }

    /** Move construction of a new guard. */
    constructor Move(other: DeferredAction)
      modifies other
      ensures Value() == old(other.Value()) && other.Value() == old(other.Value()).(cancelled := true)
    {
      func, cancelled := other.func, other.cancelled;
      new;
      other.cancelled := true;
    }

    /** Move construction in place, on memory that holds no guard: take over the source and cancel it. */
    method TakeOver(other: DeferredAction)
      requires other != this
      modifies this, other
      ensures Value() == old(other.Value()) && other.Value() == old(other.Value()).(cancelled := true)
    {
      func := other.func;
      cancelled := other.cancelled;
      other.cancelled := true;
    }

    /** The destructor. */
    method Destruct(effects: Effects)
      modifies effects
      ensures effects.ran == old(effects.ran) + if cancelled then [] else [func]
    {
      if !cancelled {
        effects.ran := effects.ran + [func];
      }
    }

    /** Move assignment: destroy and rebuild in place, unless a guard is assigned to itself. */
    method MoveAssignFrom(other: DeferredAction, effects: Effects)
      modifies this, other, effects
      ensures other == this ==> Value() == old(Value()) && effects.ran == old(effects.ran)
      ensures other != this ==>
        && func == old(other.func) && cancelled == old(other.cancelled) && other.func == old(other.func)
        && other.cancelled && effects.ran == old(effects.ran) + if old(cancelled) then [] else [old(func)]
    {
      if this != other {
        Destruct(effects);
        TakeOver(other);
      }
    }

    method CancelAction()
      modifies this
      ensures cancelled && func == old(func)
    {
      cancelled := true;
    }
  }
}
