/** The registered-file table: a map from descriptors to slots, the slot vector beside it, the kernel's slot table
    they have to agree with, and the lowering of reads and writes through them. */
module FileTable {
  import opened Requests

  const INVALID_ID: int := -1

  datatype Option<T> = None | Some(value: T)

  /** `free[i]` is the descriptor in slot `i`, or `INVALID_ID`. */
  datatype Table = Table(index: map<int, int>, free: seq<int>)

  function EmptySlots(n: nat): seq<int> {
    seq(n, _ => INVALID_ID)
  }

  function EmptyTable(n: nat): Table {
    Table(map[], EmptySlots(n))
  }

  /** The lowest free slot, or the number of slots when there is none. */
  function FirstFree(free: seq<int>): (i: nat)
    ensures i <= |free|
    ensures forall j :: 0 <= j < i ==> free[j] != INVALID_ID
    ensures i < |free| ==> free[i] == INVALID_ID
  {
    if free == [] || free[0] == INVALID_ID then 0 else 1 + FirstFree(free[1..])
  }

  function LookUp(t: Table, fd: int): int {
    if fd in t.index then t.index[fd] else INVALID_ID
  }

  function Add(t: Table, fd: int): Table {
    if fd in t.index then t
    else
      var i := FirstFree(t.free);
      Table(t.index[fd := i], if i < |t.free| then t.free[i := fd] else t.free)
  }

  function Remove(t: Table, fd: int): Table {
    if fd in t.index then
      Table(t.index - {fd}, if 0 <= t.index[fd] < |t.free| then t.free[t.index[fd] := INVALID_ID] else t.free)
    else t
  }

  /** Map and slot vector are inverse to each other. */
  ghost predicate Bijective(t: Table) {
    && INVALID_ID !in t.index
    && (forall fd :: fd in t.index ==> 0 <= t.index[fd] < |t.free| && t.free[t.index[fd]] == fd)
    && (forall i :: 0 <= i < |t.free| && t.free[i] != INVALID_ID ==> t.free[i] in t.index && t.index[t.free[i]] == i)
  }

  /** What holds for every descriptor, -1 included: the map stays in the range of the slots and does not outgrow
      them, and an occupied slot is the one its descriptor is mapped to. */
  ghost predicate Sound(t: Table) {
    && |t.index| <= |t.free|
    && (forall fd :: fd in t.index ==> 0 <= t.index[fd] < |t.free|)
    && OccupiedMapped(t)
  }

  ghost predicate OccupiedMapped(t: Table) {
    forall i :: 0 <= i < |t.free| && t.free[i] != INVALID_ID ==> t.free[i] in t.index && t.index[t.free[i]] == i
  }

  function Occupied(free: seq<int>): nat {
    if free == [] then 0
    else Occupied(free[..|free| - 1]) + if free[|free| - 1] == INVALID_ID then 0 else 1
  }

  /** As many descriptors are mapped as slots are taken. */
  lemma {:induction false} SizeIsOccupied(t: Table)
    requires Bijective(t)
    ensures |t.index| == Occupied(t.free)
    decreases |t.free|
  {
    if t.free == [] {
      assert t.index == map[] by {
        assert forall fd :: fd !in t.index;
      }
    } else {
      var n := |t.free| - 1;
      var fd := t.free[n];
      var rest := Table(t.index - {fd}, t.free[..n]);
      if fd == INVALID_ID {
        assert rest.index == t.index;
      } else {
        assert t.index.Keys == rest.index.Keys + {fd};
        assert |t.index.Keys| == |rest.index.Keys| + 1;
        assert |t.index| == |t.index.Keys| && |rest.index| == |rest.index.Keys|;
      }
      assert Bijective(rest);
      SizeIsOccupied(rest);
    }
  }

  lemma {:induction false} OccupiedBound(free: seq<int>)
    ensures Occupied(free) <= |free|
    ensures Occupied(free) < |free| <==> FirstFree(free) < |free|
  {
    if free != [] {
      var front := free[..|free| - 1];
      OccupiedBound(front);
      if FirstFree(front) < |front| {
        assert free[FirstFree(front)] == INVALID_ID;
      }
      if FirstFree(free) < |front| {
        assert front[FirstFree(free)] == INVALID_ID;
      }
    }
  }

  /** The pigeonhole behind the capacity guard: the size never exceeds the number of slots, and it is below it
      exactly when `Add` finds a slot in range. */
  lemma GuardFindsSlot(t: Table)
    requires Bijective(t)
    ensures |t.index| <= |t.free|
    ensures |t.index| != |t.free| <==> FirstFree(t.free) < |t.free|
  {
    SizeIsOccupied(t);
    OccupiedBound(t.free);
  }

  lemma {:induction false} OccupiedWithinSize(t: Table)
    requires OccupiedMapped(t)
    ensures Occupied(t.free) <= |t.index|
    decreases |t.free|
  {
    if t.free != [] {
      var n := |t.free| - 1;
      var fd := t.free[n];
      var rest := Table(t.index - {fd}, t.free[..n]);
      assert OccupiedMapped(rest);
      OccupiedWithinSize(rest);
      if fd == INVALID_ID {
        assert rest.index.Keys <= t.index.Keys;
        SizeOfSubset(rest.index.Keys, t.index.Keys);
      } else {
        assert t.index.Keys == rest.index.Keys + {fd};
        assert |t.index.Keys| == |rest.index.Keys| + 1;
      }
      assert |t.index| == |t.index.Keys| && |rest.index| == |rest.index.Keys|;
    }
  }

  lemma {:induction false} SizeOfSubset(a: set<int>, b: set<int>)
    requires a <= b
    ensures |a| <= |b|
  {
    assert b == a + (b - a);
  }

  /** The capacity guard is enough for any descriptor: behind it `Add` finds a slot in range. */
  lemma GuardSuffices(t: Table)
    requires Sound(t) && |t.index| != |t.free|
    ensures FirstFree(t.free) < |t.free|
  {
    OccupiedWithinSize(t);
    OccupiedBound(t.free);
  }

  lemma AddKeepsSound(t: Table, fd: int)
    requires Sound(t) && |t.index| != |t.free|
    ensures Sound(Add(t, fd))
  {
    GuardSuffices(t);
    hide FirstFree;
    if fd !in t.index {
      assert Add(t, fd).index.Keys == t.index.Keys + {fd};
      assert |Add(t, fd).index| == |t.index| + 1;
    }
  }

  lemma RemoveKeepsSound(t: Table, fd: int)
    requires Sound(t)
    ensures Sound(Remove(t, fd))
  {
    assert Remove(t, fd).index.Keys <= t.index.Keys;
    SizeOfSubset(Remove(t, fd).index.Keys, t.index.Keys);
    assert |t.index| == |t.index.Keys| && |Remove(t, fd).index| == |Remove(t, fd).index.Keys|;
  }

  /** `Add` behind its guard keeps the bijection for every descriptor but -1, and for that one it does not. */
  lemma AddKeepsBijectionIff(t: Table, fd: int)
    requires Bijective(t) && |t.index| != |t.free|
    ensures Bijective(Add(t, fd)) <==> fd != INVALID_ID
  {
    GuardFindsSlot(t);
    if fd == INVALID_ID {
      assert INVALID_ID in Add(t, fd).index;
    }
  }

  lemma RemoveKeepsBijection(t: Table, fd: int)
    requires Bijective(t)
    ensures Bijective(Remove(t, fd))
  {
  }

  /** Registering -1 leaves its slot marked free, so the next descriptor gets the same slot. */
  lemma MinusOneSharesItsSlot(n: nat, fd: int)
    requires n > 0 && fd != INVALID_ID
    ensures var t := Add(Add(EmptyTable(n), INVALID_ID), fd);
      INVALID_ID in t.index && fd in t.index && t.index[INVALID_ID] == t.index[fd]
  {
    var t := Add(EmptyTable(n), INVALID_ID);
    assert FirstFree(EmptySlots(n)) == 0;
    assert t.free[0] == INVALID_ID;
    assert FirstFree(t.free) == 0;
  }

  // ---------------------------------------------------------------------------------------------------
  // Registration

  /** `kernel` is the kernel's slot table while one is registered.  `refused` holds the
      registered descriptors the kernel refused after the container had added them, `stale` tells that some
      UnregisterFile was refused after the container had removed the descriptor. */
  datatype Files = Files(table: Table, kernel: Option<seq<int>>, refused: set<int>, stale: bool)

  datatype Status = Ok | AlreadyExists | ResourceExhausted | NotFound | KernelError

  function InitFiles(n: nat): Files {
    Files(EmptyTable(n), if n == 0 then None else Some(EmptySlots(n)), {}, false)
  }

  /** Whether the kernel can replace slot `i`; it may still refuse for reasons of its own. */
  predicate Updatable(k: Option<seq<int>>, i: int) {
    k.Some? && 0 <= i < |k.value|
  }

  function RegisterFile(f: Files, fd: int, granted: bool): (Files, Status) {
    if LookUp(f.table, fd) != INVALID_ID then (f, AlreadyExists)
    else if |f.table.free| == |f.table.index| then (f, ResourceExhausted)
    else
      var t := Add(f.table, fd);
      var i := FirstFree(f.table.free);
      if granted && Updatable(f.kernel, i) then (f.(table := t, kernel := Some(f.kernel.value[i := fd])), Ok)
      else (f.(table := t, refused := f.refused + {fd}), KernelError)
  }

  function UnregisterFiles(f: Files, granted: bool): (Files, Status) {
    if granted && f.kernel.Some? then (f.(table := EmptyTable(|f.table.free|), kernel := None, refused := {}), Ok)
    else (f, KernelError)
  }

  function UnregisterFile(f: Files, fd: int, granted: bool): (Files, Status) {
    if |f.table.index| == 0 then UnregisterFiles(f, granted)
    else
      var i := LookUp(f.table, fd);
      if i == INVALID_ID then (f, NotFound)
      else
        var g := f.(table := Remove(f.table, fd), refused := f.refused - {fd});
        if granted && Updatable(f.kernel, i) then (g.(kernel := Some(f.kernel.value[i := INVALID_ID])), Ok)
        else (g.(stale := true), KernelError)
  }

  /** Removing everything: possible exactly while the kernel has a table and agrees; then the container is empty, slot
      by slot, and the kernel's table is gone.  Otherwise nothing changes. */
  lemma UnregistersAllIff(f: Files, granted: bool)
    ensures var (g, status) := UnregisterFiles(f, granted);
      if granted && f.kernel.Some? then
        && status == Ok && g.kernel == None && g.table.index == map[] && |g.table.free| == |f.table.free|
        && g.refused == {} && forall i :: 0 <= i < |g.table.free| ==> g.table.free[i] == -1
      else status == KernelError && g == f
  {
  }

  /** Removing one descriptor, by cause: with nothing registered everything goes; an unknown one changes nothing; a
      known one leaves map and slots, and its kernel slot is cleared exactly if the kernel agrees. */
  lemma UnregistersIff(f: Files, fd: int, granted: bool)
    requires Aligned(f)
    ensures var (g, status) := UnregisterFile(f, fd, granted);
      if |f.table.index| == 0 then (g, status) == UnregisterFiles(f, granted)
      else if fd !in f.table.index then status == NotFound && g == f
      else
        var i := f.table.index[fd];
        && 0 <= i < |f.table.free| && g.table == Table(f.table.index - {fd}, f.table.free[i := -1])
        && fd !in g.refused && (forall x :: x != fd ==> (x in g.refused <==> x in f.refused))
        && (status == if granted && f.kernel.Some? then Ok else KernelError)
        && (status.Ok? ==> g.kernel == Some(f.kernel.value[i := -1]) && g.stale == f.stale)
        && (!status.Ok? ==> g.kernel == f.kernel && g.stale)
  {
  }

  datatype Call = Register(fd: int, granted: bool) | Unregister(fd: int, granted: bool) | UnregisterAll(granted: bool)

  function Do(f: Files, call: Call): Files {
    match call
    case Register(fd, granted) => RegisterFile(f, fd, granted).0
    case Unregister(fd, granted) => UnregisterFile(f, fd, granted).0
    case UnregisterAll(granted) => UnregisterFiles(f, granted).0
  }

  function DoAll(f: Files, calls: seq<Call>): Files
    decreases |calls|
  {
    if calls == [] then f else DoAll(Do(f, calls[0]), calls[1..])
  }

  /** No call of the run registers -1. */
  predicate Sane(calls: seq<Call>) {
    forall i :: 0 <= i < |calls| && calls[i].Register? ==> calls[i].fd != INVALID_ID
  }

  lemma EmptyIsSound(n: nat)
    ensures Sound(EmptyTable(n))
  {
  }

  lemma SoundCall(f: Files, call: Call)
    requires Sound(f.table)
    ensures Sound(Do(f, call).table)
  {
    EmptyIsSound(|f.table.free|);
    hide Sound, FirstFree, EmptyTable;
    match call
    case Register(fd, _) =>
      if fd !in f.table.index && |f.table.index| != |f.table.free| {
        AddKeepsSound(f.table, fd);
      }
      hide Add;
    case Unregister(fd, _) => RemoveKeepsSound(f.table, fd); hide Remove;
    case UnregisterAll(_) =>
  }

  /** Over any run of calls, with any descriptors and any answers of the kernel, no index leaves the slots. */
  lemma {:induction false} SoundRun(f: Files, calls: seq<Call>)
    requires Sound(f.table)
    ensures Sound(DoAll(f, calls).table)
    decreases |calls|
  {
    if calls != [] {
      SoundCall(f, calls[0]);
      SoundRun(Do(f, calls[0]), calls[1..]);
    }
  }

  /** An occupied slot is occupied by the same descriptor in the kernel, unless the kernel refused it; and while every
      removal reached the kernel, its table is the container's with the refused descriptors missing. */
  ghost predicate Aligned(f: Files) {
    && Sound(f.table)
    && (forall fd :: fd in f.refused ==> fd in f.table.index)
    && (f.kernel.Some? ==> |f.kernel.value| == |f.table.free|)
    && (forall i :: 0 <= i < |f.table.free| && f.table.free[i] != INVALID_ID && f.table.free[i] !in f.refused ==>
          f.kernel.Some? && f.kernel.value[i] == f.table.free[i])
    && (f.kernel.Some? && !f.stale ==>
          forall i :: 0 <= i < |f.table.free| ==>
            f.kernel.value[i] == if f.table.free[i] in f.refused then INVALID_ID else f.table.free[i])
  }

  lemma AlignedRegister(f: Files, fd: int, granted: bool)
    requires Aligned(f)
    ensures Aligned(RegisterFile(f, fd, granted).0)
  {
    if fd !in f.table.index && |f.table.index| != |f.table.free| {
      GuardSuffices(f.table);
      AddKeepsSound(f.table, fd);
      hide Sound, FirstFree;
    }
  }

  lemma AlignedUnregister(f: Files, fd: int, granted: bool)
    requires Aligned(f)
    ensures Aligned(UnregisterFile(f, fd, granted).0)
  {
    if |f.table.index| != 0 {
      RemoveKeepsSound(f.table, fd);
    }
  }

  lemma AlignedCall(f: Files, call: Call)
    requires Aligned(f)
    ensures Aligned(Do(f, call))
  {
    match call
    case Register(fd, granted) => AlignedRegister(f, fd, granted); hide Aligned;
    case Unregister(fd, granted) => AlignedUnregister(f, fd, granted); hide Aligned;
    case UnregisterAll(_) =>
  }

  /** Over any run of calls, with any descriptors and any answers, container and kernel stay aligned. */
  lemma {:induction false} AlignedRun(f: Files, calls: seq<Call>)
    requires Aligned(f)
    ensures Aligned(DoAll(f, calls))
    decreases |calls|
  {
    if calls != [] {
      AlignedCall(f, calls[0]);
      AlignedRun(Do(f, calls[0]), calls[1..]);
    }
  }

  lemma BijectiveCall(f: Files, call: Call)
    requires Bijective(f.table) && (call.Register? ==> call.fd != INVALID_ID)
    ensures Bijective(Do(f, call).table)
  {
    match call
    case Register(fd, _) =>
      if fd !in f.table.index && |f.table.index| != |f.table.free| {
        AddKeepsBijectionIff(f.table, fd);
      }
    case Unregister(fd, _) => RemoveKeepsBijection(f.table, fd);
    case UnregisterAll(_) =>
  }

  /** In a run that does not register -1 map and slots stay inverse to each other. */
  lemma {:induction false} BijectiveRun(f: Files, calls: seq<Call>)
    requires Bijective(f.table) && Sane(calls)
    ensures Bijective(DoAll(f, calls).table)
    decreases |calls|
  {
    if calls != [] {
      BijectiveCall(f, calls[0]);
      BijectiveRun(Do(f, calls[0]), calls[1..]);
    }
  }

  /** The slot of a descriptor does not move in a run during which it stays registered. */
  lemma {:induction false} SlotIsStable(f: Files, calls: seq<Call>, fd: int)
    requires Sound(f.table)
    requires forall k :: 0 <= k <= |calls| ==> fd in DoAll(f, calls[..k]).table.index
    ensures fd in f.table.index && fd in DoAll(f, calls).table.index
    ensures DoAll(f, calls).table.index[fd] == f.table.index[fd]
    decreases |calls|
  {
    assert calls[..0] == [];
    assert calls[..|calls|] == calls;
    if calls != [] {
      var g := Do(f, calls[0]);
      SoundCall(f, calls[0]);
      forall k | 0 <= k <= |calls| - 1 ensures fd in DoAll(g, calls[1..][..k]).table.index {
        assert calls[..k + 1][0] == calls[0] && calls[..k + 1][1..] == calls[1..][..k];
      }
      assert calls[1..][..0] == [];
      assert fd in DoAll(g, calls[1..][..0]).table.index;
      SlotIsStable(g, calls[1..], fd);
    }
  }

  /** The call takes the kernel's table away: a removal of everything, or of one descriptor while none is registered. */
  predicate TakesAll(f: Files, call: Call) {
    f.kernel.Some? && call.granted && (call.UnregisterAll? || (call.Unregister? && |f.table.index| == 0))
  }

  lemma KernelGoneStep(f: Files, call: Call)
    ensures Do(f, call).kernel.None? <==> f.kernel.None? || TakesAll(f, call)
  {
  }

  /** Exactly when registration has ended: the kernel's table is gone after a run if and only if some call of it took
      the table away, and no call brings it back. */
  lemma {:induction false} KernelGoneIff(f: Files, calls: seq<Call>)
    ensures DoAll(f, calls).kernel.None? <==>
      f.kernel.None? || exists k :: 0 <= k < |calls| && TakesAll(DoAll(f, calls[..k]), calls[k])
    decreases |calls|
  {
    assert calls[..|calls|] == calls;
    if calls != [] {
      var g, rest := Do(f, calls[0]), calls[1..];
      KernelGoneStep(f, calls[0]);
      KernelGoneIff(g, rest);
      assert TakesAll(f, calls[0]) == TakesAll(DoAll(f, calls[..0]), calls[0]);
      forall k | 0 <= k < |rest| ensures DoAll(g, rest[..k]) == DoAll(f, calls[..k + 1]) && rest[k] == calls[k + 1] {
        assert calls[..k + 1][0] == calls[0] && calls[..k + 1][1..] == rest[..k];
      }
    }
  }

  // ---------------------------------------------------------------------------------------------------
  // Lowering

  datatype Sqe = Sqe(fd: int, flags: bv8)

  /** Bit 0 of the flags. */
  predicate Fixed(flags: bv8): (fixed: bool)
    ensures fixed <==> flags & 0x01 == 0x01
  {
    flags & IOSQE_FIXED_FILE != 0
  }

  /** What `Read` and `Write` put into the entry. */
  function Lower(t: Table, r: Request): Sqe {
    var i := LookUp(t, r.fd);
    if i != INVALID_ID then Sqe(i, r.flags | IOSQE_FIXED_FILE) else Sqe(r.fd, r.flags)
  }

  /** The file the kernel uses for an entry, if any. */
  function Designates(k: Option<seq<int>>, sqe: Sqe): Option<int> {
    if !Fixed(sqe.flags) then Some(sqe.fd)
    else if Updatable(k, sqe.fd) && k.value[sqe.fd] != INVALID_ID then Some(k.value[sqe.fd])
    else None
  }

  lemma FixedFlag(flags: bv8)
    ensures Fixed(flags | IOSQE_FIXED_FILE)
    ensures (flags | IOSQE_FIXED_FILE) & 0xFE == flags & 0xFE
    ensures (flags | IOSQE_FIXED_FILE) & (IOSQE_IO_LINK | IOSQE_IO_HARDLINK)
        == flags & (IOSQE_IO_LINK | IOSQE_IO_HARDLINK)
  {
  }

  /** The container says that the kernel slot of `fd` holds it: the slot was not given to another descriptor, and the
      kernel did not refuse this one. */
  predicate Holds(f: Files, fd: int)
    requires fd in f.table.index && 0 <= f.table.index[fd] < |f.table.free|
  {
    fd != INVALID_ID && f.table.free[f.table.index[fd]] == fd && fd !in f.refused
  }

  /** What a lowered entry of a registered descriptor names, whatever flags the request came with. */
  lemma LoweredNames(f: Files, r: Request)
    requires Aligned(f) && r.fd in f.table.index
    ensures 0 <= f.table.index[r.fd] < |f.table.free|
    ensures Holds(f, r.fd) ==> Designates(f.kernel, Lower(f.table, r)) == Some(r.fd)
    ensures !f.stale ==>
      var other := f.table.free[f.table.index[r.fd]];
      Designates(f.kernel, Lower(f.table, r)) == if other == INVALID_ID || other in f.refused then None else Some(other)
  {
    FixedFlag(r.flags);
  }

  /** After any run of register and unregister calls a prepared read or write names exactly the requested descriptor,
      unless the kernel refused that descriptor or its slot went to another one; and while every removal reached the
      kernel, in no other case. */
  lemma LoweringKeepsMeaning(n: nat, calls: seq<Call>, r: Request)
    requires !Fixed(r.flags)
    ensures var f := DoAll(InitFiles(n), calls);
      && (r.fd in f.table.index ==> 0 <= f.table.index[r.fd] < |f.table.free|)
      && (r.fd in f.table.index ==> Holds(f, r.fd) ==> Designates(f.kernel, Lower(f.table, r)) == Some(r.fd))
      && (!f.stale ==>
           (Designates(f.kernel, Lower(f.table, r)) == Some(r.fd) <==> r.fd !in f.table.index || Holds(f, r.fd)))
  {
    AlignedRun(InitFiles(n), calls);
    if r.fd in DoAll(InitFiles(n), calls).table.index {
      LoweredNames(DoAll(InitFiles(n), calls), r);
    }
    hide Aligned;
  }

  /** In a run that does not register -1 a slot never goes to another descriptor, so a read or write names the requested
      file unless the kernel refused it. */
  lemma LoweringWithoutMinusOne(n: nat, calls: seq<Call>, r: Request)
    requires !Fixed(r.flags) && Sane(calls)
    ensures var f := DoAll(InitFiles(n), calls);
      r.fd !in f.refused ==> Designates(f.kernel, Lower(f.table, r)) == Some(r.fd)
  {
    LoweringKeepsMeaning(n, calls, r);
    BijectiveRun(InitFiles(n), calls);
    hide Designates;
    assert r.fd !in DoAll(InitFiles(n), calls).table.index ==>
      Lower(DoAll(InitFiles(n), calls).table, r) == Sqe(r.fd, r.flags);
  }

  /** A run in which a slot goes to another descriptor: -1 and 5 share one, and with -1 unregistered a read of 5, still
      registered, names no file. */
  lemma SharedSlotNamesNothing(r: Request)
    requires r.fd == 5
    ensures var f := DoAll(InitFiles(2), [Register(-1, true), Register(5, true), Unregister(-1, true)]);
      r.fd in f.table.index && Designates(f.kernel, Lower(f.table, r)) == None
  {
    var calls := [Register(-1, true), Register(5, true), Unregister(-1, true)];
    assert calls[1..] == [Register(5, true), Unregister(-1, true)] && calls[1..][1..] == [Unregister(-1, true)];
    assert calls[1..][1..][1..] == [];
    assert FirstFree(EmptySlots(2)) == 0;
    var f := Do(InitFiles(2), calls[0]);
    assert f.table == Table(map[-1 := 0], EmptySlots(2)) && |f.table.index| == 1;
    var g := Do(f, calls[1]);
    assert g.table == Table(map[-1 := 0, 5 := 0], [5, INVALID_ID]) && |g.table.index| == 2;
    FixedFlag(r.flags);
  }

  /** A request that already names a kernel slot keeps its meaning exactly when the slot number is not itself a
      registered descriptor, or the slot of that number holds the descriptor of that number; if the container's slot of
      that descriptor holds no file, when the slot of that number holds none either. */
  lemma FixedRequestIff(n: nat, calls: seq<Call>, r: Request)
    requires Fixed(r.flags)
    ensures var f := DoAll(InitFiles(n), calls);
      var plain, lowered := Designates(f.kernel, Sqe(r.fd, r.flags)), Designates(f.kernel, Lower(f.table, r));
      && (r.fd !in f.table.index ==> lowered == plain)
      && (r.fd in f.table.index ==>
           && 0 <= f.table.index[r.fd] < |f.table.free|
           && (Holds(f, r.fd) ==> (lowered == plain <==> plain == Some(r.fd)))
           && (r.fd in f.refused && f.table.free[f.table.index[r.fd]] == r.fd && !f.stale ==>
                (lowered == plain <==> plain == None)))
  {
    AlignedRun(InitFiles(n), calls);
    if r.fd in DoAll(InitFiles(n), calls).table.index {
      LoweredNames(DoAll(InitFiles(n), calls), r);
    }
    hide Aligned;
  }

  /** A read of the file in kernel slot 1 becomes a read of the file with descriptor 1. */
  lemma FixedRequestRedirected(r: Request)
    requires r.fd == 1 && Fixed(r.flags)
    ensures var f := DoAll(InitFiles(2), [Register(1, true), Register(7, true)]);
      && Designates(f.kernel, Sqe(r.fd, r.flags)) == Some(7)
      && Designates(f.kernel, Lower(f.table, r)) == Some(1)
  {
    var f := RegisterFile(InitFiles(2), 1, true).0;
    assert f.table.free == [1, INVALID_ID];
    assert FirstFree(f.table.free[1..]) == 0;
    assert FirstFree(f.table.free) == 1;
    assert |f.table.index| == 1;
    var calls := [Register(1, true), Register(7, true)];
    assert calls[1..] == [Register(7, true)] && calls[1..][1..] == [];
    assert DoAll(InitFiles(2), calls) == RegisterFile(f, 7, true).0;
    FixedFlag(r.flags);
  }

  /** What registration is worth once the kernel's table is gone: a descriptor still gets into the container, but the
      call fails, and no lowered entry names a file. */
  lemma NothingNamedWithoutTable(f: Files, fd: int, granted: bool, r: Request)
    requires Aligned(f) && f.kernel.None?
    ensures r.fd in f.table.index ==> Designates(f.kernel, Lower(f.table, r)) == None
    ensures fd !in f.table.index && |f.table.index| < |f.table.free| ==>
      var (g, status) := RegisterFile(f, fd, granted); status.KernelError? && fd in g.table.index
  {
    FixedFlag(r.flags);
  }

  /** Unregistering any descriptor while none is registered ends registration for good. */
  lemma EmptyUnregisterEndsRegistration(f: Files, fd: int, calls: seq<Call>, r: Request)
    requires Aligned(f) && f.kernel.Some? && |f.table.index| == 0
    ensures var g := DoAll(UnregisterFile(f, fd, true).0, calls);
      g.kernel.None? && (r.fd in g.table.index ==> Designates(g.kernel, Lower(g.table, r)) == None)
  {
    var g := UnregisterFile(f, fd, true).0;
    AlignedUnregister(f, fd, true);
    KernelGoneIff(g, calls);
    AlignedRun(g, calls);
    NothingNamedWithoutTable(DoAll(g, calls), fd, true, r);
  }

  /** Lowering changes no flag but the one for fixed files, and that only for a registered descriptor.  So it does not
      open or close a link chain. */
  lemma LoweringKeepsFlags(t: Table, r: Request)
    ensures Lower(t, r).flags & 0xFE == r.flags & 0xFE
    ensures LookUp(t, r.fd) == -1 ==> Lower(t, r).flags == r.flags
    ensures Links(r.(flags := Lower(t, r).flags)) == Links(r)
  {
    FixedFlag(r.flags);
  }
}
