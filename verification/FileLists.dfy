/** Registering a list of descriptors: from the front until a call fails, and then one removal for each success. */
module FileLists {
  import opened FileTable

  /** The first loop of `RegisterFiles`: the tables, the status, and how many descriptors were registered.
      `grants[i]` is what the kernel answers about `fds[i]`, if it is asked. */
  function Registered(f: Files, fds: seq<int>, grants: seq<bool>): (r: (Files, Status, nat))
    requires |grants| == |fds|
    ensures r.2 <= |fds|
    decreases |fds|
  {
    if fds == [] then (f, Ok, 0)
    else
      var n := |fds| - 1;
      var (g, status, done) := Registered(f, fds[..n], grants[..n]);
      if !status.Ok? then (g, status, done)
      else
        var (h, last) := RegisterFile(g, fds[n], grants[n]);
        (h, last, if last.Ok? then done + 1 else done)
  }

  /** The second loop: one removal each. */
  function RolledBack(f: Files, fds: seq<int>, undos: seq<bool>): Files
    requires |undos| == |fds|
    decreases |fds|
  {
    if fds == [] then f
    else
      var n := |fds| - 1;
      UnregisterFile(RolledBack(f, fds[..n], undos[..n]), fds[n], undos[n]).0
  }

  /** `RegisterFiles`.  `undos[i]` is what the kernel answers when `fds[i]` is taken back. */
  function RegisterAll(f: Files, fds: seq<int>, grants: seq<bool>, undos: seq<bool>): (Files, Status)
    requires |grants| == |fds| == |undos|
  {
    var (g, status, done) := Registered(f, fds, grants);
    if status.Ok? then (g, Ok) else (RolledBack(g, fds[..done], undos[..done]), status)
  }

  /** Once a call has failed the rest of the list makes no difference. */
  lemma {:induction false} FailureIsFinal(f: Files, fds: seq<int>, grants: seq<bool>, k: nat)
    requires |grants| == |fds| && k <= |fds| && !Registered(f, fds[..k], grants[..k]).1.Ok?
    ensures Registered(f, fds, grants) == Registered(f, fds[..k], grants[..k])
    decreases |fds|
  {
    if k == |fds| {
      assert fds[..k] == fds && grants[..k] == grants;
    } else {
      var n := |fds| - 1;
      assert fds[..n][..k] == fds[..k] && grants[..n][..k] == grants[..k];
      FailureIsFinal(f, fds[..n], grants[..n], k);
    }
  }

  // ---------------------------------------------------------------------------------------------------
  // What is on top of the tables as they were

  function Elements(fds: seq<int>): set<int> {
    set fd | fd in fds
  }

  ghost predicate Distinct(fds: seq<int>) {
    forall i, j :: 0 <= i < j < |fds| ==> fds[i] != fds[j]
  }

  lemma OneMore(fds: seq<int>, i: nat)
    requires i < |fds|
    ensures Elements(fds[..i + 1]) == Elements(fds[..i]) + {fds[i]}
    ensures Distinct(fds[..i]) && fds[i] !in Elements(fds[..i]) ==> Distinct(fds[..i + 1])
    ensures Elements(fds[..i]) + {} == Elements(fds[..i])
  {
    assert fds[..i + 1] == fds[..i] + [fds[i]];
  }

  /** `t` is `base` with exactly the descriptors `extra` registered on top. */
  ghost predicate Extends(base: Table, t: Table, extra: set<int>) {
    && |t.free| == |base.free|
    && (forall fd :: fd in t.index <==> fd in base.index || fd in extra)
    && (forall fd :: fd in extra ==> fd !in base.index)
    && (forall fd :: fd in base.index ==> t.index[fd] == base.index[fd])
    && (forall fd :: fd in extra && fd in t.index ==>
          0 <= t.index[fd] < |base.free| && base.free[t.index[fd]] == INVALID_ID)
    && (forall i :: 0 <= i < |base.free| ==>
          if base.free[i] != INVALID_ID then t.free[i] == base.free[i]
          else t.free[i] == INVALID_ID || t.free[i] in extra)
  }

  lemma ExtendsByNothing(base: Table, t: Table)
    requires Extends(base, t, {})
    ensures t == base
  {
    var nothing: set<int> := {};
    assert forall fd :: fd in t.index <==> fd in base.index || fd in nothing;
    assert t.index.Keys == base.index.Keys;
    forall fd | fd in t.index ensures fd in base.index && t.index[fd] == base.index[fd] {
    }
    assert t.index == base.index;
    assert t.free == base.free;
  }

  lemma ExtendsBySomething(base: Table, t: Table, fd: int)
    requires Extends(base, t, {fd})
    ensures t != base
  {
    assert fd in t.index && fd !in base.index;
  }

  lemma AddExtends(base: Table, t: Table, extra: set<int>, fd: int)
    requires Sound(t) && Extends(base, t, extra)
    requires fd !in t.index && |t.index| != |t.free|
    ensures Extends(base, Add(t, fd), extra + {fd})
  {
    GuardSuffices(t);
    var i := FirstFree(t.free);
    hide FirstFree;
    assert base.free[i] == INVALID_ID;
  }

  lemma RemoveExtends(base: Table, t: Table, extra: set<int>, fd: int)
    requires Sound(t) && Extends(base, t, extra) && fd in extra
    ensures Extends(base, Remove(t, fd), extra - {fd})
  {
    assert fd in t.index && fd !in base.index;
    var i := t.index[fd];
    forall j | 0 <= j < |t.free| && j != i && t.free[j] != INVALID_ID && t.free[j] in extra
      ensures t.free[j] in extra - {fd} {
      assert t.index[t.free[j]] == j;
    }
  }

  /** One registration on top of others: a refusal by the kernel leaves the descriptor in the container and in the
      refused set, other failures change nothing. */
  lemma RegisterExtends(base: Table, f: Files, extra: set<int>, fd: int, granted: bool)
    requires Aligned(f) && Extends(base, f.table, extra)
    ensures var (g, status) := RegisterFile(f, fd, granted);
      && status == (if fd in f.table.index then AlreadyExists
                    else if |f.table.index| == |f.table.free| then ResourceExhausted
                    else if granted && f.kernel.Some? then Ok else KernelError)
      && (status.AlreadyExists? || status.ResourceExhausted? ==> g == f)
      && (status.Ok? || status.KernelError? ==>
           Extends(base, g.table, extra + {fd}) && |g.table.index| == |f.table.index| + 1)
      && g.refused == (if status.KernelError? then f.refused + {fd} else f.refused)
      && g.stale == f.stale && g.kernel.Some? == f.kernel.Some?
  {
    if fd !in f.table.index && |f.table.index| != |f.table.free| {
      GuardSuffices(f.table);
      AddExtends(base, f.table, extra, fd);
      assert Add(f.table, fd).index.Keys == f.table.index.Keys + {fd};
    }
  }

  lemma UnregisterExtends(base: Table, f: Files, extra: set<int>, fd: int, granted: bool)
    requires Aligned(f) && Extends(base, f.table, extra) && fd in extra && f.kernel.Some?
    ensures var g := UnregisterFile(f, fd, granted).0;
      && Extends(base, g.table, extra - {fd})
      && g.refused == f.refused - {fd} && g.stale == (f.stale || !granted) && g.kernel.Some?
  {
    RemoveExtends(base, f.table, extra, fd);
    assert fd in f.table.index.Keys;
  }

  /** Nothing went stale: then container and refused descriptors determine the kernel's table. */
  lemma SameKernel(f: Files, g: Files)
    requires Aligned(f) && Aligned(g) && !f.stale && !g.stale
    requires g.table == f.table && g.refused == f.refused && g.kernel.Some? == f.kernel.Some?
    ensures g == f
  {
    if f.kernel.Some? {
      assert g.kernel.value == f.kernel.value;
    }
  }

  // ---------------------------------------------------------------------------------------------------
  // How far the first loop gets

  /** `fds[i]` is neither registered nor earlier in the list. */
  predicate IsNew(f: Files, fds: seq<int>, i: nat)
    requires i < |fds|
  {
    fds[i] !in f.table.index && forall j :: 0 <= j < i ==> fds[j] != fds[i]
  }

  /** A slot is left after `i` registrations. */
  predicate HasRoom(f: Files, i: nat) {
    |f.table.index| + i != |f.table.free|
  }

  predicate Goes(f: Files, fds: seq<int>, grants: seq<bool>, i: nat)
    requires i < |fds| == |grants|
  {
    IsNew(f, fds, i) && HasRoom(f, i) && grants[i] && f.kernel.Some?
  }

  function Failure(f: Files, fds: seq<int>, i: nat): Status
    requires i < |fds|
  {
    if !IsNew(f, fds, i) then AlreadyExists else if !HasRoom(f, i) then ResourceExhausted else KernelError
  }

  /** What stays in the container after a failure at `i`, whatever is undone. */
  function Kept(f: Files, fds: seq<int>, i: nat): set<int>
    requires i < |fds|
  {
    if Failure(f, fds, i).KernelError? then {fds[i]} else {}
  }

  /** The state after the first `k` descriptors went well. */
  ghost predicate Progress(f: Files, g: Files, fds: seq<int>, grants: seq<bool>, k: nat)
    requires k <= |fds| == |grants|
  {
    && (forall i :: 0 <= i < k ==> Goes(f, fds, grants, i))
    && Distinct(fds[..k]) && Extends(f.table, g.table, Elements(fds[..k]))
    && Aligned(g) && g.refused == f.refused && g.stale == f.stale && g.kernel.Some? == f.kernel.Some?
    && |g.table.index| == |f.table.index| + k
  }

  /** The state after a failure at `k`, nothing undone yet. */
  ghost predicate Stopped(f: Files, g: Files, fds: seq<int>, grants: seq<bool>, k: nat)
    requires k < |fds| == |grants|
  {
    && (forall i :: 0 <= i < k ==> Goes(f, fds, grants, i)) && !Goes(f, fds, grants, k)
    && Distinct(fds[..k]) && Extends(f.table, g.table, Elements(fds[..k]) + Kept(f, fds, k))
    && Aligned(g) && g.refused == f.refused + Kept(f, fds, k) && g.stale == f.stale && g.kernel.Some? == f.kernel.Some?
  }

  lemma NextGoesOrStops(f: Files, g: Files, fds: seq<int>, grants: seq<bool>, k: nat)
    requires k < |fds| == |grants| && Aligned(f) && Progress(f, g, fds, grants, k)
    ensures var (h, status) := RegisterFile(g, fds[k], grants[k]);
      if status.Ok? then Progress(f, h, fds, grants, k + 1)
      else status == Failure(f, fds, k) && Stopped(f, h, fds, grants, k)
  {
    RegisterExtends(f.table, g, Elements(fds[..k]), fds[k], grants[k]);
    AlignedRegister(g, fds[k], grants[k]);
    OneMore(fds, k);
    hide Aligned, RegisterFile;
    assert fds[k] in Elements(fds[..k]) <==> exists j :: 0 <= j < k && fds[j] == fds[k];
  }

  lemma NoneYet(f: Files, fds: seq<int>, grants: seq<bool>)
    requires |grants| == |fds| && Aligned(f)
    ensures Progress(f, f, fds, grants, 0)
  {
    assert fds[..0] == [];
  }

  /** The first loop stops at the first descriptor that does not go, for the reason that shows there. */
  lemma {:induction false} FirstLoop(f: Files, fds: seq<int>, grants: seq<bool>, k: nat)
    requires k <= |fds| == |grants| && Aligned(f)
    ensures var (g, status, done) := Registered(f, fds[..k], grants[..k]);
      if status.Ok? then done == k && Progress(f, g, fds, grants, k)
      else done < k && status == Failure(f, fds, done) && Stopped(f, g, fds, grants, done)
  {
    hide Progress, Stopped, Failure, Aligned, RegisterFile;
    if k == 0 {
      NoneYet(f, fds, grants);
    } else {
      FirstLoop(f, fds, grants, k - 1);
      assert fds[..k][..k - 1] == fds[..k - 1] && grants[..k][..k - 1] == grants[..k - 1];
      var (g, status, done) := Registered(f, fds[..k - 1], grants[..k - 1]);
      if status.Ok? {
        NextGoesOrStops(f, g, fds, grants, k - 1);
      }
    }
  }

  lemma OneLess(fds: seq<int>, k: nat, kept: set<int>)
    requires 0 < k <= |fds| && Distinct(fds) && Elements(fds) !! kept
    ensures fds[k - 1] in Elements(fds[k - 1..])
    ensures Elements(fds[k - 1..]) + kept - {fds[k - 1]} == Elements(fds[k..]) + kept
  {
    assert fds[k - 1..] == [fds[k - 1]] + fds[k..];
    assert fds[k - 1] in Elements(fds);
  }

  /** The kernel agreed to the first `k` removals. */
  predicate AllGranted(undos: seq<bool>, k: nat)
    requires k <= |undos|
  {
    forall i :: 0 <= i < k ==> undos[i]
  }

  lemma GrantedInPrefix(undos: seq<bool>, k: nat)
    requires k <= |undos|
    ensures AllGranted(undos[..k], k) == AllGranted(undos, k)
  {
    forall i | 0 <= i < k ensures undos[..k][i] == undos[i] {
    }
  }

  /** `h` is `g` with the first `k` of `fds` taken off. */
  ghost predicate Undone(base: Table, g: Files, h: Files, fds: seq<int>, undos: seq<bool>, kept: set<int>, k: nat)
    requires k <= |fds| == |undos|
  {
    && Aligned(h) && Extends(base, h.table, Elements(fds[k..]) + kept)
    && h.refused == g.refused && h.kernel.Some? == g.kernel.Some?
    && h.stale == (g.stale || !AllGranted(undos, k))
  }

  lemma OneUndo(base: Table, g: Files, h: Files, fds: seq<int>, undos: seq<bool>, kept: set<int>, k: nat)
    requires 0 < k <= |fds| == |undos| && Distinct(fds) && Elements(fds) !! kept
    requires Undone(base, g, h, fds, undos, kept, k - 1) && g.kernel.Some? && fds[k - 1] !in g.refused
    ensures Undone(base, g, UnregisterFile(h, fds[k - 1], undos[k - 1]).0, fds, undos, kept, k)
  {
    OneLess(fds, k, kept);
    hide Elements, Distinct;
    UnregisterExtends(base, h, Elements(fds[k - 1..]) + kept, fds[k - 1], undos[k - 1]);
    AlignedUnregister(h, fds[k - 1], undos[k - 1]);
    hide Aligned, Extends, UnregisterFile;
  }

  lemma NoneUndone(base: Table, g: Files, fds: seq<int>, undos: seq<bool>, kept: set<int>)
    requires |fds| == |undos| && Aligned(g) && Extends(base, g.table, Elements(fds) + kept)
    ensures Undone(base, g, g, fds, undos, kept, 0)
  {
    assert fds[0..] == fds;
  }

  /** The second loop takes off what it is given and nothing else. */
  lemma {:induction false} SecondLoop(base: Table, g: Files, fds: seq<int>, undos: seq<bool>, kept: set<int>, k: nat)
    requires k <= |fds| == |undos| && Aligned(g) && (fds != [] ==> g.kernel.Some?)
    requires Distinct(fds) && Elements(fds) !! kept && Elements(fds) !! g.refused
    requires Extends(base, g.table, Elements(fds) + kept)
    ensures Undone(base, g, RolledBack(g, fds[..k], undos[..k]), fds, undos, kept, k)
  {
    hide Undone, UnregisterFile, Extends, Aligned, Distinct;
    if k == 0 {
      NoneUndone(base, g, fds, undos, kept);
    } else {
      SecondLoop(base, g, fds, undos, kept, k - 1);
      assert fds[..k][..k - 1] == fds[..k - 1] && undos[..k][..k - 1] == undos[..k - 1];
      assert fds[k - 1] in Elements(fds);
      OneUndo(base, g, RolledBack(g, fds[..k - 1], undos[..k - 1]), fds, undos, kept, k);
    }
  }

  // ---------------------------------------------------------------------------------------------------
  // All or nothing

  /** The call succeeds exactly when the list has no repetition, nothing in it is registered, it fits in the free
      slots, and the kernel grants each of it; then all of the list is registered. */
  lemma RegistersAllIff(f: Files, fds: seq<int>, grants: seq<bool>, undos: seq<bool>)
    requires |fds| == |grants| == |undos| && Aligned(f)
    ensures var (h, status) := RegisterAll(f, fds, grants, undos);
      && (status.Ok? <==> forall i :: 0 <= i < |fds| ==> Goes(f, fds, grants, i))
      && (status.Ok? ==> Aligned(h) && Extends(f.table, h.table, Elements(fds)) && h.refused == f.refused)
  {
    FirstLoop(f, fds, grants, |fds|);
    assert fds[..|fds|] == fds && grants[..|fds|] == grants;
    hide Aligned, Extends;
  }

  /** Otherwise the first descriptor that does not go decides.  If it is registered already or repeated, or if the
      slots run out, the container is as before; if the kernel refuses it, it stays in the container, alone.
      Everything is as before exactly when there was no refusal, of this one or of a removal. */
  lemma NothingIff(f: Files, fds: seq<int>, grants: seq<bool>, undos: seq<bool>, n: nat)
    requires n < |fds| == |grants| == |undos| && Aligned(f)
    requires !Goes(f, fds, grants, n) && forall i :: 0 <= i < n ==> Goes(f, fds, grants, i)
    ensures var (h, status) := RegisterAll(f, fds, grants, undos);
      && Aligned(h) && status == Failure(f, fds, n)
      && Extends(f.table, h.table, Kept(f, fds, n)) && h.refused == f.refused + Kept(f, fds, n)
      && (h.table == f.table <==> !(IsNew(f, fds, n) && HasRoom(f, n)))
      && (!f.stale ==> (h == f <==> !(IsNew(f, fds, n) && HasRoom(f, n)) && AllGranted(undos, n)))
  {
    FirstLoop(f, fds, grants, |fds|);
    assert fds[..|fds|] == fds && grants[..|fds|] == grants;
    var (g, status, done) := Registered(f, fds, grants);
    assert done == n;
    SecondLoopAfter(f, g, fds, grants, undos, n);
    var h := RolledBack(g, fds[..n], undos[..n]);
    if Failure(f, fds, n).KernelError? {
      ExtendsBySomething(f.table, h.table, fds[n]);
    } else {
      ExtendsByNothing(f.table, h.table);
      if !f.stale && !h.stale {
        SameKernel(f, h);
      }
    }
  }

  lemma WholeSecondLoop(base: Table, g: Files, fds: seq<int>, undos: seq<bool>, kept: set<int>)
    requires |fds| == |undos| && Aligned(g) && (fds != [] ==> g.kernel.Some?)
    requires Distinct(fds) && Elements(fds) !! kept && Elements(fds) !! g.refused
    requires Extends(base, g.table, Elements(fds) + kept)
    ensures var h := RolledBack(g, fds, undos);
      && Aligned(h) && Extends(base, h.table, kept)
      && h.refused == g.refused && h.kernel.Some? == g.kernel.Some?
      && h.stale == (g.stale || !AllGranted(undos, |undos|))
  {
    SecondLoop(base, g, fds, undos, kept, |fds|);
    hide RolledBack, Aligned, Extends;
    assert fds[..|fds|] == fds && undos[..|fds|] == undos;
    assert Elements(fds[|fds|..]) + kept == kept;
  }

  lemma SecondLoopAfter(f: Files, g: Files, fds: seq<int>, grants: seq<bool>, undos: seq<bool>, n: nat)
    requires n < |fds| == |grants| == |undos| && Aligned(f) && Stopped(f, g, fds, grants, n)
    ensures var h := RolledBack(g, fds[..n], undos[..n]);
      && Aligned(h) && Extends(f.table, h.table, Kept(f, fds, n))
      && h.refused == g.refused && h.stale == (g.stale || !AllGranted(undos, n))
      && h.kernel.Some? == f.kernel.Some?
  {
    DoneIsApart(f, g, fds, grants, n);
    GrantedInPrefix(undos, n);
    hide AllGranted;
    WholeSecondLoop(f.table, g, fds[..n], undos[..n], Kept(f, fds, n));
  }

  lemma DoneIsApart(f: Files, g: Files, fds: seq<int>, grants: seq<bool>, n: nat)
    requires n < |fds| == |grants| && Aligned(f) && Stopped(f, g, fds, grants, n)
    ensures Elements(fds[..n]) !! Kept(f, fds, n) && Elements(fds[..n]) !! g.refused
    ensures n > 0 ==> g.kernel.Some?
  {
    forall fd | fd in Elements(fds[..n]) ensures fd !in Kept(f, fds, n) && fd !in f.table.index {
      var i :| 0 <= i < n && fds[i] == fd;
      assert Goes(f, fds, grants, i);
    }
    assert n > 0 ==> Goes(f, fds, grants, 0);
    hide Extends;
  }

  /** A run that keeps a part: the kernel grants the first of two descriptors and refuses the second.  The call fails,
      the first is taken back, the second stays registered and names no file. */
  lemma RefusedOneStays(undo: bool)
    ensures var (h, status) := RegisterAll(InitFiles(2), [5, 6], [true, false], [undo, undo]);
      status.KernelError? && 5 !in h.table.index && 6 in h.table.index && 6 in h.refused
  {
    var f, fds, grants := InitFiles(2), [5, 6], [true, false];
    assert |f.table.index| == 0;
    NothingIff(f, fds, grants, [undo, undo], 1);
    assert Kept(f, fds, 1) == {6};
  }
}
