/** The objects that keep the registered files: the container and the calls of `IoUring` that use it. */
module FileRegistration {
  import opened Requests
  import opened FileTable
  import opened FileLists

  class IoUringFileFdContainer {
    const maxSize: nat
    var fdToIndex: map<int, int>
    var freeIds: seq<int>

    ghost function Contents(): Table
      reads this
    {
      Table(fdToIndex, freeIds)
    }

    constructor (maxFds: nat)
      ensures maxSize == maxFds && Contents() == EmptyTable(maxFds)
    {
      maxSize := maxFds;
      fdToIndex := map[];
      freeIds := EmptySlots(maxFds);
    }

    method LookUp(fd: int) returns (i: int)
      ensures i == FileTable.LookUp(Contents(), fd)
      ensures i == if fd in fdToIndex then fdToIndex[fd] else -1
    {
      if fd in fdToIndex {
        return fdToIndex[fd];
      }
      return INVALID_ID;
    }

    method Remove(fd: int)
      requires fd in fdToIndex ==> 0 <= fdToIndex[fd] < |freeIds|
      modifies this
      ensures Contents() == FileTable.Remove(old(Contents()), fd)
      ensures fdToIndex == old(fdToIndex) - {fd}
      ensures freeIds == if fd in old(fdToIndex) then old(freeIds)[old(fdToIndex)[fd] := -1] else old(freeIds)
    {
      if fd !in fdToIndex {
        return;
      }
      freeIds := freeIds[fdToIndex[fd] := INVALID_ID];
      fdToIndex := fdToIndex - {fd};
    }

    /** Search the slots from the front; the result is the slot of `fd`, new or already there. */
    method Add(fd: int) returns (index: int)
      requires |freeIds| == maxSize
      modifies this
      ensures Contents() == FileTable.Add(old(Contents()), fd)
      ensures fd in fdToIndex && index == fdToIndex[fd]
      ensures fd in old(fdToIndex) ==> fdToIndex == old(fdToIndex) && freeIds == old(freeIds)
      ensures fd !in old(fdToIndex) ==>
        && fdToIndex == old(fdToIndex)[fd := index] && 0 <= index <= maxSize
        && (forall j :: 0 <= j < index ==> old(freeIds)[j] != -1)
        && (index < maxSize ==> old(freeIds)[index] == -1 && freeIds == old(freeIds)[index := fd])
    {
      if fd in fdToIndex {
        return fdToIndex[fd];
      }
      index := 0;
      while index < maxSize
        invariant 0 <= index <= maxSize && freeIds == old(freeIds) && fdToIndex == old(fdToIndex)
        invariant forall j :: 0 <= j < index ==> freeIds[j] != INVALID_ID
      {
        if freeIds[index] == INVALID_ID {
          break;
        }
        index := index + 1;
      }
      assert index == FirstFree(old(freeIds));
      if index < maxSize {
        freeIds := freeIds[index := fd];
      }
      fdToIndex := fdToIndex[fd := index];
    }

    method CleanUp()
      modifies this
      ensures Contents() == EmptyTable(maxSize)
      ensures fdToIndex == map[] && |freeIds| == maxSize && forall i :: 0 <= i < maxSize ==> freeIds[i] == -1
    {
      fdToIndex := map[];
      freeIds := EmptySlots(maxSize);
    }
  }

  /** The part of `IoUring` that registers files, with the kernel's table behind it. */
  class FileRegistry {
    const registeredFds: IoUringFileFdContainer
    var kernel: Option<seq<int>>
    ghost var refused: set<int>
    ghost var stale: bool

    ghost function View(): Files
      reads this, registeredFds
    {
      Files(registeredFds.Contents(), kernel, refused, stale)
    }

    ghost predicate Valid()
      reads this, registeredFds
    {
      Aligned(View()) && |registeredFds.freeIds| == registeredFds.maxSize
    }

    constructor (n: nat)
      ensures Valid() && View() == InitFiles(n) && fresh(registeredFds)
    {
      registeredFds := new IoUringFileFdContainer(n);
      kernel := if n == 0 then None else Some(EmptySlots(n));
      refused, stale := {}, false;
    }

    /** `io_uring_register_files_update` of one slot: refused, or the slot is replaced. */
    method KernelUpdate(i: int, fd: int) returns (ret: int)
      modifies this`kernel
      ensures ret < 0 ==> kernel == old(kernel)
      ensures ret >= 0 ==> Updatable(old(kernel), i) && kernel == Some(old(kernel).value[i := fd])
    {
      var granted: bool := *;
      if granted && Updatable(kernel, i) {
        kernel := Some(kernel.value[i := fd]);
        return 1;
      }
      return -1;
    }

    method RegisterFile(fd: int) returns (status: Status, ghost granted: bool)
      requires Valid()
      modifies this, registeredFds
      ensures Valid() && (View(), status) == FileTable.RegisterFile(old(View()), fd, granted)
    {
      AlignedRegister(View(), fd, false);
      AlignedRegister(View(), fd, true);
      granted := false;
      var index := registeredFds.LookUp(fd);
      if index != INVALID_ID {
        return AlreadyExists, granted;
      }
      if registeredFds.maxSize == |registeredFds.fdToIndex| {
        return ResourceExhausted, granted;
      }
      GuardSuffices(registeredFds.Contents());
      index := registeredFds.Add(fd);
      var ret := KernelUpdate(index, fd);
      granted := ret >= 0;
      if ret < 0 {
        refused := refused + {fd};
        return KernelError, granted;
      }
      return Ok, granted;
    }

    /** `Read` and `Write` filling their entry: a registered descriptor is replaced by its slot and flagged.  The
        entry names the requested file unless the kernel refused that descriptor or its slot went to another one. */
    method PrepareReadWrite(r: Request) returns (sqe: Sqe)
      requires Valid()
      ensures sqe == Lower(View().table, r)
      ensures sqe.flags & 0xFE == r.flags & 0xFE
      ensures r.fd !in registeredFds.fdToIndex ==> sqe.fd == r.fd && sqe.flags == r.flags
      ensures r.fd in registeredFds.fdToIndex ==> sqe.fd == registeredFds.fdToIndex[r.fd] && sqe.flags & 0x01 == 0x01
      ensures !Fixed(r.flags) && (r.fd in registeredFds.fdToIndex ==> Holds(View(), r.fd)) ==>
        Designates(kernel, sqe) == Some(r.fd)
    {
      FixedFlag(r.flags);
      var newFd := registeredFds.LookUp(r.fd);
      if newFd != INVALID_ID {
        sqe := Sqe(newFd, r.flags | IOSQE_FIXED_FILE);
      } else {
        sqe := Sqe(r.fd, r.flags);
      }
    }

    method UnregisterFiles() returns (status: Status, ghost granted: bool)
      requires Valid()
      modifies this, registeredFds
      ensures Valid() && (View(), status) == FileTable.UnregisterFiles(old(View()), granted)
    {
      var denied: bool := *;
      granted := !denied && kernel.Some?;
      if denied || kernel.None? {
        return KernelError, granted;
      }
      kernel, refused := None, {};
      registeredFds.CleanUp();
      return Ok, granted;
    }

    method UnregisterFile(fd: int) returns (status: Status, ghost granted: bool)
      requires Valid()
      modifies this, registeredFds
      ensures Valid() && (View(), status) == FileTable.UnregisterFile(old(View()), fd, granted)
    {
      if |registeredFds.fdToIndex| == 0 {
        status, granted := UnregisterFiles();
        return;
      }
      AlignedUnregister(View(), fd, false);
      AlignedUnregister(View(), fd, true);
      granted := false;
      var index := registeredFds.LookUp(fd);
      if index == INVALID_ID {
        return NotFound, granted;
      }
      registeredFds.Remove(fd);
      refused := refused - {fd};
      var ret := KernelUpdate(index, INVALID_ID);
      granted := ret >= 0;
      if ret < 0 {
        stale := true;
        return KernelError, granted;
      }
      return Ok, granted;
    }

    /** The first loop of `RegisterFiles`: register from the front until a call fails. */
    method RegisterInOrder(fds: seq<int>) returns (res: Status, index: nat, ghost grants: seq<bool>)
      requires Valid()
      modifies this, registeredFds
      ensures Valid() && |grants| == |fds| && index <= |fds|
      ensures (View(), res, index) == Registered(old(View()), fds, grants)
    {
      hide FileTable.RegisterFile, Aligned;
      res, index, grants := Ok, 0, [];
      while index < |fds|
        invariant 0 <= index <= |fds| && |grants| == index && Valid()
        invariant res.Ok? && (View(), res, index) == Registered(old(View()), fds[..index], grants)
      {
        ghost var granted;
        res, granted := RegisterFile(fds[index]);
        grants := grants + [granted];
        assert fds[..index + 1][..index] == fds[..index] && grants[..index] == grants[..|grants| - 1];
        if !res.Ok? {
          grants := grants + seq(|fds| - index - 1, _ => true);
          assert grants[..index + 1] == grants[..index] + [granted];
          assert grants[..index + 1][..index] == grants[..index];
          FailureIsFinal(old(View()), fds, grants, index + 1);
          return;
        }
        index := index + 1;
      }
      assert fds[..index] == fds;
    }

    /** The second loop of `RegisterFiles`: one removal each. */
    method Rollback(fds: seq<int>) returns (ghost undos: seq<bool>)
      requires Valid()
      modifies this, registeredFds
      ensures Valid() && |undos| == |fds| && View() == RolledBack(old(View()), fds, undos)
    {
      undos := [];
      for i := 0 to |fds|
        invariant Valid() && |undos| == i && View() == RolledBack(old(View()), fds[..i], undos)
      {
        var status, granted := UnregisterFile(fds[i]);
        undos := undos + [granted];
        assert fds[..i + 1][..i] == fds[..i] && undos[..i] == undos[..|undos| - 1];
      }
      assert fds[..|fds|] == fds;
    }

    /** `RegisterFiles`: register the list in order, and when a call fails take the others back.  `grants` and
        `undos` are the kernel's answers. */
    method RegisterFiles(fds: seq<int>) returns (res: Status, ghost grants: seq<bool>, ghost undos: seq<bool>)
      requires Valid()
      modifies this, registeredFds
      ensures Valid() && |grants| == |undos| == |fds|
      ensures (View(), res) == RegisterAll(old(View()), fds, grants, undos)
      ensures (res.Ok? <==> forall i :: 0 <= i < |fds| ==> Goes(old(View()), fds, grants, i))
    {
      var index;
      res, index, grants := RegisterInOrder(fds);
      undos := seq(|fds|, _ => true);
      if !res.Ok? {
        ghost var answers := Rollback(fds[..index]);
        undos := answers + undos[index..];
        assert undos[..index] == answers;
      }
      RegistersAllIff(old(View()), fds, grants, undos);
    }
  }
}
