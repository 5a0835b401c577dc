/** The completion object as the source has it: fields that a CQE fills in, a promise that may be set once, and
    deletion from inside. */
module CompletionObject {
  import opened Requests
  import opened Completions

  class IoCompletion {
    const bufGid: int
    var cqeRes: int
    var cqeFlags: bv32
    var bufBid: bv32
    var promise: Promise
    var deleted: bool

    /** The object as a value of the pipeline. */
    ghost function View(): Completion
      reads this
    {
      Completion(bufGid, cqeFlags, bufBid, promise, if promise.Unset? then 0 else 1, if deleted then 1 else 0)
    }

    /** `garbage` stands for what the uninitialised flags happen to hold. */
    constructor (gid: int, garbage: bv32)
      ensures bufGid == gid && View() == Fresh(gid, garbage)
      ensures bufBid == 0 && cqeFlags == garbage && promise.Unset? && !deleted
    {
      bufGid := gid;
      cqeRes, cqeFlags, bufBid := 0, garbage, INVALID_BUFF_GID as bv32;
      promise, deleted := Unset, false;
    }

    method MoreToCome() returns (more: bool)
      ensures more == More(cqeFlags)
    {
      more := cqeFlags & IORING_CQE_F_MORE != 0;
    }

    /** Set the promise, then delete the object unless more CQEs are announced.  A promise that is set already would
        throw out of a function that must not throw. */
    method Settle(p: Promise)
      requires promise.Unset? && !p.Unset? && !deleted
      modifies this`promise, this`deleted
      ensures View() == Resolve(old(View()), p)
      ensures promise == p && (deleted <==> !More(cqeFlags))
    {
      promise := p;
      var more := MoreToCome();
      if !more {
        deleted := true;
      }
    }

    /** Copy the result and flags, decode the buffer id if there is one, and complete. */
    method CompleteWith(cqe: Cqe)
      requires Untouched(View())
      modifies this
      ensures View() == Completions.CompleteWith(old(View()), cqe)
      ensures cqeRes == cqe.res && cqeFlags == cqe.flags && promise == Value(cqe.res, bufBid)
      ensures bufBid == if bufGid != 0 && CarriesBuffer(cqe) then DecodeBid(cqe.flags) else old(bufBid)
      ensures deleted <==> !More(cqe.flags)
    {
      hide More, CarriesBuffer, DecodeBid;
      cqeRes, cqeFlags := cqe.res, cqe.flags;
      if bufGid != INVALID_BUFF_GID {
        if CarriesBuffer(cqe) {
          bufBid := DecodeBid(cqeFlags);
        }
      }
      Settle(Value(cqe.res, bufBid));
    }

    method SetException()
      requires Untouched(View())
      modifies this
      ensures View() == Completions.SetException(old(View()))
      ensures promise.Exception? && cqeFlags == old(cqeFlags) && (deleted <==> !More(cqeFlags))
    {
      Settle(Exception);
    }
  }
}
