/** The completion objects: how a CQE resolves the promise and when the object deletes itself. */
module Completions {
  import opened Requests

  /** The state of the promise inside a completion. */
  datatype Promise = Unset | Value(res: int, bid: bv32) | Exception

  /** A completion object as a value.  `flags` is whatever the field holds: it is not initialised by the
      constructor, so before the first CQE it is arbitrary.  `resolves` and `frees` count how often the promise
      was set and how often the object ran `delete this`. */
  datatype Completion = Completion(gid: int, flags: bv32, bid: bv32, promise: Promise, resolves: nat, frees: nat)

  function Fresh(gid: int, garbage: bv32): Completion {
    Completion(gid, garbage, INVALID_BUFF_GID as bv32, Unset, 0, 0)
  }

  /** Neither resolved nor deleted: the only state in which the ring may still touch the object. */
  predicate Untouched(c: Completion) {
    c.resolves == 0 && c.frees == 0
  }

  function DecodeBid(flags: bv32): bv32 {
    flags >> 16
  }

  /** The buffer id survives the trip through the flags of a CQE, whatever flags stand in the lower half. */
  lemma BidRoundTrip(bid: bv32, low: bv32)
    requires bid < 0x1_0000 && low < 0x1_0000
    ensures DecodeBid((bid << 16) | low) == bid
    ensures ((bid << 16) | low) & IORING_CQE_F_BUFFER == low & 0x1
    ensures ((bid << 16) | low) & IORING_CQE_F_MORE == low & 0x2
  {
  }

  function Resolve(c: Completion, p: Promise): Completion {
    c.(promise := p, resolves := c.resolves + 1, frees := if More(c.flags) then c.frees else c.frees + 1)
  }

  function CompleteWith(c: Completion, cqe: Cqe): Completion {
    var bid := if c.gid != INVALID_BUFF_GID && CarriesBuffer(cqe) then DecodeBid(cqe.flags) else c.bid;
    Resolve(c.(flags := cqe.flags, bid := bid), Value(cqe.res, bid))
  }

  function SetException(c: Completion): Completion {
    Resolve(c, Exception)
  }

  /** What `IoUring::HandleCqe` does to the completion it finds in the CQE. */
  function Deliver(c: Completion, cqe: Cqe): Completion {
    if c.gid != INVALID_BUFF_GID && !CarriesBuffer(cqe) then c else CompleteWith(c, cqe)
  }
}
