/** The values that travel through the rings: requests, completion queue entries and their flag bits. */
module Requests {

  const IOSQE_FIXED_FILE: bv8 := 0x01
  const IOSQE_IO_LINK: bv8 := 0x04
  const IOSQE_IO_HARDLINK: bv8 := 0x08

  const IORING_CQE_F_BUFFER: bv32 := 0x01
  const IORING_CQE_F_MORE: bv32 := 0x02

  const INVALID_BUFF_GID: int := 0

  /** An accepted request together with the completion object it was submitted with.  `id` is the identity of
      that completion object, `gid` the buffer group the completion was built with. */
  datatype Request = Request(id: nat, fd: int, flags: bv8, gid: int)

  /** The link flags that make an SQE start or continue a chain: bit 2 for a link, bit 3 for a hard link. */
  predicate Links(r: Request): (linked: bool)
    ensures linked <==> r.flags & 0x04 != 0 || r.flags & 0x08 != 0
  {
    r.flags & (IOSQE_IO_LINK | IOSQE_IO_HARDLINK) != 0
  }

  /** A completion queue entry; `req` stands for the user data that leads back to the request. */
  datatype Cqe = Cqe(req: Request, res: int, flags: bv32)

  /** Bit 0 of the flags. */
  predicate CarriesBuffer(cqe: Cqe): (carries: bool)
    ensures carries <==> cqe.flags & 0x1 == 0x1
  {
    cqe.flags & IORING_CQE_F_BUFFER != 0
  }

  /** Bit 1 of the flags. */
  predicate More(flags: bv32): (more: bool)
    ensures more <==> flags & 0x2 == 0x2
  {
    flags & IORING_CQE_F_MORE != 0
  }

  /** The requests of a sequence of completion queue entries, in order. */
  function Reqs(cqes: seq<Cqe>): (rs: seq<Request>)
    ensures |rs| == |cqes|
    ensures forall i :: 0 <= i < |cqes| ==> rs[i] == cqes[i].req
  {
    seq(|cqes|, i requires 0 <= i < |cqes| => cqes[i].req)
  }

  /** No two requests of `rs` share a completion object. */
  ghost predicate DistinctIds(rs: seq<Request>) {
    forall i, j :: 0 <= i < j < |rs| ==> rs[i].id != rs[j].id
  }

  /** In a sequence without shared completions every request occurs at most once. */
  lemma {:induction false} DistinctOccurOnce(rs: seq<Request>, r: Request)
    requires DistinctIds(rs)
    ensures multiset(rs)[r] == if r in rs then 1 else 0
  {
    if rs != [] {
      var front, last := rs[..|rs| - 1], rs[|rs| - 1];
      assert rs == front + [last];
      DistinctOccurOnce(front, r);
    }
  }
}
