/** Provided buffers: the slices of a pool, and who owns each buffer id over a run of selections, hand-outs and
    returns. */
module BufferPools {
  import opened Requests
  import opened Completions

  const MODULUS: nat := 0x1_0000_0000

  type uint32 = n: nat | n < MODULUS

  /** Product of two 32-bit unsigned values. */
  function Times(a: uint32, b: uint32): uint32 {
    (a * b) % MODULUS
  }

  /** `base` is the address of the pool's memory. */
  datatype Pool = Pool(base: nat, size: uint32, count: uint32)

  /** Bytes the pool holds. */
  function Length(p: Pool): uint32 {
    Times(p.count, p.size)
  }

  function Offset(p: Pool, id: uint32): uint32 {
    Times(id, p.size)
  }

  /** `BufferPool::Get` */
  function Get(p: Pool, id: uint32): nat {
    p.base + Offset(p, id)
  }

  ghost predicate SlicesFit(p: Pool) {
    forall id: uint32 :: id < p.count ==> Offset(p, id) + p.size <= Length(p)
  }

  lemma NoWrap(p: Pool, id: uint32)
    requires p.count * p.size < MODULUS && id < p.count
    ensures Offset(p, id) == id * p.size && id * p.size + p.size <= p.count * p.size == Length(p)
  {
    assert (id + 1) * p.size <= p.count * p.size;
    assert id * p.size + p.size == (id + 1) * p.size;
    assert id * p.size <= p.count * p.size;
    SmallMod(id * p.size);
    SmallMod(p.count * p.size);
  }

  lemma SmallMod(x: nat)
    requires x < MODULUS
    ensures x % MODULUS == x
  {
  }

  /** All slices lie inside the pool exactly when the total size does not wrap around. */
  lemma SlicesFitIff(p: Pool)
    requires p.size > 0
    ensures SlicesFit(p) <==> p.count * p.size < MODULUS
  {
    if p.count * p.size < MODULUS {
      forall id: uint32 | id < p.count ensures Offset(p, id) + p.size <= Length(p) {
        NoWrap(p, id);
      }
    } else {
      var id := FirstOutside(p);
      assert Offset(p, id) + p.size > Length(p);
    }
  }

  /** The first slice that does not fit a pool whose total size wrapped around. */
  lemma FirstOutside(p: Pool) returns (id: uint32)
    requires p.size > 0 && p.count * p.size >= MODULUS
    ensures id < p.count && Offset(p, id) + p.size > Length(p)
  {
    hide Times;
    id := Quotient(Length(p), p.size, p.count);
    OffsetBelow(p, id);
  }

  lemma Quotient(length: uint32, size: uint32, count: uint32) returns (i: uint32)
    requires size > 0 && length < count * size
    ensures i < count && i * size <= length < i * size + size
  {
    var q: nat := length / size;
    DivisionBounds(length, size);
    if count <= q {
      Monotone(count, q, size);
    }
    i := q;
  }

  lemma OffsetBelow(p: Pool, id: uint32)
    requires id * p.size < MODULUS
    ensures Offset(p, id) == id * p.size
  {
    SmallMod(id * p.size);
  }

  lemma Monotone(a: nat, b: nat, c: nat)
    requires a <= b
    ensures a * c <= b * c
  {
  }

  lemma DivisionBounds(x: nat, d: nat)
    requires d > 0
    ensures (x / d) * d <= x < (x / d) * d + d
  {
  }

  /** Different slices of a pool that fits do not overlap. */
  lemma SlicesDisjoint(p: Pool, i: uint32, j: uint32)
    requires p.count * p.size < MODULUS && i < j < p.count
    ensures Get(p, i) + p.size <= Get(p, j)
  {
    NoWrap(p, i);
    NoWrap(p, j);
    assert (i + 1) * p.size <= j * p.size;
    assert i * p.size + p.size == (i + 1) * p.size;
  }

  // ---------------------------------------------------------------------------------------------------
  // Ownership over runs

  /** A stretch of memory. */
  datatype Block = Block(addr: nat, len: nat)

  /** The CQE of a request that got a buffer: whose it is, what the kernel wrote to, and the flags that tell. */
  datatype Selection = Selection(owner: nat, written: Block, flags: bv32)

  /** What `HandleCqe` passed to a completion. */
  datatype Holding = Holding(owner: nat, ptr: nat, written: Block)

  /** By buffer id: free in the kernel, in an unread CQE, held by the application, or in a provide request on its way
      back.  The last two fields are history: the request the kernel picked the buffer for last, and the block it was
      provided with last. */
  datatype State = State(free: map<nat, Block>, unread: map<nat, Selection>,
      held: map<nat, Holding>, returning: map<nat, Block>, chosen: map<nat, nat>, provided: map<nat, Block>)

  /** After the initial provide of the whole pool, in which the kernel numbers the buffers and computes their
      addresses itself. */
  function Init(p: Pool): State {
    var blocks := map id: nat | 0 <= id < p.count :: Block(p.base + id * p.size, p.size);
    State(blocks, map[], map[], map[], map[], blocks)
  }

  /** The flags of a CQE with a buffer: the id in the upper half, the buffer flag. */
  function EncodeFlags(bid: bv32): bv32 {
    (bid << 16) | IORING_CQE_F_BUFFER
  }

  function BidOf(flags: bv32): nat {
    DecodeBid(flags) as nat
  }

  datatype Action =
    | Select(owner: nat, bid: bv32) // the kernel picks a free buffer for a request and posts the CQE
    | HandOut(id: nat)              // HandleCqe decodes the id and passes the slice on
    | GiveBack(id: nat, len: nat)   // the application provides a held buffer again
    | Accept(id: nat)               // the kernel takes it back

  predicate Enabled(p: Pool, s: State, a: Action) {
    match a
    case Select(_, bid) => bid as nat in s.free && bid < 0x1_0000
    case HandOut(id) => id in s.unread && BidOf(s.unread[id].flags) < p.count
    case GiveBack(id, len) => id in s.held && len <= p.size
    case Accept(id) => id in s.returning
  }

  /** `ProvideBuffer`: length zero stands for the buffer size of the pool. */
  function ProvidedLength(p: Pool, len: nat): (n: nat)
    ensures len > 0 ==> n == len
    ensures len == 0 ==> n == p.size
  {
    if len == 0 then p.size else len
  }

  function Apply(p: Pool, s: State, a: Action): State
    requires Enabled(p, s, a)
  {
    match a
    case Select(owner, bid) =>
      var id := bid as nat;
      s.(free := s.free - {id}, unread := s.unread[id := Selection(owner, s.free[id], EncodeFlags(bid))],
         chosen := s.chosen[id := owner])
    case HandOut(id) =>
      var bid := BidOf(s.unread[id].flags);
      s.(unread := s.unread - {id},
          held := s.held[bid := Holding(s.unread[id].owner, Get(p, bid), s.unread[id].written)])
    case GiveBack(id, len) =>
      var block := Block(s.held[id].ptr, ProvidedLength(p, len));
      s.(held := s.held - {id}, returning := s.returning[id := block], provided := s.provided[id := block])
    case Accept(id) =>
      s.(returning := s.returning - {id}, free := s.free[id := s.returning[id]])
  }

  ghost predicate Next(p: Pool, s: State, t: State) {
    exists a :: Enabled(p, s, a) && t == Apply(p, s, a)
  }

  ghost predicate Moves(p: Pool, path: seq<State>, i: nat)
    requires i + 1 < |path|
  {
    Next(p, path[i], path[i + 1])
  }

  ghost predicate Run(p: Pool, path: seq<State>) {
    path != [] && path[0] == Init(p)
    && forall i {:trigger Moves(p, path, i)} :: 0 <= i < |path| - 1 ==> Moves(p, path, i)
  }

  lemma DecodeEncoded(bid: bv32)
    requires bid < 0x1_0000
    ensures BidOf(EncodeFlags(bid)) == bid as nat
  {
    BidRoundTrip(bid, IORING_CQE_F_BUFFER);
  }

  /** Each id is in exactly one of the four places, and all four agree where its slice is. */
  ghost predicate Partitioned(p: Pool, s: State) {
    && (forall id: nat :: id < p.count <==> id in s.free || id in s.unread || id in s.held || id in s.returning)
    && s.free.Keys !! s.unread.Keys !! s.held.Keys !! s.returning.Keys
    && (forall id :: id in s.free ==> InSlice(p, id, s.free[id]))
    && (forall id :: id in s.unread ==> InSlice(p, id, s.unread[id].written) && BidOf(s.unread[id].flags) == id)
    && (forall id :: id in s.held ==> InSlice(p, id, s.held[id].written) && s.held[id].ptr == s.held[id].written.addr)
    && (forall id :: id in s.returning ==> InSlice(p, id, s.returning[id]))
  }

  /** A block at the start of the slice of `id`, and no longer than it. */
  predicate InSlice(p: Pool, id: nat, b: Block) {
    id < p.count && b.addr == Get(p, id) && b.len <= p.size
  }

  /** A buffer travels unchanged: the block the kernel has, wrote to or gets back is the one it was provided with last,
      and a buffer is held by the request the kernel picked it for. */
  ghost predicate Traced(s: State, id: nat) {
    && (id in s.free ==> id in s.provided && s.free[id] == s.provided[id])
    && (id in s.unread ==> id in s.provided && s.unread[id].written == s.provided[id])
    && (id in s.unread ==> id in s.chosen && s.unread[id].owner == s.chosen[id] && BidOf(s.unread[id].flags) == id)
    && (id in s.held ==> id in s.provided && s.held[id].written == s.provided[id])
    && (id in s.held ==> id in s.chosen && s.held[id].owner == s.chosen[id])
    && (id in s.returning ==> id in s.provided && s.returning[id] == s.provided[id])
  }

  lemma TracedStep(p: Pool, s: State, a: Action, id: nat)
    requires Enabled(p, s, a) && Traced(s, id)
    requires a.HandOut? ==> BidOf(s.unread[a.id].flags) == a.id
    requires id in s.unread ==> id !in s.held
    requires id in s.held ==> id !in s.returning && id !in s.free && id !in s.unread
    ensures Traced(Apply(p, s, a), id)
  {
    if a.Select? {
      DecodeEncoded(a.bid);
    }
    hide Get, EncodeFlags, BidOf, ProvidedLength;
  }

  /** Giving back a buffer provides the slice held, with the length asked for or, for zero, the whole slice. */
  lemma GiveBackProvides(p: Pool, s: State, id: nat, len: nat)
    requires Partitioned(p, s) && Enabled(p, s, GiveBack(id, len))
    ensures var t := Apply(p, s, GiveBack(id, len));
      id in t.provided && t.provided[id] == Block(Get(p, id), if len == 0 then p.size else len)
  {
  }

  lemma PartitionedInit(p: Pool)
    requires p.count * p.size < MODULUS
    ensures Partitioned(p, Init(p))
  {
    forall id: nat | id < p.count ensures InSlice(p, id, Init(p).free[id]) {
      NoWrap(p, id);
    }
  }

  lemma SelectKeeps(p: Pool, s: State, owner: nat, bid: bv32)
    requires Partitioned(p, s) && Enabled(p, s, Select(owner, bid))
    ensures Partitioned(p, Apply(p, s, Select(owner, bid)))
  {
    DecodeEncoded(bid);
    var id := bid as nat;
    hide EncodeFlags, BidOf, Get;
  }

  lemma HandOutKeeps(p: Pool, s: State, id: nat)
    requires Partitioned(p, s) && Enabled(p, s, HandOut(id))
    ensures Partitioned(p, Apply(p, s, HandOut(id)))
  {
    hide BidOf, Get;
  }

  lemma GiveBackKeeps(p: Pool, s: State, id: nat, len: nat)
    requires Partitioned(p, s) && Enabled(p, s, GiveBack(id, len))
    ensures Partitioned(p, Apply(p, s, GiveBack(id, len)))
  {
    hide BidOf, Get;
  }

  lemma AcceptKeeps(p: Pool, s: State, id: nat)
    requires Partitioned(p, s) && Enabled(p, s, Accept(id))
    ensures Partitioned(p, Apply(p, s, Accept(id)))
  {
    hide BidOf, Get;
  }

  lemma PartitionedStep(p: Pool, s: State, a: Action)
    requires Partitioned(p, s) && Enabled(p, s, a)
    ensures Partitioned(p, Apply(p, s, a))
  {
    hide Partitioned, Apply;
    match a
    case Select(owner, bid) => SelectKeeps(p, s, owner, bid);
    case HandOut(id) => HandOutKeeps(p, s, id);
    case GiveBack(id, len) => GiveBackKeeps(p, s, id, len);
    case Accept(id) => AcceptKeeps(p, s, id);
  }

  lemma {:induction false} PartitionedAlong(p: Pool, path: seq<State>, i: nat)
    requires p.count * p.size < MODULUS && Run(p, path) && i < |path|
    ensures Partitioned(p, path[i]) && forall id: nat :: Traced(path[i], id)
  {
    if i == 0 {
      PartitionedInit(p);
    } else {
      PartitionedAlong(p, path, i - 1);
      assert Moves(p, path, i - 1);
      var a :| Enabled(p, path[i - 1], a) && path[i] == Apply(p, path[i - 1], a);
      PartitionedStep(p, path[i - 1], a);
      forall id: nat ensures Traced(path[i], id) {
        assert Traced(path[i - 1], id);
        TracedStep(p, path[i - 1], a, id);
      }
    }
  }

  /** In every state of every run over a pool whose size does not wrap around: each id has one owner; what a completion
      holds is what the kernel wrote for it, inside the pool; it is held by the request the kernel picked it for, and
      its block is the one provided last; and what two completions hold does not overlap, nor does
      it overlap memory the kernel may write to. */
  lemma OwnershipTheorem(p: Pool, path: seq<State>, i: nat, a: nat, b: nat)
    requires p.count * p.size < MODULUS && Run(p, path) && i < |path|
    ensures var s := path[i];
      && (forall id: nat :: id < p.count <==> id in s.free || id in s.unread || id in s.held || id in s.returning)
      && s.free.Keys !! s.unread.Keys !! s.held.Keys !! s.returning.Keys
      && (a in s.held ==>
           s.held[a].ptr == s.held[a].written.addr && p.base <= s.held[a].ptr
            && s.held[a].ptr + p.size <= p.base + Length(p))
      && (a in s.held ==>
           a in s.chosen && s.held[a].owner == s.chosen[a] && a in s.provided && s.held[a].written == s.provided[a])
      && (a in s.free ==> a in s.provided && s.free[a] == s.provided[a])
      && (a in s.held && b in s.held && a != b ==> Apart(s.held[a].ptr, p.size, s.held[b].ptr, p.size))
      && (a in s.held && b in s.free ==> Apart(s.held[a].ptr, p.size, s.free[b].addr, s.free[b].len))
  {
    PartitionedAlong(p, path, i);
    assert Traced(path[i], a);
    if a < p.count {
      NoWrap(p, a);
    }
    if a < b < p.count {
      SlicesDisjoint(p, a, b);
    } else if b < a < p.count {
      SlicesDisjoint(p, b, a);
    }
  }

  predicate Apart(x: nat, n: nat, y: nat, m: nat) {
    x + n <= y || y + m <= x
  }
}
