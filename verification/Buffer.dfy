/** The byte buffer: a block of memory with a used prefix, as an object over an array, against the sequence of its
    content. */
module Buffers {

  // ---------------------------------------------------------------------------------------------------
  // What the operations mean for the content

  datatype Op<T> =
    | Append(data: seq<T>)
    | Assign(data: seq<T>)
    | ConsumeFront(n: nat)
    | Resize(capacity: nat, preserve: bool)
    | SetCapacity(capacity: nat, preserve: bool)
    | Clear

  /** Size of the allocation and content. */
  datatype Abstract<T> = Abstract(capacity: nat, content: seq<T>)

  function Resized<T>(b: Abstract<T>, capacity: nat, preserve: bool): Abstract<T> {
    if capacity > b.capacity then Abstract(capacity, if preserve then b.content else []) else b
  }

  function Recapped<T>(b: Abstract<T>, capacity: nat, preserve: bool): Abstract<T> {
    if capacity == b.capacity then b
    else Abstract(capacity, if !preserve then [] else
        if |b.content| < capacity then b.content else b.content[..capacity])
  }

  predicate Allowed<T>(b: Abstract<T>, op: Op<T>) {
    op.ConsumeFront? ==> op.n <= |b.content|
  }

  function Do<T>(b: Abstract<T>, op: Op<T>): Abstract<T>
    requires Allowed(b, op)
  {
    match op
    case Append(data) => if data == [] then b else Abstract(Max(b.capacity, |b.content| + |data|), b.content + data)
    case Assign(data) => if data == [] then b else Abstract(Max(b.capacity, |data|), data)
    case ConsumeFront(n) => b.(content := b.content[n..])
    case Resize(capacity, preserve) => Resized(b, capacity, preserve)
    case SetCapacity(capacity, preserve) => Recapped(b, capacity, preserve)
    case Clear => b.(content := [])
  }

  function Max(a: nat, b: nat): nat {
    if a >= b then a else b
  }

  predicate AllAllowed<T>(b: Abstract<T>, ops: seq<Op<T>>)
    decreases |ops|
  {
    ops != [] ==> Allowed(b, ops[0]) && AllAllowed(Do(b, ops[0]), ops[1..])
  }

  function DoAll<T>(b: Abstract<T>, ops: seq<Op<T>>): Abstract<T>
    requires AllAllowed(b, ops)
    decreases |ops|
  {
    if ops == [] then b else DoAll(Do(b, ops[0]), ops[1..])
  }

  /** No run of operations lets the content outgrow the allocation. */
  lemma {:induction false} SizeWithinCapacity<T>(b: Abstract<T>, ops: seq<Op<T>>)
    requires |b.content| <= b.capacity && AllAllowed(b, ops)
    ensures |DoAll(b, ops).content| <= DoAll(b, ops).capacity
    decreases |ops|
  {
    if ops != [] {
      SizeWithinCapacity(Do(b, ops[0]), ops[1..]);
    }
  }

  predicate IsStream<T>(ops: seq<Op<T>>) {
    forall i :: 0 <= i < |ops| ==> ops[i].Append? || ops[i].ConsumeFront?
  }

  /** The bytes put in at the back. */
  function Appended<T>(ops: seq<Op<T>>): seq<T> {
    if ops == [] then [] else (if ops[0].Append? then ops[0].data else []) + Appended(ops[1..])
  }

  /** The bytes taken out at the front. */
  function Consumed<T>(b: Abstract<T>, ops: seq<Op<T>>): seq<T>
    requires AllAllowed(b, ops)
    decreases |ops|
  {
    if ops == [] then []
    else (if ops[0].ConsumeFront? then b.content[..ops[0].n] else []) + Consumed(Do(b, ops[0]), ops[1..])
  }

  /** A buffer used as a stream loses, duplicates and reorders nothing: what was consumed, followed by what is left,
      is what was there at first followed by everything appended. */
  lemma {:induction false} StreamConservation<T>(b: Abstract<T>, ops: seq<Op<T>>)
    requires IsStream(ops) && AllAllowed(b, ops)
    ensures Consumed(b, ops) + DoAll(b, ops).content == b.content + Appended(ops)
    decreases |ops|
  {
    if ops != [] {
      var c := Do(b, ops[0]);
      StreamConservation(c, ops[1..]);
      var out := if ops[0].ConsumeFront? then b.content[..ops[0].n] else [];
      var into := if ops[0].Append? then ops[0].data else [];
      assert out + c.content == b.content + into;
      calc {
        Consumed(b, ops) + DoAll(b, ops).content;
        out + Consumed(c, ops[1..]) + DoAll(c, ops[1..]).content;
        out + (Consumed(c, ops[1..]) + DoAll(c, ops[1..]).content);
        out + (c.content + Appended(ops[1..]));
        out + c.content + Appended(ops[1..]);
        b.content + into + Appended(ops[1..]);
        b.content + Appended(ops);
      }
    }
  }

  // ---------------------------------------------------------------------------------------------------
  // The object

  class Buffer<T(0, ==)> {
    var ptr: array<T>
    var index: nat
    const ownMem: bool

    ghost predicate Valid()
      reads this
    {
      index <= ptr.Length
    }

    ghost function Contents(): Abstract<T>
      reads this, ptr
      requires Valid()
    {
      Abstract(ptr.Length, ptr[..index])
    }

    /** Own memory of the given size. */
    constructor (capacity: nat)
      ensures Valid() && ownMem && fresh(ptr) && Contents() == Abstract(capacity, [])
    {
      ptr := new T[capacity];
      index := 0;
      ownMem := true;
    }

    /** Memory of somebody else, all of it in use. */
    constructor Borrow(data: array<T>)
      ensures Valid() && !ownMem && ptr == data && Contents() == Abstract(data.Length, data[..])
    {
      ptr := data;
      index := data.Length;
      ownMem := false;
    }

    /** Own memory holding a copy. */
    constructor Copy(data: array<T>)
      ensures Valid() && ownMem && fresh(ptr) && Contents() == Abstract(data.Length, data[..])
    {
      ptr := new T[data.Length](i requires 0 <= i < data.Length reads data => data[i]);
      index := data.Length;
      ownMem := true;
    }

    /** `std::memcpy` into the buffer's memory. */
    method CopyIn(at: nat, data: seq<T>)
      requires Valid() && at + |data| <= ptr.Length
      modifies ptr
      ensures ptr[..at] == old(ptr[..at]) && ptr[at..at + |data|] == data
    {
      forall i | 0 <= i < |data| {
        ptr[at + i] := data[i];
      }
    }

    /** Replace the memory by a block of the new size that starts with `keep`. */
    method Reallocate(newCapacity: nat, keep: seq<T>)
      requires |keep| <= newCapacity
      modifies this
      ensures Valid() && fresh(ptr) && Contents() == Abstract(newCapacity, keep)
    {
      var block := new T[newCapacity];
      forall i | 0 <= i < |keep| {
        block[i] := keep[i];
      }
      ptr := block;
      index := |keep|;
      assert ptr[..index] == keep;
    }

    /** Grow if that is what the new capacity means; `thrown` when the memory is not owned, and then nothing changes. */
    method Resize(newCapacity: nat, preserveContent: bool) returns (thrown: bool)
      requires Valid()
      modifies this
      ensures Valid() && thrown == !ownMem && (ptr == old(ptr) || fresh(ptr))
      ensures Contents() == if thrown then old(Contents())
              else Do(old(Contents()), Op.Resize(newCapacity, preserveContent))
      ensures ownMem && newCapacity > old(ptr.Length) ==>
        ptr.Length == newCapacity && ptr[..index] == if preserveContent then old(ptr[..index]) else []
      ensures !ownMem || newCapacity <= old(ptr.Length) ==> ptr == old(ptr) && index == old(index)
    {
      if !ownMem {
        return true;
      }
      if newCapacity > ptr.Length {
        Reallocate(newCapacity, if preserveContent then ptr[..index] else []);
      }
      return false;
    }

    method SetCapacity(newCapacity: nat, preserveContent: bool) returns (thrown: bool)
      requires Valid()
      modifies this
      ensures Valid() && thrown == !ownMem && (ptr == old(ptr) || fresh(ptr))
      ensures Contents() == if thrown then old(Contents())
              else Do(old(Contents()), Op.SetCapacity(newCapacity, preserveContent))
      ensures ownMem ==> ptr.Length == newCapacity
      ensures ownMem && newCapacity != old(ptr.Length) && !preserveContent ==> index == 0
      ensures ownMem && newCapacity != old(ptr.Length) && preserveContent ==>
        index == (if old(index) < newCapacity then old(index) else newCapacity) && ptr[..index] == old(ptr[..])[..index]
      ensures !ownMem || newCapacity == old(ptr.Length) ==> ptr == old(ptr) && index == old(index)
    {
      if !ownMem {
        return true;
      }
      if newCapacity != ptr.Length {
        var newSize := if index < newCapacity then index else newCapacity;
        Reallocate(newCapacity, if preserveContent then ptr[..newSize] else []);
      }
      return false;
    }

    /** Replace the content; an empty assignment changes nothing.  Fails only for borrowed memory that is too small. */
    method Assign(data: seq<T>) returns (thrown: bool)
      requires Valid()
      modifies this, ptr
      ensures Valid() && thrown == (!ownMem && |data| > old(ptr.Length)) && (ptr == old(ptr) || fresh(ptr))
      ensures Contents() == if thrown then old(Contents()) else Do(old(Contents()), Op.Assign(data))
      ensures !thrown && data != [] ==>
        ptr[..index] == data && ptr.Length == if old(ptr.Length) < |data| then |data| else old(ptr.Length)
      ensures thrown || data == [] ==> ptr == old(ptr) && index == old(index) && ptr[..] == old(ptr[..])
    {
      thrown := false;
      if |data| == 0 {
        return;
      }
      if |data| > ptr.Length {
        thrown := Resize(|data|, false);
        if thrown {
          return;
        }
      }
      CopyIn(0, data);
      index := |data|;
    }

    /** Add at the end; an empty append changes nothing.  Borrowed memory refuses every other append, even one that
        would fit. */
    method Append(data: seq<T>) returns (thrown: bool)
      requires Valid()
      modifies this, ptr
      ensures Valid() && thrown == (!ownMem && data != []) && (ptr == old(ptr) || fresh(ptr))
      ensures Contents() == if thrown then old(Contents()) else Do(old(Contents()), Op.Append(data))
      ensures !thrown ==> ptr[..index] == old(ptr[..index]) + data
      ensures !thrown && data != [] ==>
        ptr.Length == if old(ptr.Length) < old(index) + |data| then old(index) + |data| else old(ptr.Length)
      ensures thrown || data == [] ==> ptr == old(ptr) && index == old(index) && ptr[..] == old(ptr[..])
    {
      if |data| == 0 {
        return false;
      }
      thrown := Resize(index + |data|, true);
      if thrown {
        return;
      }
      CopyIn(index, data);
      index := index + |data|;
      assert ptr[..index] == old(ptr[..index]) + data;
    }

    /** Append another buffer's content. */
    method AppendBuffer(other: Buffer<T>) returns (thrown: bool)
      requires Valid() && other.Valid() && other != this && other.ptr != ptr
      modifies this, ptr
      ensures Valid() && thrown == (!ownMem && other.Contents().content != [])
      ensures Contents() == if thrown then old(Contents()) else Do(old(Contents()), Op.Append(other.Contents().content))
      ensures other.Valid() && other.Contents() == old(other.Contents())
    {
      thrown := Append(other.ptr[..other.index]);
    }

    /** `memmove` of what is left to the front. */
    method ConsumeFront(n: nat)
      requires Valid() && n <= index
      modifies this`index, ptr
      ensures Valid() && ptr == old(ptr) && Contents() == Do(old(Contents()), Op.ConsumeFront(n))
      ensures index == old(index) - n && forall i :: 0 <= i < index ==> ptr[i] == old(ptr[i + n])
    {
      if n < index {
        forall i | 0 <= i < index - n {
          ptr[i] := ptr[i + n];
        }
      }
      index := index - n;
    }

    method Clear()
      requires Valid()
      modifies this`index
      ensures Valid() && index == 0 && Contents() == Do(old(Contents()), Op.Clear)
    {
      index := 0;
    }

    method IsEqual(other: Buffer<T>) returns (equal: bool)
      requires Valid() && other.Valid()
      ensures equal <==> Contents().content == other.Contents().content
    {
      if this == other {
        return true;
      }
      if index != other.index {
        assert |Contents().content| != |other.Contents().content|;
        return false;
      }
      return ptr[..index] == other.ptr[..index];
    }
  }
}
