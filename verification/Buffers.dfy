/**
 Byte buffers and the two pools they are recycled through. A buffer has a fixed capacity, a
 length and contents; a pool hands out one of its buffers or a new one, and may forget some.
 */
module Buffers {
  import opened PublishSpec

  class Buffer {
    const cap: nat
    var len: nat
    var wire: Wire

    constructor (cap: nat, wire: Wire)
      ensures this.cap == cap && this.len == 0
    {
      this.cap, this.len, this.wire := cap, 0, wire;
    }

    /** `buf[:n]`, which the language only allows up to the capacity. */
    method Reslice(n: nat)
      requires n <= cap
      modifies this`len
      ensures len == n
    {
      len := n;
    }

    /** Appends an encoding of `size` bytes to an empty buffer, moving to a larger one if need be. */
    method Append(wire: Wire, size: nat) returns (b: Buffer)
      requires len == 0
      modifies this
      ensures b.wire == wire && b.len == size <= b.cap
      ensures b == this || fresh(b)
    {
      if size <= cap {
        b := this;
      } else {
        var bigger: nat :| bigger >= size;
        b := new Buffer(bigger, wire);
      }
      b.wire, b.len := wire, size;
    }
  }

  ghost predicate Distinct(s: seq<Buffer>) {
    forall i, j :: 0 <= i < j < |s| ==> s[i] != s[j]
  }

  ghost predicate Apart(s: seq<Buffer>, t: seq<Buffer>) {
    forall b :: b in s ==> b !in t
  }

  lemma {:induction false} RemoveKeepsDistinct(s: seq<Buffer>, i: nat)
    requires Distinct(s) && i < |s|
    ensures Distinct(s[..i] + s[i + 1..]) && s[i] !in s[..i] + s[i + 1..]
    ensures forall b :: b in s[..i] + s[i + 1..] ==> b in s
  {
    var r := s[..i] + s[i + 1..];
    assert forall k :: 0 <= k < |r| ==> r[k] == if k < i then s[k] else s[k + 1];
  }

  class Pool {
    const newCap: nat
    var free: seq<Buffer>

    constructor (newCap: nat)
      ensures this.newCap == newCap && free == []
    {
      this.newCap, free := newCap, [];
    }

    method Get() returns (b: Buffer)
      requires Distinct(free)
      modifies this
      ensures Distinct(free) && b !in free
      ensures forall x :: x in free ==> x in old(free)
      ensures b in old(free) || (fresh(b) && b.cap == newCap && b.len == 0)
    {
      if * {
        // the runtime may drop pooled buffers at any time
        free := [];
      }
      if free != [] {
        var i :| 0 <= i < |free|;
        RemoveKeepsDistinct(free, i);
        b, free := free[i], free[..i] + free[i + 1..];
      } else {
        b := new Buffer(newCap, PointNoOrg([0, 0, 0, 0, 0, 0, 0, 0, 0, 0, 0, 0, 0, 0, 0, 0], 0.0, 0));
      }
    }

    method Put(b: Buffer)
      modifies this, b`len
      ensures free == old(free) + [b] && b.len == 0
    {
      b.len := 0;
      free := free + [b];
    }
  }
}
