/** The Arduino core's `cbuf`, by contract only: a bounded byte queue that is also a list node. */
module Cbufs {
  import opened Bytes

  class Cbuf {
    var contents: seq<byte>
    /** Allocated bytes; one of them always stays free. */
    var size: nat
    var next: Cbuf?

    ghost predicate Valid()
      reads this
    {
      |contents| < size
    }

    constructor (n: nat)
      requires n > 0
      ensures Valid() && contents == [] && size == n && next == null
    {
      contents, size, next := [], n, null;
    }

    function Available(): nat
      reads this
    {
      |contents|
    }

    function Room(): nat
      requires Valid()
      reads this
    {
      size - |contents| - 1
    }

    predicate Empty()
      reads this
    {
      contents == []
    }

    predicate Full()
      requires Valid()
      reads this
    {
      Room() == 0
    }

    /** Stores as much of `data` as fits and says how much that was. */
    method Write(data: seq<byte>) returns (w: nat)
      requires Valid()
      modifies this`contents
      ensures Valid()
      ensures w == Min(|data|, old(Room()))
      ensures contents == old(contents) + data[..w]
    {
      w := Min(|data|, Room());
      contents := contents + data[..w];
    }

    /** Takes up to `n` bytes from the front. */
    method Read(n: nat) returns (out: seq<byte>)
      requires Valid()
      modifies this`contents
      ensures Valid()
      ensures out == old(contents)[..Min(n, |old(contents)|)]
      ensures contents == old(contents)[|out|..]
    {
      var k := Min(n, |contents|);
      out, contents := contents[..k], contents[k..];
    }

    /** Drops up to `n` bytes from the front. */
    method Remove(n: nat)
      requires Valid()
      modifies this`contents
      ensures Valid()
      ensures contents == old(contents)[Min(n, |old(contents)|)..]
    {
      contents := contents[Min(n, |contents|)..];
    }

    /** Reallocates to `n` bytes unless the contents would not fit. */
    method Resize(n: nat)
      requires Valid()
      modifies this`size
      ensures Valid()
      ensures size == if |contents| < n then n else old(size)
    {
      if |contents| < n {
        size := n;
      }
    }
  }
}
