/** The buffer chain of AsyncTCPbuffer: `_TXbufferRead` drains its head, `_TXbufferWrite` fills its tail. */
module TxChains {
  import opened Bytes
  import opened Cbufs

  /**
   * What the chain may look like, as the contents of its buffers: only a single buffer is ever empty, and
   * buffers between head and tail are full. While write() is adding a buffer, that new tail is still empty.
   */
  predicate ChainShape(parts: seq<seq<byte>>, room: nat, growing: bool) {
    && parts != []
    && (forall i :: 0 <= i < |parts| ==> |parts[i]| <= room)
    && (forall i :: 0 <= i < |parts| - 1 ==> parts[i] != [])
    && (forall i :: 0 < i < |parts| - 1 ==> |parts[i]| == room)
    && growing == (|parts| > 1 && parts[|parts| - 1] == [])
  }

  /** An empty head means an empty queue, and so does an empty tail: testing either end is enough. */
  lemma {:induction false} EmptyEnds(parts: seq<seq<byte>>, room: nat)
    requires ChainShape(parts, room, false)
    ensures parts[0] == [] <==> Concat(parts) == []
    ensures parts[|parts| - 1] == [] <==> Concat(parts) == []
  {
    assert Concat(parts) == parts[0] + Concat(parts[1..]);
    assert |parts| == 1 ==> Concat(parts[1..]) == [];
  }

  /** The contents after `n` bytes of the head have gone, and the head too if it is then empty and not the last. */
  function AfterDrop(parts: seq<seq<byte>>, n: nat): seq<seq<byte>>
    requires parts != [] && n <= |parts[0]|
  {
    if n == |parts[0]| && |parts| > 1 then parts[1..] else parts[0 := parts[0][n..]]
  }

  lemma {:induction false} DropKeepsShape(parts: seq<seq<byte>>, room: nat, n: nat)
    requires ChainShape(parts, room, false) && 0 < n <= |parts[0]|
    ensures ChainShape(AfterDrop(parts, n), room, false)
  {
    if n == |parts[0]| && |parts| > 1 {
      assert forall i :: 0 <= i < |parts[1..]| ==> parts[1..][i] == parts[i + 1];
    }
  }

  lemma {:induction false} DropKeepsOrder(parts: seq<seq<byte>>, n: nat)
    requires parts != [] && n <= |parts[0]|
    ensures Concat(AfterDrop(parts, n)) == Concat(parts)[n..]
  {
    ConcatShrinkFirst(parts, n);
    var shrunk := parts[0 := parts[0][n..]];
    assert Concat(shrunk) == shrunk[0] + Concat(shrunk[1..]);
    assert shrunk[1..] == parts[1..];
  }

  class TxChain {
    /** TCP_MSS: the size of every buffer. */
    const mss: nat
    var read: Cbuf
    var write: Cbuf
    /** The nodes from `read` to `write`, and what they hold. */
    ghost var nodes: seq<Cbuf>
    ghost var parts: seq<seq<byte>>
    ghost var repr: set<Cbuf>

    /** `read` reaches `write` through distinct nodes, the last link is null, and the shape is right. */
    ghost predicate Linked(growing: bool)
      reads this, repr
    {
      Links() && ChainShape(parts, mss - 1, growing)
    }

    ghost predicate Links()
      reads this, repr
    {
      && 2 <= mss < 0x1_0000
      && |nodes| == |parts| > 0
      && nodes[0] == read && nodes[|nodes| - 1] == write && read in repr && write in repr
      && (forall i :: 0 <= i < |nodes| ==> nodes[i] in repr && nodes[i].contents == parts[i] && nodes[i].size == mss)
      && (forall i :: 0 <= i < |nodes| - 1 ==> nodes[i].next == nodes[i + 1])
      && nodes[|nodes| - 1].next == null
      && (forall i, j :: 0 <= i < j < |nodes| ==> nodes[i] != nodes[j])
    }

    /** What waits in the chain. */
    ghost function Queued(): seq<byte>
      reads this
    {
      Concat(parts)
    }

    constructor (mss: nat)
      requires 2 <= mss < 0x1_0000
      ensures Linked(false) && Queued() == [] && fresh(repr) && this.mss == mss
      ensures read == write && read.contents == []
    {
      this.mss := mss;
      var b := new Cbuf(mss);
      write, read, nodes, parts, repr := b, b, [b], [[]], {b};
      new;
      assert Concat(parts) == parts[0] + Concat(parts[1..]);
    }

    /** Writes as much as fits into the tail. */
    method Store(data: seq<byte>, ghost growing: bool) returns (w: nat)
      requires Linked(growing) && data != []
      modifies this`parts, write`contents
      ensures Linked(false) && w == Min(|data|, mss - 1 - |old(write.contents)|)
      ensures Queued() == old(Queued()) + data[..w]
      ensures |write.contents| == |old(write.contents)| + w
    {
      ghost var last := |parts| - 1;
      w := write.Write(data);
      ConcatGrowLast(parts, data[..w]);
      parts := parts[last := parts[last] + data[..w]];
    }

    /** The first `n` bytes of the queue, all from the head. */
    method Peek(n: nat) returns (out: seq<byte>)
      requires Linked(false) && n <= |read.contents|
      ensures n <= |Queued()| && out == Queued()[..n]
    {
      assert Concat(parts) == parts[0] + Concat(parts[1..]);
      out := read.contents[..n];
    }

    /** Removes what was sent from the head, and the head itself once it is empty and not the last. */
    method DropSent(n: nat)
      requires Linked(false) && 0 < n <= |read.contents|
      modifies this`parts, this`nodes, this`read, read`contents
      ensures Linked(false) && Queued() == old(Queued())[n..]
    {
      DropKeepsShape(parts, mss - 1, n);
      DropKeepsOrder(parts, n);
      Shrink(n);
      if read.Available() == 0 && read.next != null {
        Skip();
      }
      assert parts == AfterDrop(old(parts), n);
    }

    /** Removes bytes from the head. */
    method Shrink(n: nat)
      requires Links() && read.Valid() && n <= |read.contents|
      modifies this`parts, read`contents
      ensures Links() && old(|parts[0]|) >= n && parts == old(parts)[0 := old(parts)[0][n..]]
      ensures read.contents == parts[0] && (read.next == null <==> |parts| == 1)
    {
      assert read == nodes[0] && read.next == if |nodes| > 1 then nodes[1] else null;
      read.Remove(n);
      parts := parts[0 := parts[0][n..]];
    }

    /** Leaves the head, which is not the last buffer, behind. */
    method Skip()
      requires Links() && read.next != null
      modifies this`parts, this`nodes, this`read
      ensures Links() && old(|parts| > 1) && parts == old(parts)[1..]
    {
      read := read.next;
      nodes, parts := nodes[1..], parts[1..];
    }

    /** Links a new empty buffer behind a full tail. */
    method Grow()
      requires Linked(false) && write.contents != [] && |write.contents| == mss - 1
      modifies this`nodes, this`parts, this`repr, this`write, write`next
      ensures Linked(true) && write.contents == [] && Queued() == old(Queued())
      ensures fresh(repr - old(repr)) && |repr| == |old(repr)| + 1
    {
      var next := new Cbuf(mss);
      write.next := next;
      write := next;
      ConcatSnoc(parts, []);
      nodes, parts, repr := nodes + [next], parts + [[]], repr + {next};
    }
  }
}
