/** SyncClient's `_rx_buffer`: one buffer for each received segment, linked in order of arrival. */
module SegmentLists {
  import opened Bytes
  import opened Cbufs

  class SegmentList {
    var head: Cbuf?
    ghost var nodes: seq<Cbuf>
    /** What the nodes still hold, and how long their segments were. */
    ghost var parts: seq<seq<byte>>
    ghost var lens: seq<nat>
    ghost var repr: set<Cbuf>

    ghost predicate Linked()
      reads this, repr
    {
      && |nodes| == |parts| == |lens|
      && head == (if nodes == [] then null else nodes[0])
      && (forall i :: 0 <= i < |nodes| ==>
            nodes[i] in repr && nodes[i].contents == parts[i] && nodes[i].size == lens[i] + 1 && |parts[i]| <= lens[i])
      && (forall i :: 0 <= i < |nodes| - 1 ==> nodes[i].next == nodes[i + 1])
      && (nodes != [] ==> nodes[|nodes| - 1].next == null)
      && (forall i, j :: 0 <= i < j < |nodes| ==> nodes[i] != nodes[j])
    }

    /** No node is empty. */
    ghost predicate NonEmpty()
      reads this
    {
      forall i :: 0 <= i < |parts| ==> parts[i] != []
    }

    /** The bytes waiting to be read. */
    ghost function Stream(): seq<byte>
      reads this
    {
      Concat(parts)
    }

    constructor ()
      ensures Linked() && NonEmpty() && Stream() == [] && lens == [] && repr == {}
    {
      head, nodes, parts, lens, repr := null, [], [], [], {};
    }

    /** Walks to the last node. */
    method Last() returns (p: Cbuf)
      requires Linked() && head != null
      ensures p == nodes[|nodes| - 1]
    {
      p := head;
      ghost var k := 0;
      while p.next != null
        invariant k < |nodes| && p == nodes[k]
        invariant p.next == if k == |nodes| - 1 then null else nodes[k + 1]
        decreases |nodes| - k
      {
        p := p.next;
        k := k + 1;
      }
    }

    /** Hangs a new node behind the last one. */
    method Link(b: Cbuf, ghost data: seq<byte>)
      requires Linked() && b !in repr && b !in nodes
      requires b.contents == data && b.size == |data| + 1 && b.next == null
      modifies this, repr
      ensures Linked() && repr == old(repr) + {b}
      ensures nodes == old(nodes) + [b] && parts == old(parts) + [data] && lens == old(lens) + [|data|]
    {
      if head == null {
        head := b;
      } else {
        var p := Last();
        p.next := b;
      }
      nodes, parts, lens, repr := nodes + [b], parts + [data], lens + [|data|], repr + {b};
    }

    /** A new node behind the last one. */
    method Append(data: seq<byte>)
      requires Linked()
      modifies this, repr
      ensures Linked() && fresh(repr - old(repr))
      ensures Stream() == old(Stream()) + data && lens == old(lens) + [|data|]
      ensures old(NonEmpty()) && data != [] ==> NonEmpty()
    {
      var b := new Cbuf(|data| + 1);
      var w := b.Write(data);
      assert data[..w] == data;
      ConcatSnoc(parts, data);
      Link(b, data);
    }

    /** Unlinks the first node and returns what it held and how long its segment was. */
    method PopFront() returns (out: seq<byte>, len: nat)
      requires Linked() && head != null
      modifies this, head
      ensures Linked() && repr == old(repr) && |nodes| == |old(nodes)| - 1
      ensures old(Stream()) == out + Stream() && out == old(head.contents)
      ensures old(lens) == [len] + lens
      ensures old(NonEmpty()) ==> NonEmpty()
    {
      var b := head;
      head := head.next;
      out := b.Read(b.Available());
      len := b.size - 1;
      assert Concat(parts) == parts[0] + Concat(parts[1..]);
      nodes, parts, lens := nodes[1..], parts[1..], lens[1..];
    }

    /** Reads part of the first node. */
    method ReadFront(n: nat) returns (out: seq<byte>)
      requires Linked() && head != null && n < |head.contents|
      modifies this`parts, head
      ensures Linked() && lens == old(lens) && repr == old(repr)
      ensures |out| == n && old(Stream()) == out + Stream()
      ensures old(NonEmpty()) ==> NonEmpty()
    {
      out := head.Read(n);
      ConcatShrinkFirst(parts, n);
      assert Concat(parts) == parts[0] + Concat(parts[1..]);
      MoveFront([], Concat(parts), n);
      assert [] + Concat(parts)[..n] == out;
      parts := parts[0 := parts[0][n..]];
    }

    /** What waits is part of the segments that are still here; if nothing waits, none is. */
    lemma {:induction false} LengthsBound()
      requires Linked()
      ensures |Stream()| <= Sum(lens)
      ensures NonEmpty() && Stream() == [] ==> lens == []
    {
      PartsBound(parts, lens);
      assert parts != [] ==> Stream() == parts[0] + Concat(parts[1..]);
    }

    static lemma {:induction false} PartsBound(parts: seq<seq<byte>>, lens: seq<nat>)
      requires |parts| == |lens| && forall i :: 0 <= i < |parts| ==> |parts[i]| <= lens[i]
      ensures |Concat(parts)| <= Sum(lens)
    {
      if parts != [] {
        PartsBound(parts[1..], lens[1..]);
      }
    }

    /** available() */
    method Available() returns (a: nat)
      requires Linked()
      ensures a == |Stream()|
    {
      a := 0;
      var b := head;
      ghost var k := 0;
      while b != null
        invariant k <= |nodes| && b == if k == |nodes| then null else nodes[k]
        invariant a + |Concat(parts[k..])| == |Stream()|
        decreases |nodes| - k
      {
        assert Concat(parts[k..]) == parts[k] + Concat(parts[k + 1..]);
        a := a + b.Available();
        b := b.next;
        k := k + 1;
      }
    }
  }
}
