/** A singly linked list reached from a head pointer, searched and changed by walking its links. */
module NodeLists {
  import opened Bytes

  /** The position of the first value with key `k`, or the length if there is none. */
  function IndexOf<T>(values: seq<T>, key: T -> nat, k: nat): (i: nat)
    ensures i <= |values|
    ensures i < |values| ==> key(values[i]) == k
  {
    if values == [] || key(values[0]) == k then 0 else 1 + IndexOf(values[1..], key, k)
  }

  lemma {:induction false} IndexIs<T>(values: seq<T>, key: T -> nat, k: nat, i: nat)
    requires i <= |values| && (i < |values| ==> key(values[i]) == k)
    requires forall j :: 0 <= j < i ==> key(values[j]) != k
    ensures IndexOf(values, key, k) == i
  {
    if i > 0 {
      IndexIs(values[1..], key, k, i - 1);
    }
  }

  lemma {:induction false} NoneBefore<T>(values: seq<T>, key: T -> nat, k: nat)
    ensures forall j :: 0 <= j < IndexOf(values, key, k) ==> key(values[j]) != k
  {
    if values != [] && key(values[0]) != k {
      NoneBefore(values[1..], key, k);
      forall j | 0 <= j < IndexOf(values, key, k)
        ensures key(values[j]) != k
      {
        assert j > 0 ==> values[j] == values[1..][j - 1];
      }
    }
  }

  /** `values` without the first one with key `k`. */
  function Without<T>(values: seq<T>, key: T -> nat, k: nat): seq<T> {
    var i := IndexOf(values, key, k);
    if i < |values| then values[..i] + values[i + 1..] else values
  }

  ghost predicate Distinct<T>(values: seq<T>, key: T -> nat) {
    forall i, j :: 0 <= i < j < |values| ==> key(values[i]) != key(values[j])
  }

  lemma {:induction false} WithoutStep<T>(values: seq<T>, key: T -> nat, k: nat)
    requires values != []
    ensures Without(values, key, k) ==
            if key(values[0]) == k then values[1..] else [values[0]] + Without(values[1..], key, k)
  {
    if key(values[0]) != k {
      var i := IndexOf(values[1..], key, k);
      assert IndexOf(values, key, k) == i + 1;
    }
  }

  lemma {:induction false} WithoutDistinct<T>(values: seq<T>, key: T -> nat, k: nat)
    requires Distinct(values, key)
    ensures Distinct(Without(values, key, k), key)
    ensures forall v :: v in Without(values, key, k) ==> v in values && key(v) != k
  {
    NoneBefore(values, key, k);
    var i := IndexOf(values, key, k);
    forall v | v in Without(values, key, k)
      ensures v in values && key(v) != k
    {
      if i < |values| {
        assert v in values[..i] || v in values[i + 1..];
      }
    }
  }

  class Node<T> {
    var value: T
    var next: Node?<T>

    constructor (value: T)
      ensures this.value == value && next == null
    {
      this.value, next := value, null;
    }
  }

  class NodeList<T> {
    var head: Node?<T>
    ghost var nodes: seq<Node<T>>
    ghost var values: seq<T>
    ghost var repr: set<Node<T>>

    ghost predicate Valid()
      reads this, repr
    {
      && |nodes| == |values|
      && head == (if nodes == [] then null else nodes[0])
      && (forall i :: 0 <= i < |nodes| ==> nodes[i] in repr && nodes[i].value == values[i])
      && (forall i :: 0 <= i < |nodes| - 1 ==> nodes[i].next == nodes[i + 1])
      && (nodes != [] ==> nodes[|nodes| - 1].next == null)
      && (forall i, j :: 0 <= i < j < |nodes| ==> nodes[i] != nodes[j])
    }

    constructor ()
      ensures Valid() && values == [] && repr == {}
    {
      head, nodes, values, repr := null, [], [], {};
    }

    /** Walks to the last node. */
    method Last() returns (p: Node<T>)
      requires Valid() && head != null
      ensures p == nodes[|nodes| - 1]
    {
      p := head;
      ghost var k := 0;
      while p.next != null
        invariant k < |nodes| && p == nodes[k]
        invariant p.next == if k == |nodes| - 1 then null else nodes[k + 1]
        decreases |nodes| - k
      {
        p := p.next;
        k := k + 1;
      }
    }

    /** Hangs a new node behind the last one. */
    method Append(v: T) returns (b: Node<T>)
      requires Valid()
      modifies this, repr
      ensures Valid() && values == old(values) + [v] && fresh(repr - old(repr))
      ensures nodes == old(nodes) + [b] && fresh(b)
    {
      b := new Node(v);
      if head == null {
        head := b;
      } else {
        var p := Last();
        p.next := b;
      }
      nodes, values, repr := nodes + [b], values + [v], repr + {b};
    }

    /** Walks to the first node with key `k`. */
    method Find(key: T -> nat, k: nat) returns (n: Node?<T>)
      requires Valid()
      ensures var i := IndexOf(values, key, k);
              n == if i < |values| then nodes[i] else null
    {
      n := head;
      ghost var i := 0;
      while n != null && key(n.value) != k
        invariant i <= |nodes| && n == if i == |nodes| then null else nodes[i]
        invariant forall j :: 0 <= j < i ==> key(values[j]) != k
        decreases |nodes| - i
      {
        n := n.next;
        i := i + 1;
      }
      IndexIs(values, key, k, i);
    }

    /** Changes the value of the node that Find returned. */
    method Update(n: Node<T>, ghost i: nat, v: T)
      requires Valid() && i < |nodes| && n == nodes[i]
      modifies this`values, n`value
      ensures Valid() && values == old(values)[i := v] && repr == old(repr)
    {
      n.value := v;
      values := values[i := v];
    }

    method RemoveHead()
      requires Valid() && head != null
      modifies this
      ensures Valid() && repr == old(repr) && values == old(values)[1..]
    {
      head := head.next;
      nodes, values := nodes[1..], values[1..];
    }

    method RemoveAfter(p: Node<T>, ghost i: nat)
      requires Valid() && i + 1 < |nodes| && p == nodes[i]
      modifies this`nodes, this`values, p`next
      ensures Valid() && repr == old(repr) && values == old(values)[..i + 1] + old(values)[i + 2..]
    {
      assert p.next == nodes[i + 1];
      assert nodes[i + 1].next == if i + 2 < |nodes| then nodes[i + 2] else null;
      p.next := p.next.next;
      nodes, values := nodes[..i + 1] + nodes[i + 2..], values[..i + 1] + values[i + 2..];
    }

    /** Unlinks the first node with key `k`: the head, or else the successor of the node before it. */
    method Remove(key: T -> nat, k: nat) returns (removed: Option<T>)
      requires Valid() && head != null
      modifies this, repr
      ensures Valid() && repr == old(repr) && values == Without(old(values), key, k)
      ensures var i := IndexOf(old(values), key, k);
              removed == if i < |old(values)| then Some(old(values)[i]) else None
    {
      if key(head.value) == k {
        removed := Some(head.value);
        assert IndexOf(values, key, k) == 0;
        RemoveHead();
        return;
      }
      var p := head;
      ghost var i := 0;
      while p.next != null && key(p.next.value) != k
        invariant i < |nodes| && p == nodes[i]
        invariant p.next == if i == |nodes| - 1 then null else nodes[i + 1]
        invariant forall j :: 0 <= j <= i ==> key(values[j]) != k
        decreases |nodes| - i
      {
        p := p.next;
        i := i + 1;
      }
      IndexIs(values, key, k, i + 1);
      if p.next == null {
        return None;
      }
      removed := Some(p.next.value);
      RemoveAfter(p, i);
    }
  }
}
