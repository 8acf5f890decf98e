/** The list of connections that wait for a TLS session, as values. */
module ParkedLists {
  import opened Bytes
  import opened NodeLists

  /** A parked connection and the bytes that have arrived on it (no bytes yet: the NULL pbuf). */
  datatype Parked = Parked(pcb: nat, pb: Option<seq<byte>>)

  function Pcb(p: Parked): nat { p.pcb }

  function Data(pb: Option<seq<byte>>): seq<byte> {
    if pb.Some? then pb.value else []
  }

  /** Every parked connection is there once, and lwIP still knows it. */
  ghost predicate Sound(list: seq<Parked>, waiting: set<nat>) {
    Distinct(list, Pcb) && forall p :: p in list ==> Pcb(p) in waiting
  }

  predicate IsIn(list: seq<Parked>, pcb: nat) {
    IndexOf(list, Pcb, pcb) < |list|
  }

  lemma {:induction false} Finds(list: seq<Parked>, p: Parked)
    requires p in list
    ensures IsIn(list, p.pcb)
  {
    NoneBefore(list, Pcb, p.pcb);
    var j :| 0 <= j < |list| && list[j] == p;
    assert Pcb(list[j]) == p.pcb;
  }

  /** A sound list is no longer than the set of connections that wait. */
  lemma {:induction false} SoundFits(list: seq<Parked>, waiting: set<nat>)
    requires Sound(list, waiting)
    ensures |list| <= |waiting|
  {
    if list != [] {
      var first, rest := list[0], list[1..];
      assert Pcb(first) in waiting;
      forall p | p in rest
        ensures Pcb(p) in waiting - {first.pcb}
      {
        var j :| 0 <= j < |rest| && rest[j] == p;
        assert list[j + 1] == p && Pcb(list[0]) != Pcb(list[j + 1]);
      }
      SoundFits(rest, waiting - {first.pcb});
    }
  }

  lemma {:induction false} SoundPark(list: seq<Parked>, waiting: set<nat>, pcb: nat)
    requires Sound(list, waiting) && pcb !in waiting
    ensures Sound(list + [Parked(pcb, None)], waiting + {pcb})
  {
    assert forall p :: p in list + [Parked(pcb, None)] <==> p in list || p == Parked(pcb, None);
    assert forall i :: 0 <= i < |list| ==> list[i] in list;
  }

  lemma {:induction false} SoundLeave(list: seq<Parked>, waiting: set<nat>, pcb: nat)
    requires Sound(list, waiting)
    ensures Sound(Without(list, Pcb, pcb), waiting - {pcb})
  {
    WithoutDistinct(list, Pcb, pcb);
  }

  /** The list after more bytes for one of its connections. */
  function WithMore(list: seq<Parked>, pcb: nat, data: seq<byte>): seq<Parked> {
    var i := IndexOf(list, Pcb, pcb);
    if i < |list| then list[i := Parked(pcb, Some(Data(list[i].pb) + data))] else list
  }

  /** In a sound list the connection has one entry, and only that gets the bytes. */
  lemma {:induction false} SoundMore(list: seq<Parked>, waiting: set<nat>, pcb: nat, data: seq<byte>)
    requires Sound(list, waiting)
    ensures Sound(WithMore(list, pcb, data), waiting)
    ensures forall q :: q in WithMore(list, pcb, data) ==>
              exists p :: p in list && p.pcb == q.pcb && Data(q.pb) == Data(p.pb) + if p.pcb == pcb then data else []
  {
    NoneBefore(list, Pcb, pcb);
    var i, more := IndexOf(list, Pcb, pcb), WithMore(list, pcb, data);
    forall q | q in more
      ensures Pcb(q) in waiting
      ensures exists p :: p in list && p.pcb == q.pcb && Data(q.pb) == Data(p.pb) + if p.pcb == pcb then data else []
    {
      var j :| 0 <= j < |more| && more[j] == q;
      assert list[j] in list && Pcb(list[j]) == q.pcb && (j != i && i < |list| ==> Pcb(list[j]) != Pcb(list[i]));
      assert Data(q.pb) == Data(list[j].pb) + if list[j].pcb == pcb then data else [];
    }
  }

  /** Other connections stay in the list. */
  lemma {:induction false} StillIn(list: seq<Parked>, pcb: nat, other: nat, data: seq<byte>)
    requires IsIn(list, other)
    ensures other != pcb ==> IsIn(Without(list, Pcb, pcb), other)
    ensures IsIn(WithMore(list, pcb, data), other) && IsIn(list + [Parked(pcb, None)], other)
  {
    var j := IndexOf(list, Pcb, other);
    var p := list[j];
    var i, without, more := IndexOf(list, Pcb, pcb), Without(list, Pcb, pcb), WithMore(list, pcb, data);
    Finds(more, more[j]);
    Finds(list + [Parked(pcb, None)], p);
    if other != pcb {
      assert p == if i < |list| && j > i then without[j - 1] else without[j];
      Finds(without, p);
    }
  }
}
