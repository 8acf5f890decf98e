/**
 * How far the answers really get. AsyncTCPbuffer looks at a packet once and at what it has stored once more, so an
 * answer that needs no byte of the packet ends the reading of it. This is that pace on plain byte sequences, with no
 * modes, pointers or buffers, and when it leaves nothing behind.
 */
module PacedDecoder {
  import opened Bytes
  import opened RequestDecoder

  /**
   * How far one goes in a packet while nothing is stored: to its end, or to the first answer that needs none of
   * its bytes.
   */
  function Greedy(p: Program, res: seq<seq<byte>>, s: seq<byte>): (seq<seq<byte>>, seq<byte>)
    decreases |s|
  {
    if s == [] || Stuck(p, res, s) then (res, s)
    else
      var (v, rest) := Take(p(res).value, s).value;
      if |rest| < |s| then Greedy(p, res + [v], rest) else (res + [v], rest)
  }

  /**
   * What a packet adds. If the bytes left by the packets before answer the request, or it asks for none, that is the
   * only answer until the packet is stored. One more answer may come out of what is stored.
   */
  function AfterPacket(p: Program, res: seq<seq<byte>>, rest: seq<byte>, packet: seq<byte>): (seq<seq<byte>>,
                       seq<byte>) {
    var (res1, rest1) := InPacket(p, res, rest, packet);
    if rest1 == [] then (res1, rest1) else Decode(p, res1, rest1, 1)
  }

  function InPacket(p: Program, res: seq<seq<byte>>, rest: seq<byte>, packet: seq<byte>): (seq<seq<byte>>, seq<byte>) {
    if p(res).None? then (res, rest + packet)
    else
      match Take(p(res).value, rest)
      case Some((v, rest')) => (res + [v], rest' + packet)
      case None => Greedy(p, res, rest + packet)
  }

  /** The results after a number of packets, and the bytes that are left. */
  function Paced(p: Program, packets: seq<seq<byte>>): (seq<seq<byte>>, seq<byte>) {
    if packets == [] then ([], [])
    else
      var (res, rest) := Paced(p, packets[..|packets| - 1]);
      AfterPacket(p, res, rest, packets[|packets| - 1])
  }

  lemma {:induction false} GreedyDecodes(p: Program, s: seq<byte>, res: seq<seq<byte>>, rest: seq<byte>)
    requires Decode(p, [], s, |res|) == (res, rest)
    ensures var (res', rest') := Greedy(p, res, rest); Decode(p, [], s, |res'|) == (res', rest')
    decreases |rest|
  {
    if rest != [] && !Stuck(p, res, rest) {
      var v := Take(p(res).value, rest).value;
      DecodeNext(p, s, res, rest, v.0, v.1);
      if |v.1| < |rest| {
        GreedyDecodes(p, s, res + [v.0], v.1);
      }
    }
  }

  lemma {:induction false} InPacketDecodes(p: Program, s: seq<byte>, res: seq<seq<byte>>, rest: seq<byte>,
                                           packet: seq<byte>)
    requires Decode(p, [], s, |res|) == (res, rest)
    ensures var (res', rest') := InPacket(p, res, rest, packet); Decode(p, [], s + packet, |res'|) == (res', rest')
  {
    DecodeExtend(p, [], s, packet, |res|);
    if p(res).Some? {
      match Take(p(res).value, rest)
      case None => GreedyDecodes(p, s + packet, res, rest + packet);
      case Some(v) =>
        TakeExtend(p(res).value, rest, packet);
        DecodeNext(p, s + packet, res, rest + packet, v.0, v.1 + packet);
    }
  }

  /** At any pace, results and leftover are what the decoder says about the stream so far. */
  lemma {:induction false} AfterPacketDecodes(p: Program, s: seq<byte>, res: seq<seq<byte>>, rest: seq<byte>,
                                              packet: seq<byte>)
    requires Decode(p, [], s, |res|) == (res, rest)
    ensures var (res', rest') := AfterPacket(p, res, rest, packet); Decode(p, [], s + packet, |res'|) == (res', rest')
  {
    InPacketDecodes(p, s, res, rest, packet);
    var (res1, rest1) := InPacket(p, res, rest, packet);
    if rest1 != [] && !Stuck(p, res1, rest1) {
      var v := Take(p(res1).value, rest1).value;
      DecodeNext(p, s + packet, res1, rest1, v.0, v.1);
      assert Decode(p, res1, rest1, 1) == Decode(p, res1 + [v.0], v.1, 0);
    }
  }

  lemma {:induction false} PacedDecodes(p: Program, packets: seq<seq<byte>>)
    ensures var (res, rest) := Paced(p, packets); Decode(p, [], Concat(packets), |res|) == (res, rest)
  {
    if packets != [] {
      var n := |packets| - 1;
      PacedDecodes(p, packets[..n]);
      ConcatPrefix(packets, n);
      var (res, rest) := Paced(p, packets[..n]);
      AfterPacketDecodes(p, Concat(packets[..n]), res, rest, packets[n]);
    }
  }

  // ---- Requests for zero bytes -----------------------------------------------------------------

  /** None of the first `k` requests that `p` makes on `s` is for zero bytes. */
  ghost predicate NoZeroBefore(p: Program, s: seq<byte>, k: nat) {
    forall j: nat :: j < k ==> p(Decode(p, [], s, j).0) != Some(Exactly(0))
  }

  ghost predicate NeverZero(p: Program, s: seq<byte>) {
    forall j: nat :: p(Decode(p, [], s, j).0) != Some(Exactly(0))
  }

  /** The first request for zero bytes is the one after `k` results, and it comes when `s` is used up. */
  ghost predicate ZeroAtEnd(p: Program, s: seq<byte>, k: nat) {
    var (res, rest) := Decode(p, [], s, k);
    NoZeroBefore(p, s, k) && |res| == k && rest == [] && p(res) == Some(Exactly(0))
  }

  /** While fewer than `k` results are out, nothing that could be answered waits. */
  predicate PromptUpTo(p: Program, res: seq<seq<byte>>, rest: seq<byte>, k: nat) {
    |res| < k ==> Stuck(p, res, rest)
  }

  lemma {:induction false} GreedyPrompt(p: Program, s: seq<byte>, res: seq<seq<byte>>, rest: seq<byte>,
                                        tail: seq<byte>, k: nat)
    requires Decode(p, [], s, |res|) == (res, rest + tail) && NoZeroBefore(p, s, k)
    ensures var (res', rest') := Greedy(p, res, rest); PromptUpTo(p, res', rest', k) && |res'| >= |res|
    ensures var (res', rest') := Greedy(p, res, rest); Decode(p, [], s, |res'|) == (res', rest' + tail)
    ensures Decode(p, [], s, k).1 == [] && |res| <= k ==> |Greedy(p, res, rest).0| <= k
    decreases |rest|
  {
    assert |res| < k ==> p(Decode(p, [], s, |res|).0) != Some(Exactly(0));
    if rest != [] && !Stuck(p, res, rest) {
      var v := Take(p(res).value, rest).value;
      TakeExtend(p(res).value, rest, tail);
      DecodeNext(p, s, res, rest + tail, v.0, v.1 + tail);
      if |v.1| < |rest| {
        GreedyPrompt(p, s, res + [v.0], v.1, tail, k);
      }
    }
  }

  /** One packet more of the stream `s`, of which `tail` is still to come. */
  lemma {:induction false} PacketPrompt(p: Program, s: seq<byte>, res: seq<seq<byte>>, rest: seq<byte>,
                                        packet: seq<byte>, tail: seq<byte>, k: nat)
    requires Decode(p, [], s, |res|) == (res, (rest + packet) + tail) && NoZeroBefore(p, s, k)
    requires PromptUpTo(p, res, rest, k)
    ensures var (res', rest') := AfterPacket(p, res, rest, packet); PromptUpTo(p, res', rest', k)
    ensures Decode(p, [], s, k).1 == [] && |res| <= k && packet != [] ==> |AfterPacket(p, res, rest, packet).0| <= k
  {
    GreedyPrompt(p, s, res, rest + packet, tail, k);
  }

  /** Where the run stands before packet `n`, seen from the whole stream. */
  lemma {:induction false} PacedStep(p: Program, packets: seq<seq<byte>>, n: nat)
    requires n < |packets|
    ensures var (res, rest) := Paced(p, packets[..n]);
            && Decode(p, [], Concat(packets), |res|) == (res, (rest + packets[n]) + Concat(packets[n + 1..]))
            && Paced(p, packets[..n + 1]) == AfterPacket(p, res, rest, packets[n])
  {
    var front, packet, tail := packets[..n], packets[n], Concat(packets[n + 1..]);
    var (res, rest) := Paced(p, front);
    SplitStream(packets, n);
    PacedDecodes(p, front);
    DecodeExtend(p, [], Concat(front), packet + tail, |res|);
    assert rest + (packet + tail) == (rest + packet) + tail;
    assert packets[..n + 1][..n] == front;
  }

  lemma {:induction false} PacedPrompt(p: Program, packets: seq<seq<byte>>, n: nat, k: nat)
    requires n <= |packets| && NoZeroBefore(p, Concat(packets), k)
    ensures var (res, rest) := Paced(p, packets[..n]); PromptUpTo(p, res, rest, k)
  {
    if n == 0 {
      var none: seq<seq<byte>> := [];
      assert k > 0 ==> p(Decode(p, none, Concat(packets), 0).0) != Some(Exactly(0));
    } else {
      PacedPrompt(p, packets, n - 1, k);
      PacedStep(p, packets, n - 1);
      var (res, rest) := Paced(p, packets[..n - 1]);
      PacketPrompt(p, Concat(packets), res, rest, packets[n - 1], Concat(packets[n..]), k);
    }
  }

  /** No result comes out beyond the one with which the stream is used up. */
  lemma {:induction false} PacedBound(p: Program, packets: seq<seq<byte>>, n: nat, k: nat)
    requires n <= |packets| && NoZeroBefore(p, Concat(packets), k)
    requires Decode(p, [], Concat(packets), k).1 == [] && forall q :: q in packets ==> q != []
    ensures |Paced(p, packets[..n]).0| <= k
  {
    if n == 0 {
      assert packets[..n] == [];
    } else {
      assert packets[n - 1] in packets;
      PacedBound(p, packets, n - 1, k);
      PacedPrompt(p, packets, n - 1, k);
      PacedStep(p, packets, n - 1);
      var (res, rest) := Paced(p, packets[..n - 1]);
      PacketPrompt(p, Concat(packets), res, rest, packets[n - 1], Concat(packets[n..]), k);
    }
  }

  lemma {:induction false} SplitStream(packets: seq<seq<byte>>, n: nat)
    requires n < |packets|
    ensures Concat(packets) == Concat(packets[..n]) + (packets[n] + Concat(packets[n + 1..]))
  {
    assert packets == packets[..n] + packets[n..];
    ConcatAppend(packets[..n], packets[n..]);
    assert packets[n..][1..] == packets[n + 1..];
  }

  /** If no request is for zero bytes, every cut of the stream is decoded completely. */
  lemma {:induction false} NeverZeroCompletes(p: Program, packets: seq<seq<byte>>)
    requires NeverZero(p, Concat(packets))
    ensures DecodesAll(p, Concat(packets), Paced(p, packets).0)
  {
    var (res, rest) := Paced(p, packets);
    assert packets[..|packets|] == packets;
    PacedPrompt(p, packets, |packets|, |res| + 1);
    PacedDecodes(p, packets);
    CompleteIff(p, Concat(packets), res, rest);
  }

  /** If the first request for zero bytes comes when the stream is used up, no cut of it is decoded completely. */
  lemma {:induction false} ZeroAtEndStops(p: Program, packets: seq<seq<byte>>, k: nat)
    requires ZeroAtEnd(p, Concat(packets), k) && forall q :: q in packets ==> q != []
    ensures Paced(p, packets) == Decode(p, [], Concat(packets), k)
    ensures !DecodesAll(p, Concat(packets), Paced(p, packets).0)
  {
    var (res, rest) := Paced(p, packets);
    PacedToZero(p, packets, k);
    CompleteIff(p, Concat(packets), res, rest);
  }

  lemma {:induction false} PacedToZero(p: Program, packets: seq<seq<byte>>, k: nat)
    requires ZeroAtEnd(p, Concat(packets), k) && forall q :: q in packets ==> q != []
    ensures var (res, rest) := Paced(p, packets);
            |res| == k && (res, rest) == Decode(p, [], Concat(packets), k) && !Stuck(p, res, rest)
  {
    assert packets[..|packets|] == packets;
    PacedPrompt(p, packets, |packets|, k);
    PacedBound(p, packets, |packets|, k);
    PacedDecodes(p, packets);
    if |Paced(p, packets).0| < k {
      FullBelow(p, Concat(packets), |Paced(p, packets).0|, k);
    }
  }

  /** Fewer results than the stream holds leave something that can be answered. */
  lemma {:induction false} FullBelow(p: Program, s: seq<byte>, j: nat, k: nat)
    requires |Decode(p, [], s, k).0| == k && j < k
    ensures |Decode(p, [], s, j).0| == j && !Stuck(p, Decode(p, [], s, j).0, Decode(p, [], s, j).1)
  {
    DecodeFull(p, [], s, k, j);
    DecodeFull(p, [], s, k, j + 1);
    DecodeStep(p, [], s, j);
  }

  /** A program that asks for zero bytes first and for single bytes from then on. */
  function ZeroThenOnes(res: seq<seq<byte>>): Option<Request> {
    Some(Exactly(if res == [] then 0 else 1))
  }

  /** How far a run may lag: a packet of n bytes holds n + 1 results of this program, and no more than two come out. */
  lemma {:induction false} FallBehind(packet: seq<byte>)
    ensures |Paced(ZeroThenOnes, [packet]).0| <= 2
    ensures |Decode(ZeroThenOnes, [], packet, |packet| + 1).0| == |packet| + 1
  {
    var none: seq<byte>, nothing: seq<seq<byte>> := [], [];
    assert [packet][..0] == [] && Paced(ZeroThenOnes, [packet]) == AfterPacket(ZeroThenOnes, [], [], packet);
    assert none[..0] == none && none[0..] == none && none + packet == packet && nothing + [none] == [none];
    assert InPacket(ZeroThenOnes, nothing, none, packet) == ([none], packet);
    assert packet[..0] == none && packet[0..] == packet;
    OneByOne([none], packet);
    assert Decode(ZeroThenOnes, [], packet, |packet| + 1) == Decode(ZeroThenOnes, [none], packet, |packet|);
  }

  lemma {:induction false} OneByOne(res: seq<seq<byte>>, s: seq<byte>)
    requires res != []
    ensures |Decode(ZeroThenOnes, res, s, |s|).0| == |res| + |s|
    decreases |s|
  {
    if s != [] {
      OneByOne(res + [s[..1]], s[1..]);
    }
  }

  // ---- The two conditions together -------------------------------------------------------------

  lemma {:induction false} DecodeShort(p: Program, done: seq<seq<byte>>, s: seq<byte>, k: nat, j: nat)
    requires |Decode(p, done, s, k).0| == |done| + j && j <= k
    ensures Decode(p, done, s, j) == Decode(p, done, s, k)
    decreases k
  {
    if k > 0 && !Stuck(p, done, s) {
      var v := Take(p(done).value, s).value;
      DecodeShort(p, done + [v.0], v.1, k - 1, j - 1);
    }
  }

  /** What is left is the end of the stream, and the part before it yields the same results. */
  lemma {:induction false} DecodeTrim(p: Program, s: seq<byte>, k: nat)
    requires |Decode(p, [], s, k).0| == k
    ensures var (res, rest) := Decode(p, [], s, k);
            |rest| <= |s| && Decode(p, [], s[..|s| - |rest|], k) == (res, [])
  {
    var (res, rest) := Decode(p, [], s, k);
    var ends := DecodeReadsOff(p, s, k);
    var read := Framed(res, ends);
    assert s[..|s| - |rest|] == read == read + [];
    ReadOffDecodes(p, read, res, ends, []);
  }

  /** A request for zero bytes is made on `s` exactly if some part of `s`, up to a point, ends with it. */
  lemma {:induction false} ZeroIsReached(p: Program, s: seq<byte>)
    ensures !NeverZero(p, s) <==> exists n: nat, k: nat :: n <= |s| && ZeroAtEnd(p, s[..n], k)
  {
    if !NeverZero(p, s) {
      var j: nat :| p(Decode(p, [], s, j).0) == Some(Exactly(0));
      var k := FirstZero(p, s, j);
      FirstZeroEnds(p, s, k);
    }
    if n: nat, k: nat :| n <= |s| && ZeroAtEnd(p, s[..n], k) {
      ZeroInside(p, s, n, k);
    }
  }

  lemma {:induction false} ZeroInside(p: Program, s: seq<byte>, n: nat, k: nat)
    requires n <= |s| && ZeroAtEnd(p, s[..n], k)
    ensures !NeverZero(p, s)
  {
    DecodeExtend(p, [], s[..n], s[n..], k);
    assert s[..n] + s[n..] == s;
    assert p(Decode(p, [], s, k).0) == Some(Exactly(0));
  }

  lemma {:induction false} FirstZero(p: Program, s: seq<byte>, j: nat) returns (k: nat)
    requires p(Decode(p, [], s, j).0) == Some(Exactly(0))
    ensures NoZeroBefore(p, s, k) && p(Decode(p, [], s, k).0) == Some(Exactly(0))
  {
    k := 0;
    while p(Decode(p, [], s, k).0) != Some(Exactly(0))
      invariant k <= j && NoZeroBefore(p, s, k)
      decreases j - k
    {
      k := k + 1;
    }
  }

  lemma {:induction false} FirstZeroEnds(p: Program, s: seq<byte>, k: nat)
    requires NoZeroBefore(p, s, k) && p(Decode(p, [], s, k).0) == Some(Exactly(0))
    ensures exists n: nat :: n <= |s| && ZeroAtEnd(p, s[..n], k)
  {
    var (res, rest) := Decode(p, [], s, k);
    if |res| < k {
      DecodeShort(p, [], s, k, |res|);
      assert false;
    }
    DecodeTrim(p, s, k);
    var n := |s| - |rest|;
    forall j: nat | j < k
      ensures p(Decode(p, [], s[..n], j).0) != Some(Exactly(0))
    {
      DecodeFull(p, [], s[..n], k, j);
      DecodeExtend(p, [], s[..n], s[n..], j);
      assert s[..n] + s[n..] == s;
    }
    assert ZeroAtEnd(p, s[..n], k);
  }
}
