/** What a program of read requests means on a whole byte stream, with no packets, modes or buffers. */
module RequestDecoder {
  import opened Bytes

  /** `readBytes(_, n)` or `readStringUntil(t)`. */
  datatype Request = Exactly(n: nat) | Until(t: byte)

  /** Chooses the next request from the results so far; `None` ends the conversation. */
  type Program = seq<seq<byte>> -> Option<Request>

  /** A string ends at its terminator, and at a NUL byte whatever the terminator is. */
  predicate Ends(t: byte, b: byte) {
    b == t || b == 0
  }

  function FindEnd(t: byte, s: seq<byte>): (k: nat)
    ensures k <= |s|
    ensures k < |s| ==> s[k] == t || s[k] == 0
    ensures forall i :: 0 <= i < k ==> s[i] != t && s[i] != 0
  {
    if s == [] || Ends(t, s[0]) then 0 else 1 + FindEnd(t, s[1..])
  }

  /** The result of one request on the front of `s`, and what follows it, if `s` is long enough. */
  function Take(r: Request, s: seq<byte>): Option<(seq<byte>, seq<byte>)> {
    match r
    case Exactly(n) => if n <= |s| then Some((s[..n], s[n..])) else None
    case Until(t) =>
      var k := FindEnd(t, s);
      if k < |s| then Some((s[..k], s[k + 1..])) else None
  }

  /** Runs at most `k` requests of `p` after the results `done`; returns all results and the unread rest. */
  function Decode(p: Program, done: seq<seq<byte>>, s: seq<byte>, k: nat): (r: (seq<seq<byte>>, seq<byte>))
    ensures done <= r.0 && |r.0| <= |done| + k
    decreases k
  {
    if k == 0 || p(done).None? then (done, s)
    else
      match Take(p(done).value, s)
      case None => (done, s)
      case Some((v, rest)) => Decode(p, done + [v], rest, k - 1)
  }

  /** `results` are the first results that `p` gets out of `s`. */
  ghost predicate Decodes(p: Program, s: seq<byte>, results: seq<seq<byte>>) {
    results == Decode(p, [], s, |results|).0
  }

  /** and there are no more, however long one decodes. */
  ghost predicate DecodesAll(p: Program, s: seq<byte>, results: seq<seq<byte>>) {
    forall k :: k >= |results| ==> Decode(p, [], s, k).0 == results
  }

  lemma {:induction false} TakeExtend(r: Request, s: seq<byte>, more: seq<byte>)
    requires Take(r, s).Some?
    ensures Take(r, s + more) == Some((Take(r, s).value.0, Take(r, s).value.1 + more))
  {
    match r
    case Exactly(n) =>
      assert (s + more)[..n] == s[..n];
      assert (s + more)[n..] == s[n..] + more;
    case Until(t) =>
      var k := FindEnd(t, s);
      FindEndIs(t, s + more, k);
      assert (s + more)[..k] == s[..k];
      assert (s + more)[k + 1..] == s[k + 1..] + more;
  }

  lemma {:induction false} FindEndIs(t: byte, s: seq<byte>, k: nat)
    requires k <= |s|
    requires forall i :: 0 <= i < k ==> s[i] != t && s[i] != 0
    requires k < |s| ==> s[k] == t || s[k] == 0
    ensures FindEnd(t, s) == k
  {
    if k > 0 {
      FindEndIs(t, s[1..], k - 1);
    }
  }

  /** A text without an end, an end, and what follows. */
  lemma {:induction false} TakeString(t: byte, text: seq<byte>, c: byte, rest: seq<byte>)
    requires t !in text && 0 !in text && (c == t || c == 0)
    ensures Take(Until(t), text + [c] + rest) == Some((text, rest))
  {
    var s := text + [c] + rest;
    FindEndIs(t, s, |text|);
    assert s[..|text|] == text && s[|text| + 1..] == rest;
  }

  /** Bytes that arrive later do not change results that are already out. */
  lemma {:induction false} DecodeExtend(p: Program, done: seq<seq<byte>>, s: seq<byte>, more: seq<byte>, k: nat)
    requires |Decode(p, done, s, k).0| == |done| + k
    ensures Decode(p, done, s + more, k) == (Decode(p, done, s, k).0, Decode(p, done, s, k).1 + more)
    decreases k
  {
    if k > 0 {
      var v := Take(p(done).value, s).value;
      TakeExtend(p(done).value, s, more);
      DecodeExtend(p, done + [v.0], v.1, more, k - 1);
    }
  }

  /** One more request continues exactly where the first `k` stopped. */
  lemma {:induction false} DecodeStep(p: Program, done: seq<seq<byte>>, s: seq<byte>, k: nat)
    requires |Decode(p, done, s, k).0| == |done| + k
    ensures var (res, rest) := Decode(p, done, s, k);
            Decode(p, done, s, k + 1) == Decode(p, res, rest, 1)
    decreases k
  {
    if k > 0 {
      var v := Take(p(done).value, s).value;
      DecodeStep(p, done + [v.0], v.1, k - 1);
    }
  }

  /** An answered request extends the decoding by its result. */
  lemma {:induction false} DecodeNext(p: Program, s: seq<byte>, res: seq<seq<byte>>, rest: seq<byte>, v: seq<byte>,
                                      rest': seq<byte>)
    requires Decode(p, [], s, |res|) == (res, rest)
    requires p(res).Some? && Take(p(res).value, rest) == Some((v, rest'))
    ensures Decode(p, [], s, |res + [v]|) == (res + [v], rest')
  {
    DecodeStep(p, [], s, |res|);
    assert Decode(p, res, rest, 1) == Decode(p, res + [v], rest', 0);
  }

  /** Asking for more results never changes the earlier ones. */
  lemma {:induction false} DecodeMonotone(p: Program, done: seq<seq<byte>>, s: seq<byte>, k: nat, m: nat)
    requires k <= m
    ensures Decode(p, done, s, k).0 <= Decode(p, done, s, m).0
    decreases k
  {
    if k > 0 && p(done).Some? && Take(p(done).value, s).Some? {
      var v := Take(p(done).value, s).value;
      DecodeMonotone(p, done + [v.0], v.1, k - 1, m - 1);
    }
  }

  /** Once the next request cannot be met, there is nothing more to decode. */
  lemma {:induction false} DecodeStuck(p: Program, done: seq<seq<byte>>, s: seq<byte>, k: nat, m: nat)
    requires |Decode(p, done, s, k).0| == |done| + k
    requires var (res, rest) := Decode(p, done, s, k); p(res).None? || Take(p(res).value, rest).None?
    requires k <= m
    ensures Decode(p, done, s, m) == Decode(p, done, s, k)
    decreases k
  {
    if k > 0 {
      var v := Take(p(done).value, s).value;
      DecodeStuck(p, done + [v.0], v.1, k - 1, m - 1);
    }
  }

  lemma {:induction false} DecodeFull(p: Program, done: seq<seq<byte>>, s: seq<byte>, k: nat, j: nat)
    requires |Decode(p, done, s, k).0| == |done| + k && j <= k
    ensures |Decode(p, done, s, j).0| == |done| + j
    decreases j
  {
    if j > 0 {
      var v := Take(p(done).value, s).value;
      DecodeFull(p, done + [v.0], v.1, k - 1, j - 1);
    }
  }

  /** The next request cannot be answered by what is there, or there is none. */
  predicate Stuck(p: Program, res: seq<seq<byte>>, rest: seq<byte>) {
    p(res).None? || Take(p(res).value, rest).None?
  }

  /** Nothing is missing exactly if the next request cannot be answered by the bytes that are left. */
  lemma {:induction false} CompleteIff(p: Program, s: seq<byte>, res: seq<seq<byte>>, rest: seq<byte>)
    requires Decode(p, [], s, |res|) == (res, rest)
    ensures DecodesAll(p, s, res) <==> Stuck(p, res, rest)
  {
    if Stuck(p, res, rest) {
      forall k | k >= |res|
        ensures Decode(p, [], s, k).0 == res
      {
        DecodeStuck(p, [], s, |res|, k);
      }
    } else {
      var v := Take(p(res).value, rest).value;
      DecodeNext(p, s, res, rest, v.0, v.1);
      assert Decode(p, [], s, |res| + 1).0 == res + [v.0];
    }
  }

  // ---- The same without a decoder --------------------------------------------------------------

  /** The request `r` gets `v`, which `end` ends. */
  predicate Meets(r: Request, v: seq<byte>, end: seq<byte>) {
    match r
    case Exactly(n) => |v| == n && end == []
    case Until(t) => t !in v && 0 !in v && (end == [t] || end == [0])
  }

  /** A request is answered with `v` exactly if `v` and its end are how the bytes begin. */
  lemma {:induction false} TakeIff(r: Request, s: seq<byte>, v: seq<byte>, rest: seq<byte>)
    ensures Take(r, s) == Some((v, rest)) <==> exists end :: Meets(r, v, end) && s == v + end + rest
  {
    if Take(r, s) == Some((v, rest)) {
      var end := TakeEnd(r, s);
      assert Meets(r, v, end);
    }
    if end :| Meets(r, v, end) && s == v + end + rest {
      MeetsTakes(r, v, end, rest);
    }
  }

  lemma {:induction false} TakeEnd(r: Request, s: seq<byte>) returns (end: seq<byte>)
    requires Take(r, s).Some?
    ensures var (v, rest) := Take(r, s).value; Meets(r, v, end) && s == v + end + rest
  {
    match r
    case Exactly(n) =>
      end := [];
      assert s == s[..n] + [] + s[n..];
    case Until(t) =>
      var k := FindEnd(t, s);
      end := [s[k]];
      assert s == s[..k] + [s[k]] + s[k + 1..];
  }

  lemma {:induction false} MeetsTakes(r: Request, v: seq<byte>, end: seq<byte>, rest: seq<byte>)
    requires Meets(r, v, end)
    ensures Take(r, v + end + rest) == Some((v, rest))
  {
    var s := v + end + rest;
    match r
    case Exactly(n) => assert s[..n] == v && s[n..] == rest;
    case Until(t) => TakeString(t, v, end[0], rest);
  }

  /** The bytes that cannot answer the next request: too few, or without an end. */
  lemma {:induction false} StuckIff(p: Program, res: seq<seq<byte>>, rest: seq<byte>)
    ensures Stuck(p, res, rest) <==>
            match p(res)
            case None => true
            case Some(Exactly(n)) => |rest| < n
            case Some(Until(t)) => t !in rest && 0 !in rest
  {
  }

  /** Results and what ended them, one behind the other. */
  function Framed(results: seq<seq<byte>>, ends: seq<seq<byte>>): seq<byte>
    requires |results| == |ends|
  {
    if results == [] then []
    else
      var n := |results| - 1;
      Framed(results[..n], ends[..n]) + (results[n] + ends[n])
  }

  /** `s` is made up of `results`, each what `p` asks for after those before it, of their ends, and of `rest`. */
  ghost predicate ReadOff(p: Program, s: seq<byte>, results: seq<seq<byte>>, ends: seq<seq<byte>>, rest: seq<byte>) {
    && |ends| == |results| && s == Framed(results, ends) + rest
    && forall i :: 0 <= i < |results| ==> p(results[..i]).Some? && Meets(p(results[..i]).value, results[i], ends[i])
  }

  /** Such results are the decoder's. */
  lemma {:induction false} ReadOffDecodes(p: Program, s: seq<byte>, results: seq<seq<byte>>, ends: seq<seq<byte>>,
                                          rest: seq<byte>)
    requires ReadOff(p, s, results, ends, rest)
    ensures Decode(p, [], s, |results|) == (results, rest)
    decreases |results|
  {
    if results == [] {
      assert s == [] + rest == rest;
    } else {
      var n := |results| - 1;
      var front, v, end := results[..n], results[n], ends[n];
      ReadOffLess(p, s, results, ends, rest);
      ReadOffDecodes(p, s, front, ends[..n], v + end + rest);
      MeetsTakes(p(front).value, v, end, rest);
      DecodeNext(p, s, front, v + end + rest, v, rest);
      assert results == front + [v];
    }
  }

  lemma {:induction false} ReadOffLess(p: Program, s: seq<byte>, results: seq<seq<byte>>, ends: seq<seq<byte>>,
                                       rest: seq<byte>)
    requires ReadOff(p, s, results, ends, rest) && results != []
    ensures var n := |results| - 1;
            ReadOff(p, s, results[..n], ends[..n], results[n] + ends[n] + rest)
  {
    var n := |results| - 1;
    assert forall i :: 0 <= i < n ==> results[..n][..i] == results[..i];
    Assoc(Framed(results[..n], ends[..n]), results[n] + ends[n], rest);
  }

  lemma {:induction false} DecodeReadsOff(p: Program, s: seq<byte>, k: nat) returns (ends: seq<seq<byte>>)
    requires |Decode(p, [], s, k).0| == k
    ensures ReadOff(p, s, Decode(p, [], s, k).0, ends, Decode(p, [], s, k).1)
    decreases k
  {
    ends := [];
    if k > 0 {
      DecodeFull(p, [], s, k, k - 1);
      var (front, left) := Decode(p, [], s, k - 1);
      ends := DecodeReadsOff(p, s, k - 1);
      DecodeStep(p, [], s, k - 1);
      var (v, rest) := Take(p(front).value, left).value;
      var end := TakeEnd(p(front).value, left);
      assert Decode(p, front, left, 1) == Decode(p, front + [v], rest, 0);
      ReadOffMore(p, s, front, ends, left, v, end, rest);
      ends := ends + [end];
    }
  }

  lemma {:induction false} ReadOffMore(p: Program, s: seq<byte>, front: seq<seq<byte>>, ends: seq<seq<byte>>,
                                       left: seq<byte>, v: seq<byte>, end: seq<byte>, rest: seq<byte>)
    requires ReadOff(p, s, front, ends, left) && left == v + end + rest
    requires p(front).Some? && Meets(p(front).value, v, end)
    ensures ReadOff(p, s, front + [v], ends + [end], rest)
  {
    var results, ends' := front + [v], ends + [end];
    assert results[..|front|] == front && ends'[..|front|] == ends;
    assert forall i :: 0 <= i <= |front| ==> results[..i] == front[..i];
    assert Framed(front, ends) + (v + end + rest) == (Framed(front, ends) + (v + end)) + rest;
  }

  /** Decoding is taking apart: the first results of a stream are the only ones that it can be put together from. */
  lemma {:induction false} DecodeIff(p: Program, s: seq<byte>, results: seq<seq<byte>>, rest: seq<byte>)
    ensures Decode(p, [], s, |results|) == (results, rest) <==> exists ends :: ReadOff(p, s, results, ends, rest)
  {
    if Decode(p, [], s, |results|) == (results, rest) {
      var ends := DecodeReadsOff(p, s, |results|);
    }
    if ends :| ReadOff(p, s, results, ends, rest) {
      ReadOffDecodes(p, s, results, ends, rest);
    }
  }
}
