/** Bytes, unsigned 32-bit counters and concatenation of pieces. */
module Bytes {
  type byte = x: int | 0 <= x < 256

  datatype Option<+T> = None | Some(value: T)

  const M32 := 0x1_0000_0000

  type u32 = x: int | 0 <= x < M32

  /** `a += b` on a uint32_t counter. */
  function Add32(a: u32, b: nat): u32 {
    (a + b) % M32
  }

  /** `a -= b` on a uint32_t counter. */
  function Sub32(a: u32, b: nat): u32 {
    (a - b) % M32
  }

  /** Counters that wrap still balance an account modulo 2^32. */
  lemma {:induction false} Add32Balances(x: int, a: u32, n: nat)
    ensures (x + n - Add32(a, n)) % M32 == (x - a) % M32
  {
  }

  lemma {:induction false} Sub32Balances(x: int, a: u32, n: nat)
    ensures (x - n - Sub32(a, n)) % M32 == (x - a) % M32
  {
  }

  /** A balance that was even stays so only if nothing is taken from it. */
  lemma {:induction false} StaysEven(x: int, n: u32)
    requires x % M32 == 0
    ensures (x - n) % M32 == 0 <==> n == 0
  {
  }

  /** The difference of two readings of a clock that wraps is the time between them. */
  lemma {:induction false} Elapsed(start: u32, now: u32, t: nat, d: nat)
    requires d < M32 && start == t % M32 && now == (t + d) % M32
    ensures (now - start) % M32 == d
  {
  }

  function Min(a: int, b: int): int {
    if a < b then a else b
  }

  /** The stream held by a chain of pieces. */
  function Concat<T>(parts: seq<seq<T>>): seq<T> {
    if parts == [] then [] else parts[0] + Concat(parts[1..])
  }

  lemma {:induction false} ConcatAppend<T>(a: seq<seq<T>>, b: seq<seq<T>>)
    ensures Concat(a + b) == Concat(a) + Concat(b)
  {
    if a == [] {
      assert a + b == b;
    } else {
      var rest := a[1..];
      assert (a + b)[0] == a[0] && (a + b)[1..] == rest + b;
      ConcatAppend(rest, b);
      assert a[0] + (Concat(rest) + Concat(b)) == (a[0] + Concat(rest)) + Concat(b);
    }
  }

  lemma {:induction false} ConcatSnoc<T>(a: seq<seq<T>>, x: seq<T>)
    ensures Concat(a + [x]) == Concat(a) + x
  {
    ConcatAppend(a, [x]);
    assert [x][1..] == [];
    assert Concat([x]) == x + Concat([]);
  }

  /** The stream of the first pieces, one piece at a time. */
  lemma {:induction false} ConcatPrefix<T>(a: seq<seq<T>>, i: nat)
    requires i < |a|
    ensures Concat(a[..i + 1]) == Concat(a[..i]) + a[i]
    ensures i + 1 == |a| ==> a[..i + 1] == a
  {
    ConcatSnoc(a[..i], a[i]);
    assert a[..i + 1] == a[..i] + [a[i]];
  }

  /** Growing the last piece grows the stream at its end. */
  lemma {:induction false} ConcatGrowLast<T>(a: seq<seq<T>>, x: seq<T>)
    requires a != []
    ensures Concat(a[|a| - 1 := a[|a| - 1] + x]) == Concat(a) + x
  {
    var k := |a| - 1;
    assert a == a[..k] + [a[k]];
    assert a[k := a[k] + x] == a[..k] + [a[k] + x];
    ConcatSnoc(a[..k], a[k]);
    ConcatSnoc(a[..k], a[k] + x);
  }

  /** Shrinking the first piece from its front shrinks the stream from its front. */
  lemma {:induction false} ConcatShrinkFirst<T>(a: seq<seq<T>>, n: nat)
    requires a != [] && n <= |a[0]|
    ensures Concat(a[0 := a[0][n..]]) == Concat(a)[n..]
  {
    assert a[0 := a[0][n..]][1..] == a[1..];
  }

  /** Taking the elements of `s` from the `f`-th to the `u`-th and then `h` more is taking those up to `u + h`. */
  lemma {:induction false} AppendSlice<T>(r: seq<T>, s: seq<T>, f: nat, u: nat, h: nat)
    requires f <= u && u + h <= |s|
    ensures (r + s[f..u]) + s[u..][..h] == r + s[f..u + h]
  {
    assert s[f..u] + s[u..][..h] == s[f..u + h];
  }

  lemma {:induction false} Assoc<T>(a: seq<T>, b: seq<T>, c: seq<T>)
    ensures (a + b) + c == a + (b + c)
  {
  }

  /** Moving the front of `s` to the end of `r` changes nothing. */
  lemma {:induction false} MoveFront<T>(r: seq<T>, s: seq<T>, n: nat)
    requires n <= |s|
    ensures (r + s[..n]) + s[n..] == r + s
  {
  }

  /** (g + q) + a == (g + h) + r, if q + a is h + r. */
  lemma {:induction false} Regroup<T>(g: seq<T>, q: seq<T>, a: seq<T>, h: seq<T>, r: seq<T>)
    requires q + a == h + r
    ensures (g + q) + a == (g + h) + r
  {
    assert (g + q) + a == g + (q + a);
    assert (g + h) + r == g + (h + r);
  }

  /** What was taken from the front of `all` so far, and one piece more. */
  lemma {:induction false} TakeMore<T>(all: seq<T>, taken: seq<T>, rest: seq<T>, piece: seq<T>, rest': seq<T>)
    requires all == taken + rest && rest == piece + rest'
    ensures all == (taken + piece) + rest'
  {
    assert taken + (piece + rest') == (taken + piece) + rest';
  }

  lemma {:induction false} TakenIsPrefix<T>(all: seq<T>, taken: seq<T>, rest: seq<T>)
    requires all == taken + rest
    ensures |taken| <= |all| && all[..|taken|] == taken && all[|taken|..] == rest
  {
  }

  function Sum(ns: seq<nat>): nat {
    if ns == [] then 0 else ns[0] + Sum(ns[1..])
  }

  lemma {:induction false} SumCons(n: nat, ns: seq<nat>)
    ensures Sum([n] + ns) == n + Sum(ns)
  {
    assert ([n] + ns)[1..] == ns;
  }

  lemma {:induction false} SumSnoc(ns: seq<nat>, n: nat)
    ensures Sum(ns + [n]) == Sum(ns) + n
  {
    if ns == [] {
      assert ns + [n] == [n];
    } else {
      assert (ns + [n])[1..] == ns[1..] + [n];
      SumSnoc(ns[1..], n);
    }
  }
}
