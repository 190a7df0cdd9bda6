/**
 * Range reduction of random words (`arc4random_uniform`, deps/libevent/arc4random.c:513-545), on 32-bit
 * unsigned arithmetic. The random words are a parameter.
 */
module Uniform {
  import opened Common

  const WORD := 0x1_0000_0000

  newtype u32 = x: int | 0 <= x < 0x1_0000_0000

  // Unsigned arithmetic wraps.

  function Wrap(x: int): u32 {
    (x % WORD) as u32
  }

  /** The words below this are thrown away (arc4random.c:522-531). */
  function Threshold(bound: u32): (min: u32)
    requires bound >= 2
  {
    if bound > 0x8000_0000 then
      var flipped := 0xffff_ffff - bound;                           // ~upper_bound
      Wrap(1 + flipped as int)
    else
      var doubled := Wrap(bound as int * 2);
      Wrap((0xffff_ffff - doubled) as int + 1) % bound
  }

  /** The threshold, computed without 64-bit arithmetic, is 2^32 modulo the bound. */
  lemma ThresholdExact(bound: u32)
    requires bound >= 2
    ensures Threshold(bound) as int == WORD % bound as int
  {
    var b := bound as int;
    if bound > 0x8000_0000 {
      Remainder(WORD, b, 1, WORD - b);
    } else if bound == 0x8000_0000 {
      assert Wrap(b * 2) == 0;
    } else {
      var rest := WORD - 2 * b;
      assert Wrap(b * 2) as int == b * 2;
      assert Wrap((0xffff_ffff - Wrap(b * 2)) as int + 1) as int == rest;
      TwiceLess(WORD, b);
    }
  }

  /** Taking the bound away twice does not change the remainder. */
  lemma TwiceLess(x: int, b: int)
    requires b > 0
    ensures (x - 2 * b) % b == x % b
  {
    var q, r := x / b, x % b;
    assert x == q * b + r;
    assert (q - 2) * b == q * b - 2 * b;
    Remainder(x - 2 * b, b, q - 2, r);
  }

  /** The first word not below a limit. */
  function FirstAccepted(words: seq<u32>, min: u32): (r: Option<nat>)
    ensures r.Some? ==> r.value < |words| && words[r.value] >= min && forall i :: 0 <= i < r.value ==> words[i] < min
    ensures r.None? ==> forall i :: 0 <= i < |words| ==> words[i] < min
  {
    if words == [] then None
    else if words[0] >= min then Some(0)
    else match FirstAccepted(words[1..], min) case None => None case Some(i) => Some(i + 1)
  }

  /** The words to be thrown away, stepwise as in the source. */
  method Minimum(bound: u32) returns (min: u32)
    requires bound >= 2
    ensures min as int == WORD % bound as int
  {
    if bound > 0x8000_0000 {
      min := Wrap(1 + (0xffff_ffff - bound) as int);
    } else {
      min := Wrap((0xffff_ffff - Wrap(bound as int * 2)) as int + 1) % bound;
    }
    assert min == Threshold(bound);
    ThresholdExact(bound);
  }

  /**
   * `arc4random_uniform` on the words that `arc4random` returns; no result when all of them are
   * thrown away.
   */
  method Arc4RandomUniform(bound: u32, words: seq<u32>) returns (r: Option<u32>, drawn: nat)
    ensures bound < 2 ==> r == Some(0) && drawn == 0
    ensures bound >= 2 ==>
      var k := FirstAccepted(words, (WORD % bound as int) as u32);
      if k.None? then r == None && drawn == |words|
      else r == Some(words[k.value] % bound) && drawn == k.value + 1
  {
    hide FirstAccepted;
    drawn := 0;
    if bound < 2 {
      return Some(0), 0;
    }
    var min := Minimum(bound);
    while drawn < |words|
      invariant drawn <= |words|
      invariant forall i :: 0 <= i < drawn ==> words[i] < min
    {
      drawn := drawn + 1;
      if words[drawn - 1] >= min {
        return Some(words[drawn - 1] % bound), drawn;
      }
    }
    r := None;
  }

  // ----- Every result is equally likely -----

  /** The words in an interval that leave remainder `k`. */
  ghost function Leaving(k: int, bound: int, lo: int, hi: int): set<int>
    requires bound > 0
  {
    set w | lo <= w < hi && w % bound == k
  }

  /** The accepted words that lead to the result `k`. */
  ghost function Preimages(k: u32, bound: u32): set<int>
    requires bound >= 2
  {
    Leaving(k as int, bound as int, Threshold(bound) as int, WORD)
  }

  /** Among as many consecutive numbers as the bound says, one leaves each remainder. */
  lemma OneInWindow(k: int, bound: int, lo: int) returns (w: int)
    requires 0 <= k < bound
    ensures Leaving(k, bound, lo, lo + bound) == {w}
  {
    var q := (k - lo) / bound;
    w := lo + (k - lo) % bound;
    assert w == k - q * bound && (-q) * bound == -(q * bound);
    Remainder(w, bound, -q, k);
    forall v | lo <= v < lo + bound && v % bound == k
      ensures v == w
    {
      SameRemainder(v, w, bound);
    }
    assert w in Leaving(k, bound, lo, lo + bound);
  }

  lemma SameRemainder(v: int, w: int, bound: int)
    requires bound > 0 && v % bound == w % bound && -bound < v - w < bound
    ensures v == w
  {
    var d := v / bound - w / bound;
    assert d * bound == v / bound * bound - w / bound * bound;
    assert v - w == d * bound;
    OnlyZero(d, bound);
  }

  lemma {:induction false} WindowsCount(k: int, bound: int, lo: int, n: nat)
    requires 0 <= k < bound
    ensures |Leaving(k, bound, lo, lo + n * bound)| == n
    decreases n
  {
    if n == 0 {
      assert Leaving(k, bound, lo, lo + n * bound) == {};
    } else {
      var mid := lo + (n - 1) * bound;
      assert mid + bound == lo + n * bound by { assert n * bound == (n - 1) * bound + bound; }
      WindowsCount(k, bound, lo, n - 1);
      var w := OneInWindow(k, bound, mid);
      Windows(k, bound, lo, mid, mid + bound, w);
    }
  }

  lemma Windows(k: int, bound: int, lo: int, mid: int, hi: int, w: int)
    requires bound > 0 && lo <= mid <= hi && Leaving(k, bound, mid, hi) == {w}
    ensures |Leaving(k, bound, lo, hi)| == |Leaving(k, bound, lo, mid)| + 1
  {
    var a := Leaving(k, bound, lo, mid);
    assert w in Leaving(k, bound, mid, hi);
    forall v
      ensures v in Leaving(k, bound, lo, hi) <==> v in a + {w}
    {
      assert v in Leaving(k, bound, mid, hi) <==> v == w;
    }
    assert Leaving(k, bound, lo, hi) == a + {w} && w !in a;
  }

  /** Each of the `bound` results has the same number of accepted words. */
  lemma EqualShares(k: u32, bound: u32)
    requires bound >= 2 && k < bound
    ensures |Preimages(k, bound)| == WORD / bound as int
  {
    ThresholdExact(bound);
    var b := bound as int;
    var n := WORD / b;
    assert Threshold(bound) as int + n * b == WORD;
    WindowsCount(k as int, b, Threshold(bound) as int, n);
  }

  /** More than half of all words are accepted. */
  lemma MoreThanHalf(bound: u32)
    requires bound >= 2
    ensures WORD - Threshold(bound) as int > WORD / 2
  {
  }
}
