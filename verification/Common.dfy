/** Datatypes shared by every module of the model. */
module Common {

  const INT_MAX: int := 0x7FFF_FFFF

  /** A value cut to a C int. */
  function CInt(n: int): (r: int)
    ensures -INT_MAX - 1 <= r <= INT_MAX
  {
    var low := n % 0x1_0000_0000;
    if low > INT_MAX then low - 0x1_0000_0000 else low
  }

  /** The conventional optional value, used where the source returns NULL or an error code. */
  datatype Option<+T> = None | Some(value: T)

  /** BEV_SUSPEND_*: why a bufferevent does not read or write (deps/libevent/bufferevent-internal.h:65-75) */
  datatype Reason = Watermark | Bandwidth | GroupBandwidth | Lookup | FilterRead

  /** `t` is one of two spellings, letter by letter. */
  predicate Folded(t: string, lower: string, upper: string)
    requires |lower| == |upper|
  {
    |t| == |lower| && forall i :: 0 <= i < |t| ==> t[i] == lower[i] || t[i] == upper[i]
  }

  /** All but the last element of a non-empty sequence. */
  function DropLast<T>(s: seq<T>): (r: seq<T>)
    requires |s| > 0
    ensures |r| == |s| - 1
  {
    s[..|s| - 1]
  }

  /** The last element of a non-empty sequence. */
  function Last<T>(s: seq<T>): T
    requires |s| > 0
  {
    s[|s| - 1]
  }

  /** A slice of a slice. */
  lemma SliceOfSlice<T>(s: seq<T>, i: nat, j: nat, a: nat, b: nat)
    requires i <= j <= |s| && a <= b <= j - i
    ensures s[i..j][a..b] == s[i + a..i + b]
  {
    forall k | 0 <= k < b - a
      ensures s[i..j][a..b][k] == s[i + a..i + b][k]
    {
      assert s[i..j][a..b][k] == s[i..j][a + k] == s[i + a + k];
    }
  }

  /** A slice of a suffix. */
  lemma SliceOfSuffix<T>(s: seq<T>, i: nat, a: nat, b: nat)
    requires i <= |s| && a <= b <= |s| - i
    ensures s[i..][a..b] == s[i + a..i + b]
    ensures s[i..][b..] == s[i + b..]
  {
  }

  /** Concatenation of a list of sequences. */
  function Flat<T>(xs: seq<seq<T>>): seq<T> {
    if xs == [] then [] else xs[0] + Flat(xs[1..])
  }

  lemma {:induction false} FlatAppend<T>(a: seq<seq<T>>, b: seq<seq<T>>)
    ensures Flat(a + b) == Flat(a) + Flat(b)
  {
    if a == [] {
      assert a + b == b;
    } else {
      var c := a + b;
      assert c[0] == a[0] && c[1..] == a[1..] + b;
      FlatAppend(a[1..], b);
      assert a[0] + (Flat(a[1..]) + Flat(b)) == (a[0] + Flat(a[1..])) + Flat(b);
    }
  }

  lemma FlatOne<T>(x: seq<T>)
    ensures Flat([x]) == x
  {
    assert [x][1..] == [];
    assert x + [] == x;
  }

  lemma FlatCons<T>(x: seq<T>, xs: seq<seq<T>>)
    ensures Flat([x] + xs) == x + Flat(xs)
  {
    assert ([x] + xs)[0] == x && ([x] + xs)[1..] == xs;
  }

  lemma Assoc<T>(a: seq<T>, b: seq<T>, c: seq<T>)
    ensures a + (b + c) == a + b + c
  {
  }

  // ----- Remainders -----

  lemma Remainder(x: int, b: int, q: int, r: int)
    requires b > 0 && x == q * b + r && 0 <= r < b
    ensures x % b == r
  {
    var d := x / b - q;
    assert d * b == x / b * b - q * b;
    assert d * b == r - x % b;
    OnlyZero(d, b);
  }

  lemma OnlyZero(d: int, b: int)
    requires b > 0 && -b < d * b < b
    ensures d == 0
  {
    Multiple(d, b);
  }

  lemma Multiple(d: int, b: int)
    requires b > 0
    ensures d >= 1 ==> d * b >= b
    ensures d <= -1 ==> d * b <= -b
  {
    assert d * b - b == (d - 1) * b && d * b + b == (d + 1) * b;
  }
}
