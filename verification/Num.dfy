/**
 * Decimal conversion, after deps/hiredis/read.c (`string2ll`), deps/hiredis/sds.c (`sdsll2str`)
 * and deps/hiredis/hiredis.c (`countDigits`).
 *
 * `Decimal` is the reference: the usual base-10 numeral without leading zeros.
 * 64-bit arithmetic is carried out in the newtype `u64`, so the verifier checks that
 * no intermediate result wraps.
 */
module Num {
  import opened Common

  const ULLONG_MAX: int := 0xFFFF_FFFF_FFFF_FFFF
  const LLONG_MAX: int := 0x7FFF_FFFF_FFFF_FFFF
  const LLONG_MIN: int := -0x8000_0000_0000_0000

  newtype u64 = x: int | 0 <= x <= 0xFFFF_FFFF_FFFF_FFFF

  predicate IsDigit(c: char) {
    '0' <= c <= '9'
  }

  predicate AllDigits(s: string) {
    forall i :: 0 <= i < |s| ==> IsDigit(s[i])
  }

  function DigitChar(d: nat): (c: char)
    requires d < 10
    ensures IsDigit(c) && DigitValue(c) == d
  {
    (d + '0' as int) as char
  }

  function DigitValue(c: char): (d: nat)
    requires IsDigit(c)
    ensures d < 10
  {
    c as int - '0' as int
  }

  /** The base-10 numeral of a natural number. */
  function Decimal(n: nat): (s: string)
    ensures |s| >= 1 && AllDigits(s)
    ensures s[0] == '0' <==> n == 0
    ensures n == 0 ==> s == "0"
  {
    if n < 10 then [DigitChar(n)] else Decimal(n / 10) + [DigitChar(n % 10)]
  }

  /** The base-10 numeral of an integer. */
  function DecimalInt(v: int): string {
    if v < 0 then ['-'] + Decimal(-v) else Decimal(v)
  }

  /** The number a digit string denotes, leading zeros allowed. */
  function NatValue(s: string): nat
    requires AllDigits(s)
  {
    if s == "" then 0 else NatValue(DropLast(s)) * 10 + DigitValue(Last(s))
  }

  lemma {:induction false} ValueOfDecimal(n: nat)
    ensures NatValue(Decimal(n)) == n
  {
    if n >= 10 {
      ValueOfDecimal(n / 10);
      assert DropLast(Decimal(n)) == Decimal(n / 10);
    } else {
      assert DropLast(Decimal(n)) == "";
      assert Last(Decimal(n)) == DigitChar(n);
    }
  }

  lemma {:induction false} DecimalOfValue(s: string)
    requires |s| > 0 && AllDigits(s)
    requires s[0] == '0' ==> |s| == 1
    ensures Decimal(NatValue(s)) == s
  {
    if |s| == 1 {
      assert DropLast(s) == "";
      assert s == [DigitChar(DigitValue(s[0]))];
    } else {
      var t := DropLast(s);
      assert t[0] == s[0];
      NatValuePositive(t);
      DecimalOfValue(t);
      assert s == t + [DigitChar(DigitValue(Last(s)))];
    }
  }

  lemma {:induction false} NatValuePositive(s: string)
    requires |s| > 0 && AllDigits(s) && s[0] != '0'
    ensures NatValue(s) >= 1
  {
    if |s| > 1 {
      NatValuePositive(DropLast(s));
    }
  }

  /** A prefix of a digit string denotes a number no larger than the whole. */
  lemma {:induction false} NatValuePrefix(s: string, k: nat)
    requires AllDigits(s) && k <= |s|
    ensures NatValue(s[..k]) <= NatValue(s)
  {
    if k < |s| {
      NatValuePrefix(DropLast(s), k);
      assert DropLast(s)[..k] == s[..k];
    } else {
      assert s[..k] == s;
    }
  }

  /** What `string2ll` computes: the value of a canonical signed 64-bit decimal, else nothing. */
  function ParseLL(s: string): Option<int> {
    var negative := s != "" && s[0] == '-';
    var d := if negative then s[1..] else s;
    if d == "" || !AllDigits(d) || (d[0] == '0' && s != "0") then
      None
    else if negative then
      if NatValue(d) > -LLONG_MIN then None else var v: int := NatValue(d); Some(-v)
    else
      if NatValue(d) > LLONG_MAX then None else Some(NatValue(d))
  }

  /** Exactly the canonical decimals of the signed 64-bit range are accepted, with their value. */
  lemma ParseLLCanonical(s: string, v: int)
    ensures ParseLL(s) == Some(v) <==> LLONG_MIN <= v <= LLONG_MAX && s == DecimalInt(v)
  {
    if ParseLL(s) == Some(v) {
      var negative := s[0] == '-';
      var d := if negative then s[1..] else s;
      if d == "0" {
        assert NatValue(DropLast(d)) == 0;
        assert s == "0" && v == 0;
      } else {
        assert d[0] != '0';
        NatValuePositive(d);
        DecimalOfValue(d);
        assert s == DecimalInt(v);
      }
    }
    if LLONG_MIN <= v <= LLONG_MAX && s == DecimalInt(v) {
      var m := if v < 0 then -v else v;
      ValueOfDecimal(m);
      if v < 0 {
        assert s[1..] == Decimal(m);
      }
    }
  }

  /** `string2ll` (read.c:162-223). */
  method String2LL(s: string) returns (r: Option<int>)
    ensures r == ParseLL(s)
  {
    if |s| == 0 {
      return None;
    }
    if |s| == 1 && s[0] == '0' {
      assert NatValue(DropLast(s)) == 0;
      return Some(0);
    }
    var negative := false;
    var plen := 0;
    if s[0] == '-' {
      negative := true;
      plen := 1;
      if plen == |s| {
        return None;
      }
    }
    ghost var d := if negative then s[1..] else s;
    ghost var start := plen;
    var v: u64;
    if '1' <= s[plen] <= '9' {
      v := DigitValue(s[plen]) as u64;
      plen := plen + 1;
      assert d[..1] == [s[start]];
      assert NatValue(DropLast(d[..1])) == 0;
    } else {
      return None;
    }
    while plen < |s| && IsDigit(s[plen])
      invariant start + 1 <= plen <= |s|
      invariant AllDigits(d[..plen - start])
      invariant v as int == NatValue(d[..plen - start])
    {
      ghost var n := plen + 1 - start;
      assert DropLast(d[..n]) == d[..plen - start];
      assert Last(d[..n]) == s[plen];
      if v > 0xFFFF_FFFF_FFFF_FFFF / 10 {
        OverflowMeansNone(s, d, n);
        return None;
      }
      v := v * 10;
      var c := DigitValue(s[plen]) as u64;
      if v > 0xFFFF_FFFF_FFFF_FFFF - c {
        OverflowMeansNone(s, d, n);
        return None;
      }
      v := v + c;
      plen := plen + 1;
    }
    if plen < |s| {
      assert d[plen - start] == s[plen];
      return None;
    }
    assert d[..plen - start] == d;
    if negative {
      if v > 0x8000_0000_0000_0000 {
        return None;
      }
      return Some(-(v as int));
    } else {
      if v > 0x7FFF_FFFF_FFFF_FFFF {
        return None;
      }
      return Some(v as int);
    }
  }

  lemma OverflowMeansNone(s: string, d: string, k: nat)
    requires s != "" && d == if s[0] == '-' then s[1..] else s
    requires k <= |d| && AllDigits(d[..k])
    requires NatValue(d[..k]) > -LLONG_MIN
    ensures ParseLL(s) == None
  {
    if AllDigits(d) {
      NatValuePrefix(d, k);
    }
  }

  lemma {:induction false} DigitBound(n: nat, k: nat)
    requires k >= 1 && n < Pow10(k)
    ensures |Decimal(n)| <= k
  {
    if n >= 10 {
      DigitBound(n / 10, k - 1);
    }
  }

  lemma NineteenDigits()
    ensures Pow10(19) == 10_000_000_000_000_000_000
  {
    assert Pow10(1) == 10 && Pow10(3) == 1_000;
    assert Pow10(5) == 100_000 && Pow10(7) == 10_000_000;
    assert Pow10(9) == 1_000_000_000 && Pow10(11) == 100_000_000_000;
    assert Pow10(13) == 10_000_000_000_000 && Pow10(15) == 1_000_000_000_000_000;
    assert Pow10(17) == 100_000_000_000_000_000;
  }

  function Pow10(k: nat): nat {
    if k == 0 then 1 else 10 * Pow10(k - 1)
  }

  /** The last digit of a numeral, and what is left without it. */
  lemma PeelDigit(dec: string, k: nat, v: nat)
    requires k <= |dec| && dec[..k] == Decimal(v)
    ensures k >= 1 && dec[k - 1] == DigitChar(v % 10)
    ensures v < 10 ==> k == 1
    ensures v >= 10 ==> dec[..k - 1] == Decimal(v / 10)
  {
    assert dec[k - 1] == Last(Decimal(v));
    assert dec[..k - 1] == DropLast(Decimal(v));
  }

  /** The digit loop of `sdsll2str`: least significant digit first. */
  method WriteDigits(buf: array<char>, value: u64) returns (p: nat)
    requires buf.Length >= |Decimal(value as int)|
    modifies buf
    ensures p == |Decimal(value as int)|
    ensures forall i :: 0 <= i < p ==> buf[i] == Decimal(value as int)[p - 1 - i]
    ensures forall i :: p <= i < buf.Length ==> buf[i] == old(buf[i])
  {
    var v := value;
    ghost var dec := Decimal(v as int);
    assert dec[..|dec|] == dec;
    PeelDigit(dec, |dec|, v as int);
    buf[0] := DigitChar((v % 10) as int);
    p := 1;
    v := v / 10;
    while v != 0
      invariant 1 <= p <= |dec|
      invariant v == 0 ==> p == |dec|
      invariant v != 0 ==> dec[..|dec| - p] == Decimal(v as int)
      invariant forall i :: 0 <= i < p ==> buf[i] == dec[|dec| - 1 - i]
      invariant forall i :: p <= i < buf.Length ==> buf[i] == old(buf[i])
    {
      PeelDigit(dec, |dec| - p, v as int);
      buf[p] := DigitChar((v % 10) as int);
      p := p + 1;
      v := v / 10;
    }
  }

  /** `sdsll2str` (sds.c:434-463): writes the numeral and a terminator, returns its length. */
  method LL2Str(buf: array<char>, value: int) returns (l: nat)
    requires LLONG_MIN <= value <= LLONG_MAX
    requires buf.Length >= 21
    modifies buf
    ensures l <= 20
    ensures buf[..l] == DecimalInt(value) && buf[l] == '\0'
    ensures buf[l + 1..] == old(buf[l + 1..])
  {
    hide Decimal, Pow10;
    var v: u64 := if value < 0 then (-value) as u64 else value as u64;
    NineteenDigits();
    DigitBound(v as int, 19);
    l := WriteDigits(buf, v);
    if value < 0 {
      buf[l] := '-';
      l := l + 1;
    }
    buf[l] := '\0';
    ReversePrefix(buf, l, DecimalInt(value));
  }

  /** The reversal loop that ends `sdsll2str`: two indices walk towards each other. */
  method ReversePrefix(buf: array<char>, l: nat, ghost numeral: string)
    requires |numeral| == l <= buf.Length
    requires forall i :: 0 <= i < l ==> buf[i] == numeral[l - 1 - i]
    modifies buf
    ensures buf[..l] == numeral
    ensures forall i :: l <= i < buf.Length ==> buf[i] == old(buf[i])
  {
    var s, p := 0, l - 1;
    while s < p
      invariant 0 <= s <= p + 1 <= l && s + p == l - 1
      invariant forall i :: 0 <= i < s || p < i < l ==> buf[i] == numeral[i]
      invariant forall i :: s <= i <= p ==> buf[i] == numeral[l - 1 - i]
      invariant forall i :: l <= i < buf.Length ==> buf[i] == old(buf[i])
    {
      buf[s], buf[p] := buf[p], buf[s];
      s := s + 1;
      p := p - 1;
    }
  }

  /** `string2ll` undoes `sdsll2str`, on every signed 64-bit value. */
  lemma ParseOfDecimal(v: int)
    requires LLONG_MIN <= v <= LLONG_MAX
    ensures ParseLL(DecimalInt(v)) == Some(v)
  {
    ParseLLCanonical(DecimalInt(v), v);
  }

  /** `countDigits` (hiredis.c:299-309): four digits a round. */
  method CountDigits(n: nat) returns (result: nat)
    requires n <= ULLONG_MAX
    ensures result == |Decimal(n)|
  {
    var v := n;
    result := 1;
    while true
      invariant result >= 1 && |Decimal(n)| == result - 1 + |Decimal(v)|
      decreases v
    {
      DigitCount(v);
      if v < 10 { return; }
      if v < 100 { return result + 1; }
      if v < 1000 { return result + 2; }
      if v < 10000 { return result + 3; }
      v := v / 10000;
      result := result + 4;
    }
  }

  lemma DigitCount(v: nat)
    ensures v < 10 ==> |Decimal(v)| == 1
    ensures 10 <= v < 100 ==> |Decimal(v)| == 2
    ensures 100 <= v < 1000 ==> |Decimal(v)| == 3
    ensures 1000 <= v < 10000 ==> |Decimal(v)| == 4
    ensures v >= 10000 ==> |Decimal(v)| == 4 + |Decimal(v / 10000)|
  {
    if v >= 10 {
      assert |Decimal(v)| == 1 + |Decimal(v / 10)|;
    }
    if v >= 100 {
      assert v / 10 / 10 == v / 100;
      assert |Decimal(v / 10)| == 1 + |Decimal(v / 100)|;
    }
    if v >= 1000 {
      assert v / 100 / 10 == v / 1000;
      assert |Decimal(v / 100)| == 1 + |Decimal(v / 1000)|;
    }
    if v >= 10000 {
      assert v / 1000 / 10 == v / 10000;
      assert |Decimal(v / 1000)| == 1 + |Decimal(v / 10000)|;
    }
  }
}
