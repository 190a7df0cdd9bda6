/**
 * Where the answers to regular commands stand among the tokens in flight: replies are matched
 * with callbacks by arrival order alone, so everything depends on this order.
 */
module Alignment {
  import opened Common
  import opened InFlight

  /** The commands answered by the tokens, in order. */
  function RegTags(toks: seq<Token>): seq<nat> {
    if toks == [] then []
    else (if toks[0].TReg? then [toks[0].tag] else []) + RegTags(toks[1..])
  }

  /** Before the n-th answer there is no pub/sub token. */
  predicate Ahead(toks: seq<Token>, n: nat) {
    n == 0 || (toks != [] && !IsPubSub(toks[0]) && Ahead(toks[1..], if toks[0].TReg? then n - 1 else n))
  }

  /** Some push is met after at most n answers. */
  predicate PushWithin(toks: seq<Token>, n: nat) {
    toks != [] && (!toks[0].TReg? || (n > 0 && PushWithin(toks[1..], n - 1)))
  }

  predicate AllReg(toks: seq<Token>) {
    forall i :: 0 <= i < |toks| ==> toks[i].TReg?
  }

  lemma {:induction false} RegTagsAppend(a: seq<Token>, b: seq<Token>)
    ensures RegTags(a + b) == RegTags(a) + RegTags(b)
    decreases a
  {
    if a == [] {
      assert a + b == b;
    } else {
      assert (a + b)[0] == a[0] && (a + b)[1..] == a[1..] + b;
      RegTagsAppend(a[1..], b);
    }
  }

  lemma NoPubSubHead(toks: seq<Token>)
    requires toks != []
    ensures NoPubSub(toks) <==> !IsPubSub(toks[0]) && NoPubSub(toks[1..])
  {
    if !IsPubSub(toks[0]) && NoPubSub(toks[1..]) {
      forall i | 0 <= i < |toks|
        ensures !IsPubSub(toks[i])
      {
        if i > 0 { assert !IsPubSub(toks[1..][i - 1]); }
      }
    }
    if NoPubSub(toks) {
      forall i | 0 <= i < |toks[1..]|
        ensures !IsPubSub(toks[1..][i])
      {
        assert !IsPubSub(toks[i + 1]);
      }
    }
  }

  lemma NoPubSubAppend(a: seq<Token>, b: seq<Token>)
    ensures NoPubSub(a + b) <==> NoPubSub(a) && NoPubSub(b)
  {
    if NoPubSub(a + b) {
      forall i | 0 <= i < |a| ensures !IsPubSub(a[i]) { assert a[i] == (a + b)[i]; }
      forall i | 0 <= i < |b| ensures !IsPubSub(b[i]) { assert b[i] == (a + b)[|a| + i]; }
    }
  }

  /** How a concatenation is aligned: within its first part, or after all of it. */
  lemma {:induction false} AheadSplit(a: seq<Token>, b: seq<Token>, n: nat)
    ensures Ahead(a + b, n) <==>
            if |RegTags(a)| >= n then Ahead(a, n) else NoPubSub(a) && Ahead(b, n - |RegTags(a)|)
    decreases a
  {
    if a == [] {
      assert a + b == b;
    } else {
      assert (a + b)[0] == a[0] && (a + b)[1..] == a[1..] + b;
      NoPubSubHead(a);
      if n > 0 && !IsPubSub(a[0]) {
        AheadSplit(a[1..], b, if a[0].TReg? then n - 1 else n);
      }
    }
  }

  lemma {:induction false} PushSplit(a: seq<Token>, b: seq<Token>, n: nat)
    ensures PushWithin(a + b, n) <==>
            PushWithin(a, n) || (AllReg(a) && |a| <= n && PushWithin(b, n - |a|))
    decreases a
  {
    if a == [] {
      assert a + b == b;
    } else {
      assert (a + b)[0] == a[0] && (a + b)[1..] == a[1..] + b;
      if a[0].TReg? {
        if n > 0 {
          PushSplit(a[1..], b, n - 1);
        }
        AllRegHead(a);
      }
    }
  }

  lemma AllRegHead(a: seq<Token>)
    requires a != []
    ensures AllReg(a) <==> a[0].TReg? && AllReg(a[1..])
  {
    if a[0].TReg? && AllReg(a[1..]) {
      forall i | 0 <= i < |a|
        ensures a[i].TReg?
      {
        if i > 0 { assert a[1..][i - 1].TReg?; }
      }
    }
    if AllReg(a) {
      forall i | 0 <= i < |a[1..]| ensures a[1..][i].TReg? { assert a[i + 1].TReg?; }
    }
  }

  /** A token list with enough answers and no pub/sub token is aligned. */
  lemma {:induction false} QuietIsAhead(toks: seq<Token>, n: nat)
    requires NoPubSub(toks) && n <= |RegTags(toks)|
    ensures Ahead(toks, n)
    decreases toks
  {
    if n > 0 {
      NoPubSubHead(toks);
      QuietIsAhead(toks[1..], if toks[0].TReg? then n - 1 else n);
    }
  }

  /** Some push token in the list comes after at most all the answers. */
  lemma {:induction false} PushAmong(toks: seq<Token>)
    requires !AllReg(toks)
    ensures PushWithin(toks, |RegTags(toks)|)
    decreases toks
  {
    AllRegHead(toks);
    if toks[0].TReg? {
      PushAmong(toks[1..]);
    }
  }

  /** Token lists that may replace each other: the same answer, or pub/sub tokens on both sides. */
  predicate Interchangeable(x: seq<Token>, y: seq<Token>) {
    || (|x| == 1 && x[0].TReg? && y == x)
    || ((forall i :: 0 <= i < |x| ==> IsPubSub(x[i])) && (forall i :: 0 <= i < |y| ==> IsPubSub(y[i])) && (x == [] <==> y == []))
  }

  lemma {:induction false} PubSubHasNoTags(x: seq<Token>)
    requires forall i :: 0 <= i < |x| ==> IsPubSub(x[i])
    ensures RegTags(x) == []
    decreases x
  {
    if x != [] {
      assert IsPubSub(x[0]);
      forall i | 0 <= i < |x[1..]| ensures IsPubSub(x[1..][i]) { assert IsPubSub(x[i + 1]); }
      PubSubHasNoTags(x[1..]);
    }
  }

  /** Replacing tokens in the middle by interchangeable ones disturbs nothing. */
  lemma Interchange(a: seq<Token>, x: seq<Token>, y: seq<Token>, b: seq<Token>, n: nat)
    requires Interchangeable(x, y)
    ensures RegTags(a + x + b) == RegTags(a + y + b)
    ensures Ahead(a + x + b, n) ==> Ahead(a + y + b, n)
    ensures PushWithin(a + x + b, n) ==> PushWithin(a + y + b, n)
    ensures NoPubSub(a + x + b) ==> NoPubSub(a + y + b)
  {
    if y != x {
      assert IsPubSub(x[0]) && IsPubSub(y[0]);
      PubSubHasNoTags(x);
      PubSubHasNoTags(y);
      assert a + x + b == a + (x + b) && a + y + b == a + (y + b);
      RegTagsAppend(a, x + b);
      RegTagsAppend(x, b);
      RegTagsAppend(a, y + b);
      RegTagsAppend(y, b);
      AheadSplit(a, x + b, n);
      AheadSplit(a, y + b, n);
      PushSplit(a, x + b, n);
      PushSplit(a, y + b, n);
      NoPubSubAppend(a, x + b);
      assert (x + b)[0] == x[0] && (y + b)[0] == y[0];
    }
  }

  /** A token that is no answer may be put in, if all the answers looked for come first or it is no pub/sub token. */
  lemma Insert(a: seq<Token>, tok: Token, b: seq<Token>, n: nat)
    requires !tok.TReg?
    ensures RegTags(a + [tok] + b) == RegTags(a + b)
    ensures PushWithin(a + b, n) ==> PushWithin(a + [tok] + b, n)
    ensures Ahead(a + b, n) && (|RegTags(a)| >= n || tok.TOther?) ==> Ahead(a + [tok] + b, n)
    ensures NoPubSub(a + b) && tok.TOther? ==> NoPubSub(a + [tok] + b)
  {
    assert a + [tok] + b == a + ([tok] + b);
    var r := [tok] + b;
    assert r[0] == tok && r[1..] == b;
    assert RegTags(r) == RegTags(b);
    RegTagsAppend(a, r);
    RegTagsAppend(a, b);
    AheadSplit(a, r, n);
    AheadSplit(a, b, n);
    PushSplit(a, r, n);
    PushSplit(a, b, n);
    NoPubSubAppend(a, r);
    NoPubSubAppend(a, b);
    NoPubSubHead(r);
  }
}
