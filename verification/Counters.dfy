/**
 * When the reader's counters are wide enough. The number of elements of an aggregate is a signed 64-bit
 * number that a map doubles, and so is the length of a bulk, to which two is added; the index of an
 * element, the length of a line and the size of the task array are ints (deps/hiredis/read.h:76-110,
 * read.c:223-266, 396-491, 515-536), and the reader checks none of these steps. Which limits `maxelements`
 * and which streams are safe is proved here exactly.
 */
module Counters {
  import opened Common
  import opened Num
  import opened Resp
  import opened Resumption
  import opened Format

  /** No announced count is so large that a map overflows by doubling it. */
  predicate DoublingFits(cfg: Config) {
    0 < cfg.maxElements <= LLONG_MAX / 2
  }

  /** No aggregate may have more elements than an int can index. */
  predicate IndicesFit(cfg: Config) {
    0 < cfg.maxElements <= (INT_MAX + 1) / 2
  }

  /** Either a stream is too short to spell out more elements than an int counts, or the limit is. */
  predicate Countable(cfg: Config, len: nat) {
    DoublingFits(cfg) && (len <= INT_MAX || IndicesFit(cfg))
  }

  /** A parse that did not end because a counter overflowed, where it can be known not to. */
  predicate Counted(cfg: Config, depth: nat, len: nat, p: Parsed) {
    && (Countable(cfg, len) ==> p != Fail(CountOverflow))
    && (len <= INT_MAX ==> p != Fail(LineOverflow))
    && (2 * depth + len <= INT_MAX ==> p != Fail(DepthOverflow))
  }

  lemma {:induction false} ItemCounted(cfg: Config, depth: nat, s: string)
    ensures Counted(cfg, depth, |s|, ParseItem(cfg, depth, s))
    decreases |s|, 0
  {
    hide ReadHead;
    if s != "" && TypeOf(s[0]).Some? {
      BodyCounted(cfg, depth, TypeOf(s[0]).value, s[1..]);
    }
  }

  lemma {:induction false} BodyCounted(cfg: Config, depth: nat, t: ItemType, s: string)
    ensures Counted(cfg, depth, |s| + 1, ParseBody(cfg, depth, t, s))
    decreases |s|, 2
  {
    hide ReadHead, ParseItems;
    HeadCounted(cfg, depth, t, s);
    var h := ReadHead(cfg, depth, t, s);
    if h.Open? {
      ItemsCounted(cfg, depth + 1, 0, h.n, h.rest);
    }
  }

  lemma HeadCounted(cfg: Config, depth: nat, t: ItemType, s: string)
    ensures var h := ReadHead(cfg, depth, t, s);
      DoublingFits(cfg) ==> h != HeadFail(CountOverflow) && (h.Open? ==> h.n <= 2 * cfg.maxElements)
    ensures |s| <= INT_MAX ==> ReadHead(cfg, depth, t, s) != HeadFail(LineOverflow)
    ensures 2 * depth <= INT_MAX ==> ReadHead(cfg, depth, t, s) != HeadFail(DepthOverflow)
  {
    hide FindCrlf, ParseLL;
  }

  lemma {:induction false} ItemsCounted(cfg: Config, depth: nat, idx: nat, n: nat, s: string)
    ensures var p := ParseItems(cfg, depth, idx, n, s);
      DoublingFits(cfg) && (idx + |s| <= INT_MAX || (IndicesFit(cfg) && idx + n <= INT_MAX + 1))
      ==> p != FailItems(CountOverflow)
    ensures |s| <= INT_MAX ==> ParseItems(cfg, depth, idx, n, s) != FailItems(LineOverflow)
    ensures 2 * depth + |s| <= INT_MAX ==> ParseItems(cfg, depth, idx, n, s) != FailItems(DepthOverflow)
    decreases |s|, 1
  {
    hide ParseItem;
    if n > 0 {
      ItemCounted(cfg, depth, s);
      var p := ParseItem(cfg, depth, s);
      if p.Done? {
        ItemsCounted(cfg, depth, idx + 1, n - 1, p.rest);
      }
    }
  }

  lemma {:induction false} StreamCounted(cfg: Config, s: string)
    ensures Countable(cfg, |s|) ==> ParseAll(cfg, s).error != Some(CountOverflow)
    ensures |s| <= INT_MAX ==> ParseAll(cfg, s).error !in {Some(LineOverflow), Some(DepthOverflow)}
    decreases |s|
  {
    hide ParseItem;
    ItemCounted(cfg, 0, s);
    var p := ParseItem(cfg, 0, s);
    if p.Done? {
      StreamCounted(cfg, p.rest);
    }
  }

  // ----- streams that overflow -----

  /** A map header, and what follows it. */
  function MapOf(n: nat, tail: string): string {
    ['%'] + (Decimal(n) + CRLF + tail)
  }

  lemma HeadOfMap(cfg: Config, n: nat, tail: string)
    requires 0 < n <= LLONG_MAX && Admitted(cfg, n)
    ensures ReadHead(cfg, 0, TAgg(Map), Decimal(n) + CRLF + tail)
         == if 2 * n > LLONG_MAX then HeadFail(CountOverflow) else Open(Map, 2 * n, tail)
  {
    hide Decimal, FindCrlf, ParseLL, Pow10;
    LineParts(n, tail);
    ParseOfDecimal(n);
    NineteenDigits();
    DigitBound(n, 19);
  }

  lemma MapItem(cfg: Config, n: nat, tail: string)
    requires 0 < n <= LLONG_MAX && Admitted(cfg, n)
    requires 2 * n > LLONG_MAX || ParseItems(cfg, 1, 0, 2 * n, tail) == FailItems(CountOverflow)
    ensures ParseAll(cfg, MapOf(n, tail)).error == Some(CountOverflow)
  {
    hide Decimal, ReadHead, ParseItems;
    HeadOfMap(cfg, n, tail);
    var s := MapOf(n, tail);
    assert s[0] == '%' && s[1..] == Decimal(n) + CRLF + tail;
    assert ParseItem(cfg, 0, s) == ParseBody(cfg, 0, TAgg(Map), s[1..]);
  }

  /** `k` null items. */
  function Nulls(k: nat): string {
    if k == 0 then "" else "_\r\n" + Nulls(k - 1)
  }

  lemma OneNull(cfg: Config, depth: nat, rest: string)
    ensures ParseItem(cfg, depth, "_\r\n" + rest) == Done(Nil, rest)
  {
    var s := "_\r\n" + rest;
    var t := s[1..];
    assert s[0] == '_' && CrlfAt(t, 0) && t[..0] == "" && t[2..] == rest;
    assert FindCrlf(t) == Some(0);
    assert ReadHead(cfg, depth, TNil, t) == Leaf(Nil, rest);
  }

  /** An aggregate that announces more elements than an int can index, and gets them. */
  lemma {:induction false} TooManyNulls(cfg: Config, depth: nat, idx: nat, n: nat, k: nat)
    requires idx + k == INT_MAX + 1 && n > k
    ensures ParseItems(cfg, depth, idx, n, Nulls(k)) == FailItems(CountOverflow)
    decreases k
  {
    hide ParseItem;
    if k > 0 {
      OneNull(cfg, depth, Nulls(k - 1));
      TooManyNulls(cfg, depth, idx + 1, n - 1, k - 1);
    }
  }

  /** `maxelements` 0 (no limit), or one so large that it admits a map whose doubled count is no int64. */
  lemma DoublingOverflows(cfg: Config) returns (s: string)
    requires !DoublingFits(cfg)
    ensures |s| <= INT_MAX && ParseAll(cfg, s).error == Some(CountOverflow)
  {
    hide Decimal, ParseAll, ParseItems, Pow10;
    var n := LLONG_MAX / 2 + 1;
    s := MapOf(n, "");
    NineteenDigits();
    DigitBound(n, 19);
    MapItem(cfg, n, "");
  }

  /** Any limit above 2^30 admits a map with more elements than an int can index. */
  lemma IndexOverflows(cfg: Config) returns (s: string)
    requires !IndicesFit(cfg)
    ensures ParseAll(cfg, s).error == Some(CountOverflow)
  {
    hide ParseAll, ParseItems, Nulls;
    var k := INT_MAX + 1;
    var n := k / 2 + 1;
    TooManyNulls(cfg, 1, 0, 2 * n, k);
    s := MapOf(n, Nulls(k));
    MapItem(cfg, n, Nulls(k));
  }

  /** `k` arrays of one element, each inside the one before, and the beginning of another. */
  function Nested(k: nat): string {
    if k == 0 then "*" else "*1\r\n" + Nested(k - 1)
  }

  lemma OneArray(cfg: Config, depth: nat, rest: string)
    requires depth < MAX_DEPTH
    ensures ParseItem(cfg, depth + 1, rest).Fail? ==> ParseItem(cfg, depth, "*1\r\n" + rest) == ParseItem(cfg, depth + 1, rest)
  {
    hide FindCrlf, ParseLL, Decimal;
    var s := "*1\r\n" + rest;
    assert s[0] == '*' && s[1..] == "1" + CRLF + rest;
    DecimalOfOne();
    HeadOfArray(cfg, depth, 1, rest);
    assert ReadHead(cfg, depth, TAgg(Array), s[1..]) == Open(Array, 1, rest);
    assert ParseItem(cfg, depth, s) == ParseBody(cfg, depth, TAgg(Array), s[1..]);
  }

  lemma DecimalOfOne()
    ensures Decimal(1) == "1"
  {
  }

  lemma {:induction false} TooDeep(cfg: Config, depth: nat, k: nat)
    requires depth + k == MAX_DEPTH
    ensures ParseItem(cfg, depth, Nested(k)) == Fail(DepthOverflow)
    decreases k
  {
    hide ParseItem;
    if k > 0 {
      OneArray(cfg, depth, Nested(k - 1));
      TooDeep(cfg, depth + 1, k - 1);
    } else {
      DeepestFails(cfg, depth);
    }
  }

  lemma DeepestFails(cfg: Config, depth: nat)
    requires depth >= MAX_DEPTH
    ensures ParseItem(cfg, depth, "*") == Fail(DepthOverflow)
  {
    assert "*"[0] == '*' && ReadHead(cfg, depth, TAgg(Array), "*"[1..]) == HeadFail(DepthOverflow);
    assert ParseItem(cfg, depth, "*") == ParseBody(cfg, depth, TAgg(Array), "*"[1..]);
  }

  /** Whatever the limit, deep nesting makes the size of the task array overflow. */
  lemma DepthOverflows(cfg: Config) returns (s: string)
    ensures ParseAll(cfg, s).error == Some(DepthOverflow)
  {
    hide ParseItem, Nested;
    s := Nested(MAX_DEPTH);
    TooDeep(cfg, 0, MAX_DEPTH);
  }

  /** Whatever the limit, a long line does not fit the int that measures it. */
  lemma LineOverflows(cfg: Config, line: string)
    requires |line| > INT_MAX - 2 && '\r' !in line
    ensures ParseAll(cfg, "+" + line + CRLF).error == Some(LineOverflow)
  {
    hide FindCrlf;
    var t := "+" + line + CRLF;
    var s := line + CRLF;
    assert t[0] == '+' && t[1..] == s;
    assert CrlfAt(s, |line|) && s[..|line|] == line;
    FirstCrlf(s, |line|);
    assert ReadHead(cfg, 0, TStatus, s) == HeadFail(LineOverflow);
    assert ParseItem(cfg, 0, t) == ParseBody(cfg, 0, TStatus, s);
  }

  lemma FirstCrlf(s: string, i: nat)
    requires CrlfAt(s, i) && '\r' !in s[..i]
    ensures FindCrlf(s) == Some(i)
  {
    forall j | 0 <= j < i
      ensures !CrlfAt(s, j)
    {
      assert s[..i][j] == s[j];
    }
  }

  // ----- exactly when the length of a bulk overflows -----

  /** A string or verbatim header that announces one of the two lengths to which two cannot be added. */
  ghost predicate HugeHeader(h: string) {
    exists n: nat :: HeaderOf(h, n)
  }

  predicate HeaderOf(h: string, n: nat) {
    LLONG_MAX - 1 <= n <= LLONG_MAX && h != "" && (h[0] == '$' || h[0] == '=') && h[1..] == Decimal(n) + CRLF
  }

  /** After these bytes the reader is about to read the type byte of an item. */
  ghost predicate AtItem(cfg: Config, p: string) {
    exists em: seq<Reply>, st: seq<Frame> :: AllOpen(st) && Faithful(cfg, p, em, st, None, "")
  }

  ghost predicate HugeAt(cfg: Config, s: string, p: string, h: string, x: string) {
    s == p + h + x && HugeHeader(h) && AtItem(cfg, p)
  }

  /** A huge header stands where an item begins. */
  ghost predicate HugeAtItem(cfg: Config, s: string) {
    exists p, h, x :: HugeAt(cfg, s, p, h, x)
  }

  lemma HugeFails(cfg: Config, depth: nat, t: ItemType, n: nat, x: string)
    requires (t.TString? || t.TVerb?) && LLONG_MAX - 1 <= n <= LLONG_MAX
    ensures ReadHead(cfg, depth, t, Decimal(n) + CRLF + x) == HeadFail(LengthOverflow)
  {
    hide Decimal, FindCrlf, ParseLL;
    LineParts(n, x);
    ParseOfDecimal(n);
  }

  lemma HugeStops(cfg: Config, s: string, p: string, h: string, x: string)
    requires HugeAt(cfg, s, p, h, x)
    ensures ParseAll(cfg, s).error == Some(LengthOverflow)
  {
    hide ParseAll, Remaining, ReadHead, Decimal, Faithful, TypeOf;
    var em: seq<Reply>, st: seq<Frame> :| AllOpen(st) && Faithful(cfg, p, em, st, None, "");
    var n: nat :| HeaderOf(h, n);
    var b := h + x;
    assert p + h + x == p + b;
    assert b[0] == h[0] && b[1..] == h[1..] + x;
    BulkTypes(b[0]);
    ParsedFrom(cfg, p, em, st, b);
    TypeStep(cfg, st, b);
    HugeFails(cfg, |st|, TypeOf(b[0]).value, n, x);
    HeadStep(cfg, st, TypeOf(b[0]).value, b[1..]);
  }

  lemma BulkTypes(c: char)
    ensures TypeOf(c).Some? && (TypeOf(c).value.TString? || TypeOf(c).value.TVerb?) <==> c == '$' || c == '='
  {
  }

  /** What the stream yields from an item on. */
  lemma ParsedFrom(cfg: Config, p: string, em: seq<Reply>, st: seq<Frame>, b: string)
    requires Faithful(cfg, p, em, st, None, "")
    ensures ParseAll(cfg, p + b) == Prefixed(em, Remaining(cfg, st, None, b))
  {
    hide ParseAll, Remaining;
    assert "" + b == b;
  }

  lemma OnlyBulks(cfg: Config, depth: nat, t: ItemType, s: string)
    requires ReadHead(cfg, depth, t, s) == HeadFail(LengthOverflow)
    ensures t.TString? || t.TVerb?
  {
    hide FindCrlf, ParseLL, MakeBulk;
  }

  /** Only a huge header makes the length of a bulk overflow. */
  lemma OnlyHugeFails(cfg: Config, depth: nat, c: char, s: string) returns (n: nat, x: string)
    requires TypeOf(c).Some? && ReadHead(cfg, depth, TypeOf(c).value, s) == HeadFail(LengthOverflow)
    ensures HeaderOf([c] + Decimal(n) + CRLF, n) && s == Decimal(n) + CRLF + x
  {
    hide FindCrlf, ParseLL, Decimal, TypeOf;
    OnlyBulks(cfg, depth, TypeOf(c).value, s);
    BulkTypes(c);
    var i := FindCrlf(s).value;
    n, x := ParseLL(s[..i]).value, s[i + 2..];
    ParseLLCanonical(s[..i], n);
    assert s == s[..i] + CRLF + s[i + 2..];
    var h := [c] + Decimal(n) + CRLF;
    assert h[0] == c && h[1..] == Decimal(n) + CRLF;
  }

  lemma CrlfInPrefix(s: string, i: nat, m: nat)
    requires FindCrlf(s) == Some(i) && i + 2 <= m <= |s|
    ensures FindCrlf(s[..m]) == Some(i) && s[..m][..i] == s[..i] && s[..m][i + 2..] == s[i + 2..m]
  {
    hide FindCrlf;
    var c := s[..m];
    assert CrlfAt(c, i);
    forall j | 0 <= j < i
      ensures !CrlfAt(c, j)
    {
      assert !CrlfAt(s, j);
    }
  }

  /** A head takes a prefix of the bytes, and would be the same without the rest. */
  lemma ReadHeadExact(cfg: Config, depth: nat, t: ItemType, s: string) returns (m: nat)
    requires ReadHead(cfg, depth, t, s).Leaf? || ReadHead(cfg, depth, t, s).Open?
    ensures m <= |s| && ReadHead(cfg, depth, t, s).rest == s[m..]
    ensures ReadHead(cfg, depth, t, s[..m]) == ReadHead(cfg, depth, t, s).(rest := "")
  {
    hide FindCrlf, ParseLL, MakeBulk, ParseLine;
    var i := FindCrlf(s).value;
    m := i + 2;
    if t.TString? || t.TVerb? {
      var len := ParseLL(s[..i]).value;
      if len >= 0 {
        m := i + 2 + (len + 2);
        assert s[i + 2..][len + 2..] == s[m..];
        assert s[i + 2..m][..len] == s[i + 2..][..len];
      }
    }
    CrlfInPrefix(s, i, m);
  }

  /** The reader after one item more, with nothing left unread. */
  lemma NextItem(cfg: Config, p: string, em: seq<Reply>, st: seq<Frame>, s: string, m: nat)
    requires AllOpen(st) && Faithful(cfg, p, em, st, None, "") && s != "" && TypeOf(s[0]).Some? && m + 1 <= |s|
    ensures Faithful(cfg, p + s[..m + 1], em, st, TypeOf(s[0]), s[1..m + 1])
  {
    hide Faithful;
    var c := s[..m + 1];
    FaithfulFeed(cfg, p, em, st, None, "", c);
    assert "" + c == c && c[0] == s[0] && c[1..] == s[1..m + 1];
    FaithfulTypeByte(cfg, p + c, em, st, c);
  }

  /** From an item on: if the length of a bulk overflows, there is a huge header where an item begins. */
  lemma {:induction false} FindHuge(cfg: Config, p: string, em: seq<Reply>, st: seq<Frame>, s: string)
    requires AllOpen(st) && Faithful(cfg, p, em, st, None, "")
    requires Remaining(cfg, st, None, s).error == Some(LengthOverflow)
    ensures HugeAtItem(cfg, p + s)
    decreases |s|, 0
  {
    hide Faithful, ParseAll, Resume, ReadHead, Deliver, FaithfulRoot, Broken, HugeHeader, HugeAt, Decimal;
    if s == "" {
      NothingUnread(cfg, st, None);
    } else {
      TypeStep(cfg, st, s);
      var t, b := TypeOf(s[0]).value, s[1..];
      HeadStep(cfg, st, t, b);
      var h := ReadHead(cfg, |st|, t, b);
      if h.HeadFail? {
        var n, x := OnlyHugeFails(cfg, |st|, s[0], b);
        HugeHere(cfg, p, em, st, s, n, x);
      } else {
        var m := ReadHeadExact(cfg, |st|, t, b);
        assert s[1..m + 1] == b[..m];
        NextItem(cfg, p, em, st, s, m);
        var p' := p + s[..m + 1];
        assert p' + b[m..] == p + s by { assert s[..m + 1] + b[m..] == s; }
        FaithfulHead(cfg, p', em, st, t, b[..m]);
        if h.Open? {
          FindHuge(cfg, p', em, st + [Frame(h.kind, h.n, [])], h.rest);
        } else {
          FindBehind(cfg, p', em, Deliver(st, h.reply), h.rest);
        }
      }
    }
  }

  lemma HugeHere(cfg: Config, p: string, em: seq<Reply>, st: seq<Frame>, s: string, n: nat, x: string)
    requires AllOpen(st) && Faithful(cfg, p, em, st, None, "") && s != ""
    requires HeaderOf([s[0]] + Decimal(n) + CRLF, n) && s[1..] == Decimal(n) + CRLF + x
    ensures HugeAtItem(cfg, p + s)
  {
    hide Faithful, Decimal;
    var h := [s[0]] + Decimal(n) + CRLF;
    assert s == [s[0]] + s[1..] == h + x;
    assert HugeAt(cfg, p + s, p, h, x);
  }

  /** The same once a reply has been delivered. */
  lemma {:induction false} FindBehind(cfg: Config, p: string, em: seq<Reply>, d: Delivered, s: string)
    requires FaithfulDelivery(cfg, p, em, d, "")
    requires After(cfg, Delivering(cfg, d, s)).error == Some(LengthOverflow)
    ensures HugeAtItem(cfg, p + s)
    decreases |s|, 1
  {
    hide Faithful, ParseAll, Resume, FaithfulRoot, Broken, HugeAtItem;
    match d
    case Root(root) =>
      FaithfulEmit(cfg, p, em, root, "");
      RemainingAtRoot(cfg, s);
      FindHuge(cfg, p, em + [root], [], s);
    case Next(stack) => FindHuge(cfg, p, em, stack, s);
    case TooMany =>
  }

  /** On every stream: the length of a bulk overflows iff a huge header stands where an item begins. */
  lemma LengthOverflowExactly(cfg: Config, s: string)
    ensures ParseAll(cfg, s).error == Some(LengthOverflow) <==> HugeAtItem(cfg, s)
  {
    hide ParseAll, Resume, HugeAt;
    if HugeAtItem(cfg, s) {
      var p, h, x :| HugeAt(cfg, s, p, h, x);
      HugeStops(cfg, s, p, h, x);
    }
    if ParseAll(cfg, s).error == Some(LengthOverflow) {
      StartsAtItem(cfg);
      RemainingAtRoot(cfg, s);
      FindHuge(cfg, "", [], [], s);
      assert "" + s == s;
    }
  }

  lemma StartsAtItem(cfg: Config)
    ensures Faithful(cfg, "", [], [], None, "")
  {
    hide ParseAll, Remaining;
    forall x: string
      ensures ParseAll(cfg, "" + x) == Prefixed([], Remaining(cfg, [], None, "" + x))
    {
      RemainingAtRoot(cfg, x);
      assert "" + x == x && [] + ParseAll(cfg, x).replies == ParseAll(cfg, x).replies;
    }
  }

  /** Whatever the limit, 22 bytes make it overflow. */
  lemma LengthOverflows(cfg: Config) returns (s: string)
    ensures |s| <= 22 && ParseAll(cfg, s).error == Some(LengthOverflow)
  {
    hide ParseAll, Faithful, Decimal, Pow10;
    s := ['$'] + (Decimal(LLONG_MAX) + CRLF);
    NineteenDigits();
    DigitBound(LLONG_MAX, 19);
    StartsAtItem(cfg);
    var line := Decimal(LLONG_MAX) + CRLF;
    assert s[0] == '$' && s[1..] == line == line + "" && "" + s == s;
    assert (['$'] + Decimal(LLONG_MAX) + CRLF)[1..] == line;
    HugeHere(cfg, "", [], [], s, LLONG_MAX, "");
    LengthOverflowExactly(cfg, s);
  }

  // ----- the exact conditions -----

  predicate Overflowed(e: Option<ReadError>) {
    e in {Some(CountOverflow), Some(LineOverflow), Some(LengthOverflow), Some(DepthOverflow)}
  }

  /** No stream whatsoever makes the count or the index of elements overflow iff the limit is at most 2^30. */
  lemma SafeOnAllStreams(cfg: Config)
    ensures (forall s: string :: ParseAll(cfg, s).error != Some(CountOverflow)) <==> IndicesFit(cfg)
  {
    hide ParseAll;
    if IndicesFit(cfg) {
      forall s: string
        ensures ParseAll(cfg, s).error != Some(CountOverflow)
      {
        StreamCounted(cfg, s);
      }
    } else {
      var s := IndexOverflows(cfg);
    }
  }

  /**
   * On streams below 2 GiB nothing overflows but by a huge header where an item begins, iff there is a
   * limit and it is not above half of LLONG_MAX.
   */
  lemma SafeOnShortStreams(cfg: Config)
    ensures (forall s: string :: |s| <= INT_MAX ==> (Overflowed(ParseAll(cfg, s).error) <==> HugeAtItem(cfg, s)))
      <==> DoublingFits(cfg)
  {
    hide ParseAll, HugeAtItem;
    if DoublingFits(cfg) {
      forall s: string | |s| <= INT_MAX
        ensures Overflowed(ParseAll(cfg, s).error) <==> HugeAtItem(cfg, s)
      {
        StreamCounted(cfg, s);
        LengthOverflowExactly(cfg, s);
      }
    } else {
      var s := DoublingOverflows(cfg);
      LengthOverflowExactly(cfg, s);
      assert |s| <= INT_MAX && Overflowed(ParseAll(cfg, s).error) && !HugeAtItem(cfg, s);
    }
  }
}
