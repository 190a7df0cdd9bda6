/**
 * Command formatting, after deps/hiredis/hiredis.c:299-678, and the second, ad-hoc parser of
 * formatted commands, `nextArgument` (deps/hiredis/async.c:817-829).
 *
 * `Encode` is the protocol form of an argument list. The formatters are proved to produce it in
 * exactly the number of bytes they predict; the reader's grammar and `nextArgument` are both
 * proved to get the arguments back.
 */
module Format {
  import opened Common
  import opened Num
  import opened Resp

  const CRLF := "\r\n"

  /** A bulk string on the wire. */
  function Bulk(a: string): string {
    "$" + Decimal(|a|) + CRLF + a + CRLF
  }

  function Bulks(args: seq<string>): string {
    if args == [] then "" else Bulk(args[0]) + Bulks(args[1..])
  }

  /** A command on the wire: an array of bulk strings. */
  function Encode(args: seq<string>): string {
    "*" + Decimal(|args|) + CRLF + Bulks(args)
  }

  lemma {:induction false} BulksAppend(args: seq<string>, more: seq<string>)
    ensures Bulks(args + more) == Bulks(args) + Bulks(more)
  {
    if args == [] {
      assert args + more == more;
    } else {
      assert (args + more)[0] == args[0] && (args + more)[1..] == args[1..] + more;
      BulksAppend(args[1..], more);
    }
  }

  lemma BulksSnoc(args: seq<string>, k: nat)
    requires k < |args|
    ensures Bulks(args[..k + 1]) == Bulks(args[..k]) + Bulk(args[k])
  {
    assert args[..k + 1] == args[..k] + [args[k]];
    BulksAppend(args[..k], [args[k]]);
    assert [args[k]][1..] == [];
  }

  /** The number of arguments is a C int, and every length fits the 64-bit decimal the protocol uses. */
  predicate Encodable(args: seq<string>) {
    |args| <= INT_MAX && forall a :: a in args ==> |a| <= LLONG_MAX
  }

  /** `bulklen` (hiredis.c:312-314). */
  method BulkLen(len: nat) returns (n: nat)
    requires len <= LLONG_MAX
    ensures forall a: string :: |a| == len ==> n == |Bulk(a)|
  {
    var digits := CountDigits(len);
    n := 1 + digits + 2 + len + 2;
  }

  /** The size prediction shared by the argv formatters: it is exact. */
  method PredictLength(args: seq<string>) returns (totlen: nat)
    requires Encodable(args)
    ensures totlen == |Encode(args)|
  {
    var digits := CountDigits(|args|);
    totlen := 1 + digits + 2;
    for j := 0 to |args|
      invariant totlen == 1 + |Decimal(|args|)| + 2 + |Bulks(args[..j])|
    {
      var n := BulkLen(|args[j]|);
      BulksSnoc(args, j);
      totlen := totlen + n;
    }
    assert args[..|args|] == args;
  }

  /** sprintf() and memcpy() at a moving position. */
  method Put(cmd: array<char>, pos: nat, s: string) returns (newPos: nat)
    requires pos + |s| <= cmd.Length
    modifies cmd
    ensures newPos == pos + |s|
    ensures cmd[..newPos] == old(cmd[..pos]) + s
  {
    for i := 0 to |s|
      invariant cmd[..pos + i] == old(cmd[..pos]) + s[..i]
    {
      cmd[pos + i] := s[i];
    }
    assert s[..|s|] == s;
    newPos := pos + |s|;
  }

  /** One round of the argument loops: length line, payload, CR LF. */
  method PutBulk(cmd: array<char>, pos: nat, a: string) returns (newPos: nat)
    requires pos + |Bulk(a)| <= cmd.Length
    modifies cmd
    ensures newPos == pos + |Bulk(a)|
    ensures cmd[..newPos] == old(cmd[..pos]) + Bulk(a)
  {
    newPos := Put(cmd, pos, "$" + Decimal(|a|) + CRLF);
    newPos := Put(cmd, newPos, a);
    newPos := Put(cmd, newPos, CRLF);
  }

  /** The wire form of the first `j` of the arguments. */
  function EncodePrefix(args: seq<string>, j: nat): string
    requires j <= |args|
  {
    "*" + Decimal(|args|) + CRLF + Bulks(args[..j])
  }

  /** The building loop shared by `redisFormatCommandArgv` and `redisvFormatCommand`. */
  method Build(args: seq<string>, totlen: nat) returns (cmd: array<char>)
    requires totlen == |Encode(args)|
    ensures fresh(cmd) && cmd.Length == totlen + 1
    ensures cmd[..totlen] == Encode(args) && cmd[totlen] == '\0'
  {
    cmd := new char[totlen + 1];
    PrefixFits(args, 0);
    assert args[..0] == [];
    var pos: nat := Put(cmd, 0, "*" + Decimal(|args|) + CRLF);
    assert EncodePrefix(args, 0) == "*" + Decimal(|args|) + CRLF;
    for j := 0 to |args|
      invariant 0 <= pos <= cmd.Length
      invariant cmd[..pos] == EncodePrefix(args, j)
    {
      PrefixStep(args, j);
      PrefixFits(args, j + 1);
      pos := PutBulk(cmd, pos, args[j]);
    }
    assert args[..|args|] == args;
    assert pos == totlen;
    cmd[pos] := '\0';
  }

  /** `redisFormatCommandArgv` (hiredis.c:642-678): fills a buffer of the predicted size. */
  method FormatCommandArgv(args: seq<string>) returns (cmd: array<char>, totlen: nat)
    requires Encodable(args)
    ensures fresh(cmd) && cmd.Length == totlen + 1
    ensures cmd[..totlen] == Encode(args) && cmd[totlen] == '\0'
  {
    totlen := PredictLength(args);
    cmd := Build(args, totlen);
  }

  lemma PrefixStep(args: seq<string>, j: nat)
    requires j < |args|
    ensures EncodePrefix(args, j + 1) == EncodePrefix(args, j) + Bulk(args[j])
  {
    BulksSnoc(args, j);
  }

  lemma PrefixFits(args: seq<string>, j: nat)
    requires j <= |args|
    ensures |EncodePrefix(args, j)| <= |Encode(args)|
  {
    assert args == args[..j] + args[j..];
    BulksAppend(args[..j], args[j..]);
  }

  /** `redisFormatSdsCommandArgv` (hiredis.c:586-631): the same bytes, by appending. */
  method FormatSdsCommandArgv(args: seq<string>) returns (cmd: string, totlen: nat)
    requires Encodable(args)
    ensures cmd == Encode(args) && totlen == |cmd|
  {
    totlen := PredictLength(args);
    cmd := "*" + Decimal(|args|) + CRLF;
    assert args[..0] == [];
    assert cmd == EncodePrefix(args, 0);
    for j := 0 to |args|
      invariant cmd == EncodePrefix(args, j)
    {
      PrefixStep(args, j);
      cmd := AppendBulk(cmd, args[j]);
    }
    assert args[..|args|] == args;
  }

  /** One round of its loop: three appends. */
  method AppendBulk(cmd: string, a: string) returns (r: string)
    ensures r == cmd + Bulk(a)
  {
    r := cmd + ("$" + Decimal(|a|) + CRLF);
    r := r + a;
    r := r + CRLF;
  }

  // ----- Reading a command back with the reply grammar -----

  function AsReplies(args: seq<string>): seq<Reply> {
    seq(|args|, i requires 0 <= i < |args| => Str(args[i]))
  }

  /** A decimal line: the first CR LF is the one that ends it. */
  lemma LineEnd(n: nat, tail: string)
    ensures FindCrlf(Decimal(n) + CRLF + tail) == Some(|Decimal(n)|)
  {
    var s := Decimal(n) + CRLF + tail;
    assert CrlfAt(s, |Decimal(n)|);
    forall i | 0 <= i < |Decimal(n)|
      ensures !CrlfAt(s, i)
    {
      assert IsDigit(s[i]);
    }
    match FindCrlf(s)
    case None =>
    case Some(i) => assert CrlfAt(s, i);
  }

  /** The reader adds two to the length of a bulk, in 64 bits. */
  predicate Readable(a: string) {
    |a| <= LLONG_MAX - 2
  }

  predicate AllReadable(args: seq<string>) {
    forall a :: a in args ==> Readable(a)
  }

  lemma BulkPayload(line: string, after: string, n: nat)
    requires ParseLL(line) == Some(n) && n + 2 <= |after|
    ensures BulkHead(TString, line, after)
         == if n <= LLONG_MAX - 2 then Leaf(Str(after[..n]), after[n + 2..]) else HeadFail(LengthOverflow)
  {
    hide ParseLL;
  }

  lemma BulkHeadReads(a: string, tail: string)
    requires |a| <= LLONG_MAX
    ensures BulkHead(TString, Decimal(|a|), a + CRLF + tail)
         == if Readable(a) then Leaf(Str(a), tail) else HeadFail(LengthOverflow)
  {
    hide Decimal, ParseLL, BulkHead;
    var after := a + CRLF + tail;
    ParseOfDecimal(|a|);
    BulkPayload(Decimal(|a|), after, |a|);
    assert after[..|a|] == a;
    assert after[|a| + 2..] == tail;
  }

  lemma Regroup(x: string, d: string, c: string, a: string, tail: string)
    ensures x + d + c + a + c + tail == x + (d + c + (a + c + tail))
  {
    var dc, act := d + c, a + c + tail;
    Assoc(x, d, c);
    assert x + d + c == x + dc;
    Assoc(x + dc, a, c);
    Assoc(x + dc, a + c, tail);
    assert x + dc + a + c + tail == x + dc + act;
    Assoc(x, dc, act);
  }

  lemma BulkAsLine(a: string, tail: string)
    ensures Bulk(a) + tail == ['$'] + (Decimal(|a|) + CRLF + (a + CRLF + tail))
  {
    hide Decimal;
    Regroup(['$'], Decimal(|a|), CRLF, a, tail);
  }

  lemma LineParts(n: nat, after: string)
    ensures var s, k := Decimal(n) + CRLF + after, |Decimal(n)|;
            FindCrlf(s) == Some(k) && s[..k] == Decimal(n) && s[k + 2..] == after
  {
    LineEnd(n, after);
    hide Decimal, FindCrlf;
  }

  lemma HeadOfBulk(cfg: Config, depth: nat, a: string, tail: string)
    requires |a| <= LLONG_MAX
    ensures ParseItem(cfg, depth, Bulk(a) + tail) == if Readable(a) then Done(Str(a), tail) else Fail(LengthOverflow)
  {
    hide Bulk, Decimal, FindCrlf, BulkHead, ParseItem, Readable;
    var after := a + CRLF + tail;
    BulkAsLine(a, tail);
    LineParts(|a|, after);
    BulkHeadReads(a, tail);
    BulkOfLine(cfg, depth, Bulk(a) + tail, Decimal(|a|) + CRLF + after, |Decimal(|a|)|);
  }

  /** A bulk item is read as its line and payload are. */
  lemma BulkOfLine(cfg: Config, depth: nat, t: string, s: string, k: nat)
    requires t == ['$'] + s && FindCrlf(s) == Some(k)
    ensures var h := BulkHead(TString, s[..k], s[k + 2..]);
      && (h.Leaf? ==> ParseItem(cfg, depth, t) == Done(h.reply, h.rest))
      && (h.HeadFail? ==> ParseItem(cfg, depth, t) == Fail(h.error))
  {
    hide BulkHead;
    assert t[0] == '$' && t[1..] == s;
    assert ReadHead(cfg, depth, TString, s) == BulkHead(TString, s[..k], s[k + 2..]);
    assert ParseItem(cfg, depth, t) == ParseBody(cfg, depth, TString, s);
  }

  lemma ItemsStep(cfg: Config, depth: nat, idx: nat, n: nat, s: string, r: Reply, rest: string)
    requires idx <= INT_MAX && ParseItem(cfg, depth, s) == Done(r, rest)
    ensures var p := ParseItems(cfg, depth, idx + 1, n, rest);
      && (p.Items? ==> ParseItems(cfg, depth, idx, n + 1, s) == Items([r] + p.replies, p.rest))
      && (p.FailItems? ==> ParseItems(cfg, depth, idx, n + 1, s) == p)
  {
    hide ParseItem;
  }

  lemma ItemsFail(cfg: Config, depth: nat, idx: nat, n: nat, s: string, e: ReadError)
    requires idx <= INT_MAX && ParseItem(cfg, depth, s) == Fail(e)
    ensures ParseItems(cfg, depth, idx, n + 1, s) == FailItems(e)
  {
    hide ParseItem;
  }

  lemma RepliesCons(args: seq<string>)
    requires args != []
    ensures AsReplies(args) == [Str(args[0])] + AsReplies(args[1..])
    ensures AllReadable(args) <==> Readable(args[0]) && AllReadable(args[1..])
  {
    hide Readable;
    assert args == [args[0]] + args[1..];
  }

  /** What the reader makes of the bulks of a command. */
  function BulksRead(args: seq<string>, tail: string): ParsedItems {
    if AllReadable(args) then Items(AsReplies(args), tail) else FailItems(LengthOverflow)
  }

  lemma NoItems(cfg: Config, depth: nat, idx: nat, args: seq<string>, tail: string)
    requires args == []
    ensures ParseItems(cfg, depth, idx, |args|, Bulks(args) + tail) == BulksRead(args, tail)
  {
    assert Bulks(args) + tail == tail;
  }

  lemma {:induction false} ItemsOfBulks(cfg: Config, depth: nat, idx: nat, args: seq<string>, tail: string)
    requires Encodable(args) && idx + |args| <= INT_MAX
    ensures ParseItems(cfg, depth, idx, |args|, Bulks(args) + tail) == BulksRead(args, tail)
    decreases |args|
  {
    hide Bulk, Decimal, ParseItem, ParseItems, AsReplies, Readable, AllReadable;
    if args == [] {
      NoItems(cfg, depth, idx, args, tail);
    } else {
      var n, rest := |args| - 1, Bulks(args[1..]) + tail;
      Assoc(Bulk(args[0]), Bulks(args[1..]), tail);
      HeadOfBulk(cfg, depth, args[0], rest);
      RepliesCons(args);
      if Readable(args[0]) {
        ItemsOfBulks(cfg, depth, idx + 1, args[1..], tail);
        ItemsStep(cfg, depth, idx, n, Bulks(args) + tail, Str(args[0]), rest);
      } else {
        ItemsFail(cfg, depth, idx, n, Bulks(args) + tail, LengthOverflow);
      }
    }
  }

  lemma {:induction false} FewDigits(n: nat)
    ensures |Decimal(n)| <= 1 + n / 10
  {
    if n >= 10 {
      FewDigits(n / 10);
    }
  }

  predicate Admitted(cfg: Config, n: nat) {
    cfg.maxElements == 0 || n <= cfg.maxElements
  }

  lemma HeadOfArray(cfg: Config, depth: nat, n: nat, tail: string)
    requires n <= INT_MAX && depth < MAX_DEPTH
    ensures ReadHead(cfg, depth, TAgg(Array), Decimal(n) + CRLF + tail)
         == if !Admitted(cfg, n) then HeadFail(MultiBulkRange)
            else if n == 0 then Leaf(Agg(Array, []), tail)
            else Open(Array, n, tail)
  {
    hide Decimal, FindCrlf, ParseLL;
    LineParts(n, tail);
    ParseOfDecimal(n);
    FewDigits(n);
  }

  /**
   * Reading a formatted command yields the array of exactly its arguments, if the limit admits their
   * number and none is so long that its length overflows in the reader.
   */
  lemma EncodeParses(cfg: Config, args: seq<string>, tail: string)
    requires Encodable(args)
    ensures ParseItem(cfg, 0, Encode(args) + tail)
         == if !Admitted(cfg, |args|) then Fail(MultiBulkRange)
            else if AllReadable(args) then Done(Agg(Array, AsReplies(args)), tail)
            else Fail(LengthOverflow)
  {
    hide ReadHead, ParseItem, ParseItems, Decimal, Bulks, AllReadable, Admitted;
    var s := Encode(args) + tail;
    var body := Bulks(args) + tail;
    assert s[0] == '*' && s[1..] == Decimal(|args|) + CRLF + body;
    HeadOfArray(cfg, 0, |args|, body);
    ItemsOfBulks(cfg, 1, 0, args, tail);
    NoBulksAtAll(args, tail);
    ArrayBody(cfg, s, args, body, tail);
  }

  lemma NoBulksAtAll(args: seq<string>, tail: string)
    ensures args == [] ==> Bulks(args) + tail == tail
  {
  }

  lemma ArrayBody(cfg: Config, s: string, args: seq<string>, body: string, tail: string)
    requires s != "" && s[0] == '*' && (args == [] ==> body == tail)
    requires ReadHead(cfg, 0, TAgg(Array), s[1..])
          == if !Admitted(cfg, |args|) then HeadFail(MultiBulkRange)
             else if |args| == 0 then Leaf(Agg(Array, []), body)
             else Open(Array, |args|, body)
    requires ParseItems(cfg, 1, 0, |args|, body) == BulksRead(args, tail)
    ensures ParseItem(cfg, 0, s)
         == if !Admitted(cfg, |args|) then Fail(MultiBulkRange)
            else if AllReadable(args) then Done(Agg(Array, AsReplies(args)), tail)
            else Fail(LengthOverflow)
  {
    hide ReadHead, ParseItems, Admitted;
    assert ParseItem(cfg, 0, s) == ParseBody(cfg, 0, TAgg(Array), s[1..]);
    if args == [] {
      assert AsReplies(args) == [] && AllReadable(args);
    }
  }

  lemma DecimalInjective(m: nat, n: nat)
    requires Decimal(m) == Decimal(n)
    ensures m == n
  {
    ValueOfDecimal(m);
    ValueOfDecimal(n);
  }

  /** A line that starts with a number determines the number and what follows. */
  lemma SameLine(m: nat, n: nat, x: string, y: string)
    requires Decimal(m) + CRLF + x == Decimal(n) + CRLF + y
    ensures m == n && x == y
  {
    hide Decimal, FindCrlf;
    LineParts(m, x);
    LineParts(n, y);
    DecimalInjective(m, n);
  }

  lemma SameBulk(a: string, b: string, x: string, y: string)
    requires Bulk(a) + x == Bulk(b) + y
    ensures a == b && x == y
  {
    hide Bulk, Decimal;
    BulkAsLine(a, x);
    BulkAsLine(b, y);
    var s, t := Decimal(|a|) + CRLF + (a + CRLF + x), Decimal(|b|) + CRLF + (b + CRLF + y);
    assert (['$'] + s)[1..] == s && (['$'] + t)[1..] == t;
    SameLine(|a|, |b|, a + CRLF + x, b + CRLF + y);
    SamePayload(a, b, x, y);
  }

  lemma SamePayload(a: string, b: string, x: string, y: string)
    requires |a| == |b| && a + CRLF + x == b + CRLF + y
    ensures a == b && x == y
  {
    var s, t := a + CRLF + x, b + CRLF + y;
    assert s[..|a|] == a && t[..|b|] == b;
    assert s[|a| + 2..] == x && t[|b| + 2..] == y;
  }

  lemma {:induction false} SameBulks(a: seq<string>, b: seq<string>, x: string, y: string)
    requires |a| == |b| && Bulks(a) + x == Bulks(b) + y
    ensures a == b && x == y
    decreases |a|
  {
    hide Bulk;
    if a == [] {
      assert Bulks(a) + x == x && Bulks(b) + y == y;
    } else {
      Assoc(Bulk(a[0]), Bulks(a[1..]), x);
      Assoc(Bulk(b[0]), Bulks(b[1..]), y);
      SameBulk(a[0], b[0], Bulks(a[1..]) + x, Bulks(b[1..]) + y);
      SameBulks(a[1..], b[1..], x, y);
      assert a == [a[0]] + a[1..] && b == [b[0]] + b[1..];
    }
  }

  /** Different argument lists never share a wire form, not even as prefixes of each other. */
  lemma EncodeInjective(a: seq<string>, b: seq<string>, x: string, y: string)
    requires Encode(a) + x == Encode(b) + y
    ensures a == b && x == y
  {
    hide Decimal, Bulks;
    var s, t := Decimal(|a|) + CRLF + (Bulks(a) + x), Decimal(|b|) + CRLF + (Bulks(b) + y);
    assert (Encode(a) + x)[1..] == s && (Encode(b) + y)[1..] == t;
    SameLine(|a|, |b|, Bulks(a) + x, Bulks(b) + y);
    SameBulks(a, b, x, y);
  }

  // ----- nextArgument -----

  /** strchr() in a NUL-terminated buffer: `cmd` is followed by a NUL. */
  function StrChr(cmd: string, p: nat, c: char): (r: Option<nat>)
    requires p <= |cmd|
    ensures r.Some? ==> p <= r.value < |cmd| && cmd[r.value] == c
                        && forall i :: p <= i < r.value ==> cmd[i] != c && cmd[i] != '\0'
    decreases |cmd| - p
  {
    if p == |cmd| then None
    else if cmd[p] == c then Some(p)
    else if cmd[p] == '\0' then None
    else StrChr(cmd, p + 1, c)
  }

  lemma {:induction false} StrChrFinds(cmd: string, p: nat, c: char, k: nat)
    requires p <= k < |cmd| && cmd[k] == c
    requires forall i :: p <= i < k ==> cmd[i] != c && cmd[i] != '\0'
    ensures StrChr(cmd, p, c) == Some(k)
    decreases k - p
  {
    if p < k {
      StrChrFinds(cmd, p + 1, c, k);
    }
  }

  /** The digits at the start of a string: what strtol() reads there. */
  function LeadingDigits(s: string): (d: string)
    ensures AllDigits(d) && d <= s
    ensures |d| < |s| ==> !IsDigit(s[|d|])
  {
    if s == "" || !IsDigit(s[0]) then "" else [s[0]] + LeadingDigits(s[1..])
  }

  /** One argument inside a command: its bytes, and where the next one starts. */
  datatype Argument = Argument(start: nat, len: nat, next: nat)

  /** Where the next argument's '$' is. */
  function NextDollar(cmd: string, p: nat): (r: Option<nat>)
    requires p <= |cmd|
    ensures r.Some? ==> p <= r.value < |cmd|
  {
    if p < |cmd| && cmd[p] == '$' then Some(p) else StrChr(cmd, p, '$')
  }

  /** `(int)strtol(...)` assigned to a size_t: saturated, cut to 32 bits, and extended by its sign */
  function CastLength(v: nat): nat {
    var long := if v > LLONG_MAX then LLONG_MAX else v;
    var low := long % 0x1_0000_0000;
    if low > INT_MAX then low + 0xFFFF_FFFF_0000_0000 else low
  }

  function ArgumentAt(cmd: string, q: nat): Option<Argument>
    requires q < |cmd|
  {
    var len := CastLength(NatValue(LeadingDigits(cmd[q + 1..])));
    match StrChr(cmd, q, '\r')
    case None => None
    case Some(cr) => Some(Argument(cr + 2, len, cr + 2 + len + 2))
  }

  /** `nextArgument` (async.c:817-829). */
  function NextArgument(cmd: string, p: nat): Option<Argument>
    requires p <= |cmd|
  {
    match NextDollar(cmd, p)
    case None => None
    case Some(q) => ArgumentAt(cmd, q)
  }

  /** Iterating `nextArgument` to the end, as `__redisAsyncCommand` does. */
  function Arguments(cmd: string, p: nat): seq<string>
    requires p <= |cmd|
    decreases |cmd| - p
  {
    match NextArgument(cmd, p)
    case None => []
    case Some(a) =>
      if a.next > |cmd| || a.next <= p then []
      else [cmd[a.start..a.start + a.len]] + Arguments(cmd, a.next)
  }

  lemma {:induction false} DigitsThenCr(d: string, tail: string)
    requires AllDigits(d)
    ensures LeadingDigits(d + CRLF + tail) == d
  {
    if d == "" {
      assert (d + CRLF + tail)[0] == '\r';
    } else {
      assert (d + CRLF + tail)[1..] == d[1..] + CRLF + tail;
      DigitsThenCr(d[1..], tail);
    }
  }

  /** The length line of a bulk string denotes its length. */
  lemma LengthLine(cmd: string, p: nat, n: nat)
    requires p + |Decimal(n)| + 2 < |cmd|
    requires cmd[p + 1..p + 1 + |Decimal(n)|] == Decimal(n)
    requires cmd[p + 1 + |Decimal(n)|] == '\r' && cmd[p + 2 + |Decimal(n)|] == '\n'
    ensures NatValue(LeadingDigits(cmd[p + 1..])) == n
    ensures forall i :: p < i <= p + |Decimal(n)| ==> IsDigit(cmd[i])
  {
    var d := Decimal(n);
    var e := p + 1 + |d|;
    assert cmd[p + 1..] == d + CRLF + cmd[e + 2..];
    DigitsThenCr(d, cmd[e + 2..]);
    ValueOfDecimal(n);
    forall i | p < i <= p + |d|
      ensures IsDigit(cmd[i])
    {
      assert cmd[i] == cmd[p + 1..e][i - p - 1];
    }
  }

  /** At a '$' followed by a length line, the argument is what the line announces. */
  lemma DollarLine(cmd: string, p: nat, n: nat)
    requires p + |Decimal(n)| + 2 < |cmd| && cmd[p] == '$'
    requires cmd[p + 1..p + 1 + |Decimal(n)|] == Decimal(n)
    requires cmd[p + 1 + |Decimal(n)|] == '\r' && cmd[p + 2 + |Decimal(n)|] == '\n'
    ensures ArgumentAt(cmd, p) ==
      Some(Argument(p + |Decimal(n)| + 3, CastLength(n), p + |Decimal(n)| + CastLength(n) + 5))
  {
    hide Decimal, CastLength, LeadingDigits, NatValue, StrChr;
    LengthLine(cmd, p, n);
    StrChrFinds(cmd, p, '\r', p + 1 + |Decimal(n)|);
  }

  lemma FiveParts<T>(v: seq<T>, d: seq<T>, x: seq<T>, a: seq<T>, y: seq<T>)
    ensures var s, i, j := v + d + x + a + y, |v| + |d|, |v| + |d| + |x|;
      && |s| == j + |a| + |y| && s[..|v|] == v && s[|v|..i] == d && s[i..j] == x && s[j..j + |a|] == a
      && (forall k :: 0 <= k < |v| ==> s[k] == v[k]) && (forall k :: 0 <= k < |x| ==> s[i + k] == x[k])
  {
  }

  /** The parts of a bulk string. */
  lemma BulkParts(b: string, a: string)
    requires b == Bulk(a)
    ensures var k := |Decimal(|a|)|;
            && |b| == k + |a| + 5 && b[0] == '$' && b[1..1 + k] == Decimal(|a|)
            && b[1 + k] == '\r' && b[2 + k] == '\n' && b[k + 3..k + 3 + |a|] == a
  {
    hide Decimal;
    FiveParts("$", Decimal(|a|), CRLF, a, CRLF);
  }

  /** A bulk string inside a command, found by `nextArgument`. */
  lemma BulkAt(cmd: string, p: nat, a: string)
    requires p + |Bulk(a)| <= |cmd| && cmd[p..p + |Bulk(a)|] == Bulk(a)
    ensures var k := |Decimal(|a|)|;
            && p + k + |a| + 5 == p + |Bulk(a)| && cmd[p] == '$'
            && ArgumentAt(cmd, p) == Some(Argument(p + k + 3, CastLength(|a|), p + k + CastLength(|a|) + 5))
            && cmd[p + k + 3..p + k + 3 + |a|] == a
  {
    hide Bulk, Decimal, ArgumentAt, CastLength;
    var b, k := cmd[p..p + |Bulk(a)|], |Decimal(|a|)|;
    BulkParts(b, a);
    assert b[0] == cmd[p] && b[1 + k] == cmd[p + 1 + k] && b[2 + k] == cmd[p + 2 + k];
    SliceOfSlice(cmd, p, p + |b|, 1, 1 + k);
    SliceOfSlice(cmd, p, p + |b|, k + 3, k + 3 + |a|);
    DollarLine(cmd, p, |a|);
  }

  lemma SplitFirst(cmd: string, p: nat, args: seq<string>)
    requires p <= |cmd| && cmd[p..] == Bulks(args) && args != []
    ensures p + |Bulk(args[0])| <= |cmd|
    ensures cmd[p..p + |Bulk(args[0])|] == Bulk(args[0])
    ensures cmd[p + |Bulk(args[0])|..] == Bulks(args[1..])
  {
    var b, rest := Bulk(args[0]), Bulks(args[1..]);
    assert cmd[p..] == b + rest;
    SliceOfSuffix(cmd, p, 0, |b|);
  }

  /** The cast keeps a length exactly when it is that of an int. */
  lemma CastExact(n: nat)
    requires n <= LLONG_MAX
    ensures CastLength(n) == n <==> n <= INT_MAX
  {
  }

  predicate Short(a: string) {
    |a| <= INT_MAX
  }

  /** The first of several bulk strings: its bytes, and where the others start, unless it is too long. */
  lemma FirstBulk(cmd: string, p: nat, args: seq<string>) returns (arg: Argument)
    requires p <= |cmd| && cmd[p..] == Bulks(args) && args != [] && |args[0]| <= LLONG_MAX
    ensures p < |cmd| && cmd[p] == '$' && ArgumentAt(cmd, p) == Some(arg)
    ensures arg.next == arg.start + arg.len + 2 && p < arg.next
    ensures arg.len == |args[0]| <==> Short(args[0])
    ensures Short(args[0]) ==>
      arg.next <= |cmd| && cmd[arg.start..arg.start + arg.len] == args[0] && cmd[arg.next..] == Bulks(args[1..])
  {
    hide Bulk, Bulks, Decimal, ArgumentAt, CastLength;
    SplitFirst(cmd, p, args);
    BulkAt(cmd, p, args[0]);
    CastExact(|args[0]|);
    arg := ArgumentAt(cmd, p).value;
  }

  lemma ArgumentsStep(cmd: string, p: nat, arg: Argument)
    requires p <= |cmd| && NextArgument(cmd, p) == Some(arg)
    requires p < arg.next && arg.start + arg.len <= arg.next
    ensures Arguments(cmd, p) ==
      if arg.next <= |cmd| then [cmd[arg.start..arg.start + arg.len]] + Arguments(cmd, arg.next) else []
  {
    hide NextArgument;
  }

  predicate AllShort(args: seq<string>) {
    forall a :: a in args ==> Short(a)
  }

  lemma FirstAndRest(args: seq<string>)
    requires args != []
    ensures args == [args[0]] + args[1..]
    ensures AllShort(args) <==> Short(args[0]) && AllShort(args[1..])
    ensures Encodable(args) ==> |args[0]| <= LLONG_MAX && Encodable(args[1..])
  {
    assert forall a :: a in args <==> a == args[0] || a in args[1..];
  }

  lemma OtherFirst<T>(x: T, xs: seq<T>, y: T, ys: seq<T>)
    ensures [x] + xs == [y] + ys <==> x == y && xs == ys
  {
    if [x] + xs == [y] + ys {
      assert ([x] + xs)[0] == ([y] + ys)[0];
      assert ([x] + xs)[1..] == xs && ([y] + ys)[1..] == ys;
    }
  }

  /** From the first bulk string on, the iteration returns exactly the arguments, then stops, if they are short. */
  lemma {:induction false} ArgumentsOfBulks(cmd: string, p: nat, args: seq<string>)
    requires p <= |cmd| && cmd[p..] == Bulks(args) && Encodable(args)
    ensures Arguments(cmd, p) == args <==> AllShort(args)
    decreases |args|
  {
    if args == [] {
      assert p == |cmd|;
    } else {
      hide Bulks, Arguments, ArgumentAt, AllShort, Encodable;
      FirstAndRest(args);
      var arg := FirstBulk(cmd, p, args);
      ArgumentsStep(cmd, p, arg);
      if Short(args[0]) {
        ArgumentsOfBulks(cmd, arg.next, args[1..]);
        OtherFirst(args[0], Arguments(cmd, arg.next), args[0], args[1..]);
      } else if arg.next <= |cmd| {
        OtherFirst(cmd[arg.start..arg.start + arg.len], Arguments(cmd, arg.next), args[0], args[1..]);
      }
    }
  }

  /** The array header holds no '$'. */
  lemma HeaderSkipped(args: seq<string>, p: nat)
    requires p == 1 + |Decimal(|args|)| + 2
    ensures p <= |Encode(args)| && Encode(args)[p..] == Bulks(args)
    ensures forall i :: 0 <= i < p ==> Encode(args)[i] != '$' && Encode(args)[i] != '\0'
  {
    hide Decimal, Bulks;
    var d, cmd := Decimal(|args|), Encode(args);
    var head := ['*'] + d + CRLF;
    assert cmd == head + Bulks(args);
    forall i | 0 <= i < p
      ensures cmd[i] != '$' && cmd[i] != '\0'
    {
      assert cmd[i] == head[i];
      if 1 <= i < 1 + |d| {
        assert head[i] == d[i - 1] && IsDigit(d[i - 1]);
      }
    }
  }

  lemma SkipHeader(cmd: string, p: nat)
    requires p < |cmd| && cmd[p] == '$'
    requires forall i :: 0 <= i < p ==> cmd[i] != '$' && cmd[i] != '\0'
    ensures NextDollar(cmd, 0) == NextDollar(cmd, p)
  {
    StrChrFinds(cmd, 0, '$', p);
  }

  lemma ArgumentsBehindHeader(cmd: string, p: nat, args: seq<string>)
    requires p <= |cmd| && cmd[p..] == Bulks(args) && Encodable(args)
    requires forall i :: 0 <= i < p ==> cmd[i] != '$' && cmd[i] != '\0'
    ensures Arguments(cmd, 0) == args <==> AllShort(args)
    ensures args == [] <==> NextArgument(cmd, 0).None?
  {
    if args == [] {
      assert |cmd| == p;
      assert NextDollar(cmd, 0).None?;
    } else {
      hide Bulks, Arguments, ArgumentAt, AllShort, Encodable, NextDollar;
      FirstAndRest(args);
      var arg := FirstBulk(cmd, p, args);
      SkipHeader(cmd, p);
      DollarHere(cmd, p);
      ArgumentsStep(cmd, 0, arg);
      ArgumentsStep(cmd, p, arg);
      ArgumentsOfBulks(cmd, p, args);
    }
  }

  lemma DollarHere(cmd: string, p: nat)
    requires p < |cmd| && cmd[p] == '$'
    ensures NextDollar(cmd, p) == Some(p)
  {
  }

  /** On a formatted command, the iteration returns exactly its arguments if and only if each is shorter than 2^31 bytes. */
  lemma ArgumentsOfEncode(args: seq<string>)
    requires Encodable(args)
    ensures Arguments(Encode(args), 0) == args <==> AllShort(args)
    ensures args == [] <==> NextArgument(Encode(args), 0).None?
  {
    hide Decimal, Bulks, Arguments, NextArgument, AllShort, Encodable, Encode;
    var p := 1 + |Decimal(|args|)| + 2;
    HeaderSkipped(args, p);
    ArgumentsBehindHeader(Encode(args), p, args);
  }
}
