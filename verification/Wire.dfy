/**
 * What the reply grammar reads, byte by byte (deps/hiredis/read.c): a printer for replies of every kind, in
 * every spelling the reader admits, and the proof that the reader accepts these spellings and no others.
 */
module Wires {
  import opened Common
  import opened Num
  import opened Resp

  /** A reply as it is spelled. The two bytes behind a bulk string are skipped, whatever they are. */
  datatype Wire =
    | WStatus(text: string)
    | WError(text: string)
    | WInt(n: int)
    | WDouble(text: string)
    | WNull
    | WNullBulk(verbatim: bool)
    | WNullAgg(kind: AggKind)
    | WBool(c: char)
    | WBigNum(text: string)
    | WBulk(text: string, a: char, b: char)
    | WVerb(vtype: string, text: string, a: char, b: char)
    | WAgg(kind: AggKind, items: seq<Wire>)

  const CRLF := "\r\n"

  function KindByte(kind: AggKind): char {
    match kind
    case Array => '*'
    case Map => '%'
    case Set => '~'
    case Push => '>'
  }

  function TypeByte(w: Wire): char {
    match w
    case WStatus(_) => '+'
    case WError(_) => '-'
    case WInt(_) => ':'
    case WDouble(_) => ','
    case WNull => '_'
    case WNullBulk(verbatim) => if verbatim then '=' else '$'
    case WNullAgg(kind) => KindByte(kind)
    case WBool(_) => '#'
    case WBigNum(_) => '('
    case WBulk(_, _, _) => '$'
    case WVerb(_, _, _, _) => '='
    case WAgg(kind, _) => KindByte(kind)
  }

  /** The pairs of a map are announced, the elements of everything else. */
  function Announced(kind: AggKind, n: nat): nat {
    if kind.Map? then n / 2 else n
  }

  /** The line behind the type byte. */
  function LineOf(w: Wire): string {
    match w
    case WStatus(t) => t
    case WError(t) => t
    case WInt(n) => DecimalInt(n)
    case WDouble(t) => t
    case WNull => ""
    case WNullBulk(_) => "-1"
    case WNullAgg(_) => "-1"
    case WBool(c) => [c]
    case WBigNum(t) => t
    case WBulk(t, _, _) => DecimalInt(|t|)
    case WVerb(v, t, _, _) => DecimalInt(|v| + 1 + |t|)
    case WAgg(kind, items) => DecimalInt(Announced(kind, |items|))
  }

  function Show(w: Wire): string
    decreases w, 1
  {
    [TypeByte(w)] + (LineOf(w) + (CRLF + BodyOf(w)))
  }

  /** What follows the line. */
  function BodyOf(w: Wire): string
    decreases w, 0
  {
    match w
    case WBulk(t, a, b) => t + [a, b]
    case WVerb(v, t, a, b) => v + ":" + t + [a, b]
    case WAgg(_, items) => ShowAll(items)
    case _ => ""
  }

  function ShowAll(ws: seq<Wire>): string
    decreases ws, 0
  {
    if ws == [] then "" else Show(ws[0]) + ShowAll(ws[1..])
  }

  /** The reply that is meant. */
  function Value(w: Wire): Reply
    decreases w, 0
  {
    match w
    case WStatus(t) => Status(t)
    case WError(t) => Error(t)
    case WInt(n) => Integer(n)
    case WDouble(t) => Double(t)
    case WNull => Nil
    case WNullBulk(_) => Nil
    case WNullAgg(_) => Nil
    case WBool(c) => Bool(c == 't' || c == 'T')
    case WBigNum(t) => BigNum(t)
    case WBulk(t, _, _) => Str(t)
    case WVerb(v, t, _, _) => Verb(v, t)
    case WAgg(kind, items) => Agg(kind, Values(items))
  }

  function Values(ws: seq<Wire>): (rs: seq<Reply>)
    ensures |rs| == |ws|
    decreases ws, 0
  {
    if ws == [] then [] else [Value(ws[0])] + Values(ws[1..])
  }

  // ----- What is well formed -----

  predicate NoCrlf(t: string) {
    forall i :: 0 <= i < |t| - 1 ==> !(t[i] == '\r' && t[i + 1] == '\n')
  }

  predicate OneLine(t: string) {
    forall i :: 0 <= i < |t| ==> t[i] != '\r' && t[i] != '\n'
  }

  /** A line is measured by an int, its end included. */
  predicate Measured(t: string) {
    |t| <= INT_MAX - 2
  }

  predicate BigDigits(t: string) {
    forall i :: 0 <= i < |t| ==> '0' <= t[i] <= '9' || (i == 0 && t[i] == '-')
  }

  predicate IsDouble(cfg: Config, t: string) {
    |t| <= 325 && (Folded(t, "inf", "INF") || Folded(t, "-inf", "-INF") || Folded(t, "nan", "NAN") || cfg.isFinite(t))
  }

  predicate IsBool(c: char) {
    c == 't' || c == 'T' || c == 'f' || c == 'F' || c == '\0'
  }

  /** Few enough elements for the limit, for an int64, and for an int that is the index of the last. */
  predicate Countable(cfg: Config, kind: AggKind, n: nat) {
    && n <= LLONG_MAX && n <= INT_MAX + 1 && (kind.Map? ==> n % 2 == 0)
    && (cfg.maxElements == 0 || Announced(kind, n) <= cfg.maxElements)
  }

  predicate WellFormed(cfg: Config, depth: nat, w: Wire)
    decreases w, 0
  {
    match w
    case WStatus(t) => OneLine(t) && Measured(t)
    case WError(t) => OneLine(t) && Measured(t)
    case WInt(n) => LLONG_MIN <= n <= LLONG_MAX
    case WDouble(t) => IsDouble(cfg, t) && NoCrlf(t)
    case WNull => true
    case WNullBulk(_) => true
    case WNullAgg(_) => depth < MAX_DEPTH
    case WBool(c) => IsBool(c)
    case WBigNum(t) => BigDigits(t) && Measured(t)
    case WBulk(t, _, _) => |t| <= LLONG_MAX - 2
    case WVerb(v, t, _, _) => |v| == 3 && 4 + |t| <= LLONG_MAX - 2
    case WAgg(kind, items) =>
      depth < MAX_DEPTH && Countable(cfg, kind, |items|) && AllWellFormed(cfg, depth + 1, items)
  }

  predicate AllWellFormed(cfg: Config, depth: nat, ws: seq<Wire>)
    decreases ws, 0
  {
    ws == [] || (WellFormed(cfg, depth, ws[0]) && AllWellFormed(cfg, depth, ws[1..]))
  }

  // ----- Every spelling is read -----

  function ItemOf(w: Wire): ItemType {
    match w
    case WStatus(_) => TStatus
    case WError(_) => TError
    case WInt(_) => TInteger
    case WDouble(_) => TDouble
    case WNull => TNil
    case WNullBulk(verbatim) => if verbatim then TVerb else TString
    case WNullAgg(kind) => TAgg(kind)
    case WBool(_) => TBool
    case WBigNum(_) => TBigNum
    case WBulk(_, _, _) => TString
    case WVerb(_, _, _, _) => TVerb
    case WAgg(kind, _) => TAgg(kind)
  }

  lemma TypeRead(w: Wire)
    ensures TypeOf(TypeByte(w)) == Some(ItemOf(w))
  {
  }

  lemma DigitsAreClean(n: int)
    ensures OneLine(DecimalInt(n))
  {
    hide Decimal;
  }

  lemma UsualDigits(d: nat)
    requires d < 10
    ensures Decimal(d) == ["0123456789"[d]]
  {
  }

  lemma LineIsClean(cfg: Config, depth: nat, w: Wire)
    requires WellFormed(cfg, depth, w)
    ensures NoCrlf(LineOf(w))
  {
    hide DecimalInt;
    match w {
      case WInt(n) => DigitsAreClean(n);
      case WBulk(t, _, _) => DigitsAreClean(|t|);
      case WVerb(v, t, _, _) => DigitsAreClean(|v| + 1 + |t|);
      case WAgg(kind, items) => DigitsAreClean(Announced(kind, |items|));
      case _ =>
    }
  }

  /** The first CR LF is the one that ends the line. */
  lemma FirstLine(line: string, rest: string)
    requires NoCrlf(line)
    ensures var s := line + (CRLF + rest);
      FindCrlf(s) == Some(|line|) && s[..|line|] == line && s[|line| + 2..] == rest
  {
    var s := line + (CRLF + rest);
    assert CrlfAt(s, |line|);
    forall i | 0 <= i < |line|
      ensures !CrlfAt(s, i)
    {
      assert i < |line| - 1 ==> s[i] == line[i] && s[i + 1] == line[i + 1];
      assert i == |line| - 1 ==> s[i + 1] == '\r';
    }
    match FindCrlf(s) {
      case None => assert false;
      case Some(i) => assert CrlfAt(s, i);
    }
  }

  lemma ShortNumeral(n: int)
    requires LLONG_MIN <= n <= LLONG_MAX
    ensures Measured(DecimalInt(n))
  {
    hide Pow10, Decimal;
    NineteenDigits();
    DigitBound(if n < 0 then -n else n, 19);
  }

  /** The body of `EqualsIgnoreCase`, on the words that the reader compares with. */
  lemma FoldedIsEqual(t: string)
    ensures EqualsIgnoreCase(t, "inf") == Folded(t, "inf", "INF")
    ensures EqualsIgnoreCase(t, "-inf") == Folded(t, "-inf", "-INF")
    ensures EqualsIgnoreCase(t, "nan") == Folded(t, "nan", "NAN")
  {
    forall c: char
      ensures Lower(c) == 'i' <==> c == 'i' || c == 'I'
      ensures Lower(c) == 'n' <==> c == 'n' || c == 'N'
      ensures Lower(c) == 'f' <==> c == 'f' || c == 'F'
      ensures Lower(c) == 'a' <==> c == 'a' || c == 'A'
      ensures Lower(c) == '-' <==> c == '-'
    {
      LowerCase(c);
    }
    if |t| == 3 {
      assert t == [t[0], t[1], t[2]];
    } else if |t| == 4 {
      assert t == [t[0], t[1], t[2], t[3]];
    }
  }

  lemma LowerCase(c: char)
    ensures Lower(c) == 'i' <==> c == 'i' || c == 'I'
    ensures Lower(c) == 'n' <==> c == 'n' || c == 'N'
    ensures Lower(c) == 'f' <==> c == 'f' || c == 'F'
    ensures Lower(c) == 'a' <==> c == 'a' || c == 'A'
    ensures Lower(c) == '-' <==> c == '-'
  {
  }

  lemma LineRead(cfg: Config, depth: nat, w: Wire)
    requires WellFormed(cfg, depth, w) && !w.WNullBulk? && !w.WNullAgg? && !w.WBulk? && !w.WVerb? && !w.WAgg?
    ensures ParseLine(cfg, ItemOf(w), LineOf(w)) == Good(Value(w)) && Measured(LineOf(w))
  {
    hide ParseLL, DecimalInt, EqualsIgnoreCase, Folded;
    match w {
      case WInt(n) =>
        ParseOfDecimal(n);
        ShortNumeral(n);
      case WDouble(t) => FoldedIsEqual(t);
      case _ =>
    }
  }

  lemma NilLength()
    ensures ParseLL("-1") == Some(-1)
  {
    assert DecimalInt(-1) == "-1";
    ParseOfDecimal(-1);
  }

  lemma BulkRead(w: Wire, tail: string)
    requires w.WNullBulk? || w.WBulk? || w.WVerb?
    requires w.WBulk? ==> |w.text| <= LLONG_MAX - 2
    requires w.WVerb? ==> |w.vtype| == 3 && 4 + |w.text| <= LLONG_MAX - 2
    ensures BulkHead(ItemOf(w), LineOf(w), BodyOf(w) + tail) == Leaf(Value(w), tail)
  {
    hide ParseLL, DecimalInt;
    match w {
      case WNullBulk(_) =>
        NilLength();
        assert "" + tail == tail;
      case WBulk(t, a, b) =>
        ParseOfDecimal(|t|);
        assert (t + [a, b] + tail)[..|t|] == t && (t + [a, b] + tail)[|t| + 2..] == tail;
      case WVerb(v, t, a, b) =>
        var payload := v + ":" + t;
        ParseOfDecimal(|payload|);
        assert (payload + [a, b] + tail)[..|payload|] == payload && (payload + [a, b] + tail)[|payload| + 2..] == tail;
        assert payload[3] == ':' && payload[..3] == v && payload[4..] == t;
    }
  }

  lemma AggRead(cfg: Config, depth: nat, w: Wire, after: string)
    requires WellFormed(cfg, depth, w) && (w.WNullAgg? || w.WAgg?)
    ensures AggHead(cfg, w.kind, LineOf(w), after)
         == if w.WNullAgg? || w.items == [] then Leaf(Value(w), after) else Open(w.kind, |w.items|, after)
    ensures Measured(LineOf(w))
  {
    hide ParseLL, DecimalInt;
    if w.WNullAgg? {
      NilLength();
    } else {
      ParseOfDecimal(Announced(w.kind, |w.items|));
      ShortNumeral(Announced(w.kind, |w.items|));
    }
  }

  /** What follows the type byte, up to the elements of an aggregate. */
  lemma HeadRead(cfg: Config, depth: nat, w: Wire, tail: string)
    requires WellFormed(cfg, depth, w)
    ensures ReadHead(cfg, depth, ItemOf(w), LineOf(w) + (CRLF + (BodyOf(w) + tail)))
         == if w.WAgg? && w.items != [] then Open(w.kind, |w.items|, BodyOf(w) + tail) else Leaf(Value(w), tail)
  {
    hide FindCrlf, BulkHead, AggHead, ParseLine, LineOf, BodyOf, Measured, NoCrlf;
    LineIsClean(cfg, depth, w);
    FirstLine(LineOf(w), BodyOf(w) + tail);
    if w.WNullBulk? || w.WBulk? || w.WVerb? {
      BulkRead(w, tail);
    } else {
      BodyIsEmpty(w, tail);
      MeasuredFits(LineOf(w));
      if w.WNullAgg? || w.WAgg? {
        AggRead(cfg, depth, w, BodyOf(w) + tail);
      } else {
        LineRead(cfg, depth, w);
      }
    }
  }

  lemma MeasuredFits(t: string)
    ensures Measured(t) <==> |t| + 2 <= INT_MAX
  {
  }

  lemma BodyIsEmpty(w: Wire, tail: string)
    ensures !(w.WBulk? || w.WVerb?) && (w.WAgg? ==> w.items == []) ==> BodyOf(w) + tail == tail
  {
  }

  /** The printed form, taken apart. */
  lemma ShowParts(w: Wire, tail: string)
    ensures var s := Show(w) + tail;
      s != "" && s[0] == TypeByte(w) && s[1..] == LineOf(w) + (CRLF + (BodyOf(w) + tail))
  {
    hide LineOf, BodyOf;
    var l, x := LineOf(w), BodyOf(w);
    Assoc([TypeByte(w)], l + (CRLF + x), tail);
    Assoc(l, CRLF + x, tail);
    Assoc(CRLF, x, tail);
  }

  /** Every well-formed reply is read back from its bytes, whatever follows. */
  lemma {:induction false} ShowRead(cfg: Config, depth: nat, w: Wire, tail: string)
    requires WellFormed(cfg, depth, w)
    ensures ParseItem(cfg, depth, Show(w) + tail) == Done(Value(w), tail)
    decreases w, 0
  {
    hide ReadHead, LineOf, TypeOf, Show;
    ShowParts(w, tail);
    TypeRead(w);
    HeadRead(cfg, depth, w, tail);
    if w.WAgg? && w.items != [] {
      AllRead(cfg, depth + 1, 0, w.items, tail);
    }
    BodyOpened(cfg, depth, w, tail);
  }

  /** An item, from its head and its elements. */
  lemma BodyOpened(cfg: Config, depth: nat, w: Wire, tail: string)
    requires var s := Show(w) + tail;
      s != "" && TypeOf(s[0]) == Some(ItemOf(w))
      && ReadHead(cfg, depth, ItemOf(w), s[1..])
         == if w.WAgg? && w.items != [] then Open(w.kind, |w.items|, BodyOf(w) + tail) else Leaf(Value(w), tail)
    requires w.WAgg? && w.items != [] ==>
      ParseItems(cfg, depth + 1, 0, |w.items|, BodyOf(w) + tail) == Items(Values(w.items), tail)
    ensures ParseItem(cfg, depth, Show(w) + tail) == Done(Value(w), tail)
  {
    hide ReadHead, BodyOf, Show, TypeOf, ParseItems;
    var s := Show(w) + tail;
    assert ParseItem(cfg, depth, s) == ParseBody(cfg, depth, ItemOf(w), s[1..]);
  }

  lemma {:induction false} AllRead(cfg: Config, depth: nat, idx: nat, ws: seq<Wire>, tail: string)
    requires AllWellFormed(cfg, depth, ws) && idx + |ws| <= INT_MAX + 1
    ensures ParseItems(cfg, depth, idx, |ws|, ShowAll(ws) + tail) == Items(Values(ws), tail)
    decreases ws, 0
  {
    hide Show, ParseItem, Value;
    if ws == [] {
      assert ShowAll(ws) + tail == tail;
    } else {
      Assoc(Show(ws[0]), ShowAll(ws[1..]), tail);
      ShowRead(cfg, depth, ws[0], ShowAll(ws[1..]) + tail);
      AllRead(cfg, depth, idx + 1, ws[1..], tail);
    }
  }

  // ----- Only these spellings are read -----

  lemma CleanLine(s: string, i: nat)
    requires FindCrlf(s) == Some(i)
    ensures NoCrlf(s[..i]) && s == s[..i] + (CRLF + s[i + 2..])
  {
    hide FindCrlf;
    forall j | 0 <= j < i - 1
      ensures !(s[..i][j] == '\r' && s[..i][j + 1] == '\n')
    {
      assert !CrlfAt(s, j);
    }
    assert CrlfAt(s, i) && s == s[..i] + s[i..] && s[i..] == s[i..i + 2] + s[i + 2..] && s[i..i + 2] == CRLF;
  }

  lemma LineSpelled(cfg: Config, depth: nat, t: ItemType, line: string) returns (w: Wire)
    requires !t.TString? && !t.TVerb? && !t.TAgg? && NoCrlf(line) && Measured(line) && ParseLine(cfg, t, line).Good?
    ensures !w.WAgg? && ItemOf(w) == t && LineOf(w) == line && BodyOf(w) == "" && WellFormed(cfg, depth, w)
    ensures ParseLine(cfg, t, line) == Good(Value(w))
  {
    hide ParseLL, DecimalInt, EqualsIgnoreCase, Folded;
    match t {
      case TStatus => w := WStatus(line);
      case TError => w := WError(line);
      case TInteger =>
        var n := ParseLL(line).value;
        ParseLLCanonical(line, n);
        w := WInt(n);
      case TDouble =>
        FoldedIsEqual(line);
        w := WDouble(line);
      case TNil => w := WNull;
      case TBool =>
        w := WBool(line[0]);
        assert line == [line[0]];
      case TBigNum => w := WBigNum(line);
    }
  }

  lemma BulkSpelled(cfg: Config, depth: nat, t: ItemType, line: string, after: string) returns (w: Wire)
    requires (t.TString? || t.TVerb?) && BulkHead(t, line, after).Leaf?
    ensures !w.WAgg? && ItemOf(w) == t && LineOf(w) == line && WellFormed(cfg, depth, w)
    ensures var h := BulkHead(t, line, after); h == Leaf(Value(w), h.rest) && after == BodyOf(w) + h.rest
  {
    hide ParseLL, DecimalInt;
    var n := ParseLL(line).value;
    ParseLLCanonical(line, n);
    if n == -1 {
      MinusOne();
      w := WNullBulk(t.TVerb?);
      assert after == "" + after;
    } else {
      var x, a, b := after[..n], after[n], after[n + 1];
      assert after == x + [a, b] + after[n + 2..];
      if t.TString? {
        w := WBulk(x, a, b);
      } else {
        w := WVerb(x[..3], x[4..], a, b);
        assert x == x[..3] + ":" + x[4..];
      }
    }
  }

  lemma MinusOne()
    ensures DecimalInt(-1) == "-1"
  {
  }

  lemma NullAggSpelled(cfg: Config, depth: nat, kind: AggKind, line: string, after: string) returns (w: Wire)
    requires depth < MAX_DEPTH && AggHead(cfg, kind, line, after).Leaf?
    ensures (w.WAgg? ==> w.items == []) && ItemOf(w) == TAgg(kind) && LineOf(w) == line && BodyOf(w) == "" && WellFormed(cfg, depth, w)
    ensures AggHead(cfg, kind, line, after) == Leaf(Value(w), after)
  {
    hide ParseLL, DecimalInt;
    var n := ParseLL(line).value;
    ParseLLCanonical(line, n);
    MinusOne();
    w := if n == -1 then WNullAgg(kind) else WAgg(kind, []);
  }

  lemma AggSpelled(cfg: Config, kind: AggKind, line: string, after: string)
    requires AggHead(cfg, kind, line, after).Open?
    ensures var h := AggHead(cfg, kind, line, after);
      && h.kind == kind && h.rest == after && h.n > 0 && h.n <= LLONG_MAX && line == DecimalInt(Announced(kind, h.n))
      && (kind.Map? ==> h.n % 2 == 0) && (cfg.maxElements == 0 || Announced(kind, h.n) <= cfg.maxElements)
  {
    hide ParseLL, DecimalInt;
    ParseLLCanonical(line, ParseLL(line).value);
  }

  /** A head that is a finished reply is the printed form of one, behind its type byte. */
  lemma LeafSpelled(cfg: Config, depth: nat, t: ItemType, s: string) returns (w: Wire)
    requires ReadHead(cfg, depth, t, s).Leaf?
    ensures ItemOf(w) == t && WellFormed(cfg, depth, w)
    ensures var h := ReadHead(cfg, depth, t, s);
      h == Leaf(Value(w), h.rest) && s == LineOf(w) + (CRLF + (BodyOf(w) + h.rest))
  {
    hide FindCrlf, BulkHead, AggHead, ParseLine, NoCrlf, LineOf, Measured, WellFormed, Value;
    var i := FindCrlf(s).value;
    CleanLine(s, i);
    var line, after := s[..i], s[i + 2..];
    MeasuredFits(line);
    if t.TString? || t.TVerb? {
      w := BulkSpelled(cfg, depth, t, line, after);
    } else if t.TAgg? {
      w := NullAggSpelled(cfg, depth, t.kind, line, after);
      assert "" + after == after;
    } else {
      w := LineSpelled(cfg, depth, t, line);
      assert "" + after == after;
    }
  }

  lemma ByteSpelled(c: char, w: Wire)
    requires TypeOf(c) == Some(ItemOf(w))
    ensures TypeByte(w) == c
  {
  }

  /** Whatever is read as a reply is a well-formed spelling of it. */
  lemma {:induction false} Spelled(cfg: Config, depth: nat, s: string) returns (w: Wire)
    requires ParseItem(cfg, depth, s).Done?
    ensures WellFormed(cfg, depth, w)
    ensures var p := ParseItem(cfg, depth, s); p.reply == Value(w) && s == Show(w) + p.rest
    decreases |s|, 0
  {
    hide ReadHead, WellFormed, Value, Show, LineOf;
    var t := TypeOf(s[0]).value;
    var h := ReadHead(cfg, depth, t, s[1..]);
    var rest := ParseItem(cfg, depth, s).rest;
    assert ParseItem(cfg, depth, s) == ParseBody(cfg, depth, t, s[1..]);
    if h.Leaf? {
      w := LeafSpelled(cfg, depth, t, s[1..]);
    } else {
      OpenSpelled(cfg, depth, t, s[1..]);
      var ws := AllSpelled(cfg, depth + 1, 0, h.n, h.rest);
      w := WAgg(h.kind, ws);
      AggWellFormed(cfg, depth, h.kind, ws);
    }
    ByteSpelled(s[0], w);
    Assemble(w, s, rest);
  }

  lemma Assemble(w: Wire, s: string, rest: string)
    requires s != "" && s[0] == TypeByte(w) && s[1..] == LineOf(w) + (CRLF + (BodyOf(w) + rest))
    ensures s == Show(w) + rest
  {
    ShowParts(w, rest);
    assert s == [s[0]] + s[1..] && Show(w) + rest == [(Show(w) + rest)[0]] + (Show(w) + rest)[1..];
  }

  /** An aggregate that waits for elements. */
  lemma OpenSpelled(cfg: Config, depth: nat, t: ItemType, s: string)
    requires ReadHead(cfg, depth, t, s).Open?
    ensures var h := ReadHead(cfg, depth, t, s);
      && t == TAgg(h.kind) && depth < MAX_DEPTH && 0 < h.n <= LLONG_MAX
      && s == DecimalInt(Announced(h.kind, h.n)) + (CRLF + h.rest)
      && (h.kind.Map? ==> h.n % 2 == 0) && (cfg.maxElements == 0 || Announced(h.kind, h.n) <= cfg.maxElements)
  {
    hide FindCrlf, BulkHead, AggHead, ParseLine, NoCrlf, DecimalInt;
    var i := FindCrlf(s).value;
    CleanLine(s, i);
    AggSpelled(cfg, t.kind, s[..i], s[i + 2..]);
  }

  lemma AggWellFormed(cfg: Config, depth: nat, kind: AggKind, ws: seq<Wire>)
    requires depth < MAX_DEPTH && Countable(cfg, kind, |ws|) && AllWellFormed(cfg, depth + 1, ws)
    ensures var w := WAgg(kind, ws);
      WellFormed(cfg, depth, w) && Value(w) == Agg(kind, Values(ws)) && LineOf(w) == DecimalInt(Announced(kind, |ws|))
  {
  }

  lemma {:induction false} AllSpelled(cfg: Config, depth: nat, idx: nat, n: nat, s: string) returns (ws: seq<Wire>)
    requires ParseItems(cfg, depth, idx, n, s).Items? && idx <= INT_MAX + 1
    ensures |ws| == n && AllWellFormed(cfg, depth, ws) && idx + n <= INT_MAX + 1
    ensures var p := ParseItems(cfg, depth, idx, n, s); p.replies == Values(ws) && s == ShowAll(ws) + p.rest
    decreases |s|, 1
  {
    hide Show, ParseItem, Value, WellFormed;
    if n == 0 {
      ws := [];
      assert s == "" + s;
    } else {
      var p := ParseItem(cfg, depth, s);
      var w := Spelled(cfg, depth, s);
      var vs := AllSpelled(cfg, depth, idx + 1, n - 1, p.rest);
      ws := [w] + vs;
      assert ws[0] == w && ws[1..] == vs;
      Assoc(Show(w), ShowAll(vs), ParseItems(cfg, depth, idx, n, s).rest);
    }
  }

  /** Exactly the well-formed spellings are read, as what they mean, and no byte more. */
  lemma ReadExactly(cfg: Config, depth: nat, s: string, r: Reply, rest: string)
    ensures ParseItem(cfg, depth, s) == Done(r, rest)
      <==> exists w :: WellFormed(cfg, depth, w) && Value(w) == r && s == Show(w) + rest
  {
    hide ParseItem, WellFormed, Value, Show;
    forall w | WellFormed(cfg, depth, w) && Value(w) == r && s == Show(w) + rest
      ensures ParseItem(cfg, depth, s) == Done(r, rest)
    {
      ShowRead(cfg, depth, w, rest);
    }
    if ParseItem(cfg, depth, s) == Done(r, rest) {
      var w := Spelled(cfg, depth, s);
    }
  }

  /** A stream of well-formed replies is read as these replies, and then as what follows. */
  lemma {:induction false} StreamRead(cfg: Config, ws: seq<Wire>, tail: string)
    requires AllWellFormed(cfg, 0, ws)
    ensures ParseAll(cfg, ShowAll(ws) + tail) == Prefixed(Values(ws), ParseAll(cfg, tail))
    decreases ws
  {
    hide ParseItem, WellFormed, Value, Show;
    if ws == [] {
      assert ShowAll(ws) + tail == tail && [] + ParseAll(cfg, tail).replies == ParseAll(cfg, tail).replies;
    } else {
      var rest := ShowAll(ws[1..]) + tail;
      Assoc(Show(ws[0]), ShowAll(ws[1..]), tail);
      ShowRead(cfg, 0, ws[0], rest);
      StreamRead(cfg, ws[1..], tail);
      Assoc([Value(ws[0])], Values(ws[1..]), ParseAll(cfg, tail).replies);
    }
  }

  /** The replies of any stream are spelled out at its beginning; what follows them is no reply. */
  lemma {:induction false} StreamSpelled(cfg: Config, s: string) returns (ws: seq<Wire>, tail: string)
    ensures AllWellFormed(cfg, 0, ws) && s == ShowAll(ws) + tail && ParseAll(cfg, s).replies == Values(ws)
    ensures match ParseItem(cfg, 0, tail)
            case Done(_, _) => false
            case More => ParseAll(cfg, s).error == None
            case Fail(e) => ParseAll(cfg, s).error == Some(e)
    decreases |s|
  {
    hide ParseItem, WellFormed, Value, Show;
    var p := ParseItem(cfg, 0, s);
    if p.Done? {
      var w := Spelled(cfg, 0, s);
      var vs;
      vs, tail := StreamSpelled(cfg, p.rest);
      ws := [w] + vs;
      assert ws[0] == w && ws[1..] == vs;
      Assoc(Show(w), ShowAll(vs), tail);
    } else {
      ws, tail := [], s;
      assert s == "" + s;
    }
  }

  // ----- What is refused, and how -----

  predicate IsTypeByte(c: char) {
    c == '+' || c == '-' || c == ':' || c == ',' || c == '_' || c == '#' || c == '(' || c == '$' || c == '='
    || c == '*' || c == '%' || c == '~' || c == '>'
  }

  lemma OtherBytes(cfg: Config, depth: nat, c: char, tail: string)
    requires !IsTypeByte(c)
    ensures ParseItem(cfg, depth, [c] + tail) == Fail(ProtocolByte(c))
  {
    assert ([c] + tail)[0] == c;
  }

  predicate IsLineByte(c: char) {
    c == '+' || c == '-' || c == ':' || c == ',' || c == '_' || c == '#' || c == '('
  }

  ghost predicate IsNumeral(t: string) {
    exists n :: LLONG_MIN <= n <= LLONG_MAX && t == DecimalInt(n)
  }

  ghost predicate LineOk(cfg: Config, c: char, t: string)
    requires IsLineByte(c)
  {
    if c == ':' then IsNumeral(t)
    else if c == ',' then IsDouble(cfg, t)
    else if c == '_' then t == ""
    else if c == '#' then |t| == 1 && IsBool(t[0])
    else if c == '(' then BigDigits(t)
    else OneLine(t)
  }

  function Refusal(c: char, t: string): ReadError
    requires IsLineByte(c)
  {
    if c == ':' then BadInteger
    else if c == ',' then (if |t| > 325 then DoubleTooLarge else BadDouble)
    else if c == '_' then BadNil
    else if c == '#' then BadBool
    else if c == '(' then BadBigNum
    else BadSimpleString
  }

  lemma NumeralExact(t: string)
    ensures IsNumeral(t) <==> ParseLL(t).Some?
    ensures ParseLL(t).Some? ==> t == DecimalInt(ParseLL(t).value) && LLONG_MIN <= ParseLL(t).value <= LLONG_MAX
  {
    hide ParseLL, DecimalInt;
    if ParseLL(t).Some? {
      ParseLLCanonical(t, ParseLL(t).value);
    }
    forall n | LLONG_MIN <= n <= LLONG_MAX && t == DecimalInt(n)
      ensures ParseLL(t).Some?
    {
      ParseLLCanonical(t, n);
    }
  }

  lemma LineJudged(cfg: Config, c: char, t: string)
    requires IsLineByte(c) && TypeOf(c).Some? && !TypeOf(c).value.TString? && !TypeOf(c).value.TVerb? && !TypeOf(c).value.TAgg?
    ensures var l := ParseLine(cfg, TypeOf(c).value, t); if LineOk(cfg, c, t) then l.Good? else l == Bad(Refusal(c, t))
  {
    hide ParseLL, DecimalInt, IsNumeral, EqualsIgnoreCase, Folded;
    NumeralExact(t);
    FoldedIsEqual(t);
  }

  /** An item of one line is read exactly if the line suits its type; else the error says which type it is. */
  lemma LineExact(cfg: Config, depth: nat, c: char, t: string, tail: string)
    requires IsLineByte(c) && NoCrlf(t)
    ensures var p := ParseItem(cfg, depth, [c] + (t + (CRLF + tail)));
      if !Measured(t) then p == Fail(LineOverflow)
      else if LineOk(cfg, c, t) then p.Done? && p.rest == tail
      else p == Fail(Refusal(c, t))
  {
    hide FindCrlf, ParseLine, NoCrlf, LineOk, Measured;
    var s := t + (CRLF + tail);
    assert ([c] + s)[0] == c && ([c] + s)[1..] == s;
    FirstLine(t, tail);
    MeasuredFits(t);
    LineJudged(cfg, c, t);
    assert ParseItem(cfg, depth, [c] + s) == ParseBody(cfg, depth, TypeOf(c).value, s);
  }

  lemma HeaderRead(cfg: Config, depth: nat, c: char, t: string, tail: string)
    requires NoCrlf(t) && Measured(t) && (c == '$' || c == '=' || c == '*' || c == '%' || c == '~' || c == '>')
    requires TypeOf(c).Some? && (TypeOf(c).value.TString? || TypeOf(c).value.TVerb? || TypeOf(c).value.TAgg?)
    ensures var h := ReadHead(cfg, depth, TypeOf(c).value, t + (CRLF + tail));
      var p := ParseItem(cfg, depth, [c] + (t + (CRLF + tail)));
      && (h.HeadFail? ==> p == Fail(h.error)) && (h.HeadMore? ==> p == More)
      && (var y := TypeOf(c).value;
          h == if y.TAgg? && depth >= MAX_DEPTH then HeadFail(DepthOverflow)
               else if y.TAgg? then AggHead(cfg, y.kind, t, tail) else BulkHead(y, t, tail))
  {
    hide FindCrlf, BulkHead, AggHead, NoCrlf, Measured;
    var s := t + (CRLF + tail);
    assert ([c] + s)[0] == c && ([c] + s)[1..] == s;
    FirstLine(t, tail);
    MeasuredFits(t);
    assert ParseItem(cfg, depth, [c] + s) == ParseBody(cfg, depth, TypeOf(c).value, s);
  }

  /** A bulk or an aggregate whose header is no numeral of 64 bits. */
  lemma NoLength(cfg: Config, depth: nat, c: char, t: string, tail: string)
    requires NoCrlf(t) && Measured(t) && !IsNumeral(t)
    requires c == '$' || c == '=' || (depth < MAX_DEPTH && (c == '*' || c == '%' || c == '~' || c == '>'))
    ensures ParseItem(cfg, depth, [c] + (t + (CRLF + tail)))
         == Fail(if c == '$' || c == '=' then BadBulkLength else BadMultiBulkLength)
  {
    hide ParseLL, IsNumeral, ReadHead, ParseItem;
    NumeralExact(t);
    HeaderRead(cfg, depth, c, t, tail);
  }

  /** A bulk of a given length: refused, waiting for its bytes, or read. */
  lemma BulkExact(cfg: Config, depth: nat, c: char, n: int, tail: string)
    requires (c == '$' || c == '=') && LLONG_MIN <= n <= LLONG_MAX
    ensures var p := ParseItem(cfg, depth, [c] + (DecimalInt(n) + (CRLF + tail)));
      if n < -1 then p == Fail(BulkLengthRange)
      else if n > LLONG_MAX - 2 then p == Fail(LengthOverflow)
      else if |tail| < n + 2 && n != -1 then p == More
      else if c == '=' && n != -1 && (n < 4 || tail[3] != ':') then p == Fail(BadVerbatim)
      else p.Done?
  {
    hide ParseLL, DecimalInt, ReadHead, ParseItem, Measured;
    DigitsAreClean(n);
    ShortNumeral(n);
    ParseOfDecimal(n);
    HeaderRead(cfg, depth, c, DecimalInt(n), tail);
    BulkJudged(c, DecimalInt(n), n, tail);
    if n == -1 {
      MinusOne();
      ShowRead(cfg, depth, WNullBulk(c == '='), tail);
      ShowParts(WNullBulk(c == '='), tail);
      assert "" + tail == tail;
      Assemble(WNullBulk(c == '='), [c] + (DecimalInt(n) + (CRLF + tail)), tail);
    } else if 0 <= n <= LLONG_MAX - 2 && n + 2 <= |tail| && (c == '$' || (n >= 4 && tail[3] == ':')) {
      var x, rest := tail[..n], tail[n + 2..];
      var w := if c == '$' then WBulk(x, tail[n], tail[n + 1]) else WVerb(x[..3], x[4..], tail[n], tail[n + 1]);
      assert c == '=' ==> x == x[..3] + ":" + x[4..];
      assert tail == x + [tail[n], tail[n + 1]] + rest;
      ShowRead(cfg, depth, w, rest);
      Assemble(w, [c] + (DecimalInt(n) + (CRLF + tail)), rest);
    }
  }

  lemma BulkJudged(c: char, t: string, n: int, tail: string)
    requires (c == '$' || c == '=') && ParseLL(t) == Some(n) && TypeOf(c).Some? && (TypeOf(c).value.TString? || TypeOf(c).value.TVerb?)
    ensures var h := BulkHead(TypeOf(c).value, t, tail);
      && (n < -1 ==> h == HeadFail(BulkLengthRange)) && (n > LLONG_MAX - 2 ==> h == HeadFail(LengthOverflow))
      && (0 <= n <= LLONG_MAX - 2 && |tail| < n + 2 ==> h == HeadMore)
      && (0 <= n <= LLONG_MAX - 2 && |tail| >= n + 2 && c == '=' && (n < 4 || tail[3] != ':') ==> h == HeadFail(BadVerbatim))
  {
    hide ParseLL;
  }

  /** An aggregate header that is refused. */
  lemma AggRefused(cfg: Config, depth: nat, kind: AggKind, n: int, tail: string)
    requires LLONG_MIN <= n <= LLONG_MAX
    ensures var p := ParseItem(cfg, depth, [KindByte(kind)] + (DecimalInt(n) + (CRLF + tail)));
      && (depth >= MAX_DEPTH ==> p == Fail(DepthOverflow))
      && (depth < MAX_DEPTH && (n < -1 || (cfg.maxElements > 0 && n > cfg.maxElements)) ==> p == Fail(MultiBulkRange))
      && (depth < MAX_DEPTH && (cfg.maxElements == 0 || n <= cfg.maxElements) && kind.Map? && 2 * n > LLONG_MAX
          ==> p == Fail(CountOverflow))
  {
    hide ParseLL, DecimalInt, ReadHead, ParseItem, Measured;
    DigitsAreClean(n);
    ShortNumeral(n);
    ParseOfDecimal(n);
    HeaderRead(cfg, depth, KindByte(kind), DecimalInt(n), tail);
  }
}
