/**
 * Quoted arguments (deps/hiredis/sds.c:875-1059): `sdscatrepr` writes a byte string as a quoted literal,
 * `sdssplitargs` splits a line into plain, "double" and 'single' quoted arguments. A byte is a char below
 * 256; the classification of characters is that of the C locale.
 */
module SdsQuote {
  import opened Common

  predicate IsBytes(s: string) {
    forall i :: 0 <= i < |s| ==> s[i] as int < 256
  }

  predicate IsPrint(c: char) {
    ' ' <= c <= '~'
  }

  predicate IsSpace(c: char) {
    c == ' ' || 9 <= c as int <= 13
  }

  /** What ends an argument without quotes: fewer characters than the blanks that may precede one. */
  predicate EndsBare(c: char) {
    c == ' ' || c == '\n' || c == '\r' || c == '\t'
  }

  predicate IsHex(c: char) {
    '0' <= c <= '9' || 'a' <= c <= 'f' || 'A' <= c <= 'F'
  }

  const BELL := 7 as char
  const BACKSPACE := 8 as char

  /** A digit of the conversion %02x. */
  function HexDigit(n: nat): (c: char)
    requires n < 16
    ensures IsHex(c)
  {
    if n < 10 then ('0' as int + n) as char else ('a' as int + n - 10) as char
  }

  /** `hex_digit_to_int` (sds.c:902-922) */
  function HexValue(c: char): (n: nat)
    ensures n < 16
  {
    if '0' <= c <= '9' then c as int - '0' as int
    else if 'a' <= c <= 'f' then 10 + c as int - 'a' as int
    else if 'A' <= c <= 'F' then 10 + c as int - 'A' as int
    else 0
  }

  lemma HexRoundTrip(n: nat)
    requires n < 16
    ensures HexValue(HexDigit(n)) == n
  {
  }

  /** How one byte is written inside double quotes. */
  function Escape(c: char): (e: string)
    requires c as int < 256
    ensures e != "" && '\0' !in e
  {
    if c == '\\' || c == '"' then ['\\', c]
    else if c == '\n' then "\\n"
    else if c == '\r' then "\\r"
    else if c == '\t' then "\\t"
    else if c == BELL then "\\a"
    else if c == BACKSPACE then "\\b"
    else if IsPrint(c) then [c]
    else ['\\', 'x', HexDigit(c as int / 16), HexDigit(c as int % 16)]
  }

  function Escaped(s: string): string
    requires IsBytes(s)
  {
    if s == "" then "" else Escape(s[0]) + Escaped(s[1..])
  }

  function Repr(s: string): string
    requires IsBytes(s)
  {
    "\"" + Escaped(s) + "\""
  }

  /** `sdscatrepr` (sds.c:875-898) */
  method CatRepr(s: string, p: string) returns (r: string)
    requires IsBytes(p)
    ensures r == s + Repr(p)
  {
    r := s + "\"";
    for i := 0 to |p|
      invariant r + Escaped(p[i..]) == s + "\"" + Escaped(p)
    {
      assert p[i..][0] == p[i] && p[i..][1..] == p[i + 1..];
      Assoc(r, Escape(p[i]), Escaped(p[i + 1..]));
      if p[i] == '\\' || p[i] == '"' {
        r := r + ['\\', p[i]];
      } else if p[i] == '\n' {
        r := r + "\\n";
      } else if p[i] == '\r' {
        r := r + "\\r";
      } else if p[i] == '\t' {
        r := r + "\\t";
      } else if p[i] == BELL {
        r := r + "\\a";
      } else if p[i] == BACKSPACE {
        r := r + "\\b";
      } else if IsPrint(p[i]) {
        r := r + [p[i]];
      } else {
        r := r + ['\\', 'x', HexDigit(p[i] as int / 16), HexDigit(p[i] as int % 16)];
      }
    }
    assert r + Escaped("") == r;
    Assoc(s, "\"", Escaped(p));
    Assoc(s, "\"" + Escaped(p), "\"");
    r := r + "\"";
  }

  // ----- Splitting -----

  /** The byte at a position of a NUL-terminated string. */
  function At(line: string, p: nat): char {
    if p < |line| then line[p] else '\0'
  }

  datatype Mode = Plain | Double | Single

  /** A token and the position after it, or unbalanced quotes. */
  datatype Token = Token(text: string, next: nat) | Unbalanced

  /** A closing quote must be followed by a blank or by nothing at all. */
  predicate MayClose(line: string, p: nat) {
    At(line, p + 1) == '\0' || IsSpace(At(line, p + 1))
  }

  function Unescape(c: char): char {
    match c
    case 'n' => '\n'
    case 'r' => '\r'
    case 't' => '\t'
    case 'b' => BACKSPACE
    case 'a' => BELL
    case _ => c
  }

  predicate HexEscape(line: string, p: nat) {
    At(line, p) == '\\' && At(line, p + 1) == 'x' && IsHex(At(line, p + 2)) && IsHex(At(line, p + 3))
  }

  function HexByte(line: string, p: nat): char {
    (HexValue(At(line, p + 2)) * 16 + HexValue(At(line, p + 3))) as char
  }

  /** What a step in one of the three modes does: take a byte, switch the mode, end, or fail. */
  datatype Action = Take(c: char, width: nat) | Switch(mode: Mode) | Finish | Fail

  function Look(line: string, p: nat, mode: Mode): (a: Action)
    ensures a.Take? ==> a.width > 0 && p + a.width <= |line|
    ensures a.Switch? ==> p < |line|
    ensures a.Finish? && At(line, p) != '\0' ==> p < |line|
  {
    var c := At(line, p);
    match mode
    case Double =>
      if HexEscape(line, p) then Take(HexByte(line, p), 4)
      else if c == '\\' && At(line, p + 1) != '\0' then Take(Unescape(At(line, p + 1)), 2)
      else if c == '"' then (if MayClose(line, p) then Finish else Fail)
      else if c == '\0' then Fail
      else Take(c, 1)
    case Single =>
      if c == '\\' && At(line, p + 1) == '\'' then Take('\'', 2)
      else if c == '\'' then (if MayClose(line, p) then Finish else Fail)
      else if c == '\0' then Fail
      else Take(c, 1)
    case Plain =>
      if c == '\0' || EndsBare(c) then Finish
      else if c == '"' then Switch(Double)
      else if c == '\'' then Switch(Single)
      else Take(c, 1)
  }

  function TokenFrom(line: string, p: nat, mode: Mode, cur: string): (t: Token)
    requires p <= |line|
    ensures t.Token? ==> p <= t.next <= |line| && (At(line, p) != '\0' ==> p < t.next)
    decreases |line| - p
  {
    match Look(line, p, mode)
    case Fail => Unbalanced
    case Finish => Token(cur, if At(line, p) != '\0' then p + 1 else p)
    case Switch(m) => TokenFrom(line, p + 1, m, cur)
    case Take(c, width) => TokenFrom(line, p + width, mode, cur + [c])
  }

  function SkipBlanks(line: string, p: nat): (q: nat)
    requires p <= |line|
    ensures p <= q <= |line|
    decreases |line| - p
  {
    if p < |line| && IsSpace(line[p]) then SkipBlanks(line, p + 1) else p
  }

  function SplitFrom(line: string, p: nat, args: seq<string>): Option<seq<string>>
    requires p <= |line|
    decreases |line| - p
  {
    var q := SkipBlanks(line, p);
    if At(line, q) == '\0' then Some(args)
    else
      match TokenFrom(line, q, Plain, "")
      case Unbalanced => None
      case Token(text, next) => SplitFrom(line, next, args + [text])
  }

  /** The arguments of a line. */
  function Split(line: string): Option<seq<string>> {
    SplitFrom(line, 0, [])
  }

  /** The inner loop of `sdssplitargs` (sds.c:959-1031): one token. */
  method GetToken(line: string, start: nat) returns (t: Token)
    requires start <= |line|
    ensures t == TokenFrom(line, start, Plain, "")
  {
    var p: nat, current, inq, insq, done := start, "", false, false, false;
    while !done
      invariant p <= |line| && !(inq && insq)
      invariant !done ==> TokenFrom(line, p, if inq then Double else if insq then Single else Plain, current)
                          == TokenFrom(line, start, Plain, "")
      invariant done ==> TokenFrom(line, start, Plain, "") == Token(current, p)
      decreases !done, |line| - p
    {
      var c := At(line, p);
      if inq {
        if HexEscape(line, p) {
          current := current + [HexByte(line, p)];
          p := p + 3;
        } else if c == '\\' && At(line, p + 1) != '\0' {
          p := p + 1;
          current := current + [Unescape(line[p])];
        } else if c == '"' {
          if !MayClose(line, p) {
            return Unbalanced;
          }
          done := true;
        } else if c == '\0' {
          return Unbalanced;
        } else {
          current := current + [c];
        }
      } else if insq {
        if c == '\\' && At(line, p + 1) == '\'' {
          p := p + 1;
          current := current + "'";
        } else if c == '\'' {
          if !MayClose(line, p) {
            return Unbalanced;
          }
          done := true;
        } else if c == '\0' {
          return Unbalanced;
        } else {
          current := current + [c];
        }
      } else {
        if c == '\0' || EndsBare(c) {
          done := true;
        } else if c == '"' {
          inq := true;
        } else if c == '\'' {
          insq := true;
        } else {
          current := current + [c];
        }
      }
      if At(line, p) != '\0' {
        p := p + 1;
      }
    }
    t := Token(current, p);
  }

  /** `sdssplitargs` (sds.c:943-1059); nothing is returned for unbalanced quotes. */
  method SplitArgs(line: string) returns (r: Option<seq<string>>)
    ensures r == Split(line)
  {
    var p, vector := 0, [];
    while true
      invariant p <= |line|
      invariant SplitFrom(line, p, vector) == Split(line)
      decreases |line| - p
    {
      ghost var from := p;
      while p < |line| && IsSpace(line[p])
        invariant from <= p <= |line| && SkipBlanks(line, p) == SkipBlanks(line, from)
      {
        p := p + 1;
      }
      if At(line, p) == '\0' {
        return Some(vector);
      }
      var t := GetToken(line, p);
      if t.Unbalanced? {
        return None;
      }
      vector := vector + [t.text];
      p := t.next;
    }
  }

  // ----- What a line means -----

  const LOWER_DIGITS := "0123456789abcdef"
  const UPPER_DIGITS := "0123456789ABCDEF"

  type Byte = n: nat | n < 256

  /** How a byte may be spelled inside double quotes. */
  datatype Piece =
    | Raw(c: char)
    | Backslashed(c: char)
    | Hex(byte: Byte, upperHigh: bool, upperLow: bool)

  function Digit(n: nat, upper: bool): char
    requires n < 16
  {
    if upper then UPPER_DIGITS[n] else LOWER_DIGITS[n]
  }

  function PieceText(x: Piece): string {
    match x
    case Raw(c) => [c]
    case Backslashed(c) => ['\\', c]
    case Hex(b, high, low) => ['\\', 'x', Digit(b / 16, high), Digit(b % 16, low)]
  }

  /** The byte that is meant: five letters behind a backslash stand for control characters. */
  function PieceByte(x: Piece): char {
    match x
    case Raw(c) => c
    case Backslashed(c) =>
      if c == 'n' then 10 as char else if c == 'r' then 13 as char else if c == 't' then 9 as char
      else if c == 'a' then 7 as char else if c == 'b' then 8 as char else c
    case Hex(b, _, _) => b as char
  }

  function PiecesText(xs: seq<Piece>): string {
    if xs == [] then "" else PieceText(xs[0]) + PiecesText(xs[1..])
  }

  function PiecesBytes(xs: seq<Piece>): (s: string)
    ensures |s| == |xs|
  {
    if xs == [] then "" else [PieceByte(xs[0])] + PiecesBytes(xs[1..])
  }

  predicate HexPair(s: string) {
    |s| >= 2 && IsHex(s[0]) && IsHex(s[1])
  }

  /** A spelling that means what it says before `rest`. */
  predicate PieceOk(x: Piece, rest: string) {
    match x
    case Raw(c) => c != '\\' && c != '"' && c != '\0'
    case Backslashed(c) => c != '\0' && (c == 'x' ==> !HexPair(rest))
    case Hex(_, _, _) => true
  }

  /** Spellings that mean what they say before `after`: a backslash and an x are not followed by two digits. */
  predicate DoubleOk(xs: seq<Piece>, after: string)
    decreases xs
  {
    xs != [] ==>
      PieceOk(xs[0], PiecesText(xs[1..]) + after) && DoubleOk(xs[1..], after)
  }

  function SingleByte(c: char): string {
    if c == '\'' then "\\'" else [c]
  }

  /** Inside single quotes only a single quote is written otherwise. */
  function SingleText(s: string): string {
    if s == "" then "" else SingleByte(s[0]) + SingleText(s[1..])
  }

  predicate NulFree(s: string) {
    forall i :: 0 <= i < |s| ==> s[i] != '\0'
  }

  predicate Begins(s: string, c: char) {
    s != "" && s[0] == c
  }

  /** A backslash at the end would take the closing quote with it. */
  predicate SingleOk(s: string, after: string) {
    NulFree(s) && (s != "" && Begins(after, '\'') ==> Last(s) != '\\')
  }

  predicate Ordinary(c: char) {
    !EndsBare(c) && c != '\0' && c != '"' && c != '\''
  }

  datatype Quote = Unquoted | Doubled(pieces: seq<Piece>) | Singled(text: string)

  /** An argument in a line: the blanks before it, what is written bare, and what then follows in quotes. */
  datatype Word = Word(gap: string, bare: string, quote: Quote)

  /** What stands between the quotes, and the quote itself. */
  function Mark(q: Quote): char
    requires !q.Unquoted?
  {
    if q.Doubled? then '"' else '\''
  }

  function Inside(q: Quote): string
    requires !q.Unquoted?
  {
    if q.Doubled? then PiecesText(q.pieces) else SingleText(q.text)
  }

  function Meant(q: Quote): string {
    match q
    case Unquoted => ""
    case Doubled(xs) => PiecesBytes(xs)
    case Singled(s) => s
  }

  function Text(w: Word): string {
    if w.quote.Unquoted? then w.bare else w.bare + ([Mark(w.quote)] + Inside(w.quote) + [Mark(w.quote)])
  }

  function Arg(w: Word): string {
    w.bare + Meant(w.quote)
  }

  predicate Bare(s: string) {
    (s != "" ==> !IsSpace(s[0])) && forall i :: 0 <= i < |s| ==> Ordinary(s[i])
  }

  predicate InsideOk(q: Quote, after: string) {
    match q
    case Unquoted => true
    case Doubled(xs) => DoubleOk(xs, after)
    case Singled(s) => SingleOk(s, after)
  }

  predicate WellWritten(w: Word) {
    && Bare(w.bare)
    && (if w.quote.Unquoted? then w.bare != "" else InsideOk(w.quote, [Mark(w.quote)]))
  }

  predicate Blank(s: string) {
    forall i :: 0 <= i < |s| ==> IsSpace(s[i])
  }

  /**
   * How a line ends: with blanks, or with an argument whose quote is not closed, or is closed before
   * something that is no blank.
   */
  datatype Ending = Blanks(tail: string) | Flaw(gap: string, bare: string, quote: Quote, more: string)

  /** What may stand behind the inside of a quote that is never rightly closed. */
  predicate Flawed(q: Quote, more: string)
    requires !q.Unquoted?
  {
    || more == ""
    || (q.Doubled? && more == "\\")
    || (|more| >= 2 && more[0] == Mark(q) && !IsSpace(more[1]) && more[1] != '\0')
  }

  predicate EndingOk(e: Ending) {
    match e
    case Blanks(tail) => Blank(tail)
    case Flaw(gap, bare, q, more) =>
      Blank(gap) && Bare(bare) && !q.Unquoted? && InsideOk(q, more) && Flawed(q, more)
  }

  function EndingText(e: Ending): string
    requires EndingOk(e)
  {
    match e
    case Blanks(tail) => tail
    case Flaw(gap, bare, q, more) => gap + (bare + ([Mark(q)] + Inside(q) + more))
  }

  function GapOf(e: Ending): string {
    if e.Blanks? then e.tail else e.gap
  }

  /** Blanks that end the argument before them: a vertical tab or form feed does not end a bare one. */
  predicate Ends(previous: Option<Word>, gap: string) {
    previous.Some? && gap != "" ==> !previous.value.quote.Unquoted? || EndsBare(gap[0])
  }

  /** Arguments that are well written, with blanks around them. */
  predicate Spaced(previous: Option<Word>, ws: seq<Word>, e: Ending)
    decreases ws
  {
    if ws == [] then EndingOk(e) && Ends(previous, GapOf(e)) && (previous.Some? && e.Flaw? ==> e.gap != "")
    else
      && Blank(ws[0].gap) && (previous.Some? ==> ws[0].gap != "") && Ends(previous, ws[0].gap)
      && WellWritten(ws[0])
      && Spaced(Some(ws[0]), ws[1..], e)
  }

  function Line(previous: Option<Word>, ws: seq<Word>, e: Ending): string
    requires Spaced(previous, ws, e)
    decreases ws
  {
    if ws == [] then EndingText(e) else ws[0].gap + (Text(ws[0]) + Line(Some(ws[0]), ws[1..], e))
  }

  function Args(ws: seq<Word>): (args: seq<string>)
    ensures |args| == |ws|
  {
    if ws == [] then [] else [Arg(ws[0])] + Args(ws[1..])
  }

  // ----- Reading what was written -----

  /** The line goes on with `s` from `p` to its end. */
  predicate Stands(line: string, p: nat, s: string): (b: bool)
    ensures b ==> p + |s| == |line|
  {
    p <= |line| && line[p..] == s
  }

  lemma AtIs(line: string, p: nat, s: string, k: nat)
    requires Stands(line, p, s)
    ensures At(line, p + k) == At(s, k)
  {
  }

  lemma Rest(line: string, p: nat, a: string, b: string)
    requires Stands(line, p, a + b)
    ensures Stands(line, p + |a|, b)
  {
    assert line[p + |a|..] == line[p..][|a|..];
  }

  lemma RestOfThree(line: string, p: nat, a: string, b: string, c: string)
    requires Stands(line, p, a + b + c) || Stands(line, p, a + (b + c))
    ensures Stands(line, p, a + (b + c)) && Stands(line, p + |a|, b + c) && |a + b| == |a| + |b|
  {
    Assoc(a, b, c);
    Rest(line, p, a, b + c);
  }

  lemma DigitValue(n: nat, upper: bool)
    requires n < 16
    ensures IsHex(Digit(n, upper)) && HexValue(Digit(n, upper)) == n
  {
  }

  lemma PieceRead(line: string, p: nat, x: Piece, rest: string)
    requires Stands(line, p, PieceText(x) + rest) && PieceOk(x, rest)
    ensures Look(line, p, Double) == Take(PieceByte(x), |PieceText(x)|)
  {
    hide Stands;
    var s := PieceText(x) + rest;
    AtIs(line, p, s, 0);
    AtIs(line, p, s, 1);
    AtIs(line, p, s, 2);
    AtIs(line, p, s, 3);
    if x.Hex? {
      DigitValue(x.byte / 16, x.upperHigh);
      DigitValue(x.byte % 16, x.upperLow);
    }
  }

  /** One byte of a token. */
  lemma TakeOne(line: string, p: nat, mode: Mode, cur: string)
    requires p <= |line| && Look(line, p, mode).Take?
    ensures var a := Look(line, p, mode); TokenFrom(line, p, mode, cur) == TokenFrom(line, p + a.width, mode, cur + [a.c])
  {
    hide Look;
  }

  lemma PiecesStep(line: string, p: nat, xs: seq<Piece>, after: string, cur: string)
    requires xs != [] && Stands(line, p, PiecesText(xs) + after) && DoubleOk(xs, after)
    ensures var q, t := p + |PieceText(xs[0])|, PiecesText(xs[1..]);
      && Stands(line, q, t + after) && p + |PiecesText(xs)| == q + |t| && DoubleOk(xs[1..], after)
      && TokenFrom(line, p, Double, cur) == TokenFrom(line, q, Double, cur + [PieceByte(xs[0])])
  {
    hide Look, At, Stands, TokenFrom, PieceText, PieceByte;
    var t, rest := PieceText(xs[0]), PiecesText(xs[1..]);
    RestOfThree(line, p, t, rest, after);
    PieceRead(line, p, xs[0], rest + after);
    TakeOne(line, p, Double, cur);
  }

  lemma {:induction false} PiecesRead(line: string, p: nat, xs: seq<Piece>, after: string, cur: string)
    requires Stands(line, p, PiecesText(xs) + after) && DoubleOk(xs, after)
    ensures Stands(line, p + |PiecesText(xs)|, after)
    ensures TokenFrom(line, p, Double, cur) == TokenFrom(line, p + |PiecesText(xs)|, Double, cur + PiecesBytes(xs))
    decreases xs
  {
    hide TokenFrom, Stands, DoubleOk, PieceText, PieceByte;
    if xs == [] {
      assert cur + PiecesBytes(xs) == cur && PiecesText(xs) + after == after;
    } else {
      PiecesStep(line, p, xs, after, cur);
      PiecesRead(line, p + |PieceText(xs[0])|, xs[1..], after, cur + [PieceByte(xs[0])]);
      Assoc(cur, [PieceByte(xs[0])], PiecesBytes(xs[1..]));
    }
  }

  lemma SingleStep(line: string, p: nat, s: string, after: string, cur: string)
    requires s != "" && Stands(line, p, SingleText(s) + after) && SingleOk(s, after)
    ensures var q, t := p + |SingleByte(s[0])|, SingleText(s[1..]);
      && Stands(line, q, t + after) && p + |SingleText(s)| == q + |t| && SingleOk(s[1..], after)
      && TokenFrom(line, p, Single, cur) == TokenFrom(line, q, Single, cur + [s[0]])
  {
    hide Look, At, Stands, TokenFrom, SingleOk;
    RestOfThree(line, p, SingleByte(s[0]), SingleText(s[1..]), after);
    SingleLook(line, p, s, after);
    SingleTail(s, after);
    TakeOne(line, p, Single, cur);
  }

  lemma {:induction false} SingleRead(line: string, p: nat, s: string, after: string, cur: string)
    requires Stands(line, p, SingleText(s) + after) && SingleOk(s, after)
    ensures Stands(line, p + |SingleText(s)|, after)
    ensures TokenFrom(line, p, Single, cur) == TokenFrom(line, p + |SingleText(s)|, Single, cur + s)
    decreases s
  {
    hide TokenFrom, Stands, SingleOk;
    if s == "" {
      assert cur + s == cur && SingleText(s) + after == after;
    } else {
      SingleStep(line, p, s, after, cur);
      SingleRead(line, p + |SingleByte(s[0])|, s[1..], after, cur + [s[0]]);
      assert [s[0]] + s[1..] == s;
      Assoc(cur, [s[0]], s[1..]);
    }
  }

  lemma SingleTail(s: string, after: string)
    requires SingleOk(s, after) && s != ""
    ensures SingleOk(s[1..], after)
  {
  }

  /** The first byte of a single quoted text: a backslash only before a quote that it writes. */
  lemma FirstSingle(s: string, after: string)
    ensures var t := SingleText(s) + after;
      At(t, 0) == '\'' ==> s == "" && Begins(after, '\'')
  {
    if s != "" {
      assert (SingleText(s) + after)[0] == SingleByte(s[0])[0];
    }
  }

  lemma SingleLook(line: string, p: nat, s: string, after: string)
    requires s != "" && Stands(line, p, SingleText(s) + after) && SingleOk(s, after)
    ensures Look(line, p, Single) == Take(s[0], if s[0] == '\'' then 2 else 1)
  {
    hide Stands, SingleText;
    var t, rest := SingleByte(s[0]), SingleText(s[1..]) + after;
    SingleTextHead(s);
    RestOfThree(line, p, t, SingleText(s[1..]), after);
    AtIs(line, p, t + rest, 0);
    AtIs(line, p + |t|, rest, 0);
    FirstSingle(s[1..], after);
    assert s[0] != '\0';
    if s[0] == '\'' {
      AtIs(line, p, t + rest, 1);
    } else {
      assert At(line, p) == s[0] && At(line, p + 1) == At(rest, 0);
      assert s[0] == '\\' && s[1..] == "" ==> Last(s) == '\\';
    }
  }

  lemma SingleTextHead(s: string)
    requires s != ""
    ensures SingleText(s) == SingleByte(s[0]) + SingleText(s[1..])
  {
  }

  /** Where a quote opens. */
  lemma OpenRead(line: string, p: nat, q: Quote, rest: string, cur: string)
    requires !q.Unquoted? && Stands(line, p, [Mark(q)] + rest)
    ensures p + 1 <= |line| && Stands(line, p + 1, rest)
    ensures TokenFrom(line, p, Plain, cur) == TokenFrom(line, p + 1, if q.Doubled? then Double else Single, cur)
  {
    hide Stands;
    AtIs(line, p, [Mark(q)] + rest, 0);
    Rest(line, p, [Mark(q)], rest);
  }

  /** What stands inside a quote is read as what is meant. */
  lemma InsideRead(line: string, p: nat, q: Quote, after: string, cur: string)
    requires !q.Unquoted? && Stands(line, p, [Mark(q)] + (Inside(q) + after)) && InsideOk(q, after)
    ensures var end := p + 1 + |Inside(q)|;
      && Stands(line, end, after) && p < |line|
      && TokenFrom(line, p, Plain, cur) == TokenFrom(line, end, if q.Doubled? then Double else Single, cur + Meant(q))
  {
    hide PiecesText, SingleText, DoubleOk, SingleOk, PiecesBytes, Stands, TokenFrom;
    OpenRead(line, p, q, Inside(q) + after, cur);
    if q.Doubled? {
      PiecesRead(line, p + 1, q.pieces, after, cur);
    } else {
      SingleRead(line, p + 1, q.text, after, cur);
    }
  }

  /** At the closing quote. */
  lemma CloseRead(line: string, p: nat, q: Quote, rest: string, cur: string)
    requires !q.Unquoted? && Stands(line, p, [Mark(q)] + rest)
    ensures Stands(line, p + 1, rest)
    ensures TokenFrom(line, p, if q.Doubled? then Double else Single, cur)
         == if rest == "" || IsSpace(rest[0]) || rest[0] == '\0' then Token(cur, p + 1) else Unbalanced
  {
    hide Stands;
    var all := [Mark(q)] + rest;
    Rest(line, p, [Mark(q)], rest);
    AtIs(line, p, all, 0);
    AtIs(line, p, all, 1);
  }

  /** Where the line ends inside a quote. */
  lemma {:induction false} OpenEnd(line: string, p: nat, q: Quote, more: string, cur: string)
    requires !q.Unquoted? && Stands(line, p, more) && (more == "" || (q.Doubled? && more == "\\"))
    ensures TokenFrom(line, p, if q.Doubled? then Double else Single, cur) == Unbalanced
    decreases |more|
  {
    AtIs(line, p, more, 0);
    AtIs(line, p, more, 1);
    if more != "" {
      assert more + "" == more;
      Rest(line, p, more, "");
      OpenEnd(line, p + 1, q, "", cur + [more[0]]);
    }
  }

  lemma BareStep(line: string, p: nat, s: string, rest: string, cur: string)
    requires s != "" && Stands(line, p, s + rest) && Ordinary(s[0])
    ensures Stands(line, p + 1, s[1..] + rest)
    ensures TokenFrom(line, p, Plain, cur) == TokenFrom(line, p + 1, Plain, cur + [s[0]])
  {
    hide Stands;
    AtIs(line, p, s + rest, 0);
    assert s == [s[0]] + s[1..];
    RestOfThree(line, p, [s[0]], s[1..], rest);
  }

  lemma {:induction false} BareRead(line: string, p: nat, s: string, rest: string, cur: string)
    requires Stands(line, p, s + rest) && forall i :: 0 <= i < |s| ==> Ordinary(s[i])
    ensures Stands(line, p + |s|, rest)
    ensures TokenFrom(line, p, Plain, cur) == TokenFrom(line, p + |s|, Plain, cur + s)
    decreases s
  {
    hide Stands, TokenFrom, Ordinary;
    if s == "" {
      assert cur + s == cur && s + rest == rest;
    } else {
      BareStep(line, p, s, rest, cur);
      BareRead(line, p + 1, s[1..], rest, cur + [s[0]]);
      assert [s[0]] + s[1..] == s;
      Assoc(cur, [s[0]], s[1..]);
    }
  }

  /** A bare argument ends before a blank, which is taken with it, or at the end. */
  lemma BareEnd(line: string, p: nat, rest: string, cur: string)
    requires Stands(line, p, rest) && (rest == "" || EndsBare(rest[0]))
    ensures TokenFrom(line, p, Plain, cur) == Token(cur, if rest == "" then p else p + 1)
  {
    hide Stands;
    AtIs(line, p, rest, 0);
  }

  /** What may follow an argument. */
  predicate MayFollow(w: Word, rest: string) {
    rest == "" || (IsSpace(rest[0]) && (w.quote.Unquoted? ==> EndsBare(rest[0])))
  }

  lemma BareWordRead(line: string, p: nat, bare: string, rest: string)
    requires Stands(line, p, bare + rest) && Bare(bare) && (rest == "" || EndsBare(rest[0]))
    ensures Stands(line, p + |bare|, rest)
    ensures TokenFrom(line, p, Plain, "") == Token(bare, p + |bare| + if rest != "" then 1 else 0)
  {
    hide TokenFrom, Stands, Ordinary;
    BareRead(line, p, bare, rest, "");
    assert "" + bare == bare;
    BareEnd(line, p + |bare|, rest, bare);
  }

  lemma QuotedWordRead(line: string, p: nat, bare: string, q: Quote, rest: string)
    requires !q.Unquoted? && Bare(bare) && InsideOk(q, [Mark(q)]) && (rest == "" || IsSpace(rest[0]))
    requires Stands(line, p, bare + ([Mark(q)] + (Inside(q) + ([Mark(q)] + rest))))
    ensures var end := p + |bare| + |Inside(q)| + 2;
      Stands(line, end, rest) && TokenFrom(line, p, Plain, "") == Token(bare + Meant(q), end)
  {
    hide TokenFrom, InsideOk, Inside, Meant, Stands, Ordinary;
    var m := [Mark(q)];
    BareRead(line, p, bare, m + (Inside(q) + (m + rest)), "");
    assert "" + bare == bare;
    AfterMark(q, rest);
    InsideRead(line, p + |bare|, q, m + rest, bare);
    CloseRead(line, p + |bare| + 1 + |Inside(q)|, q, rest, bare + Meant(q));
  }

  /** A word taken apart. */
  lemma WordParts(w: Word, rest: string)
    ensures w.quote.Unquoted? ==> Text(w) == w.bare && Arg(w) == w.bare
    ensures !w.quote.Unquoted? ==>
      var m, t := [Mark(w.quote)], Inside(w.quote);
      Text(w) + rest == w.bare + (m + (t + (m + rest))) && |Text(w)| == |w.bare| + |t| + 2
  {
    if !w.quote.Unquoted? {
      var m, t := [Mark(w.quote)], Inside(w.quote);
      Assoc(w.bare, m + t + m, rest);
      Assoc(m + t, m, rest);
      Assoc(m, t, m + rest);
    }
  }

  lemma WordRead(line: string, p: nat, w: Word, rest: string)
    requires Stands(line, p, Text(w) + rest) && WellWritten(w) && MayFollow(w, rest)
    ensures Stands(line, p + |Text(w)|, rest)
    ensures TokenFrom(line, p, Plain, "")
         == Token(Arg(w), p + |Text(w)| + if w.quote.Unquoted? && rest != "" then 1 else 0)
  {
    hide TokenFrom, InsideOk, Inside, Meant, Stands, Text, Bare;
    WordParts(w, rest);
    if w.quote.Unquoted? {
      BareWordRead(line, p, w.bare, rest);
    } else {
      QuotedWordRead(line, p, w.bare, w.quote, rest);
    }
  }

  /** Only the closing quote itself matters to what is written before it. */
  lemma AfterMark(q: Quote, rest: string)
    requires !q.Unquoted? && InsideOk(q, [Mark(q)])
    ensures InsideOk(q, [Mark(q)] + rest)
  {
    if q.Doubled? {
      AfterDouble(q.pieces, rest);
    }
  }

  /** What stands behind a double quote is no matter to the digits before it. */
  lemma PairBeforeQuote(t: string, rest: string)
    ensures HexPair(t + ("\"" + rest)) <==> HexPair(t + "\"")
  {
    if |t| >= 2 {
      assert (t + ("\"" + rest))[..2] == t[..2] == (t + "\"")[..2];
    } else {
      assert (t + ("\"" + rest))[|t|] == '"' && (t + "\"")[|t|] == '"';
    }
  }

  lemma {:induction false} AfterDouble(xs: seq<Piece>, rest: string)
    ensures DoubleOk(xs, "\"" + rest) <==> DoubleOk(xs, "\"")
    decreases xs
  {
    if xs != [] {
      hide HexPair;
      AfterDouble(xs[1..], rest);
      PairBeforeQuote(PiecesText(xs[1..]), rest);
    }
  }

  lemma FlawRead(line: string, p: nat, bare: string, q: Quote, more: string)
    requires !q.Unquoted? && Bare(bare) && InsideOk(q, more) && Flawed(q, more)
    requires Stands(line, p, bare + ([Mark(q)] + (Inside(q) + more)))
    ensures TokenFrom(line, p, Plain, "") == Unbalanced
  {
    hide TokenFrom, InsideOk, Inside, Meant, Stands, Ordinary;
    BareRead(line, p, bare, [Mark(q)] + (Inside(q) + more), "");
    InsideRead(line, p + |bare|, q, more, "" + bare);
    var end := p + |bare| + 1 + |Inside(q)|;
    if |more| >= 2 && more[0] == Mark(q) {
      assert more == [Mark(q)] + more[1..];
      CloseRead(line, end, q, more[1..], "" + bare + Meant(q));
    } else {
      OpenEnd(line, end, q, more, "" + bare + Meant(q));
    }
  }

  lemma {:induction false} BlanksSkipped(line: string, p: nat, gap: string, rest: string)
    requires Stands(line, p, gap + rest) && Blank(gap)
    ensures Stands(line, p + |gap|, rest)
    ensures SkipBlanks(line, p) == SkipBlanks(line, p + |gap|)
    decreases gap
  {
    hide Stands;
    if gap == "" {
      assert gap + rest == rest;
    } else {
      AtIs(line, p, gap + rest, 0);
      assert gap == [gap[0]] + gap[1..];
      RestOfThree(line, p, [gap[0]], gap[1..], rest);
      BlanksSkipped(line, p + 1, gap[1..], rest);
    }
  }

  /** An argument does not begin with a blank, nor is it empty. */
  lemma StartsArgument(line: string, p: nat, bare: string, q: Quote, rest: string)
    requires Bare(bare) && (q.Unquoted? ==> bare != "")
    requires Stands(line, p, bare + rest) && (!q.Unquoted? ==> Begins(rest, Mark(q)))
    ensures SkipBlanks(line, p) == p && At(line, p) != '\0'
  {
    hide Stands;
    AtIs(line, p, bare + rest, 0);
  }

  /** A blank between two arguments may also have been taken with the first. */
  lemma BlankTaken(line: string, p: nat, rest: string, args: seq<string>)
    requires Stands(line, p, rest) && rest != "" && IsSpace(rest[0])
    ensures p < |line| && SplitFrom(line, p + 1, args) == SplitFrom(line, p, args)
  {
    assert line[p] == line[p..][0];
  }

  /** What follows an argument ends it. */
  lemma Follows(w: Word, ws: seq<Word>, e: Ending)
    requires Spaced(Some(w), ws, e)
    ensures MayFollow(w, Line(Some(w), ws, e))
  {
    if ws != [] {
      assert Line(Some(w), ws, e)[0] == ws[0].gap[0];
    } else if e.Flaw? {
      assert Line(Some(w), ws, e)[0] == e.gap[0];
    }
  }

  /** A word begins as its quote or its bare part does. */
  lemma WordStarts(line: string, p: nat, w: Word, rest: string)
    requires Stands(line, p, Text(w) + rest) && WellWritten(w)
    ensures SkipBlanks(line, p) == p && At(line, p) != '\0'
  {
    hide Stands, Text, Inside, InsideOk;
    WordParts(w, rest);
    StartsArgument(line, p, w.bare, w.quote,
      if w.quote.Unquoted? then rest else [Mark(w.quote)] + (Inside(w.quote) + ([Mark(w.quote)] + rest)));
  }

  /** One round of the outer loop. */
  lemma ArgumentRead(line: string, p: nat, w: Word, rest: string, args: seq<string>)
    requires Stands(line, p, w.gap + (Text(w) + rest)) && Blank(w.gap) && WellWritten(w) && MayFollow(w, rest)
    ensures var r := p + |w.gap| + |Text(w)|;
      Stands(line, r, rest) && SplitFrom(line, p, args) == SplitFrom(line, r, args + [Arg(w)])
  {
    hide TokenFrom, SkipBlanks, Text, Arg, WellWritten, Stands, Blank, At;
    BlanksSkipped(line, p, w.gap, Text(w) + rest);
    var q := p + |w.gap|;
    WordStarts(line, q, w, rest);
    WordRead(line, q, w, rest);
    if w.quote.Unquoted? && rest != "" {
      BlankTaken(line, q + |Text(w)|, rest, args + [Arg(w)]);
    }
  }

  lemma EndingRead(line: string, p: nat, e: Ending, args: seq<string>)
    requires EndingOk(e) && Stands(line, p, EndingText(e))
    ensures SplitFrom(line, p, args) == if e.Blanks? then Some(args) else None
  {
    hide TokenFrom, Inside, InsideOk, Flawed, Stands, Bare, Blank;
    if e.Blanks? {
      assert e.tail == e.tail + "";
      BlanksSkipped(line, p, e.tail, "");
    } else {
      var rest := [Mark(e.quote)] + (Inside(e.quote) + e.more);
      Assoc([Mark(e.quote)], Inside(e.quote), e.more);
      BlanksSkipped(line, p, e.gap, e.bare + rest);
      var q := p + |e.gap|;
      StartsArgument(line, q, e.bare, e.quote, rest);
      FlawRead(line, q, e.bare, e.quote, e.more);
    }
  }

  /** The arguments written from a position to the end of the line are those found from there. */
  lemma {:induction false} WordsRead(line: string, p: nat, previous: Option<Word>, ws: seq<Word>, e: Ending, args: seq<string>)
    requires Spaced(previous, ws, e) && Stands(line, p, Line(previous, ws, e))
    ensures SplitFrom(line, p, args) == if e.Blanks? then Some(args + Args(ws)) else None
    decreases ws
  {
    hide Text, Arg, SplitFrom, Blank, Ends, WellWritten, MayFollow, EndingText, Stands;
    if ws == [] {
      EndingRead(line, p, e, args);
      assert args + Args(ws) == args;
    } else {
      var w, rest := ws[0], Line(Some(ws[0]), ws[1..], e);
      Follows(w, ws[1..], e);
      ArgumentRead(line, p, w, rest, args);
      WordsRead(line, p + |w.gap| + |Text(w)|, Some(w), ws[1..], e, args + [Arg(w)]);
      Assoc(args, [Arg(w)], Args(ws[1..]));
    }
  }

  /**
   * Splitting a line returns exactly the arguments that were written into it, in any of the spellings:
   * bare, in double quotes with escapes, in single quotes, or bare up to a quote, separated by any blanks.
   * A line that ends in an argument whose quote is not closed, or is closed before a non-blank, gives nothing.
   */
  lemma SplitUndoesQuoting(ws: seq<Word>, e: Ending)
    requires Spaced(None, ws, e)
    ensures Split(Line(None, ws, e)) == if e.Blanks? then Some(Args(ws)) else None
  {
    var line := Line(None, ws, e);
    assert line[0..] == line;
    WordsRead(line, 0, None, ws, e, []);
    assert [] + Args(ws) == Args(ws);
  }

  // ----- Every line is written in one of these ways -----

  /** The longest bare beginning. */
  lemma {:induction false} BareScan(s: string) returns (b: string, after: string)
    ensures s == b + after && (forall i :: 0 <= i < |b| ==> Ordinary(b[i])) && (after != "" ==> !Ordinary(after[0]))
    decreases s
  {
    if s == "" || !Ordinary(s[0]) {
      b, after := "", s;
    } else {
      var c, x := BareScan(s[1..]);
      b, after := [s[0]] + c, x;
      assert s == [s[0]] + s[1..];
    }
  }

  /** The blanks at the beginning. */
  lemma {:induction false} BlankScan(s: string) returns (b: string, after: string)
    ensures s == b + after && Blank(b) && (after != "" ==> !IsSpace(after[0])) && (s != "" && IsSpace(s[0]) ==> b != "")
    decreases s
  {
    if s == "" || !IsSpace(s[0]) {
      b, after := "", s;
    } else {
      var c, x := BlankScan(s[1..]);
      b, after := [s[0]] + c, x;
      assert s == [s[0]] + s[1..];
    }
  }

  /** A pair of digits as a byte and the cases of its letters. */
  lemma HexScan(s: string) returns (b: Byte, high: bool, low: bool)
    requires HexPair(s)
    ensures s[..2] == [Digit(b / 16, high), Digit(b % 16, low)]
  {
    b := HexValue(s[0]) * 16 + HexValue(s[1]);
    high, low := 'A' <= s[0] <= 'F', 'A' <= s[1] <= 'F';
    assert b / 16 == HexValue(s[0]) && b % 16 == HexValue(s[1]);
    DigitOf(s[0]);
    DigitOf(s[1]);
  }

  lemma DigitOf(c: char)
    requires IsHex(c)
    ensures Digit(HexValue(c), 'A' <= c <= 'F') == c
  {
  }

  /** The first byte inside double quotes. */
  lemma PieceScan(s: string) returns (x: Piece, rest: string)
    requires NulFree(s) && s != "" && s[0] != '"' && s != "\\"
    ensures s == PieceText(x) + rest && PieceOk(x, rest) && NulFree(rest)
  {
    if s[0] == '\\' && s[1] == 'x' && HexPair(s[2..]) {
      var b, high, low := HexScan(s[2..]);
      x, rest := Hex(b, high, low), s[4..];
      assert s[2..][..2] == s[2..4] && s == s[..2] + (s[2..4] + rest);
      Assoc(s[..2], s[2..4], rest);
    } else if s[0] == '\\' {
      x, rest := Backslashed(s[1]), s[2..];
    } else {
      x, rest := Raw(s[0]), s[1..];
    }
    assert s == PieceText(x) + rest;
    NulFreeRest(PieceText(x), rest);
  }

  /** What stands inside double quotes, up to a quote or the end. */
  lemma {:induction false} DoubleScan(s: string) returns (xs: seq<Piece>, after: string)
    requires NulFree(s)
    ensures s == PiecesText(xs) + after && DoubleOk(xs, after)
    ensures after == "" || after == "\\" || after[0] == '"'
    decreases |s|
  {
    hide PieceText, PieceOk, NulFree;
    if s == "" || s[0] == '"' || s == "\\" {
      xs, after := [], s;
      assert PiecesText(xs) + after == after;
    } else {
      var x, rest := PieceScan(s);
      PieceIsLong(x);
      var ys;
      ys, after := DoubleScan(rest);
      xs := [x] + ys;
      assert xs[0] == x && xs[1..] == ys;
      Assoc(PieceText(x), PiecesText(ys), after);
    }
  }

  lemma PieceIsLong(x: Piece)
    ensures PieceText(x) != ""
  {
  }

  /** What stands inside single quotes, up to a quote or the end. */
  lemma {:induction false} SingleScan(s: string) returns (t: string, after: string)
    requires NulFree(s)
    ensures s == SingleText(t) + after && SingleOk(t, after)
    ensures after == "" || after[0] == '\''
    decreases |s|
  {
    if s == "" || s[0] == '\'' {
      t, after := "", s;
    } else {
      var c := if s[0] == '\\' && |s| > 1 && s[1] == '\'' then "\\'" else [s[0]];
      assert s == c + s[|c|..];
      var u, z := SingleScan(s[|c|..]);
      var d := if c == "\\'" then '\'' else s[0];
      t, after := [d] + u, z;
      assert t[1..] == u && c + SingleText(u) + z == c + (SingleText(u) + z);
      assert Last(t) == if u == "" then d else Last(u);
    }
  }

  /** The inside of a quote that has just been opened. */
  lemma InsideScan(s: string, double: bool) returns (q: Quote, after: string)
    requires NulFree(s)
    ensures !q.Unquoted? && Mark(q) == (if double then '"' else '\'') && InsideOk(q, after) && s == Inside(q) + after
    ensures after == "" || (double && after == "\\") || after[0] == Mark(q)
  {
    if double {
      var xs;
      xs, after := DoubleScan(s);
      q := Doubled(xs);
    } else {
      var t;
      t, after := SingleScan(s);
      q := Singled(t);
    }
  }

  lemma NulFreeRest(a: string, b: string)
    requires NulFree(a + b)
    ensures NulFree(a) && NulFree(b)
  {
    assert forall i :: 0 <= i < |a| ==> (a + b)[i] == a[i];
    assert forall i :: 0 <= i < |b| ==> (a + b)[|a| + i] == b[i];
  }

  /** A quote that is closed before a blank or at the end. */
  lemma QuotedWord(gap: string, bare: string, q: Quote, rest: string)
    requires !q.Unquoted? && Bare(bare) && InsideOk(q, [Mark(q)] + rest)
    ensures var w := Word(gap, bare, q); WellWritten(w) && bare + ([Mark(q)] + Inside(q) + ([Mark(q)] + rest)) == Text(w) + rest
  {
    hide PiecesText, SingleText, DoubleOk, Bare;
    var m := [Mark(q)];
    if q.Doubled? {
      AfterDouble(q.pieces, rest);
    } else {
      assert Begins(m + rest, '\'');
    }
    Assoc(m, Inside(q), m + rest);
    WordParts(Word(gap, bare, q), rest);
  }

  /** A quote that is not. */
  lemma FlawedWord(gap: string, bare: string, q: Quote, more: string)
    requires !q.Unquoted? && Bare(bare) && Blank(gap) && InsideOk(q, more) && NulFree(more)
    requires more == "" || (q.Doubled? && more == "\\") || (|more| >= 2 && more[0] == Mark(q) && !IsSpace(more[1]))
    ensures var e := Flaw(gap, bare, q, more); EndingOk(e) && EndingText(e) == gap + (bare + ([Mark(q)] + Inside(q) + more))
  {
  }

  /** The first argument of what follows the blanks: whole, with what follows it, or flawed. */
  lemma WordScan(gap: string, s: string) returns (w: Word, rest: string, e: Ending)
    requires NulFree(s) && s != "" && !IsSpace(s[0]) && Blank(gap)
    ensures e.Blanks? ==> w.gap == gap && WellWritten(w) && s == Text(w) + rest && MayFollow(w, rest)
    ensures e.Flaw? ==> EndingOk(e) && e.gap == gap && EndingText(e) == gap + s
  {
    hide InsideOk, Inside, Blank, NulFree;
    var b, after := BareScan(s);
    NulFreeRest(b, after);
    assert b != "" ==> b[0] == s[0];
    if after == "" || EndsBare(after[0]) {
      w, rest, e := Word(gap, b, Unquoted), after, Blanks("");
    } else {
      NoNulFirst(after);
      assert after == [after[0]] + after[1..];
      NulFreeRest([after[0]], after[1..]);
      var q, more := InsideScan(after[1..], after[0] == '"');
      assert s == b + ([Mark(q)] + Inside(q) + more);
      NulFreeRest(Inside(q), more);
      if more != "" && more[0] == Mark(q) && (|more| == 1 || IsSpace(more[1])) {
        w, rest, e := Word(gap, b, q), more[1..], Blanks("");
        assert more == [Mark(q)] + rest;
        QuotedWord(gap, b, q, rest);
      } else {
        w, rest, e := Word("", "", Unquoted), "", Flaw(gap, b, q, more);
        FlawedWord(gap, b, q, more);
      }
    }
  }

  lemma NoNulFirst(s: string)
    requires NulFree(s) && s != ""
    ensures s[0] != '\0'
  {
  }

  lemma {:induction false} LineScan(previous: Option<Word>, s: string) returns (ws: seq<Word>, e: Ending)
    requires NulFree(s) && (previous.Some? ==> MayFollow(previous.value, s))
    ensures Spaced(previous, ws, e) && Line(previous, ws, e) == s
    decreases |s|
  {
    hide Text, WellWritten, EndingText, EndingOk;
    var gap, after := BlankScan(s);
    NulFreeRest(gap, after);
    assert gap != "" ==> gap[0] == s[0];
    if after == "" {
      ws, e := [], Blanks(gap);
      BlanksAreOk(gap);
      assert gap + after == gap;
    } else {
      var w, rest, flaw := WordScan(gap, after);
      if flaw.Flaw? {
        ws, e := [], flaw;
      } else {
        WordIsLong(w);
        NulFreeRest(Text(w), rest);
        var vs;
        vs, e := LineScan(Some(w), rest);
        ws := [w] + vs;
        assert ws[1..] == vs;
      }
    }
  }

  lemma BlanksAreOk(gap: string)
    ensures EndingOk(Blanks(gap)) == Blank(gap) && (Blank(gap) ==> EndingText(Blanks(gap)) == gap)
  {
  }

  lemma WordIsLong(w: Word)
    requires WellWritten(w)
    ensures Text(w) != ""
  {
  }

  /** The part of a byte string before its first NUL, which is all that is read. */
  function CString(s: string): (t: string)
    ensures NulFree(t) && t <= s && (|t| < |s| ==> s[|t|] == '\0')
  {
    if s == "" || s[0] == '\0' then "" else [s[0]] + CString(s[1..])
  }

  lemma LookBeforeNul(line: string, p: nat, mode: Mode)
    requires p <= |CString(line)|
    ensures Look(line, p, mode) == Look(CString(line), p, mode)
    ensures At(line, p) == At(CString(line), p)
  {
    var t := CString(line);
    assert At(line, p) == At(t, p);
    assert p + 1 <= |t| ==> At(line, p + 1) == At(t, p + 1);
    assert p + 2 <= |t| ==> At(line, p + 2) == At(t, p + 2);
    assert p + 3 <= |t| ==> At(line, p + 3) == At(t, p + 3);
  }

  lemma {:induction false} TokenBeforeNul(line: string, p: nat, mode: Mode, cur: string)
    requires p <= |CString(line)|
    ensures TokenFrom(line, p, mode, cur) == TokenFrom(CString(line), p, mode, cur)
    decreases |CString(line)| - p
  {
    hide Look, At, CString;
    LookBeforeNul(line, p, mode);
    match Look(line, p, mode) {
      case Take(c, width) => TokenBeforeNul(line, p + width, mode, cur + [c]);
      case Switch(m) => TokenBeforeNul(line, p + 1, m, cur);
      case _ =>
    }
  }

  lemma {:induction false} BlanksBeforeNul(line: string, p: nat)
    requires p <= |CString(line)|
    ensures SkipBlanks(line, p) == SkipBlanks(CString(line), p)
    decreases |CString(line)| - p
  {
    var t := CString(line);
    assert p < |t| ==> line[p] == t[p];
    if p < |t| && IsSpace(line[p]) {
      BlanksBeforeNul(line, p + 1);
    }
  }

  lemma {:induction false} SplitBeforeNul(line: string, p: nat, args: seq<string>)
    requires p <= |CString(line)|
    ensures SplitFrom(line, p, args) == SplitFrom(CString(line), p, args)
    decreases |CString(line)| - p
  {
    hide Look, At, TokenFrom, SkipBlanks, CString;
    BlanksBeforeNul(line, p);
    var q := SkipBlanks(line, p);
    LookBeforeNul(line, q, Plain);
    TokenBeforeNul(line, q, Plain, "");
    var t := TokenFrom(line, q, Plain, "");
    if t.Token? && At(line, q) != '\0' {
      SplitBeforeNul(line, t.next, args + [t.text]);
    }
  }

  /** The line, up to a NUL, is `ws` with the given ending. */
  ghost predicate Written(line: string, ws: seq<Word>, e: Ending) {
    Spaced(None, ws, e) && Line(None, ws, e) == CString(line)
  }

  /**
   * On every line: splitting gives the arguments of whatever words it is written in, and every line is
   * written in words or ends in a flaw. So it is refused exactly for such a flaw.
   */
  lemma SplitExact(line: string)
    ensures forall args :: Split(line) == Some(args) <==> exists ws, e :: Written(line, ws, e) && e.Blanks? && Args(ws) == args
    ensures Split(line) == None <==> exists ws, e :: Written(line, ws, e) && e.Flaw?
  {
    SplitBeforeNul(line, 0, []);
    hide Spaced, Line, Split, Args, CString;
    forall ws, e | Written(line, ws, e)
      ensures Split(line) == if e.Blanks? then Some(Args(ws)) else None
    {
      SplitUndoesQuoting(ws, e);
      SplitOf(line);
    }
    var ws, e := LineScan(None, CString(line));
    assert Written(line, ws, e);
  }

  lemma SplitOf(line: string)
    ensures SplitFrom(line, 0, []) == SplitFrom(CString(line), 0, []) ==> Split(line) == Split(CString(line))
  {
  }

  // ----- sdscatrepr writes such words -----

  function ReprPiece(c: char): Piece
    requires c as int < 256
  {
    if c == '\\' || c == '"' then Backslashed(c)
    else if c == '\n' then Backslashed('n')
    else if c == '\r' then Backslashed('r')
    else if c == '\t' then Backslashed('t')
    else if c == BELL then Backslashed('a')
    else if c == BACKSPACE then Backslashed('b')
    else if IsPrint(c) then Raw(c)
    else Hex(c as int, false, false)
  }

  function ReprPieces(s: string): seq<Piece>
    requires IsBytes(s)
  {
    if s == "" then [] else [ReprPiece(s[0])] + ReprPieces(s[1..])
  }

  lemma EscapeIsPiece(c: char)
    requires c as int < 256
    ensures PieceText(ReprPiece(c)) == Escape(c) && PieceByte(ReprPiece(c)) == c
  {
    var n := c as int;
    assert HexDigit(n / 16) == Digit(n / 16, false) && HexDigit(n % 16) == Digit(n % 16, false);
  }

  lemma {:induction false} ReprIsPieces(s: string, after: string)
    requires IsBytes(s)
    ensures PiecesText(ReprPieces(s)) == Escaped(s) && PiecesBytes(ReprPieces(s)) == s && DoubleOk(ReprPieces(s), after)
    decreases s
  {
    hide Escape, PieceText, PieceByte;
    if s != "" {
      EscapeIsPiece(s[0]);
      ReprIsPieces(s[1..], after);
      assert ReprPieces(s)[1..] == ReprPieces(s[1..]);
    }
  }

  /** An argument written by `sdscatrepr`. */
  function ReprWord(gap: string, s: string): Word
    requires IsBytes(s)
  {
    Word(gap, "", Doubled(ReprPieces(s)))
  }

  lemma ReprWordReads(gap: string, s: string)
    requires IsBytes(s)
    ensures var w := ReprWord(gap, s); WellWritten(w) && Text(w) == Repr(s) && Arg(w) == s
  {
    ReprIsPieces(s, "\"");
    assert "" + s == s;
  }

  /** Byte strings to be quoted and joined with single spaces. */
  function Joined(first: bool, args: seq<string>): seq<Word>
    requires forall a :: a in args ==> IsBytes(a)
  {
    if args == [] then []
    else [ReprWord(if first then "" else " ", args[0])] + Joined(false, args[1..])
  }

  lemma {:induction false} JoinedIsSpaced(previous: Option<Word>, args: seq<string>)
    requires (forall a :: a in args ==> IsBytes(a)) && (previous.Some? ==> !previous.value.quote.Unquoted?)
    ensures Spaced(previous, Joined(previous.None?, args), Blanks("")) && Args(Joined(previous.None?, args)) == args
    decreases args
  {
    hide WellWritten, Arg, ReprPieces, Escaped;
    if args != [] {
      var ws := Joined(previous.None?, args);
      assert ws[1..] == Joined(false, args[1..]);
      ReprWordReads(ws[0].gap, args[0]);
      JoinedIsSpaced(Some(ws[0]), args[1..]);
    }
  }

  /** Any list of byte strings survives being quoted by `sdscatrepr`, joined with spaces and split. */
  lemma JoinedRoundTrip(args: seq<string>)
    requires forall a :: a in args ==> IsBytes(a)
    ensures Split(JoinedText(true, args)) == Some(args)
  {
    JoinedIsSpaced(None, args);
    SplitUndoesQuoting(Joined(true, args), Blanks(""));
    JoinedLine(None, args);
  }

  function JoinedText(first: bool, args: seq<string>): string
    requires forall a :: a in args ==> IsBytes(a)
  {
    if args == [] then "" else (if first then "" else " ") + (Repr(args[0]) + JoinedText(false, args[1..]))
  }

  lemma {:induction false} JoinedLine(previous: Option<Word>, args: seq<string>)
    requires (forall a :: a in args ==> IsBytes(a)) && (previous.Some? ==> !previous.value.quote.Unquoted?)
    requires Spaced(previous, Joined(previous.None?, args), Blanks(""))
    ensures Line(previous, Joined(previous.None?, args), Blanks("")) == JoinedText(previous.None?, args)
    decreases args
  {
    hide WellWritten, Arg, ReprPieces, Escaped;
    if args != [] {
      var ws := Joined(previous.None?, args);
      assert ws[1..] == Joined(false, args[1..]);
      ReprWordReads(ws[0].gap, args[0]);
      JoinedLine(Some(ws[0]), args[1..]);
    }
  }

  /** The quoted form determines the byte string, even where it is a prefix of a line. */
  lemma ReprInjective(a: string, b: string, x: string, y: string)
    requires IsBytes(a) && IsBytes(b) && Repr(a) + x == Repr(b) + y
    requires (x == "" || IsSpace(x[0])) && (y == "" || IsSpace(y[0]))
    ensures a == b && x == y
  {
    hide Repr, ReprPieces, WellWritten, Text, Arg;
    var line := Repr(a) + x;
    assert line[0..] == line;
    ReprWordReads("", a);
    ReprWordReads("", b);
    WordRead(line, 0, ReprWord("", a), x);
    WordRead(line, 0, ReprWord("", b), y);
  }
}
