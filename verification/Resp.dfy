/**
 * The Redis serialization protocol (RESP2 and RESP3) as a recursive grammar.
 *
 * This is the reference the resumable reader is compared with: a recursive descent over the
 * whole stream, sharing the reader's quirks (deps/hiredis/read.c). A byte is modelled as a char.
 */
module Resp {
  import opened Common
  import opened Num

  datatype AggKind = Array | Map | Set | Push

  /** A reply tree, as built by the default reply-object functions (hiredis.c:106-290). */
  datatype Reply =
    | Status(str: string)
    | Error(str: string)
    | Integer(n: int)
    | Double(text: string)
    | Nil
    | Bool(b: bool)
    | BigNum(str: string)
    | Str(str: string)
    | Verb(vtype: string, str: string)
    | Agg(kind: AggKind, elems: seq<Reply>)

  /** `redisReadTask.type` once the type byte has been read. */
  datatype ItemType =
    | TStatus | TError | TInteger | TDouble | TNil | TBool | TBigNum
    | TString | TVerb
    | TAgg(kind: AggKind)

  datatype ReadError =
    | ProtocolByte(c: char)
    | BadInteger | DoubleTooLarge | BadDouble | BadNil | BadBool | BadBigNum | BadSimpleString
    | BadBulkLength | BulkLengthRange | BadVerbatim
    | BadMultiBulkLength | MultiBulkRange
    // Not reported by the reader: the C int or long long it counts with would overflow, and what
    // happens from there on is undefined. Elements, bytes of a line, bytes of a bulk, nesting.
    | CountOverflow | LineOverflow | LengthOverflow | DepthOverflow

  /**
   * `maxElements` is `redisReader.maxelements` (0: unlimited). `isFinite` stands for `strtod`:
   * it tells whether a text is wholly consumed by it and denotes a finite number.
   */
  datatype Config = Config(maxElements: nat, isFinite: string -> bool)

  const STACK_SIZE := 9

  /** The task array grows by nine; this deep its last task is in use, and an int counts no nine more (read.c:468-491). */
  const MAX_DEPTH := INT_MAX / STACK_SIZE * STACK_SIZE - 1

  function Lower(c: char): char {
    if 'A' <= c <= 'Z' then (c as int + 32) as char else c
  }

  predicate EqualsIgnoreCase(a: string, b: string) {
    |a| == |b| && forall i :: 0 <= i < |a| ==> Lower(a[i]) == Lower(b[i])
  }

  function TypeOf(c: char): Option<ItemType> {
    match c
    case '-' => Some(TError)
    case '+' => Some(TStatus)
    case ':' => Some(TInteger)
    case ',' => Some(TDouble)
    case '_' => Some(TNil)
    case '$' => Some(TString)
    case '*' => Some(TAgg(Array))
    case '%' => Some(TAgg(Map))
    case '~' => Some(TAgg(Set))
    case '#' => Some(TBool)
    case '=' => Some(TVerb)
    case '>' => Some(TAgg(Push))
    case '(' => Some(TBigNum)
    case _ => None
  }

  predicate CrlfAt(s: string, i: int) {
    0 <= i && i + 1 < |s| && s[i] == '\r' && s[i + 1] == '\n'
  }

  /** The index of the first CR LF pair. */
  function FindCrlf(s: string): (r: Option<nat>)
    ensures r.Some? ==> CrlfAt(s, r.value) && forall i :: 0 <= i < r.value ==> !CrlfAt(s, i)
    ensures r.None? ==> forall i :: !CrlfAt(s, i)
  {
    if |s| < 2 then None
    else if CrlfAt(s, 0) then Some(0)
    else
      assert forall i :: 1 <= i ==> (CrlfAt(s, i) <==> CrlfAt(s[1..], i - 1));
      match FindCrlf(s[1..]) case None => None case Some(i) => Some(i + 1)
  }

  /** A scan that found the first CR LF finds the same one after more bytes have arrived. */
  lemma FindCrlfStable(s: string, i: nat, x: string)
    requires CrlfAt(s, i) && forall j :: 0 <= j < i ==> !CrlfAt(s, j)
    ensures FindCrlf(s + x) == Some(i)
  {
    assert CrlfAt(s + x, i);
    forall j | 0 <= j < i
      ensures !CrlfAt(s + x, j)
    {
      assert !CrlfAt(s, j);
    }
  }

  /** One line item: the reply for the text of a line, or the protocol error it raises. */
  datatype LineResult = Good(reply: Reply) | Bad(error: ReadError)

  function ParseLine(cfg: Config, t: ItemType, line: string): LineResult
    requires !t.TString? && !t.TVerb? && !t.TAgg?
  {
    match t
    case TInteger =>
      (match ParseLL(line) case Some(v) => Good(Integer(v)) case None => Bad(BadInteger))
    case TDouble =>
      if |line| >= 326 then Bad(DoubleTooLarge)
      else if EqualsIgnoreCase(line, "inf") || EqualsIgnoreCase(line, "-inf")
              || EqualsIgnoreCase(line, "nan") || cfg.isFinite(line) then Good(Double(line))
      else Bad(BadDouble)
    case TNil => if line == "" then Good(Nil) else Bad(BadNil)
    case TBool =>
      // strchr() also finds the terminating NUL of "tTfF".
      if |line| == 1 && line[0] in "tTfF\0" then Good(Bool(line[0] in "tT")) else Bad(BadBool)
    case TBigNum =>
      if forall i :: 0 <= i < |line| ==> (i == 0 && line[0] == '-') || IsDigit(line[i])
      then Good(BigNum(line)) else Bad(BadBigNum)
    case TError => if '\r' in line || '\n' in line then Bad(BadSimpleString) else Good(Error(line))
    case TStatus => if '\r' in line || '\n' in line then Bad(BadSimpleString) else Good(Status(line))
  }

  /** A bulk payload: the two bytes after it are skipped, whatever they are (read.c:431-456). */
  function MakeBulk(t: ItemType, payload: string): LineResult
    requires t.TString? || t.TVerb?
  {
    if t.TString? then Good(Str(payload))
    else if |payload| < 4 || payload[3] != ':' then Bad(BadVerbatim)
    else Good(Verb(payload[..3], payload[4..]))
  }

  /** One typed item up to its children: a finished leaf, or an aggregate that expects `n` of them. */
  datatype Head =
    | Leaf(reply: Reply, rest: string)
    | Open(kind: AggKind, n: nat, rest: string)
    | HeadMore
    | HeadFail(error: ReadError)

  /** The number of children announced by an aggregate header, maps doubling it (read.c:515-536). */
  function Arity(kind: AggKind, n: nat): nat {
    if kind.Map? then 2 * n else n
  }

  /** `depth` is the number of aggregates around the item. */
  function ReadHead(cfg: Config, depth: nat, t: ItemType, s: string): (h: Head)
    ensures h.Leaf? ==> |h.rest| < |s|
    ensures h.Open? ==> |h.rest| < |s| && 0 < h.n <= LLONG_MAX
  {
    if t.TAgg? && depth >= MAX_DEPTH then HeadFail(DepthOverflow)
    else match FindCrlf(s)
    case None => HeadMore
    case Some(i) =>
      if t.TString? || t.TVerb? then BulkHead(t, s[..i], s[i + 2..])
      else if i + 2 > INT_MAX then HeadFail(LineOverflow)   // `readLine` measures the line with an int
      else if t.TAgg? then AggHead(cfg, t.kind, s[..i], s[i + 2..])
      else LineHead(cfg, t, s[..i], s[i + 2..])
  }

  function LineHead(cfg: Config, t: ItemType, line: string, after: string): Head
    requires !t.TString? && !t.TVerb? && !t.TAgg?
  {
    match ParseLine(cfg, t, line)
    case Good(r) => Leaf(r, after)
    case Bad(e) => HeadFail(e)
  }

  function BulkHead(t: ItemType, line: string, after: string): (h: Head)
    requires t.TString? || t.TVerb?
    ensures h.Leaf? ==> |h.rest| <= |after|
    ensures !h.Open?
  {
    match ParseLL(line)
    case None => HeadFail(BadBulkLength)
    case Some(len) =>
      if len < -1 then HeadFail(BulkLengthRange)
      else if len == -1 then Leaf(Nil, after)
      else if len + 2 > LLONG_MAX then HeadFail(LengthOverflow)
      else if |after| < len + 2 then HeadMore
      else match MakeBulk(t, after[..len])
        case Good(r) => Leaf(r, after[len + 2..])
        case Bad(e) => HeadFail(e)
  }

  function AggHead(cfg: Config, kind: AggKind, line: string, after: string): (h: Head)
    ensures h.Leaf? ==> h.rest == after
    ensures h.Open? ==> h.rest == after && 0 < h.n <= LLONG_MAX
  {
    match ParseLL(line)
    case None => HeadFail(BadMultiBulkLength)
    case Some(n) =>
      if n < -1 || (cfg.maxElements > 0 && n > cfg.maxElements) then HeadFail(MultiBulkRange)
      else if n == -1 then Leaf(Nil, after)
      else if n == 0 then Leaf(Agg(kind, []), after)
      else if Arity(kind, n) > LLONG_MAX then HeadFail(CountOverflow)
      else Open(kind, Arity(kind, n), after)
  }

  /** A head that was readable reads the same after more bytes have arrived. */
  lemma ReadHeadStable(cfg: Config, depth: nat, t: ItemType, s: string, x: string)
    ensures var h, g := ReadHead(cfg, depth, t, s), ReadHead(cfg, depth, t, s + x);
            match h
            case Leaf(r, rest) => g == Leaf(r, rest + x)
            case Open(kind, n, rest) => g == Open(kind, n, rest + x)
            case HeadFail(e) => g == HeadFail(e)
            case HeadMore => true
  {
    hide FindCrlf, ParseLine, ParseLL, BulkHead;
    match FindCrlf(s)
    case None =>
    case Some(i) =>
      FindCrlfStable(s, i, x);
      assert (s + x)[..i] == s[..i];
      assert (s + x)[i + 2..] == s[i + 2..] + x;
      if t.TString? || t.TVerb? {
        BulkHeadStable(t, s[..i], s[i + 2..], x);
      }
  }

  lemma BulkHeadStable(t: ItemType, line: string, after: string, x: string)
    requires t.TString? || t.TVerb?
    ensures var h, g := BulkHead(t, line, after), BulkHead(t, line, after + x);
            && (h.Leaf? ==> g == Leaf(h.reply, h.rest + x))
            && (h.HeadFail? ==> g == h)
  {
    hide ParseLL;
    match ParseLL(line)
    case None =>
    case Some(len) =>
      if 0 <= len && len + 2 <= |after| {
        assert (after + x)[..len] == after[..len];
        assert (after + x)[len + 2..] == after[len + 2..] + x;
      }
  }

  datatype Parsed = Done(reply: Reply, rest: string) | More | Fail(error: ReadError)
  datatype ParsedItems = Items(replies: seq<Reply>, rest: string) | MoreItems | FailItems(error: ReadError)

  /** reply = type-byte body */
  function ParseItem(cfg: Config, depth: nat, s: string): (p: Parsed)
    ensures p.Done? ==> |p.rest| < |s|
    decreases |s|, 0
  {
    if s == "" then More
    else match TypeOf(s[0])
      case None => Fail(ProtocolByte(s[0]))
      case Some(t) => ParseBody(cfg, depth, t, s[1..])
  }

  /** body = leaf | header n replies */
  function ParseBody(cfg: Config, depth: nat, t: ItemType, s: string): (p: Parsed)
    ensures p.Done? ==> |p.rest| < |s|
    decreases |s|, 2
  {
    match ReadHead(cfg, depth, t, s)
    case HeadMore => More
    case HeadFail(e) => Fail(e)
    case Leaf(r, rest) => Done(r, rest)
    case Open(kind, n, rest) =>
      match ParseItems(cfg, depth + 1, 0, n, rest)
      case Items(rs, rest') => Done(Agg(kind, rs), rest')
      case MoreItems => More
      case FailItems(e) => Fail(e)
  }

  /** The last `n` elements of an aggregate, the first of them at index `idx`, a C int (read.h:79). */
  function ParseItems(cfg: Config, depth: nat, idx: nat, n: nat, s: string): (p: ParsedItems)
    ensures p.Items? ==> |p.rest| <= |s| && |p.replies| == n
    decreases |s|, 1
  {
    if n == 0 then Items([], s)
    else if idx > INT_MAX then FailItems(CountOverflow)
    else match ParseItem(cfg, depth, s)
      case More => MoreItems
      case Fail(e) => FailItems(e)
      case Done(r, rest) =>
        match ParseItems(cfg, depth, idx + 1, n - 1, rest)
        case MoreItems => MoreItems
        case FailItems(e) => FailItems(e)
        case Items(rs, rest') => Items([r] + rs, rest')
  }

  /** All replies of a stream, and the protocol error that ends it, if any. */
  datatype Transcript = Transcript(replies: seq<Reply>, error: Option<ReadError>)

  function ParseAll(cfg: Config, s: string): Transcript
    decreases |s|
  {
    match ParseItem(cfg, 0, s)
    case More => Transcript([], None)
    case Fail(e) => Transcript([], Some(e))
    case Done(r, rest) => Cons(r, ParseAll(cfg, rest))
  }

  function Cons(r: Reply, t: Transcript): Transcript {
    Transcript([r] + t.replies, t.error)
  }

  function Prefixed(rs: seq<Reply>, t: Transcript): Transcript {
    Transcript(rs + t.replies, t.error)
  }
}
