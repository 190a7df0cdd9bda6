/**
 * What is left to parse when the reader stops in the middle of a reply: a stack of aggregates
 * that still expect children, the type of the item being read, and the unread bytes.
 * `Remaining` says which replies those still yield, by the grammar of `Resp`; the lemmas say
 * that each step of the item loop of `redisReaderGetReply` leaves that unchanged.
 */
module Resumption {
  import opened Common
  import opened Resp

  /** An open aggregate (`redisReadTask`): `kids` holds the elements filled in so far. */
  datatype Frame = Frame(kind: AggKind, n: nat, kids: seq<Reply>)

  /** A finished reply completes the root, or leaves aggregates open, or is one too many to be counted. */
  datatype Delivered = Root(reply: Reply) | Next(stack: seq<Frame>) | TooMany

  /** Give a finished reply to the innermost open aggregate, closing every aggregate it completes. */
  function Deliver(stack: seq<Frame>, r: Reply): Delivered {
    if stack == [] then Root(r)
    else
      var top := Last(stack);
      var kids := top.kids + [r];
      if |kids| == top.n then Deliver(DropLast(stack), Agg(top.kind, kids))
      else if |kids| > INT_MAX then TooMany
      else Next(DropLast(stack) + [top.(kids := kids)])
  }

  /** The grammar's continuation: what the enclosing aggregates make of a finished reply. */
  function Unwind(cfg: Config, stack: seq<Frame>, r: Reply, s: string): Parsed
    decreases |stack|, 0
  {
    if stack == [] then Done(r, s)
    else
      var top := Last(stack);
      var kids := top.kids + [r];
      if |kids| >= top.n then Unwind(cfg, DropLast(stack), Agg(top.kind, kids), s)
      else Close(cfg, DropLast(stack), top.kind, kids, ParseItems(cfg, |stack|, |kids|, top.n - |kids|, s))
  }

  /** An aggregate gets its last elements. */
  function Close(cfg: Config, stack: seq<Frame>, kind: AggKind, kids: seq<Reply>, items: ParsedItems): Parsed
    decreases |stack|, 1
  {
    match items
    case MoreItems => More
    case FailItems(e) => Fail(e)
    case Items(rs, rest) => Unwind(cfg, stack, Agg(kind, kids + rs), rest)
  }

  function Resume(cfg: Config, stack: seq<Frame>, cur: Option<ItemType>, s: string): Parsed {
    match (match cur case None => ParseItem(cfg, |stack|, s) case Some(t) => ParseBody(cfg, |stack|, t, s))
    case More => More
    case Fail(e) => Fail(e)
    case Done(r, rest) => Unwind(cfg, stack, r, rest)
  }

  function After(cfg: Config, p: Parsed): Transcript {
    match p
    case More => Transcript([], None)
    case Fail(e) => Transcript([], Some(e))
    case Done(r, rest) => Cons(r, ParseAll(cfg, rest))
  }

  /** The replies, and the error, that an interrupted parse still yields. */
  function Remaining(cfg: Config, stack: seq<Frame>, cur: Option<ItemType>, s: string): Transcript {
    After(cfg, Resume(cfg, stack, cur, s))
  }

  predicate AllOpen(stack: seq<Frame>) {
    forall i :: 0 <= i < |stack| ==> |stack[i].kids| < stack[i].n && |stack[i].kids| <= INT_MAX
  }

  /** Between replies nothing is open, and what remains is the parse of the unread bytes. */
  lemma RemainingAtRoot(cfg: Config, s: string)
    ensures Remaining(cfg, [], None, s) == ParseAll(cfg, s)
  {
  }

  /** Reading the remaining elements of the innermost aggregate one by one, or all at once by the grammar. */
  lemma Continue(cfg: Config, stack: seq<Frame>, f: Frame, s: string)
    requires |f.kids| < f.n && |f.kids| <= INT_MAX
    ensures Resume(cfg, stack + [f], None, s)
            == Close(cfg, stack, f.kind, f.kids, ParseItems(cfg, |stack| + 1, |f.kids|, f.n - |f.kids|, s))
  {
    var stack' := stack + [f];
    assert Last(stack') == f && DropLast(stack') == stack;
    match ParseItem(cfg, |stack| + 1, s)
    case More =>
    case Fail(e) =>
    case Done(q, rest1) =>
      var m: nat := f.n - |f.kids| - 1;
      var k, kids := |f.kids|, f.kids + [q];
      if m == 0 {
        assert Unwind(cfg, stack', q, rest1) == Unwind(cfg, stack, Agg(f.kind, kids), rest1);
      } else {
        assert Unwind(cfg, stack', q, rest1) == Close(cfg, stack, f.kind, kids, ParseItems(cfg, |stack| + 1, k + 1, m, rest1));
      }
      assert f.n - |f.kids| == m + 1;
      match ParseItems(cfg, |stack| + 1, k + 1, m, rest1)
      case MoreItems => assert ParseItems(cfg, |stack| + 1, k, m + 1, s) == MoreItems;
      case FailItems(e) => assert ParseItems(cfg, |stack| + 1, k, m + 1, s) == FailItems(e);
      case Items(rs, rest2) =>
        assert ParseItems(cfg, |stack| + 1, k, m + 1, s) == Items([q] + rs, rest2);
        assert f.kids + ([q] + rs) == kids + rs;
        if m == 0 {
          assert kids + rs == kids;
        }
  }

  function Delivering(cfg: Config, d: Delivered, s: string): Parsed {
    match d
    case Root(root) => Done(root, s)
    case Next(stack) => Resume(cfg, stack, None, s)
    case TooMany => Fail(CountOverflow)
  }

  /** Closing aggregates by hand and by the grammar agree. */
  lemma {:induction false} DeliverUnwinds(cfg: Config, stack: seq<Frame>, r: Reply, s: string)
    requires AllOpen(stack)
    ensures var d := Deliver(stack, r);
            && (d.Next? ==> AllOpen(d.stack))
            && Unwind(cfg, stack, r, s) == Delivering(cfg, d, s)
    decreases |stack|
  {
    if stack != [] {
      var top := Last(stack);
      var kids := top.kids + [r];
      if |kids| == top.n {
        DeliverUnwinds(cfg, DropLast(stack), Agg(top.kind, kids), s);
      } else if |kids| <= INT_MAX {
        Continue(cfg, DropLast(stack), top.(kids := kids), s);
      }
    }
  }

  /** Reading the type byte of the next item. */
  lemma TypeStep(cfg: Config, stack: seq<Frame>, s: string)
    requires s != ""
    ensures TypeOf(s[0]).Some? ==> Remaining(cfg, stack, None, s) == Remaining(cfg, stack, TypeOf(s[0]), s[1..])
    ensures TypeOf(s[0]).None? ==> Remaining(cfg, stack, None, s) == Transcript([], Some(ProtocolByte(s[0])))
  {
  }

  lemma LeafStep(cfg: Config, stack: seq<Frame>, t: ItemType, s: string, r: Reply, rest: string)
    requires AllOpen(stack) && ReadHead(cfg, |stack|, t, s) == Leaf(r, rest)
    ensures Resume(cfg, stack, Some(t), s) == Delivering(cfg, Deliver(stack, r), rest)
  {
    hide ReadHead, Deliver, Unwind, Delivering, ParseItems;
    DeliverUnwinds(cfg, stack, r, rest);
  }

  lemma OpenStep(cfg: Config, stack: seq<Frame>, t: ItemType, s: string, kind: AggKind, n: nat, rest: string)
    requires ReadHead(cfg, |stack|, t, s) == Open(kind, n, rest) && n > 0
    ensures Resume(cfg, stack, Some(t), s) == Resume(cfg, stack + [Frame(kind, n, [])], None, rest)
  {
    hide ReadHead, Unwind, ParseItems, ParseItem;
    Continue(cfg, stack, Frame(kind, n, []), rest);
    var items := ParseItems(cfg, |stack| + 1, 0, n, rest);
    if items.Items? {
      assert [] + items.replies == items.replies;
    }
  }

  /** Reading one typed item: a leaf is delivered, an aggregate header opens a frame. */
  lemma HeadStep(cfg: Config, stack: seq<Frame>, t: ItemType, s: string)
    requires AllOpen(stack)
    ensures var h, now := ReadHead(cfg, |stack|, t, s), Remaining(cfg, stack, Some(t), s);
            && (h.HeadMore? ==> now == Transcript([], None))
            && (h.HeadFail? ==> now == Transcript([], Some(h.error)))
            && (h.Leaf? ==> now == After(cfg, Delivering(cfg, Deliver(stack, h.reply), h.rest)))
            && (h.Open? ==> now == Remaining(cfg, stack + [Frame(h.kind, h.n, [])], None, h.rest))
  {
    hide ReadHead, Deliver, Unwind, Delivering, ParseAll, ParseItem, ParseItems;
    match ReadHead(cfg, |stack|, t, s)
    case HeadMore =>
    case HeadFail(e) =>
    case Leaf(r, rest) => LeafStep(cfg, stack, t, s, r, rest);
    case Open(kind, n, rest) => OpenStep(cfg, stack, t, s, kind, n, rest);
  }

  /**
   * `emitted` is exactly what the grammar has read off `fed` so far, and what is left unread will
   * yield the rest: whatever bytes `x` arrive later.
   */
  ghost predicate Faithful(cfg: Config, fed: string, emitted: seq<Reply>,
                           stack: seq<Frame>, cur: Option<ItemType>, s: string) {
    forall x: string :: ParseAll(cfg, fed + x) == Prefixed(emitted, Remaining(cfg, stack, cur, s + x))
  }

  /** A root reply is finished but not yet handed out. */
  ghost predicate FaithfulRoot(cfg: Config, fed: string, emitted: seq<Reply>, root: Reply, s: string) {
    forall x: string :: ParseAll(cfg, fed + x) == Prefixed(emitted, Cons(root, ParseAll(cfg, s + x)))
  }

  /** The stream is broken: no later byte changes the replies or the error. */
  ghost predicate Broken(cfg: Config, fed: string, emitted: seq<Reply>, e: ReadError) {
    forall x: string :: ParseAll(cfg, fed + x) == Transcript(emitted, Some(e))
  }

  /** What is left once a reply has been delivered. */
  ghost predicate FaithfulDelivery(cfg: Config, fed: string, emitted: seq<Reply>, d: Delivered, s: string) {
    match d
    case Root(root) => FaithfulRoot(cfg, fed, emitted, root, s)
    case Next(stack) => AllOpen(stack) && Faithful(cfg, fed, emitted, stack, None, s)
    case TooMany => Broken(cfg, fed, emitted, CountOverflow)
  }

  lemma FaithfulFeed(cfg: Config, fed: string, emitted: seq<Reply>,
                     stack: seq<Frame>, cur: Option<ItemType>, s: string, more: string)
    requires Faithful(cfg, fed, emitted, stack, cur, s)
    ensures Faithful(cfg, fed + more, emitted, stack, cur, s + more)
  {
    hide ParseAll, Remaining, Prefixed;
    forall x: string
      ensures ParseAll(cfg, fed + more + x) == Prefixed(emitted, Remaining(cfg, stack, cur, s + more + x))
    {
      assert fed + more + x == fed + (more + x);
      assert s + more + x == s + (more + x);
    }
  }

  lemma FaithfulTypeByte(cfg: Config, fed: string, emitted: seq<Reply>, stack: seq<Frame>, s: string)
    requires s != "" && Faithful(cfg, fed, emitted, stack, None, s)
    ensures TypeOf(s[0]).Some? ==> Faithful(cfg, fed, emitted, stack, TypeOf(s[0]), s[1..])
    ensures TypeOf(s[0]).None? ==> Broken(cfg, fed, emitted, ProtocolByte(s[0]))
  {
    forall x: string
      ensures TypeOf(s[0]).Some? ==> ParseAll(cfg, fed + x) == Prefixed(emitted, Remaining(cfg, stack, TypeOf(s[0]), s[1..] + x))
      ensures TypeOf(s[0]).None? ==> ParseAll(cfg, fed + x) == Transcript(emitted, Some(ProtocolByte(s[0])))
    {
      TypeStep(cfg, stack, s + x);
      assert (s + x)[0] == s[0] && (s + x)[1..] == s[1..] + x;
    }
  }

  lemma FaithfulHead(cfg: Config, fed: string, emitted: seq<Reply>,
                     stack: seq<Frame>, t: ItemType, s: string)
    requires AllOpen(stack) && Faithful(cfg, fed, emitted, stack, Some(t), s)
    ensures var h := ReadHead(cfg, |stack|, t, s); h.HeadFail? ==> Broken(cfg, fed, emitted, h.error)
    ensures var h := ReadHead(cfg, |stack|, t, s);
            h.Leaf? ==> FaithfulDelivery(cfg, fed, emitted, Deliver(stack, h.reply), h.rest)
    ensures var h := ReadHead(cfg, |stack|, t, s);
            h.Open? ==>
              AllOpen(stack + [Frame(h.kind, h.n, [])]) && Faithful(cfg, fed, emitted, stack + [Frame(h.kind, h.n, [])], None, h.rest)
  {
    hide ReadHead, Deliver, ParseAll, ParseItem, ParseBody, Unwind, Resume;
    var h := ReadHead(cfg, |stack|, t, s);
    if h.Leaf? {
      DeliverUnwinds(cfg, stack, h.reply, h.rest);
    }
    forall x: string
      ensures h.HeadFail? ==> ParseAll(cfg, fed + x) == Transcript(emitted, Some(h.error))
      ensures h.Leaf? ==>
                ParseAll(cfg, fed + x) == Prefixed(emitted, After(cfg, Delivering(cfg, Deliver(stack, h.reply), h.rest + x)))
      ensures h.Open? ==>
                ParseAll(cfg, fed + x) == Prefixed(emitted, Remaining(cfg, stack + [Frame(h.kind, h.n, [])], None, h.rest + x))
    {
      ReadHeadStable(cfg, |stack|, t, s, x);
      HeadStep(cfg, stack, t, s + x);
    }
  }

  /** When more bytes are needed, everything the stream holds so far has been handed out. */
  lemma FaithfulNow(cfg: Config, fed: string, emitted: seq<Reply>, stack: seq<Frame>, cur: Option<ItemType>, s: string)
    requires Faithful(cfg, fed, emitted, stack, cur, s) && Resume(cfg, stack, cur, s).More?
    ensures ParseAll(cfg, fed) == Transcript(emitted, None)
  {
    hide ParseAll, Resume;
    assert fed + "" == fed && s + "" == s;
  }

  lemma BrokenNow(cfg: Config, fed: string, emitted: seq<Reply>, e: ReadError)
    requires Broken(cfg, fed, emitted, e)
    ensures ParseAll(cfg, fed) == Transcript(emitted, Some(e))
  {
    hide ParseAll;
    assert fed + "" == fed;
  }

  /** An aggregate is being read only where the stack has room for its elements. */
  predicate Shallow(stack: seq<Frame>, cur: Option<ItemType>) {
    cur.Some? && cur.value.TAgg? ==> |stack| < MAX_DEPTH
  }

  lemma MoreIsShallow(cfg: Config, stack: seq<Frame>, cur: Option<ItemType>, s: string)
    requires Resume(cfg, stack, cur, s).More?
    ensures Shallow(stack, cur)
  {
  }

  /** An empty buffer never holds the end of an item. */
  lemma NothingUnread(cfg: Config, stack: seq<Frame>, cur: Option<ItemType>)
    requires Shallow(stack, cur)
    ensures Resume(cfg, stack, cur, "").More?
  {
  }

  lemma MoreNeeded(cfg: Config, stack: seq<Frame>, t: ItemType, s: string)
    requires ReadHead(cfg, |stack|, t, s).HeadMore?
    ensures Resume(cfg, stack, Some(t), s).More?
  {
  }

  /** Handing out the finished root leaves an empty stack on the unread bytes. */
  lemma FaithfulEmit(cfg: Config, fed: string, emitted: seq<Reply>, root: Reply, s: string)
    requires FaithfulRoot(cfg, fed, emitted, root, s)
    ensures Faithful(cfg, fed, emitted + [root], [], None, s)
  {
    forall x: string
      ensures ParseAll(cfg, fed + x) == Prefixed(emitted + [root], Remaining(cfg, [], None, s + x))
    {
      assert ParseAll(cfg, fed + x) == Prefixed(emitted, Cons(root, ParseAll(cfg, s + x)));
      assert emitted + ([root] + ParseAll(cfg, s + x).replies) == emitted + [root] + ParseAll(cfg, s + x).replies;
      RemainingAtRoot(cfg, s + x);
    }
  }
}
