/**
 * The resumable reply reader of deps/hiredis/read.c: a buffer with a read position and an
 * explicit, growing stack of read tasks. `Valid()` ties its state, at every moment, to the
 * recursive grammar of `Resp`: however the stream is cut into feeds, the replies handed out
 * so far and the unread state together make up the parse of everything that was fed.
 */
module Reader {
  import opened Common
  import opened Num
  import opened Resp
  import opened Resumption

  /** `redisReadTask`. `kids` is the filled part of the element array of `obj`. */
  datatype Task = Task(ttype: Option<ItemType>, elements: int, idx: int, kids: seq<Reply>)

  const FRESH_TASK := Task(None, -1, 0, [])

  class RedisReader {
    const cfg: Config
    var buf: string
    var pos: nat
    var task: array<Task>
    var ridx: int
    var reply: Option<Reply>
    var err: Option<ReadError>
    ghost var frames: seq<Frame>   // the open aggregates, outermost first
    ghost var fed: string          // every byte accepted so far
    ghost var emitted: seq<Reply>  // every reply handed out so far

    /** The unread bytes. */
    ghost function Unread(): string
      requires pos <= |buf|
      reads this
    {
      buf[pos..]
    }

    ghost function UnreadCount(): int
      reads this
    {
      |buf| - pos
    }

    /** The tasks below the current one are open aggregates, and `frames` describes them. */
    ghost predicate StackShape()
      reads this, task
    {
      && Slots(task.Length) && -1 <= ridx < task.Length && pos <= |buf|
      && |frames| == (if ridx < 0 then 0 else ridx)
      && (forall i :: 0 <= i < ridx ==> IsFrame(task[i], frames[i]))
      && (forall i :: 0 <= i < ridx ==> task[i + 1].idx == |frames[i].kids|)
    }

    /** The size of the task array, which grows by nine and is counted with an int. */
    predicate Slots(n: nat) {
      n > 0 && n % STACK_SIZE == 0 && n <= INT_MAX
    }

    ghost predicate IsFrame(t: Task, f: Frame) {
      && t.ttype == Some(TAgg(f.kind))
      && t.elements == f.n && t.kids == f.kids
      && |f.kids| < f.n <= LLONG_MAX && |f.kids| <= INT_MAX
      && (cfg.maxElements > 0 ==> f.n <= 2 * cfg.maxElements)
    }

    ghost function Current(): Option<ItemType>
      requires StackShape()
      reads this, task
    {
      if ridx < 0 then None else task[ridx].ttype
    }

    /** No error, no finished root: reading may go on. */
    ghost predicate Reading()
      reads this, task
    {
      && err.None? && reply.None? && StackShape()
      && Faithful(cfg, fed, emitted, frames, Current(), Unread())
    }

    /** A root reply is complete and waits to be handed out. */
    ghost predicate Finished()
      reads this, task
    {
      && err.None? && reply.Some? && ridx == -1 && StackShape()
      && FaithfulRoot(cfg, fed, emitted, reply.value, Unread())
    }

    /** A protocol error was met; the reader accepts nothing more. */
    ghost predicate Stuck()
      reads this, task
    {
      && err.Some? && reply.None? && ridx == -1 && buf == "" && pos == 0 && Slots(task.Length)
      && Broken(cfg, fed, emitted, err.value)
    }

    ghost predicate Valid()
      reads this, task
    {
      (Reading() && Shallow(frames, Current())) || Stuck()
    }

    /** `redisReaderCreateWithFunctions` (read.c:653-683). */
    constructor (cfg: Config)
      ensures Valid() && fresh(task)
      ensures this.cfg == cfg && fed == "" && emitted == [] && err == None
    {
      this.cfg := cfg;
      buf, pos, ridx := "", 0, -1;
      task := new Task[STACK_SIZE](_ => FRESH_TASK);
      reply, err := None, None;
      frames, fed, emitted := [], "", [];
      new;
      forall x: string
        ensures ParseAll(cfg, fed + x) == Prefixed(emitted, Remaining(cfg, frames, Current(), Unread() + x))
      {
        assert fed + x == x && Unread() + x == x;
        RemainingAtRoot(cfg, x);
      }
    }

    /** `__redisReaderSetError` (read.c:53-75). */
    method SetError(e: ReadError)
      requires Slots(task.Length) && Broken(cfg, fed, emitted, e)
      modifies this`reply, this`buf, this`pos, this`ridx, this`err, this`frames
      ensures Stuck() && err == Some(e)
    {
      reply, frames := None, [];
      buf, pos, ridx := "", 0, -1;
      err := Some(e);
    }

    /** `seekNewline` (read.c:125-148): repeated memchr() for CR, checked for a following LF. */
    method SeekNewline(from: nat) returns (r: Option<nat>)
      requires from <= |buf|
      ensures r == FindCrlf(buf[from..])
    {
      var s := buf[from..];
      if |s| < 2 {
        return None;
      }
      var i := 0;
      while i < |s| - 1
        invariant 0 <= i <= |s| - 1
        invariant forall j :: 0 <= j < i ==> !CrlfAt(s, j)
      {
        if s[i] == '\r' && s[i + 1] == '\n' {
          assert CrlfAt(s, i);
          return Some(i);
        }
        i := i + 1;
      }
      forall j
        ensures !CrlfAt(s, j)
      {
      }
      return None;
    }

    /**
     * `moveToNextTask` (read.c:240-266), given the reply object just finished: while it is the
     * last element of its parent, the parent is finished too.
     */
    method MoveToNextTask(obj: Reply) returns (fits: bool)
      requires StackShape() && ridx >= 0 && reply.None?
      modifies this`ridx, this`frames, this`reply, task
      ensures StackShape()
      ensures var d := Deliver(old(frames), obj);
              && fits == !d.TooMany?
              && (d.Root? ==> ridx == -1 && reply == Some(d.reply))
              && (d.Next? ==> ridx >= 0 && frames == d.stack && Current() == None && reply == None)
    {
      var done := obj;
      fits := true;
      while ridx > 0 && task[ridx].idx == task[ridx - 1].elements - 1
        invariant 0 <= ridx && StackShape() && reply.None?
        invariant Deliver(frames, done) == Deliver(old(frames), obj)
        decreases ridx
      {
        var top := task[ridx - 1];
        assert Last(frames) == Frame(top.ttype.value.kind, top.elements, top.kids);
        ridx := ridx - 1;
        frames := DropLast(frames);
        done := Agg(top.ttype.value.kind, top.kids + [done]);
      }
      if ridx == 0 {
        ridx := -1;
        reply := Some(done);
      } else if task[ridx].idx == INT_MAX {
        fits := false;   // `cur->idx++` would overflow
      } else {
        NextSibling(done);
      }
    }

    /** The current element is stored; the next element of the same parent can be anything. */
    method NextSibling(done: Reply)
      requires StackShape() && ridx > 0 && task[ridx].idx != task[ridx - 1].elements - 1
      requires task[ridx].idx < INT_MAX
      modifies this`frames, task
      ensures StackShape() && Current() == None
      ensures Deliver(old(frames), done) == Next(frames)
    {
      var cur, prv := task[ridx], task[ridx - 1];
      ghost var top := Last(frames);
      task[ridx - 1] := prv.(kids := prv.kids + [done]);
      task[ridx] := cur.(ttype := None, elements := -1, idx := cur.idx + 1);
      frames := DropLast(frames) + [top.(kids := top.kids + [done])];
    }

    /** What the process*Item functions do once the head has been read: fail, deliver or open. */
    method Act(t: ItemType, h: Head, newPos: nat) returns (ok: bool)
      requires Reading() && ridx >= 0 && task[ridx].ttype == Some(t)
      requires h == ReadHead(cfg, |frames|, t, Unread())
      requires h.Leaf? || h.Open? ==> newPos <= |buf| && h.rest == buf[newPos..]
      requires h.Open? ==> OpenFits(t, h)
      modifies this`buf, this`ridx, this`frames, this`reply, this`pos, this`err, task
      ensures Progress(ok, old(|buf| - pos)) && (ok ==> buf == old(buf))
    {
      hide ReadHead, Faithful, FaithfulRoot, Broken, Deliver, Resume;
      FaithfulHead(cfg, fed, emitted, frames, t, Unread());
      match h
      case HeadMore =>
        MoreNeeded(cfg, frames, t, Unread());
        ok := false;
      case HeadFail(e) =>
        SetError(e);
        ok := false;
      case Leaf(obj, _) =>
        pos := newPos;
        ok := MoveToNextTask(obj);
        if !ok {
          SetError(CountOverflow);
        }
      case Open(_, n, _) =>
        pos := newPos;
        PushFrame(t.kind, n);
        ok := true;
    }

    /** After an item was attempted: bytes were consumed, or the stream broke, or more bytes are needed. */
    ghost predicate Progress(ok: bool, unread: int)
      reads this, task
    {
      if ok then
        ((Reading() && ridx >= 0) || Finished()) && |buf| - pos < unread
      else
        Stuck() || (Reading() && ridx >= 0 && Resume(cfg, frames, Current(), Unread()).More?)
    }

    /** The task array has a free slot, and the element count respects the limit. */
    ghost predicate OpenFits(t: ItemType, h: Head)
      requires h.Open?
      reads this, task
    {
      && t == TAgg(h.kind) && ridx < task.Length - 1
      && (cfg.maxElements > 0 ==> h.n <= 2 * cfg.maxElements)
    }

    /** An aggregate with children becomes a frame, and its first child the current task. */
    method PushFrame(kind: AggKind, n: nat)
      requires StackShape() && 0 <= ridx < task.Length - 1 && task[ridx].ttype == Some(TAgg(kind)) && n > 0
      requires n <= LLONG_MAX && (cfg.maxElements > 0 ==> n <= 2 * cfg.maxElements)
      modifies this`ridx, this`frames, task
      ensures StackShape() && ridx == old(ridx) + 1 && Current() == None
      ensures frames == old(frames) + [Frame(kind, n, [])]
    {
      task[ridx] := task[ridx].(elements := n, kids := []);
      ridx := ridx + 1;
      task[ridx] := FRESH_TASK;
      frames := frames + [Frame(kind, n, [])];
    }

    /** The reading part of `processLineItem` (read.c:268-394). */
    method ScanLine(t: ItemType) returns (h: Head, newPos: nat)
      requires pos <= |buf| && !t.TString? && !t.TVerb? && !t.TAgg?
      ensures h == ReadHead(cfg, |frames|, t, Unread())
      ensures h.Leaf? ==> newPos <= |buf| && h.rest == buf[newPos..]
      ensures !h.Open?
    {
      var nl := SeekNewline(pos);
      newPos := pos;
      if nl.None? {
        return HeadMore, pos;
      }
      ghost var s := Unread();
      newPos := pos + nl.value + 2;
      if nl.value + 2 > INT_MAX {
        return HeadFail(LineOverflow), pos;
      }
      var line := buf[pos..pos + nl.value];
      assert line == s[..nl.value];
      assert s[nl.value + 2..] == buf[newPos..];
      match ParseLine(cfg, t, line)
      case Bad(e) => h := HeadFail(e);
      case Good(obj) => h := Leaf(obj, buf[newPos..]);
    }

    /** The reading part of `processBulkItem` (read.c:396-466). */
    method ScanBulk(t: ItemType) returns (h: Head, newPos: nat)
      requires pos <= |buf| && (t.TString? || t.TVerb?)
      ensures h == ReadHead(cfg, |frames|, t, Unread())
      ensures h.Leaf? ==> newPos <= |buf| && h.rest == buf[newPos..]
      ensures !h.Open?
    {
      hide FindCrlf, ParseLL, MakeBulk;
      var nl := SeekNewline(pos);
      newPos := pos;
      if nl.None? {
        return HeadMore, pos;
      }
      var start := pos + nl.value + 2;
      var line, after := buf[pos..pos + nl.value], buf[start..];
      assert line == Unread()[..nl.value] && after == Unread()[nl.value + 2..];
      var len := String2LL(line);
      if len.None? {
        return HeadFail(BadBulkLength), pos;
      }
      if len.value < -1 {
        return HeadFail(BulkLengthRange), pos;
      }
      if len.value == -1 {
        return Leaf(Nil, after), start;
      }
      if len.value + 2 > LLONG_MAX {
        return HeadFail(LengthOverflow), pos;
      }
      if len.value + 2 > |after| {
        return HeadMore, pos;
      }
      newPos := start + len.value + 2;
      assert after[len.value + 2..] == buf[newPos..];
      match MakeBulk(t, after[..len.value])
      case Bad(e) => h := HeadFail(e);
      case Good(obj) => h := Leaf(obj, buf[newPos..]);
    }

    /** The reading part of `processAggregateItem` (read.c:494-570). */
    method ScanAggregate(t: ItemType) returns (h: Head, newPos: nat)
      requires pos <= |buf| && t.TAgg? && |frames| < MAX_DEPTH
      ensures h == ReadHead(cfg, |frames|, t, Unread())
      ensures h.Leaf? || h.Open? ==> newPos <= |buf| && h.rest == buf[newPos..]
      ensures h.Open? ==> t == TAgg(h.kind) && (cfg.maxElements > 0 ==> h.n <= 2 * cfg.maxElements)
    {
      var nl := SeekNewline(pos);
      newPos := pos;
      if nl.None? {
        return HeadMore, pos;
      }
      ghost var s := Unread();
      newPos := pos + nl.value + 2;
      assert buf[pos..pos + nl.value] == s[..nl.value];
      assert buf[newPos..] == s[nl.value + 2..];
      if nl.value + 2 > INT_MAX {
        return HeadFail(LineOverflow), pos;
      }
      var elements := String2LL(buf[pos..pos + nl.value]);
      if elements.None? {
        return HeadFail(BadMultiBulkLength), pos;
      }
      var n := elements.value;
      if n < -1 || (cfg.maxElements > 0 && n > cfg.maxElements) {
        return HeadFail(MultiBulkRange), pos;
      }
      if n == -1 {
        return Leaf(Nil, buf[newPos..]), newPos;
      }
      if t.kind.Map? {
        n := n * 2;
      }
      if n > LLONG_MAX {
        return HeadFail(CountOverflow), pos;
      }
      if n > 0 {
        h := Head.Open(t.kind, n, buf[newPos..]);
      } else {
        h := Leaf(Agg(t.kind, []), buf[newPos..]);
      }
    }

    /** `redisReaderGrow` (read.c:468-491): nine more tasks, the old ones kept. */
    method Grow()
      requires Reading() && task.Length + STACK_SIZE <= INT_MAX
      modifies this`task
      ensures Reading() && fresh(task) && task.Length == old(task.Length) + STACK_SIZE
      ensures ridx >= 0 ==> task[ridx] == old(task[ridx])
      ensures frames == old(frames) && Current() == old(Current())
    {
      var aux := new Task[task.Length + STACK_SIZE](_ => FRESH_TASK);
      forall i | 0 <= i < task.Length {
        aux[i] := task[i];
      }
      task := aux;
    }

    /** `processItem` (read.c:572-651). */
    method ProcessItem() returns (ok: bool)
      requires Reading() && ridx >= 0
      modifies this`buf, this`ridx, this`frames, this`reply, this`pos, this`err, this`task, task
      ensures task == old(task) || fresh(task)
      ensures Progress(ok, old(|buf| - pos))
    {
      if task[ridx].ttype.None? {
        if pos == |buf| {
          return false;
        }
        var c := buf[pos];
        ghost var s := Unread();
        FaithfulTypeByte(cfg, fed, emitted, frames, s);
        var t := TypeOf(c);
        if t.None? {
          SetError(ProtocolByte(c));
          return false;
        }
        pos := pos + 1;
        assert Unread() == s[1..];
        task[ridx] := task[ridx].(ttype := t);
      }
      ok := ProcessTyped(task[ridx].ttype.value);
    }

    /** The dispatch on the item type that ends `processItem`. */
    method ProcessTyped(t: ItemType) returns (ok: bool)
      requires Reading() && ridx >= 0 && task[ridx].ttype == Some(t)
      modifies this`buf, this`ridx, this`frames, this`reply, this`pos, this`err, this`task, task
      ensures task == old(task) || fresh(task)
      ensures Progress(ok, old(|buf| - pos))
    {
      var h, newPos;
      if t.TString? || t.TVerb? {
        h, newPos := ScanBulk(t);
      } else if t.TAgg? {
        h, newPos := DeepOrAggregate(t);
      } else {
        h, newPos := ScanLine(t);
      }
      ok := Act(t, h, newPos);
    }

    /** An aggregate needs a task for its elements; the array may have to grow first. */
    method DeepOrAggregate(t: ItemType) returns (h: Head, newPos: nat)
      requires Reading() && ridx >= 0 && task[ridx].ttype == Some(t) && t.TAgg?
      modifies this`task
      ensures Reading() && task[ridx].ttype == Some(t) && (task == old(task) || fresh(task))
      ensures h == ReadHead(cfg, |frames|, t, Unread())
      ensures h.Leaf? || h.Open? ==> newPos <= |buf| && h.rest == buf[newPos..]
      ensures h.Open? ==> OpenFits(t, h)
    {
      LastSlots(task.Length);
      if ridx == task.Length - 1 {
        if task.Length + STACK_SIZE > INT_MAX {
          return HeadFail(DepthOverflow), pos;
        }
        Grow();
      }
      h, newPos := ScanAggregate(t);
    }

    /** `redisReaderFeed` (read.c:705-734). */
    method Feed(data: string) returns (ok: bool)
      requires Valid()
      modifies this`buf, this`fed
      ensures Valid() && ok == err.None?
      ensures fed == if ok then old(fed) + data else old(fed)
    {
      if err.Some? {
        return false;
      }
      ghost var s := Unread();
      buf := buf + data;
      fed := fed + data;
      assert Unread() == s + data;
      FaithfulFeed(cfg, old(fed), emitted, frames, Current(), s, data);
      ok := true;
    }

    /**
     * `redisReaderGetReply` (read.c:736-787). A missing reply without an error means that the
     * bytes fed so far hold no further reply; an error is the error of the whole stream.
     */
    method GetReply() returns (ok: bool, r: Option<Reply>)
      requires Valid()
      modifies this, task
      ensures Valid() && fed == old(fed) && (task == old(task) || fresh(task))
      ensures ok == err.None?
      ensures old(err).Some? ==> err == old(err)
      ensures r.Some? ==> ok && emitted == old(emitted) + [r.value]
      ensures r.None? ==> emitted == old(emitted)
      ensures r.Some? ==> UnreadCount() < old(UnreadCount())
      ensures ok && r.None? ==> ParseAll(cfg, fed) == Transcript(emitted, None)
      ensures !ok ==> ParseAll(cfg, fed) == Transcript(emitted, err)
    {
      hide Faithful, FaithfulRoot, Broken, Resume, ParseAll;
      if err.Some? {
        BrokenNow(cfg, fed, emitted, err.value);
        return false, None;
      }
      if |buf| == 0 {
        NothingUnread(cfg, frames, Current());
        FaithfulNow(cfg, fed, emitted, frames, Current(), Unread());
        return true, None;
      }
      ReadItems();
      if err.Some? {
        BrokenNow(cfg, fed, emitted, err.value);
        return false, None;
      }
      if pos >= 1024 {
        ghost var s := Unread();
        buf, pos := buf[pos..], 0;
        assert Unread() == s;
      }
      if ridx == -1 {
        r := reply;
        FaithfulEmit(cfg, fed, emitted, reply.value, Unread());
        emitted := emitted + [reply.value];
        reply := None;
      } else {
        FaithfulNow(cfg, fed, emitted, frames, Current(), Unread());
        MoreIsShallow(cfg, frames, Current(), Unread());
        r := None;
      }
      ok := true;
    }

    /** The item loop of `redisReaderGetReply`: it ends because every item consumes bytes. */
    method ReadItems()
      requires Reading()
      modifies this`buf, this`ridx, this`frames, this`reply, this`pos, this`err, this`task, task
      ensures task == old(task) || fresh(task)
      ensures Stuck() || Finished() || (Reading() && ridx >= 0 && Resume(cfg, frames, Current(), Unread()).More?)
      ensures Finished() ==> UnreadCount() < old(UnreadCount())
    {
      if ridx == -1 {
        task[0] := Task(None, -1, -1, []);
        ridx := 0;
      }
      var more := true;
      while ridx >= 0 && more
        invariant task == old(task) || fresh(task)
        invariant more ==> (Reading() && ridx >= 0) || Finished()
        invariant more ==> UnreadCount() <= old(UnreadCount())
        invariant Finished() ==> more && UnreadCount() < old(UnreadCount())
        invariant !more ==> Stuck() || (Reading() && ridx >= 0 && Resume(cfg, frames, Current(), Unread()).More?)
        decreases more, |buf| - pos
      {
        more := ProcessItem();
      }
    }
  }

  /** The last size of the task array is the one that `MAX_DEPTH` speaks of. */
  lemma LastSlots(n: nat)
    requires n % STACK_SIZE == 0 && n <= INT_MAX
    ensures n <= MAX_DEPTH + 1 && (n + STACK_SIZE > INT_MAX <==> n == MAX_DEPTH + 1)
  {
    assert MAX_DEPTH == 2147483645;
  }

  /** What a caller does with a reader: hand it bytes, or ask it for a reply. */
  datatype Call = FeedBytes(data: string) | AskReply

  /** The whole stream, however it was cut. */
  function Stream(calls: seq<Call>): string {
    if calls == [] then ""
    else Stream(DropLast(calls)) + (match Last(calls) case FeedBytes(data) => data case AskReply => "")
  }

  /**
   * For every way of cutting a stream into feeds, with requests for replies anywhere in between,
   * the replies handed out and the final error are those of the grammar on the whole stream.
   */
  method Session(cfg: Config, calls: seq<Call>) returns (replies: seq<Reply>, error: Option<ReadError>)
    ensures Transcript(replies, error) == ParseAll(cfg, Stream(calls))
  {
    hide Faithful, FaithfulRoot, Resume, ParseAll;
    var reader := new RedisReader(cfg);
    replies := [];
    for i := 0 to |calls|
      invariant reader.Valid() && reader.cfg == cfg && fresh(reader) && fresh(reader.task)
      invariant reader.emitted == replies
      invariant reader.fed <= Stream(calls[..i])
      invariant reader.err.None? ==> reader.fed == Stream(calls[..i])
    {
      assert DropLast(calls[..i + 1]) == calls[..i];
      match calls[i] {
        case FeedBytes(data) =>
          var _ := reader.Feed(data);
        case AskReply =>
          var _, r := reader.GetReply();
          if r.Some? {
            replies := replies + [r.value];
          }
      }
    }
    assert calls[..|calls|] == calls;
    var ok, r := reader.GetReply();
    while r.Some?
      invariant reader.Valid() && reader.cfg == cfg && fresh(reader) && fresh(reader.task)
      invariant reader.emitted == replies + (if r.Some? then [r.value] else [])
      invariant reader.fed <= Stream(calls)
      invariant reader.err.None? ==> reader.fed == Stream(calls)
      invariant ok == reader.err.None?
      invariant r.None? && ok ==> ParseAll(cfg, reader.fed) == Transcript(reader.emitted, None)
      decreases if r.Some? then 1 + reader.UnreadCount() else 0
    {
      replies := replies + [r.value];
      ok, r := reader.GetReply();
    }
    error := reader.err;
    if !ok {
      var rest := Stream(calls)[|reader.fed|..];
      assert Stream(calls) == reader.fed + rest;
    }
  }
}
