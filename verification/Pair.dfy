/**
 * bufferevent pairs (deps/libevent/bufferevent_pair.c, bufferevent.c:66-149, 482-503, 575-638): what is
 * written at one end can be read at the other, subject to what the ends enable, to what suspends them
 * and to the high watermark of the reading end.
 *
 * The functions take an end together with its partner and return both. Evbuffers are byte sequences.
 */
module Pairs {
  import opened Common

  datatype End = End(
    input: seq<char>,
    output: seq<char>,
    reading: bool,              // enabled & EV_READ
    writing: bool,              // enabled & EV_WRITE
    readSuspended: set<Reason>,
    writeSuspended: set<Reason>,
    high: nat)                  // wm_read.high; its callback is in place when this is not zero

  /** A new end: writing is enabled from the start (bufferevent.c:343), reading is not. */
  const IDLE := End([], [], false, true, {}, {}, 0)

  type Ends = (End, End)

  function Least(a: nat, b: nat): nat {
    if a < b then a else b
  }

  /** `be_pair_wants_to_talk` (bufferevent_pair.c:195-202) */
  predicate WantsToTalk(src: End, dst: End) {
    src.writing && dst.reading && dst.readSuspended == {} && src.output != []
  }

  /** How many bytes a transfer moves (bufferevent_pair.c:162-178) */
  function Amount(src: End, dst: End, ignoreWm: bool): (n: nat)
    ensures n <= |src.output|
  {
    if dst.high == 0 then |src.output|
    else if |dst.input| < dst.high then Least(dst.high - |dst.input|, |src.output|)
    else if ignoreWm then |src.output|
    else 0
  }

  /** `be_pair_transfer` (bufferevent_pair.c:153-192); moving bytes runs the callback of the input they go to. */
  function Transfer(src: End, dst: End, ignoreWm: bool): (r: Ends)
    ensures |r.0.output| <= |src.output| && |r.1.output| <= |dst.output|
    ensures r.0.high == src.high && r.1.high == dst.high
    decreases |src.output| + |dst.output|, 0
  {
    var n := Amount(src, dst, ignoreWm);
    if n == 0 then (src, dst)
    else
      var r := InbufCb(dst.(input := dst.input + src.output[..n]), src.(output := src.output[n..]));
      (r.1, r.0)
  }

  /** `bufferevent_inbuf_wm_cb` (bufferevent.c:136-149) */
  function InbufCb(e: End, o: End): (r: Ends)
    ensures |r.0.output| <= |e.output| && |r.1.output| <= |o.output|
    ensures r.0.high == e.high && r.1.high == o.high
    decreases |e.output| + |o.output|, 3
  {
    if e.high == 0 then (e, o)
    else if |e.input| >= e.high then (e.(readSuspended := e.readSuspended + {Watermark}), o)
    else UnsuspendRead(e, o, Watermark)
  }

  /** `bufferevent_unsuspend_read_` (bufferevent.c:78-86) */
  function UnsuspendRead(e: End, o: End, what: Reason): (r: Ends)
    ensures |r.0.output| <= |e.output| && |r.1.output| <= |o.output|
    ensures r.0.high == e.high && r.1.high == o.high
    decreases |e.output| + |o.output|, 2
  {
    var f := e.(readSuspended := e.readSuspended - {what});
    if f.readSuspended == {} && f.reading then BeEnable(f, o, true, false) else (f, o)
  }

  /** `be_pair_enable` (bufferevent_pair.c:225-250) */
  function BeEnable(e: End, o: End, r: bool, w: bool): (res: Ends)
    ensures |res.0.output| <= |e.output| && |res.1.output| <= |o.output|
    ensures res.0.high == e.high && res.1.high == o.high
    decreases |e.output| + |o.output|, 1
  {
    var got := if r && WantsToTalk(o, e) then var t := Transfer(o, e, false); (t.1, t.0) else (e, o);
    if w && WantsToTalk(got.0, got.1) then Transfer(got.0, got.1, false) else got
  }

  function UnsuspendWrite(e: End, o: End, what: Reason): Ends {
    var f := e.(writeSuspended := e.writeSuspended - {what});
    if f.writeSuspended == {} && f.writing then BeEnable(f, o, false, true) else (f, o)
  }

  /** `bufferevent_enable` (bufferevent.c:482-503) */
  function EnableEnd(e: End, o: End, r: bool, w: bool): Ends {
    BeEnable(e.(reading := e.reading || r, writing := e.writing || w), o,
             r && e.readSuspended == {}, w && e.writeSuspended == {})
  }

  /** `bufferevent_write` and `be_pair_outbuf_cb` (bufferevent.c:451-457, bufferevent_pair.c:205-222) */
  function WriteBytes(e: End, o: End, s: seq<char>): Ends {
    var f := e.(output := e.output + s);
    if s != [] && WantsToTalk(f, o) then Transfer(f, o, false) else (f, o)
  }

  /** `bufferevent_read` (bufferevent.c:470-473): what is read, and what becomes of the ends */
  function ReadBytes(e: End, n: nat): seq<char> {
    e.input[..Least(n, |e.input|)]
  }

  /** As many bytes as were asked for, from the front, or all there are. */
  lemma ReadGets(e: End, n: nat)
    ensures var s := ReadBytes(e, n); s <= e.input && |s| <= n && (|s| < n ==> s == e.input)
  {
  }

  function Take(e: End, o: End, n: nat): Ends {
    var k := Least(n, |e.input|);
    if k == 0 then (e, o) else InbufCb(e.(input := e.input[k..]), o)
  }

  /** `bufferevent_setwatermark` for reading (bufferevent.c:594-638) */
  function SetWatermark(e: End, o: End, high: nat): Ends {
    var f := e.(high := high);
    if high > 0 && |f.input| >= high then (f.(readSuspended := f.readSuspended + {Watermark}), o)
    else UnsuspendRead(f, o, Watermark)
  }

  /** `be_pair_flush` (bufferevent_pair.c:305-337) in a mode other than BEV_NORMAL, which does nothing */
  function FlushEnd(e: End, o: End, r: bool, w: bool): Ends {
    var got := if r then var t := Transfer(o, e, true); (t.1, t.0) else (e, o);
    if w then Transfer(got.0, got.1, true) else got
  }

  // -------- what a transfer does --------

  /** The watermark suspends reading exactly while it is reached. */
  predicate Marked(e: End) {
    Watermark in e.readSuspended <==> e.high > 0 && |e.input| >= e.high
  }

  /** Nothing is left to a willing reader, except by a suspended writer, which is not asked. */
  predicate Settled(src: End, dst: End) {
    WantsToTalk(src, dst) ==> src.writeSuspended != {}
  }

  /** After a transfer either nothing is left, or the reader has reached its watermark. */
  lemma TransferExact(src: End, dst: End, ignoreWm: bool)
    requires Marked(dst)
    ensures var n := Amount(src, dst, ignoreWm);
      var moved := dst.(input := dst.input + src.output[..n]);
      var full := dst.high > 0 && |moved.input| >= dst.high;
      Transfer(src, dst, ignoreWm) == (src.(output := src.output[n..]),
        moved.(readSuspended := if full then dst.readSuspended + {Watermark} else dst.readSuspended))
  {
    var n := Amount(src, dst, ignoreWm);
    if n == 0 {
      assert src.output[0..] == src.output && dst.input + src.output[..0] == dst.input;
      assert Watermark in dst.readSuspended ==> dst.readSuspended + {Watermark} == dst.readSuspended;
    } else {
      var moved, left := dst.(input := dst.input + src.output[..n]), src.(output := src.output[n..]);
      if dst.high > 0 && |moved.input| < dst.high {
        assert left.output == [];
        assert dst.readSuspended - {Watermark} == dst.readSuspended;
        NothingToSend(moved, left);
      }
    }
  }

  /** Releasing a reader whose partner has nothing to say changes nothing else. */
  lemma NothingToSend(e: End, o: End)
    requires o.output == []
    ensures UnsuspendRead(e, o, Watermark) == (e.(readSuspended := e.readSuspended - {Watermark}), o)
  {
  }

  lemma TransferSettles(src: End, dst: End, ignoreWm: bool)
    requires Marked(dst)
    ensures var r := Transfer(src, dst, ignoreWm);
      !WantsToTalk(r.0, r.1) && Marked(r.1)
      && r.1.input + r.0.output == dst.input + src.output
      && (!ignoreWm && dst.high > 0 && |dst.input| <= dst.high ==> |r.1.input| <= dst.high)
      && (!ignoreWm && dst.high > 0 && |dst.input| > dst.high ==> r.1.input == dst.input)
      && r.0 == src.(output := r.0.output) && r.1 == dst.(input := r.1.input, readSuspended := r.1.readSuspended)
      && dst.readSuspended <= r.1.readSuspended
  {
    hide Transfer;
    TransferExact(src, dst, ignoreWm);
    var n := Amount(src, dst, ignoreWm);
    assert src.output[..n] + src.output[n..] == src.output;
    Assoc(dst.input, src.output[..n], src.output[n..]);
  }

  /** A non-flush transfer does not push the input past a high watermark. */
  predicate NoOvershoot(e: End, f: End) {
    e.high > 0 ==> if |e.input| <= e.high then |f.input| <= e.high else f.input == e.input
  }

  /** Bytes went over in order, and nothing else happened but that watermarks were reached. */
  predicate Moved(e: End, o: End, r: Ends) {
    && r.0 == e.(input := r.0.input, output := r.0.output, readSuspended := r.0.readSuspended)
    && r.1 == o.(input := r.1.input, output := r.1.output, readSuspended := r.1.readSuspended)
    && r.1.input + r.0.output == o.input + e.output
    && r.0.input + r.1.output == e.input + o.output
    && Marked(r.0) && Marked(r.1)
    && (WantsToTalk(r.0, r.1) ==> WantsToTalk(e, o)) && (WantsToTalk(r.1, r.0) ==> WantsToTalk(o, e))
  }

  lemma TransferMoves(src: End, dst: End, ignoreWm: bool)
    requires Marked(src) && Marked(dst)
    ensures var r := Transfer(src, dst, ignoreWm); Moved(src, dst, r) && Moved(dst, src, (r.1, r.0)) && !WantsToTalk(r.0, r.1)
    ensures var r := Transfer(src, dst, ignoreWm); r.0.input == src.input && r.1.output == dst.output
    ensures var r := Transfer(src, dst, ignoreWm); NoOvershoot(src, r.0) && (!ignoreWm ==> NoOvershoot(dst, r.1))
  {
    hide Transfer;
    TransferSettles(src, dst, ignoreWm);
  }

  lemma BeEnableMoves(e: End, o: End, r: bool, w: bool)
    requires Marked(e) && Marked(o)
    ensures var x := BeEnable(e, o, r, w);
      && Moved(e, o, x) && NoOvershoot(e, x.0) && NoOvershoot(o, x.1)
      && (r ==> !WantsToTalk(x.1, x.0)) && (w ==> !WantsToTalk(x.0, x.1))
  {
    hide Transfer;
    var got := if r && WantsToTalk(o, e) then var t := Transfer(o, e, false); (t.1, t.0) else (e, o);
    if r && WantsToTalk(o, e) {
      TransferMoves(o, e, false);
    }
    if w && WantsToTalk(got.0, got.1) {
      TransferMoves(got.0, got.1, false);
    }
  }

  lemma FlushMoves(e: End, o: End, r: bool, w: bool)
    requires Marked(e) && Marked(o)
    ensures Moved(e, o, FlushEnd(e, o, r, w))
  {
    hide Transfer;
    var got := if r then var t := Transfer(o, e, true); (t.1, t.0) else (e, o);
    if r {
      TransferMoves(o, e, true);
    }
    if w {
      TransferMoves(got.0, got.1, true);
    }
  }

  // -------- runs --------

  datatype Op =
    | Write(s: seq<char>)
    | Read(n: nat)
    | Enable(r: bool, w: bool)
    | Disable(rr: bool, ww: bool)
    | SetHigh(high: nat)
    | Flush(fr: bool, fw: bool)
    | SuspendReading(what: Reason)
    | ResumeReading(why: Reason)
    | SuspendWriting(that: Reason)
    | ResumeWriting(which: Reason)

  /** The watermark reason belongs to the bufferevent itself. */
  predicate Possible(op: Op) {
    (op.SuspendReading? ==> op.what != Watermark) && (op.ResumeReading? ==> op.why != Watermark)
  }

  /** An operation at an end whose partner is `o`. */
  function Effect(e: End, o: End, op: Op): Ends {
    match op
    case Write(s) => WriteBytes(e, o, s)
    case Read(n) => Take(e, o, n)
    case Enable(r, w) => EnableEnd(e, o, r, w)
    case Disable(r, w) => (e.(reading := e.reading && !r, writing := e.writing && !w), o)
    case SetHigh(n) => SetWatermark(e, o, n)
    case Flush(r, w) => FlushEnd(e, o, r, w)
    case SuspendReading(what) => (e.(readSuspended := e.readSuspended + {what}), o)
    case ResumeReading(what) => UnsuspendRead(e, o, what)
    case SuspendWriting(what) => (e.(writeSuspended := e.writeSuspended + {what}), o)
    case ResumeWriting(what) => UnsuspendWrite(e, o, what)
  }

  /** What an operation writes and what it reads. */
  function Wrote(op: Op): seq<char> {
    if op.Write? then op.s else []
  }

  function Got(e: End, op: Op): seq<char> {
    if op.Read? then ReadBytes(e, op.n) else []
  }

  /** What every operation keeps of the two ends. */
  predicate Good(e: End, o: End) {
    Marked(e) && Marked(o) && Settled(e, o) && Settled(o, e)
  }

  /** Order and number of the bytes are kept, up to those that the operation itself writes or reads. */
  predicate Balanced(e: End, o: End, op: Op, r: Ends) {
    && r.1.input + r.0.output == o.input + e.output + Wrote(op)
    && Got(e, op) + r.0.input + r.1.output == e.input + o.output
  }

  lemma WriteKeeps(e: End, o: End, s: seq<char>)
    requires Good(e, o)
    ensures var r := WriteBytes(e, o, s); Good(r.0, r.1) && Balanced(e, o, Write(s), r) && NoOvershoot(e, r.0) && NoOvershoot(o, r.1)
  {
    hide Transfer;
    var f := e.(output := e.output + s);
    Assoc(o.input, e.output, s);
    if s != [] && WantsToTalk(f, o) {
      TransferMoves(f, o, false);
    }
  }

  /** The callback of an input that has become shorter. */
  lemma InbufMoves(f: End, o: End)
    requires Marked(o) && (f.high == 0 ==> Watermark !in f.readSuspended)
    ensures var g := if f.high > 0 && |f.input| < f.high then f.(readSuspended := f.readSuspended - {Watermark})
                     else if f.high > 0 then f.(readSuspended := f.readSuspended + {Watermark}) else f;
      var r := InbufCb(f, o);
      && Marked(g) && Moved(g, o, r) && NoOvershoot(f, r.0) && NoOvershoot(o, r.1)
      && (g != f && g.reading && g.readSuspended == {} ==> !WantsToTalk(r.1, r.0))
  {
    hide BeEnable;
    if f.high > 0 && |f.input| < f.high {
      var g := f.(readSuspended := f.readSuspended - {Watermark});
      assert InbufCb(f, o) == UnsuspendRead(f, o, Watermark);
      if g.readSuspended == {} && g.reading {
        BeEnableMoves(g, o, true, false);
        assert UnsuspendRead(f, o, Watermark) == BeEnable(g, o, true, false);
      } else {
        assert UnsuspendRead(f, o, Watermark) == (g, o);
      }
    }
  }

  lemma ReadKeeps(e: End, o: End, n: nat)
    requires Good(e, o)
    ensures var r := Take(e, o, n); Good(r.0, r.1) && Balanced(e, o, Read(n), r) && NoOvershoot(o, r.1)
    ensures var r := Take(e, o, n); e.high > 0 ==> |r.0.input| <= e.high || |r.0.input| <= |e.input|
  {
    hide InbufCb;
    var k := Least(n, |e.input|);
    assert e.input[..k] + e.input[k..] == e.input;
    Assoc(e.input[..k], e.input[k..], o.output);
    if k > 0 {
      var f := e.(input := e.input[k..]);
      InbufMoves(f, o);
      var r := InbufCb(f, o);
      Assoc(e.input[..k], r.0.input, r.1.output);
    }
  }

  /** What neither writes nor reads keeps the balance if the bytes only move. */
  lemma QuietBalanced(e: End, o: End, f: End, op: Op, x: Ends)
    requires f.input == e.input && f.output == e.output && Moved(f, o, x)
    requires Wrote(op) == [] && Got(e, op) == []
    ensures Balanced(e, o, op, x)
  {
    hide Marked, WantsToTalk, Wrote, Got;
    assert [] + x.0.input == x.0.input && o.input + e.output + [] == o.input + e.output;
  }

  lemma EnableKeeps(e: End, o: End, r: bool, w: bool)
    requires Good(e, o)
    ensures var x := EnableEnd(e, o, r, w); Good(x.0, x.1) && Balanced(e, o, Enable(r, w), x) && NoOvershoot(e, x.0) && NoOvershoot(o, x.1)
  {
    hide BeEnable, Balanced, NoOvershoot;
    var f := e.(reading := e.reading || r, writing := e.writing || w);
    BeEnableMoves(f, o, r && e.readSuspended == {}, w && e.writeSuspended == {});
    SameInput(e, f, EnableEnd(e, o, r, w).0);
    QuietBalanced(e, o, f, Enable(r, w), EnableEnd(e, o, r, w));
  }

  lemma SameInput(e: End, f: End, g: End)
    requires f.input == e.input && f.high == e.high
    ensures NoOvershoot(f, g) == NoOvershoot(e, g) && NoOvershoot(e, f)
  {
  }

  lemma ResumeReadKeeps(e: End, o: End, what: Reason)
    requires Good(e, o) && what != Watermark
    ensures var x := UnsuspendRead(e, o, what);
      Good(x.0, x.1) && Balanced(e, o, ResumeReading(what), x) && NoOvershoot(e, x.0) && NoOvershoot(o, x.1)
  {
    hide BeEnable, Balanced, NoOvershoot;
    var f := e.(readSuspended := e.readSuspended - {what});
    SameInput(o, o, o);
    SameInput(e, f, UnsuspendRead(e, o, what).0);
    if f.readSuspended == {} && f.reading {
      BeEnableMoves(f, o, true, false);
    }
    QuietBalanced(e, o, f, ResumeReading(what), UnsuspendRead(e, o, what));
  }

  lemma ResumeWriteKeeps(e: End, o: End, what: Reason)
    requires Good(e, o)
    ensures var x := UnsuspendWrite(e, o, what);
      Good(x.0, x.1) && Balanced(e, o, ResumeWriting(what), x) && NoOvershoot(e, x.0) && NoOvershoot(o, x.1)
  {
    hide BeEnable, Balanced, NoOvershoot;
    var f := e.(writeSuspended := e.writeSuspended - {what});
    SameInput(o, o, o);
    SameInput(e, f, UnsuspendWrite(e, o, what).0);
    if f.writeSuspended == {} && f.writing {
      BeEnableMoves(f, o, false, true);
    }
    QuietBalanced(e, o, f, ResumeWriting(what), UnsuspendWrite(e, o, what));
  }

  lemma WatermarkKeeps(e: End, o: End, n: nat)
    requires Good(e, o)
    ensures var x := SetWatermark(e, o, n);
      Good(x.0, x.1) && Balanced(e, o, SetHigh(n), x) && NoOvershoot(e.(high := n), x.0) && NoOvershoot(o, x.1)
  {
    hide BeEnable;
    var f := e.(high := n, readSuspended := e.readSuspended - {Watermark});
    if !(n > 0 && |e.input| >= n) && f.readSuspended == {} && f.reading {
      BeEnableMoves(f, o, true, false);
    }
  }

  lemma FlushKeeps(e: End, o: End, r: bool, w: bool)
    requires Good(e, o)
    ensures var x := FlushEnd(e, o, r, w); Good(x.0, x.1) && Balanced(e, o, Flush(r, w), x)
  {
    FlushMoves(e, o, r, w);
  }

  lemma StepKeeps(e: End, o: End, op: Op)
    requires Good(e, o) && Possible(op)
    ensures var r := Effect(e, o, op); Good(r.0, r.1) && Balanced(e, o, op, r)
  {
    hide WriteBytes, Take, EnableEnd, SetWatermark, FlushEnd, UnsuspendRead, UnsuspendWrite;
    match op {
      case Write(s) => WriteKeeps(e, o, s);
      case Read(n) => ReadKeeps(e, o, n);
      case Enable(r, w) => EnableKeeps(e, o, r, w);
      case SetHigh(n) => WatermarkKeeps(e, o, n);
      case Flush(r, w) => FlushKeeps(e, o, r, w);
      case ResumeReading(what) => ResumeReadKeeps(e, o, what);
      case ResumeWriting(what) => ResumeWriteKeeps(e, o, what);
      case _ =>
    }
  }

  /** An end, with all that was ever written and read there. */
  datatype Party = Party(end: End, written: seq<char>, read: seq<char>)

  datatype World = World(x: Party, y: Party)

  const START := World(Party(IDLE, [], []), Party(IDLE, [], []))

  /** An operation, and whether it is applied at the first end. */
  datatype Step = Step(first: bool, op: Op)

  function Act(p: Party, q: Party, op: Op): (Party, Party) {
    var r := Effect(p.end, q.end, op);
    (Party(r.0, p.written + Wrote(op), p.read + Got(p.end, op)), q.(end := r.1))
  }

  function After(w: World, s: Step): World {
    if s.first then var r := Act(w.x, w.y, s.op); World(r.0, r.1)
    else var r := Act(w.y, w.x, s.op); World(r.1, r.0)
  }

  function Run(w: World, steps: seq<Step>): World
    decreases |steps|
  {
    if steps == [] then w else Run(After(w, steps[0]), steps[1..])
  }

  /** What was written at one end was read at the other, or waits in its input, or in this end's output, in order. */
  predicate Conserved(p: Party, q: Party) {
    p.written == q.read + q.end.input + p.end.output
  }

  predicate Inv(w: World) {
    Good(w.x.end, w.y.end) && Conserved(w.x, w.y) && Conserved(w.y, w.x)
  }

  lemma ActKeeps(p: Party, q: Party, op: Op)
    requires Good(p.end, q.end) && Conserved(p, q) && Conserved(q, p) && Possible(op)
    ensures var r := Act(p, q, op); Good(r.0.end, r.1.end) && Conserved(r.0, r.1) && Conserved(r.1, r.0)
  {
    hide Effect, Good, Wrote, Got;
    StepKeeps(p.end, q.end, op);
    var r := Effect(p.end, q.end, op);
    Assoc(q.read, q.end.input, p.end.output);
    Assoc(q.read, q.end.input + p.end.output, Wrote(op));
    Assoc(q.read, r.1.input, r.0.output);
    Assoc(p.read, p.end.input, q.end.output);
    Assoc(p.read, Got(p.end, op), r.0.input + r.1.output);
    Assoc(Got(p.end, op), r.0.input, r.1.output);
    Assoc(p.read + Got(p.end, op), r.0.input, r.1.output);
  }

  /**
   * Over every run of writes, reads, enabling, disabling, watermark changes, flushes and suspensions no
   * byte is lost, duplicated or reordered, the watermark suspends reading exactly while it is reached,
   * and nothing waits for a reader and a writer that are both willing.
   */
  lemma {:induction false} EveryRun(w: World, steps: seq<Step>)
    requires Inv(w) && forall s :: s in steps ==> Possible(s.op)
    ensures Inv(Run(w, steps))
    decreases |steps|
  {
    if steps != [] {
      hide Good, Conserved, Act, Possible;
      var s := steps[0];
      assert s in steps;
      SwapGood(w.x.end, w.y.end);
      if s.first {
        ActKeeps(w.x, w.y, s.op);
      } else {
        ActKeeps(w.y, w.x, s.op);
        var r := Act(w.y, w.x, s.op);
        SwapGood(r.0.end, r.1.end);
      }
      EveryRun(After(w, s), steps[1..]);
    }
  }

  lemma SwapGood(e: End, o: End)
    ensures Good(e, o) <==> Good(o, e)
  {
  }

  lemma StartIsGood()
    ensures Inv(START)
  {
  }

  /** In every reachable state: if both are willing, and nothing suspends either, the output is empty. */
  lemma WillingMeansDelivered(steps: seq<Step>)
    requires forall s :: s in steps ==> Possible(s.op)
    ensures var w := Run(START, steps);
      w.x.end.writing && w.x.end.writeSuspended == {} && w.y.end.reading && w.y.end.readSuspended == {}
      ==> w.x.end.output == [] && w.x.written == w.y.read + w.y.end.input
  {
    StartIsGood();
    EveryRun(START, steps);
    hide Run;
    var w := Run(START, steps);
    assert w.x.end.output == [] ==> w.y.read + w.y.end.input + w.x.end.output == w.y.read + w.y.end.input;
  }

  /** Writing is enabled while it is suspended, with output waiting and a partner that reads. */
  predicate EnablesSuspended(e: End, o: End, op: Op) {
    op.Enable? && op.w && !e.writing && e.writeSuspended != {} && e.output != [] && o.reading && o.readSuspended == {}
  }

  /**
   * The one way to leave output to a willing reader and a writer that is enabled: from a state in which
   * nothing is left in either direction, an operation leaves something exactly if it is this one.
   */
  lemma HeldExactly(e: End, o: End, op: Op)
    requires Marked(e) && Marked(o) && !WantsToTalk(e, o) && !WantsToTalk(o, e) && Possible(op)
    ensures var r := Effect(e, o, op);
      !WantsToTalk(r.1, r.0) && (WantsToTalk(r.0, r.1) <==> EnablesSuspended(e, o, op))
  {
    hide Transfer, InbufCb, BeEnable, WriteBytes, EnableEnd;
    match op {
      case Write(s) => WriteLeavesNothing(e, o, s);
      case Read(n) => ReadLeavesNothing(e, o, n);
      case Enable(r, w) => EnableLeaves(e, o, r, w);
      case SetHigh(n) => WatermarkLeavesNothing(e, o, n);
      case Flush(r, w) => FlushMoves(e, o, r, w);
      case ResumeReading(what) => ResumeLeavesNothing(e, o, what);
      case ResumeWriting(what) => ResumeLeavesNothing(e, o, what);
      case _ =>
    }
  }

  lemma WriteLeavesNothing(e: End, o: End, s: seq<char>)
    requires Marked(e) && Marked(o) && !WantsToTalk(e, o) && !WantsToTalk(o, e)
    ensures var r := WriteBytes(e, o, s); !WantsToTalk(r.0, r.1) && !WantsToTalk(r.1, r.0)
  {
    hide Transfer;
    var f := e.(output := e.output + s);
    if s != [] && WantsToTalk(f, o) {
      TransferMoves(f, o, false);
    }
  }

  lemma ReadLeavesNothing(e: End, o: End, n: nat)
    requires Marked(e) && Marked(o) && !WantsToTalk(e, o) && !WantsToTalk(o, e)
    ensures var r := Take(e, o, n); !WantsToTalk(r.0, r.1) && !WantsToTalk(r.1, r.0)
  {
    hide InbufCb;
    var k := Least(n, |e.input|);
    if k > 0 {
      InbufMoves(e.(input := e.input[k..]), o);
    }
  }

  lemma EnableLeaves(e: End, o: End, r: bool, w: bool)
    requires Marked(e) && Marked(o) && !WantsToTalk(e, o) && !WantsToTalk(o, e)
    ensures var x := EnableEnd(e, o, r, w);
      !WantsToTalk(x.1, x.0) && (WantsToTalk(x.0, x.1) <==> EnablesSuspended(e, o, Enable(r, w)))
  {
    hide Transfer;
    var f := e.(reading := e.reading || r, writing := e.writing || w);
    BeEnableMoves(f, o, r && e.readSuspended == {}, w && e.writeSuspended == {});
    if WantsToTalk(o, f) {
      TransferSettles(o, f, false);
    }
  }

  lemma WatermarkLeavesNothing(e: End, o: End, n: nat)
    requires Marked(e) && Marked(o) && !WantsToTalk(e, o) && !WantsToTalk(o, e)
    ensures var x := SetWatermark(e, o, n); !WantsToTalk(x.0, x.1) && !WantsToTalk(x.1, x.0)
  {
    hide BeEnable;
    var f := e.(high := n, readSuspended := e.readSuspended - {Watermark});
    if !(n > 0 && |e.input| >= n) && f.readSuspended == {} && f.reading {
      BeEnableMoves(f, o, true, false);
    }
  }

  lemma ResumeLeavesNothing(e: End, o: End, what: Reason)
    requires Marked(e) && Marked(o) && !WantsToTalk(e, o) && !WantsToTalk(o, e)
    ensures what != Watermark ==>
      var x := UnsuspendRead(e, o, what); !WantsToTalk(x.0, x.1) && !WantsToTalk(x.1, x.0)
    ensures var x := UnsuspendWrite(e, o, what); !WantsToTalk(x.0, x.1) && !WantsToTalk(x.1, x.0)
  {
    hide BeEnable;
    var f := e.(readSuspended := e.readSuspended - {what});
    if what != Watermark && f.readSuspended == {} && f.reading {
      BeEnableMoves(f, o, true, false);
    }
    var g := e.(writeSuspended := e.writeSuspended - {what});
    if g.writeSuspended == {} && g.writing {
      BeEnableMoves(g, o, false, true);
    }
  }

  /** Nothing is left in either direction. */
  predicate AllSaid(w: World) {
    !WantsToTalk(w.x.end, w.y.end) && !WantsToTalk(w.y.end, w.x.end)
  }

  /** That holds in every state of a run. */
  predicate NeverHeld(w: World, steps: seq<Step>)
    decreases |steps|
  {
    AllSaid(w) && (steps != [] ==> NeverHeld(After(w, steps[0]), steps[1..]))
  }

  /** No step of a run enables a suspended writer whose output a reader waits for. */
  predicate NoneHeldBack(w: World, steps: seq<Step>)
    decreases |steps|
  {
    steps != [] ==>
      && !(if steps[0].first then EnablesSuspended(w.x.end, w.y.end, steps[0].op)
           else EnablesSuspended(w.y.end, w.x.end, steps[0].op))
      && NoneHeldBack(After(w, steps[0]), steps[1..])
  }

  /** A run keeps no output from a willing reader exactly if it never enables such a writer. */
  lemma {:induction false} HeldInRunsExactly(w: World, steps: seq<Step>)
    requires Inv(w) && AllSaid(w) && forall s :: s in steps ==> Possible(s.op)
    ensures NeverHeld(w, steps) <==> NoneHeldBack(w, steps)
    decreases |steps|
  {
    if steps != [] {
      hide Marked, WantsToTalk, Settled, Conserved, Effect, EnablesSuspended, Possible;
      var s := steps[0];
      assert s in steps;
      if s.first {
        HeldExactly(w.x.end, w.y.end, s.op);
      } else {
        HeldExactly(w.y.end, w.x.end, s.op);
      }
      if AllSaid(After(w, s)) {
        EveryRun(w, [s]);
        assert [s][1..] == [] && Run(w, [s]) == Run(After(w, s), []);
        HeldInRunsExactly(After(w, s), steps[1..]);
      }
    }
  }

  /** From a new pair: nothing was ever kept back iff no suspended writer was enabled. */
  lemma HeldFromStart(steps: seq<Step>)
    requires forall s :: s in steps ==> Possible(s.op)
    ensures NeverHeld(START, steps) <==> NoneHeldBack(START, steps)
  {
    StartIsGood();
    HeldInRunsExactly(START, steps);
  }

  /** Writing is switched off, suspended, asked for and switched on again, with a reader that waits. */
  const HELD_BACK := [Step(true, Disable(false, true)), Step(true, SuspendWriting(Bandwidth)), Step(true, Write(['x'])),
                      Step(false, Enable(true, false)), Step(true, Enable(false, true))]

  /** The qualification is needed: a writer whose suspension has not been lifted is not asked. */
  lemma SuspendedWriterHolds()
    ensures var w := Run(START, HELD_BACK); WantsToTalk(w.x.end, w.y.end) && w.y.end.input == []
  {
    var w1 := After(START, HELD_BACK[0]);
    var w2 := After(w1, HELD_BACK[1]);
    var w3 := After(w2, HELD_BACK[2]);
    assert w3.x.end.output == ['x'] && !w3.x.end.writing && Bandwidth in w3.x.end.writeSuspended;
    var w4 := After(w3, HELD_BACK[3]);
    var w5 := After(w4, HELD_BACK[4]);
    assert WantsToTalk(w5.x.end, w5.y.end) && w5.y.end.input == [];
    RunFive(START, HELD_BACK);
  }

  lemma RunFive(w: World, steps: seq<Step>)
    requires |steps| == 5
    ensures Run(w, steps) == After(After(After(After(After(w, steps[0]), steps[1]), steps[2]), steps[3]), steps[4])
  {
    hide After;
    var a := After(w, steps[0]);
    var c := After(a, steps[1]);
    var d := After(c, steps[2]);
    var e := After(d, steps[3]);
    assert steps[1..][0] == steps[1] && steps[1..][1..] == steps[2..];
    assert steps[2..][0] == steps[2] && steps[2..][1..] == steps[3..];
    assert steps[3..][0] == steps[3] && steps[3..][1..] == steps[4..];
    assert steps[4..] == [steps[4]];
    assert Run(d, steps[3..]) == Run(e, steps[4..]);
    assert Run(a, steps[1..]) == Run(c, steps[2..]);
    assert Run(c, steps[2..]) == Run(d, steps[3..]);
    assert Run(e, [steps[4]]) == Run(After(e, steps[4]), []);
  }

  /** How long an input may be after an operation: up to its watermark, or as long as it was. */
  predicate NotPushed(e: End, f: End) {
    f.high > 0 ==> |f.input| <= f.high || |f.input| <= |e.input|
  }

  /** Whatever the run before, an operation that is no flush pushes neither input past a non-zero high watermark. */
  lemma NeverPushedPast(steps: seq<Step>, first: bool, op: Op)
    requires (forall s :: s in steps ==> Possible(s.op)) && Possible(op) && !op.Flush?
    ensures var w := Run(START, steps);
      var v := After(w, Step(first, op));
      NotPushed(w.x.end, v.x.end) && NotPushed(w.y.end, v.y.end)
  {
    StartIsGood();
    EveryRun(START, steps);
    hide Run;
    var w := Run(START, steps);
    if first {
      OpPushes(w.x.end, w.y.end, op);
    } else {
      OpPushes(w.y.end, w.x.end, op);
    }
  }

  lemma OpPushes(e: End, o: End, op: Op)
    requires Good(e, o) && Possible(op) && !op.Flush?
    ensures var r := Effect(e, o, op); NotPushed(e, r.0) && NotPushed(o, r.1)
  {
    hide WriteBytes, Take, EnableEnd, SetWatermark, FlushEnd, UnsuspendRead, UnsuspendWrite;
    StepKeeps(e, o, op);
    if op.Write? {
      WriteKeeps(e, o, op.s);
    } else if op.Read? {
      ReadKeeps(e, o, op.n);
    } else if op.Enable? {
      EnableKeeps(e, o, op.r, op.w);
    } else if op.SetHigh? {
      WatermarkKeeps(e, o, op.high);
    } else if op.ResumeReading? {
      ResumeReadKeeps(e, o, op.why);
    } else if op.ResumeWriting? {
      ResumeWriteKeeps(e, o, op.which);
    }
    SameMarks(e, o, op);
  }

  /** Only a new watermark changes one. */
  lemma SameMarks(e: End, o: End, op: Op)
    requires Good(e, o) && Possible(op)
    ensures var r := Effect(e, o, op); r.1.high == o.high && r.0.high == if op.SetHigh? then op.high else e.high
  {
    hide Transfer, InbufCb, BeEnable;
  }

  /**
   * All output has gone to the other end's input if that has no watermark or had reached it; else as much
   * as brings the input up to the watermark, or all if that is less. In order, and nothing else.
   */
  predicate PushedOut(output: seq<char>, input: seq<char>, high: nat, output': seq<char>, input': seq<char>) {
    && input' + output' == input + output && |input'| >= |input|
    && if high == 0 || |input| >= high then output' == []
       else |input'| <= high && (|input'| < high ==> output' == [])
  }

  /** A flush moves exactly that in each direction asked for, whatever is enabled or suspended. */
  lemma FlushExact(e: End, o: End, r: bool, w: bool)
    requires Good(e, o)
    ensures var x := FlushEnd(e, o, r, w);
      && (if w then PushedOut(e.output, o.input, o.high, x.0.output, x.1.input)
          else x.0.output == e.output && x.1.input == o.input)
      && (if r then PushedOut(o.output, e.input, e.high, x.1.output, x.0.input)
          else x.1.output == o.output && x.0.input == e.input)
  {
    hide Transfer;
    TransferExact(o, e, true);
    var got := if r then var t := Transfer(o, e, true); (t.1, t.0) else (e, o);
    if r {
      Divided(o.output, e.input, Amount(o, e, true));
    }
    TransferExact(got.0, got.1, true);
    if w {
      Divided(e.output, o.input, Amount(got.0, got.1, true));
    }
  }

  lemma Divided(output: seq<char>, input: seq<char>, n: nat)
    requires n <= |output|
    ensures input + output[..n] + output[n..] == input + output
  {
    assert output[..n] + output[n..] == output;
    Assoc(input, output[..n], output[n..]);
  }

  // -------- what does not arrive --------

  /** No bytes may pass from `src` to `dst`, for a reason that only the users of the two ends impose and lift. */
  predicate Blocked(src: End, dst: End) {
    !src.writing || !dst.reading || exists what :: what in dst.readSuspended && what != Watermark
  }

  /** The same reasons, before and after. */
  predicate SameBlocks(e: End, f: End) {
    e.reading == f.reading && e.writing == f.writing && e.readSuspended - {Watermark} == f.readSuspended - {Watermark}
  }

  lemma BlockStays(e: End, o: End, f: End, p: End)
    requires SameBlocks(e, f) && SameBlocks(o, p)
    ensures Blocked(e, o) <==> Blocked(f, p)
  {
    assert forall what :: what in o.readSuspended - {Watermark} <==> what in p.readSuspended - {Watermark};
    assert forall what :: what in o.readSuspended && what != Watermark <==> what in o.readSuspended - {Watermark};
    assert forall what :: what in p.readSuspended && what != Watermark <==> what in p.readSuspended - {Watermark};
  }

  lemma BlockedIsSilent(src: End, dst: End)
    requires Blocked(src, dst)
    ensures !WantsToTalk(src, dst)
  {
  }

  /** What was blocked has not come in. */
  predicate Obeyed(e: End, o: End, r: Ends) {
    && SameBlocks(e, r.0) && SameBlocks(o, r.1)
    && (Blocked(o, e) ==> r.0.input == e.input) && (Blocked(e, o) ==> r.1.input == o.input)
  }

  lemma TransferObeys(src: End, dst: End)
    requires Marked(dst) && WantsToTalk(src, dst)
    ensures var r := Transfer(src, dst, false); Obeyed(src, dst, r)
  {
    hide Transfer, Blocked;
    TransferExact(src, dst, false);
    if Blocked(src, dst) {
      BlockedIsSilent(src, dst);
    }
  }

  lemma ObeyedTwice(e: End, o: End, m: Ends, r: Ends)
    requires Obeyed(e, o, m) && Obeyed(m.0, m.1, r)
    ensures Obeyed(e, o, r)
  {
    hide Blocked;
    BlockStays(e, o, m.0, m.1);
    BlockStays(o, e, m.1, m.0);
  }

  lemma BeEnableObeys(e: End, o: End, r: bool, w: bool)
    requires Marked(e) && Marked(o)
    ensures Obeyed(e, o, BeEnable(e, o, r, w))
  {
    hide Transfer, Blocked, SameBlocks;
    SameAsSelf(e);
    SameAsSelf(o);
    var got := if r && WantsToTalk(o, e) then var t := Transfer(o, e, false); (t.1, t.0) else (e, o);
    if r && WantsToTalk(o, e) {
      TransferObeys(o, e);
      TransferMoves(o, e, false);
    }
    assert Obeyed(e, o, got);
    SameAsSelf(got.0);
    SameAsSelf(got.1);
    if w && WantsToTalk(got.0, got.1) {
      TransferObeys(got.0, got.1);
    }
    ObeyedTwice(e, o, got, BeEnable(e, o, r, w));
  }

  lemma SameAsSelf(e: End)
    ensures SameBlocks(e, e)
  {
  }

  lemma InbufObeys(f: End, o: End)
    requires Marked(o) && (f.high == 0 ==> Watermark !in f.readSuspended)
    ensures Obeyed(f, o, InbufCb(f, o))
  {
    hide BeEnable, Blocked;
    if f.high > 0 && |f.input| < f.high {
      var g := f.(readSuspended := f.readSuspended - {Watermark});
      BlockStays(f, o, g, o);
      BlockStays(o, f, o, g);
      if g.readSuspended == {} && g.reading {
        BeEnableObeys(g, o, true, false);
      }
    }
  }

  /** The end as an operation of its user leaves it, before anything moves. */
  function Permitted(e: End, op: Op): End {
    match op
    case Enable(r, w) => e.(reading := e.reading || r, writing := e.writing || w)
    case Disable(r, w) => e.(reading := e.reading && !r, writing := e.writing && !w)
    case SuspendReading(what) => e.(readSuspended := e.readSuspended + {what})
    case ResumeReading(what) => e.(readSuspended := e.readSuspended - {what})
    case _ => e
  }

  /** An operation that is no flush brings nothing in where it is blocked, and changes no more than it says. */
  lemma StepObeys(e: End, o: End, op: Op)
    requires Good(e, o) && Possible(op) && !op.Flush?
    ensures var f, r := Permitted(e, op), Effect(e, o, op);
      && (Blocked(f, o) ==> r.1.input == o.input)
      && (Blocked(o, f) ==> Got(e, op) + r.0.input == e.input)
      && SameBlocks(f, r.0) && SameBlocks(o, r.1)
  {
    hide Transfer, InbufCb, BeEnable, Blocked;
    SameAsSelf(o);
    SameAsSelf(Permitted(e, op));
    match op {
      case Write(s) => WriteObeys(e, o, s);
      case Read(n) => ReadObeys(e, o, n);
      case Enable(r, w) => BeEnableObeys(Permitted(e, op), o, r && e.readSuspended == {}, w && e.writeSuspended == {});
      case SetHigh(n) => WatermarkObeys(e, o, n);
      case ResumeReading(what) =>
        var f := Permitted(e, op);
        if f.readSuspended == {} && f.reading { BeEnableObeys(f, o, true, false); }
      case ResumeWriting(what) =>
        var g := e.(writeSuspended := e.writeSuspended - {what});
        BlockStays(e, o, g, o);
        BlockStays(o, e, o, g);
        if g.writeSuspended == {} && g.writing { BeEnableObeys(g, o, false, true); }
      case _ =>
    }
  }

  lemma WriteObeys(e: End, o: End, s: seq<char>)
    requires Good(e, o)
    ensures var r := WriteBytes(e, o, s);
      (Blocked(e, o) ==> r.1.input == o.input) && (Blocked(o, e) ==> r.0.input == e.input) && SameBlocks(e, r.0) && SameBlocks(o, r.1)
  {
    hide Transfer, Blocked;
    var f := e.(output := e.output + s);
    BlockStays(e, o, f, o);
    BlockStays(o, e, o, f);
    if s != [] && WantsToTalk(f, o) {
      TransferObeys(f, o);
    }
  }

  lemma ReadObeys(e: End, o: End, n: nat)
    requires Good(e, o)
    ensures var r := Take(e, o, n);
      && (Blocked(e, o) ==> r.1.input == o.input)
      && (Blocked(o, e) ==> ReadBytes(e, n) + r.0.input == e.input) && SameBlocks(e, r.0) && SameBlocks(o, r.1)
  {
    hide InbufCb, Blocked;
    var k := Least(n, |e.input|);
    assert e.input[..k] + e.input[k..] == e.input;
    if k > 0 {
      var f := e.(input := e.input[k..]);
      BlockStays(e, o, f, o);
      BlockStays(o, e, o, f);
      InbufObeys(f, o);
    }
  }

  lemma WatermarkObeys(e: End, o: End, n: nat)
    requires Good(e, o)
    ensures var r := SetWatermark(e, o, n);
      (Blocked(e, o) ==> r.1.input == o.input) && (Blocked(o, e) ==> r.0.input == e.input) && SameBlocks(e, r.0) && SameBlocks(o, r.1)
  {
    hide BeEnable, Blocked;
    var f := e.(high := n, readSuspended := e.readSuspended - {Watermark});
    BlockStays(e, o, f, o);
    BlockStays(o, e, o, f);
    if !(n > 0 && |e.input| >= n) && f.readSuspended == {} && f.reading {
      BeEnableObeys(f, o, true, false);
    }
  }

  /** What a user can do to keep bytes of the first end from arriving at the second. */
  datatype Bar = NotReading | ReadingSuspended(what: Reason) | NotWriting

  predicate Imposes(s: Step, bar: Bar) {
    match bar
    case NotReading => !s.first && s.op.Disable? && s.op.rr
    case ReadingSuspended(what) => !s.first && s.op == SuspendReading(what)
    case NotWriting => s.first && s.op.Disable? && s.op.ww
  }

  predicate Lifts(s: Step, bar: Bar) {
    match bar
    case NotReading => !s.first && s.op.Enable? && s.op.r
    case ReadingSuspended(what) => !s.first && s.op == ResumeReading(what)
    case NotWriting => s.first && s.op.Enable? && s.op.w
  }

  predicate Barred(w: World, bar: Bar) {
    match bar
    case NotReading => !w.y.end.reading
    case ReadingSuspended(what) => what in w.y.end.readSuspended && what != Watermark
    case NotWriting => !w.x.end.writing
  }

  /** All that ever arrived at the second end. */
  function Arrived(w: World): seq<char> {
    w.y.read + w.y.end.input
  }

  lemma BarredIsBlocked(w: World, bar: Bar)
    requires Barred(w, bar)
    ensures Blocked(w.x.end, w.y.end)
  {
  }

  lemma BarStays(w: World, bar: Bar, s: Step, e: End)
    requires Barred(w, bar) && !Lifts(s, bar)
    requires SameBlocks(Permitted(if s.first then w.x.end else w.y.end, s.op), e)
    ensures s.first ==> Blocked(Permitted(w.x.end, s.op), w.y.end)
    ensures !s.first ==> Blocked(w.x.end, Permitted(w.y.end, s.op))
    ensures s.first ==> (bar.NotWriting? ==> !e.writing)
    ensures !s.first ==> match bar
                         case NotReading => !e.reading
                         case ReadingSuspended(what) => what in e.readSuspended
                         case NotWriting => true
  {
    if !s.first && bar.ReadingSuspended? {
      assert bar.what in Permitted(w.y.end, s.op).readSuspended - {Watermark};
      assert bar.what in e.readSuspended - {Watermark};
    }
  }

  lemma OneStepBarred(w: World, bar: Bar, s: Step)
    requires Inv(w) && Barred(w, bar) && !Lifts(s, bar) && Possible(s.op) && !s.op.Flush?
    ensures Barred(After(w, s), bar) && Arrived(After(w, s)) == Arrived(w)
  {
    hide Effect, Blocked, Permitted, Lifts, Wrote, Got;
    SwapGood(w.x.end, w.y.end);
    if s.first {
      StepObeys(w.x.end, w.y.end, s.op);
      var r := Effect(w.x.end, w.y.end, s.op);
      BarStays(w, bar, s, r.0);
      if bar.ReadingSuspended? {
        assert bar.what in w.y.end.readSuspended - {Watermark} && bar.what in r.1.readSuspended - {Watermark};
      }
    } else {
      StepObeys(w.y.end, w.x.end, s.op);
      var r := Effect(w.y.end, w.x.end, s.op);
      BarStays(w, bar, s, r.0);
      Assoc(w.y.read, Got(w.y.end, s.op), r.0.input);
    }
  }

  /**
   * Once reading is disabled or suspended at one end, or writing is disabled at the other, nothing arrives
   * until that is lifted, whatever else is done at either end, short of a flush.
   */
  lemma {:induction false} NothingArrives(w: World, bar: Bar, steps: seq<Step>)
    requires Inv(w) && Barred(w, bar)
    requires forall s :: s in steps ==> Possible(s.op) && !s.op.Flush? && !Lifts(s, bar)
    ensures Arrived(Run(w, steps)) == Arrived(w)
    decreases |steps|
  {
    if steps != [] {
      hide Inv, Barred, Lifts, Possible, After, Arrived;
      var s := steps[0];
      assert s in steps;
      OneStepBarred(w, bar, s);
      InvKept(w, s);
      NothingArrives(After(w, s), bar, steps[1..]);
    }
  }

  lemma InvKept(w: World, s: Step)
    requires Inv(w) && Possible(s.op)
    ensures Inv(After(w, s))
  {
    hide Inv, After;
    EveryRun(w, [s]);
    assert [s][1..] == [] && Run(w, [s]) == Run(After(w, s), []);
  }

  /** From the operation that does that. */
  lemma BarWorks(before: seq<Step>, s: Step, bar: Bar, steps: seq<Step>)
    requires forall t :: t in before ==> Possible(t.op)
    requires Possible(s.op) && Imposes(s, bar)
    requires forall t :: t in steps ==> Possible(t.op) && !t.op.Flush? && !Lifts(t, bar)
    ensures var w := After(Run(START, before), s); Arrived(Run(w, steps)) == Arrived(w)
  {
    hide Inv, Run, Arrived;
    StartIsGood();
    EveryRun(START, before);
    InvKept(Run(START, before), s);
    NothingArrives(After(Run(START, before), s), bar, steps);
  }

  /** A flush of an input that has not reached its watermark fills it no further than that. */
  lemma FlushStopsAtWatermark(e: End, o: End, w: bool)
    requires Good(e, o) && e.high > 0 && |e.input| < e.high
    ensures |FlushEnd(e, o, true, w).0.input| <= e.high
  {
    hide Transfer;
    TransferExact(o, e, true);
    var t := Transfer(o, e, true);
    if w {
      TransferMoves(o, e, true);
      TransferMoves(t.1, t.0, true);
    }
  }

  // -------- the objects --------

  /** One end of a pair, `struct bufferevent_pair` with its evbuffers. */
  class PairEnd {
    var input: seq<char>
    var output: seq<char>
    var reading: bool
    var writing: bool
    var readSuspended: set<Reason>
    var writeSuspended: set<Reason>
    var high: nat
    var inputFrozenAtEnd: bool
    var outputFrozenAtStart: bool
    var partner: PairEnd?

    ghost function View(): End
      reads this
    {
      End(input, output, reading, writing, readSuspended, writeSuspended, high)
    }

    /** Both ends are alive. */
    ghost predicate Linked()
      reads this, partner
    {
      partner != null && partner != this && partner.partner == this
    }

    /** `bufferevent_pair_new` (bufferevent_pair.c:115-150) builds two such ends and links them. */
    constructor ()
      ensures View() == IDLE && partner == null && inputFrozenAtEnd && outputFrozenAtStart
    {
      input, output, reading, writing := [], [], false, true;
      readSuspended, writeSuspended, high := {}, {}, 0;
      inputFrozenAtEnd, outputFrozenAtStart, partner := true, true, null;
    }

    predicate Wants()
      requires Linked()
      reads this, partner
    {
      writing && partner.reading && partner.readSuspended == {} && output != []
    }

    /** `be_pair_transfer`, to the partner */
    method TransferOut(ignoreWm: bool)
      requires Linked()
      modifies this, partner
      ensures Linked() && partner == old(partner)
      ensures (View(), partner.View()) == Transfer(old(View()), old(partner.View()), ignoreWm)
      ensures outputFrozenAtStart && partner.inputFrozenAtEnd
      ensures inputFrozenAtEnd == old(inputFrozenAtEnd) || inputFrozenAtEnd
      ensures partner.outputFrozenAtStart == old(partner.outputFrozenAtStart) || partner.outputFrozenAtStart
      decreases |output| + |partner.output|, 0
    {
      outputFrozenAtStart, partner.inputFrozenAtEnd := false, false;
      var n := |output|;
      if partner.high > 0 {
        if |partner.input| < partner.high {
          n := Least(partner.high - |partner.input|, n);
        } else if !ignoreWm {
          n := 0;
        }
      }
      if n > 0 {
        partner.input := partner.input + output[..n];
        output := output[n..];
        partner.InputChanged();
      }
      outputFrozenAtStart, partner.inputFrozenAtEnd := true, true;
    }

    /** `bufferevent_inbuf_wm_cb` */
    method InputChanged()
      requires Linked()
      modifies this, partner
      ensures Linked() && partner == old(partner)
      ensures (View(), partner.View()) == InbufCb(old(View()), old(partner.View()))
      ensures inputFrozenAtEnd == old(inputFrozenAtEnd) || inputFrozenAtEnd
      ensures outputFrozenAtStart == old(outputFrozenAtStart) || outputFrozenAtStart
      ensures partner.inputFrozenAtEnd == old(partner.inputFrozenAtEnd) || partner.inputFrozenAtEnd
      ensures partner.outputFrozenAtStart == old(partner.outputFrozenAtStart) || partner.outputFrozenAtStart
      decreases |output| + |partner.output|, 3
    {
      if high > 0 {
        if |input| >= high {
          readSuspended := readSuspended + {Watermark};
        } else {
          ResumeReading(Watermark);
        }
      }
    }

    /** `bufferevent_unsuspend_read_` */
    method ResumeReading(what: Reason)
      requires Linked()
      modifies this, partner
      ensures Linked() && partner == old(partner)
      ensures (View(), partner.View()) == UnsuspendRead(old(View()), old(partner.View()), what)
      ensures inputFrozenAtEnd == old(inputFrozenAtEnd) || inputFrozenAtEnd
      ensures outputFrozenAtStart == old(outputFrozenAtStart) || outputFrozenAtStart
      ensures partner.inputFrozenAtEnd == old(partner.inputFrozenAtEnd) || partner.inputFrozenAtEnd
      ensures partner.outputFrozenAtStart == old(partner.outputFrozenAtStart) || partner.outputFrozenAtStart
      decreases |output| + |partner.output|, 2
    {
      readSuspended := readSuspended - {what};
      if readSuspended == {} && reading {
        EnableBackend(true, false);
      }
    }

    /** `be_pair_enable` */
    method EnableBackend(r: bool, w: bool)
      requires Linked()
      modifies this, partner
      ensures Linked() && partner == old(partner)
      ensures (View(), partner.View()) == BeEnable(old(View()), old(partner.View()), r, w)
      ensures inputFrozenAtEnd == old(inputFrozenAtEnd) || inputFrozenAtEnd
      ensures outputFrozenAtStart == old(outputFrozenAtStart) || outputFrozenAtStart
      ensures partner.inputFrozenAtEnd == old(partner.inputFrozenAtEnd) || partner.inputFrozenAtEnd
      ensures partner.outputFrozenAtStart == old(partner.outputFrozenAtStart) || partner.outputFrozenAtStart
      decreases |output| + |partner.output|, 1
    {
      if r && partner.Wants() {
        partner.TransferOut(false);
      }
      if w && Wants() {
        TransferOut(false);
      }
    }

    /** `bufferevent_unsuspend_write_` */
    method ResumeWriting(what: Reason)
      requires Linked()
      modifies this, partner
      ensures Linked() && partner == old(partner)
      ensures (View(), partner.View()) == UnsuspendWrite(old(View()), old(partner.View()), what)
    {
      writeSuspended := writeSuspended - {what};
      if writeSuspended == {} && writing {
        EnableBackend(false, true);
      }
    }

    /** `bufferevent_enable` */
    method Enable(r: bool, w: bool)
      requires Linked()
      modifies this, partner
      ensures Linked() && partner == old(partner)
      ensures (View(), partner.View()) == EnableEnd(old(View()), old(partner.View()), r, w)
    {
      var implRead, implWrite := r && readSuspended == {}, w && writeSuspended == {};
      reading, writing := reading || r, writing || w;
      if implRead || implWrite {
        EnableBackend(implRead, implWrite);
      }
    }

    /** `bufferevent_write`, with the callback of the output */
    method Write(s: seq<char>)
      requires Linked()
      modifies this, partner
      ensures Linked() && partner == old(partner)
      ensures (View(), partner.View()) == WriteBytes(old(View()), old(partner.View()), s)
    {
      output := output + s;
      if |s| > 0 && Wants() {
        TransferOut(false);
      }
    }

    /** `bufferevent_read`, with the callback of the input */
    method Read(n: nat) returns (bytes: seq<char>)
      requires Linked()
      modifies this, partner
      ensures Linked() && partner == old(partner)
      ensures bytes == ReadBytes(old(View()), n)
      ensures (View(), partner.View()) == Take(old(View()), old(partner.View()), n)
    {
      var k := Least(n, |input|);
      bytes := input[..k];
      if k > 0 {
        input := input[k..];
        InputChanged();
      }
    }

    /** `bufferevent_setwatermark` for reading */
    method SetHigh(mark: nat)
      requires Linked()
      modifies this, partner
      ensures Linked() && partner == old(partner)
      ensures (View(), partner.View()) == SetWatermark(old(View()), old(partner.View()), mark)
    {
      high := mark;
      if mark > 0 && |input| >= mark {
        readSuspended := readSuspended + {Watermark};
      } else {
        ResumeReading(Watermark);
      }
    }

    /** `be_pair_flush` in a mode other than BEV_NORMAL */
    method Flush(r: bool, w: bool)
      requires Linked()
      modifies this, partner
      ensures Linked() && partner == old(partner)
      ensures (View(), partner.View()) == FlushEnd(old(View()), old(partner.View()), r, w)
    {
      if r {
        partner.TransferOut(true);
      }
      if w {
        TransferOut(true);
      }
    }
  }
}
