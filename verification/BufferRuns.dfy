/**
 * Every run of operations on a pair of evbuffers is a run on a pair of plain byte sequences
 * (deps/libevent/buffer.c): how the bytes are spread over chunks shows nowhere.
 */
module BufferRuns {
  import opened Common
  import opened Chains
  import opened Buffers
  import opened Reserve

  /** What a buffer is to its user. */
  datatype Side = Side(bytes: seq<char>, frozenStart: bool, frozenEnd: bool)

  datatype Op =
    | Add(s: seq<char>)
    | AddReserved(c: char, t: seq<char>, more: nat) // bytes c and t: reserve in 2 + more vectors, write, commit
    | Prepend(u: seq<char>)
    | Drain(n: nat)
    | Remove(m: nat)
    | CopyOut(k: nat)
    | Pullup(size: int)
    | Freeze(atStart: bool, on: bool)
    | AddBuffer                                 // all of the other buffer
    | PrependBuffer
    | RemoveBuffer(r: nat)                      // to the other buffer

  /** An operation, and whether it is applied to the first buffer. */
  datatype Step = Step(first: bool, op: Op)

  /** The returned number and the bytes handed out. */
  datatype Out = Out(result: int, text: seq<char>)

  datatype Both = Both(x: Side, y: Side, out: Out)

  const OK := Out(0, [])
  const FAILED := Out(-1, [])

  function Least(n: nat, s: seq<char>): (k: nat)
    ensures k <= |s|
  {
    if n < |s| then n else |s|
  }

  /** An operation on one byte sequence. */
  function One(x: Side, op: Op): (Side, Out)
    requires !op.AddBuffer? && !op.PrependBuffer? && !op.RemoveBuffer?
  {
    match op
    case Add(s) =>
      if x.frozenEnd || |s| > EV_SIZE_MAX - |x.bytes| then (x, FAILED) else (x.(bytes := x.bytes + s), OK)
    case AddReserved(c, t, _) =>
      if x.frozenEnd then (x, FAILED) else (x.(bytes := x.bytes + ([c] + t)), OK)
    case Prepend(s) =>
      if s == [] then (x, OK)
      else if x.frozenStart || |s| > EV_SIZE_MAX - |x.bytes| then (x, FAILED) else (x.(bytes := s + x.bytes), OK)
    case Drain(n) =>
      if x.bytes == [] then (x, OK)
      else if x.frozenStart then (x, FAILED)
      else (x.(bytes := x.bytes[Least(n, x.bytes)..]), OK)
    case Remove(n) =>
      var k := Least(n, x.bytes);
      if k > 0 && x.frozenStart then (x, FAILED)
      else (x.(bytes := x.bytes[k..]), Out(CInt(k), x.bytes[..k]))
    case CopyOut(n) =>
      var k := Least(n, x.bytes);
      if k > 0 && x.frozenStart then (x, FAILED) else (x, Out(k, x.bytes[..k]))
    case Pullup(n) =>
      var k := if n < 0 then |x.bytes| else n;
      if k == 0 || k > |x.bytes| then (x, FAILED) else (x, Out(0, x.bytes[..k]))
    case Freeze(atStart, on) =>
      (if atStart then x.(frozenStart := on) else x.(frozenEnd := on), OK)
  }

  /** An operation on two byte sequences. */
  function Two(x: Side, y: Side, op: Op): Both
    requires op.AddBuffer? || op.PrependBuffer? || op.RemoveBuffer?
  {
    match op
    case AddBuffer =>
      if y.bytes == [] then Both(x, y, OK)
      else if x.frozenEnd || y.frozenStart then Both(x, y, FAILED)
      else Both(x.(bytes := x.bytes + y.bytes), y.(bytes := []), OK)
    case PrependBuffer =>
      if y.bytes == [] then Both(x, y, OK)
      else if x.frozenStart || y.frozenStart then Both(x, y, FAILED)
      else Both(x.(bytes := y.bytes + x.bytes), y.(bytes := []), OK)
    case RemoveBuffer(n) =>
      var k := Least(n, x.bytes);
      if n == 0 then Both(x, y, OK)
      else if y.frozenEnd || x.frozenStart then Both(x, y, FAILED)
      else Both(x.(bytes := x.bytes[k..]), y.(bytes := y.bytes + x.bytes[..k]), Out(CInt(k), []))
  }

  /** The number that is returned for bytes removed is right exactly if it fits an int; the bytes are gone in any case. */
  lemma CountExact(x: Side, y: Side, n: nat)
    requires n > 0 && !x.frozenStart && !y.frozenEnd
    ensures var k := Least(n, x.bytes);
      && One(x, Remove(n)).0.bytes == Two(x, y, RemoveBuffer(n)).x.bytes == x.bytes[k..]
      && |One(x, Remove(n)).1.text| == k
      && (One(x, Remove(n)).1.result == k <==> k <= INT_MAX)
      && (Two(x, y, RemoveBuffer(n)).out.result == k <==> k <= INT_MAX)
  {
  }

  /** Removing 2^31 bytes looks like a failure. */
  lemma RemovalLooksFailed(x: Side)
    requires |x.bytes| == 0x8000_0000 && !x.frozenStart
    ensures One(x, Remove(0x8000_0000)) == (x.(bytes := []), Out(-0x8000_0000, x.bytes))
  {
    assert 0x8000_0000 % 0x1_0000_0000 == 0x8000_0000;
    assert x.bytes[|x.bytes|..] == [] && x.bytes[..|x.bytes|] == x.bytes;
  }

  function Effect(x: Side, y: Side, op: Op): Both {
    if op.AddBuffer? || op.PrependBuffer? || op.RemoveBuffer? then Two(x, y, op)
    else var r := One(x, op); Both(r.0, y, r.1)
  }

  /** The run of the plain byte sequences. */
  function Run(x: Side, y: Side, steps: seq<Step>): seq<Out>
    decreases |steps|
  {
    if steps == [] then []
    else if steps[0].first then
      var e := Effect(x, y, steps[0].op);
      [e.out] + Run(e.x, e.y, steps[1..])
    else
      var e := Effect(y, x, steps[0].op);
      [e.out] + Run(e.y, e.x, steps[1..])
  }

  ghost function SideOf(b: EvBuffer): Side
    reads b
  {
    Side(b.Contents(), b.freezeStart, b.freezeEnd)
  }

  /** The bytes an operation brings in. */
  function Brought(op: Op): nat {
    match op
    case Add(s) => |s|
    case AddReserved(_, t, _) => 1 + |t|
    case Prepend(s) => |s|
    case _ => 0
  }

  function Volume(steps: seq<Step>): nat {
    if steps == [] then 0 else Brought(steps[0].op) + Volume(steps[1..])
  }

  /** No operation makes bytes out of nothing. */
  lemma EffectSize(x: Side, y: Side, op: Op)
    ensures var e := Effect(x, y, op); |e.x.bytes| + |e.y.bytes| <= |x.bytes| + |y.bytes| + Brought(op)
  {
  }

  /** Operations that change the bytes of one buffer only by adding to them. */
  method Adding(b: EvBuffer, op: Op) returns (out: Out)
    requires b.Valid() && (op.Add? || op.AddReserved? || op.Prepend?)
    modifies b, Nodes(b.chains), Areas(b.chains)
    ensures b.Valid() && Grown(old(b.chains), b.chains)
    ensures (SideOf(b), out) == One(old(SideOf(b)), op)
  {
    hide Flat, Path, Held, Distinct, Cursor, Owner, EvBuffer.Shape, Full;
    match op {
      case Add(s) =>
        var r := b.Add(s);
        out := Out(r, []);
      case AddReserved(c, t, more) =>
        var ok := AppendReserved(b, [c] + t, 2 + more);
        out := if ok then OK else FAILED;
      case Prepend(s) =>
        var r := b.Prepend(s);
        out := Out(r, []);
        assert [] + old(b.Contents()) == old(b.Contents());
    }
  }

  /** The bytes that a pull-up makes contiguous. */
  method PullingUp(b: EvBuffer, n: int) returns (out: Out)
    requires b.Valid()
    modifies b, Nodes(b.chains), Areas(b.chains)
    ensures b.Valid() && Grown(old(b.chains), b.chains)
    ensures (SideOf(b), out) == One(old(SideOf(b)), Pullup(n))
  {
    hide Flat, Path, Held, Distinct, Cursor, Owner, EvBuffer.Shape;
    var k := if n < 0 then b.totalLen else n;
    var chain := b.Pullup(n);
    if chain == null {
      return FAILED;
    }
    b.FirstChunk();
    var text := Front(chain, k);
    PrefixOfPrefix(b.Contents(), chain.Data(), k);
    out := Out(0, text);
  }

  /** The first bytes of a chunk. */
  method Front(chain: Chain, k: nat) returns (text: seq<char>)
    requires chain.Fits() && k <= chain.off
    ensures text == chain.Data()[..k]
  {
    text := chain.buffer[chain.misalign..chain.misalign + k];
  }

  lemma PrefixOfPrefix(s: seq<char>, p: seq<char>, k: nat)
    requires p <= s && k <= |p|
    ensures p[..k] == s[..k]
  {
  }

  /** Bytes that are removed or copied. */
  method Reading(b: EvBuffer, op: Op) returns (out: Out)
    requires b.Valid() && (op.Remove? || op.CopyOut?)
    modifies b, Nodes(b.chains), Areas(b.chains)
    ensures b.Valid() && Grown(old(b.chains), b.chains)
    ensures (SideOf(b), out) == One(old(SideOf(b)), op)
  {
    hide Flat, Path, Held, Distinct, Cursor, Owner, EvBuffer.Shape;
    ghost var s := b.Contents();
    match op {
      case Remove(n) =>
        var r, text := b.Remove(n);
        out := Out(r, text);
        assert s[..|text|] == text && s[|text|..] == b.Contents();
      case CopyOut(n) =>
        var r, text := b.CopyOut(n);
        out := Out(r, text);
    }
  }

  /** Operations that take bytes from one buffer, or look at them. */
  method Taking(b: EvBuffer, op: Op) returns (out: Out)
    requires b.Valid() && (op.Drain? || op.Remove? || op.CopyOut? || op.Pullup? || op.Freeze?)
    modifies b, Nodes(b.chains), Areas(b.chains)
    ensures b.Valid() && Grown(old(b.chains), b.chains)
    ensures (SideOf(b), out) == One(old(SideOf(b)), op)
  {
    hide Flat, Path, Held, Distinct, Cursor, Owner, EvBuffer.Shape;
    ghost var s := b.Contents();
    if op.Drain? {
      var r := b.Drain(op.n);
      out := Out(r, []);
      assert s[|s|..] == [];
    } else if op.Pullup? {
      out := PullingUp(b, op.size);
    } else if op.Freeze? {
      if op.atStart {
        b.freezeStart := op.on;
      } else {
        b.freezeEnd := op.on;
      }
      out := OK;
    } else {
      out := Reading(b, op);
    }
  }

  /** One operation of a run. */
  method Do(x: EvBuffer, y: EvBuffer, op: Op) returns (out: Out)
    requires x.Valid() && y.Valid() && x != y && Apart(x.chains, y.chains)
    requires |x.Contents()| + |y.Contents()| <= EV_SIZE_MAX
    modifies x, y, Nodes(x.chains), Nodes(y.chains), Areas(x.chains), Areas(y.chains)
    ensures x.Valid() && y.Valid() && Apart(x.chains, y.chains)
    ensures forall c :: c in x.chains || c in y.chains ==>
      c in old(x.chains) || c in old(y.chains) || (fresh(c) && fresh(c.buffer))
    ensures Both(SideOf(x), SideOf(y), out) == Effect(old(SideOf(x)), old(SideOf(y)), op)
  {
    hide Flat, Path, Held, Distinct, Cursor, Owner, EvBuffer.Shape, One;
    match op {
      case AddBuffer =>
        var r := x.AddBuffer(y);
        out := Out(r, []);
      case PrependBuffer =>
        var r := x.PrependBuffer(y);
        out := Out(r, []);
      case RemoveBuffer(n) =>
        var r := x.RemoveBuffer(y, n);
        out := Out(r, []);
      case Add(_) =>
        out := Adding(x, op);
      case AddReserved(_, _, _) =>
        out := Adding(x, op);
      case Prepend(_) =>
        out := Adding(x, op);
      case _ =>
        out := Taking(x, op);
    }
  }

  /** Any run on two new buffers gives what the plain byte sequences give. */
  method Session(steps: seq<Step>) returns (outs: seq<Out>)
    requires Volume(steps) <= EV_SIZE_MAX
    ensures outs == Run(Side([], false, false), Side([], false, false), steps)
  {
    hide Flat, Path, Held, Distinct, Cursor, Owner, EvBuffer.Shape, EvBuffer.Valid, Effect;
    var a := new EvBuffer();
    var b := new EvBuffer();
    outs := [];
    assert steps[0..] == steps;
    ghost var all := Run(SideOf(a), SideOf(b), steps);
    for i := 0 to |steps|
      invariant fresh(a) && fresh(b) && a != b && a.Valid() && b.Valid() && Apart(a.chains, b.chains)
      invariant forall c :: c in a.chains || c in b.chains ==> fresh(c) && fresh(c.buffer)
      invariant |a.Contents()| + |b.Contents()| + Volume(steps[i..]) <= EV_SIZE_MAX
      invariant outs + Run(SideOf(a), SideOf(b), steps[i..]) == all
    {
      assert steps[i..][0] == steps[i] && steps[i..][1..] == steps[i + 1..];
      var out;
      if steps[i].first {
        EffectSize(SideOf(a), SideOf(b), steps[i].op);
        out := Do(a, b, steps[i].op);
      } else {
        EffectSize(SideOf(b), SideOf(a), steps[i].op);
        ApartSwap(a.chains, b.chains);
        out := Do(b, a, steps[i].op);
        ApartSwap(b.chains, a.chains);
      }
      Assoc(outs, [out], Run(SideOf(a), SideOf(b), steps[i + 1..]));
      outs := outs + [out];
    }
  }
}
