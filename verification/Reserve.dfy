/**
 * Space reserved in an evbuffer for the caller to write into, and committed afterwards
 * (deps/libevent/buffer.c:670-791, 1937-2158, 2224-2260).
 */
module Reserve {
  import opened Common
  import opened Chains
  import opened Buffers

  /** The free space behind the data of some chunks, in bytes. */
  ghost function Room(cs: seq<Chain>): int
    reads (set c | c in cs)`off, (set c | c in cs)`misalign
  {
    if cs == [] then 0 else cs[0].SpaceLen() + Room(cs[1..])
  }

  lemma {:induction false} RoomJoin(a: seq<Chain>, b: seq<Chain>)
    ensures Room(a + b) == Room(a) + Room(b)
  {
    if a == [] {
      assert a + b == b;
    } else {
      assert (a + b)[0] == a[0] && (a + b)[1..] == a[1..] + b;
      RoomJoin(a[1..], b);
    }
  }

  lemma RoomOne(c: Chain)
    ensures Room([c]) == c.SpaceLen()
  {
    assert [c][1..] == [];
  }

  /** The position of the first chunk with space, seen from the last one with data (buffer.c:2241-2245). */
  ghost function Start(cs: seq<Chain>, lwd: nat): nat
    reads (set c | c in cs)`off, (set c | c in cs)`misalign
  {
    if lwd < |cs| && cs[lwd].SpaceLen() == 0 then lwd + 1 else lwd
  }

  /** The `used` chunks from there to position `i` have `avail` bytes of space. */
  ghost predicate Counted(cs: seq<Chain>, lwd: nat, i: nat, used: nat, avail: nat)
    reads (set c | c in cs)`off, (set c | c in cs)`misalign
  {
    Start(cs, lwd) <= i <= |cs| && used == i - Start(cs, lwd) && avail == Room(cs[Start(cs, lwd)..i])
  }

  /** An empty chunk is realigned; what was counted before it is not affected. */
  method ResetIn(ghost cs: seq<Chain>, ghost ds: seq<seq<char>>, ghost lwd: nat, ghost k: nat, chain: Chain,
        ghost used: nat, ghost avail: nat)
    requires Distinct(cs) && Held(cs, ds) && lwd <= k < |cs| && chain == cs[k] && chain.off == 0
    requires k > lwd ==> Counted(cs, lwd, k, used, avail)
    modifies chain`misalign
    ensures Held(cs, ds) && chain.SpaceLen() == chain.buffer.Length > 0
    ensures k > lwd ==> Counted(cs, lwd, k, used, avail)
  {
    ghost var before := cs[..k];
    assert chain !in before;
    if k > lwd {
      assert forall c :: c in cs[Start(cs, lwd)..k] ==> c in before;
      assert cs[lwd] in before;
    }
    chain.misalign := 0;
  }

  lemma CountFirst(cs: seq<Chain>, lwd: nat, used: nat, avail: nat)
    requires lwd < |cs| && cs[lwd].SpaceLen() >= 0
    requires avail == cs[lwd].SpaceLen() && used == (if avail == 0 then 0 else 1)
    ensures Counted(cs, lwd, lwd + 1, used, avail)
  {
    RoomOne(cs[lwd]);
    assert cs[lwd..lwd + 1] == [cs[lwd]];
  }

  lemma CountNext(cs: seq<Chain>, lwd: nat, i: nat, used: nat, avail: nat)
    requires i < |cs| && cs[i].SpaceLen() >= 0 && Counted(cs, lwd, i, used, avail)
    ensures Counted(cs, lwd, i + 1, used + 1, avail + cs[i].SpaceLen())
  {
    var k := Start(cs, lwd);
    RoomOne(cs[i]);
    RoomJoin(cs[k..i], [cs[i]]);
    assert cs[k..i] + [cs[i]] == cs[k..i + 1];
  }

  /** One chunk's space is counted; an empty one is realigned first (buffer.c:2077-2091). */
  method CountSpace(ghost cs: seq<Chain>, ghost ds: seq<seq<char>>, ghost lwd: nat, chain: Chain, used: nat, avail: nat,
        ghost i: nat)
    returns (nowUsed: nat, nowAvail: nat)
    requires Distinct(cs) && Held(cs, ds) && Cursor(ds, lwd) && lwd <= i < |cs| && chain == cs[i]
    requires if i == lwd then used == avail == 0 else Counted(cs, lwd, i, used, avail)
    modifies chain`misalign
    ensures Held(cs, ds) && Counted(cs, lwd, i + 1, nowUsed, nowAvail) && nowUsed <= used + 1
    ensures if chain.off != 0 then chain.SpaceLen() == old(chain.SpaceLen())
      else chain.SpaceLen() > 0 && chain.SpaceLen() >= old(chain.SpaceLen())
  {
    hide Room, Start, Counted, Distinct;
    nowUsed, nowAvail := used, avail;
    if chain.off != 0 {
      assert i == lwd;
      var space := chain.SpaceLen();
      if space != 0 {
        nowUsed, nowAvail := used + 1, avail + space;
      }
    } else {
      ResetIn(cs, ds, lwd, i, chain, used, avail);
      nowUsed, nowAvail := used + 1, avail + chain.buffer.Length;
    }
    if i == lwd {
      CountFirst(cs, lwd, nowUsed, nowAvail);
    } else {
      CountNext(cs, lwd, i, used, avail);
    }
  }

  /**
   * The loop of `evbuffer_expand_fast_` (buffer.c:2076-2100): how much space there is in the first
   * `n` chunks with space.
   */
  method Measure(b: EvBuffer, datlen: nat, n: nat) returns (enough: bool, used: nat, avail: nat, ghost i: nat)
    requires b.Valid() && b.chains != [] && n >= 2
    modifies Nodes(b.chains)`misalign
    ensures b.Valid() && Counted(b.chains, b.lwd, i, used, avail) && b.lwd < i
    ensures used <= n && (enough <==> avail >= datlen)
    ensures !enough ==> used == n || i == |b.chains|
    ensures if b.data[b.lwd] != [] then b.chains[b.lwd].SpaceLen() == old(b.chains[b.lwd].SpaceLen())
      else b.chains[b.lwd].SpaceLen() > 0
    ensures forall c :: c in b.chains ==> c.SpaceLen() >= old(c.SpaceLen())
  {
    hide Flat, Path, Held, Distinct, Cursor, Owner, EvBuffer.Shape, Start, Counted, Room;
    b.AtCursor();
    b.Lengths();
    b.Parts();
    var chain := b.Deref(b.lastWithDatap);
    used, avail, enough, i := 0, 0, false, b.lwd;
    while chain != null
      invariant Held(b.chains, b.data) && b.lwd <= i <= |b.chains| && chain == At(b.chains, i)
      invariant used < n && (i > b.lwd ==> avail < datlen)
      invariant i == b.lwd ==> used == avail == 0 && i < |b.chains|
      invariant i > b.lwd ==> Counted(b.chains, b.lwd, i, used, avail)
      invariant i == b.lwd || b.data[b.lwd] != [] ==> b.chains[b.lwd].SpaceLen() == old(b.chains[b.lwd].SpaceLen())
      invariant i > b.lwd && b.data[b.lwd] == [] ==> b.chains[b.lwd].SpaceLen() > 0
      invariant forall c :: c in b.chains ==> c.SpaceLen() >= old(c.SpaceLen())
      decreases |b.chains| - i
    {
      used, avail := CountSpace(b.chains, b.data, b.lwd, chain, used, avail, i);
      b.Whole();
      b.Chunk(i);
      i := i + 1;
      if avail >= datlen {
        enough := true;
        return;
      }
      if used == n {
        return;
      }
      chain := chain.next;
    }
    b.Whole();
  }

  /** At most `n` chunks behind the data have `datlen` bytes of space. */
  ghost predicate Ready(cs: seq<Chain>, lwd: nat, datlen: nat, n: nat)
    reads (set c | c in cs)`off, (set c | c in cs)`misalign
  {
    exists i: nat, used: nat, avail: nat :: Counted(cs, lwd, i, used, avail) && used <= n && avail >= datlen
  }

  /** A new last chunk adds its space to what was counted up to the end. */
  lemma ReadyWithOneMore(cs: seq<Chain>, tmp: Chain, lwd: nat, used: nat, avail: nat, datlen: nat, n: nat)
    requires Counted(cs, lwd, |cs|, used, avail) && lwd < |cs| && used < n
    requires tmp.SpaceLen() >= datlen - avail >= 0
    ensures Ready(cs + [tmp], lwd, datlen, n)
  {
    var all := cs + [tmp];
    assert Start(all, lwd) == Start(cs, lwd) by {
      assert all[lwd] == cs[lwd];
    }
    assert all[Start(cs, lwd)..|cs|] == cs[Start(cs, lwd)..|cs|];
    assert Counted(all, lwd, |cs|, used, avail);
    CountNext(all, lwd, |cs|, used, avail);
  }

  /** The last chunk with data and a new one behind it. */
  lemma ReadyWithTwo(cs: seq<Chain>, tmp: Chain, lwd: nat, datlen: nat, n: nat)
    requires |cs| == lwd + 1 && cs[lwd].SpaceLen() >= 0 && n >= 2
    requires tmp.SpaceLen() >= datlen - cs[lwd].SpaceLen() && tmp.SpaceLen() >= 0
    ensures Ready(cs + [tmp], lwd, datlen, n)
  {
    var all := cs + [tmp];
    var avail := cs[lwd].SpaceLen();
    var used := if avail == 0 then 0 else 1;
    CountFirst(all, lwd, used, avail);
    CountNext(all, lwd, lwd + 1, used, avail);
  }

  lemma ReadyAlone(tmp: Chain, datlen: nat, n: nat)
    requires tmp.SpaceLen() >= datlen && tmp.SpaceLen() > 0 && n >= 1
    ensures Ready([tmp], 0, datlen, n)
  {
    CountFirst([tmp], 0, 1, tmp.SpaceLen());
  }

  /** The last chunk with data has no more space than was counted. */
  lemma {:induction false} RoomAtLeast(cs: seq<Chain>, ds: seq<seq<char>>)
    requires Held(cs, ds)
    ensures Room(cs) >= 0 && (cs != [] ==> Room(cs) >= cs[0].SpaceLen())
  {
    if cs != [] {
      HeldCut(cs, ds, 1);
      RoomAtLeast(cs[1..], ds[1..]);
    }
  }

  lemma SpaceWithinCount(cs: seq<Chain>, ds: seq<seq<char>>, lwd: nat, i: nat, used: nat, avail: nat)
    requires Held(cs, ds) && lwd < i && Counted(cs, lwd, i, used, avail)
    ensures 0 <= cs[lwd].SpaceLen() <= avail
  {
    var k := Start(cs, lwd);
    HeldCut(cs, ds, i);
    HeldCut(cs[..i], ds[..i], k);
    assert cs[..i][k..] == cs[k..i];
    RoomAtLeast(cs[k..i], ds[..i][k..]);
  }

  lemma TrailingEmpty(data: seq<seq<char>>, lwd: nat)
    requires Cursor(data, lwd) && lwd < |data|
    ensures Cursor(data + [[]], lwd) && Flat(data + [[]]) == Flat(data)
  {
    FlatAppend(data, [[]]);
    FlatOne<char>([]);
  }

  /** `ch`, the last chunk or null for `first`, is made to lead to a new chunk. */
  method HangNew(b: EvBuffer, ch: Chain?, size: nat) returns (tmp: Chain)
    requires b.Shape() && ch == Owner(b.chains, |b.chains|)
    modifies b`first, b`last, b`chains, b`data, (if ch == null then {} else {ch})`next
    ensures b.Shape() && b.chains == old(b.chains) + [tmp] && b.data == old(b.data) + [[]] && b.last == tmp
    ensures fresh(tmp) && fresh(tmp.buffer) && tmp.SpaceLen() == tmp.buffer.Length == Capacity(size)
  {
    hide Flat, Path, Held, Distinct, EvBuffer.Shape;
    tmp := new Chain(size);
    LoneChunk(tmp);
    b.Join(ch, tmp, [tmp], [[]]);
    b.last := tmp;
  }

  /** A new last chunk is added (buffer.c:2106-2122). */
  method ExpandByOne(b: EvBuffer, size: nat) returns (tmp: Chain)
    requires b.Valid() && b.chains != []
    modifies b`first, b`last, b`chains, b`data, Nodes(b.chains)`next
    ensures b.Valid() && b.Contents() == old(b.Contents())
    ensures b.chains == old(b.chains) + [tmp] && fresh(tmp) && fresh(tmp.buffer)
    ensures b.data == old(b.data) + [[]]
    ensures tmp.SpaceLen() == tmp.buffer.Length == Capacity(size)
  {
    hide Flat, Path, Held, Distinct, Cursor, EvBuffer.Shape;
    b.AtCursor();
    TrailingEmpty(b.data, b.lwd);
    tmp := HangNew(b, b.last, size);
  }

  /** All empty chunks make way for a new one (buffer.c:2123-2157). */
  method ReplaceEmpties(b: EvBuffer, datlen: nat, n: nat)
    requires b.Valid() && b.lwd < |b.chains| && n >= 2
    requires b.data[b.lwd] != [] ==> b.chains[b.lwd].SpaceLen() <= datlen
    modifies b`first, b`last, b`chains, b`data, Nodes(b.chains)`next
    ensures b.Valid() && b.Contents() == old(b.Contents()) && Grown(old(b.chains), b.chains)
    ensures b.chains != [] && Ready(b.chains, b.lwd, datlen, n)
  {
    hide Flat, Path, Held, Distinct, EvBuffer.Shape, Ready;
    b.Lengths();
    b.AtCursor();
    var chain := b.Deref(b.lastWithDatap);
    b.Chunk(b.lwd);
    AllEmptyFrom(b.data, b.lwd, if b.data[b.lwd] != [] then b.lwd + 1 else b.lwd);
    if chain.off == 0 {
      b.Cut(0, null);
      var tmp := HangNew(b, null, datlen);
      assert b.chains == [tmp] && b.data == [[]];
      FlatOfEmpties(b.data);
      ReadyAlone(tmp, datlen, n);
    } else {
      var avail := chain.SpaceLen();
      b.Cut(b.lwd + 1, chain);
      ghost var kept := b.chains;
      TrailingEmpty(b.data, b.lwd);
      var tmp := HangNew(b, chain, datlen - avail);
      ReadyWithTwo(kept, tmp, b.lwd, datlen, n);
    }
  }

  /** The list `cs` is `before` with one more chunk, which is not larger than asked for allows. */
  ghost predicate OneMore(cs: seq<Chain>, before: seq<Chain>, size: nat)
    reads (set c | c in cs)`off, (set c | c in cs)`misalign
  {
    cs != [] && DropLast(cs) == before
    && MIN_BUFFER_SIZE - EVBUFFER_CHAIN_SIZE <= Last(cs).SpaceLen() == Last(cs).buffer.Length <= 2 * size + MIN_BUFFER_SIZE + EVBUFFER_CHAIN_SIZE
  }

  /** `evbuffer_expand_fast_` (buffer.c:2051-2158) */
  method ExpandFast(b: EvBuffer, datlen: nat, n: nat)
    requires b.Valid() && n >= 2
    modifies b, Nodes(b.chains)`next, Nodes(b.chains)`misalign
    ensures b.Valid() && b.Contents() == old(b.Contents()) && Grown(old(b.chains), b.chains)
    ensures b.chains != [] && Ready(b.chains, b.lwd, datlen, n)
    ensures datlen == 0 ==> (Start(b.chains, b.lwd) == |b.chains| <==> old(Full(b)))
    // with fewer chunks behind the data than vectors, one chunk is added at most
    ensures old(b.chains != [] && |b.chains| - b.lwd < n) ==> b.lwd == old(b.lwd)
    ensures old(b.chains != [] && |b.chains| - b.lwd < n) ==>
      (b.chains == old(b.chains) && b.data == old(b.data))
      || (b.data == old(b.data) + [[]] && OneMore(b.chains, old(b.chains), datlen))
    ensures old(b.chains != [] && |b.chains| - b.lwd < n) ==>
      forall c :: c in old(b.chains) ==> c.SpaceLen() >= old(c.SpaceLen())
    ensures old(b.chains != [] && |b.chains| - b.lwd < n && b.data[b.lwd] != []) ==>
      b.chains[b.lwd].SpaceLen() == old(b.chains[b.lwd].SpaceLen())
    ensures b.freezeStart == old(b.freezeStart) && b.freezeEnd == old(b.freezeEnd)
  {
    hide Flat, Path, Held, Distinct, Cursor, Owner, EvBuffer.Shape, Ready, Counted;
    b.LastOrNone();
    b.AtCursor();
    if b.last == null {
      var tmp := b.InsertNew(datlen, []);
      assert b.chains == [tmp];
      b.AtCursor();
      ReadyAlone(tmp, datlen, n);
      return;
    }
    LastIsAtCursor(b.data, b.lwd);
    var enough, used, avail;
    ghost var i;
    enough, used, avail, i := Measure(b, datlen, n);
    b.AtCursor();
    if enough {
      ReadyNow(b.chains, b.lwd, i, used, avail, datlen, n);
    } else if used < n {
      ghost var cs := b.chains;
      var tmp := ExpandByOne(b, datlen - avail);
      ReadyWithOneMore(cs, tmp, b.lwd, used, avail, datlen, n);
    } else {
      b.Parts();
      SpaceWithinCount(b.chains, b.data, b.lwd, i, used, avail);
      CountWithinList(b.chains, b.lwd, i, used, avail);
      ReplaceEmpties(b, datlen, n);
    }
  }

  lemma CountWithinList(cs: seq<Chain>, lwd: nat, i: nat, used: nat, avail: nat)
    requires Counted(cs, lwd, i, used, avail)
    ensures used <= |cs| - lwd
  {
  }

  lemma LastIsAtCursor(data: seq<seq<char>>, lwd: nat)
    requires Cursor(data, lwd)
    ensures data != [] && Last(data) != [] ==> lwd == |data| - 1
  {
  }

  lemma ReadyNow(cs: seq<Chain>, lwd: nat, i: nat, used: nat, avail: nat, datlen: nat, n: nat)
    requires Counted(cs, lwd, i, used, avail) && used <= n && avail >= datlen
    ensures Ready(cs, lwd, datlen, n)
  {
  }

  /** `struct evbuffer_iovec`: the address handed out, as a chunk and a position in its memory, and a length. */
  datatype Vec = Vec(chain: Chain, at: nat, len: nat)

  /** Entry j is the free space of chunk j, or the beginning of it. */
  ghost predicate Placed(cs: seq<Chain>, vecs: seq<Vec>)
    reads (set c | c in cs)`off, (set c | c in cs)`misalign
  {
    && |vecs| <= |cs|
    && forall j :: 0 <= j < |vecs| ==>
        vecs[j].chain == cs[j] && vecs[j].at == cs[j].misalign + cs[j].off && vecs[j].len <= cs[j].SpaceLen()
  }

  function Total(vecs: seq<Vec>): nat {
    if vecs == [] then 0 else Total(DropLast(vecs)) + Last(vecs).len
  }

  /** Entry j is all the free space of chunk j. */
  ghost predicate Handed(cs: seq<Chain>, vecs: seq<Vec>)
    reads (set c | c in cs)`off, (set c | c in cs)`misalign
  {
    Placed(cs, vecs) && forall j :: 0 <= j < |vecs| ==> vecs[j].len == cs[j].SpaceLen()
  }

  lemma HandedMore(cs: seq<Chain>, start: nat, vecs: seq<Vec>, v: Vec)
    requires start + |vecs| < |cs| && v.chain == cs[start + |vecs|]
    requires Handed(cs[start..], vecs)
    requires v.at == v.chain.misalign + v.chain.off && v.len == v.chain.SpaceLen()
    requires Total(vecs) == Room(cs[start..start + |vecs|])
    ensures Handed(cs[start..], vecs + [v]) && Total(vecs + [v]) == Room(cs[start..start + |vecs| + 1])
    ensures Total(vecs + [v]) == Total(vecs) + v.len
  {
    hide Room, Total;
    TotalMore(vecs, v);
    RoomFurther(cs, start, start + |vecs|);
    var now, rest := vecs + [v], cs[start..];
    forall j | 0 <= j < |now|
      ensures now[j].chain == rest[j] && now[j].at == rest[j].misalign + rest[j].off
      ensures now[j].len == rest[j].SpaceLen()
    {
      if j < |vecs| {
        assert now[j] == vecs[j];
      }
    }
  }

  lemma TotalMore(vecs: seq<Vec>, v: Vec)
    ensures Total(vecs + [v]) == Total(vecs) + v.len
  {
    assert DropLast(vecs + [v]) == vecs;
  }

  lemma RoomGrows(cs: seq<Chain>, ds: seq<seq<char>>, k: nat, e: nat, j: nat)
    requires Held(cs, ds) && k <= e <= j <= |cs|
    ensures Room(cs[k..e]) <= Room(cs[k..j])
  {
    HeldCut(cs, ds, j);
    HeldCut(cs[..j], ds[..j], e);
    assert cs[..j][e..] == cs[e..j];
    RoomAtLeast(cs[e..j], ds[..j][e..]);
    RoomJoin(cs[k..e], cs[e..j]);
    assert cs[k..e] + cs[e..j] == cs[k..j];
  }

  /** As long as less was handed out than asked for, there is a further chunk with space. */
  lemma MoreRoom(cs: seq<Chain>, ds: seq<seq<char>>, lwd: nat, datlen: nat, n: nat, i: nat)
    requires Held(cs, ds) && Ready(cs, lwd, datlen, n) && Start(cs, lwd) + i <= |cs|
    requires Room(cs[Start(cs, lwd)..Start(cs, lwd) + i]) < datlen
    ensures Start(cs, lwd) + i < |cs| && i < n
  {
    var k := Start(cs, lwd);
    var e: nat, used: nat, avail: nat :| Counted(cs, lwd, e, used, avail) && used <= n && avail >= datlen;
    if e <= k + i {
      RoomGrows(cs, ds, k, e, k + i);
    }
  }

  /** `evbuffer_read_setup_vecs_` (buffer.c:2225-2260) with `exact` false, there being a chunk to start from */
  method SetupVecs(b: EvBuffer, howmuch: nat, n: nat) returns (vecs: seq<Vec>)
    requires b.Valid() && Ready(b.chains, b.lwd, howmuch, n) && Start(b.chains, b.lwd) < |b.chains|
    ensures Handed(b.chains[Start(b.chains, b.lwd)..], vecs) && |vecs| <= n && Total(vecs) >= howmuch
  {
    hide Flat, Path, Held, Distinct, Cursor, Owner, EvBuffer.Shape, Ready, Room, Handed, Placed, Total, Start;
    var chain := FirstSpace(b);
    ghost var k := Start(b.chains, b.lwd);
    vecs := [];
    var soFar := 0;
    HandedNone(b.chains, k);
    b.Parts();
    while |vecs| < n && soFar < howmuch
      invariant k + |vecs| <= |b.chains| && |vecs| <= n && chain == At(b.chains, k + |vecs|)
      invariant Handed(b.chains[k..], vecs) && soFar == Total(vecs) == Room(b.chains[k..k + |vecs|])
    {
      MoreRoom(b.chains, b.data, b.lwd, howmuch, n, |vecs|);
      b.Chunk(k + |vecs|);
      var v := Vec(chain, chain.misalign + chain.off, chain.SpaceLen());
      HandedMore(b.chains, k, vecs, v);
      soFar := soFar + v.len;
      chain := chain.next;
      vecs := vecs + [v];
    }
    if soFar < howmuch {
      MoreRoom(b.chains, b.data, b.lwd, howmuch, n, |vecs|);
    }
  }

  /** The first chunk with space (buffer.c:2241-2248), null if there is none */
  method FirstSpace(b: EvBuffer) returns (chain: Chain?)
    requires b.Valid() && b.chains != []
    ensures chain == At(b.chains, Start(b.chains, b.lwd))
  {
    hide Flat, Path, Held, Distinct, Cursor, Owner, EvBuffer.Shape;
    b.AtCursor();
    chain := b.Deref(b.lastWithDatap);
    b.Chunk(b.lwd);
    if chain.SpaceLen() == 0 {
      chain := chain.next;
    }
  }

  lemma HandedNone(cs: seq<Chain>, k: nat)
    requires k <= |cs|
    ensures Handed(cs[k..], []) && Room(cs[k..k]) == Total([]) == 0
  {
  }

  lemma RoomFurther(cs: seq<Chain>, k: nat, i: nat)
    requires k <= i < |cs|
    ensures Room(cs[k..i + 1]) == Room(cs[k..i]) + cs[i].SpaceLen()
  {
    RoomOne(cs[i]);
    RoomJoin(cs[k..i], [cs[i]]);
    assert cs[k..i] + [cs[i]] == cs[k..i + 1];
  }

  /** Nothing is empty and the last chunk is full. */
  ghost predicate Full(b: EvBuffer)
    requires b.Valid()
    reads b, set c | c in b.chains, set c | c in b.chains :: c.buffer
  {
    b.chains != [] && Last(b.data) != [] && Last(b.chains).SpaceLen() == 0
  }

  /** The bytes the caller wrote at the addresses handed out. */
  ghost predicate Bounded(vecs: seq<Vec>) {
    forall j :: 0 <= j < |vecs| ==> vecs[j].at + vecs[j].len <= vecs[j].chain.buffer.Length
  }

  ghost function Filled(vecs: seq<Vec>): seq<char>
    requires Bounded(vecs)
    reads set v | v in vecs :: v.chain.buffer
  {
    if vecs == [] then []
    else var v := Last(vecs); Filled(DropLast(vecs)) + v.chain.buffer[v.at..v.at + v.len]
  }

  /** Bytes appended to a chunk behind the last one with data, or to that one. */
  lemma AppendBehind(data: seq<seq<char>>, lwd: nat, i: nat, s: seq<char>)
    requires Cursor(data, lwd) && lwd <= i < |data|
    ensures var d := data[i := data[i] + s]; Flat(d) == Flat(data) + s && Cursor(d, if s == [] then lwd else i)
  {
    var d := data[i := data[i] + s];
    assert d[..i] == data[..i] && d[i + 1..] == data[i + 1..];
    hide Flat;
    FlatAt(data, i);
    FlatAt(d, i);
    FlatOfEmpties(data[i + 1..]);
    Assoc(Flat(data[..i]), data[i], s);
    if s == [] {
      assert data[i] + [] == data[i];
      assert d == data;
    }
  }

  /** The k-th chunk's data is extended over bytes already written behind it. */
  method ExtendIn(ghost cs: seq<Chain>, ghost ds: seq<seq<char>>, ghost k: nat, chain: Chain, len: nat)
    requires Distinct(cs) && Held(cs, ds) && k < |cs| && chain == cs[k] && len <= chain.SpaceLen()
    modifies chain`off
    ensures |ds| == |cs| && old(chain.misalign + chain.off) + len <= chain.buffer.Length
    ensures Held(cs, ds[k := ds[k] + chain.buffer[old(chain.misalign + chain.off)..old(chain.misalign + chain.off) + len]])
  {
    ghost var m, at := chain.misalign, chain.misalign + chain.off;
    assert chain.buffer[m..at + len] == chain.buffer[m..at] + chain.buffer[at..at + len];
    chain.off := chain.off + len;
    assert chain.Data() == ds[k] + chain.buffer[at..at + len];
  }

  /** `chain->off += vec->iov_len` */
  method ExtendAt(b: EvBuffer, v: Vec, ghost i: nat)
    requires b.Shape() && i < |b.chains| && v.chain == b.chains[i]
    requires v.at == v.chain.misalign + v.chain.off && v.len <= v.chain.SpaceLen()
    modifies b`data, v.chain`off
    ensures |old(b.data)| == |b.chains| && Bounded([v]) && b.Shape()
    ensures b.data == old(b.data)[i := old(b.data)[i] + Filled([v])]
  {
    hide Flat, Path, Held, Distinct, EvBuffer.Shape;
    b.Lengths();
    b.Parts();
    b.Chunk(i);
    FilledOne(v);
    ExtendIn(b.chains, b.data, i, v.chain, v.len);
    b.data := b.data[i := b.data[i] + v.chain.buffer[v.at..v.at + v.len]];
    b.Whole();
  }

  /** One step of the second pass of `evbuffer_commit_space` (buffer.c:773-780) */
  method CommitOne(b: EvBuffer, owner: Chain?, v: Vec, ghost i: nat)
    requires b.Shape() && Cursor(b.data, b.lwd) && b.lwd <= i < |b.chains|
    requires b.lastWithDatap == Owner(b.chains, b.lwd) && owner == Owner(b.chains, i)
    requires Placed(b.chains[i..], [v])
    modifies b`data, b`lwd, b`lastWithDatap, v.chain`off
    ensures b.Shape() && Cursor(b.data, b.lwd) && b.lwd <= i
    ensures b.lastWithDatap == Owner(b.chains, b.lwd)
    ensures Bounded([v]) && Flat(b.data) == old(Flat(b.data)) + Filled([v])
  {
    hide Flat, Path, Held, Distinct, Cursor, Owner, Filled, EvBuffer.Shape;
    assert b.chains[i..][0] == b.chains[i] && [v][0] == v;
    ExtendAt(b, v, i);
    FilledMore([v], 0);
    AppendBehind(old(b.data), b.lwd, i, Filled([v]));
    if v.len != 0 {
      b.lastWithDatap, b.lwd := owner, i;
    }
  }

  /** The first pass: the addresses and lengths are checked before anything changes (buffer.c:760-770). */
  method CheckVecs(b: EvBuffer, first: Chain?, vecs: seq<Vec>, ghost k: nat) returns (ok: bool)
    requires b.Valid() && k <= |b.chains| && first == At(b.chains, k)
    ensures ok <==> Placed(b.chains[k..], vecs)
  {
    hide Flat, Path, Held, Distinct, Cursor, Owner, EvBuffer.Shape;
    var chain := first;
    ghost var rest := b.chains[k..];
    for i := 0 to |vecs|
      invariant i <= |rest| && chain == At(b.chains, k + i)
      invariant forall j :: 0 <= j < i ==>
        vecs[j].chain == rest[j] && vecs[j].at == rest[j].misalign + rest[j].off && vecs[j].len <= rest[j].SpaceLen()
    {
      if chain == null {
        return false;
      }
      assert rest[i] == chain;
      b.Chunk(k + i);
      if vecs[i].chain != chain || vecs[i].at != chain.misalign + chain.off || vecs[i].len > chain.SpaceLen() {
        return false;
      }
      chain := chain.next;
    }
    ok := true;
  }

  /** Taking the first entry off, which concerns another chunk than the others. */
  lemma PlacedRest(cs: seq<Chain>, k: nat, vecs: seq<Vec>, i: nat)
    requires k + i <= |cs| && i < |vecs| && Distinct(cs) && Placed(cs[k + i..], vecs[i..])
    ensures k + i < |cs| && vecs[i].chain == cs[k + i] && vecs[i].chain !in cs[k + i + 1..]
    ensures Placed(cs[k + i + 1..], vecs[i + 1..]) && Placed(cs[k + i..], [vecs[i]])
  {
    var rest, vs := cs[k + i..], vecs[i..];
    assert vs[0] == vecs[i] && rest[0] == cs[k + i];
    assert rest[1..] == cs[k + i + 1..] && vs[1..] == vecs[i + 1..];
    forall j | 0 <= j < |vs[1..]|
      ensures vs[1..][j] == vs[j + 1] && rest[1..][j] == rest[j + 1]
    {
    }
  }

  lemma PlacedIsBounded(cs: seq<Chain>, ds: seq<seq<char>>, vecs: seq<Vec>)
    requires Held(cs, ds) && Placed(cs, vecs)
    ensures Bounded(vecs)
  {
  }

  lemma FilledOne(v: Vec)
    requires v.at + v.len <= v.chain.buffer.Length
    ensures Bounded([v]) && Filled([v]) == v.chain.buffer[v.at..v.at + v.len]
  {
    assert DropLast([v]) == [];
  }

  lemma FilledMore(vecs: seq<Vec>, i: nat)
    requires Bounded(vecs) && i < |vecs|
    ensures Filled(vecs[..i + 1]) == Filled(vecs[..i]) + Filled([vecs[i]])
    ensures |Filled([vecs[i]])| == vecs[i].len
  {
    assert DropLast(vecs[..i + 1]) == vecs[..i] && DropLast([vecs[i]]) == [];
  }

  /** The second pass (buffer.c:771-780) */
  method CommitAll(b: EvBuffer, owner: Chain?, vecs: seq<Vec>, ghost k: nat) returns (added: nat)
    requires b.Shape() && Cursor(b.data, b.lwd) && b.lwd <= k <= |b.chains|
    requires b.lastWithDatap == Owner(b.chains, b.lwd) && owner == Owner(b.chains, k)
    requires Placed(b.chains[k..], vecs)
    modifies b`data, b`lwd, b`lastWithDatap, Nodes(b.chains)`off
    ensures b.Shape() && Cursor(b.data, b.lwd) && b.lwd <= |b.chains|
    ensures b.lastWithDatap == Owner(b.chains, b.lwd)
    ensures Bounded(vecs) && Flat(b.data) == old(Flat(b.data)) + Filled(vecs) && added == |Filled(vecs)|
  {
    hide Flat, Path, Held, Distinct, Cursor, Owner, EvBuffer.Shape, Placed, Filled;
    b.Lengths();
    b.Parts();
    HeldCut(b.chains, b.data, k);
    PlacedIsBounded(b.chains[k..], b.data[k..], vecs);
    var chainp := owner;
    added := 0;
    assert vecs[0..] == vecs;
    FilledNone();
    for i := 0 to |vecs|
      invariant b.Shape() && Cursor(b.data, b.lwd) && b.lwd <= k + i <= |b.chains|
      invariant b.lastWithDatap == Owner(b.chains, b.lwd) && chainp == Owner(b.chains, k + i)
      invariant Placed(b.chains[k + i..], vecs[i..])
      invariant Flat(b.data) == old(Flat(b.data)) + Filled(vecs[..i]) && added == |Filled(vecs[..i])|
    {
      b.Lengths();
      PlacedRest(b.chains, k, vecs, i);
      FilledMore(vecs, i);
      CommitOne(b, chainp, vecs[i], k + i);
      added := added + vecs[i].len;
      b.Leads(k + i);
      OwnerIn(b.chains, k + i + 1);
      chainp := b.Deref(chainp);
      Assoc(old(Flat(b.data)), Filled(vecs[..i]), Filled([vecs[i]]));
    }
    assert vecs[..|vecs|] == vecs;
  }

  lemma FilledNone()
    ensures Bounded([]) && Filled([]) == []
  {
  }

  /** The address is that of the free space of the last chunk. */
  ghost predicate AtLast(b: EvBuffer, v: Vec)
    reads b, set c | c in b.chains
  {
    b.chains != [] && v.chain == Last(b.chains) && v.at == v.chain.misalign + v.chain.off
  }

  /** What `evbuffer_commit_space` accepts. */
  ghost predicate Accepted(b: EvBuffer, vecs: seq<Vec>)
    reads b, set c | c in b.chains
  {
    if |vecs| == 1 && AtLast(b, vecs[0]) then vecs[0].len <= vecs[0].chain.SpaceLen()
    else vecs == [] || (Start(b.chains, b.lwd) <= |b.chains| && Placed(b.chains[Start(b.chains, b.lwd)..], vecs))
  }

  /** `evbuffer_commit_space` (buffer.c:724-791) */
  method CommitSpace(b: EvBuffer, vecs: seq<Vec>) returns (result: int)
    requires b.Valid()
    modifies b`data, b`lwd, b`lastWithDatap, b`totalLen, Nodes(b.chains)`off
    ensures b.Valid()
    ensures result == if !b.freezeEnd && old(Accepted(b, vecs)) then 0 else -1
    ensures result == 0 ==> Bounded(vecs) && b.Contents() == old(b.Contents()) + Filled(vecs)
    ensures result != 0 ==> b.Contents() == old(b.Contents())
  {
    hide Flat, Path, Held, Distinct, Cursor, Owner, EvBuffer.Shape, Placed, Filled, Start;
    if b.freezeEnd {
      return -1;
    }
    FilledNone();
    b.LastOrNone();
    if |vecs| == 0 {
      return 0;
    }
    if |vecs| == 1 && b.last != null {
      b.LastChunk();
      if vecs[0].chain == b.last && vecs[0].at == b.last.misalign + b.last.off {
        if vecs[0].len > b.last.SpaceLen() {
          return -1;
        }
        CommitLast(b, vecs[0]);
        assert vecs == [vecs[0]];
        return 0;
      }
    }
    result := CommitMany(b, vecs);
  }

  /** A single entry for the free space of the last chunk (buffer.c:739-750) */
  method CommitLast(b: EvBuffer, v: Vec)
    requires b.Valid() && AtLast(b, v) && v.len <= v.chain.SpaceLen()
    modifies b`data, b`lwd, b`lastWithDatap, b`totalLen, v.chain`off
    ensures b.Valid()
    ensures Bounded([v]) && b.Contents() == old(b.Contents()) + Filled([v])
  {
    hide Flat, Path, Held, Distinct, Owner, Filled, EvBuffer.Shape;
    b.AtCursor();
    ExtendAt(b, v, |b.chains| - 1);
    FilledMore([v], 0);
    AppendBehind(old(b.data), b.lwd, |b.chains| - 1, Filled([v]));
    if v.len != 0 {
      b.AdvanceLastWithData();
    }
    b.totalLen := b.totalLen + v.len;
  }

  /** Entries for the chunks from the first one with space on (buffer.c:752-780) */
  method CommitMany(b: EvBuffer, vecs: seq<Vec>) returns (result: int)
    requires b.Valid() && vecs != []
    modifies b`data, b`lwd, b`lastWithDatap, b`totalLen, Nodes(b.chains)`off
    ensures b.Valid()
    ensures result == if old(Start(b.chains, b.lwd) <= |b.chains| && Placed(b.chains[Start(b.chains, b.lwd)..], vecs))
      then 0 else -1
    ensures result == 0 ==> Bounded(vecs) && b.Contents() == old(b.Contents()) + Filled(vecs)
    ensures result != 0 ==> b.Contents() == old(b.Contents())
  {
    hide Flat, Path, Held, Distinct, Cursor, Owner, EvBuffer.Shape, Filled, Start, Placed;
    var owner, chain;
    ghost var k;
    owner, chain, k := FirstSpaceField(b);
    var ok := CheckVecs(b, chain, vecs, k);
    if !ok {
      return -1;
    }
    var added := CommitAll(b, owner, vecs, k);
    b.totalLen := b.totalLen + added;
    result := 0;
  }

  const MAX_TO_COPY_IN_EXPAND := 4096

  /** A larger chunk with the same data. */
  method Larger(chain: Chain, datlen: nat) returns (tmp: Chain)
    requires chain.Fits()
    ensures fresh(tmp) && fresh(tmp.buffer) && tmp.Fits() && tmp.Data() == chain.Data() && tmp.SpaceLen() >= datlen
  {
    tmp := new Chain(chain.off + datlen);
    tmp.Append(chain.buffer[chain.misalign..chain.misalign + chain.off]);
  }

  /** A larger chunk with the same data takes the place of the k-th (buffer.c:2016-2036). */
  method Resize(b: EvBuffer, chain: Chain, owner: Chain?, datlen: nat, ghost k: nat) returns (tmp: Chain)
    requires b.Shape() && k < |b.chains| && chain == b.chains[k] && owner == Owner(b.chains, k)
    requires b.last == Owner(b.chains, |b.chains|)
    modifies b`first, b`last, b`chains, Nodes(b.chains)`next
    ensures b.Shape() && fresh(tmp) && fresh(tmp.buffer) && b.chains == old(b.chains)[k := tmp]
    ensures tmp.SpaceLen() >= datlen && b.last == Owner(b.chains, |b.chains|)
  {
    hide Flat, Path, Held, Distinct, EvBuffer.Shape, Chain.Data, Chain.Fits;
    b.Chunk(k);
    tmp := Larger(chain, datlen);
    if b.last == chain {
      b.LastIs(k);
      b.last := tmp;
    } else {
      b.LastIs(k);
    }
    Substitute(b, chain, owner, tmp, k);
  }

  /** `tmp` is linked where `chain` was. */
  method Substitute(b: EvBuffer, chain: Chain, owner: Chain?, tmp: Chain, ghost k: nat)
    requires b.Shape() && k < |b.chains| && chain == b.chains[k] && owner == Owner(b.chains, k)
    requires Apart([tmp], b.chains) && tmp.Fits() && tmp.Data() == b.data[k]
    modifies b`first, b`chains, tmp`next, (if owner == null then {} else {owner})`next
    ensures b.Shape() && b.chains == old(b.chains)[k := tmp]
  {
    hide Flat, Path, Held, Distinct, Apart, Head, At, Owner, EvBuffer.Shape, Chain.Data, Chain.Fits;
    b.Lengths();
    b.Parts();
    b.Chunk(k);
    ghost var front, rest := b.chains[..k], b.chains[k + 1..];
    Replaced(b.chains, b.data, k);
    TmpApart(tmp, b.chains, k);
    OwnerOf(b.chains, k);
    var next := chain.next;
    b.SetLink(front, chain, owner, tmp);
    tmp.next := next;
    Assembled(front, tmp, rest, b.data, k);
    assert front + [tmp] + rest == b.chains[k := tmp];
    b.chains := b.chains[k := tmp];
    b.Whole();
  }

  lemma OwnerOf(cs: seq<Chain>, k: nat)
    requires k < |cs|
    ensures Owner(cs[..k], k) == Owner(cs, k)
    ensures Owner(cs, k) != null ==> Owner(cs, k) in cs[..k] && Owner(cs, k) == cs[k - 1] && k > 0
    ensures Head(cs[k + 1..], null) == At(cs, k + 1)
    ensures cs[..k] != [] ==> Head(cs, null) == cs[..k][0]
  {
  }

  lemma ApartFrom(a: seq<Chain>, b: seq<Chain>, part: seq<Chain>)
    requires Apart(a, b) && forall d :: d in part ==> d in b
    ensures Apart(a, part)
  {
  }

  lemma TmpApart(tmp: Chain, cs: seq<Chain>, k: nat)
    requires Apart([tmp], cs) && k < |cs|
    ensures Apart([tmp], cs[..k]) && Apart([tmp], cs[k + 1..]) && tmp !in cs
  {
    hide Apart;
    NotIn(tmp, cs);
    ApartFrom([tmp], cs, cs[..k]);
    ApartFrom([tmp], cs, cs[k + 1..]);
  }

  /** The parts of the list around position `k`. */
  lemma Replaced(cs: seq<Chain>, ds: seq<seq<char>>, k: nat)
    requires Distinct(cs) && Path(cs, null) && Held(cs, ds) && k < |cs|
    ensures |ds| == |cs| && Path(cs[..k], cs[k]) && Path(cs[k + 1..], null)
    ensures Held(cs[..k], ds[..k]) && Held(cs[k + 1..], ds[k + 1..])
    ensures Distinct(cs[..k]) && Distinct(cs[k + 1..]) && Apart(cs[..k], cs[k + 1..])
    ensures k > 0 ==> cs[k - 1] !in cs[k + 1..]
    ensures cs[k] == Last(cs) <==> k == |cs| - 1
  {
    PathCut(cs, k, null);
    PathCut(cs, k + 1, null);
    HeldCut(cs, ds, k);
    HeldCut(cs, ds, k + 1);
  }

  lemma Assembled(front: seq<Chain>, tmp: Chain, rest: seq<Chain>, ds: seq<seq<char>>, k: nat)
    requires |front| == k && |ds| == k + 1 + |rest|
    requires Path(front, tmp) && Path(rest, null) && tmp.next == Head(rest, null)
    requires Held(front, ds[..k]) && Held(rest, ds[k + 1..]) && tmp.Fits() && tmp.Data() == ds[k]
    requires Distinct(front) && Distinct(rest) && Apart(front, rest) && Apart([tmp], front) && Apart([tmp], rest)
    ensures var all := front + [tmp] + rest;
      Path(all, null) && Held(all, ds) && Distinct(all) && Head(all, null) == Head(front, tmp)
  {
    hide Path, Distinct, Held;
    var back := [tmp] + rest;
    assert front + back == front + [tmp] + rest;
    PathOne(tmp);
    PathJoin([tmp], rest, null);
    PathJoin(front, back, null);
    AssembledData(front, tmp, rest, ds, k);
    DistinctOne(tmp);
    DistinctJoin([tmp], rest);
    assert Apart(front, back);
    DistinctJoin(front, back);
  }

  lemma AssembledData(front: seq<Chain>, tmp: Chain, rest: seq<Chain>, ds: seq<seq<char>>, k: nat)
    requires |front| == k && |ds| == k + 1 + |rest|
    requires Held(front, ds[..k]) && Held(rest, ds[k + 1..]) && tmp.Fits() && tmp.Data() == ds[k]
    ensures Held(front + ([tmp] + rest), ds)
  {
    var back := [ds[k]] + ds[k + 1..];
    HeldJoin([tmp], [ds[k]], rest, ds[k + 1..]);
    HeldJoin(front, ds[..k], [tmp] + rest, back);
    assert ds[..k] + back == ds;
  }

  /** What a chunk that is neither empty nor has room enough, nor is worth realigning, comes to (buffer.c:1993-2000). */
  predicate NotWorthResizing(chain: Chain, datlen: nat)
    reads chain
  {
    || chain.SpaceLen() < chain.buffer.Length / 8
    || chain.off > MAX_TO_COPY_IN_EXPAND
    || datlen >= EVBUFFER_CHAIN_MAX - chain.off
  }

  /** The field that leads to the first chunk with space, and that chunk (buffer.c:1944-1955) */
  method FirstSpaceField(b: EvBuffer) returns (owner: Chain?, chain: Chain?, ghost k: nat)
    requires b.Valid()
    ensures k <= |b.chains| && owner == Owner(b.chains, k) && chain == At(b.chains, k)
    ensures k == Start(b.chains, b.lwd) && b.lwd <= k
    ensures chain != null ==> (chain.off == 0 || k == b.lwd) && chain.Fits() && chain.SpaceLen() >= 0
  {
    hide Flat, Path, Held, Distinct, Owner, EvBuffer.Shape;
    b.AtCursor();
    owner, chain, k := b.lastWithDatap, b.Deref(b.lastWithDatap), b.lwd;
    if chain != null {
      b.Chunk(k);
      if chain.SpaceLen() == 0 {
        OwnerIn(b.chains, k + 1);
        owner, chain, k := chain, chain.next, k + 1;
        if chain != null {
          b.Chunk(k);
        }
      }
    }
  }

  /** The first chunk with space is passed over in favour of the empty one behind it (buffer.c:2001-2006). */
  ghost predicate TakesNext(b: EvBuffer, datlen: nat)
    requires b.Valid()
    reads b, set c | c in b.chains, set c | c in b.chains :: c.buffer
  {
    var k := Start(b.chains, b.lwd);
    && k + 1 < |b.chains|
    && b.chains[k].off != 0 && b.chains[k].SpaceLen() < datlen && !b.chains[k].ShouldRealign(datlen)
    && NotWorthResizing(b.chains[k], datlen) && b.chains[k + 1].SpaceLen() >= datlen
  }

  /** `evbuffer_expand_singlechain` (buffer.c:1939-2046); the result is the chunk, at position `i`. */
  method ExpandSingle(b: EvBuffer, datlen: nat) returns (result: Chain, ghost i: nat)
    requires b.Valid()
    modifies b, Nodes(b.chains), Areas(b.chains)
    ensures b.Valid() && b.Contents() == old(b.Contents()) && Grown(old(b.chains), b.chains)
    ensures b.lwd <= i < |b.chains| && result == b.chains[i] && result.SpaceLen() >= datlen
    ensures old(TakesNext(b, datlen)) ==> b.chains == old(b.chains) && i == old(Start(b.chains, b.lwd)) + 1
    ensures old(TakesNext(b, datlen)) ==> Start(b.chains, b.lwd) == old(Start(b.chains, b.lwd))
    ensures !old(TakesNext(b, datlen)) ==> i == Start(b.chains, b.lwd) || i == |b.chains| - 1
    ensures b.freezeStart == old(b.freezeStart) && b.freezeEnd == old(b.freezeEnd)
  {
    hide Flat, Path, Held, Distinct, Cursor, Owner, EvBuffer.Shape;
    var owner, chain;
    ghost var k;
    owner, chain, k := FirstSpaceField(b);
    if chain == null {
      result, i := InsertEmpty(b, datlen);
    } else if chain.SpaceLen() >= datlen {
      result, i := chain, k;
    } else if chain.off == 0 {
      result, i := InsertEmpty(b, datlen);
    } else if chain.ShouldRealign(datlen) {
      b.Lengths();
      b.Parts();
      AlignIn(b.chains, b.data, k, chain);
      b.Whole();
      result, i := chain, k;
    } else if NotWorthResizing(chain, datlen) {
      b.Chunk(k);
      var next := chain.next;
      if next != null && next.SpaceLen() >= datlen {
        result, i := next, k + 1;
      } else {
        result, i := InsertEmpty(b, datlen);
      }
    } else {
      ghost var cs := b.chains;
      result := Resize(b, chain, owner, datlen, k);
      i := k;
      OwnerSame(cs, k, result, b.lwd);
    }
  }

  /** Replacing the chunk at the cursor does not change what leads to it. */
  lemma OwnerSame(cs: seq<Chain>, k: nat, c: Chain, i: nat)
    requires i <= k < |cs|
    ensures Owner(cs[k := c], i) == Owner(cs, i)
  {
  }

  /** `evbuffer_chain_insert_new` (buffer.c:330-337) */
  method InsertEmpty(b: EvBuffer, datlen: nat) returns (result: Chain, ghost i: nat)
    requires b.Valid()
    modifies b, Nodes(b.chains)`next
    ensures b.Valid() && b.Contents() == old(b.Contents()) && Grown(old(b.chains), b.chains)
    ensures b.lwd <= i == |b.chains| - 1 && result == b.chains[i] && result.SpaceLen() >= datlen
    ensures b.freezeStart == old(b.freezeStart) && b.freezeEnd == old(b.freezeEnd)
  {
    hide Flat, Path, Held, Distinct, Cursor, Owner, EvBuffer.Shape;
    result := b.InsertNew(datlen, []);
    b.AtCursor();
    i := |b.chains| - 1;
  }

  /** What `evbuffer_reserve_space` returns; the source aborts where an assertion of it fails. */
  datatype Reservation = Refused | Aborted | Reserved(vecs: seq<Vec>)

  /**
   * The position `i` of the chunk that a single vector is for: the one behind the first chunk with space
   * if that is passed over, and otherwise the first one with space or the last one.
   */
  ghost predicate OneChosen(i: nat, chunks: nat, start: nat, takesNext: bool, chunksBefore: nat, startBefore: nat) {
    if takesNext then chunks == chunksBefore && start == startBefore && i == start + 1
    else i == start || i == chunks - 1
  }

  /** `evbuffer_reserve_space` (buffer.c:671-701) for a size that is not negative */
  method ReserveSpace(b: EvBuffer, size: nat, n: int) returns (r: Reservation)
    requires b.Valid()
    modifies b, Nodes(b.chains), Areas(b.chains)
    ensures b.Valid() && b.Contents() == old(b.Contents()) && Grown(old(b.chains), b.chains)
    ensures b.freezeStart == old(b.freezeStart) && b.freezeEnd == old(b.freezeEnd)
    ensures r.Refused? <==> old(b.freezeEnd) || n < 1
    ensures r.Aborted? <==> !old(b.freezeEnd) && n >= 2 && size == 0 && old(Full(b))
    ensures r.Reserved? ==> |r.vecs| <= n && Total(r.vecs) >= size
    ensures r.Reserved? && n >= 2 ==>
      Start(b.chains, b.lwd) <= |b.chains| && Handed(b.chains[Start(b.chains, b.lwd)..], r.vecs)
    ensures r.Reserved? && n == 1 ==> |r.vecs| == 1
    ensures r.Reserved? && n == 1 ==>
      exists i: nat :: b.lwd <= i < |b.chains| && Handed(b.chains[i..], r.vecs)
        && OneChosen(i, |b.chains|, Start(b.chains, b.lwd),
                     old(TakesNext(b, size)), old(|b.chains|), old(Start(b.chains, b.lwd)))
    // the effect of `evbuffer_expand_fast_` while there are fewer chunks behind the data than vectors
    ensures r.Reserved? && n >= 2 && old(b.chains != [] && |b.chains| - b.lwd < n) ==>
      b.lwd == old(b.lwd) && b.chains != [] && Ready(b.chains, b.lwd, size, n)
    ensures r.Reserved? && n >= 2 && old(b.chains != [] && |b.chains| - b.lwd < n) ==>
      (b.chains == old(b.chains) && b.data == old(b.data))
      || (b.data == old(b.data) + [[]] && OneMore(b.chains, old(b.chains), size))
    ensures r.Reserved? && n >= 2 && old(b.chains != [] && |b.chains| - b.lwd < n) ==>
      forall c :: c in old(b.chains) ==> c.SpaceLen() >= old(c.SpaceLen())
    ensures r.Reserved? && n >= 2 && old(b.chains != [] && |b.chains| - b.lwd < n && b.data[b.lwd] != []) ==>
      b.chains[b.lwd].SpaceLen() == old(b.chains[b.lwd].SpaceLen())
  {
    hide Flat, Path, Held, Distinct, Cursor, Owner, EvBuffer.Shape, Ready, Handed, Start, Total, Full;
    if b.freezeEnd || n < 1 {
      return Refused;
    }
    if n == 1 {
      var chain;
      ghost var i;
      chain, i := ExpandSingle(b, size);
      var v := Vec(chain, chain.misalign + chain.off, chain.SpaceLen());
      TotalMore([], v);
      HandedNone(b.chains, i);
      assert [v] == [] + [v];
      HandedOne(b.chains, i, v);
      return Reserved([v]);
    }
    ExpandFast(b, size, n);
    var chain := FirstSpace(b);
    b.AtCursor();
    StartInList(b.chains, b.lwd);
    if size > 0 {
      b.Parts();
      SomeRoom(b.chains, b.data, b.lwd, size, n);
    }
    if chain == null {
      return Aborted;
    }
    var vecs := SetupVecs(b, size, n);
    r := Reserved(vecs);
  }

  lemma StartInList(cs: seq<Chain>, lwd: nat)
    requires lwd < |cs|
    ensures Start(cs, lwd) <= |cs|
  {
  }

  lemma SomeRoom(cs: seq<Chain>, ds: seq<seq<char>>, lwd: nat, datlen: nat, n: nat)
    requires Held(cs, ds) && Ready(cs, lwd, datlen, n) && datlen > 0 && lwd <= |cs|
    ensures Start(cs, lwd) < |cs|
  {
    var e: nat, used: nat, avail: nat :| Counted(cs, lwd, e, used, avail) && used <= n && avail >= datlen;
    HandedNone(cs, Start(cs, lwd));
    MoreRoom(cs, ds, lwd, datlen, n, 0);
  }

  lemma HandedOne(cs: seq<Chain>, i: nat, v: Vec)
    requires i < |cs| && cs[i].SpaceLen() >= 0 && v == Vec(cs[i], cs[i].misalign + cs[i].off, cs[i].SpaceLen())
    ensures Handed(cs[i..], [v])
  {
  }

  /** The same addresses, with lengths that are not larger. */
  ghost predicate Shorter(less: seq<Vec>, vecs: seq<Vec>) {
    |less| <= |vecs| && forall j :: 0 <= j < |less| ==>
      less[j].chain == vecs[j].chain && less[j].at == vecs[j].at && less[j].len <= vecs[j].len
  }

  /** Whatever part of the space reserved in two or more vectors is filled, the commit accepts it. */
  lemma CommitAccepts(b: EvBuffer, vecs: seq<Vec>, less: seq<Vec>)
    requires b.Valid() && Start(b.chains, b.lwd) <= |b.chains|
    requires Handed(b.chains[Start(b.chains, b.lwd)..], vecs) && Shorter(less, vecs)
    ensures Accepted(b, less)
  {
    hide Flat, Path, Held, Distinct, Cursor, Owner, EvBuffer.Shape, Start;
  }

  /**
   * With a single vector, for the chunk at position `i`, the commit is accepted exactly when that
   * chunk is the last one or the first with space, whatever part of it is filled.
   */
  lemma SingleCommitAccepted(b: EvBuffer, i: nat, v: Vec, filled: Vec)
    requires b.Valid() && b.lwd <= i < |b.chains| && Handed(b.chains[i..], [v]) && Shorter([filled], [v])
    ensures Accepted(b, [filled]) <==> i == |b.chains| - 1 || i == Start(b.chains, b.lwd)
  {
    hide Flat, Path, Held, Cursor, Owner, EvBuffer.Shape;
    var k := Start(b.chains, b.lwd);
    b.Lengths();
    b.AtCursor();
    assert [filled][0] == filled && [v][0] == v;
    assert b.chains[i..][0] == b.chains[i];
    if k < |b.chains| {
      assert b.chains[k..][0] == b.chains[k];
    }
  }

  /** The caller writes into free space; no data changes. */
  method WriteFree(ghost cs: seq<Chain>, ghost ds: seq<seq<char>>, ghost k: nat, chain: Chain, at: nat, s: seq<char>)
    requires Distinct(cs) && Held(cs, ds) && k < |cs| && chain == cs[k]
    requires at == chain.misalign + chain.off && |s| <= chain.SpaceLen()
    modifies chain.buffer
    ensures Held(cs, ds) && chain.buffer[at..at + |s|] == s
  {
    forall i | 0 <= i < |s| {
      chain.buffer[at + i] := s[i];
    }
    assert chain.Data() == old(chain.Data());
  }

  /** Bytes are written at the next address. */
  method FillOne(b: EvBuffer, vecs: seq<Vec>, done: seq<Vec>, rest: seq<char>, ghost k: nat) returns (w: Vec)
    requires b.Valid() && k <= |b.chains| && Handed(b.chains[k..], vecs) && Shorter(done, vecs)
    requires |done| < |vecs| && Bounded(done)
    modifies Areas(b.chains)
    ensures b.Valid()
    ensures var v := vecs[|done|]; w == v.(len := if |rest| <= v.len then |rest| else v.len)
    ensures Bounded(done + [w]) && Filled(done + [w]) == old(Filled(done)) + rest[..w.len]
  {
    hide Flat, Path, Held, Distinct, Cursor, Owner, EvBuffer.Shape, Filled, Handed;
    b.Lengths();
    b.Parts();
    HandedAt(b.chains, k, vecs, done);
    b.Chunk(k + |done|);
    var v := vecs[|done|];
    w := v.(len := if |rest| <= v.len then |rest| else v.len);
    WriteFree(b.chains, b.data, k + |done|, v.chain, v.at, rest[..w.len]);
    b.Whole();
    FilledNext(done, w);
  }

  /** Bytes are written at the addresses handed out, in order, as many as needed. */
  method FillVecs(b: EvBuffer, vecs: seq<Vec>, s: seq<char>, ghost k: nat) returns (done: seq<Vec>)
    requires b.Valid() && k <= |b.chains| && Handed(b.chains[k..], vecs) && |s| <= Total(vecs)
    modifies Areas(b.chains)
    ensures b.Valid() && Shorter(done, vecs)
    ensures Bounded(done) && Filled(done) == s
  {
    hide Flat, Path, Held, Distinct, Cursor, Owner, EvBuffer.Valid, Total, Filled, Handed;
    done := [];
    var rest := s;
    FilledNone();
    assert vecs[..0] == [];
    TotalNone();
    while rest != []
      invariant b.Valid() && |done| <= |vecs| && Shorter(done, vecs)
      invariant Bounded(done) && Filled(done) + rest == s
      invariant rest != [] ==> |s| - |rest| == Total(vecs[..|done|])
      decreases |rest|, |vecs| - |done|
    {
      TotalUpTo(vecs, |done|);
      var w := FillOne(b, vecs, done, rest, k);
      assert rest[..w.len] + rest[w.len..] == rest;
      Assoc(Filled(done), rest[..w.len], rest[w.len..]);
      done, rest := done + [w], rest[w.len..];
    }
  }

  lemma TotalNone()
    ensures Total([]) == 0
  {
  }

  lemma {:induction false} TotalUpTo(vecs: seq<Vec>, j: nat)
    requires j <= |vecs|
    ensures j == |vecs| ==> vecs[..j] == vecs
    ensures j < |vecs| ==> Total(vecs[..j + 1]) == Total(vecs[..j]) + vecs[j].len
  {
    if j < |vecs| {
      assert vecs[..j + 1] == vecs[..j] + [vecs[j]];
      TotalMore(vecs[..j], vecs[j]);
    }
  }

  /** The next address handed out is that of a chunk which the earlier ones do not concern. */
  lemma HandedAt(cs: seq<Chain>, k: nat, vecs: seq<Vec>, done: seq<Vec>)
    requires Distinct(cs) && k <= |cs| && Handed(cs[k..], vecs) && Shorter(done, vecs)
    ensures var j := |done|; j < |vecs| ==>
      k + j < |cs| && vecs[j].chain == cs[k + j] && vecs[j].at == cs[k + j].misalign + cs[k + j].off
      && vecs[j].len == cs[k + j].SpaceLen()
      && forall v :: v in done ==> v.chain.buffer != cs[k + j].buffer
  {
    var j := |done|;
    if j < |vecs| {
      assert cs[k..][j] == cs[k + j];
      forall v | v in done
        ensures v.chain.buffer != cs[k + j].buffer
      {
        var i :| 0 <= i < |done| && done[i] == v;
        assert vecs[i].chain == cs[k..][i] == cs[k + i];
      }
    }
  }

  lemma FilledNext(vecs: seq<Vec>, v: Vec)
    requires Bounded(vecs) && v.at + v.len <= v.chain.buffer.Length
    ensures Bounded(vecs + [v]) && Filled(vecs + [v]) == Filled(vecs) + v.chain.buffer[v.at..v.at + v.len]
  {
    assert DropLast(vecs + [v]) == vecs;
  }

  /** Bytes appended by reserving space in two or more vectors, filling it and committing it. */
  method AppendReserved(b: EvBuffer, s: seq<char>, n: int) returns (ok: bool)
    requires b.Valid() && n >= 2
    modifies b, Nodes(b.chains), Areas(b.chains)
    ensures b.Valid() && Grown(old(b.chains), b.chains)
    ensures ok <==> !old(b.freezeEnd) && !(s == [] && old(Full(b)))
    ensures b.Contents() == if ok then old(b.Contents()) + s else old(b.Contents())
    ensures b.freezeStart == old(b.freezeStart) && b.freezeEnd == old(b.freezeEnd)
  {
    hide Flat, Path, Held, Distinct, Cursor, Owner, EvBuffer.Shape, Ready, Handed, Start, Total, Full, Filled, Accepted, Placed;
    var r := ReserveSpace(b, |s|, n);
    if !r.Reserved? {
      return false;
    }
    ghost var k := Start(b.chains, b.lwd);
    var done := FillVecs(b, r.vecs, s, k);
    CommitAccepts(b, r.vecs, done);
    var result := CommitSpace(b, done);
    ok := true;
  }

  /** What decides, before the call, that space reserved in a single vector will be refused at the commit. */
  ghost predicate WillBeRefused(b: EvBuffer, size: nat)
    requires b.Valid()
    reads b, set c | c in b.chains, set c | c in b.chains :: c.buffer
  {
    TakesNext(b, size) && Start(b.chains, b.lwd) + 2 < |b.chains|
  }

  /** A reservation in a single vector. */
  method ReserveOne(b: EvBuffer, size: nat) returns (r: Reservation, ghost i: nat)
    requires b.Valid()
    modifies b, Nodes(b.chains), Areas(b.chains)
    ensures b.Valid() && b.Contents() == old(b.Contents()) && Grown(old(b.chains), b.chains)
    ensures b.freezeStart == old(b.freezeStart) && b.freezeEnd == old(b.freezeEnd)
    ensures r.Reserved? <==> !b.freezeEnd
    ensures r.Reserved? ==> |r.vecs| == 1 && r.vecs == [r.vecs[0]] && size <= r.vecs[0].len
    ensures r.Reserved? ==> b.lwd <= i < |b.chains| && Handed(b.chains[i..], r.vecs)
    ensures r.Reserved? ==> OneChosen(i, |b.chains|, Start(b.chains, b.lwd),
                                      old(TakesNext(b, size)), old(|b.chains|), old(Start(b.chains, b.lwd)))
  {
    hide Flat, Path, Held, Distinct, Cursor, Owner, EvBuffer.Shape, Handed, Start, Total, TakesNext;
    hide Ready, OneMore, Full, OneChosen;
    r := ReserveSpace(b, size, 1);
    i := 0;
    if r.Reserved? {
      i :| b.lwd <= i < |b.chains| && Handed(b.chains[i..], r.vecs)
        && OneChosen(i, |b.chains|, Start(b.chains, b.lwd),
                     old(TakesNext(b, size)), old(|b.chains|), old(Start(b.chains, b.lwd)));
      TotalOne(r.vecs[0]);
    }
  }

  /** Bytes are written at a single address. */
  method FillFirst(b: EvBuffer, v: Vec, s: seq<char>, ghost i: nat) returns (w: Vec)
    requires b.Valid() && i <= |b.chains| && Handed(b.chains[i..], [v]) && |s| <= v.len
    modifies Areas(b.chains)
    ensures b.Valid() && Shorter([w], [v]) && Bounded([w]) && Filled([w]) == s
  {
    hide Flat, Path, Held, Distinct, Cursor, Owner, EvBuffer.Shape, Filled, Handed;
    FilledNone();
    w := FillOne(b, [v], [], s, i);
    assert [] + [w] == [w] && [] + s[..|s|] == s && [v][0] == v;
  }

  /** The vector is filled and committed. */
  method FillAndCommit(b: EvBuffer, v: Vec, s: seq<char>, ghost i: nat) returns (ok: bool)
    requires b.Valid() && !b.freezeEnd && b.lwd <= i < |b.chains| && Handed(b.chains[i..], [v]) && |s| <= v.len
    modifies b`data, b`lwd, b`lastWithDatap, b`totalLen, Nodes(b.chains)`off, Areas(b.chains)
    ensures b.Valid()
    ensures ok <==> i == |b.chains| - 1 || i == old(Start(b.chains, b.lwd))
    ensures b.Contents() == if ok then old(b.Contents()) + s else old(b.Contents())
  {
    hide Flat, Path, Held, Distinct, Cursor, Owner, EvBuffer.Shape, Handed, Start, Filled, Accepted;
    var w := FillFirst(b, v, s, i);
    SingleCommitAccepted(b, i, v, w);
    var result := CommitSpace(b, [w]);
    ok := result == 0;
  }

  /**
   * Bytes appended by reserving space in a single vector, filling it and committing it. The commit is
   * refused exactly when the reservation passes over the first chunk with space, and the chunk behind
   * that is not the last one.
   */
  method AppendInOne(b: EvBuffer, s: seq<char>) returns (ok: bool)
    requires b.Valid()
    modifies b, Nodes(b.chains), Areas(b.chains)
    ensures b.Valid() && Grown(old(b.chains), b.chains)
    ensures ok <==> !old(b.freezeEnd) && !old(WillBeRefused(b, |s|))
    ensures b.Contents() == if ok then old(b.Contents()) + s else old(b.Contents())
    ensures b.freezeStart == old(b.freezeStart) && b.freezeEnd == old(b.freezeEnd)
  {
    hide Flat, Path, Held, Distinct, Cursor, Owner, EvBuffer.Shape, Handed, Start, TakesNext;
    var r, i := ReserveOne(b, |s|);
    ok := false;
    if r.Reserved? {
      ok := FillAndCommit(b, r.vecs[0], s, i);
    }
  }

  /** A reservation of no bytes in two vectors, made when the only chunk is full, runs into the assertion. */
  method FullChunkAborts() returns (r: Reservation)
    ensures r.Aborted?
  {
    var b := new EvBuffer();
    var s := seq(976, _ => 'x');
    var _ := b.Add(s);
    OnlyChunk(b, s);
    r := ReserveSpace(b, 0, 2);
  }

  lemma OnlyChunk(b: EvBuffer, s: seq<char>)
    requires b.Valid() && |b.chains| == 1 && b.Contents() == s
    ensures b.data == [s]
  {
    FlatOne(b.data[0]);
    assert b.data == [b.data[0]];
  }

  /** Space is never more than is free in the chunks from the cursor on. */
  lemma ReadyNeedsRoom(cs: seq<Chain>, ds: seq<seq<char>>, lwd: nat, datlen: nat, n: nat)
    requires Held(cs, ds) && Ready(cs, lwd, datlen, n) && lwd < |cs|
    ensures datlen <= Room(cs[lwd..])
  {
    var e: nat, used: nat, avail: nat :| Counted(cs, lwd, e, used, avail) && used <= n && avail >= datlen;
    var k := Start(cs, lwd);
    RoomGrows(cs, ds, k, e, |cs|);
    assert cs[k..|cs|] == cs[k..];
    if k == lwd + 1 {
      assert cs[lwd..][1..] == cs[k..];
    }
  }

  /** A chunk with 76 bytes left. */
  method NearlyFull() returns (b: EvBuffer)
    ensures b.Valid() && fresh(b) && (forall c :: c in b.chains ==> fresh(c) && fresh(c.buffer))
    ensures |b.chains| == 1 && b.lwd == 0 && !b.freezeEnd && b.data[0] != []
    ensures b.chains[0].off == 900 && b.chains[0].SpaceLen() == 76 && b.chains[0].buffer.Length == 976
  {
    hide Flat, Path, Held, Distinct, Cursor, Owner, EvBuffer.Shape, Capacity;
    b := new EvBuffer();
    var s := seq(900, _ => 'x');
    var _ := b.Add(s);
    CapacityOf900();
    OnlyChunk(b, s);
    b.Chunk(0);
    b.AtCursor();
  }

  lemma CapacityOf900()
    ensures Capacity(900) == 976
  {
  }

  /** A reservation that the one or two chunks at hand cannot serve adds one. */
  method Reserving(b: EvBuffer, size: nat, n: nat)
    requires b.Valid() && !b.freezeEnd && size > 0 && 1 <= |b.chains| <= 2 && b.lwd == 0 && |b.chains| < n
    requires b.data[0] != []
    requires b.chains[0].SpaceLen() + (if |b.chains| == 2 then b.chains[1].buffer.Length else 0) < size
    modifies b, Nodes(b.chains), Areas(b.chains)
    ensures b.Valid() && Grown(old(b.chains), b.chains) && b.lwd == 0 && !b.freezeEnd
    ensures OneMore(b.chains, old(b.chains), size) && b.data == old(b.data) + [[]]
    ensures b.chains[0].SpaceLen() == old(b.chains[0].SpaceLen())
    ensures forall c :: c in old(b.chains) ==> c.SpaceLen() >= old(c.SpaceLen())
  {
    hide Flat, Path, Held, Distinct, Cursor, Owner, EvBuffer.Shape, Handed, Start, Total, TakesNext, Ready, OneMore, Full, Room;
    b.Lengths();
    var r := ReserveSpace(b, size, n);
    b.Lengths();
    b.Parts();
    if b.chains == old(b.chains) {
      ReadyNeedsRoom(b.chains, b.data, 0, size, n);
      assert b.chains[0..] == b.chains;
      RoomOfTwo(b.chains, b.data);
    }
  }

  lemma RoomOfTwo(cs: seq<Chain>, ds: seq<seq<char>>)
    requires Held(cs, ds) && 1 <= |cs| <= 2
    ensures Room(cs) <= cs[0].SpaceLen() + if |cs| == 2 then cs[1].buffer.Length else 0
  {
    if |cs| == 2 {
      assert cs[1..] == [cs[1]];
      RoomOne(cs[1]);
    } else {
      assert cs == [cs[0]];
      RoomOne(cs[0]);
    }
  }

  /**
   * Space reserved in a single vector that is refused at the commit: after 900 bytes were added and
   * space was reserved in three and in four vectors.
   */
  method SingleVectorRefused() returns (ok: bool)
    ensures !ok
  {
    hide Flat, Path, Held, Distinct, Cursor, Owner, EvBuffer.Shape;
    var b := NearlyFull();
    b.Lengths();
    b.Chunk(0);
    Reserving(b, 1000, 3);
    b.Lengths();
    ghost var next := b.chains[1];
    assert next == Last(b.chains);
    Reserving(b, 5000, 4);
    b.Lengths();
    b.Chunk(0);
    assert b.chains[1] == next;
    assert TakesNext(b, 100);
    ok := AppendInOne(b, seq(100, _ => 'y'));
  }

  lemma TotalOne(v: Vec)
    ensures Total([v]) == v.len
  {
    assert DropLast([v]) == [];
  }
}
