/**
 * libevent's evbuffer (deps/libevent/buffer.c): a linked list of chunks that behaves as one
 * byte sequence.
 *
 * `last_with_datap`, a pointer to the `next` field (or to `first`) that leads to the last
 * non-empty chunk, is modelled as the chunk owning that field, or null for `first`. The ghost
 * fields name the list (`chains`), what each chunk holds (`data`) and the position `lwd` that
 * `last_with_datap` leads to.
 */
module Buffers {
  import opened Common
  import opened Chains

  const EV_SIZE_MAX := 0xFFFF_FFFF_FFFF_FFFF
  const EVBUFFER_CHAIN_MAX_AUTO_SIZE := 4096

  ghost function Nodes(cs: seq<Chain>): set<Chain> {
    set c | c in cs
  }

  ghost function Areas(cs: seq<Chain>): set<array<char>> {
    set c | c in cs :: c.buffer
  }

  /** No chunk occurs twice, and no two share memory. */
  ghost predicate Distinct(cs: seq<Chain>) {
    forall i, j :: 0 <= i < j < |cs| ==> cs[i] != cs[j] && cs[i].buffer != cs[j].buffer
  }

  /** Where a walk over `cs` followed by `end` starts. */
  ghost function Head(cs: seq<Chain>, end: Chain?): Chain? {
    if cs == [] then end else cs[0]
  }

  /** Two lists of chunks that share nothing. */
  ghost predicate Apart(a: seq<Chain>, b: seq<Chain>) {
    forall c, d :: c in a && d in b ==> c != d && c.buffer != d.buffer
  }

  /** The i-th chunk, or null behind the end of the list. */
  ghost function At(cs: seq<Chain>, i: nat): Chain? {
    if i < |cs| then cs[i] else null
  }

  /** The owner of the field that leads to the i-th chunk; null stands for `first`. */
  ghost function Owner(cs: seq<Chain>, i: nat): Chain?
    requires i <= |cs|
  {
    if i == 0 then null else cs[i - 1]
  }

  lemma OwnerIn(cs: seq<Chain>, i: nat)
    requires 0 < i <= |cs|
    ensures Owner(cs, i) == cs[i - 1] && cs[i - 1] in Nodes(cs)
  {
  }

  lemma OwnerShift(chain: Chain, cs: seq<Chain>, i: nat)
    requires i <= |cs|
    ensures Owner([chain] + cs, 0) == null && (Owner(cs, i) == null <==> i == 0)
    ensures Owner([chain] + cs, i + 1) == if i == 0 then chain else Owner(cs, i)
  {
  }

  lemma OwnerSuffix(cs: seq<Chain>, k: nat, i: nat)
    requires k <= i <= |cs|
    ensures Owner(cs[k..], i - k) == if k == i then null else Owner(cs, i)
  {
  }

  lemma OwnerJoin(a: seq<Chain>, b: seq<Chain>, i: nat)
    requires i <= |b|
    ensures Owner(a + b, |a| + i) == if i == 0 then Owner(a, |a|) else Owner(b, i)
    ensures Owner(b, i) == null <==> i == 0
  {
  }

  /** Following `next` through the chunks leads to `end`. */
  ghost predicate Path(cs: seq<Chain>, end: Chain?)
    reads (set c | c in cs)`next
  {
    forall i {:trigger cs[i].next} :: 0 <= i < |cs| ==> cs[i].next == Head(cs[i + 1..], end)
  }

  /** Chunk i holds `ds[i]`. */
  ghost predicate Held(cs: seq<Chain>, ds: seq<seq<char>>)
    reads (set c | c in cs)`off, (set c | c in cs)`misalign, set c | c in cs :: c.buffer
  {
    && |ds| == |cs|
    && forall i :: 0 <= i < |cs| ==> cs[i].Fits() && cs[i].Data() == ds[i]
  }

  lemma DistinctParts(a: seq<Chain>, b: seq<Chain>)
    requires Distinct(a + b)
    ensures Distinct(a) && Distinct(b) && Apart(a, b)
    ensures a != [] ==> Last(a) !in b
  {
    assert forall i :: 0 <= i < |a| ==> a[i] == (a + b)[i];
    assert forall i :: 0 <= i < |b| ==> b[i] == (a + b)[|a| + i];
  }

  lemma ApartSwap(a: seq<Chain>, b: seq<Chain>)
    requires Apart(a, b)
    ensures Apart(b, a)
  {
  }

  lemma ApartRest(a: seq<Chain>, b: seq<Chain>, k: nat)
    requires Apart(a, b) && k <= |b|
    ensures Apart(a, b[k..])
  {
    assert forall d :: d in b[k..] ==> d in b;
  }

  lemma DistinctOne(c: Chain)
    ensures Distinct([c])
  {
  }

  lemma DistinctJoin(a: seq<Chain>, b: seq<Chain>)
    requires Distinct(a) && Distinct(b) && Apart(a, b)
    ensures Distinct(a + b)
  {
    forall i, j | 0 <= i < j < |a + b|
      ensures (a + b)[i] != (a + b)[j] && (a + b)[i].buffer != (a + b)[j].buffer
    {
      if i < |a| <= j {
        assert a[i] in a && b[j - |a|] in b;
      }
    }
  }

  lemma PathCut(cs: seq<Chain>, k: nat, end: Chain?)
    requires k <= |cs| && Path(cs, end)
    ensures Path(cs[..k], Head(cs[k..], end)) && Path(cs[k..], end)
  {
    forall i | 0 <= i < k
      ensures cs[..k][i].next == Head(cs[..k][i + 1..], Head(cs[k..], end))
    {
      assert cs[..k][i] == cs[i];
    }
    forall i | 0 <= i < |cs| - k
      ensures cs[k..][i].next == Head(cs[k..][i + 1..], end)
    {
      assert cs[k..][i] == cs[k + i] && cs[k..][i + 1..] == cs[k + i + 1..];
    }
  }

  lemma PathJoin(a: seq<Chain>, b: seq<Chain>, end: Chain?)
    requires Path(a, Head(b, end)) && Path(b, end)
    ensures Path(a + b, end)
  {
    forall i | 0 <= i < |a + b|
      ensures (a + b)[i].next == Head((a + b)[i + 1..], end)
    {
      if i < |a| {
        assert a[i].next == Head(a[i + 1..], Head(b, end));
      } else {
        assert b[i - |a|].next == Head(b[i - |a| + 1..], end);
      }
    }
  }

  lemma HeldCut(cs: seq<Chain>, ds: seq<seq<char>>, k: nat)
    requires Held(cs, ds) && k <= |cs|
    ensures |ds| == |cs|
    ensures Held(cs[..k], ds[..k]) && Held(cs[k..], ds[k..])
  {
  }

  lemma NotIn(tmp: Chain, cs: seq<Chain>)
    requires Apart([tmp], cs)
    ensures tmp !in cs
  {
    assert tmp in [tmp];
  }

  /** A list with one more chunk in front. */
  lemma InFront(tmp: Chain, d: seq<char>, cs: seq<Chain>, ds: seq<seq<char>>)
    requires Path(cs, null) && Held(cs, ds) && Distinct(cs) && Apart([tmp], cs)
    requires tmp.next == Head(cs, null) && tmp.Fits() && tmp.Data() == d
    ensures Path([tmp] + cs, null) && Held([tmp] + cs, [d] + ds) && Distinct([tmp] + cs)
  {
    hide Path, Distinct;
    PathOne(tmp);
    PathJoin([tmp], cs, null);
    HeldJoin([tmp], [d], cs, ds);
    DistinctOne(tmp);
    DistinctJoin([tmp], cs);
  }

  /** A list cut in two, neither part being empty. */
  lemma TwoParts(cs: seq<Chain>, ds: seq<seq<char>>, k: nat)
    requires Distinct(cs) && Path(cs, null) && Held(cs, ds) && 0 < k < |cs|
    ensures Path(cs[..k], cs[k]) && Path(cs[k..], null)
    ensures Held(cs[..k], ds[..k]) && Held(cs[k..], ds[k..])
    ensures Distinct(cs[..k]) && Distinct(cs[k..])
    ensures Last(cs[..k]) == cs[k - 1] && cs[k - 1] !in cs[k..]
    ensures Head(cs[k..], null) == cs[k]
  {
    hide Path, Held;
    PathCut(cs, k, null);
    HeldCut(cs, ds, k);
  }

  lemma HeldJoin(a: seq<Chain>, da: seq<seq<char>>, b: seq<Chain>, db: seq<seq<char>>)
    requires Held(a, da) && Held(b, db)
    ensures Held(a + b, da + db)
  {
  }

  /** Chunks of `after` that are not in `before` were allocated in between. */
  twostate predicate Grown(before: seq<Chain>, new after: seq<Chain>) {
    forall c :: c in after ==> c in before || (fresh(c) && fresh(c.buffer))
  }

  /**
   * The invariant stated in words at evbuffer-internal.h:86-98: position `lwd` is the last
   * chunk with data, or the first chunk when there is none.
   */
  ghost predicate Cursor(data: seq<seq<char>>, lwd: nat) {
    && (lwd == 0 || lwd < |data|)
    && (lwd > 0 ==> data[lwd] != [])
    && forall i :: lwd < i < |data| ==> data[i] == []
  }

  lemma {:induction false} FlatOfEmpties(data: seq<seq<char>>)
    requires forall i :: 0 <= i < |data| ==> data[i] == []
    ensures Flat(data) == []
  {
    if data != [] {
      FlatOfEmpties(data[1..]);
    }
  }

  lemma FlatSplit(data: seq<seq<char>>, k: nat)
    requires k <= |data|
    ensures Flat(data) == Flat(data[..k]) + Flat(data[k..])
  {
    hide Flat;
    FlatAppend(data[..k], data[k..]);
    assert data[..k] + data[k..] == data;
  }

  lemma FlatTail(data: seq<seq<char>>, k: nat)
    requires k < |data|
    ensures Flat(data[k..]) == data[k] + Flat(data[k + 1..])
  {
    assert data[k..][0] == data[k] && data[k..][1..] == data[k + 1..];
  }

  lemma FlatFront(data: seq<seq<char>>, k: nat)
    requires k < |data|
    ensures Flat(data[..k + 1]) == Flat(data[..k]) + data[k]
  {
    FlatAppend(data[..k], [data[k]]);
    FlatOne(data[k]);
    assert data[..k] + [data[k]] == data[..k + 1];
  }

  lemma FlatAt(data: seq<seq<char>>, k: nat)
    requires k < |data|
    ensures Flat(data) == Flat(data[..k]) + data[k] + Flat(data[k + 1..])
    ensures Flat(data[k..]) == data[k] + Flat(data[k + 1..])
    ensures Flat(data[..k + 1]) == Flat(data[..k]) + data[k]
  {
    hide Flat;
    FlatSplit(data, k);
    FlatTail(data, k);
    FlatFront(data, k);
    Assoc(Flat(data[..k]), data[k], Flat(data[k + 1..]));
  }

  /** The first bytes are those of the first `k` chunks and some of the next one's. */
  lemma PrefixUpTo(data: seq<seq<char>>, k: nat, rest: nat)
    requires k <= |data| && (rest > 0 ==> k < |data| && rest <= |data[k]|)
    ensures |Flat(data[..k])| + rest <= |Flat(data)|
    ensures Flat(data)[..|Flat(data[..k])| + rest] == Flat(data[..k]) + if rest > 0 then data[k][..rest] else []
  {
    hide Flat;
    FlatSplit(data, k);
    if rest > 0 {
      FlatAt(data, k);
    }
  }

  /** Everything lies in front of the end of the last chunk with data. */
  lemma AllBeforeCursor(data: seq<seq<char>>, lwd: nat)
    requires Cursor(data, lwd) && lwd < |data|
    ensures Flat(data) == Flat(data[..lwd]) + data[lwd]
    ensures Flat(data) == Flat(data[..lwd + 1])
    ensures Flat(data) != [] ==> data[lwd] != []
  {
    FlatAt(data, lwd);
    FlatOfEmpties(data[lwd + 1..]);
    if data[lwd] == [] {
      assert lwd == 0 && data[..0] == [];
    }
  }

  /** Bytes appended to the last chunk with data are appended to the whole. */
  lemma AppendAtCursor(data: seq<seq<char>>, lwd: nat, s: seq<char>)
    requires Cursor(data, lwd) && lwd < |data|
    ensures var d := data[lwd := data[lwd] + s]; Cursor(d, lwd) && Flat(d) == Flat(data) + s
  {
    var d := data[lwd := data[lwd] + s];
    AllBeforeCursor(data, lwd);
    AllBeforeCursor(d, lwd);
    assert d[..lwd] == data[..lwd];
    Assoc(Flat(data[..lwd]), data[lwd], s);
  }

  /** Behind the last chunk with data there are only empty chunks, so cutting there loses nothing. */
  lemma CutBehind(data: seq<seq<char>>, lwd: nat, d: seq<seq<char>>)
    requires Cursor(data, lwd) && lwd < |data| && data[lwd] != [] && d == data[..lwd + 1]
    ensures Cursor(d, lwd) && Flat(d) == Flat(data) && d[lwd] == data[lwd]
  {
    hide Flat;
    AllBeforeCursor(data, lwd);
    assert |d| == lwd + 1 && d[lwd] == data[lwd];
  }

  /** If the chunk at the cursor is empty, all are. */
  lemma NoDataAtAll(data: seq<seq<char>>, lwd: nat)
    requires Cursor(data, lwd) && (lwd < |data| ==> data[lwd] == [])
    ensures lwd == 0 && Flat(data) == []
  {
    FlatOfEmpties(data);
  }

  lemma NoChunks(lwd: nat, d: seq<seq<char>>)
    requires lwd == 0 && d == []
    ensures Cursor(d, lwd) && Flat(d) == []
  {
  }

  lemma AllEmptyFrom(data: seq<seq<char>>, lwd: nat, k: nat)
    requires Cursor(data, lwd)
    requires k == (if lwd < |data| && data[lwd] != [] then lwd + 1 else lwd)
    ensures k <= |data| && Cursor(data[..k], lwd)
    ensures Flat(data[..k]) == Flat(data)
    ensures Flat(data) != [] ==> lwd < k
    ensures k > 0 ==> data[k - 1] != []
  {
    hide Flat, Cursor;
    if lwd < k {
      CutBehind(data, lwd, data[..k]);
    } else {
      NoDataAtAll(data, lwd);
      NoChunks(lwd, data[..k]);
    }
  }

  /** Bytes put before the first chunk's data. */
  lemma PutInFront(data: seq<seq<char>>, lwd: nat, s: seq<char>)
    requires Cursor(data, lwd) && data != []
    ensures var d := data[0 := s + data[0]]; Cursor(d, lwd) && Flat(d) == s + Flat(data)
  {
    Assoc(s, data[0], Flat(data[1..]));
  }

  /** A chunk put before all others: the last one with data is the same chunk, unless there was none. */
  lemma PushInFront(data: seq<seq<char>>, lwd: nat, s: seq<char>)
    requires Cursor(data, lwd) && data != []
    ensures Cursor([s] + data, if lwd == 0 && data[0] == [] then 0 else lwd + 1)
    ensures Flat([s] + data) == s + Flat(data)
  {
    FlatCons(s, data);
  }

  /** Chunks before position `k` are dropped. */
  lemma DropFront(data: seq<seq<char>>, lwd: nat, k: nat)
    requires Cursor(data, lwd) && k <= lwd < |data|
    ensures Cursor(data[k..], lwd - k)
    ensures Flat(data) == Flat(data[..k]) + Flat(data[k..])
  {
    FlatSplit(data, k);
  }

  /** The first chunk loses `n` bytes, but not the last byte if others hold data. */
  lemma SkipInFront(data: seq<seq<char>>, lwd: nat, n: nat)
    requires Cursor(data, lwd) && data != [] && n <= |data[0]|
    ensures var d := data[0 := data[0][n..]]; Cursor(d, lwd) && Flat(d) == Flat(data)[n..]
  {
    assert data[0 := data[0][n..]][1..] == data[1..];
  }

  /** What is left after `len` bytes, all of chunks 0 to k and a part of the next, are drained. */
  lemma DrainFront(data: seq<seq<char>>, lwd: nat, k: nat, len: nat)
    requires Cursor(data, lwd) && k <= lwd < |data|
    requires 0 <= len - |Flat(data[..k])| < |data[k]|
    ensures var d := data[k..][0 := data[k][len - |Flat(data[..k])|..]];
      Cursor(d, lwd - k) && len <= |Flat(data)| && Flat(d) == Flat(data)[len..]
  {
    var n := len - |Flat(data[..k])|;
    DropFront(data, lwd, k);
    SkipInFront(data[k..], lwd - k, n);
    FlatAt(data, k);
    SliceOfSuffix(Flat(data), |Flat(data[..k])|, n, n);
    assert Flat(data)[|Flat(data[..k])|..] == Flat(data[k..]);
  }

  /** Two lists, the second of which holds data, one behind the other. */
  lemma JoinCursor(a: seq<seq<char>>, b: seq<seq<char>>, lwd: nat)
    requires Cursor(b, lwd) && Flat(b) != []
    ensures lwd < |b| && Cursor(a + b, |a| + lwd) && Flat(a + b) == Flat(a) + Flat(b)
  {
    if b == [] {
    } else {
      AllBeforeCursor(b, lwd);
      FlatAppend(a, b);
      var d := a + b;
      forall i | |a| + lwd < i < |d|
        ensures d[i] == []
      {
        assert d[i] == b[i - |a|];
      }
    }
  }

  /** The last chunk of a list is made to lead to `end`. */
  method LinkEnd(ghost cs: seq<Chain>, ghost was: Chain?, chain: Chain, end: Chain?)
    requires Distinct(cs) && Path(cs, was) && cs != [] && chain == Last(cs)
    modifies chain`next
    ensures Path(cs, end)
  {
    chain.next := end;
  }

  /** Bytes are copied before the data of the first chunk. */
  method PutIn(ghost cs: seq<Chain>, ghost ds: seq<seq<char>>, chain: Chain, s: seq<char>)
    requires Distinct(cs) && Held(cs, ds) && cs != [] && chain == cs[0] && |s| <= chain.misalign
    modifies chain`off, chain`misalign, chain.buffer
    ensures ds != [] && Held(cs, ds[0 := s + ds[0]])
  {
    chain.PutBefore(s);
  }

  /** An empty first chunk is turned into one that is empty at its beginning. */
  method TurnIn(ghost cs: seq<Chain>, ghost ds: seq<seq<char>>, chain: Chain)
    requires Distinct(cs) && Held(cs, ds) && cs != [] && chain == cs[0]
    modifies chain`misalign
    ensures Held(cs, ds) && (chain.off == 0 ==> chain.misalign == chain.buffer.Length)
    ensures chain.off != 0 ==> chain.misalign == old(chain.misalign)
  {
    if chain.off == 0 {
      chain.misalign := chain.buffer.Length;
    }
  }

  /** Bytes are copied behind the data of the k-th chunk. */
  method AppendIn(ghost cs: seq<Chain>, ghost ds: seq<seq<char>>, ghost k: nat, chain: Chain, s: seq<char>)
    requires Distinct(cs) && Held(cs, ds) && k < |cs| && chain == cs[k] && |s| <= chain.SpaceLen()
    modifies chain`off, chain.buffer
    ensures |ds| == |cs| && Held(cs, ds[k := ds[k] + s]) && chain.off == old(chain.off) + |s|
  {
    chain.Append(s);
  }

  /** The first `n` bytes of the k-th chunk are given up. */
  method SkipIn(ghost cs: seq<Chain>, ghost ds: seq<seq<char>>, ghost k: nat, chain: Chain, n: nat)
    requires Distinct(cs) && Held(cs, ds) && k < |cs| && chain == cs[k] && n <= chain.off
    modifies chain`off, chain`misalign
    ensures |ds| == |cs| && n <= |ds[k]| && Held(cs, ds[k := ds[k][n..]])
    ensures chain.off == old(chain.off) - n
  {
    chain.Skip(n);
  }

  /** The k-th chunk is realigned. */
  method AlignIn(ghost cs: seq<Chain>, ghost ds: seq<seq<char>>, ghost k: nat, chain: Chain)
    requires Distinct(cs) && Held(cs, ds) && k < |cs| && chain == cs[k]
    modifies chain`misalign, chain.buffer
    ensures Held(cs, ds) && chain.misalign == 0
  {
    chain.Align();
  }

  lemma LoneChunk(chain: Chain)
    requires chain.Fits() && chain.next == null
    ensures Path([chain], null) && Held([chain], [chain.Data()]) && Distinct([chain])
  {
  }

  /** Whole chunks are copied behind the data of `tmp` and freed (buffer.c:1419-1435). */
  method PullInto(tmp: Chain, start: Chain?, size: nat, lastData: Chain?, lastPtr: Chain?, ghost rs: seq<Chain>,
        ghost rd: seq<seq<char>>)
    returns (chain: Chain?, need: nat, removedData: bool, removedPtr: bool, ghost k: nat)
    requires Path(rs, null) && Held(rs, rd) && Distinct(rs) && Apart([tmp], rs) && start == Head(rs, null)
    requires tmp.Fits() && size <= tmp.SpaceLen() && size <= |Flat(rd)|
    modifies tmp`off, tmp.buffer
    ensures k <= |rs| == |rd| && chain == Head(rs[k..], null)
    ensures need == size - |Flat(rd[..k])| && (if k < |rs| then need < |rd[k]| else need == 0)
    ensures tmp.Fits() && need <= tmp.SpaceLen() && tmp.Data() == old(tmp.Data()) + Flat(rd[..k])
    ensures removedData <==> lastData in rs[..k]
    ensures removedPtr <==> lastPtr in rs[..k]
  {
    hide Flat, Path, Held, Distinct;
    chain, need, removedData, removedPtr, k := start, size, false, false, 0;
    assert tmp in [tmp];
    FlatOfEmpties([]);
    assert rd[..0] == [];
    HeldCut(rs, rd, 0);
    while chain != null && need >= chain.off
      invariant k <= |rs| == |rd| && chain == Head(rs[k..], null)
      invariant need == size - |Flat(rd[..k])| && Path(rs, null) && Held(rs, rd)
      invariant tmp.Fits() && need <= tmp.SpaceLen() && tmp.Data() == old(tmp.Data()) + Flat(rd[..k])
      invariant removedData <==> lastData in rs[..k]
      invariant removedPtr <==> lastPtr in rs[..k]
      decreases |rs| - k
    {
      ChunkOf(rs, rd, k);
      FlatAt(rd, k);
      Assoc(old(tmp.Data()), Flat(rd[..k]), rd[k]);
      assert rs[..k + 1] == rs[..k] + [rs[k]];
      var next := chain.next;
      tmp.Append(chain.buffer[chain.misalign..chain.misalign + chain.off]);
      need := need - chain.off;
      if chain == lastData {
        removedData := true;
      }
      if chain == lastPtr {
        removedPtr := true;
      }
      chain, k := next, k + 1;
    }
    if k < |rs| {
      ChunkOf(rs, rd, k);
    } else {
      assert rd[..k] == rd;
    }
  }

  /** A part of the next chunk is copied behind the data of `tmp` (buffer.c:1437-1440). */
  method TakePart(tmp: Chain, chain: Chain, need: nat, ghost rs: seq<Chain>, ghost rd: seq<seq<char>>)
    requires Path(rs, null) && Held(rs, rd) && Distinct(rs) && Apart([tmp], rs) && rs != [] && chain == rs[0]
    requires rd != [] && need < |rd[0]| && tmp.Fits() && need <= tmp.SpaceLen()
    modifies tmp`off, tmp.buffer, chain`off, chain`misalign
    ensures tmp.Fits() && tmp.Data() == old(tmp.Data()) + rd[0][..need]
    ensures Held(rs, rd[0 := rd[0][need..]]) && chain.off > 0
  {
    hide Flat, Path, Held, Distinct;
    assert tmp in [tmp] && chain in rs;
    ChunkOf(rs, rd, 0);
    ghost var d := chain.buffer[chain.misalign..chain.misalign + chain.off];
    var s := chain.buffer[chain.misalign..chain.misalign + need];
    assert s == d[..need];
    tmp.Append(s);
    SkipIn(rs, rd, 0, chain, need);
  }

  /** The cursor after the first `n` bytes were pulled into one chunk, data being left behind it. */
  lemma PulledCursor(data: seq<seq<char>>, lwd: nat, k: nat, need: nat)
    requires Cursor(data, lwd) && k <= lwd < |data| && need < |data[k]|
    ensures var d := [Flat(data[..k]) + data[k][..need]] + data[k..][0 := data[k][need..]];
      Cursor(d, lwd - k + 1) && Flat(d) == Flat(data)
  {
    hide Flat, Cursor;
    var n := |Flat(data[..k])| + need;
    var rest := data[k..][0 := data[k][need..]];
    DrainFront(data, lwd, k, n);
    PrefixUpTo(data, k, need);
    assert need > 0 || data[k][..need] == [];
    PushInFront(rest, lwd - k, Flat(data)[..n]);
  }

  lemma CursorOne(d: seq<char>)
    ensures Cursor([d], 0) && Flat([d]) == d
  {
    FlatOne(d);
  }

  /** Which of the two chunks that `last_with_datap` involves a pull-up frees, and where the field is then. */
  lemma Removed(cs: seq<Chain>, ds: seq<seq<char>>, lwd: nat, tmp: Chain, a: nat, k: nat)
    requires Distinct(cs) && |ds| == |cs| && Cursor(ds, lwd) && 0 < lwd < |cs| && a <= 1 && a <= k <= |cs|
    requires (a == 1 ==> tmp == cs[0]) && (k < |ds| ==> ds[k] != [])
    ensures k < |cs| ==> k <= lwd
    ensures cs[lwd] in cs[a..k] <==> k == |cs|
    ensures k <= lwd ==> (cs[lwd - 1] in cs[a..k] <==> k == lwd && a < lwd)
    ensures k <= lwd ==> Owner([tmp] + cs[k..], lwd - k + 1) == if k == lwd then tmp else cs[lwd - 1]
    ensures Owner([tmp] + cs[k..], 1 + |cs| - k) == if k == |cs| then tmp else Owner(cs, |cs|)
    ensures k == lwd && a == lwd ==> tmp == cs[lwd - 1]
    ensures Owner([tmp] + cs[k..], 0) == null && Owner(cs, lwd) == cs[lwd - 1]
    ensures k == |ds| ==> ds[..k] == ds
  {
    if lwd < k {
      assert cs[a..k][lwd - a] == cs[lwd];
    }
    if a < lwd == k {
      assert cs[a..k][lwd - 1 - a] == cs[lwd - 1];
    }
  }

  /** A suffix of a suffix of the list. */
  lemma Further(tmp: Chain, cs: seq<Chain>, ds: seq<seq<char>>, a: nat, j: nat)
    requires |cs| == |ds| && a + j <= |cs| && Apart([tmp], cs[a..]) && Distinct(cs[a..])
    requires Path(cs[a..], null) && Held(cs[a..], ds[a..])
    ensures cs[a..][j..] == cs[a + j..] && cs[a..][..j] == cs[a..a + j] && ds[a..][j..] == ds[a + j..]
    ensures Apart([tmp], cs[a + j..]) && Distinct(cs[a + j..])
    ensures Path(cs[a + j..], null) && Held(cs[a + j..], ds[a + j..])
    ensures Flat(ds[..a + j]) == Flat(ds[..a]) + Flat(ds[a..][..j])
  {
    hide Flat, Path, Held, Distinct, Apart;
    var rs, rd := cs[a..], ds[a..];
    assert rs[..j] + rs[j..] == rs && rs[j..] == cs[a + j..];
    DistinctParts(rs[..j], rs[j..]);
    ApartRest([tmp], rs, j);
    PathCut(rs, j, null);
    HeldCut(rs, rd, j);
    FlatAppend(ds[..a], rd[..j]);
    assert ds[..a] + rd[..j] == ds[..a + j];
  }

  /** Where the data lies when the first chunk does not hold all of it. */
  lemma NotAllInFirst(data: seq<seq<char>>, lwd: nat)
    requires Cursor(data, lwd) && data != [] && |data[0]| < |Flat(data)|
    ensures lwd > 0
    ensures |Flat(data[1..])| == |Flat(data)| - |data[0]| && |Flat(data[..1])| == |data[0]|
    ensures data[0..] == data && Flat(data[..0]) == []
  {
    AllBeforeCursor(data, lwd);
    assert data[..0] == [] && data[..1] == [data[0]];
    FlatOne(data[0]);
    FlatAt(data, 0);
  }

  lemma ChunkOf(cs: seq<Chain>, ds: seq<seq<char>>, i: nat)
    requires Path(cs, null) && Held(cs, ds) && i < |cs|
    ensures |ds| == |cs| && cs[i].Fits() && cs[i].off == |ds[i]|
    ensures cs[i].buffer[cs[i].misalign..cs[i].misalign + cs[i].off] == ds[i]
    ensures cs[i].next == Head(cs[i + 1..], null)
  {
  }

  /** A new chunk whose memory is filled up from the end. */
  method NewAtEnd(s: seq<char>) returns (tmp: Chain)
    ensures fresh(tmp) && fresh(tmp.buffer) && Held([tmp], [s])
  {
    tmp := new Chain(|s|);
    tmp.misalign := tmp.buffer.Length;
    tmp.PutBefore(s);
  }

  lemma PathOne(chain: Chain)
    ensures Path([chain], chain.next)
  {
  }

  lemma LinkTo(chain: Chain, next: Chain)
    requires chain.next == next
    ensures Path([chain], next)
  {
  }

  /** Inserting a chunk behind the data. */
  lemma InsertAtEnd(data: seq<seq<char>>, lwd: nat, d: seq<char>)
    requires Cursor(data, lwd) && (data != [] ==> Last(data) != [])
    ensures Cursor(data + [d], if d == [] then lwd else |data|)
    ensures Flat(data + [d]) == Flat(data) + d
  {
    FlatAppend(data, [d]);
    FlatOne(d);
  }

  class EvBuffer {
    var first: Chain?
    var last: Chain?
    var lastWithDatap: Chain?
    var totalLen: nat
    var freezeStart: bool
    var freezeEnd: bool
    ghost var chains: seq<Chain>
    ghost var data: seq<seq<char>>
    ghost var lwd: nat

    /** The list runs through `chains`, chunk i holding `data[i]`. */
    ghost predicate Shape()
      reads `chains, `first, `data, set c | c in chains, set c | c in chains :: c.buffer
    {
      && |data| == |chains| && Distinct(chains)
      && Path(chains, null) && Held(chains, data) && first == Head(chains, null)
    }

    ghost predicate Valid()
      reads this, set c | c in chains, set c | c in chains :: c.buffer
    {
      && Shape()
      && last == Owner(chains, |chains|)
      && Cursor(data, lwd)
      && lastWithDatap == Owner(chains, lwd)
      && totalLen == |Flat(data)|
    }

    /** The byte sequence the buffer stands for. */
    ghost function Contents(): seq<char>
      reads `data
    {
      Flat(data)
    }

    /** What the field owned by `ch` leads to: `*chp` in the source. */
    function Deref(ch: Chain?): Chain?
      reads `first, (if ch == null then {} else {ch})`next
    {
      if ch == null then first else ch.next
    }

    /** The field that leads to position `i` leads to the i-th chunk, or to null at the end. */
    lemma Leads(i: nat)
      requires Shape() && i <= |chains|
      ensures Deref(Owner(chains, i)) == At(chains, i)
    {
    }

    lemma Lengths()
      requires Shape()
      ensures |data| == |chains| && Distinct(chains)
    {
    }

    lemma Parts()
      requires Shape()
      ensures Path(chains, null) && Held(chains, data) && first == Head(chains, null)
    {
    }

    lemma Chunk(i: nat)
      requires Shape() && i < |chains|
      ensures |data| == |chains| && chains[i].Fits() && chains[i].Data() == data[i]
      ensures chains[i].SpaceLen() >= 0 && chains[i].off == |data[i]|
      ensures chains[i].next == At(chains, i + 1)
      ensures chains[i] == first <==> i == 0
    {
    }

    lemma AtCursor()
      requires Valid()
      ensures lwd <= |chains| == |data|
      ensures Deref(lastWithDatap) == At(chains, lwd)
      ensures Deref(lastWithDatap) == null ==> chains == []
      ensures lwd < |chains| || chains == []
    {
      Leads(lwd);
    }

    /** `evbuffer_new` */
    constructor ()
      ensures Valid() && Contents() == [] && chains == []
      ensures !freezeStart && !freezeEnd
    {
      first, last, lastWithDatap := null, null, null;
      totalLen, freezeStart, freezeEnd := 0, false, false;
      chains, data, lwd := [], [], 0;
    }

    /** `*chp = chain`, where `ch` is the last chunk of `cs`, or null for `first`. */
    method SetLink(ghost cs: seq<Chain>, ghost was: Chain?, ch: Chain?, chain: Chain?)
      requires ch == Owner(cs, |cs|) && Distinct(cs) && Path(cs, was)
      requires cs != [] ==> first == cs[0]
      modifies `first, (if ch == null then {} else {ch})`next
      ensures Path(cs, chain) && first == Head(cs, chain)
    {
      if ch == null {
        first := chain;
      } else {
        ch.next := chain;
      }
    }

    /** The chunks from position `k` on are dropped. */
    method Cut(ghost k: nat, ch: Chain?)
      requires Shape() && k <= |chains| && ch == Owner(chains, k)
      modifies `first, `chains, `data, (if ch == null then {} else {ch})`next
      ensures Shape() && chains == old(chains)[..k] && data == old(data)[..k]
    {
      hide Path, Held, Distinct;
      PathCut(chains, k, null);
      HeldCut(chains, data, k);
      assert chains[..k] + chains[k..] == chains;
      DistinctParts(chains[..k], chains[k..]);
      SetLink(chains[..k], Head(chains[k..], null), ch, null);
      chains, data := chains[..k], data[..k];
    }

    /** The walk over the chunks that hold data, starting at the last one (buffer.c:293-296). */
    method EndOfData() returns (ch: Chain?, ghost k: nat)
      requires Valid()
      ensures lwd <= k <= |chains| == |data| && ch == Owner(chains, k)
      ensures k == (if lwd < |data| && data[lwd] != [] then lwd + 1 else lwd)
      ensures Deref(ch) == null <==> k == |chains|
    {
      hide Flat;
      ch, k := lastWithDatap, lwd;
      while Deref(ch) != null && Deref(ch).off != 0
        invariant lwd <= k <= |chains| && ch == Owner(chains, k)
        invariant k == lwd || (k == lwd + 1 && data[lwd] != [])
        decreases |chains| - k
      {
        ch, k := Deref(ch), k + 1;
        assert data[k - 1] != [];
      }
      if Deref(ch) != null {
        assert data[k] == [];
      }
    }

    /** `evbuffer_free_trailing_empty_chains` (buffer.c:291-303); the caller repairs `last`. */
    method FreeTrailingEmptyChains() returns (ch: Chain?)
      requires Valid()
      modifies `first, `chains, `data, Nodes(chains)`next
      ensures Shape() && Cursor(data, lwd) && Flat(data) == old(Flat(data))
      ensures chains <= old(chains) && ch == Owner(chains, |chains|)
      ensures ch != null ==> ch in old(chains)
      ensures lwd <= |chains| && lastWithDatap == Owner(chains, lwd)
      ensures old(Flat(data)) != [] ==> lwd < |chains|
      ensures data != [] ==> Last(data) != []
    {
      hide Flat, Path, Held, Distinct;
      ghost var k;
      ch, k := EndOfData();
      AllEmptyFrom(data, lwd, k);
      assert chains[..|chains|] == chains && data[..|data|] == data;
      if Deref(ch) != null {
        Cut(k, ch);
      }
    }

    /** `*chp = chain`: a further list, `cs`, is hung behind the chunks. */
    method Join(ch: Chain?, chain: Chain?, ghost cs: seq<Chain>, ghost ds: seq<seq<char>>)
      requires Shape() && ch == Owner(chains, |chains|)
      requires Path(cs, null) && Held(cs, ds) && Distinct(cs) && Apart(chains, cs) && chain == Head(cs, null)
      modifies `first, `chains, `data, (if ch == null then {} else {ch})`next
      ensures Shape() && chains == old(chains) + cs && data == old(data) + ds
    {
      hide Path, Held, Distinct;
      assert ch != null ==> ch in chains;
      DistinctJoin(chains, cs);
      SetLink(chains, null, ch, chain);
      PathJoin(chains, cs, null);
      HeldJoin(chains, data, cs, ds);
      chains, data := chains + cs, data + ds;
    }

    /** The first chunk of an empty list. */
    method InsertFirst(chain: Chain)
      requires Valid() && chain.Fits() && chain.next == null && chains == []
      modifies this
      ensures Shape() && chains == [chain] && data == [chain.Data()] && last == chain
      ensures Cursor(data, lwd) && lastWithDatap == Owner(chains, lwd) && totalLen == old(totalLen)
      ensures freezeStart == old(freezeStart) && freezeEnd == old(freezeEnd)
    {
      first, last := chain, chain;
      chains, data := [chain], [chain.Data()];
    }

    /** A chunk takes the place of the empty ones at the end. */
    method InsertLast(chain: Chain)
      requires Valid() && chain.Fits() && chain.next == null && Apart(chains, [chain])
      modifies `first, `last, `lastWithDatap, `chains, `data, `lwd, Nodes(chains)`next
      ensures Shape() && last == chain && Cursor(data, lwd)
      ensures lwd <= |chains| && lastWithDatap == Owner(chains, lwd)
      ensures Flat(data) == old(Flat(data)) + chain.Data()
      ensures chains != [] && Last(chains) == chain && DropLast(chains) <= old(chains)
    {
      hide Flat, Path, Held, Distinct, EvBuffer.Shape, Cursor, Chain.Data, Chain.Fits;
      assert chain in [chain] && chain !in chains;
      var chp := FreeTrailingEmptyChains();
      HangOn(chp, chain);
      if chain.off != 0 {
        lastWithDatap, lwd := chp, |chains| - 1;
      }
      last := chain;
    }

    /** A chunk is hung on the last field of a list without empty chunks at its end. */
    method HangOn(chp: Chain?, chain: Chain)
      requires Shape() && chp == Owner(chains, |chains|) && Cursor(data, lwd) && (data != [] ==> Last(data) != [])
      requires chain.Fits() && chain.next == null && Apart(chains, [chain])
      modifies `first, `chains, `data, (if chp == null then {} else {chp})`next
      ensures Shape() && chains == old(chains) + [chain] && chain.Fits() && |chain.Data()| == chain.off
      ensures Cursor(data, if chain.off == 0 then lwd else |old(chains)|)
      ensures Flat(data) == old(Flat(data)) + chain.Data()
    {
      hide Flat, Path, Held, Distinct, EvBuffer.Shape, Cursor, Chain.Data, Chain.Fits;
      ghost var d := chain.Data();
      LoneChunk(chain);
      Lengths();
      InsertAtEnd(data, lwd, d);
      Join(chp, chain, [chain], [d]);
    }

    /** `evbuffer_chain_insert` (buffer.c:309-327) */
    method ChainInsert(chain: Chain)
      requires Valid() && chain.Fits() && chain.next == null && Apart(chains, [chain])
      modifies this, Nodes(chains)`next
      ensures Valid() && Contents() == old(Contents()) + chain.Data()
      ensures chains != [] && Last(chains) == chain && DropLast(chains) <= old(chains)
      ensures freezeStart == old(freezeStart) && freezeEnd == old(freezeEnd)
    {
      hide Flat, Path, Held, Distinct, EvBuffer.Shape, Cursor, Chain.Fits;
      AtCursor();
      if Deref(lastWithDatap) == null {
        FlatOfEmpties(data);
        InsertFirst(chain);
        FlatOne(chain.Data());
      } else {
        InsertLast(chain);
      }
      totalLen := totalLen + chain.off;
    }

    /** Bytes are copied behind the data of the last chunk with data. */
    method WriteAtCursor(chain: Chain, s: seq<char>)
      requires Valid() && lwd < |chains| && chain == chains[lwd] && |s| <= chain.SpaceLen()
      modifies `data, `totalLen, chain`off, chain.buffer
      ensures Valid() && Contents() == old(Contents()) + s
      ensures chain.SpaceLen() == old(chain.SpaceLen()) - |s|
    {
      hide Flat, Path, Held, Distinct, Cursor;
      AppendAtCursor(data, lwd, s);
      AppendIn(chains, data, lwd, chain, s);
      data := data[lwd := data[lwd] + s];
      totalLen := totalLen + |s|;
    }

    /** A new chunk of at least `n` bytes, holding `s`, is inserted at the end. */
    method InsertNew(n: nat, s: seq<char>) returns (chain: Chain)
      requires Valid() && |s| <= n
      modifies this, Nodes(chains)`next
      ensures Valid() && Contents() == old(Contents()) + s
      ensures fresh(chain) && fresh(chain.buffer)
      ensures chains != [] && Last(chains) == chain && DropLast(chains) <= old(chains)
      ensures chain.misalign == 0 && chain.off == |s| && chain.buffer.Length == Capacity(n)
      ensures freezeStart == old(freezeStart) && freezeEnd == old(freezeEnd)
    {
      hide Flat, Path, Held, Distinct, EvBuffer.Shape, Cursor;
      chain := new Chain(n);
      chain.Append(s);
      Lengths();
      ChainInsert(chain);
    }

    /** The chunk that data is appended to, allocating one for an empty list (buffer.c:1747-1760). */
    method WritableChain(n: nat) returns (chain: Chain)
      requires Valid()
      modifies this, Nodes(chains)`next
      ensures Valid() && Contents() == old(Contents())
      ensures lwd < |chains| && chain == chains[lwd]
      ensures old(chains) != [] ==> chains == old(chains)
      ensures old(chains) == [] ==> chains == [chain] && fresh(chain) && fresh(chain.buffer)
      ensures old(chains) == [] ==> chain.off == chain.misalign == 0 && chain.buffer.Length == Capacity(n)
      ensures freezeStart == old(freezeStart) && freezeEnd == old(freezeEnd)
    {
      hide Flat, Path, Held, Distinct;
      AtCursor();
      var c := Deref(lastWithDatap);
      if c == null {
        c := last;
      }
      if c == null {
        c := InsertNew(n, []);
      }
      chain := c;
    }

    /** Data that does not fit the chunk is spread over it and a new one (buffer.c:1792-1816). */
    method AddTwo(chain: Chain, s: seq<char>)
      requires Valid() && lwd < |chains| && chain == chains[lwd] && 0 <= chain.SpaceLen() < |s|
      modifies this, Nodes(chains), Areas(chains)
      ensures Valid() && Contents() == old(Contents()) + s
      ensures Grown(old(chains), chains)
      ensures freezeStart == old(freezeStart) && freezeEnd == old(freezeEnd)
    {
      hide Flat, Path, Held, Distinct, EvBuffer.Shape, Cursor, Chain.SpaceLen;
      var remain := chain.SpaceLen();
      var toAlloc := chain.buffer.Length;
      if toAlloc <= EVBUFFER_CHAIN_MAX_AUTO_SIZE / 2 {
        toAlloc := toAlloc * 2;
      }
      if |s| > toAlloc {
        toAlloc := |s|;
      }
      if remain > 0 {
        WriteAtCursor(chain, s[..remain]);
      }
      var tmp := InsertNew(toAlloc, s[remain..]);
      assert s[..remain] + s[remain..] == s;
      Assoc(old(Contents()), s[..remain], s[remain..]);
    }

    /** `evbuffer_add` (buffer.c:1730-1824) */
    method Add(s: seq<char>) returns (result: int)
      requires Valid()
      modifies this, Nodes(chains), Areas(chains)
      ensures Valid() && Grown(old(chains), chains)
      ensures result == if old(freezeEnd) || |s| > EV_SIZE_MAX - old(totalLen) then -1 else 0
      ensures Contents() == if result == 0 then old(Contents()) + s else old(Contents())
      ensures result == 0 && old(chains) == [] ==>
        |chains| == 1 && chains[0].buffer.Length == Capacity(|s|) && chains[0].SpaceLen() == Capacity(|s|) - |s|
      ensures freezeStart == old(freezeStart) && freezeEnd == old(freezeEnd)
    {
      hide Flat, Path, Held, Distinct;
      if freezeEnd || |s| > EV_SIZE_MAX - totalLen {
        return -1;
      }
      var chain := WritableChain(|s|);
      Chunk(lwd);
      if chain.SpaceLen() >= |s| {
        WriteAtCursor(chain, s);
      } else if chain.ShouldRealign(|s|) {
        AlignIn(chains, data, lwd, chain);
        WriteAtCursor(chain, s);
      } else {
        AddTwo(chain, s);
      }
      result := 0;
    }

    /** Bytes are copied before the data of the first chunk. */
    method PutFront(chain: Chain, s: seq<char>)
      requires Valid() && chains != [] && chain == chains[0] && |s| <= chain.misalign
      modifies `data, `totalLen, chain`off, chain`misalign, chain.buffer
      ensures Valid() && Contents() == s + old(Contents())
    {
      hide Flat, Path, Held, Distinct, Cursor;
      PutInFront(data, lwd, s);
      PutIn(chains, data, chain, s);
      data := data[0 := s + data[0]];
      totalLen := totalLen + |s|;
    }

    /** `tmp` becomes the first chunk. */
    method LinkFirst(tmp: Chain, chain: Chain, ghost s: seq<char>)
      requires Shape() && chains != [] && chain == chains[0]
      requires Held([tmp], [s]) && Apart([tmp], chains)
      modifies `first, `chains, `data, tmp`next
      ensures Shape() && chains == [tmp] + old(chains) && data == [s] + old(data)
    {
      hide Path, Held, Distinct;
      assert tmp in [tmp];
      DistinctOne(tmp);
      DistinctJoin([tmp], chains);
      first := tmp;
      tmp.next := chain;
      LinkTo(tmp, chain);
      PathJoin([tmp], chains, null);
      HeldJoin([tmp], [s], chains, data);
      chains, data := [tmp] + chains, [s] + data;
    }

    /** A new chunk in front of all others, filled from its end (buffer.c:1887-1902). */
    method PushFront(chain: Chain, s: seq<char>)
      requires Valid() && chains != [] && chain == chains[0]
      modifies this
      ensures Valid() && Contents() == s + old(Contents()) && Grown(old(chains), chains)
      ensures freezeStart == old(freezeStart) && freezeEnd == old(freezeEnd)
    {
      hide Flat, Path, Held, Distinct, Cursor, Owner, EvBuffer.Shape, Chain.Data, Chain.Fits;
      Chunk(0);
      AtCursor();
      Lengths();
      var tmp := NewAtEnd(s);
      PushInFront(data, lwd, s);
      OwnerShift(tmp, chains, lwd);
      OwnerShift(tmp, chains, |chains|);
      if lastWithDatap == null && chain.off != 0 {
        lastWithDatap := tmp;
      }
      lwd := if lwd == 0 && data[0] == [] then 0 else lwd + 1;
      LinkFirst(tmp, chain, s);
      totalLen := totalLen + |s|;
    }

    /** `evbuffer_prepend` (buffer.c:1827-1910) */
    method Prepend(s: seq<char>) returns (result: int)
      requires Valid()
      modifies this, Nodes(chains), Areas(chains)
      ensures Valid() && Grown(old(chains), chains)
      ensures result == if |s| > 0 && (old(freezeStart) || |s| > EV_SIZE_MAX - old(totalLen)) then -1 else 0
      ensures Contents() == if result == 0 then s + old(Contents()) else old(Contents())
      ensures freezeStart == old(freezeStart) && freezeEnd == old(freezeEnd)
    {
      hide Flat, Path, Held, Distinct, Cursor, Owner, EvBuffer.Shape;
      if |s| == 0 {
        return 0;
      }
      if freezeStart || |s| > EV_SIZE_MAX - totalLen {
        return -1;
      }
      Parts();
      var chain := first;
      if chain == null {
        chain := InsertNew(|s|, []);
      }
      Chunk(0);
      Lengths();
      Parts();
      TurnIn(chains, data, chain);
      Whole();
      if chain.misalign >= |s| {
        PutFront(chain, s);
      } else {
        var fit := chain.misalign;
        if fit > 0 {
          PutFront(chain, s[|s| - fit..]);
        }
        PushFront(chain, s[..|s| - fit]);
        assert s[..|s| - fit] + s[|s| - fit..] == s;
        Assoc(s[..|s| - fit], s[|s| - fit..], old(Contents()));
      }
      result := 0;
    }

    /** ZERO_CHAIN (buffer.c:799-807) */
    method ZeroChain()
      modifies `first, `last, `lastWithDatap, `totalLen, `chains, `data, `lwd
      ensures Valid() && Contents() == [] && chains == []
    {
      first, last, lastWithDatap, totalLen := null, null, null, 0;
      chains, data, lwd := [], [], 0;
    }

    /** The walk over the chunks that lose all their data (buffer.c:1132-1151, 1293-1304). */
    method WalkFront(len: nat) returns (chain: Chain, previous: Chain?, remaining: nat, ghost k: nat)
      requires Valid() && len < |Flat(data)|
      modifies `lastWithDatap
      ensures k <= lwd < |chains| && chain == chains[k] && previous == Owner(chains, k)
      ensures remaining == len - |Flat(data[..k])| && remaining < chain.off
      ensures lastWithDatap == if k < lwd then Owner(chains, lwd) else null
    {
      hide Flat, Path, Held, Cursor;
      AtCursor();
      Leads(lwd);
      FlatOfEmpties([]);
      AllBeforeCursor(data, lwd);
      assert data[..0] == [];
      chain, previous, remaining, k := first, null, len, 0;
      while remaining >= chain.off
        invariant k <= lwd < |chains| && chain == chains[k] && previous == Owner(chains, k)
        invariant remaining == len - |Flat(data[..k])|
        invariant lastWithDatap == (if k < lwd then Owner(chains, lwd) else null)
        decreases |chains| - k
      {
        Chunk(k);
        FlatAt(data, k);
        var next := chain.next;
        remaining := remaining - chain.off;
        assert chain != Deref(lastWithDatap);
        if chain == lastWithDatap {
          lastWithDatap := null;
        }
        chain, previous, k := next, chain, k + 1;
      }
    }

    /** The chunks before position `k` are dropped. */
    method DropTo(ghost k: nat, chain: Chain)
      requires Shape() && k < |chains| && chain == chains[k]
      modifies `first, `chains, `data
      ensures Shape() && chains == old(chains)[k..] && data == old(data)[k..]
    {
      hide Path, Held, Distinct;
      PathCut(chains, k, null);
      HeldCut(chains, data, k);
      assert chains[..k] + chains[k..] == chains;
      DistinctParts(chains[..k], chains[k..]);
      first := chain;
      chains, data := chains[k..], data[k..];
    }

    /** The chunks that a drain leaves nothing of are freed (buffer.c:1127-1157). */
    method DrainSome(len: nat)
      requires Valid() && len < totalLen
      modifies this, Nodes(chains)`off, Nodes(chains)`misalign
      ensures Valid() && Contents() == old(Contents())[len..]
      ensures forall c :: c in chains ==> c in old(chains)
      ensures freezeStart == old(freezeStart) && freezeEnd == old(freezeEnd)
    {
      hide Flat, Path, Held, Distinct, Cursor, Owner, EvBuffer.Shape, Chain.Fits, Apart;
      var chain, previous, remaining;
      ghost var k;
      chain, previous, remaining, k := WalkFront(len);
      totalLen := totalLen - len;
      Lengths();
      Chunk(k);
      DrainFront(data, lwd, k, len);
      OwnerSuffix(chains, k, lwd);
      OwnerSuffix(chains, k, |chains|);
      DropTo(k, chain);
      lwd := lwd - k;
      SkipFirst(chain, remaining);
    }

    /** The first chunk loses bytes at its front. */
    method SkipFirst(chain: Chain, n: nat)
      requires Shape() && chains != [] && chain == chains[0] && n <= chain.off
      modifies `data, chain`off, chain`misalign
      ensures |old(data)| > 0 && n <= |old(data)[0]|
      ensures Shape() && data == old(data)[0 := old(data)[0][n..]]
    {
      hide Path, Held, Distinct;
      SkipIn(chains, data, 0, chain, n);
      data := data[0 := data[0][n..]];
    }

    /** `evbuffer_drain` (buffer.c:1101-1166) */
    method Drain(len: nat) returns (result: int)
      requires Valid()
      modifies this, Nodes(chains)`off, Nodes(chains)`misalign
      ensures Valid() && Grown(old(chains), chains)
      ensures result == if old(totalLen) > 0 && old(freezeStart) then -1 else 0
      ensures Contents() ==
        if result != 0 then old(Contents())
        else if len >= old(totalLen) then []
        else old(Contents())[len..]
      ensures freezeStart == old(freezeStart) && freezeEnd == old(freezeEnd)
    {
      hide Flat, Path, Held, Distinct, Cursor;
      if totalLen == 0 {
        return 0;
      }
      if freezeStart {
        return -1;
      }
      if len >= totalLen {
        ZeroChain();
      } else {
        DrainSome(len);
      }
      result := 0;
    }

    /** COPY_CHAIN (buffer.c:874-886) */
    method CopyChain(src: EvBuffer)
      requires src.Valid()
      modifies `first, `last, `lastWithDatap, `totalLen, `chains, `data, `lwd
      ensures Valid() && chains == src.chains && data == src.data
    {
      hide Flat, Path, Held, Distinct, Cursor, Owner, Head, EvBuffer.Shape;
      src.Lengths();
      src.Parts();
      first, last, lastWithDatap, totalLen := src.first, src.last, src.lastWithDatap, src.totalLen;
      chains, data, lwd := src.chains, src.data, src.lwd;
      Whole();
    }

    /** The list of `src`, which holds data, is hung behind the chunks (buffer.c:897-904). */
    method Adopt(chp: Chain?, src: EvBuffer)
      requires Shape() && chp == Owner(chains, |chains|) && totalLen == |Flat(data)|
      requires src.Valid() && src != this && Apart(chains, src.chains) && src.totalLen > 0
      modifies `first, `last, `lastWithDatap, `totalLen, `chains, `data, `lwd
      modifies (if chp == null then {} else {chp})`next
      ensures Valid() && Flat(data) == old(Flat(data)) + src.Contents()
      ensures chains == old(chains) + src.chains
    {
      hide Flat, Path, Held, Distinct, Cursor, Owner, Head, EvBuffer.Shape;
      src.AtCursor();
      Lengths();
      src.Lengths();
      src.Parts();
      OwnerJoin(chains, src.chains, src.lwd);
      OwnerJoin(chains, src.chains, |src.chains|);
      JoinCursor(data, src.data, src.lwd);
      lwd := |data| + src.lwd;
      Join(chp, src.first, src.chains, src.data);
      lastWithDatap := if src.lastWithDatap == null then chp else src.lastWithDatap;
      last := src.last;
      totalLen := totalLen + src.totalLen;
    }

    /** APPEND_CHAIN (buffer.c:888-905) */
    method AppendChain(src: EvBuffer)
      requires Valid() && src.Valid() && src != this && Apart(chains, src.chains) && src.totalLen > 0
      modifies `first, `last, `lastWithDatap, `totalLen, `chains, `data, `lwd, Nodes(chains)`next
      ensures Valid() && Contents() == old(Contents()) + old(src.Contents())
      ensures forall c :: c in chains ==> c in old(chains) || c in old(src.chains)
    {
      hide Flat, Path, Held, Distinct, Cursor, Owner, Head, EvBuffer.Shape;
      var chp := FreeTrailingEmptyChains();
      Adopt(chp, src);
    }

    /** What an operation that takes all of `inbuf` returns, given whether it may. */
    static ghost function Taken(nothing: bool, frozen: bool): int {
      if nothing then 0 else if frozen then -1 else 0
    }

    /** `evbuffer_add_buffer` (buffer.c:966-1009) */
    method AddBuffer(inbuf: EvBuffer) returns (result: int)
      requires Valid() && inbuf.Valid() && (inbuf != this ==> Apart(chains, inbuf.chains))
      modifies this, inbuf, Nodes(chains)`next
      ensures Valid() && inbuf.Valid() && (inbuf != this ==> Apart(chains, inbuf.chains))
      ensures forall c :: c in chains || c in inbuf.chains ==> c in old(chains) || c in old(inbuf.chains)
      ensures result == Taken(old(inbuf.totalLen) == 0 || inbuf == this, old(freezeEnd || inbuf.freezeStart))
      ensures inbuf != this && result == 0 ==>
        Contents() == old(Contents() + inbuf.Contents()) && inbuf.Contents() == []
      ensures inbuf == this || result != 0 ==>
        Contents() == old(Contents()) && inbuf.Contents() == old(inbuf.Contents())
      ensures freezeStart == old(freezeStart) && freezeEnd == old(freezeEnd)
      ensures inbuf.freezeStart == old(inbuf.freezeStart) && inbuf.freezeEnd == old(inbuf.freezeEnd)
    {
      hide Flat, Path, Held, Distinct, Cursor, Owner, Head, EvBuffer.Shape;
      if inbuf.totalLen == 0 || inbuf == this {
        return 0;
      }
      if freezeEnd || inbuf.freezeStart {
        return -1;
      }
      if totalLen == 0 {
        CopyChain(inbuf);
      } else {
        AppendChain(inbuf);
      }
      inbuf.ZeroChain();
      Lengths();
      assert chains + [] == chains;
      result := 0;
    }

    /** `src->last->next = dst->first; dst->first = src->first` */
    method LinkBefore(src: EvBuffer, last: Chain)
      requires Shape() && src.Shape() && Apart(chains, src.chains) && src != this
      requires src.chains != [] && last == Last(src.chains)
      modifies `first, `chains, `data, last`next
      ensures Shape() && chains == src.chains + old(chains) && data == src.data + old(data)
    {
      hide Path, Held, Distinct, Apart, EvBuffer.Shape;
      Lengths();
      src.Lengths();
      Parts();
      src.Parts();
      ApartSwap(chains, src.chains);
      DistinctJoin(src.chains, chains);
      DistinctParts(src.chains, chains);
      LinkEnd(src.chains, null, last, first);
      PathJoin(src.chains, chains, null);
      HeldJoin(src.chains, src.data, chains, data);
      first := src.first;
      chains, data := src.chains + chains, src.data + data;
      Whole();
    }

    lemma Whole()
      requires Path(chains, null) && Held(chains, data) && first == Head(chains, null) && Distinct(chains)
      ensures Shape()
    {
    }

    /** PREPEND_CHAIN (buffer.c:947-963), the buffer holding data */
    method PrependChain(src: EvBuffer)
      requires Valid() && src.Valid() && src != this && Apart(chains, src.chains)
      requires src.totalLen > 0 && totalLen > 0
      modifies `first, `lastWithDatap, `totalLen, `chains, `data, `lwd, Nodes(src.chains)`next
      ensures Valid() && Contents() == src.Contents() + old(Contents())
      ensures chains == src.chains + old(chains)
    {
      hide Flat, Path, Held, Distinct, Cursor, Owner, EvBuffer.Shape;
      src.Lengths();
      AtCursor();
      src.HasChunk();
      OwnerJoin(src.chains, chains, lwd);
      OwnerJoin(src.chains, chains, |chains|);
      JoinCursor(src.data, data, lwd);
      LinkBefore(src, src.last);
      totalLen := totalLen + src.totalLen;
      if lastWithDatap == null {
        lastWithDatap := src.last;
      }
      lwd := |src.data| + lwd;
    }

    lemma FirstChunk()
      requires Valid() && first != null
      ensures first.Fits() && |first.Data()| == first.off
    {
    }

    lemma LastOrNone()
      requires Valid()
      ensures last == null <==> chains == []
    {
    }

    lemma LastIs(k: nat)
      requires Shape() && last == Owner(chains, |chains|) && k < |chains|
      ensures last == chains[k] <==> k == |chains| - 1
    {
    }

    lemma LastChunk()
      requires Valid() && chains != []
      ensures last == Last(chains) && last.SpaceLen() >= 0
    {
    }

    lemma HasChunk()
      requires Valid() && totalLen > 0
      ensures chains != [] && last == Last(chains) && last in Nodes(chains)
    {
      FlatOfEmpties([]);
    }

    /** `evbuffer_prepend_buffer` (buffer.c:1055-1098) */
    method PrependBuffer(inbuf: EvBuffer) returns (result: int)
      requires Valid() && inbuf.Valid() && (inbuf != this ==> Apart(chains, inbuf.chains))
      modifies this, inbuf, Nodes(inbuf.chains)`next
      ensures Valid() && inbuf.Valid() && (inbuf != this ==> Apart(chains, inbuf.chains))
      ensures forall c :: c in chains || c in inbuf.chains ==> c in old(chains) || c in old(inbuf.chains)
      ensures result == Taken(old(inbuf.totalLen) == 0 || inbuf == this, old(freezeStart || inbuf.freezeStart))
      ensures inbuf != this && result == 0 ==>
        Contents() == old(inbuf.Contents() + Contents()) && inbuf.Contents() == []
      ensures inbuf == this || result != 0 ==>
        Contents() == old(Contents()) && inbuf.Contents() == old(inbuf.Contents())
      ensures freezeStart == old(freezeStart) && freezeEnd == old(freezeEnd)
      ensures inbuf.freezeStart == old(inbuf.freezeStart) && inbuf.freezeEnd == old(inbuf.freezeEnd)
    {
      hide Flat, Path, Held, Distinct, Cursor, Owner, Head, EvBuffer.Shape;
      if inbuf.totalLen == 0 || inbuf == this {
        return 0;
      }
      if freezeStart || inbuf.freezeStart {
        return -1;
      }
      if totalLen == 0 {
        CopyChain(inbuf);
      } else {
        PrependChain(inbuf);
      }
      inbuf.ZeroChain();
      Lengths();
      assert chains + [] == chains;
      result := 0;
    }

    /** The chunks that are copied as a whole (buffer.c:1229-1240). */
    method CopyWhole(n: nat) returns (chain: Chain?, rest: nat, out: seq<char>, ghost k: nat)
      requires Valid() && 0 < n <= |Flat(data)|
      ensures k <= |chains| == |data| && chain == At(chains, k)
      ensures out == Flat(data[..k]) && rest == n - |out|
      ensures rest > 0 ==> k < |chains| && rest < |data[k]|
    {
      hide Flat, Path, Held, Distinct, Cursor, EvBuffer.Shape;
      chain, rest, out, k := first, n, [], 0;
      assert data[..0] == [];
      FlatOfEmpties([]);
      Lengths();
      Parts();
      while rest > 0 && rest >= chain.off
        invariant k <= |chains| && chain == At(chains, k)
        invariant out == Flat(data[..k]) && 0 <= rest == n - |out|
        invariant rest > 0 ==> k < |chains|
        decreases |chains| - k
      {
        Chunk(k);
        FlatAt(data, k);
        out := out + chain.buffer[chain.misalign..chain.misalign + chain.off];
        rest := rest - chain.off;
        chain, k := chain.next, k + 1;
        assert k == |chains| ==> data[..k] == data;
      }
      if rest > 0 {
        Chunk(k);
      }
    }

    /** `evbuffer_copyout` (buffer.c:1183-1254 with no start position) */
    method CopyOut(datlen: nat) returns (result: int, out: seq<char>)
      requires Valid()
      ensures var n := if datlen > totalLen then totalLen else datlen;
        if n > 0 && freezeStart then result == -1 && out == []
        else result == n && out == Contents()[..n]
    {
      hide Flat, Path, Held, Distinct, Cursor, EvBuffer.Shape;
      var n := if datlen > totalLen then totalLen else datlen;
      if n == 0 {
        assert Contents()[..0] == [];
        return 0, [];
      }
      if freezeStart {
        return -1, [];
      }
      var chain, rest;
      ghost var k;
      chain, rest, out, k := CopyWhole(n);
      PrefixUpTo(data, k, rest);
      if rest > 0 {
        Chunk(k);
        out := out + chain.buffer[chain.misalign..chain.misalign + rest];
        assert chain.buffer[chain.misalign..chain.misalign + rest] == chain.Data()[..rest];
      }
      result := n;
    }

    /** `evbuffer_remove` (buffer.c:1170-1181) */
    method Remove(datlen: nat) returns (result: int, out: seq<char>)
      requires Valid()
      modifies this, Nodes(chains)`off, Nodes(chains)`misalign
      ensures Valid() && Grown(old(chains), chains)
      ensures var n := if datlen > old(totalLen) then old(totalLen) else datlen;
        if n > 0 && old(freezeStart) then result == -1 && out == [] && Contents() == old(Contents())
        else result == CInt(n) && old(Contents()) == out + Contents() && |out| == n
      ensures freezeStart == old(freezeStart) && freezeEnd == old(freezeEnd)
    {
      hide Flat, Path, Held, Distinct, Cursor, EvBuffer.Shape;
      var n;
      n, out := CopyOut(datlen);
      if n > 0 {
        var drained := Drain(n);
        if drained < 0 {
          n := -1;
        }
      }
      result := CInt(n);
    }

    /** `advance_last_with_data` (buffer.c:704-721) */
    method AdvanceLastWithData()
      requires Shape() && lwd <= |chains| && lastWithDatap == Owner(chains, lwd)
      requires lwd > 0 ==> lwd < |chains| && data[lwd] != []
      modifies `lastWithDatap, `lwd
      ensures Cursor(data, lwd) && lastWithDatap == Owner(chains, lwd)
    {
      hide Flat, Path, Held, Distinct, Owner;
      Leads(lwd);
      if Deref(lastWithDatap) == null {
        return;
      }
      Walk();
    }

    /** The loop of `advance_last_with_data`, there being a chunk to start from. */
    method Walk()
      requires Shape() && lwd < |chains| && lastWithDatap == Owner(chains, lwd)
      requires lwd > 0 ==> data[lwd] != []
      modifies `lastWithDatap, `lwd
      ensures Cursor(data, lwd) && lastWithDatap == Owner(chains, lwd)
    {
      hide Flat, Path, Held, Distinct, EvBuffer.Shape;
      var chainp := lastWithDatap;
      ghost var k := lwd;
      Leads(k);
      Chunk(k);
      while Deref(chainp).next != null
        invariant lwd <= k < |chains| && chainp == Owner(chains, k)
        invariant Deref(chainp) == chains[k]
        invariant lastWithDatap == Owner(chains, lwd)
        invariant lwd > 0 ==> data[lwd] != []
        invariant forall i :: lwd < i <= k ==> data[i] == []
        decreases |chains| - k
      {
        Chunk(k);
        k := k + 1;
        chainp := Deref(chainp);
        Leads(k);
        Chunk(k);
        if Deref(chainp).off != 0 {
          lastWithDatap, lwd := chainp, k;
        }
      }
      Chunk(k);
    }

    /** The list is cut in front of position `k`; what comes before is a list of its own. */
    method SplitAt(ghost k: nat, chain: Chain, previous: Chain)
      requires Shape() && 0 < k < |chains| && chain == chains[k] && previous == chains[k - 1]
      modifies `first, `chains, `data, previous`next
      ensures Shape() && chains == old(chains)[k..] && data == old(data)[k..]
      ensures Path(old(chains)[..k], null) && Held(old(chains)[..k], old(data)[..k])
      ensures Distinct(old(chains)[..k])
    {
      hide Path, Held, Distinct, Apart, Head, EvBuffer.Shape;
      ghost var front, rest := chains[..k], chains[k..];
      Lengths();
      Parts();
      TwoParts(chains, data, k);
      LinkEnd(front, chain, previous, null);
      first := chain;
      chains, data := rest, data[k..];
      Whole();
    }

    /** A list of chunks is hung behind the data, and the cursor moved on (buffer.c:1307-1319). */
    method TakeChains(head: Chain, previous: Chain, ghost cs: seq<Chain>, ghost ds: seq<seq<char>>)
      requires Valid() && cs != [] && head == cs[0] && previous == Last(cs)
      requires Path(cs, null) && Held(cs, ds) && Distinct(cs) && Apart(chains, cs)
      modifies `first, `last, `lastWithDatap, `chains, `data, `lwd, Nodes(chains)`next
      ensures Shape() && last == Owner(chains, |chains|)
      ensures Cursor(data, lwd) && lwd <= |chains| && lastWithDatap == Owner(chains, lwd)
      ensures Flat(data) == old(Flat(data)) + Flat(ds)
      ensures forall c :: c in chains ==> c in old(chains) || c in cs
    {
      hide Flat, Path, Held, Distinct, EvBuffer.Shape;
      var chp := FreeTrailingEmptyChains();
      Lengths();
      FlatAppend(data, ds);
      Join(chp, head, cs, ds);
      Lengths();
      last := previous;
      AdvanceLastWithData();
    }

    /** Whole chunks from the front of this buffer move to the end of `dst` (buffer.c:1306-1323). */
    method MoveChains(dst: EvBuffer, chain: Chain, previous: Chain, ghost k: nat, nread: nat)
      requires Shape() && 0 < k < |chains| && chain == chains[k] && previous == chains[k - 1]
      requires dst.Valid() && dst != this && Apart(chains, dst.chains) && k <= |data| && nread == |Flat(data[..k])|
      modifies `first, `chains, `data, previous`next
      modifies dst`first, dst`last, dst`lastWithDatap, dst`chains, dst`data, dst`lwd, dst`totalLen
      modifies Nodes(dst.chains)`next
      ensures Shape() && chains == old(chains)[k..] && data == old(data)[k..]
      ensures dst.Valid() && dst.Contents() == old(dst.Contents()) + old(Flat(data[..k]))
      ensures Apart(chains, dst.chains)
      ensures forall c :: c in dst.chains ==> c in old(dst.chains) || c in old(chains)
    {
      hide Flat, Path, Held, Distinct, Cursor, Owner, EvBuffer.Shape, Chain.Fits, Chain.Data;
      Lengths();
      ghost var front, ds := chains[..k], data[..k];
      var head := first;
      Parts();
      SplitAt(k, chain, previous);
      dst.TakeChains(head, previous, front, ds);
      dst.totalLen := dst.totalLen + nread;
    }

    /** `evbuffer_remove_buffer` (buffer.c:1260-1347): bytes move from this buffer to `dst`. */
    method RemoveBuffer(dst: EvBuffer, datlen: nat) returns (result: int)
      requires Valid() && dst.Valid() && (dst != this ==> Apart(chains, dst.chains))
      requires totalLen + dst.totalLen <= EV_SIZE_MAX
      modifies this, dst, Nodes(chains), Areas(chains), Nodes(dst.chains), Areas(dst.chains)
      ensures Valid() && dst.Valid() && (dst != this ==> Apart(chains, dst.chains))
      ensures forall c :: c in chains || c in dst.chains ==>
        c in old(chains) || c in old(dst.chains) || (fresh(c) && fresh(c.buffer))
      ensures var n := if datlen > old(totalLen) then old(totalLen) else datlen;
        if datlen == 0 || dst == this || old(dst.freezeEnd || freezeStart) then
          && result == (if datlen == 0 || dst == this then 0 else -1)
          && Contents() == old(Contents()) && dst.Contents() == old(dst.Contents())
        else
          && result == CInt(n) && n <= |old(Contents())|
          && dst.Contents() == old(dst.Contents()) + old(Contents())[..n] && Contents() == old(Contents())[n..]
      ensures freezeStart == old(freezeStart) && freezeEnd == old(freezeEnd)
      ensures dst.freezeStart == old(dst.freezeStart) && dst.freezeEnd == old(dst.freezeEnd)
    {
      hide Flat, Path, Held, Distinct, Cursor, Owner, EvBuffer.Shape;
      if datlen == 0 || dst == this {
        return 0;
      }
      if dst.freezeEnd || freezeStart {
        return -1;
      }
      if datlen >= totalLen {
        result := CInt(totalLen);
        var _ := dst.AddBuffer(this);
        return;
      }
      RemoveSome(dst, datlen);
      result := CInt(datlen);
    }

    /** The chunks that `datlen` covers completely move to `dst` (buffer.c:1292-1323). */
    method MoveWhole(dst: EvBuffer, datlen: nat) returns (chain: Chain, rest: nat, ghost k: nat)
      requires Valid() && dst.Valid() && dst != this && Apart(chains, dst.chains) && datlen < totalLen
      modifies `first, `lastWithDatap, `lwd, `chains, `data
      modifies dst`first, dst`last, dst`lastWithDatap, dst`chains, dst`data, dst`lwd, dst`totalLen
      modifies Nodes(chains)`next, Nodes(dst.chains)`next
      ensures k <= old(lwd) < old(|data|) == old(|chains|) && chains == old(chains)[k..] && data == old(data)[k..]
      ensures Shape() && lwd == old(lwd) - k && chain == chains[0] && rest < chain.off
      ensures last == Owner(chains, |chains|) && lastWithDatap == Owner(chains, lwd)
      ensures rest == datlen - |old(Flat(data[..k]))|
      ensures dst.Valid() && dst.Contents() == old(dst.Contents()) + old(Flat(data[..k]))
      ensures Apart(chains, dst.chains)
      ensures forall c :: c in dst.chains ==> c in old(dst.chains) || c in old(chains)
    {
      hide Flat, Path, Held, Distinct, Cursor, Owner, EvBuffer.Shape;
      var previous;
      chain, previous, rest, k := WalkFront(datlen);
      Lengths();
      Chunk(k);
      OwnerSuffix(chains, k, lwd);
      OwnerSuffix(chains, k, |chains|);
      FlatOfEmpties([]);
      if chain != first {
        OwnerIn(chains, k);
        MoveChains(dst, chain, previous, k, datlen - rest);
      } else {
        assert data[..k] == [];
      }
      lwd := lwd - k;
    }

    /** Whole chunks are moved, then bytes of the next one copied (buffer.c:1292-1336). */
    method RemoveSome(dst: EvBuffer, datlen: nat)
      requires Valid() && dst.Valid() && dst != this && Apart(chains, dst.chains)
      requires datlen < totalLen && totalLen + dst.totalLen <= EV_SIZE_MAX && !dst.freezeEnd
      modifies this, dst, Nodes(chains), Areas(chains), Nodes(dst.chains), Areas(dst.chains)
      ensures Valid() && dst.Valid() && Apart(chains, dst.chains)
      ensures forall c :: c in chains || c in dst.chains ==>
        c in old(chains) || c in old(dst.chains) || (fresh(c) && fresh(c.buffer))
      ensures |old(Contents())| >= datlen && dst.Contents() == old(dst.Contents()) + old(Contents())[..datlen]
      ensures Contents() == old(Contents())[datlen..]
      ensures freezeStart == old(freezeStart) && freezeEnd == old(freezeEnd)
      ensures dst.freezeStart == old(dst.freezeStart) && dst.freezeEnd == old(dst.freezeEnd)
    {
      hide Flat, Path, Held, Distinct, Cursor, Owner, EvBuffer.Shape, Chain.Fits;
      var chain, rest;
      ghost var k;
      chain, rest, k := MoveWhole(dst, datlen);
      Chunk(0);
      PrefixUpTo(old(data), k, rest);
      DrainFront(old(data), old(lwd), k, datlen);
      Assoc(old(dst.Contents()), Flat(old(data)[..k]), data[0][..rest]);
      CopyFirst(dst, chain, rest);
      totalLen := totalLen - datlen;
    }

    /** Bytes of the first chunk are appended to `dst` and drained here (buffer.c:1327-1329). */
    method CopyFirst(dst: EvBuffer, chain: Chain, rest: nat)
      requires Shape() && chains != [] && chain == chains[0] && rest < chain.off
      requires dst.Valid() && dst != this && Apart(chains, dst.chains)
      requires rest <= EV_SIZE_MAX - dst.totalLen && !dst.freezeEnd
      modifies `data, chain`off, chain`misalign, dst, Nodes(dst.chains), Areas(dst.chains)
      ensures |old(data)| > 0 && rest <= |old(data)[0]|
      ensures Shape() && data == old(data)[0 := old(data)[0][rest..]]
      ensures dst.Valid() && dst.Contents() == old(dst.Contents()) + old(data)[0][..rest]
      ensures Apart(chains, dst.chains) && Grown(old(dst.chains), dst.chains)
      ensures dst.freezeStart == old(dst.freezeStart) && dst.freezeEnd == old(dst.freezeEnd)
    {
      hide Flat, Path, Held, Distinct, Cursor, Owner, EvBuffer.Shape;
      Chunk(0);
      var s := chain.buffer[chain.misalign..chain.misalign + rest];
      assert s == chain.Data()[..rest];
      var _ := dst.Add(s);
      SkipFirst(chain, rest);
    }

    /** The list after a pull-up: `tmp`, then what is left of the others. */
    method Relist(tmp: Chain, chain: Chain?, ghost d: seq<char>, ghost rs: seq<Chain>, ghost rd: seq<seq<char>>)
      requires Path(rs, null) && Held(rs, rd) && Distinct(rs) && Apart([tmp], rs) && chain == Head(rs, null)
      requires tmp.Fits() && tmp.Data() == d
      modifies `first, `chains, `data, tmp`next
      ensures Shape() && chains == [tmp] + rs && data == [d] + rd
    {
      hide Path, Distinct, Held, Apart, Chain.Data;
      NotIn(tmp, rs);
      tmp.next := chain;
      first := tmp;
      InFront(tmp, d, rs, rd);
      chains, data := [tmp] + rs, [d] + rd;
      Whole();
    }

    /** The chunks behind position `a`, and what `tmp` holds of the others. */
    lemma Behind(tmp: Chain, a: nat)
      requires Shape() && a <= 1 && a <= |chains|
      requires if a == 1 then tmp == chains[0] else tmp.Fits() && tmp.Data() == [] && Apart([tmp], chains)
      ensures Path(chains[a..], null) && Held(chains[a..], data[a..]) && Distinct(chains[a..])
      ensures Apart([tmp], chains[a..])
      ensures |data| == |chains| && tmp.Fits() && tmp.Data() == Flat(data[..a])
    {
      hide Path;
      PathCut(chains, a, null);
      HeldCut(chains, data, a);
      assert chains[..a] + chains[a..] == chains;
      DistinctParts(chains[..a], chains[a..]);
      FlatOfEmpties([]);
      if a == 1 {
        assert chains[..1] == [tmp] && data[..1] == [data[0]];
        FlatOne(data[0]);
      } else {
        assert chains[..0] == [] && data[..0] == [];
      }
    }

    /** The chunks from position `a` on give `tmp` `size` bytes (buffer.c:1417-1445). */
    method Pull(tmp: Chain, start: Chain?, size: nat, ghost a: nat)
      returns (removedData: bool, removedPtr: bool, ghost k: nat, ghost need: nat)
      requires Valid() && 0 < lwd && a <= 1 && size <= |Flat(data[a..])|
      requires if a == 1 then tmp == chains[0] else tmp.Fits() && tmp.Data() == [] && Apart([tmp], chains)
      requires start == Head(chains[a..], null) && size <= tmp.SpaceLen()
      modifies `first, `last, `chains, `data, tmp, tmp.buffer, Nodes(chains)`off, Nodes(chains)`misalign
      ensures a <= k <= old(|chains|) == old(|data|) && Shape() && chains == [tmp] + old(chains)[k..]
      ensures |old(Flat(data[..k]))| + need == |old(Flat(data[..a]))| + size
      ensures k == |old(data)| ==> need == 0 && data == [old(Flat(data))]
      ensures k < |old(data)| ==> need < |old(data)[k]|
      ensures k < |old(data)| ==>
        data == [old(Flat(data[..k])) + old(data)[k][..need]] + old(data)[k..][0 := old(data)[k][need..]]
      ensures last == if k == |old(data)| then tmp else old(last)
      ensures removedData <==> old(Deref(lastWithDatap)) in old(chains)[a..k]
      ensures removedPtr <==> lastWithDatap in old(chains)[a..k]
    {
      hide Flat, Path, Held, Distinct, Cursor, Owner, Head, EvBuffer.Shape;
      AtCursor();
      Behind(tmp, a);
      ghost var rs, rd := chains[a..], data[a..];
      var chain, n;
      ghost var j;
      chain, n, removedData, removedPtr, j := PullInto(tmp, start, size, Deref(lastWithDatap), lastWithDatap, rs, rd);
      k, need := a + j, n;
      Further(tmp, chains, data, a, j);
      PullEnd(tmp, chain, n, k);
    }

    /** The last step of a pull-up: a part of one chunk, and the new list (buffer.c:1437-1445). */
    method PullEnd(tmp: Chain, chain: Chain?, n: nat, ghost k: nat)
      requires k <= |chains| == |data| && Distinct(chains[k..]) && Apart([tmp], chains[k..])
      requires Path(chains[k..], null) && Held(chains[k..], data[k..]) && chain == Head(chains[k..], null)
      requires tmp.Fits() && tmp.Data() == Flat(data[..k]) && n <= tmp.SpaceLen()
      requires if k < |data| then n < |data[k]| else n == 0
      modifies `first, `last, `chains, `data, tmp, tmp.buffer, Nodes(chains)`off, Nodes(chains)`misalign
      ensures Shape() && chains == [tmp] + old(chains)[k..]
      ensures k == |old(data)| ==> data == [old(Flat(data))]
      ensures k < |old(data)| ==>
        data == [old(Flat(data[..k])) + old(data)[k][..n]] + old(data)[k..][0 := old(data)[k][n..]]
      ensures last == if k == |old(data)| then tmp else old(last)
    {
      hide Flat, Path, Held, Distinct, EvBuffer.Shape;
      ghost var rs, rd := chains[k..], data[k..];
      if chain != null {
        assert chain in chains;
        TakePart(tmp, chain, n, rs, rd);
        Relist(tmp, chain, Flat(data[..k]) + data[k][..n], rs, rd[0 := data[k][n..]]);
      } else {
        last := tmp;
        assert data[..k] == data && rs == [] && rd == [];
        Relist(tmp, null, Flat(data), rs, rd);
      }
    }

    /** `last_with_datap` after a pull-up that freed what it led to, or the chunk it lies in (buffer.c:1447-1454). */
    method Repair(removedData: bool, removedPtr: bool, ghost at: nat)
      requires Shape() && Cursor(data, at) && at < |chains| && (removedData ==> at == 0)
      requires !removedData && removedPtr ==> at == 1
      requires !removedData && !removedPtr ==> lastWithDatap == Owner(chains, at)
      modifies `lastWithDatap, `lwd
      ensures lwd == at && lastWithDatap == Owner(chains, lwd)
    {
      hide Flat, Path, Held, Distinct, EvBuffer.Shape;
      lwd := at;
      if removedData {
        lastWithDatap := null;
      } else if removedPtr {
        Lengths();
        Chunk(0);
        Chunk(1);
        lastWithDatap := if first.next != null && first.next.off != 0 then first else null;
      }
    }

    /**
     * The first bytes are gathered in `tmp`, which holds those of the first `a` chunks (its own, or
     * none), and `last_with_datap` is repaired (buffer.c:1417-1456).
     */
    method PullRest(tmp: Chain, start: Chain?, size: nat, ghost a: nat)
      requires Valid() && 0 < lwd && a <= 1 && size <= |Flat(data[a..])|
      requires if a == 1 then tmp == chains[0] else tmp.Fits() && tmp.Data() == [] && Apart([tmp], chains)
      requires start == Head(chains[a..], null) && size <= tmp.SpaceLen()
      modifies this, tmp, tmp.buffer, Nodes(chains)`off, Nodes(chains)`misalign
      ensures Valid() && Contents() == old(Contents())
      ensures chains != [] && chains[0] == tmp && |data[0]| == |old(Flat(data[..a]))| + size
      ensures forall c :: c in chains ==> c == tmp || c in old(chains)
      ensures freezeStart == old(freezeStart) && freezeEnd == old(freezeEnd)
    {
      hide Flat, Path, Held, Distinct, Cursor, Owner, Head, EvBuffer.Shape;
      var removedData, removedPtr;
      ghost var k, need;
      Lengths();
      AtCursor();
      removedData, removedPtr, k, need := Pull(tmp, start, size, a);
      Removed(old(chains), old(data), old(lwd), tmp, a, k);
      if k == |old(data)| {
        CursorOne(old(Flat(data)));
      } else {
        PulledCursor(old(data), old(lwd), k, need);
      }
      Repair(removedData, removedPtr, if k == |old(data)| then 0 else lwd - k + 1);
    }

    /** `evbuffer_pullup` (buffer.c:1350-1461); the result is the chunk that holds the bytes. */
    method Pullup(size: int) returns (result: Chain?)
      requires Valid()
      modifies this, Nodes(chains), Areas(chains)
      ensures Valid() && Contents() == old(Contents()) && Grown(old(chains), chains)
      ensures result == null <==> size == 0 || size > totalLen || (size < 0 && totalLen == 0)
      ensures result != null ==> result == first && result.Data() <= Contents()
      ensures result != null ==> |result.Data()| >= if size < 0 then totalLen else size
      ensures freezeStart == old(freezeStart) && freezeEnd == old(freezeEnd)
    {
      hide Flat, Path, Held, Distinct, Cursor, Owner, EvBuffer.Shape;
      var n := if size < 0 then totalLen else size;
      if n == 0 || n > totalLen {
        return null;
      }
      HasChunk();
      Chunk(0);
      var chain := first;
      if chain.off < n {
        chain := Gather(chain, n);
        Chunk(0);
      }
      FlatAt(data, 0);
      FlatOfEmpties([]);
      assert data[..0] == [];
      result := chain;
    }

    /** The first chunk is filled up, or a new one takes its place (buffer.c:1399-1456). */
    method Gather(chain: Chain, n: nat) returns (tmp: Chain)
      requires Valid() && chains != [] && chain == chains[0] && chain.off < n <= totalLen
      modifies this, Nodes(chains), Areas(chains)
      ensures Valid() && Contents() == old(Contents()) && Grown(old(chains), chains)
      ensures chains != [] && tmp == chains[0] && |data[0]| == n
      ensures freezeStart == old(freezeStart) && freezeEnd == old(freezeEnd)
    {
      hide Flat, Path, Held, Distinct, Cursor, Owner, EvBuffer.Shape;
      Chunk(0);
      Lengths();
      Parts();
      NotAllInFirst(data, lwd);
      assert chains[0..] == chains;
      if chain.buffer.Length - chain.misalign >= n {
        PullRest(chain, chain.next, n - chain.off, 1);
        tmp := chain;
      } else {
        tmp := new Chain(n);
        PullRest(tmp, chain, n, 0);
      }
    }
  }
}
