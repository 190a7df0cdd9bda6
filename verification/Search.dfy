/**
 * Positions, searching and line reading in an evbuffer (deps/libevent/buffer.c:1473-1723, 2602-2782),
 * against what they mean for the byte sequence.
 */
module Search {
  import opened Common
  import opened Chains
  import opened Buffers

  /** `struct evbuffer_ptr`; a position that was not found is -1. */
  datatype Ptr = Ptr(pos: int, chain: Chain?, posInChain: nat)

  const NOT_FOUND := Ptr(-1, null, 0)

  /** The position lies in chunk `i`, or right behind the last chunk. */
  ghost predicate In(b: EvBuffer, p: Ptr, i: nat)
    reads b
  {
    && |b.data| == |b.chains| && i <= |b.chains| && p.chain == At(b.chains, i)
    && p.posInChain <= (if i < |b.data| then |b.data[i]| else 0)
    && p.pos == |Flat(b.data[..i])| + p.posInChain
  }

  ghost predicate PtrOk(b: EvBuffer, p: Ptr)
    reads b
  {
    exists i: nat :: In(b, p, i)
  }

  /** The bytes of a chunk are those of the whole from where the chunk begins. */
  lemma Window(data: seq<seq<char>>, i: nat, j: nat, k: nat)
    requires i < |data| && j <= k <= |data[i]|
    ensures |Flat(data[..i])| + k <= |Flat(data)|
    ensures Flat(data)[|Flat(data[..i])| + j..|Flat(data[..i])| + k] == data[i][j..k]
    ensures |Flat(data[..i + 1])| == |Flat(data[..i])| + |data[i]|
  {
    hide Flat;
    FlatAt(data, i);
    var p := |Flat(data[..i])|;
    SliceOfSuffix(Flat(data), p, j, k);
  }

  lemma AtEnd(data: seq<seq<char>>)
    ensures data[..|data|] == data && data[..0] == [] && Flat(data[..0]) == []
  {
  }

  /** The position of a chunk behind the given one is not before it. */
  lemma Ordered(data: seq<seq<char>>, i: nat, j: nat)
    requires i <= j <= |data|
    ensures |Flat(data[..i])| <= |Flat(data[..j])| <= |Flat(data)|
  {
    hide Flat;
    FlatSplit(data, j);
    FlatSplit(data[..j], i);
    assert data[..j][..i] == data[..i];
  }

  lemma WithinTotal(b: EvBuffer, p: Ptr, i: nat)
    requires In(b, p, i)
    ensures 0 <= p.pos <= |Flat(b.data)| && (i == |b.data| ==> p.pos == |Flat(b.data)|)
  {
    hide Flat;
    AtEnd(b.data);
    if i < |b.data| {
      Window(b.data, i, p.posInChain, p.posInChain);
    }
  }

  /** The beginning of the buffer, where a search starts that is given no position. */
  method Beginning(b: EvBuffer) returns (p: Ptr)
    requires b.Valid()
    ensures In(b, p, 0) && p.pos == 0
  {
    hide Flat, Path, Held, Distinct, Cursor, Owner, EvBuffer.Shape;
    b.Parts();
    b.Lengths();
    AtEnd(b.data);
    p := Ptr(0, b.first, 0);
  }

  datatype How = Set | Add

  /**
   * The walk of `evbuffer_ptr_set` (buffer.c:2649-2667): `left` bytes on from `within` bytes into
   * the chunk.
   */
  method Advance(b: EvBuffer, chain: Chain?, within: nat, left: nat, target: nat, ghost i: nat)
    returns (p: Ptr, result: int)
    requires b.Valid() && i <= |b.chains| && chain == At(b.chains, i)
    requires within <= (if i < |b.data| then |b.data[i]| else 0)
    requires target == |Flat(b.data[..i])| + within + left
    ensures target > |Flat(b.data)| ==> p == NOT_FOUND && result == -1
    ensures target <= |Flat(b.data)| ==> PtrOk(b, p) && p.pos == target && result == 0
    ensures target <= |Flat(b.data)| ==> (p.chain == null <==> target == |Flat(b.data)|)
    ensures p.chain != null ==> p.posInChain < p.chain.off
  {
    hide Flat, Path, Held, Distinct, Cursor, Owner, EvBuffer.Shape;
    b.Lengths();
    AtEnd(b.data);
    var c, position, rest := chain, within, left;
    ghost var k := i;
    while c != null && position + rest >= c.off
      invariant i <= k <= |b.chains| && c == At(b.chains, k)
      invariant target == |Flat(b.data[..k])| + position + rest
      invariant 0 <= position <= (if k < |b.data| then |b.data[k]| else 0) && rest >= 0
      decreases |b.chains| - k
    {
      b.Chunk(k);
      Window(b.data, k, 0, 0);
      rest := rest - (c.off - position);
      c, position, k := c.next, 0, k + 1;
    }
    if c != null {
      b.Chunk(k);
      Window(b.data, k, 0, position + rest);
      LastByteFollows(b.data, k, position + rest);
      p, result := Ptr(target, c, position + rest), 0;
      assert In(b, p, k);
    } else if rest == 0 {
      p, result := Ptr(target, null, 0), 0;
      assert In(b, p, k);
    } else {
      p, result := NOT_FOUND, -1;
    }
  }

  /** A position inside a chunk is before the end. */
  lemma LastByteFollows(data: seq<seq<char>>, k: nat, j: nat)
    requires k < |data| && j < |data[k]|
    ensures |Flat(data[..k])| + j < |Flat(data)|
  {
    Window(data, k, j, j + 1);
  }

  /** `evbuffer_ptr_set` (buffer.c:2623-2672) */
  method PtrSet(b: EvBuffer, from: Ptr, position: nat, how: How) returns (p: Ptr, result: int)
    requires b.Valid() && (how == Add && from.pos >= 0 ==> PtrOk(b, from))
    ensures var target := if how == Set then position else from.pos + position;
      if how == Add && (from.pos < 0 || target > EV_SIZE_MAX) then p == from && result == -1
      else if target > |b.Contents()| then p == NOT_FOUND && result == -1
      else PtrOk(b, p) && p.pos == target && result == 0
    ensures result == 0 ==> (p.chain == null <==> p.pos == |b.Contents()|)
    ensures result == 0 && p.chain != null ==> p.posInChain < p.chain.off
  {
    hide Flat, Path, Held, Distinct, Cursor, Owner, EvBuffer.Shape;
    if how == Set {
      var start := Beginning(b);
      p, result := Advance(b, start.chain, 0, position, position, 0);
    } else {
      if from.pos < 0 || EV_SIZE_MAX - position < from.pos {
        return from, -1;
      }
      ghost var i: nat :| In(b, from, i);
      p, result := Advance(b, from.chain, from.posInChain, position, from.pos + position, i);
    }
  }

  /** `evbuffer_ptr_subtract` (buffer.c:2603-2620) */
  method PtrSubtract(b: EvBuffer, from: Ptr, howfar: nat) returns (p: Ptr, result: int)
    requires b.Valid() && PtrOk(b, from)
    ensures if howfar > from.pos then p == from && result == -1
      else PtrOk(b, p) && p.pos == from.pos - howfar && result == 0
    ensures howfar > 0 && result == 0 ==> p.chain != null && p.posInChain < p.chain.off
  {
    hide Flat, Path, Held, Distinct, Cursor, Owner, EvBuffer.Shape;
    ghost var i: nat :| In(b, from, i);
    WithinTotal(b, from, i);
    if howfar > from.pos {
      return from, -1;
    }
    if from.chain != null && howfar <= from.posInChain {
      p, result := from.(pos := from.pos - howfar, posInChain := from.posInChain - howfar), 0;
      b.Chunk(i);
      assert In(b, p, i);
    } else {
      p, result := PtrSet(b, from, from.pos - howfar, Set);
    }
  }

  const EV_SSIZE_MAX := 0x7FFF_FFFF_FFFF_FFFF

  /** How many bytes lie behind a position, up to the number asked for. */
  function Behind(total: nat, at: int, datlen: nat): int {
    if datlen + at > total then total - at else datlen
  }

  /** Bytes `j` to `m` of the chunk at place `k` */
  method Piece(b: EvBuffer, chain: Chain, j: nat, m: nat, ghost k: nat) returns (text: seq<char>)
    requires b.Valid() && k < |b.chains| == |b.data| && chain == b.chains[k] && j <= m <= |b.data[k]|
    ensures var at := |Flat(b.data[..k])|; at + m <= |b.Contents()| && text == b.Contents()[at + j..at + m]
  {
    hide Flat, Path, Held, Distinct, Cursor, Owner, EvBuffer.Shape;
    b.Chunk(k);
    Window(b.data, k, j, m);
    text := chain.buffer[chain.misalign + j..chain.misalign + m];
    SliceOfSlice(chain.buffer[..], chain.misalign, chain.misalign + chain.off, j, m);
  }

  lemma SlicesJoin(s: seq<char>, i: nat, j: nat, k: nat)
    requires i <= j <= k <= |s|
    ensures s[i..j] + s[j..k] == s[i..k]
  {
  }

  /** The loop of `evbuffer_copyout_from` (buffer.c:1229-1249), `n` bytes from a position on */
  method CopyOn(b: EvBuffer, from: Ptr, n: nat, ghost i: nat) returns (out: seq<char>)
    requires b.Valid() && In(b, from, i) && 0 < n && from.pos + n <= |b.Contents()|
    ensures from.pos + n <= |b.Contents()| && from.pos >= 0 && out == b.Contents()[from.pos..from.pos + n]
  {
    hide Flat, Path, Held, Distinct, Cursor, Owner, EvBuffer.Shape, Chain.Fits, Chain.Data;
    ghost var s, k := b.Contents(), i;
    WithinTotal(b, from, i);
    AtEnd(b.data);
    var chain, within, rest := from.chain, from.posInChain, n;
    out := [];
    while rest > 0 && rest >= chain.off - within
      invariant k <= |b.chains| == |b.data| && chain == At(b.chains, k) && 0 <= rest <= n
      invariant 0 <= within <= (if k < |b.data| then |b.data[k]| else 0)
      invariant from.pos + (n - rest) == |Flat(b.data[..k])| + within
      invariant out == s[from.pos..from.pos + (n - rest)]
      invariant rest > 0 ==> chain != null
      decreases |b.chains| - k
    {
      b.Chunk(k);
      Window(b.data, k, 0, 0);
      var text := Piece(b, chain, within, chain.off, k);
      SlicesJoin(s, from.pos, from.pos + (n - rest), from.pos + (n - rest) + |text|);
      out := out + text;
      rest := rest - (chain.off - within);
      chain, within, k := chain.next, 0, k + 1;
    }
    if rest > 0 {
      b.Chunk(k);
      var text := Piece(b, chain, within, within + rest, k);
      SlicesJoin(s, from.pos, from.pos + (n - rest), from.pos + n);
      out := out + text;
    }
  }

  /** `evbuffer_copyout_from` (buffer.c:1191-1254) with a start position */
  method CopyOutFrom(b: EvBuffer, from: Ptr, datlen: nat) returns (result: int, out: seq<char>)
    requires b.Valid() && PtrOk(b, from)
    ensures 0 <= from.pos <= |b.Contents()|
    ensures var n := Behind(|b.Contents()|, from.pos, datlen);
      if datlen > EV_SSIZE_MAX - from.pos || (n > 0 && b.freezeStart) then result == -1 && out == []
      else result == n && out == b.Contents()[from.pos..from.pos + n]
  {
    hide Flat, Path, Held, Distinct, Cursor, Owner, EvBuffer.Shape;
    ghost var i: nat :| In(b, from, i);
    WithinTotal(b, from, i);
    b.Lengths();
    if datlen > EV_SSIZE_MAX - from.pos {
      return -1, [];
    }
    var n := Behind(b.totalLen, from.pos, datlen);
    if n == 0 {
      return 0, [];
    }
    if b.freezeStart {
      return -1, [];
    }
    out := CopyOn(b, from, n, i);
    result := n;
  }

  /** The first position of one of `cs` in `s` from `from` on, or |s|. */
  function IndexOf(s: seq<char>, from: nat, cs: seq<char>): (i: nat)
    requires from <= |s|
    ensures from <= i <= |s|
    decreases |s| - from
  {
    if from == |s| || s[from] in cs then from else IndexOf(s, from + 1, cs)
  }

  lemma {:induction false} IndexOfIsFirst(s: seq<char>, from: nat, cs: seq<char>)
    requires from <= |s|
    ensures var i := IndexOf(s, from, cs);
      (i < |s| ==> s[i] in cs) && forall k :: from <= k < i ==> s[k] !in cs
    decreases |s| - from
  {
    if from < |s| && s[from] !in cs {
      IndexOfIsFirst(s, from + 1, cs);
    }
  }

  lemma {:induction false} FirstIsIndexOf(s: seq<char>, from: nat, cs: seq<char>, i: nat)
    requires from <= i <= |s| && (i < |s| ==> s[i] in cs)
    requires forall k :: from <= k < i ==> s[k] !in cs
    ensures i == IndexOf(s, from, cs)
    decreases i - from
  {
    if from < i {
      FirstIsIndexOf(s, from + 1, cs, i);
    }
  }

  const CHUNK_SZ := 128

  /** `memchr` over `n` bytes from `from` on; |s| stands for NULL */
  method MemChr(s: seq<char>, from: nat, n: nat, c: char) returns (i: nat)
    requires from + n <= |s|
    ensures from <= i && (i < from + n ==> s[i] == c) && (i >= from + n ==> i == |s|)
    ensures forall k :: from <= k < i && k < from + n ==> s[k] != c
  {
    i := from;
    while i < from + n && s[i] != c
      invariant from <= i <= from + n
      invariant forall k :: from <= k < i ==> s[k] != c
    {
      i := i + 1;
    }
    if i == from + n {
      i := |s|;
    }
  }

  /** `find_eol_char` (buffer.c:1496-1520): CR and LF are looked for in pieces of 128 bytes. */
  method FindEolChar(s: seq<char>, from: nat) returns (i: nat)
    requires from <= |s|
    ensures i == IndexOf(s, from, "\r\n")
  {
    i := from;
    while i < |s|
      invariant from <= i
      invariant forall k :: from <= k < i && k < |s| ==> s[k] !in "\r\n"
    {
      var chunk := if i + CHUNK_SZ < |s| then CHUNK_SZ else |s| - i;
      var cr := MemChr(s, i, chunk, '\r');
      var lf := MemChr(s, i, chunk, '\n');
      if cr < |s| {
        i := if lf < |s| && lf < cr then lf else cr;
        FirstIsIndexOf(s, from, "\r\n", i);
        return;
      } else if lf < |s| {
        FirstIsIndexOf(s, from, "\r\n", lf);
        return lf;
      }
      i := i + CHUNK_SZ;
    }
    i := |s|;
    FirstIsIndexOf(s, from, "\r\n", i);
  }

  /** What a search of one chunk says about the search of the whole. */
  lemma ScanChunk(data: seq<seq<char>>, i: nat, k: nat, cs: seq<char>)
    requires i < |data| && k <= |data[i]|
    ensures var at := |Flat(data[..i])|; at + |data[i]| <= |Flat(data)| && at + |data[i]| == |Flat(data[..i + 1])|
    ensures var at, j := |Flat(data[..i])|, IndexOf(data[i], k, cs);
      IndexOf(Flat(data), at + k, cs) ==
        if j < |data[i]| then at + j else IndexOf(Flat(data), at + |data[i]|, cs)
  {
    hide Flat;
    var s, at, n := Flat(data), |Flat(data[..i])|, |data[i]|;
    var j := IndexOf(data[i], k, cs);
    IndexOfIsFirst(data[i], k, cs);
    Window(data, i, 0, n);
    forall x | 0 <= x < n
      ensures s[at + x] == data[i][x]
    {
      assert s[at..at + n][x] == data[i][0..n][x];
    }
    forall y | at + k <= y < at + j
      ensures s[y] !in cs
    {
      assert s[at + (y - at)] == data[i][y - at];
    }
    IndexSkip(s, at + k, at + j, cs);
    if j < n {
      FirstIsIndexOf(s, at + j, cs, at + j);
    }
  }

  lemma {:induction false} IndexSkip(s: seq<char>, from: nat, upTo: nat, cs: seq<char>)
    requires from <= upTo <= |s| && forall k :: from <= k < upTo ==> s[k] !in cs
    ensures IndexOf(s, from, cs) == IndexOf(s, upTo, cs)
    decreases upTo - from
  {
    if from < upTo {
      IndexSkip(s, from + 1, upTo, cs);
    }
  }

  /** The characters that a scan stops at: one, or both of an end of line. */
  function Stops(target: Option<char>): seq<char> {
    if target.Some? then [target.value] else "\r\n"
  }

  /** The search within one chunk */
  method ScanOne(bytes: seq<char>, from: nat, target: Option<char>) returns (cp: nat)
    requires from <= |bytes|
    ensures cp == IndexOf(bytes, from, Stops(target))
  {
    if target.Some? {
      cp := MemChr(bytes, from, |bytes| - from, target.value);
      FirstIsIndexOf(bytes, from, [target.value], cp);
    } else {
      cp := FindEolChar(bytes, from);
    }
  }

  /** `evbuffer_strchr` (buffer.c:1474-1493) and `evbuffer_find_eol_char` (buffer.c:1523-1542) */
  method Scan(b: EvBuffer, it: Ptr, target: Option<char>) returns (p: Ptr, result: int)
    requires b.Valid() && PtrOk(b, it) && it.pos <= |b.Contents()|
    ensures var k := IndexOf(b.Contents(), it.pos, Stops(target));
      if k < |b.Contents()| then PtrOk(b, p) && result == p.pos == k && p.chain != null && p.posInChain < p.chain.off
      else result == -1
  {
    hide Flat, Path, Held, Distinct, Cursor, Owner, EvBuffer.Shape, IndexOf, Stops;
    ghost var i: nat :| In(b, it, i);
    ghost var s, cs := b.Contents(), Stops(target);
    var chain, from, pos := it.chain, it.posInChain, it.pos;
    while chain != null
      invariant i <= |b.chains| == |b.data| && chain == At(b.chains, i)
      invariant 0 <= from <= (if i < |b.data| then |b.data[i]| else 0)
      invariant it.pos <= pos == |Flat(b.data[..i])| + from <= |s|
      invariant IndexOf(s, it.pos, cs) == IndexOf(s, pos, cs)
      decreases |b.chains| - i
    {
      b.Chunk(i);
      ScanChunk(b.data, i, from, cs);
      var cp := ScanOne(chain.buffer[chain.misalign..chain.misalign + chain.off], from, target);
      if cp < chain.off {
        p := Ptr(pos + cp - from, chain, cp);
        result := p.pos;
        assert In(b, p, i);
        return;
      }
      pos := pos + chain.off - from;
      chain, from, i := chain.next, 0, i + 1;
    }
    AtEnd(b.data);
    p, result := NOT_FOUND, -1;
    assert IndexOf(s, |s|, cs) == |s|;
  }

  /** The number of bytes from `from` on that are all in `cs`. */
  function Span(s: seq<char>, from: nat, cs: seq<char>): (n: nat)
    requires from <= |s|
    ensures from + n <= |s|
    decreases |s| - from
  {
    if from == |s| || s[from] !in cs then 0 else 1 + Span(s, from + 1, cs)
  }

  lemma {:induction false} SpanIsMaximal(s: seq<char>, from: nat, cs: seq<char>)
    requires from <= |s|
    ensures var n := Span(s, from, cs);
      (from + n < |s| ==> s[from + n] !in cs) && forall k :: from <= k < from + n ==> s[k] in cs
    decreases |s| - from
  {
    if from < |s| && s[from] in cs {
      SpanIsMaximal(s, from + 1, cs);
    }
  }

  /** What a run within one chunk says about the run in the whole. */
  lemma {:induction false} SpanChunk(data: seq<seq<char>>, i: nat, k: nat, cs: seq<char>)
    requires i < |data| && k <= |data[i]|
    ensures var at := |Flat(data[..i])|; at + |data[i]| <= |Flat(data)| && at + |data[i]| == |Flat(data[..i + 1])|
    ensures var at, n := |Flat(data[..i])|, Span(data[i], k, cs);
      Span(Flat(data), at + k, cs) == n + if k + n < |data[i]| then 0 else Span(Flat(data), at + |data[i]|, cs)
    decreases |data[i]| - k
  {
    hide Flat;
    Window(data, i, 0, |data[i]|);
    if k < |data[i]| {
      Window(data, i, k, k + 1);
      assert Flat(data)[|Flat(data[..i])| + k] == data[i][k];
      if data[i][k] in cs {
        SpanChunk(data, i, k + 1, cs);
      }
    }
  }

  lemma SpanEnd(data: seq<seq<char>>, k: nat, cs: seq<char>)
    requires k < |data|
    ensures k + 1 == |data| ==> |Flat(data[..k + 1])| == |Flat(data)| && Span(Flat(data), |Flat(data)|, cs) == 0
  {
    AtEnd(data);
  }

  /** `evbuffer_strspn` (buffer.c:1545-1581), the count only */
  method Strspn(b: EvBuffer, ptr: Ptr, chrset: seq<char>) returns (count: nat)
    requires b.Valid() && PtrOk(b, ptr) && ptr.pos <= |b.Contents()|
    ensures count == Span(b.Contents(), ptr.pos, chrset)
  {
    hide Flat, Path, Held, Distinct, Cursor, Owner, EvBuffer.Shape, Span;
    ghost var k: nat :| In(b, ptr, k);
    ghost var s := b.Contents();
    var chain, i := ptr.chain, ptr.posInChain;
    count := 0;
    AtEnd(b.data);
    if chain == null {
      return;
    }
    while true
      invariant k < |b.chains| == |b.data| && chain == b.chains[k] && 0 <= i <= |b.data[k]|
      invariant ptr.pos + count == |Flat(b.data[..k])| + i <= |s|
      invariant Span(s, ptr.pos, chrset) == count + Span(s, ptr.pos + count, chrset)
      decreases |b.chains| - k
    {
      b.Chunk(k);
      SpanChunk(b.data, k, i, chrset);
      SpanEnd(b.data, k, chrset);
      var n := SpanOne(chain.buffer[chain.misalign..chain.misalign + chain.off], i, chrset);
      count := count + n;
      if i + n < chain.off || chain.next == null {
        return;
      }
      chain, i, k := chain.next, 0, k + 1;
    }
  }

  /** The loop over the bytes of one chunk */
  method SpanOne(bytes: seq<char>, from: nat, chrset: seq<char>) returns (n: nat)
    requires from <= |bytes|
    ensures n == Span(bytes, from, chrset)
  {
    var i := from;
    while i < |bytes| && bytes[i] in chrset
      invariant from <= i <= |bytes| && Span(bytes, from, chrset) == i - from + Span(bytes, i, chrset)
    {
      i := i + 1;
    }
    n := i - from;
  }

  /** `w` occurs in `s` at position `k`. */
  predicate Occurs(s: seq<char>, k: nat, w: seq<char>) {
    k + |w| <= |s| && s[k..k + |w|] == w
  }

  /** No occurrence begins in a range. */
  ghost predicate NoneIn(s: seq<char>, from: nat, upTo: nat, w: seq<char>) {
    forall k :: from <= k < upTo ==> !Occurs(s, k, w)
  }

  /** One more piece of an occurrence. */
  lemma OccursFurther(data: seq<seq<char>>, i: nat, j: nat, n: nat, at: nat, w: seq<char>, m: nat)
    requires i < |data| && j + n <= |data[i]| && m + n <= |w|
    requires at + m == |Flat(data[..i])| + j && Occurs(Flat(data), at, w[..m])
    ensures Occurs(Flat(data), at, w[..m + n]) <==> data[i][j..j + n] == w[m..m + n]
  {
    hide Flat;
    var s := Flat(data);
    Window(data, i, j, j + n);
    assert s[at..at + m + n] == s[at..at + m] + s[at + m..at + m + n];
    assert w[..m + n] == w[..m] + w[m..m + n];
    if s[at..at + m + n] == w[..m + n] {
      assert s[at..at + m + n][m..] == w[..m + n][m..];
    }
  }

  lemma OccursPrefix(s: seq<char>, at: nat, w: seq<char>, m: nat)
    requires Occurs(s, at, w) && m <= |w|
    ensures Occurs(s, at, w[..m])
  {
    assert s[at..at + |w|][..m] == s[at..at + m];
  }

  /** `evbuffer_ptr_memcmp` (buffer.c:2679-2712), whether the result is 0 */
  method PtrEquals(b: EvBuffer, pos: Ptr, mem: seq<char>) returns (equal: bool)
    requires b.Valid() && PtrOk(b, pos) && 0 <= pos.pos <= |b.Contents()|
    ensures equal <==> Occurs(b.Contents(), pos.pos, mem)
  {
    hide Flat, Path, Held, Distinct, Cursor, Owner, EvBuffer.Shape, Occurs;
    ghost var k: nat :| In(b, pos, k);
    ghost var s := b.Contents();
    OccursBounds(s, pos.pos, mem);
    if pos.pos + |mem| > b.totalLen {
      return false;
    }
    var chain, position, m := pos.chain, pos.posInChain, 0;
    AtEnd(b.data);
    while m < |mem| && chain != null
      invariant k <= |b.chains| == |b.data| && chain == At(b.chains, k)
      invariant 0 <= position <= (if k < |b.data| then |b.data[k]| else 0)
      invariant 0 <= m <= |mem| && Occurs(s, pos.pos, mem[..m])
      invariant m < |mem| ==> pos.pos + m == |Flat(b.data[..k])| + position
      decreases |b.chains| - k
    {
      b.Chunk(k);
      Window(b.data, k, 0, 0);
      var n := if |mem| - m + position > chain.off then chain.off - position else |mem| - m;
      OccursFurther(b.data, k, position, n, pos.pos, mem, m);
      var same := Same(chain, position, mem[m..m + n]);
      if !same {
        if Occurs(s, pos.pos, mem) {
          OccursPrefix(s, pos.pos, mem, m + n);
        }
        return false;
      }
      m := m + n;
      chain, position, k := chain.next, 0, k + 1;
    }
    assert mem[..|mem|] == mem;
    equal := true;
  }

  lemma OccursBounds(s: seq<char>, at: nat, w: seq<char>)
    ensures Occurs(s, at, w) ==> at + |w| <= |s|
    ensures at <= |s| ==> Occurs(s, at, w[..0])
  {
  }

  /** `memcmp` with a piece of a chunk */
  method Same(chain: Chain, position: nat, mem: seq<char>) returns (r: bool)
    requires chain.Fits() && position + |mem| <= chain.off
    ensures r <==> chain.Data()[position..position + |mem|] == mem
  {
    ghost var m := chain.misalign;
    SliceOfSlice(chain.buffer[..], m, m + chain.off, position, position + |mem|);
    r := chain.buffer[chain.misalign + position..chain.misalign + position + |mem|] == mem;
  }

  /** What a search from `from` on, up to `end` if there is one, finds: the first occurrence if it fits. */
  ghost predicate Found(s: seq<char>, from: nat, w: seq<char>, end: Option<Ptr>, r: int) {
    if r >= 0 then
      from <= r && Occurs(s, r, w) && NoneIn(s, from, r, w) && (end.Some? ==> r + |w| <= end.value.pos)
    else
      r == -1 && forall k :: from <= k && Occurs(s, k, w) ==> end.Some? && k + |w| > end.value.pos
  }

  lemma NotHere(s: seq<char>, k: nat, w: seq<char>)
    requires w != [] && k < |s| && s[k] != w[0]
    ensures !Occurs(s, k, w)
  {
    if k + |w| <= |s| {
      assert s[k..k + |w|][0] == s[k];
    }
  }

  /** An occurrence begins with the first character of what is searched for. */
  lemma GapHasNone(data: seq<seq<char>>, i: nat, j: nat, w: seq<char>)
    requires i < |data| && j <= |data[i]| && w != []
    ensures var at := |Flat(data[..i])|; at + |data[i]| <= |Flat(data)| && at + |data[i]| == |Flat(data[..i + 1])|
    ensures var at, k := |Flat(data[..i])|, IndexOf(data[i], j, [w[0]]); NoneIn(Flat(data), at + j, at + k, w)
  {
    hide Flat;
    var s, at, n := Flat(data), |Flat(data[..i])|, |data[i]|;
    var k := IndexOf(data[i], j, [w[0]]);
    IndexOfIsFirst(data[i], j, [w[0]]);
    Window(data, i, 0, n);
    forall x | at + j <= x < at + k
      ensures !Occurs(s, x, w)
    {
      assert s[at..at + n][x - at] == data[i][0..n][x - at];
      NotHere(s, x, w);
    }
  }

  /** No later occurrence can end early enough, once the chunk that `end` lies in is passed. */
  lemma BeyondEnd(data: seq<seq<char>>, i: nat, end: Ptr, e: nat, pos: nat, w: seq<char>)
    requires e <= i < |data| && end.pos <= |Flat(data[..e])| + |data[e]|
    requires pos == |Flat(data[..i + 1])|
    ensures end.pos <= pos
  {
    hide Flat;
    Window(data, e, 0, 0);
    Ordered(data, e + 1, i + 1);
  }

  lemma NoneFurther(s: seq<char>, a: nat, c: nat, d: nat, w: seq<char>)
    requires NoneIn(s, a, c, w) && NoneIn(s, c, d, w)
    ensures NoneIn(s, a, d, w)
  {
  }

  /** One round of the search (buffer.c:2749-2776): the first character is looked for in one chunk. */
  method SearchChunk(b: EvBuffer, pos: Ptr, what: seq<char>, ghost i: nat) returns (next: Ptr, at: bool, equal: bool)
    requires b.Valid() && i < |b.chains| && In(b, pos, i) && what != []
    ensures pos.pos <= next.pos <= |b.Contents()|
    ensures at ==> In(b, next, i) && next.posInChain < |b.data[i]| && NoneIn(b.Contents(), pos.pos, next.pos, what)
    ensures at ==> (equal <==> Occurs(b.Contents(), next.pos, what))
    ensures !at ==> In(b, next, i + 1) && NoneIn(b.Contents(), pos.pos, next.pos, what)
    ensures !at ==> next.pos == |Flat(b.data[..i + 1])|
  {
    hide Flat, Path, Held, Distinct, Cursor, Owner, EvBuffer.Shape, Occurs, NoneIn, IndexOf;
    b.Chunk(i);
    var chain := pos.chain;
    GapHasNone(b.data, i, pos.posInChain, what);
    Window(b.data, i, 0, |b.data[i]|);
    var bytes := chain.buffer[chain.misalign..chain.misalign + chain.off];
    var p := MemChr(bytes, pos.posInChain, chain.off - pos.posInChain, what[0]);
    FirstIsIndexOf(bytes, pos.posInChain, [what[0]], p);
    if p < |bytes| {
      next, at := Ptr(pos.pos + p - pos.posInChain, chain, p), true;
      assert In(b, next, i);
      equal := PtrEquals(b, next, what);
    } else {
      next, at, equal := Ptr(pos.pos + chain.off - pos.posInChain, chain.next, 0), false, false;
    }
  }

  /** One byte on (buffer.c:2762-2767) */
  method OneOn(b: EvBuffer, pos: Ptr, ghost i: nat) returns (next: Ptr, ghost j: nat)
    requires b.Valid() && i < |b.chains| && In(b, pos, i) && pos.posInChain < |b.data[i]|
    ensures In(b, next, j) && next.pos == pos.pos + 1 <= |b.Contents()| && i <= j <= |b.chains|
  {
    hide Flat, Path, Held, Distinct, Cursor, Owner, EvBuffer.Shape;
    b.Chunk(i);
    j := i;
    next := pos.(pos := pos.pos + 1, posInChain := pos.posInChain + 1);
    if next.posInChain == next.chain.off {
      Window(b.data, i, 0, 0);
      next, j := Ptr(next.pos, next.chain.next, 0), i + 1;
    }
    assert In(b, next, j);
    WithinTotal(b, next, j);
  }

  /** `evbuffer_search_range` (buffer.c:2721-2782) */
  method SearchRange(b: EvBuffer, what: seq<char>, start: Option<Ptr>, end: Option<Ptr>) returns (r: Ptr)
    requires b.Valid() && (start.Some? ==> PtrOk(b, start.value)) && (end.Some? ==> PtrOk(b, end.value))
    ensures var from := if start.Some? then start.value.pos else 0;
      if what == [] then r.pos == from else from >= 0 && Found(b.Contents(), from, what, end, r.pos)
    ensures r.pos >= 0 ==> PtrOk(b, r)
    ensures r.pos < 0 ==> r == NOT_FOUND
  {
    hide Flat, Path, Held, Distinct, Cursor, Owner, EvBuffer.Shape, Occurs, NoneIn, Found;
    var pos;
    if start.Some? {
      pos := start.value;
    } else {
      pos := Beginning(b);
    }
    ghost var i: nat :| In(b, pos, i);
    WithinTotal(b, pos, i);
    if what == [] {
      return pos;
    }
    r := SearchFrom(b, pos, what, end, i);
  }

  /** The loop of `evbuffer_search_range` */
  method SearchFrom(b: EvBuffer, start: Ptr, what: seq<char>, end: Option<Ptr>, ghost i0: nat) returns (r: Ptr)
    requires b.Valid() && In(b, start, i0) && 0 <= start.pos <= |b.Contents()| && what != []
    requires end.Some? ==> PtrOk(b, end.value)
    ensures Found(b.Contents(), start.pos, what, end, r.pos)
    ensures r.pos >= 0 ==> PtrOk(b, r)
    ensures r.pos < 0 ==> r == NOT_FOUND
  {
    hide Flat, Path, Held, Distinct, Cursor, Owner, EvBuffer.Shape, Occurs, NoneIn, Found;
    ghost var i, from, s := i0, start.pos, b.Contents();
    var pos := start;
    var lastChain := if end.Some? then end.value.chain else null;
    NoneYet(s, from, what);
    while pos.chain != null
      invariant In(b, pos, i) && from <= pos.pos <= |s| && NoneIn(s, from, pos.pos, what)
      decreases |b.chains| - i, |s| - pos.pos
    {
      var next, at, equal := SearchChunk(b, pos, what, i);
      NoneFurther(s, from, pos.pos, next.pos, what);
      if at {
        if equal {
          FirstOne(s, from, next.pos, what, end);
          r := if end.Some? && next.pos + |what| > end.value.pos then NOT_FOUND else next;
          return;
        }
        NoneOne(s, from, next.pos, what);
        pos, i := OneOn(b, next, i);
      } else {
        if pos.chain == lastChain {
          PastEnd(b, end.value, i, next.pos, what);
          AllTooLate(s, from, next.pos, what, end);
          return NOT_FOUND;
        }
        pos, i := next, i + 1;
      }
    }
    AtEnd(b.data);
    AllTooLate(s, from, pos.pos, what, end);
    return NOT_FOUND;
  }

  lemma NoneYet(s: seq<char>, from: nat, w: seq<char>)
    ensures NoneIn(s, from, from, w)
  {
  }

  lemma NoneOne(s: seq<char>, from: nat, k: nat, w: seq<char>)
    requires from <= k && NoneIn(s, from, k, w) && !Occurs(s, k, w)
    ensures NoneIn(s, from, k + 1, w)
  {
  }

  lemma FirstOne(s: seq<char>, from: nat, k: nat, w: seq<char>, end: Option<Ptr>)
    requires from <= k && NoneIn(s, from, k, w) && Occurs(s, k, w)
    ensures Found(s, from, w, end, if end.Some? && k + |w| > end.value.pos then -1 else k)
  {
  }

  lemma AllTooLate(s: seq<char>, from: nat, k: nat, w: seq<char>, end: Option<Ptr>)
    requires NoneIn(s, from, k, w) && w != [] && (k == |s| || (end.Some? && end.value.pos <= k))
    ensures Found(s, from, w, end, -1)
  {
  }

  /** A search that has passed the chunk of `end` has passed `end`. */
  lemma PastEnd(b: EvBuffer, end: Ptr, i: nat, pos: nat, w: seq<char>)
    requires b.Valid() && PtrOk(b, end) && i < |b.chains| && end.chain == b.chains[i]
    requires pos == |Flat(b.data[..i + 1])|
    ensures end.pos <= pos
  {
    hide Flat, Path, Held, Cursor, Owner, EvBuffer.Shape;
    var e: nat :| In(b, end, e);
    b.Lengths();
    Window(b.data, e, 0, 0);
    BeyondEnd(b.data, i, end, e, pos, w);
  }

  datatype Style = EolAny | EolCrlfStrict | EolCrlf | EolLf | EolNul

  ghost predicate NoneOf(s: seq<char>, from: nat, upTo: nat, cs: seq<char>)
    requires upTo <= |s|
  {
    forall k :: from <= k < upTo ==> s[k] !in cs
  }

  /** The single character that ends a line in the styles that look for one. */
  function Mark(style: Style): char {
    if style == EolNul then '\0' else '\n'
  }

  /** The first end of line from `from` on consists of the `n` bytes at `at`. */
  ghost predicate IsEol(s: seq<char>, from: nat, style: Style, at: nat, n: nat) {
    && from <= at && n > 0 && at + n <= |s|
    && match style
       case EolAny =>
         // the maximal run of CR and LF
         NoneOf(s, from, at, "\r\n") && (forall k :: at <= k < at + n ==> s[k] in "\r\n")
         && (at + n < |s| ==> s[at + n] !in "\r\n")
       case EolCrlfStrict =>
         n == 2 && Occurs(s, at, "\r\n") && NoneIn(s, from, at, "\r\n")
       case EolCrlf =>
         // an LF, with the CR before it if there is one
         s[at + n - 1] == '\n' && NoneOf(s, from, at + n - 1, "\n")
         && if n == 1 then at > from ==> s[at - 1] != '\r' else n == 2 && s[at] == '\r'
       case _ =>
         n == 1 && s[at] == Mark(style) && NoneOf(s, from, at, [Mark(style)])
  }

  ghost predicate NoEol(s: seq<char>, from: nat, style: Style) {
    match style
    case EolAny => NoneOf(s, from, |s|, "\r\n")
    case EolCrlfStrict => forall k :: from <= k ==> !Occurs(s, k, "\r\n")
    case _ => NoneOf(s, from, |s|, [Mark(style)])
  }

  lemma CharAt(b: EvBuffer, p: Ptr)
    requires b.Valid() && PtrOk(b, p) && p.chain != null && p.posInChain < p.chain.off
    ensures 0 <= p.pos < |b.Contents()| && p.chain.Fits()
    ensures p.chain.buffer[p.chain.misalign + p.posInChain] == b.Contents()[p.pos]
  {
    hide Flat, Path, Held, Distinct, Cursor, Owner, EvBuffer.Shape;
    var i: nat :| In(b, p, i);
    b.Chunk(i);
    Window(b.data, i, p.posInChain, p.posInChain + 1);
    assert b.data[i][p.posInChain..p.posInChain + 1][0] == p.chain.Data()[p.posInChain];
    assert Flat(b.data)[p.pos..p.pos + 1][0] == b.Contents()[p.pos];
  }

  /** `evbuffer_getchr` (buffer.c:1585-1594) */
  method GetChr(b: EvBuffer, it: Ptr) returns (c: char)
    requires b.Valid() && PtrOk(b, it) && it.chain != null && it.posInChain < it.chain.off
    ensures 0 <= it.pos < |b.Contents()| && c == b.Contents()[it.pos]
  {
    CharAt(b, it);
    c := it.chain.buffer[it.chain.misalign + it.posInChain];
  }

  /** An LF, with the CR before it if there is one (buffer.c:1640-1661). */
  method SearchCrlf(b: EvBuffer, start: Ptr) returns (it: Ptr, n: nat)
    requires b.Valid() && PtrOk(b, start) && 0 <= start.pos <= |b.Contents()|
    ensures if it.pos >= 0 then PtrOk(b, it) && IsEol(b.Contents(), start.pos, EolCrlf, it.pos, n)
      else it == NOT_FOUND && n == 0 && NoEol(b.Contents(), start.pos, EolCrlf)
  {
    hide Flat, Path, Held, Distinct, Cursor, Owner, EvBuffer.Shape, IndexOf, PtrOk;
    IndexOfIsFirst(b.Contents(), start.pos, Stops(Some('\n')));
    var found;
    it, found := Scan(b, start, Some('\n'));
    if found < 0 {
      return NOT_FOUND, 0;
    }
    n := 1;
    if it.pos == start.pos {
      return;
    }
    var it2, ok := PtrSubtract(b, it, 1);
    if ok < 0 {
      return;
    }
    var c := GetChr(b, it2);
    if c == '\r' {
      it, n := it2, 2;
    }
  }

  /** The maximal run of CR and LF (buffer.c:1627-1632) */
  method SearchAny(b: EvBuffer, start: Ptr) returns (it: Ptr, n: nat)
    requires b.Valid() && PtrOk(b, start) && 0 <= start.pos <= |b.Contents()|
    ensures if it.pos >= 0 then PtrOk(b, it) && IsEol(b.Contents(), start.pos, EolAny, it.pos, n)
      else it == NOT_FOUND && n == 0 && NoEol(b.Contents(), start.pos, EolAny)
  {
    hide Flat, Path, Held, Distinct, Cursor, Owner, EvBuffer.Shape, IndexOf, PtrOk, Span;
    IndexOfIsFirst(b.Contents(), start.pos, Stops(None));
    var found;
    it, found := Scan(b, start, None);
    if found < 0 {
      return NOT_FOUND, 0;
    }
    SpanIsMaximal(b.Contents(), it.pos, "\r\n");
    SpanPositive(b.Contents(), it.pos, "\r\n");
    n := Strspn(b, it, "\r\n");
  }

  /** A single character (buffer.c:1662-1671) */
  method SearchMark(b: EvBuffer, start: Ptr, style: Style) returns (it: Ptr, n: nat)
    requires b.Valid() && PtrOk(b, start) && 0 <= start.pos <= |b.Contents()| && (style == EolLf || style == EolNul)
    ensures if it.pos >= 0 then PtrOk(b, it) && IsEol(b.Contents(), start.pos, style, it.pos, n)
      else it == NOT_FOUND && n == 0 && NoEol(b.Contents(), start.pos, style)
  {
    hide Flat, Path, Held, Distinct, Cursor, Owner, EvBuffer.Shape, IndexOf, PtrOk;
    IndexOfIsFirst(b.Contents(), start.pos, Stops(Some(Mark(style))));
    var found;
    it, found := Scan(b, start, Some(Mark(style)));
    if found < 0 {
      return NOT_FOUND, 0;
    }
    n := 1;
  }

  /** `evbuffer_search_eol` (buffer.c:1597-1684) */
  method SearchEol(b: EvBuffer, start: Option<Ptr>, style: Style) returns (it: Ptr, n: nat)
    requires b.Valid() && (start.Some? ==> PtrOk(b, start.value))
    ensures var from := if start.Some? then start.value.pos else 0;
      from >= 0 && if it.pos >= 0 then PtrOk(b, it) && IsEol(b.Contents(), from, style, it.pos, n)
      else it == NOT_FOUND && n == 0 && NoEol(b.Contents(), from, style)
  {
    hide Flat, Path, Held, Distinct, Cursor, Owner, EvBuffer.Shape, PtrOk, IsEol, NoEol;
    var from;
    if start.Some? {
      from := start.value;
    } else {
      from := Beginning(b);
      OkAt(b, from, 0);
    }
    OkBounds(b, from);
    if start.Some? && from.chain == null {
      NothingLeft(b.Contents(), style);
      return NOT_FOUND, 0;
    }
    match style {
      case EolAny =>
        it, n := SearchAny(b, from);
      case EolCrlfStrict =>
        it := SearchRange(b, "\r\n", Some(from), None);
        n := if it.pos < 0 then 0 else 2;
        StrictEol(b.Contents(), from.pos, it.pos);
      case EolCrlf =>
        it, n := SearchCrlf(b, from);
      case _ =>
        it, n := SearchMark(b, from, style);
    }
  }

  lemma NothingLeft(s: seq<char>, style: Style)
    ensures NoEol(s, |s|, style)
  {
  }

  lemma StrictEol(s: seq<char>, from: nat, r: int)
    requires Found(s, from, "\r\n", None, r)
    ensures if r >= 0 then IsEol(s, from, EolCrlfStrict, r, 2) else NoEol(s, from, EolCrlfStrict)
  {
  }

  lemma SpanPositive(s: seq<char>, from: nat, cs: seq<char>)
    requires from < |s| && s[from] in cs
    ensures Span(s, from, cs) > 0
  {
  }

  lemma OkAt(b: EvBuffer, p: Ptr, i: nat)
    requires In(b, p, i)
    ensures PtrOk(b, p)
  {
  }

  lemma OkBounds(b: EvBuffer, p: Ptr)
    requires b.Valid() && PtrOk(b, p)
    ensures 0 <= p.pos <= |b.Contents()| && (p.chain == null ==> p.pos == |b.Contents()|)
  {
    hide Flat, Path, Held, Distinct, Cursor, Owner, EvBuffer.Shape;
    var i: nat :| In(b, p, i);
    WithinTotal(b, p, i);
  }

  /** `evbuffer_readln` (buffer.c:1687-1723) */
  method Readln(b: EvBuffer, style: Style) returns (line: Option<seq<char>>)
    requires b.Valid()
    modifies b, Nodes(b.chains)`off, Nodes(b.chains)`misalign
    ensures b.Valid() && Grown(old(b.chains), b.chains)
    ensures line.None? <==> old(b.freezeStart) || NoEol(old(b.Contents()), 0, style)
    ensures line.None? ==> b.Contents() == old(b.Contents())
    ensures line.Some? ==> exists end ::
      old(b.Contents()) == line.value + end + b.Contents()
      && IsEol(old(b.Contents()), 0, style, |line.value|, |end|)
    ensures b.freezeStart == old(b.freezeStart) && b.freezeEnd == old(b.freezeEnd)
  {
    hide Flat, Path, Held, Distinct, Cursor, Owner, EvBuffer.Shape, IsEol, NoEol;
    if b.freezeStart {
      return None;
    }
    var it, extra := SearchEol(b, None, style);
    if it.pos < 0 {
      return None;
    }
    ghost var s := b.Contents();
    EolBounds(s, style, it.pos, extra);
    var _, text := b.Remove(it.pos);
    ghost var rest := b.Contents();
    var _ := b.Drain(extra);
    assert rest == rest[..extra] + b.Contents();
    Assoc(text, rest[..extra], b.Contents());
    line := Some(text);
  }

  lemma EolBounds(s: seq<char>, style: Style, at: nat, n: nat)
    requires IsEol(s, 0, style, at, n)
    ensures at + n <= |s| && n > 0
    ensures !NoEol(s, 0, style)
  {
    if style == EolAny {
      assert s[at] in "\r\n";
    }
  }

  /** There is at most one first end of line, so that a line and what ends it are determined by the bytes. */
  lemma EolIsUnique(s: seq<char>, from: nat, style: Style, at: nat, n: nat, at': nat, n': nat)
    requires IsEol(s, from, style, at, n) && IsEol(s, from, style, at', n')
    ensures at == at' && n == n'
  {
    match style {
      case EolAny =>
        assert s[at] in "\r\n" && s[at'] in "\r\n";
      case EolCrlf =>
        assert s[at + n - 1] == '\n' && s[at' + n' - 1] == '\n';
      case _ =>
    }
  }
}
