/**
 * One chunk of an evbuffer, `struct evbuffer_chain` (deps/libevent/evbuffer-internal.h:166-206):
 * a fixed memory area of which a window of `off` bytes, starting at `misalign`, holds data.
 * Chunks are ordinary ones: neither immutable, nor pinned, nor referencing foreign memory.
 */
module Chains {

  const MIN_BUFFER_SIZE := 1024
  const EVBUFFER_CHAIN_SIZE := 48
  const EVBUFFER_CHAIN_MAX := 0x7FFF_FFFF_FFFF_FFFF
  const MAX_TO_REALIGN_IN_EXPAND := 2048

  /** The smallest of 1024, 2048, 4096, ... that is at least `need`. */
  function RoundUp(need: nat): (n: nat)
    ensures n >= need && n >= MIN_BUFFER_SIZE
    ensures n == MIN_BUFFER_SIZE || n <= 2 * need - 2
  {
    if need <= MIN_BUFFER_SIZE then MIN_BUFFER_SIZE else 2 * RoundUp((need + 1) / 2)
  }

  /** How many bytes a chunk asked for with `size` has room for. */
  function Capacity(size: nat): (n: nat)
    ensures n >= size && MIN_BUFFER_SIZE - EVBUFFER_CHAIN_SIZE <= n <= 2 * size + MIN_BUFFER_SIZE + EVBUFFER_CHAIN_SIZE
  {
    var need := size + EVBUFFER_CHAIN_SIZE;
    if need < EVBUFFER_CHAIN_MAX / 2 then RoundUp(need) - EVBUFFER_CHAIN_SIZE else size
  }

  /** Doubling from 1024 until `need` is reached does not overshoot. */
  lemma {:induction false} DoublingIsRoundUp(n: nat, need: nat, k: nat)
    requires n == MIN_BUFFER_SIZE * Power(k) && need <= n
    requires k > 0 ==> MIN_BUFFER_SIZE * Power(k - 1) < need
    ensures RoundUp(need) == n
  {
    if k > 0 {
      DoublingIsRoundUp(n / 2, (need + 1) / 2, k - 1);
    }
  }

  function Power(k: nat): (p: nat)
    ensures p > 0
  {
    if k == 0 then 1 else 2 * Power(k - 1)
  }

  class Chain {
    var next: Chain?
    const buffer: array<char>
    var misalign: nat
    var off: nat

    /** The window lies inside the memory area. */
    ghost predicate Fits()
      reads `misalign, `off
    {
      misalign + off <= buffer.Length && buffer.Length > 0
    }

    /** The bytes held. */
    ghost function Data(): (d: seq<char>)
      requires Fits()
      reads `misalign, `off, buffer
      ensures |d| == off
    {
      buffer[misalign..misalign + off]
    }

    /** `evbuffer_chain_new` (buffer.c:157-193) */
    constructor (size: nat)
      ensures Fits() && Data() == [] && next == null && misalign == 0
      ensures buffer.Length == Capacity(size) && fresh(buffer)
    {
      var need := size + EVBUFFER_CHAIN_SIZE;
      var toAlloc := need;
      if need < EVBUFFER_CHAIN_MAX / 2 {
        toAlloc := MIN_BUFFER_SIZE;
        ghost var k := 0;
        while toAlloc < need
          invariant toAlloc == MIN_BUFFER_SIZE * Power(k)
          invariant k > 0 ==> MIN_BUFFER_SIZE * Power(k - 1) < need
        {
          toAlloc, k := toAlloc * 2, k + 1;
        }
        DoublingIsRoundUp(toAlloc, need, k);
      }
      buffer := new char[toAlloc - EVBUFFER_CHAIN_SIZE];
      next, misalign, off := null, 0, 0;
    }

    /** CHAIN_SPACE_LEN */
    function SpaceLen(): (n: int)
      reads `misalign, `off
    {
      buffer.Length - (misalign + off)
    }

    /** Bytes are copied behind the data. */
    method Append(s: seq<char>)
      requires Fits() && |s| <= SpaceLen()
      modifies this`off, buffer
      ensures Fits() && Data() == old(Data()) + s && off == old(off) + |s|
    {
      var at := misalign + off;
      forall i | 0 <= i < |s| {
        buffer[at + i] := s[i];
      }
      off := off + |s|;
    }

    /** Bytes are copied before the data. */
    method PutBefore(s: seq<char>)
      requires Fits() && |s| <= misalign
      modifies this`off, this`misalign, buffer
      ensures Fits() && Data() == s + old(Data())
      ensures misalign == old(misalign) - |s| && off == old(off) + |s|
    {
      misalign := misalign - |s|;
      off := off + |s|;
      forall i | 0 <= i < |s| {
        buffer[misalign + i] := s[i];
      }
      assert buffer[misalign..misalign + |s|] == s;
      assert buffer[misalign + |s|..misalign + off] == old(Data());
      assert Data() == buffer[misalign..misalign + |s|] + buffer[misalign + |s|..misalign + off];
    }

    /** The first `n` bytes are given up. */
    method Skip(n: nat)
      requires Fits() && n <= off
      modifies this`off, this`misalign
      ensures Fits() && Data() == old(Data())[n..] && off == old(off) - n
    {
      misalign := misalign + n;
      off := off - n;
    }

    /** `evbuffer_chain_align` (buffer.c:1914-1920) */
    method Align()
      requires Fits()
      modifies this`misalign, buffer
      ensures Fits() && Data() == old(Data()) && misalign == 0
    {
      forall i | 0 <= i < off {
        buffer[i] := buffer[misalign + i];
      }
      misalign := 0;
    }

    /** `evbuffer_chain_should_realign` (buffer.c:1928-1934) */
    predicate ShouldRealign(datlen: nat)
      reads `off
    {
      && buffer.Length - off >= datlen
      && off < buffer.Length / 2
      && off <= MAX_TO_REALIGN_IN_EXPAND
    }
  }
}
