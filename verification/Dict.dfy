/**
 * The hash table of the asynchronous client's subscriptions (deps/hiredis/dict.c): an array of linked
 * chains of entries, a power of two long. `contents` is the finite map it stands for.
 */
module Dicts {
  import opened Common

  const DICT_HT_INITIAL_SIZE := 4
  const LONG_MAX := 0x7FFF_FFFF_FFFF_FFFF

  /** Positions are ints in `dictAdd` and in the iterator, so the table may not grow beyond this. */
  const MAX_SIZE := 0x4000_0000

  /** Bitwise and. */
  function And(a: nat, b: nat): nat {
    if a == 0 || b == 0 then 0 else 2 * And(a / 2, b / 2) + (a % 2) * (b % 2)
  }

  predicate IsPower(n: nat) {
    n == 1 || (n > 1 && n % 2 == 0 && IsPower(n / 2))
  }

  /** Masking with one less than a power of two is taking the remainder. */
  lemma {:induction false} MaskIsRemainder(h: nat, n: nat)
    requires IsPower(n)
    ensures And(h, n - 1) == h % n
    decreases h
  {
    hide And;
    if n == 1 || h == 0 {
      MaskZero(h, n);
    } else {
      var m := n / 2;
      assert n == 2 * m && n - 1 == 2 * (m - 1) + 1;
      MaskIsRemainder(h / 2, m);
      OddAnd(h, m - 1);
      TwiceRemainder(h, m);
    }
  }

  lemma MaskZero(h: nat, n: nat)
    requires n > 0 && (n == 1 || h == 0)
    ensures And(h, n - 1) == h % n
  {
    Remainder(h, n, if n == 1 then h else 0, 0);
  }

  lemma OddAnd(h: nat, m: nat)
    requires h > 0
    ensures And(h, 2 * m + 1) == 2 * And(h / 2, m) + h % 2
  {
    assert (2 * m + 1) / 2 == m && (2 * m + 1) % 2 == 1;
  }

  lemma TwiceRemainder(h: nat, m: nat)
    requires m > 0
    ensures h % (2 * m) == 2 * (h / 2 % m) + h % 2
  {
    var q, r := h / 2 / m, h / 2 % m;
    assert h / 2 == q * m + r;
    assert q * (2 * m) == 2 * (q * m);
    Remainder(h, 2 * m, q, 2 * r + h % 2);
  }

  /** `struct dictEntry` */
  class Entry {
    const key: string
    var val: nat
    var next: Entry?

    constructor (key: string, val: nat, next: Entry?)
      ensures this.key == key && this.val == val && this.next == next
    {
      this.key, this.val, this.next := key, val, next;
    }
  }

  /** The entries from `head` on. */
  ghost predicate Chained(head: Entry?, c: seq<Entry>)
    reads (set e | e in c)`next
  {
    && head == (if c == [] then null else c[0])
    && forall j {:trigger c[j].next} :: 0 <= j < |c| ==> c[j].next == (if j + 1 < |c| then c[j + 1] else null)
  }

  lemma NextInChain(head: Entry?, c: seq<Entry>, j: nat)
    requires Chained(head, c) && j < |c|
    ensures c[j].next == if j + 1 < |c| then c[j + 1] else null
  {
  }

  /** The keys of a chain are different and belong to its bucket. */
  ghost predicate Keyed(hash: string -> nat, c: seq<Entry>, i: nat, n: nat)
    requires n > 0
  {
    && (forall j :: 0 <= j < |c| ==> hash(c[j].key) % n == i)
    && (forall j, k :: 0 <= j < k < |c| ==> c[j].key != c[k].key)
  }

  ghost predicate HasKey(c: seq<Entry>, k: string) {
    exists j :: 0 <= j < |c| && c[j].key == k
  }

  ghost predicate Holds(c: seq<Entry>, m: map<string, nat>)
    reads (set e | e in c)`val
  {
    forall j :: 0 <= j < |c| ==> c[j].key in m && m[c[j].key] == c[j].val
  }

  ghost function Entries(chains: seq<seq<Entry>>): set<Entry> {
    set i, j | 0 <= i < |chains| && 0 <= j < |chains[i]| :: chains[i][j]
  }

  /** The chains of a table of `n` buckets. */
  ghost predicate Linked(table: array<Entry?>, chains: seq<seq<Entry>>)
    reads table, (set i, j | 0 <= i < |chains| && 0 <= j < |chains[i]| :: chains[i][j])`next
  {
    |chains| == table.Length && forall i :: 0 <= i < |chains| ==> Chained(table[i], chains[i])
  }

  ghost predicate AllKeyed(hash: string -> nat, chains: seq<seq<Entry>>) {
    forall i :: 0 <= i < |chains| ==> Keyed(hash, chains[i], i, |chains|)
  }

  ghost predicate AllHold(chains: seq<seq<Entry>>, m: map<string, nat>)
    reads (set i, j | 0 <= i < |chains| && 0 <= j < |chains[i]| :: chains[i][j])`val
  {
    forall i :: 0 <= i < |chains| ==> Holds(chains[i], m)
  }

  /** Every key of `m` is found in its bucket. */
  ghost predicate Complete(hash: string -> nat, chains: seq<seq<Entry>>, m: map<string, nat>) {
    forall k :: k in m ==> |chains| > 0 && HasKey(chains[hash(k) % |chains|], k)
  }

  /** The keys of the entries from position `j` of bucket `i` on. */
  ghost function Left(cs: seq<seq<Entry>>, i: nat, j: nat): set<string> {
    set a, b | 0 <= a < |cs| && 0 <= b < |cs[a]| && (a > i || (a == i && b >= j)) :: cs[a][b].key
  }

  lemma LeftHas(cs: seq<seq<Entry>>, i: nat, j: nat, a: nat, b: nat)
    requires a < |cs| && b < |cs[a]| && (a > i || (a == i && b >= j))
    ensures cs[a][b].key in Left(cs, i, j)
  {
  }

  /** Entries in different places have different keys, so they are different. */
  lemma KeysDiffer(hash: string -> nat, cs: seq<seq<Entry>>, i: nat, j: nat, a: nat, b: nat)
    requires AllKeyed(hash, cs) && i < |cs| && j < |cs[i]| && a < |cs| && b < |cs[a]| && (a, b) != (i, j)
    ensures cs[a][b].key != cs[i][j].key
  {
    assert Keyed(hash, cs[i], i, |cs|) && Keyed(hash, cs[a], a, |cs|);
  }

  lemma SamePlace(hash: string -> nat, cs: seq<seq<Entry>>, i: nat, j: nat, a: nat, b: nat)
    requires AllKeyed(hash, cs) && i < |cs| && j < |cs[i]| && a < |cs| && b < |cs[a]|
    requires cs[a][b].key == cs[i][j].key
    ensures a == i && b == j
  {
    assert Keyed(hash, cs[i], i, |cs|) && Keyed(hash, cs[a], a, |cs|);
  }

  lemma LeftStep(hash: string -> nat, cs: seq<seq<Entry>>, i: nat, j: nat)
    requires AllKeyed(hash, cs) && i < |cs| && j < |cs[i]|
    ensures var k := cs[i][j].key; k !in Left(cs, i, j + 1) && Left(cs, i, j) == Left(cs, i, j + 1) + {k}
    ensures forall a :: i < a < |cs| ==> cs[i][j] !in cs[a]
    ensures cs[i][j] !in cs[i][j + 1..]
  {
    forall a: nat, b: nat | a < |cs| && b < |cs[a]| && (a, b) != (i, j)
      ensures cs[a][b].key != cs[i][j].key
    {
      KeysDiffer(hash, cs, i, j, a, b);
    }
    forall k
      ensures k in Left(cs, i, j) <==> k in Left(cs, i, j + 1) + {cs[i][j].key}
    {
      if k in Left(cs, i, j) {
        var a: nat, b: nat :| a < |cs| && b < |cs[a]| && (a > i || (a == i && b >= j)) && cs[a][b].key == k;
        if (a, b) != (i, j) {
          LeftHas(cs, i, j + 1, a, b);
        }
      }
      if k in Left(cs, i, j + 1) {
        var a: nat, b: nat :| a < |cs| && b < |cs[a]| && (a > i || (a == i && b >= j + 1)) && cs[a][b].key == k;
        LeftHas(cs, i, j, a, b);
      }
    }
  }

  lemma LeftNextBucket(cs: seq<seq<Entry>>, i: nat)
    requires i < |cs|
    ensures Left(cs, i, |cs[i]|) == Left(cs, i + 1, 0)
  {
    forall k
      ensures k in Left(cs, i, |cs[i]|) <==> k in Left(cs, i + 1, 0)
    {
      if k in Left(cs, i, |cs[i]|) {
        var a: nat, b: nat :| a < |cs| && b < |cs[a]| && a > i && cs[a][b].key == k;
        LeftHas(cs, i + 1, 0, a, b);
      }
      if k in Left(cs, i + 1, 0) {
        var a: nat, b: nat :| a < |cs| && b < |cs[a]| && a > i && cs[a][b].key == k;
        LeftHas(cs, i, |cs[i]|, a, b);
      }
    }
  }

  lemma AllLeft(hash: string -> nat, cs: seq<seq<Entry>>, m: map<string, nat>)
    requires AllHold(cs, m) && Complete(hash, cs, m)
    ensures Left(cs, 0, 0) == m.Keys
  {
    forall k
      ensures k in Left(cs, 0, 0) <==> k in m
    {
      if k in Left(cs, 0, 0) {
        var a: nat, b: nat :| a < |cs| && b < |cs[a]| && cs[a][b].key == k;
        assert Holds(cs[a], m);
      }
      if k in m {
        var a := hash(k) % |cs|;
        var b :| 0 <= b < |cs[a]| && cs[a][b].key == k;
        LeftHas(cs, 0, 0, a, b);
      }
    }
  }

  // ----- Putting an entry at the front of a chain -----

  lemma PushKeyed(hash: string -> nat, chains: seq<seq<Entry>>, h: nat, e: Entry)
    requires AllKeyed(hash, chains) && h < |chains| && hash(e.key) % |chains| == h && !HasKey(chains[h], e.key)
    ensures AllKeyed(hash, chains[h := [e] + chains[h]])
  {
    var c := chains[h];
    assert Keyed(hash, c, h, |chains|);
    forall j, k | 0 <= j < k < |[e] + c|
      ensures ([e] + c)[j].key != ([e] + c)[k].key
    {
      if j == 0 {
        assert ([e] + c)[k] == c[k - 1];
      }
    }
    assert Keyed(hash, [e] + c, h, |chains|);
  }

  lemma PushHolds(chains: seq<seq<Entry>>, h: nat, e: Entry, m: map<string, nat>)
    requires AllHold(chains, m) && h < |chains| && e.key in m && m[e.key] == e.val
    ensures AllHold(chains[h := [e] + chains[h]], m)
  {
    assert Holds(chains[h], m);
    assert Holds([e] + chains[h], m);
  }

  lemma PushComplete(hash: string -> nat, chains: seq<seq<Entry>>, h: nat, e: Entry, m: map<string, nat>, m': map<string, nat>)
    requires Complete(hash, chains, m) && h < |chains| && hash(e.key) % |chains| == h && m'.Keys == m.Keys + {e.key}
    ensures Complete(hash, chains[h := [e] + chains[h]], m')
  {
    var cs := chains[h := [e] + chains[h]];
    forall k | k in m'
      ensures HasKey(cs[hash(k) % |cs|], k)
    {
      if k == e.key {
        assert cs[h][0] == e;
      } else {
        var c := chains[hash(k) % |chains|];
        var j :| 0 <= j < |c| && c[j].key == k;
        if hash(k) % |chains| == h {
          assert cs[h][j + 1] == c[j];
        }
      }
    }
  }

  lemma PushEntries(chains: seq<seq<Entry>>, h: nat, e: Entry)
    requires h < |chains|
    ensures Entries(chains[h := [e] + chains[h]]) == Entries(chains) + {e}
  {
    var cs := chains[h := [e] + chains[h]];
    forall x
      ensures x in Entries(cs) <==> x in Entries(chains) + {e}
    {
      if x in Entries(cs) {
        var i, j :| 0 <= i < |cs| && 0 <= j < |cs[i]| && cs[i][j] == x;
        if i == h && j > 0 {
          assert x == chains[h][j - 1];
        }
      }
      if x in Entries(chains) {
        var i, j :| 0 <= i < |chains| && 0 <= j < |chains[i]| && chains[i][j] == x;
        if i == h {
          assert x == cs[h][j + 1];
        } else {
          assert x == cs[i][j];
        }
      }
      assert cs[h][0] == e;
    }
  }

  method Push(table: array<Entry?>, ghost chains: seq<seq<Entry>>, h: nat, e: Entry)
    requires Linked(table, chains) && h < table.Length && e !in Entries(chains)
    modifies table, e`next
    ensures Linked(table, chains[h := [e] + chains[h]])
  {
    forall i | 0 <= i < |chains|
      ensures e !in chains[i]
    {
    }
    ghost var head := table[h];
    e.next := table[h];
    assert forall i :: 0 <= i < |chains| ==> Chained(table[i], chains[i]);
    table[h] := e;
    ChainedCons(e, head, chains[h]);
  }

  lemma ChainedCons(e: Entry, head: Entry?, c: seq<Entry>)
    requires e.next == head && Chained(head, c)
    ensures Chained(e, [e] + c)
  {
    forall j | 0 <= j < |[e] + c|
      ensures ([e] + c)[j].next == if j + 1 < |[e] + c| then ([e] + c)[j + 1] else null
    {
      if j > 0 {
        NextInChain(head, c, j - 1);
      }
    }
  }

  // ----- Growing the table -----

  /** The entries moved so far, whose keys are all but `left`, in the new table. */
  ghost predicate Moved(hash: string -> nat, table: array<Entry?>, chains: seq<seq<Entry>>, m: map<string, nat>, left: set<string>)
    reads table, set i, j | 0 <= i < |chains| && 0 <= j < |chains[i]| :: chains[i][j]
  {
    && Linked(table, chains) && AllKeyed(hash, chains)
    && AllHold(chains, m) && Complete(hash, chains, m - left)
    && forall e :: e in Entries(chains) ==> e.key !in left
  }

  /** The chains of the old table that have not been moved. */
  ghost predicate RestLinked(table: array<Entry?>, cs: seq<seq<Entry>>, i: nat)
    reads table, (set a, b | i <= a < |cs| && 0 <= b < |cs[a]| :: cs[a][b])`next
  {
    |cs| == table.Length && forall a :: i <= a < |cs| ==> Chained(table[a], cs[a])
  }

  lemma NotThere(nc: seq<seq<Entry>>, h: nat, k: string, left: set<string>)
    requires h < |nc| && k in left && forall x :: x in Entries(nc) ==> x.key !in left
    ensures !HasKey(nc[h], k)
  {
    forall j | 0 <= j < |nc[h]|
      ensures nc[h][j].key != k
    {
      assert nc[h][j] in Entries(nc);
    }
  }

  /** One entry more is in the new table. */
  lemma MovedOne(hash: string -> nat, nc: seq<seq<Entry>>, m: map<string, nat>, h: nat, e: Entry, left: set<string>, left': set<string>)
    requires AllKeyed(hash, nc) && AllHold(nc, m) && Complete(hash, nc, m - left)
    requires forall x :: x in Entries(nc) ==> x.key !in left
    requires h < |nc| && hash(e.key) % |nc| == h && e.key in m && m[e.key] == e.val
    requires e.key !in left' && left == left' + {e.key}
    ensures var nc' := nc[h := [e] + nc[h]];
            && AllKeyed(hash, nc') && AllHold(nc', m) && Complete(hash, nc', m - left')
            && Entries(nc') == Entries(nc) + {e}
            && forall x :: x in Entries(nc') ==> x.key !in left'
  {
    NotThere(nc, h, e.key, left);
    PushKeyed(hash, nc, h, e);
    PushHolds(nc, h, e, m);
    PushComplete(hash, nc, h, e, m - left, m - left');
    PushEntries(nc, h, e);
  }

  class Dict {
    const hash: string -> nat
    var table: array<Entry?>
    var size: nat
    var sizemask: nat
    var used: nat
    ghost var chains: seq<seq<Entry>>
    ghost var contents: map<string, nat>

    ghost predicate Sized()
      reads this
    {
      && size == table.Length == |chains| && size <= MAX_SIZE
      && (size == 0 || (IsPower(size) && size >= DICT_HT_INITIAL_SIZE && sizemask == size - 1))
      && used == |contents| <= size
    }

    ghost predicate Valid()
      reads this, table, set i, j | 0 <= i < |chains| && 0 <= j < |chains[i]| :: chains[i][j]
    {
      && Sized()
      && Linked(table, chains) && AllKeyed(hash, chains)
      && AllHold(chains, contents) && Complete(hash, chains, contents)
    }

    /** `dictCreate` (dict.c:74-81) */
    constructor (hash: string -> nat)
      ensures Valid() && contents == map[] && this.hash == hash && fresh(table) && chains == []
    {
      this.hash := hash;
      table := new Entry?[0];
      size, sizemask, used := 0, 0, 0;
      chains, contents := [], map[];
    }

    /** The bucket of a key. */
    method Bucket(key: string) returns (h: nat)
      requires Sized() && size > 0
      ensures h == hash(key) % size && h < table.Length
    {
      MaskIsRemainder(hash(key), size);
      h := And(hash(key), sizemask);
    }

    /** The search loop of `dictFind` and `_dictKeyIndex`. */
    method Search(h: nat, key: string) returns (he: Entry?)
      requires h < |chains| == table.Length && Chained(table[h], chains[h])
      ensures he == null ==> !HasKey(chains[h], key)
      ensures he != null ==> he in chains[h] && he.key == key
    {
      ghost var c, j := chains[h], 0;
      he := table[h];
      while he != null
        invariant 0 <= j <= |c| && he == (if j < |c| then c[j] else null)
        invariant forall i :: 0 <= i < j ==> c[i].key != key
        decreases |c| - j
      {
        if he.key == key {
          return;
        }
        NextInChain(table[h], c, j);
        he := he.next;
        j := j + 1;
      }
    }

    /** `dictFind` (dict.c:255-268) */
    method Find(key: string) returns (he: Entry?)
      requires Valid()
      ensures he == null <==> key !in contents
      ensures he != null ==> he.key == key && he.val == contents[key] && he in Entries(chains)
    {
      if size == 0 {
        return null;
      }
      var h := Bucket(key);
      he := Search(h, key);
      FoundOrNot(hash, chains, contents, key, h, he);
    }
  
    /** `_dictNextPower` (dict.c:311-320) */
    method NextPower(size: nat) returns (i: nat)
      ensures size >= LONG_MAX ==> i == LONG_MAX
      ensures size < LONG_MAX ==> i >= size && IsPower(i) && i >= DICT_HT_INITIAL_SIZE && (i == DICT_HT_INITIAL_SIZE || i / 2 < size)
    {
      hide IsPower;
      if size >= LONG_MAX {
        return LONG_MAX;
      }
      i := DICT_HT_INITIAL_SIZE;
      FourIsPower();
      while i < size
        invariant IsPower(i) && i >= DICT_HT_INITIAL_SIZE && (i == DICT_HT_INITIAL_SIZE || i / 2 < size)
      {
        Twice(i);
        i := i * 2;
      }
    }

    /** An entry of the chain of bucket `i` becomes the first of its chain in the new table. */
    method MoveOne(ntable: array<Entry?>, mask: nat, i: nat, ghost j: nat, he: Entry, ghost nc: seq<seq<Entry>>)
        returns (ghost nc': seq<seq<Entry>>)
      requires i < |chains| && j < |chains[i]| && he == chains[i][j]
      requires AllKeyed(hash, chains) && AllHold(chains, contents) && used == |Left(chains, i, j)|
      requires Moved(hash, ntable, nc, contents, Left(chains, i, j)) && Entries(nc) <= Entries(chains)
      requires IsPower(ntable.Length) && mask == ntable.Length - 1
      modifies this`used, ntable, he`next
      ensures Moved(hash, ntable, nc', contents, Left(chains, i, j + 1)) && Entries(nc') <= Entries(chains)
      ensures used == |Left(chains, i, j + 1)|
    {
      hide And, IsPower, AllKeyed, AllHold, Complete, Left;
      MaskIsRemainder(hash(he.key), ntable.Length);
      var h := And(hash(he.key), mask);
      LeftStep(hash, chains, i, j);
      HeldAt(chains, contents, i, j);
      nc' := nc[h := [he] + nc[h]];
      MovedOne(hash, nc, contents, h, he, Left(chains, i, j), Left(chains, i, j + 1));
      Push(ntable, nc, h, he);
      used := used - 1;
    }

    /** The inner loop of `dictExpand`: one chain is moved. */
    method MoveChain(ntable: array<Entry?>, mask: nat, i: nat, ghost nc: seq<seq<Entry>>)
        returns (ghost nc': seq<seq<Entry>>)
      requires i < |chains| && table != ntable && RestLinked(table, chains, i)
      requires AllKeyed(hash, chains) && AllHold(chains, contents) && used == |Left(chains, i, 0)|
      requires Moved(hash, ntable, nc, contents, Left(chains, i, 0)) && Entries(nc) <= Entries(chains)
      requires IsPower(ntable.Length) && mask == ntable.Length - 1
      modifies this`used, ntable, Entries(chains)`next
      ensures RestLinked(table, chains, i + 1)
      ensures Moved(hash, ntable, nc', contents, Left(chains, i + 1, 0)) && Entries(nc') <= Entries(chains)
      ensures used == |Left(chains, i + 1, 0)|
    {
      hide Moved, AllKeyed, AllHold, IsPower, Left;
      ghost var c, j := chains[i], 0;
      nc' := nc;
      var he := table[i];
      assert Chained(he, c[0..]) by { assert c[0..] == c; }
      while he != null
        invariant j <= |c| && Chained(he, c[j..])
        invariant RestLinked(table, chains, i + 1)
        invariant AllHold(chains, contents) && used == |Left(chains, i, j)|
        invariant Moved(hash, ntable, nc', contents, Left(chains, i, j)) && Entries(nc') <= Entries(chains)
        decreases |c| - j
      {
        var nextHe := he.next;
        ChainedTail(he, c, j);
        LeftStep(hash, chains, i, j);
        assert c[j] in Entries(chains);
        nc' := MoveOne(ntable, mask, i, j, he, nc');
        he := nextHe;
        j := j + 1;
      }
      assert j == |c|;
      LeftNextBucket(chains, i);
    }

    /** The outer loop of `dictExpand`: the chains are moved one by one, until no entry is left. */
    method MoveAll(ntable: array<Entry?>, mask: nat, ghost nc: seq<seq<Entry>>) returns (ghost nc': seq<seq<Entry>>)
      requires size == table.Length && table != ntable && RestLinked(table, chains, 0)
      requires AllKeyed(hash, chains) && AllHold(chains, contents) && used == |Left(chains, 0, 0)|
      requires Moved(hash, ntable, nc, contents, Left(chains, 0, 0)) && Entries(nc) <= Entries(chains)
      requires IsPower(ntable.Length) && mask == ntable.Length - 1
      modifies this`used, ntable, Entries(chains)`next
      ensures Moved(hash, ntable, nc', contents, {}) && Entries(nc') <= Entries(chains)
    {
      hide AllKeyed, AllHold, Moved, Left, RestLinked;
      var i := 0;
      nc' := nc;
      LengthsAgree(table, chains, 0);
      while i < size && used > 0
        invariant i <= size && RestLinked(table, chains, i)
        invariant AllHold(chains, contents) && used == |Left(chains, i, 0)|
        invariant Moved(hash, ntable, nc', contents, Left(chains, i, 0)) && Entries(nc') <= Entries(chains)
      {
        nc' := MoveChain(ntable, mask, i, nc');
        i := i + 1;
      }
      LeftNone(chains, i);
    }

    /** `dictExpand` (dict.c:92-138) */
    method Expand(newSize: nat) returns (ok: bool)
      requires Valid() && newSize <= MAX_SIZE
      modifies this`table, this`size, this`sizemask, this`used, this`chains, Entries(chains)`next
      ensures Valid() && contents == old(contents)
      ensures ok == (old(used) <= newSize)
      ensures !ok ==> chains == old(chains) && table == old(table)
      ensures ok ==> fresh(table) && Entries(chains) <= old(Entries(chains))
      ensures ok ==> size >= newSize && (size == DICT_HT_INITIAL_SIZE || size / 2 < newSize)
    {
      hide AllKeyed, AllHold, Complete, Left, IsPower, Linked, Moved;
      var realsize := NextPower(newSize);
      if used > newSize {
        return false;
      }
      NextPowerFits(realsize, newSize);
      var count := used;
      AllLeft(hash, chains, contents);
      RestIsAll(table, chains);
      var ntable, nc := EmptyTable(realsize);
      nc := MoveAll(ntable, realsize - 1, nc);
      Install(ntable, count, nc);
      ok := true;
    }

    method EmptyTable(n: nat) returns (ntable: array<Entry?>, ghost nc: seq<seq<Entry>>)
      ensures fresh(ntable) && ntable.Length == n
      ensures Moved(hash, ntable, nc, contents, contents.Keys) && Entries(nc) == {}
    {
      ntable := new Entry?[n](_ => null);
      nc := seq(n, _ => []);
      assert contents - contents.Keys == map[];
    }

    /** The new table takes the place of the old one. */
    method Install(ntable: array<Entry?>, count: nat, ghost nc: seq<seq<Entry>>)
      requires Moved(hash, ntable, nc, contents, {}) && count == |contents| <= ntable.Length <= MAX_SIZE
      requires IsPower(ntable.Length) && ntable.Length >= DICT_HT_INITIAL_SIZE
      modifies this`table, this`size, this`sizemask, this`used, this`chains
      ensures Valid() && table == ntable && chains == nc && size == ntable.Length
    {
      hide AllKeyed, AllHold, Complete, IsPower;
      assert contents - {} == contents;
      table, size, sizemask, used := ntable, ntable.Length, ntable.Length - 1, count;
      chains := nc;
    }
  
    /** `_dictExpandIfNeeded` (dict.c:300-308) */
    method ExpandIfNeeded()
      requires Valid() && used < MAX_SIZE
      modifies this`table, this`size, this`sizemask, this`used, this`chains, Entries(chains)`next
      ensures Valid() && contents == old(contents) && used < size
      ensures (table == old(table) || fresh(table)) && Entries(chains) <= old(Entries(chains))
    {
      hide Linked, AllKeyed, AllHold, Complete, IsPower;
      if size == 0 {
        var _ := Expand(DICT_HT_INITIAL_SIZE);
      } else if used == size {
        DoubleFits(size);
        var _ := Expand(size * 2);
      }
    }

    /** `_dictKeyIndex` (dict.c:325-342): the bucket for a new key, or -1 */
    method KeyIndex(key: string) returns (index: int)
      requires Valid() && used < MAX_SIZE
      modifies this`table, this`size, this`sizemask, this`used, this`chains, Entries(chains)`next
      ensures Valid() && contents == old(contents) && used < size
      ensures (table == old(table) || fresh(table)) && Entries(chains) <= old(Entries(chains))
      ensures index == -1 <==> key in contents
      ensures index != -1 ==> 0 <= index < |chains| && index == hash(key) % size
    {
      hide AllKeyed, AllHold, Complete, IsPower;
      ExpandIfNeeded();
      var h := Bucket(key);
      var he := Search(h, key);
      FoundOrNot(hash, chains, contents, key, h, he);
      index := if he != null then -1 else h;
    }

    /** `dictAdd` (dict.c:141-163) */
    method Add(key: string, val: nat) returns (ok: bool)
      requires Valid() && used < MAX_SIZE
      modifies this, table, Entries(chains)`next
      ensures Valid() && ok == (key !in old(contents))
      ensures contents == if ok then old(contents)[key := val] else old(contents)
      ensures table == old(table) || fresh(table)
      ensures forall e :: e in Entries(chains) ==> e in old(Entries(chains)) || fresh(e)
    {
      hide AllKeyed, AllHold, Complete, IsPower, Linked;
      var index := KeyIndex(key);
      if index == -1 {
        return false;
      }
      var entry := new Entry(key, val, null);
      Link(index, entry);
      ok := true;
    }

    /** The new entry is put in front of its chain and counted. */
    method Link(index: nat, entry: Entry)
      requires Valid() && index < |chains| && index == hash(entry.key) % |chains|
      requires entry.key !in contents && entry !in Entries(chains) && used < size
      modifies this`used, this`chains, this`contents, table, entry`next
      ensures Valid() && contents == old(contents)[entry.key := entry.val]
      ensures Entries(chains) == old(Entries(chains)) + {entry}
    {
      hide AllKeyed, AllHold, Complete, IsPower, Linked;
      ghost var m := contents[entry.key := entry.val];
      NewKey(hash, chains, contents, index, entry);
      PushEntries(chains, index, entry);
      Push(table, chains, index, entry);
      NewCount(contents, entry.key, entry.val);
      chains := chains[index := [entry] + chains[index]];
      contents := m;
      used := used + 1;
    }

    /** `dictReplace` (dict.c:169-191): 1 if the key is new */
    method Replace(key: string, val: nat) returns (added: bool)
      requires Valid() && used < MAX_SIZE
      modifies this, table, Entries(chains)
      ensures Valid() && added == (key !in old(contents)) && contents == old(contents)[key := val]
      ensures table == old(table) || fresh(table)
      ensures forall e :: e in Entries(chains) ==> e in old(Entries(chains)) || fresh(e)
    {
      hide AllKeyed, AllHold, Complete, IsPower, Linked;
      added := Add(key, val);
      if !added {
        var entry := Find(key);
        SetVal(entry, val);
      }
    }

    method SetVal(entry: Entry, val: nat)
      requires Valid() && entry in Entries(chains) && entry.key in contents
      modifies this`contents, entry`val
      ensures Valid() && contents == old(contents)[entry.key := val]
    {
      hide Complete, IsPower;
      ghost var m := contents[entry.key := val];
      assert Complete(hash, chains, m) by { SameKeysComplete(hash, chains, contents, m); }
      OnlyEntry(hash, chains, entry);
      assert m.Keys == contents.Keys;
      entry.val := val;
      contents := m;
      forall a | 0 <= a < |chains|
        ensures Holds(chains[a], m)
      {
      }
    }

    /** `dictDelete` (dict.c:194-222) */
    method Delete(key: string) returns (ok: bool)
      requires Valid()
      modifies this`used, this`chains, this`contents, table, Entries(chains)`next
      ensures Valid() && ok == (key in old(contents)) && contents == old(contents) - {key}
      ensures !ok ==> chains == old(chains)
      ensures ok ==> exists h: nat, j: nat :: Removed(old(chains), chains, h, j, key)
    {
      hide AllKeyed, AllHold, Complete, IsPower, Linked;
      if size == 0 {
        NothingThere(hash, chains, contents);
        return false;
      }
      var h := Bucket(key);
      ghost var j;
      ok, j := Unlink(h, key);
    }

    /** The search for the entry, remembering the one before it. */
    method SearchBefore(h: nat, key: string) returns (prevde: Entry?, de: Entry?, ghost j: nat)
      requires h < |chains| == table.Length && Chained(table[h], chains[h])
      ensures de == null ==> !HasKey(chains[h], key)
      ensures de != null ==> j < |chains[h]| && de == chains[h][j] && de.key == key
      ensures de != null ==> prevde == if j == 0 then null else chains[h][j - 1]
    {
      ghost var c := chains[h];
      prevde, de, j := null, table[h], 0;
      while de != null && de.key != key
        invariant j <= |c| && de == (if j < |c| then c[j] else null)
        invariant prevde == (if j == 0 then null else c[j - 1])
        invariant forall i :: 0 <= i < j ==> c[i].key != key
        decreases |c| - j
      {
        NextInChain(table[h], c, j);
        prevde := de;
        de := de.next;
        j := j + 1;
      }
    }

    method Unlink(h: nat, key: string) returns (ok: bool, ghost j: nat)
      requires Valid() && h < |chains| && h == hash(key) % |chains|
      modifies this`used, this`chains, this`contents, table, Entries(chains)`next
      ensures Valid() && ok == (key in old(contents)) && contents == old(contents) - {key}
      ensures !ok ==> chains == old(chains)
      ensures ok ==> Removed(old(chains), chains, h, j, key)
    {
      hide AllKeyed, AllHold, Complete, IsPower, Linked;
      BucketLinked(table, chains, h);
      var prevde, de;
      prevde, de, j := SearchBefore(h, key);
      FoundOrNot(hash, chains, contents, key, h, de);
      ok := de != null;
      if ok {
        Fewer(hash, chains, contents, h, j);
        UnlinkEntry(hash, table, chains, h, j, prevde, de);
        Forget(h, j, key);
      }
    }

    /** Entry `j` of a chain, no longer linked, is not counted any more. */
    method Forget(h: nat, ghost j: nat, key: string)
      requires Sized() && h < |chains| && j < |chains[h]| && key == chains[h][j].key && key in contents
      requires var cs := chains[h := Without(chains[h], j)];
               Linked(table, cs) && AllKeyed(hash, cs) && AllHold(cs, contents - {key}) && Complete(hash, cs, contents - {key})
      modifies this`used, this`chains, this`contents
      ensures Valid() && contents == old(contents) - {key}
      ensures Removed(old(chains), chains, h, j, key)
    {
      hide AllKeyed, AllHold, Complete, IsPower, Linked, Without;
      FewerCount(contents, key);
      used := used - 1;
      contents := contents - {key};
      chains := chains[h := Without(chains[h], j)];
    }
  }

  /** A chain without its entry `j`. */
  ghost function Without(c: seq<Entry>, j: nat): seq<Entry>
    requires j < |c|
  {
    c[..j] + c[j + 1..]
  }

  ghost predicate Removed(before: seq<seq<Entry>>, after: seq<seq<Entry>>, h: nat, j: nat, key: string) {
    h < |before| && j < |before[h]| && before[h][j].key == key && after == before[h := Without(before[h], j)]
  }

  lemma DoubleFits(n: nat)
    requires IsPower(n) && n < MAX_SIZE
    ensures 2 * n <= MAX_SIZE
  {
    MaxIsPower();
    PowersDouble(n, MAX_SIZE);
  }

  lemma BucketLinked(table: array<Entry?>, chains: seq<seq<Entry>>, h: nat)
    requires Linked(table, chains) && h < |chains|
    ensures Chained(table[h], chains[h])
  {
  }

  lemma NothingThere(hash: string -> nat, chains: seq<seq<Entry>>, m: map<string, nat>)
    requires Complete(hash, chains, m) && chains == []
    ensures m == map[]
  {
    assert forall k :: k !in m;
  }

  lemma SameKeysComplete(hash: string -> nat, chains: seq<seq<Entry>>, m: map<string, nat>, m': map<string, nat>)
    requires Complete(hash, chains, m) && m.Keys == m'.Keys
    ensures Complete(hash, chains, m')
  {
    assert forall k :: k in m' ==> k in m;
  }

  /** No other entry has the key of an entry. */
  lemma OnlyEntry(hash: string -> nat, chains: seq<seq<Entry>>, e: Entry)
    requires AllKeyed(hash, chains) && e in Entries(chains)
    ensures forall a, b :: 0 <= a < |chains| && 0 <= b < |chains[a]| && chains[a][b].key == e.key ==> chains[a][b] == e
  {
    var i, j :| 0 <= i < |chains| && 0 <= j < |chains[i]| && chains[i][j] == e;
    forall a: nat, b: nat | a < |chains| && b < |chains[a]| && (a, b) != (i, j)
      ensures chains[a][b].key != e.key
    {
      KeysDiffer(hash, chains, i, j, a, b);
    }
  }

  lemma NewKey(hash: string -> nat, chains: seq<seq<Entry>>, m: map<string, nat>, h: nat, e: Entry)
    requires AllKeyed(hash, chains) && AllHold(chains, m) && Complete(hash, chains, m)
    requires h < |chains| && h == hash(e.key) % |chains| && e.key !in m
    ensures var cs, m' := chains[h := [e] + chains[h]], m[e.key := e.val];
            AllKeyed(hash, cs) && AllHold(cs, m') && Complete(hash, cs, m')
  {
    var m' := m[e.key := e.val];
    assert Holds(chains[h], m);
    assert !HasKey(chains[h], e.key);
    PushKeyed(hash, chains, h, e);
    forall a | 0 <= a < |chains|
      ensures Holds(chains[a], m')
    {
      assert Holds(chains[a], m);
    }
    PushHolds(chains, h, e, m');
    PushComplete(hash, chains, h, e, m, m');
  }

  lemma NewCount(m: map<string, nat>, k: string, v: nat)
    requires k !in m
    ensures |m[k := v]| == |m| + 1
  {
    var m' := m[k := v];
    assert m'.Keys == m.Keys + {k};
    assert |m'.Keys| == |m.Keys| + 1;
  }

  lemma FewerCount(m: map<string, nat>, k: string)
    requires k in m
    ensures |m - {k}| == |m| - 1
  {
    var m' := m - {k};
    assert m'.Keys == m.Keys - {k};
    assert |m'.Keys| == |m.Keys| - 1;
  }

  lemma WithoutAt(c: seq<Entry>, j: nat, i: nat)
    requires j < |c| && i < |c| - 1
    ensures Without(c, j)[i] == c[if i < j then i else i + 1]
  {
  }

  /** The table without one entry stands for the map without its key. */
  lemma Fewer(hash: string -> nat, chains: seq<seq<Entry>>, m: map<string, nat>, h: nat, j: nat)
    requires AllKeyed(hash, chains) && AllHold(chains, m) && Complete(hash, chains, m) && h < |chains| && j < |chains[h]|
    ensures var cs, m' := chains[h := Without(chains[h], j)], m - {chains[h][j].key};
            AllKeyed(hash, cs) && AllHold(cs, m') && Complete(hash, cs, m')
  {
    FewerKeyed(hash, chains, h, j);
    FewerHeld(hash, chains, m, h, j);
    FewerComplete(hash, chains, m, h, j);
  }

  lemma FewerKeyed(hash: string -> nat, chains: seq<seq<Entry>>, h: nat, j: nat)
    requires AllKeyed(hash, chains) && h < |chains| && j < |chains[h]|
    ensures AllKeyed(hash, chains[h := Without(chains[h], j)])
  {
    var c := chains[h];
    assert Keyed(hash, c, h, |chains|);
    var w := Without(c, j);
    forall i | 0 <= i < |w|
      ensures hash(w[i].key) % |chains| == h
    {
      WithoutAt(c, j, i);
    }
    forall i, k | 0 <= i < k < |w|
      ensures w[i].key != w[k].key
    {
      WithoutAt(c, j, i);
      WithoutAt(c, j, k);
    }
    assert Keyed(hash, w, h, |chains|);
  }

  lemma FewerHeld(hash: string -> nat, chains: seq<seq<Entry>>, m: map<string, nat>, h: nat, j: nat)
    requires AllKeyed(hash, chains) && AllHold(chains, m) && h < |chains| && j < |chains[h]|
    ensures AllHold(chains[h := Without(chains[h], j)], m - {chains[h][j].key})
  {
    var cs, m' := chains[h := Without(chains[h], j)], m - {chains[h][j].key};
    forall a | 0 <= a < |cs|
      ensures Holds(cs[a], m')
    {
      forall b | 0 <= b < |cs[a]|
        ensures cs[a][b].key in m' && m'[cs[a][b].key] == cs[a][b].val
      {
        assert Holds(chains[a], m);
        if a == h {
          WithoutAt(chains[h], j, b);
          KeysDiffer(hash, chains, h, j, h, if b < j then b else b + 1);
        } else {
          KeysDiffer(hash, chains, h, j, a, b);
        }
      }
    }
  }

  lemma FewerComplete(hash: string -> nat, chains: seq<seq<Entry>>, m: map<string, nat>, h: nat, j: nat)
    requires Complete(hash, chains, m) && h < |chains| && j < |chains[h]|
    ensures Complete(hash, chains[h := Without(chains[h], j)], m - {chains[h][j].key})
  {
    var c := chains[h];
    var cs := chains[h := Without(c, j)];
    forall k | k in m - {c[j].key}
      ensures HasKey(cs[hash(k) % |cs|], k)
    {
      var a := hash(k) % |chains|;
      var b :| 0 <= b < |chains[a]| && chains[a][b].key == k;
      if a == h {
        var i := if b < j then b else b - 1;
        WithoutAt(c, j, i);
        assert cs[h][i].key == k;
      }
    }
  }

  /** Entry `j` of a chain is bypassed. */
  method UnlinkEntry(hash: string -> nat, table: array<Entry?>, ghost chains: seq<seq<Entry>>, h: nat, ghost j: nat,
                     prevde: Entry?, de: Entry)
    requires Linked(table, chains) && AllKeyed(hash, chains) && h < |chains| && j < |chains[h]| && de == chains[h][j]
    requires prevde == if j == 0 then null else chains[h][j - 1]
    modifies table, Entries(chains)`next
    ensures Linked(table, chains[h := Without(chains[h], j)])
  {
    hide AllKeyed;
    ghost var c := chains[h];
    BucketLinked(table, chains, h);
    NextInChain(table[h], c, j);
    if prevde != null {
      LeftStep(hash, chains, h, j - 1);
      NotBefore(hash, chains, h, j - 1);
      assert prevde in Entries(chains);
      assert forall i :: 0 <= i < |c| && i != j - 1 ==> c[i] != prevde;
      prevde.next := de.next;
      assert forall a :: 0 <= a < |chains| && a != h ==> Chained(table[a], chains[a]);
      Bypassed(table[h], c, j);
    } else {
      Shortened(table[h], c);
      table[h] := de.next;
    }
  }

  lemma NotBefore(hash: string -> nat, cs: seq<seq<Entry>>, i: nat, j: nat)
    requires AllKeyed(hash, cs) && i < |cs| && j < |cs[i]|
    ensures forall a, b :: 0 <= a < |cs| && 0 <= b < |cs[a]| && (a, b) != (i, j) ==> cs[a][b] != cs[i][j]
    ensures forall a :: 0 <= a < |cs| && a != i ==> cs[i][j] !in cs[a]
  {
    forall a: nat, b: nat | a < |cs| && b < |cs[a]| && (a, b) != (i, j)
      ensures cs[a][b] != cs[i][j]
    {
      KeysDiffer(hash, cs, i, j, a, b);
    }
  }

  lemma Shortened(head: Entry, c: seq<Entry>)
    requires Chained(head, c) && c != []
    ensures Chained(head.next, Without(c, 0))
  {
    TailChained(head, c);
    assert Without(c, 0) == c[1..];
  }

  /** Entry `j - 1` points behind entry `j`. */
  lemma Bypassed(head: Entry?, c: seq<Entry>, j: nat)
    requires 0 < j < |c| && head == c[0]
    requires forall i {:trigger c[i].next} :: 0 <= i < |c| && i != j - 1 ==> c[i].next == if i + 1 < |c| then c[i + 1] else null
    requires c[j - 1].next == if j + 1 < |c| then c[j + 1] else null
    ensures Chained(head, Without(c, j))
  {
    var w := Without(c, j);
    forall i | 0 <= i < |w|
      ensures w[i].next == if i + 1 < |w| then w[i + 1] else null
    {
      if i < j - 1 {
        assert w[i] == c[i] && w[i + 1] == c[i + 1];
      } else if i == j - 1 {
        assert w[i] == c[i] && (j < |w| ==> w[j] == c[j + 1]);
      } else {
        assert w[i] == c[i + 1] && (i + 1 < |w| ==> w[i + 1] == c[i + 2]);
      }
    }
    assert w[0] == c[0];
    assert forall i {:trigger w[i].next} :: 0 <= i < |w| ==> w[i].next == if i + 1 < |w| then w[i + 1] else null;
  }

  lemma RestIsAll(table: array<Entry?>, cs: seq<seq<Entry>>)
    requires Linked(table, cs)
    ensures RestLinked(table, cs, 0)
  {
  }

  lemma LengthsAgree(table: array<Entry?>, cs: seq<seq<Entry>>, i: nat)
    requires RestLinked(table, cs, i)
    ensures |cs| == table.Length
  {
  }

  lemma HeldAt(cs: seq<seq<Entry>>, m: map<string, nat>, i: nat, j: nat)
    requires AllHold(cs, m) && i < |cs| && j < |cs[i]|
    ensures var e := cs[i][j]; e.key in m && m[e.key] == e.val && e in Entries(cs)
  {
    assert Holds(cs[i], m);
  }

  lemma ChainedTail(he: Entry, c: seq<Entry>, j: nat)
    requires j <= |c| && Chained(he, c[j..])
    ensures j < |c| && he == c[j] && Chained(he.next, c[j + 1..])
  {
    assert c[j..][1..] == c[j + 1..];
    TailChained(he, c[j..]);
  }

  lemma TailChained(he: Entry, d: seq<Entry>)
    requires Chained(he, d)
    ensures d != [] && d[0] == he && Chained(he.next, d[1..])
  {
    var t := d[1..];
    NextInChain(he, d, 0);
    forall k | 0 <= k < |t|
      ensures t[k].next == if k + 1 < |t| then t[k + 1] else null
    {
      NextInChain(he, d, k + 1);
    }
    assert t != [] ==> t[0] == d[1];
    assert Chained(he.next, t);
  }

  lemma {:induction false} PowersDouble(a: nat, b: nat)
    requires IsPower(a) && IsPower(b) && a < b
    ensures 2 * a <= b
  {
    if a > 1 {
      PowersDouble(a / 2, b / 2);
    }
  }

  /** The table never grows beyond the limit. */
  lemma NextPowerFits(i: nat, size: nat)
    requires IsPower(i) && size <= MAX_SIZE && (i == DICT_HT_INITIAL_SIZE || i / 2 < size)
    ensures i <= MAX_SIZE
  {
    MaxIsPower();
    if i > MAX_SIZE {
      PowersDouble(MAX_SIZE, i);
    }
  }

  lemma MaxIsPower()
    ensures IsPower(MAX_SIZE)
  {
    assert IsPower(1);
    SixteenTimes(0x1);
    SixteenTimes(0x10);
    SixteenTimes(0x100);
    SixteenTimes(0x1000);
    SixteenTimes(0x1_0000);
    SixteenTimes(0x10_0000);
    SixteenTimes(0x100_0000);
    Twice(0x1000_0000);
    Twice(0x2000_0000);
  }

  lemma FourIsPower()
    ensures IsPower(DICT_HT_INITIAL_SIZE)
  {
    assert IsPower(1);
    Twice(1);
    Twice(2);
  }

  lemma Twice(n: nat)
    requires IsPower(n)
    ensures IsPower(2 * n)
  {
  }

  lemma SixteenTimes(n: nat)
    requires IsPower(n)
    ensures IsPower(16 * n)
  {
    hide IsPower;
    Twice(n);
    Twice(2 * n);
    Twice(4 * n);
    Twice(8 * n);
  }

  lemma LeftNone(cs: seq<seq<Entry>>, i: nat)
    ensures i >= |cs| ==> Left(cs, i, 0) == {}
  {
  }

  /** What the search of one bucket says about the whole table. */
  lemma FoundOrNot(hash: string -> nat, chains: seq<seq<Entry>>, m: map<string, nat>, key: string, h: nat, he: Entry?)
    requires h < |chains| && h == hash(key) % |chains| && Complete(hash, chains, m) && AllHold(chains, m)
    requires he == null ==> !HasKey(chains[h], key)
    requires he != null ==> he in chains[h] && he.key == key
    ensures he == null <==> key !in m
    ensures he != null ==> he.val == m[key] && he in Entries(chains)
  {
    if he != null {
      assert Holds(chains[h], m);
      var j :| 0 <= j < |chains[h]| && chains[h][j] == he;
    }
  }

  // ----- Iteration -----

  /** The first of the last `k` entries of a chain. */
  ghost function FirstOf(c: seq<Entry>, k: nat): Entry?
    requires k <= |c|
  {
    if k == 0 then null else c[|c| - k]
  }

  /** `e` stands before the last `rest` entries of bucket `index`. */
  ghost predicate Behind(chains: seq<seq<Entry>>, index: int, rest: nat, e: Entry) {
    0 <= index < |chains| && rest < |chains[index]| && chains[index][|chains[index]| - rest - 1] == e
  }

  class DictIterator {
    const ht: Dict
    var index: int
    var entry: Entry?
    var nextEntry: Entry?
    ghost var rest: nat   // how many entries of bucket `index` follow `entry`

    /** `entry` itself need not be in the table any more. */
    ghost predicate Valid()
      reads this, ht
    {
      && -1 <= index
      && (entry != null ==> 0 <= index < |ht.chains| && rest <= |ht.chains[index]|
                            && nextEntry == FirstOf(ht.chains[index], rest))
    }

    /** The keys of the entries that have not been returned. */
    ghost function ToVisit(): set<string>
      requires Valid()
      reads this, ht
    {
      if entry == null then Left(ht.chains, index + 1, 0) else Left(ht.chains, index, |ht.chains[index]| - rest)
    }

    /** `dictInitIterator` (dict.c:270-275) */
    constructor (ht: Dict)
      requires ht.Valid()
      ensures Valid() && this.ht == ht && ToVisit() == ht.contents.Keys
    {
      this.ht := ht;
      index, entry, nextEntry, rest := -1, null, null, 0;
      new;
      AllLeft(ht.hash, ht.chains, ht.contents);
    }

    /**
     * `dictNext` (dict.c:277-295): an entry not yet returned, until there is none. The caller may delete
     * that entry before the next call.
     */
    method Next() returns (e: Entry?)
      requires Valid() && ht.Valid()
      modifies this
      ensures Valid() && (e == null <==> old(ToVisit()) == {})
      ensures e == null ==> ToVisit() == {}
      ensures e != null ==> e.key in old(ToVisit()) && e.key !in ToVisit() && old(ToVisit()) == ToVisit() + {e.key}
      ensures e != null ==> e.key in ht.contents && e.val == ht.contents[e.key]
      ensures e != null ==> e == entry && Behind(ht.chains, index, rest, e)
    {
      hide Left, Dict.Valid, Behind;
      while true
        invariant Valid() && ToVisit() == old(ToVisit())
        decreases |ht.chains| - index, entry != null
      {
        ghost var k := rest;
        if entry == null {
          var more := EnterBucket();
          if !more {
            return null;
          }
          k := |ht.chains[index]|;
        } else {
          entry := nextEntry;
        }
        if entry != null {
          Take(k);
          return entry;
        }
        LeftNextBucket(ht.chains, index);
      }
    }

    /** The first entry of the next bucket becomes the current one, if there is a next bucket. */
    method EnterBucket() returns (more: bool)
      requires ht.Valid() && Valid() && entry == null
      modifies this`index, this`entry
      ensures index == old(index) + 1 && more == (index < |ht.chains|)
      ensures more ==> entry == FirstOf(ht.chains[index], |ht.chains[index]|)
      ensures !more ==> entry == null && Left(ht.chains, index, 0) == Left(ht.chains, index + 1, 0) == {}
    {
      hide Left, AllKeyed, AllHold, Complete, Linked, IsPower;
      index := index + 1;
      more := index < ht.size;
      if more {
        BucketLinked(ht.table, ht.chains, index);
        entry := ht.table[index];
      } else {
        LeftNone(ht.chains, index);
        LeftNone(ht.chains, index + 1);
      }
    }

    /** The entry to be returned is remembered, and the one after it. */
    method Take(ghost k: nat)
      requires ht.Valid() && 0 <= index < |ht.chains| && 0 < k <= |ht.chains[index]|
      requires entry == FirstOf(ht.chains[index], k)
      modifies this`nextEntry, this`rest
      ensures Valid() && entry != null && Behind(ht.chains, index, rest, entry)
      ensures entry.key in ht.contents && entry.val == ht.contents[entry.key]
      ensures entry.key !in ToVisit()
      ensures Left(ht.chains, index, |ht.chains[index]| - k) == ToVisit() + {entry.key}
    {
      hide Left, AllKeyed, AllHold, Complete, Linked;
      ghost var c := ht.chains[index];
      BucketLinked(ht.table, ht.chains, index);
      NextInChain(ht.table[index], c, |c| - k);
      LeftStep(ht.hash, ht.chains, index, |c| - k);
      HeldAt(ht.chains, ht.contents, index, |c| - k);
      nextEntry := entry.next;
      rest := k - 1;
    }

    /** Deleting the entry returned last leaves the iterator where it is. */
    lemma DeletionIsSafe(before: seq<seq<Entry>>, todo: set<string>, h: nat, j: nat)
      requires entry != null && Behind(before, index, rest, entry) && AllKeyed(ht.hash, before)
      requires Removed(before, ht.chains, h, j, entry.key) && nextEntry == FirstOf(before[index], rest)
      requires todo == Left(before, index, |before[index]| - rest)
      ensures Valid() && ToVisit() == todo
    {
      var k := |before[index]| - rest - 1;
      SamePlace(ht.hash, before, index, k, h, j);
      SameLeft(before, index, k);
      if rest > 0 {
        WithoutAt(before[index], k, k);
      }
    }
  }

  /** What is left behind an entry stays when the entry is removed. */
  lemma SameLeft(cs: seq<seq<Entry>>, i: nat, j: nat)
    requires i < |cs| && j < |cs[i]|
    ensures Left(cs[i := Without(cs[i], j)], i, j) == Left(cs, i, j + 1)
  {
    var ds := cs[i := Without(cs[i], j)];
    forall k
      ensures k in Left(ds, i, j) <==> k in Left(cs, i, j + 1)
    {
      if k in Left(ds, i, j) {
        var a: nat, b: nat :| a < |ds| && b < |ds[a]| && (a > i || (a == i && b >= j)) && ds[a][b].key == k;
        if a == i {
          WithoutAt(cs[i], j, b);
          LeftHas(cs, i, j + 1, i, b + 1);
        } else {
          LeftHas(cs, i, j + 1, a, b);
        }
      }
      if k in Left(cs, i, j + 1) {
        var a: nat, b: nat :| a < |cs| && b < |cs[a]| && (a > i || (a == i && b >= j + 1)) && cs[a][b].key == k;
        if a == i {
          WithoutAt(cs[i], j, b - 1);
          LeftHas(ds, i, j, i, b - 1);
        } else {
          LeftHas(ds, i, j, a, b);
        }
      }
    }
  }

  lemma RemovedEntries(before: seq<seq<Entry>>, after: seq<seq<Entry>>, h: nat, j: nat, key: string)
    requires Removed(before, after, h, j, key)
    ensures Entries(after) <= Entries(before)
  {
    forall e | e in Entries(after)
      ensures e in Entries(before)
    {
      var a, b :| 0 <= a < |after| && 0 <= b < |after[a]| && after[a][b] == e;
      if a == h {
        WithoutAt(before[h], j, b);
      } else {
        assert before[a][b] == e;
      }
    }
  }

  /** The caller of the iterator deletes the entry it was given. */
  method DeleteReturned(d: Dict, it: DictIterator, e: Entry)
    requires d.Valid() && it.Valid() && it.ht == d && it.entry == e && Behind(d.chains, it.index, it.rest, e)
    requires e.key in d.contents
    modifies d`used, d`chains, d`contents, d.table, Entries(d.chains)`next
    ensures d.Valid() && d.contents == old(d.contents) - {e.key}
    ensures it.Valid() && it.ToVisit() == old(it.ToVisit()) && Entries(d.chains) <= old(Entries(d.chains))
  {
    hide AllKeyed, AllHold, Complete, Linked, Left, Removed, Entries;
    ghost var before, todo := d.chains, it.ToVisit();
    var _ := d.Delete(e.key);
    ghost var h: nat, j: nat :| Removed(before, d.chains, h, j, e.key);
    it.DeletionIsSafe(before, todo, h, j);
    RemovedEntries(before, d.chains, h, j, e.key);
  }

  predicate NoRepeats(keys: seq<string>) {
    forall i, j :: 0 <= i < j < |keys| ==> keys[i] != keys[j]
  }

  function SetOf(keys: seq<string>): set<string> {
    set k | k in keys
  }

  lemma OneVisited(keys: seq<string>, k: string)
    requires NoRepeats(keys) && k !in SetOf(keys)
    ensures NoRepeats(keys + [k]) && SetOf(keys + [k]) == SetOf(keys) + {k}
  {
  }

  /**
   * Iterating over a table while deleting some of the entries as they are returned visits every entry
   * once, whether it is deleted or not.
   */
  method VisitAll(d: Dict, doomed: set<string>) returns (visited: seq<string>)
    requires d.Valid()
    modifies d`used, d`chains, d`contents, d.table, Entries(d.chains)`next
    ensures d.Valid() && d.contents == old(d.contents) - doomed
    ensures NoRepeats(visited) && SetOf(visited) == old(d.contents).Keys
  {
    hide Dict.Valid, Left, Entries, Behind, NoRepeats, SetOf;
    ghost var all := d.contents;
    visited := [];
    NoneVisited();
    var it := new DictIterator(d);
    var e := it.Next();
    while e != null
      invariant d.Valid() && it.Valid() && it.ht == d && fresh(it)
      invariant d.table == old(d.table) && Entries(d.chains) <= old(Entries(d.chains))
      invariant e != null ==> e == it.entry && Behind(d.chains, it.index, it.rest, e) && e.key in d.contents
      invariant NoRepeats(visited) && SetOf(visited) !! it.ToVisit()
      invariant e != null ==> e.key !in SetOf(visited) && e.key !in it.ToVisit()
      invariant all.Keys == SetOf(visited) + it.ToVisit() + (if e == null then {} else {e.key})
      invariant d.contents == all - (doomed * SetOf(visited))
      invariant e == null ==> it.ToVisit() == {}
      decreases it.ToVisit(), e != null
    {
      OneVisited(visited, e.key);
      ContentsAfter(all, doomed, SetOf(visited), e.key);
      visited := visited + [e.key];
      if e.key in doomed {
        DeleteReturned(d, it, e);
      }
      e := it.Next();
    }
  }

  lemma ContentsAfter(all: map<string, nat>, doomed: set<string>, seen: set<string>, k: string)
    ensures var left := all - (doomed * seen);
            all - (doomed * (seen + {k})) == if k in doomed then left - {k} else left
  {
  }

  lemma NoneVisited()
    ensures NoRepeats([]) && SetOf([]) == {}
  {
  }
}
