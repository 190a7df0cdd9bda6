/**
 * Token buckets (deps/libevent/bufferevent_ratelim.c:49-111, ratelim-internal.h:34-61): how many bytes
 * may be read and written, refilled tick by tick with machine arithmetic.
 */
module TokenBuckets {
  import opened Common

  const WORD := 0x1_0000_0000_0000_0000        // size_t and ev_ssize_t are 64 bits wide
  const SSIZE_MAX := 0x7FFF_FFFF_FFFF_FFFF
  const TICK_WORD := 0x1_0000_0000             // ticks are counted in 32 bits
  const EV_RATE_LIMIT_MAX := SSIZE_MAX

  /** One value for reading and one for writing. */
  datatype Two<T> = Two(read: T, write: T) {
    function Get(isWrite: bool): T {
      if isWrite then write else read
    }

    function Put(isWrite: bool, v: T): Two<T> {
      if isWrite then this.(write := v) else this.(read := v)
    }
  }

  datatype Cfg = Cfg(rate: Two<nat>, maximum: Two<nat>)

  /** What `ev_token_bucket_cfg_new` (bufferevent_ratelim.c:143-172) demands of its arguments */
  predicate Proper(cfg: Cfg) {
    && 1 <= cfg.rate.read <= cfg.maximum.read <= EV_RATE_LIMIT_MAX
    && 1 <= cfg.rate.write <= cfg.maximum.write <= EV_RATE_LIMIT_MAX
  }

  datatype Bucket = Bucket(limit: Two<int>, lastUpdated: nat)

  /** A value of 64 bits read as a signed one. */
  function Signed(x: int): (y: int)
    ensures -SSIZE_MAX - 1 <= y <= SSIZE_MAX
  {
    var w := x % WORD;
    if w > SSIZE_MAX then w - WORD else w
  }

  /** The ticks that have passed, the counter wrapping around. */
  function Elapsed(now: nat, last: nat): (n: nat)
    ensures n < TICK_WORD
  {
    (now - last) % TICK_WORD
  }

  /** One direction of the update, the subtraction being unsigned (bufferevent_ratelim.c:98-107) */
  function Refilled(limit: int, maximum: nat, rate: nat, ticks: nat): int
    requires ticks > 0
  {
    if ((maximum - limit) % WORD) / ticks < rate then maximum else Signed(limit + ticks * rate)
  }

  function Forward(ticks: nat): bool {
    0 < ticks <= INT_MAX
  }

  /** `ev_token_bucket_update_` (bufferevent_ratelim.c:74-111) */
  function Updated(b: Bucket, cfg: Cfg, now: nat): Bucket {
    var n := Elapsed(now, b.lastUpdated);
    if !Forward(n) then b
    else
      Bucket(Two(Refilled(b.limit.read, cfg.maximum.read, cfg.rate.read, n),
                 Refilled(b.limit.write, cfg.maximum.write, cfg.rate.write, n)), now)
  }

  function Min(a: int, b: int): int {
    if a < b then a else b
  }

  /** `ev_token_bucket_init_` (bufferevent_ratelim.c:50-71) */
  function Initial(b: Bucket, cfg: Cfg, now: nat, reinitialize: bool): Bucket {
    if reinitialize then
      b.(limit := Two(Min(b.limit.read, cfg.maximum.read), Min(b.limit.write, cfg.maximum.write)))
    else
      Bucket(Two(cfg.rate.read, cfg.rate.write), now)
  }

  predicate Within(b: Bucket, cfg: Cfg) {
    && -SSIZE_MAX - 1 <= b.limit.read <= cfg.maximum.read
    && -SSIZE_MAX - 1 <= b.limit.write <= cfg.maximum.write
  }

  lemma DivLess(a: nat, n: nat, r: nat)
    requires n > 0
    ensures a / n < r <==> a < n * r
  {
    var q, m := a / n, a % n;
    assert a == n * q + m;
    if q < r {
      assert n * (q + 1) <= n * r;
    } else {
      assert n * r <= n * q;
    }
  }

  /**
   * The overflow-averse update is the naive one, min(maximum, limit + ticks * rate), exactly when the
   * limit does not exceed the maximum, or exceeds it so far, or is given so much, that the difference
   * wraps around to no more than what is given.
   */
  lemma RefillIsMin(limit: int, maximum: nat, rate: nat, ticks: nat)
    requires -SSIZE_MAX - 1 <= limit <= SSIZE_MAX && 1 <= rate <= maximum <= SSIZE_MAX && Forward(ticks)
    ensures Refilled(limit, maximum, rate, ticks) == Min(maximum, limit + ticks * rate)
      <==> limit <= maximum || WORD - (limit - maximum) <= ticks * rate
  {
    if limit <= maximum {
      RefillBelow(limit, maximum, rate, ticks);
    } else {
      RefillAbove(limit, maximum, rate, ticks);
    }
  }

  lemma RefillBelow(limit: int, maximum: nat, rate: nat, ticks: nat)
    requires -SSIZE_MAX - 1 <= limit <= maximum <= SSIZE_MAX && 1 <= rate && Forward(ticks)
    ensures Refilled(limit, maximum, rate, ticks) == Min(maximum, limit + ticks * rate)
  {
    var room := maximum - limit;
    assert room % WORD == room;
    DivLess(room, ticks, rate);
    Product(ticks, rate);
    if ticks * rate <= room {
      SignedSame(limit + ticks * rate);
    }
  }

  lemma RefillAbove(limit: int, maximum: nat, rate: nat, ticks: nat)
    requires maximum < limit <= SSIZE_MAX && 1 <= rate && Forward(ticks)
    ensures Refilled(limit, maximum, rate, ticks) == maximum <==> WORD - (limit - maximum) <= ticks * rate
    ensures Min(maximum, limit + ticks * rate) == maximum
  {
    var room := WORD - (limit - maximum);
    assert (maximum - limit) % WORD == room;
    DivLess(room, ticks, rate);
    Product(ticks, rate);
    if room == ticks * rate {
      SignedWrapped(maximum);
    } else if ticks * rate < room {
      TooMuch(limit, maximum, ticks * rate);
    }
  }

  lemma SignedSame(x: int)
    requires -SSIZE_MAX - 1 <= x <= SSIZE_MAX
    ensures Signed(x) == x
  {
    if x < 0 {
      assert x % WORD == x + WORD;
    }
  }

  lemma SignedWrapped(x: nat)
    requires x <= SSIZE_MAX
    ensures Signed(x + WORD) == x
  {
    assert (x + WORD) % WORD == x;
  }

  lemma Product(a: nat, b: nat)
    ensures a * b >= 0 && (a > 0 ==> a * b >= b) && (b > 0 ==> a * b >= a)
  {
    if a > 0 && b > 0 {
      assert a * b == b + (a - 1) * b;
      assert a * b == a + a * (b - 1);
    }
  }

  /** Bytes given to a bucket above its maximum, the sum wrapping around or not, do not make it the maximum. */
  lemma TooMuch(limit: int, maximum: nat, given: nat)
    requires maximum < limit <= SSIZE_MAX && maximum <= SSIZE_MAX && 0 < given < WORD - (limit - maximum)
    ensures Signed(limit + given) != maximum
  {
    var sum := limit + given;
    if sum < WORD {
      assert sum % WORD == sum;
    } else {
      assert sum % WORD == sum - WORD;
    }
  }

  lemma UpdateIsMin(b: Bucket, cfg: Cfg, now: nat)
    requires Proper(cfg) && Within(b, cfg) && Forward(Elapsed(now, b.lastUpdated))
    ensures var n := Elapsed(now, b.lastUpdated);
      Updated(b, cfg, now) ==
        Bucket(Two(Min(cfg.maximum.read, b.limit.read + n * cfg.rate.read),
                   Min(cfg.maximum.write, b.limit.write + n * cfg.rate.write)), now)
  {
    hide Refilled;
    var n := Elapsed(now, b.lastUpdated);
    RefillIsMin(b.limit.read, cfg.maximum.read, cfg.rate.read, n);
    RefillIsMin(b.limit.write, cfg.maximum.write, cfg.rate.write, n);
  }

  lemma MinTwice(limit: int, maximum: nat, rate: nat, n: nat, m: nat)
    ensures Min(maximum, Min(maximum, limit + n * rate) + m * rate) == Min(maximum, limit + (n + m) * rate)
  {
    assert (n + m) * rate == n * rate + m * rate;
    Product(m, rate);
  }

  lemma SpansAdd(last: nat, mid: nat, now: nat)
    requires Elapsed(mid, last) + Elapsed(now, mid) < TICK_WORD
    ensures Elapsed(now, last) == Elapsed(mid, last) + Elapsed(now, mid)
  {
    var a, b := Elapsed(mid, last), Elapsed(now, mid);
    var p, q := (mid - last) / TICK_WORD, (now - mid) / TICK_WORD;
    assert mid - last == TICK_WORD * p + a && now - mid == TICK_WORD * q + b;
    assert now - last == TICK_WORD * (p + q) + (a + b);
  }

  /** Two updates in a row, spanning no more than INT_MAX ticks together, are one. */
  lemma UpdatesCompose(b: Bucket, cfg: Cfg, mid: nat, now: nat)
    requires Proper(cfg) && Within(b, cfg) && mid < TICK_WORD && now < TICK_WORD && b.lastUpdated < TICK_WORD
    requires Elapsed(mid, b.lastUpdated) + Elapsed(now, mid) <= INT_MAX
    ensures Updated(Updated(b, cfg, mid), cfg, now) == Updated(b, cfg, now)
  {
    hide Updated, Refilled;
    var n, m := Elapsed(mid, b.lastUpdated), Elapsed(now, mid);
    SpansAdd(b.lastUpdated, mid, now);
    if n == 0 {
      NoTime(b, cfg, mid);
      SameTick(b.lastUpdated, mid);
    } else {
      UpdateIsMin(b, cfg, mid);
      var c := Updated(b, cfg, mid);
      if m == 0 {
        NoTime(c, cfg, now);
        SameTick(mid, now);
      } else {
        UpdateKeepsWithin(b, cfg, mid);
        UpdateIsMin(c, cfg, now);
        UpdateIsMin(b, cfg, now);
        MinTwice(b.limit.read, cfg.maximum.read, cfg.rate.read, n, m);
        MinTwice(b.limit.write, cfg.maximum.write, cfg.rate.write, n, m);
      }
    }
  }

  lemma NoTime(b: Bucket, cfg: Cfg, now: nat)
    requires Elapsed(now, b.lastUpdated) == 0
    ensures Updated(b, cfg, now) == b
  {
  }

  lemma SameTick(a: nat, b: nat)
    requires a < TICK_WORD && b < TICK_WORD && Elapsed(b, a) == 0
    ensures a == b
  {
    var p := (b - a) / TICK_WORD;
    assert b - a == TICK_WORD * p;
  }

  /** An update never takes anything away, and stays within the maximum. */
  lemma UpdateKeepsWithin(b: Bucket, cfg: Cfg, now: nat)
    requires Proper(cfg) && Within(b, cfg)
    ensures var c := Updated(b, cfg, now);
      Within(c, cfg) && c.limit.read >= b.limit.read && c.limit.write >= b.limit.write
  {
    hide Refilled;
    var n := Elapsed(now, b.lastUpdated);
    if Forward(n) {
      UpdateIsMin(b, cfg, now);
      Product(n, cfg.rate.read);
      Product(n, cfg.rate.write);
    }
  }

  /** `struct ev_token_bucket` */
  class TokenBucket {
    var readLimit: int
    var writeLimit: int
    var lastUpdated: nat

    function View(): Bucket
      reads this
    {
      Bucket(Two(readLimit, writeLimit), lastUpdated)
    }

    constructor ()
      ensures View() == Bucket(Two(0, 0), 0)
    {
      readLimit, writeLimit, lastUpdated := 0, 0, 0;
    }

    /** `ev_token_bucket_init_` */
    method Init(cfg: Cfg, now: nat, reinitialize: bool)
      modifies this
      ensures View() == Initial(old(View()), cfg, now, reinitialize)
    {
      if reinitialize {
        if readLimit > cfg.maximum.read {
          readLimit := cfg.maximum.read;
        }
        if writeLimit > cfg.maximum.write {
          writeLimit := cfg.maximum.write;
        }
      } else {
        readLimit, writeLimit := cfg.rate.read, cfg.rate.write;
        lastUpdated := now;
      }
    }

    /** `ev_token_bucket_update_` */
    method Update(cfg: Cfg, now: nat) returns (r: int)
      modifies this
      ensures View() == Updated(old(View()), cfg, now)
      ensures r == if Forward(Elapsed(now, old(lastUpdated))) then 1 else 0
    {
      var ticks := (now - lastUpdated) % TICK_WORD;
      if ticks == 0 || ticks > INT_MAX {
        return 0;
      }
      if ((cfg.maximum.read - readLimit) % WORD) / ticks < cfg.rate.read {
        readLimit := cfg.maximum.read;
      } else {
        readLimit := Signed(readLimit + ticks * cfg.rate.read);
      }
      if ((cfg.maximum.write - writeLimit) % WORD) / ticks < cfg.rate.write {
        writeLimit := cfg.maximum.write;
      } else {
        writeLimit := Signed(writeLimit + ticks * cfg.rate.write);
      }
      lastUpdated := now;
      r := 1;
    }

    /** `limit -= n` in one direction */
    method Decrement(isWrite: bool, n: int)
      modifies this
      ensures View() == old(View()).(limit := old(View()).limit.Put(isWrite, old(View()).limit.Get(isWrite) - n))
    {
      if isWrite {
        writeLimit := writeLimit - n;
      } else {
        readLimit := readLimit - n;
      }
    }
  }
}
