/**
 * Rate limiting of a single bufferevent (deps/libevent/bufferevent_ratelim.c, bufferevent.c:66-109):
 * reasons for suspension, two buckets and the timer that refills them. Reading and writing are handled
 * by the same code with other fields; a parameter tells which is meant.
 *
 * A bufferevent whose `rate_limiting` is NULL behaves as one with no configuration.
 */
module RateLimit {
  import opened Common
  import opened TokenBuckets

  /**
   * The reasons for suspension, what the user enabled, what the implementation behind the bufferevent was
   * last told to run, and the rate limit.
   */
  datatype Limiter = Limiter(
    suspended: Two<set<Reason>>,
    enabled: Two<bool>,
    backend: Two<bool>,
    cfg: Option<Cfg>,
    bucket: Bucket,
    pending: bool)          // refill_bucket_event

  /** A new bufferevent: writing is enabled from the start (bufferevent.c:343), but nothing was told to run. */
  const FRESH := Limiter(Two({}, {}), Two(false, true), Two(false, false), None, Bucket(Two(0, 0), 0), false)

  /** `bufferevent_suspend_read_`, `bufferevent_suspend_write_` (bufferevent.c:67-75, 89-97) */
  function Suspend(s: Limiter, w: bool, what: Reason): Limiter {
    s.(backend := if s.suspended.Get(w) == {} then s.backend.Put(w, false) else s.backend,
       suspended := s.suspended.Put(w, s.suspended.Get(w) + {what}))
  }

  /** `bufferevent_unsuspend_read_`, `bufferevent_unsuspend_write_` (bufferevent.c:78-86, 100-108) */
  function Unsuspend(s: Limiter, w: bool, what: Reason): Limiter {
    var left := s.suspended.Get(w) - {what};
    s.(suspended := s.suspended.Put(w, left),
       backend := if left == {} && s.enabled.Get(w) then s.backend.Put(w, true) else s.backend)
  }

  /** `bufferevent_enable` (bufferevent.c:482-503) in one direction */
  function Enable(s: Limiter, w: bool): Limiter {
    s.(enabled := s.enabled.Put(w, true),
       backend := if s.suspended.Get(w) == {} then s.backend.Put(w, true) else s.backend)
  }

  /** `bufferevent_disable` (bufferevent.c:573-587) in one direction */
  function Disable(s: Limiter, w: bool): Limiter {
    s.(enabled := s.enabled.Put(w, false), backend := s.backend.Put(w, false))
  }

  predicate Suspended(s: Limiter, w: bool) {
    Bandwidth in s.suspended.Get(w)
  }

  /** One direction of a new configuration (bufferevent_ratelim.c:617-628) */
  function Apply(s: Limiter, w: bool): Limiter {
    if s.bucket.limit.Get(w) > 0 then Unsuspend(s, w, Bandwidth) else Suspend(s, w, Bandwidth)
  }

  /** `bufferevent_set_rate_limit` (bufferevent_ratelim.c:560-635); `same` if it is the configuration object in use */
  function SetRateLimit(s: Limiter, cfg: Option<Cfg>, now: nat, same: bool): Limiter {
    if cfg.None? then
      Unsuspend(Unsuspend(s.(cfg := None), false, Bandwidth), true, Bandwidth).(pending := false)
    else if s.cfg.Some? && same then s
    else
      var t := s.(cfg := cfg, bucket := Initial(s.bucket, cfg.value, now, s.cfg.Some?));
      var u := Apply(Apply(t, false), true);
      u.(pending := u.bucket.limit.read <= 0 || u.bucket.limit.write <= 0 || (s.cfg.None? && s.pending))
  }

  function Spend(b: Bucket, w: bool, n: int): Bucket {
    b.(limit := b.limit.Put(w, b.limit.Get(w) - n))
  }

  /** The bucket is empty: wait for the timer. */
  function Exhaust(s: Limiter, w: bool): Limiter {
    Suspend(s, w, Bandwidth).(pending := true)
  }

  /** The bucket has bytes again: the timer stays only if the other direction needs it. */
  function Resume(s: Limiter, w: bool): Limiter {
    Unsuspend(s, w, Bandwidth).(pending := s.pending && Suspended(s, !w))
  }

  /** `bufferevent_decrement_read_buckets_`, `..._write_buckets_` without a group (bufferevent_ratelim.c:270-343) */
  function DecrementBuckets(s: Limiter, w: bool, n: int): Limiter {
    if s.cfg.None? then s
    else
      var t := s.(bucket := Spend(s.bucket, w, n));
      if t.bucket.limit.Get(w) <= 0 then Exhaust(t, w)
      else if Suspended(t, w) then Resume(t, w)
      else t
  }

  /** `bufferevent_decrement_read_limit`, `..._write_limit` (bufferevent_ratelim.c:967-1022), which demand a configuration */
  function DecrementLimit(s: Limiter, w: bool, n: int): Limiter {
    var t := s.(bucket := Spend(s.bucket, w, n));
    var before, after := s.bucket.limit.Get(w), t.bucket.limit.Get(w);
    if before > 0 && after <= 0 then Exhaust(t, w)
    else if before <= 0 && after > 0 then Resume(t, w)
    else t
  }

  /** `bufferevent_update_buckets` and `bufferevent_get_rlim_max_` without a group (bufferevent_ratelim.c:114-124, 198-258) */
  function UpdateBuckets(s: Limiter, now: nat): Limiter {
    if s.cfg.None? || now == s.bucket.lastUpdated then s
    else s.(bucket := Updated(s.bucket, s.cfg.value, now))
  }

  function MaxAllowed(s: Limiter, w: bool, single: nat): int {
    if s.cfg.None? then single
    else if s.bucket.limit.Get(w) < 0 then 0
    else s.bucket.limit.Get(w)
  }

  /** One direction of the refill (bufferevent_ratelim.c:416-427) */
  function Relieve(s: Limiter, w: bool): Limiter {
    if Suspended(s, w) && s.bucket.limit.Get(w) > 0 then Unsuspend(s, w, Bandwidth) else s
  }

  /** `bev_refill_callback_` (bufferevent_ratelim.c:394-439), the timer having fired */
  function Refill(s: Limiter, now: nat): Limiter {
    var t := s.(pending := false);
    if t.cfg.None? then t
    else
      var u := t.(bucket := Updated(t.bucket, t.cfg.value, now));
      var v := Relieve(Relieve(u, false), true);
      v.(pending := Suspended(v, false) || Suspended(v, true))
  }

  // -------- runs --------

  datatype Event =
    | SuspendFor(w: bool, what: Reason)
    | UnsuspendFor(x: bool, why: Reason)
    | EnableIt(y: bool)
    | DisableIt(z: bool)
    | NewLimit(cfg: Option<Cfg>, at: nat, same: bool)
    | Spent(d: bool, n: int)                // by reading or writing
    | Charged(e: bool, m: int)              // by the user
    | Asked(now: nat)                       // how much may be read or written
    | Fired(tick: nat)                      // the timer

  function After(s: Limiter, e: Event): Limiter {
    match e
    case SuspendFor(w, what) => Suspend(s, w, what)
    case UnsuspendFor(w, what) => Unsuspend(s, w, what)
    case EnableIt(w) => Enable(s, w)
    case DisableIt(w) => Disable(s, w)
    case NewLimit(cfg, now, same) => SetRateLimit(s, cfg, now, same)
    case Spent(w, n) => DecrementBuckets(s, w, n)
    case Charged(w, n) => DecrementLimit(s, w, n)
    case Asked(now) => UpdateBuckets(s, now)
    case Fired(now) => Refill(s, now)
  }

  /** Bytes handed back do not lift the bucket above its maximum. */
  predicate NoSurplus(s: Limiter, w: bool, n: int) {
    s.cfg.Some? ==> -SSIZE_MAX - 1 <= s.bucket.limit.Get(w) - n <= s.cfg.value.maximum.Get(w)
  }

  /** What may happen: the bandwidth reason belongs to this code, and a timer fires when it is pending. */
  predicate Possible(s: Limiter, e: Event) {
    match e
    case SuspendFor(_, what) => what != Bandwidth
    case UnsuspendFor(_, what) => what != Bandwidth
    case NewLimit(cfg, _, same) => (cfg.Some? ==> Proper(cfg.value)) && (same && cfg.Some? ==> s.cfg == cfg)
    case Spent(w, n) => NoSurplus(s, w, n)
    case Charged(w, n) => s.cfg.Some? && NoSurplus(s, w, n)
    case Fired(_) => s.pending
    case _ => true
  }

  /** A direction runs exactly when it is enabled and nothing suspends it. */
  predicate Running(s: Limiter, w: bool) {
    s.backend.Get(w) <==> s.enabled.Get(w) && s.suspended.Get(w) == {}
  }

  /** It never runs otherwise. */
  predicate OnlyWilling(s: Limiter, w: bool) {
    s.backend.Get(w) ==> s.enabled.Get(w) && s.suspended.Get(w) == {}
  }

  /** An empty bucket is suspended. */
  predicate Guarded(s: Limiter, w: bool) {
    if s.cfg.None? then !Suspended(s, w)
    else s.bucket.limit.Get(w) <= 0 ==> Suspended(s, w)
  }

  predicate Inv(s: Limiter) {
    && OnlyWilling(s, false) && OnlyWilling(s, true)
    && (s.cfg.Some? ==> Running(s, false) && Running(s, true))
    && (s.pending <==> Suspended(s, false) || Suspended(s, true))
    && Guarded(s, false) && Guarded(s, true)
    && (s.cfg.Some? ==> Proper(s.cfg.value) && Within(s.bucket, s.cfg.value))
  }

  /** The events that suspend, release, enable or disable a direction. */
  predicate Touches(e: Event, w: bool) {
    match e
    case SuspendFor(v, _) => v == w
    case UnsuspendFor(v, _) => v == w
    case EnableIt(v) => v == w
    case DisableIt(v) => v == w
    case NewLimit(_, _, _) => true
    case _ => false
  }

  lemma SetKeeps(s: Limiter, cfg: Option<Cfg>, now: nat, same: bool)
    requires Inv(s) && Possible(s, NewLimit(cfg, now, same))
    ensures Inv(SetRateLimit(s, cfg, now, same))
    ensures forall w :: Running(SetRateLimit(s, cfg, now, same), w)
  {
  }

  lemma RefillKeeps(s: Limiter, now: nat)
    requires Inv(s)
    ensures Inv(Refill(s, now))
    ensures forall w :: Running(s, w) ==> Running(Refill(s, now), w)
  {
    hide Updated;
    if s.cfg.Some? {
      UpdateKeepsWithin(s.bucket, s.cfg.value, now);
    }
  }

  lemma AskKeeps(s: Limiter, now: nat)
    requires Inv(s)
    ensures Inv(UpdateBuckets(s, now))
    ensures forall w :: Running(s, w) ==> Running(UpdateBuckets(s, now), w)
  {
    hide Updated;
    if s.cfg.Some? {
      UpdateKeepsWithin(s.bucket, s.cfg.value, now);
    }
  }

  lemma SpendKeeps(s: Limiter, w: bool, n: int)
    requires Inv(s) && NoSurplus(s, w, n)
    ensures Inv(DecrementBuckets(s, w, n))
    ensures forall v :: Running(s, v) ==> Running(DecrementBuckets(s, w, n), v)
  {
  }

  lemma ChargeKeeps(s: Limiter, w: bool, n: int)
    requires Inv(s) && s.cfg.Some? && NoSurplus(s, w, n)
    ensures Inv(DecrementLimit(s, w, n))
    ensures forall v :: Running(s, v) ==> Running(DecrementLimit(s, w, n), v)
  {
  }

  /** The events that only suspend, release, enable or disable. */
  lemma SwitchKeeps(s: Limiter, e: Event)
    requires Inv(s) && Possible(s, e) && (e.SuspendFor? || e.UnsuspendFor? || e.EnableIt? || e.DisableIt?)
    ensures Inv(After(s, e))
    ensures forall w :: Running(s, w) || Touches(e, w) ==> Running(After(s, e), w)
  {
  }

  lemma StepKeeps(s: Limiter, e: Event)
    requires Inv(s) && Possible(s, e)
    ensures Inv(After(s, e))
    ensures forall w :: Running(s, w) || Touches(e, w) ==> Running(After(s, e), w)
  {
    hide Inv, Running, SetRateLimit, Refill, DecrementBuckets, DecrementLimit, UpdateBuckets;
    match e {
      case NewLimit(cfg, now, same) => SetKeeps(s, cfg, now, same);
      case Fired(now) => RefillKeeps(s, now);
      case Asked(now) => AskKeeps(s, now);
      case Spent(w, n) => SpendKeeps(s, w, n);
      case Charged(w, n) => ChargeKeeps(s, w, n);
      case _ => SwitchKeeps(s, e);
    }
  }

  /** The state after a run, if everything in it is possible. */
  function Run(s: Limiter, es: seq<Event>): Option<Limiter>
    decreases |es|
  {
    if es == [] then Some(s)
    else if Possible(s, es[0]) then Run(After(s, es[0]), es[1..])
    else None
  }

  predicate Touched(es: seq<Event>, w: bool) {
    exists e :: e in es && Touches(e, w)
  }

  /**
   * Over every run the refill timer is pending exactly when reading or writing is suspended for bandwidth,
   * an empty bucket is suspended, and a direction runs only when it is enabled and not suspended. From the
   * first event that touches it on, it runs exactly then.
   */
  lemma {:induction false} EveryRun(s: Limiter, es: seq<Event>)
    requires Inv(s) && Run(s, es).Some?
    ensures Inv(Run(s, es).value)
    ensures forall w :: Running(s, w) || Touched(es, w) ==> Running(Run(s, es).value, w)
    decreases |es|
  {
    if es != [] {
      hide Inv, Possible, After, Running, Touches;
      StepKeeps(s, es[0]);
      EveryRun(After(s, es[0]), es[1..]);
      forall w ensures Touched(es, w) ==> Touches(es[0], w) || Touched(es[1..], w) {
        TouchedFirst(es, w);
      }
    }
  }

  lemma TouchedFirst(es: seq<Event>, w: bool)
    requires es != []
    ensures Touched(es, w) <==> Touches(es[0], w) || Touched(es[1..], w)
  {
    hide Touches;
    assert es == [es[0]] + es[1..];
    if Touches(es[0], w) {
      assert es[0] in es;
    }
  }

  lemma FreshIsGood()
    ensures Inv(FRESH) && Running(FRESH, false)
  {
  }

  /**
   * A new bufferevent: reading always runs exactly when it is enabled and not suspended. Writing is enabled
   * without being told to run, and does so exactly when some event has touched it.
   */
  lemma EveryRunFromFresh(es: seq<Event>)
    requires Run(FRESH, es).Some?
    ensures var t := Run(FRESH, es).value; Inv(t) && Running(t, false) && (Running(t, true) <==> Touched(es, true))
  {
    FreshIsGood();
    EveryRun(FRESH, es);
    if !Touched(es, true) {
      StaysUnasked(FRESH, es);
    }
  }

  /** Writing as it is in a new bufferevent. */
  predicate Unasked(s: Limiter) {
    s.enabled.write && s.suspended.write == {} && !s.backend.write && s.cfg.None? && !s.pending
  }

  lemma {:induction false} StaysUnasked(s: Limiter, es: seq<Event>)
    requires Unasked(s) && Run(s, es).Some? && !Touched(es, true)
    ensures Unasked(Run(s, es).value)
    decreases |es|
  {
    if es != [] {
      TouchedFirst(es, true);
      assert Unasked(After(s, es[0]));
      hide After, Possible;
      StaysUnasked(After(s, es[0]), es[1..]);
    }
  }

  /**
   * What may be used is exactly what does not take the bucket below zero; using all of it empties the bucket
   * and suspends the direction.
   */
  lemma MaxExact(s: Limiter, w: bool, single: nat, n: nat)
    requires s.cfg.Some?
    ensures n <= MaxAllowed(s, w, single) <==> n == 0 || n <= s.bucket.limit.Get(w)
    ensures var most := MaxAllowed(s, w, single);
      var t := DecrementBuckets(s, w, most);
      most > 0 ==> t.bucket.limit.Get(w) == 0 && Suspended(t, w) && t.pending
  {
  }

  /** A new limit lets the bytes of one tick pass at once; a changed one takes away what exceeds its maximum, and gives nothing. */
  lemma LimitBegins(s: Limiter, cfg: Cfg, now: nat, w: bool, single: nat)
    requires Proper(cfg)
    ensures var t := SetRateLimit(s, Some(cfg), now, false);
      && (Suspended(t, w) <==> t.bucket.limit.Get(w) <= 0)
      && (s.cfg.None? ==> MaxAllowed(t, w, single) == cfg.rate.Get(w) && t.bucket.lastUpdated == now)
      && (s.cfg.Some? ==>
            && t.bucket.lastUpdated == s.bucket.lastUpdated
            && t.bucket.limit.Get(w) <= s.bucket.limit.Get(w) && t.bucket.limit.Get(w) <= cfg.maximum.Get(w)
            && (s.bucket.limit.Get(w) <= cfg.maximum.Get(w) ==> t.bucket.limit.Get(w) == s.bucket.limit.Get(w)))
  {
    SetBuckets(s, cfg, now);
    SetSuspends(s, cfg, now, w);
  }

  lemma SetSuspends(s: Limiter, cfg: Cfg, now: nat, w: bool)
    ensures var t := SetRateLimit(s, Some(cfg), now, false); Suspended(t, w) <==> t.bucket.limit.Get(w) <= 0
  {
  }

  /**
   * Using bytes suspends exactly the direction whose bucket is empty then, and releases it otherwise; taking
   * or handing back bytes does so when the bucket becomes empty, or ceases to be. The other direction is not touched.
   */
  lemma SpendExact(s: Limiter, w: bool, n: int)
    requires s.cfg.Some?
    ensures var t := DecrementBuckets(s, w, n);
      && t.bucket.limit.Get(w) == s.bucket.limit.Get(w) - n && t.bucket.limit.Get(!w) == s.bucket.limit.Get(!w)
      && (Suspended(t, w) <==> t.bucket.limit.Get(w) <= 0) && t.suspended.Get(!w) == s.suspended.Get(!w)
    ensures var t := DecrementLimit(s, w, n);
      var crossed := (s.bucket.limit.Get(w) > 0) != (t.bucket.limit.Get(w) > 0);
      && t.bucket.limit.Get(w) == s.bucket.limit.Get(w) - n && t.bucket.limit.Get(!w) == s.bucket.limit.Get(!w)
      && (Suspended(t, w) <==> if crossed then t.bucket.limit.Get(w) <= 0 else Suspended(s, w))
      && t.suspended.Get(!w) == s.suspended.Get(!w)
  {
  }

  /** Suspending and releasing leave the buckets alone. */
  lemma SetBuckets(s: Limiter, cfg: Cfg, now: nat)
    ensures var t := SetRateLimit(s, Some(cfg), now, false);
      t.cfg == Some(cfg) && t.bucket == Initial(s.bucket, cfg, now, s.cfg.Some?)
  {
  }

  /**
   * Bytes handed back (a negative decrement) can lift a bucket above its maximum, and then the refill is not
   * the minimum: it adds to the surplus instead of cutting it off.
   */
  lemma RefundGrows()
    ensures var cfg := Cfg(Two(100, 100), Two(100, 100));
      var s := DecrementLimit(SetRateLimit(FRESH, Some(cfg), 0, false), false, -200);
      var t := UpdateBuckets(s, 1);
      && s.bucket.limit.read == 300 && !NoSurplus(SetRateLimit(FRESH, Some(cfg), 0, false), false, -200)
      && t.bucket.limit.read == 400
      && Min(cfg.maximum.read, s.bucket.limit.read + 1 * cfg.rate.read) == 100
  {
    assert (100 - 300) % WORD == WORD - 200;
    assert (1 - 0) % TICK_WORD == 1;
    assert 400 % WORD == 400;
  }

  /** A use of the bucket: what may be used is asked for at a tick, and no more than that is used. */
  datatype Use = Use(now: nat, n: nat)

  function AfterUse(s: Limiter, w: bool, u: Use): Limiter {
    DecrementBuckets(UpdateBuckets(s, u.now), w, u.n)
  }

  predicate Obedient(s: Limiter, w: bool, us: seq<Use>)
    decreases |us|
  {
    us == [] || (us[0].n <= MaxAllowed(UpdateBuckets(s, us[0].now), w, 0) && Obedient(AfterUse(s, w, us[0]), w, us[1..]))
  }

  function Total(us: seq<Use>): nat {
    if us == [] then 0 else us[0].n + Total(us[1..])
  }

  /** The ticks that a refill takes into account, and the tick of the last refill after it. */
  function Gained(last: nat, now: nat): nat {
    if Forward(Elapsed(now, last)) then Elapsed(now, last) else 0
  }

  function Latest(last: nat, now: nat): nat {
    if Forward(Elapsed(now, last)) then now else last
  }

  function Ticks(last: nat, us: seq<Use>): nat
    decreases |us|
  {
    if us == [] then 0 else Gained(last, us[0].now) + Ticks(Latest(last, us[0].now), us[1..])
  }

  /** Asking refills the bucket by what was gained since, up to its maximum. */
  lemma AskExact(s: Limiter, w: bool, now: nat)
    requires Inv(s) && s.cfg.Some?
    ensures var t := UpdateBuckets(s, now);
      && Inv(t) && t.cfg == s.cfg && t.bucket.lastUpdated == Latest(s.bucket.lastUpdated, now)
      && t.bucket.limit.Get(w) == Min(s.cfg.value.maximum.Get(w),
                                      s.bucket.limit.Get(w) + Gained(s.bucket.lastUpdated, now) * s.cfg.value.rate.Get(w))
  {
    hide Updated, Inv;
    AskKeeps(s, now);
    Opened(s);
    if Forward(Elapsed(now, s.bucket.lastUpdated)) {
      UpdateIsMin(s.bucket, s.cfg.value, now);
      UpdateKeepsWithin(s.bucket, s.cfg.value, now);
    } else {
      Still(s.bucket, s.cfg.value, now);
    }
  }

  lemma Opened(s: Limiter)
    requires Inv(s) && s.cfg.Some?
    ensures Proper(s.cfg.value) && Within(s.bucket, s.cfg.value)
  {
  }

  lemma Still(b: Bucket, cfg: Cfg, now: nat)
    requires !Forward(Elapsed(now, b.lastUpdated))
    ensures Updated(b, cfg, now) == b
  {
  }

  lemma OneUse(s: Limiter, w: bool, u: Use)
    requires Inv(s) && s.cfg.Some? && s.bucket.limit.Get(w) >= 0
    requires u.n <= MaxAllowed(UpdateBuckets(s, u.now), w, 0)
    ensures var t := AfterUse(s, w, u);
      && Inv(t) && t.cfg == s.cfg && t.bucket.limit.Get(w) >= 0
      && t.bucket.lastUpdated == Latest(s.bucket.lastUpdated, u.now)
      && t.bucket.limit.Get(w) + u.n
        <= s.bucket.limit.Get(w) + Gained(s.bucket.lastUpdated, u.now) * s.cfg.value.rate.Get(w)
  {
    hide UpdateBuckets, Inv, Gained, Latest;
    var t := UpdateBuckets(s, u.now);
    AskExact(s, w, u.now);
    Opened(t);
    SpendKeeps(t, w, u.n);
  }

  /**
   * The limit is kept over any stretch of time: no more bytes pass in one direction than the bucket held
   * at the beginning and was given since.
   */
  lemma {:induction false} RateIsKept(s: Limiter, w: bool, us: seq<Use>)
    requires Inv(s) && s.cfg.Some? && s.bucket.limit.Get(w) >= 0 && Obedient(s, w, us)
    ensures Total(us) <= s.bucket.limit.Get(w) + Ticks(s.bucket.lastUpdated, us) * s.cfg.value.rate.Get(w)
    decreases |us|
  {
    if us != [] {
      hide Inv, AfterUse, MaxAllowed, UpdateBuckets, Gained, Latest;
      var u := us[0];
      OneUse(s, w, u);
      var t := AfterUse(s, w, u);
      RateIsKept(t, w, us[1..]);
      Distribute(Gained(s.bucket.lastUpdated, u.now), Ticks(t.bucket.lastUpdated, us[1..]), s.cfg.value.rate.Get(w));
    }
  }

  lemma Distribute(n: nat, m: nat, rate: nat)
    ensures (n + m) * rate == n * rate + m * rate
  {
  }

  /** Each time the timer fires, at least one tick has passed since the last refill. */
  ghost predicate Ticking(last: nat, ticks: seq<nat>)
    decreases |ticks|
  {
    ticks == [] || (Forward(Elapsed(ticks[0], last)) && Ticking(ticks[0], ticks[1..]))
  }

  function Fire(s: Limiter, ticks: seq<nat>): Limiter
    decreases |ticks|
  {
    if ticks == [] || !s.pending then s else Fire(Refill(s, ticks[0]), ticks[1..])
  }

  lemma OneRefill(s: Limiter, now: nat)
    requires Inv(s) && s.cfg.Some? && s.pending && Forward(Elapsed(now, s.bucket.lastUpdated))
    ensures var t := Refill(s, now);
      t.cfg == s.cfg && t.bucket.lastUpdated == now
      && (forall w :: t.bucket.limit.Get(w) > s.bucket.limit.Get(w) || t.bucket.limit.Get(w) > 0)
      && (forall w :: t.bucket.limit.Get(w) > 0 ==> !Suspended(t, w))
      && (forall w :: t.bucket.limit.Get(w) >= s.bucket.limit.Get(w))
  {
    hide Updated;
    var n := Elapsed(now, s.bucket.lastUpdated);
    UpdateIsMin(s.bucket, s.cfg.value, now);
    UpdateKeepsWithin(s.bucket, s.cfg.value, now);
    Product(n, s.cfg.value.rate.read);
    Product(n, s.cfg.value.rate.write);
  }

  /**
   * A bufferevent left alone resumes: when the timer has fired more often than the deeper deficit, every
   * direction is released and the timer is at rest.
   */
  lemma {:induction false} IdleResumes(s: Limiter, ticks: seq<nat>)
    requires Inv(s) && s.cfg.Some? && Ticking(s.bucket.lastUpdated, ticks)
    requires |ticks| > -Min(s.bucket.limit.read, s.bucket.limit.write) && |ticks| > 0
    ensures var t := Fire(s, ticks); !t.pending && !Suspended(t, false) && !Suspended(t, true)
    decreases |ticks|
  {
    hide Inv, Refill;
    if s.pending {
      OneRefill(s, ticks[0]);
      RefillKeeps(s, ticks[0]);
      var t := Refill(s, ticks[0]);
      assert t.bucket.limit.Get(false) == t.bucket.limit.read && t.bucket.limit.Get(true) == t.bucket.limit.write;
      assert s.bucket.limit.Get(false) == s.bucket.limit.read && s.bucket.limit.Get(true) == s.bucket.limit.write;
      if Min(t.bucket.limit.read, t.bucket.limit.write) > 0 {
        AtRest(t);
      } else {
        IdleResumes(t, ticks[1..]);
      }
    } else {
      AtRest(s);
    }
  }

  lemma AtRest(s: Limiter)
    requires Inv(s)
    ensures s.pending <==> Suspended(s, false) || Suspended(s, true)
  {
  }

  // -------- the object --------

  /** The part of `struct bufferevent_private` that suspension and rate limiting use. */
  class LimitedBufferevent {
    var suspended: Two<set<Reason>>
    var enabled: Two<bool>
    var backend: Two<bool>
    var cfg: Option<Cfg>
    const limit: TokenBucket
    var refillPending: bool
    const maxSingle: Two<nat>

    ghost function View(): Limiter
      reads this, limit
    {
      Limiter(suspended, enabled, backend, cfg, limit.View(), refillPending)
    }

    constructor (maxSingle: Two<nat>)
      ensures View() == FRESH && fresh(limit)
    {
      suspended, enabled, backend := Two({}, {}), Two(false, true), Two(false, false);
      cfg, refillPending := None, false;
      this.maxSingle := maxSingle;
      limit := new TokenBucket();
    }

    method SuspendFor(w: bool, what: Reason)
      modifies `suspended, `backend
      ensures View() == Suspend(old(View()), w, what)
    {
      if suspended.Get(w) == {} {
        backend := backend.Put(w, false);
      }
      suspended := suspended.Put(w, suspended.Get(w) + {what});
    }

    method UnsuspendFor(w: bool, what: Reason)
      modifies `suspended, `backend
      ensures View() == Unsuspend(old(View()), w, what)
    {
      suspended := suspended.Put(w, suspended.Get(w) - {what});
      if suspended.Get(w) == {} && enabled.Get(w) {
        backend := backend.Put(w, true);
      }
    }

    method EnableIt(w: bool)
      modifies `enabled, `backend
      ensures View() == Enable(old(View()), w)
    {
      var impl := suspended.Get(w) == {};
      enabled := enabled.Put(w, true);
      if impl {
        backend := backend.Put(w, true);
      }
    }

    method DisableIt(w: bool)
      modifies `enabled, `backend
      ensures View() == Disable(old(View()), w)
    {
      enabled := enabled.Put(w, false);
      backend := backend.Put(w, false);
    }

    /** `bufferevent_set_rate_limit` */
    method SetLimit(newCfg: Option<Cfg>, now: nat, same: bool)
      modifies this, limit
      ensures View() == SetRateLimit(old(View()), newCfg, now, same)
    {
      if newCfg.None? {
        cfg := None;
        UnsuspendFor(false, Bandwidth);
        UnsuspendFor(true, Bandwidth);
        refillPending := false;
        return;
      }
      if cfg.Some? && same {
        return;
      }
      var reinit := cfg.Some?;
      cfg := newCfg;
      limit.Init(newCfg.value, now, reinit);
      if reinit {
        refillPending := false;
      }
      var exhausted := false;
      if limit.readLimit > 0 {
        UnsuspendFor(false, Bandwidth);
      } else {
        SuspendFor(false, Bandwidth);
        exhausted := true;
      }
      if limit.writeLimit > 0 {
        UnsuspendFor(true, Bandwidth);
      } else {
        SuspendFor(true, Bandwidth);
        exhausted := true;
      }
      if exhausted {
        refillPending := true;
      }
    }

    /** `bufferevent_decrement_read_buckets_`, `bufferevent_decrement_write_buckets_` */
    method SpendBytes(w: bool, n: int)
      modifies this, limit
      ensures View() == DecrementBuckets(old(View()), w, n)
    {
      if cfg.None? {
        return;
      }
      limit.Decrement(w, n);
      if limit.View().limit.Get(w) <= 0 {
        SuspendFor(w, Bandwidth);
        refillPending := true;
      } else if Bandwidth in suspended.Get(w) {
        if Bandwidth !in suspended.Get(!w) {
          refillPending := false;
        }
        UnsuspendFor(w, Bandwidth);
      }
    }

    /** `bufferevent_decrement_read_limit`, `bufferevent_decrement_write_limit` */
    method ChargeBytes(w: bool, n: int)
      requires cfg.Some?
      modifies this, limit
      ensures View() == DecrementLimit(old(View()), w, n)
    {
      var before := limit.View().limit.Get(w);
      limit.Decrement(w, n);
      var after := limit.View().limit.Get(w);
      if before > 0 && after <= 0 {
        SuspendFor(w, Bandwidth);
        refillPending := true;
      } else if before <= 0 && after > 0 {
        if Bandwidth !in suspended.Get(!w) {
          refillPending := false;
        }
        UnsuspendFor(w, Bandwidth);
      }
    }

    /** `bufferevent_get_read_max_`, `bufferevent_get_write_max_` */
    method GetMax(w: bool, now: nat) returns (most: int)
      modifies limit
      ensures View() == UpdateBuckets(old(View()), now)
      ensures most == MaxAllowed(View(), w, maxSingle.Get(w))
    {
      most := maxSingle.Get(w);
      if cfg.None? {
        return;
      }
      if now != limit.lastUpdated {
        var _ := limit.Update(cfg.value, now);
      }
      most := limit.View().limit.Get(w);
      if most < 0 {
        most := 0;
      }
    }

    /** `bev_refill_callback_` */
    method RefillCallback(now: nat)
      modifies this, limit
      ensures View() == Refill(old(View()), now)
    {
      refillPending := false;
      if cfg.None? {
        return;
      }
      var again := false;
      var _ := limit.Update(cfg.value, now);
      if Bandwidth in suspended.read {
        if limit.readLimit > 0 {
          UnsuspendFor(false, Bandwidth);
        } else {
          again := true;
        }
      }
      if Bandwidth in suspended.write {
        if limit.writeLimit > 0 {
          UnsuspendFor(true, Bandwidth);
        } else {
          again := true;
        }
      }
      if again {
        refillPending := true;
      }
    }
  }
}
