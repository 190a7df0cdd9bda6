/**
 * Groups of bufferevents that share a token bucket (deps/libevent/bufferevent_ratelim.c:288-371,
 * 441-557, 640-807). A group reaches its members only by trying their locks, so it may fail to suspend
 * or to release some; what matters is that no member is forgotten.
 *
 * Joining takes two steps, between which the joining thread holds the lock of its bufferevent but not
 * that of the group.
 */
module GroupLimits {
  import opened Common
  import opened TokenBuckets

  /**
   * Whether the member is suspended for BEV_SUSPEND_BW_GROUP, in either direction, and, while it is
   * joining, what its thread has read from the group and will act on.
   */
  datatype Member = Member(bit: Two<bool>, joining: Option<Two<bool>>)

  datatype Group = Group(
    cfg: Cfg,
    bucket: Bucket,
    suspended: Two<bool>,
    pending: Two<bool>,         // pending_unsuspend_read, pending_unsuspend_write
    configured: nat,
    minShare: nat,
    members: seq<Member>)       // the list, its head first

  /** The members whose lock somebody else holds. */
  type Busy = seq<bool>

  function Mark(m: Member, w: bool, value: bool): Member {
    m.(bit := m.bit.Put(w, value))
  }

  /** Every member that can be reached is given the bit, or freed of it. */
  function MarkAll(ms: seq<Member>, w: bool, value: bool, busy: Busy): (r: seq<Member>)
    requires |busy| == |ms|
    ensures |r| == |ms|
    ensures forall i :: 0 <= i < |ms| ==> r[i] == if busy[i] then ms[i] else Mark(ms[i], w, value)
  {
    if ms == [] then []
    else [if busy[0] then ms[0] else Mark(ms[0], w, value)] + MarkAll(ms[1..], w, value, busy[1..])
  }

  /** `bev_group_suspend_reading_`, `bev_group_suspend_writing_` (bufferevent_ratelim.c:347-391) */
  function SuspendGroup(g: Group, w: bool, busy: Busy): Group
    requires |busy| == |g.members|
  {
    g.(suspended := g.suspended.Put(w, true), pending := g.pending.Put(w, false),
       members := MarkAll(g.members, w, true, busy))
  }

  /** `bev_group_unsuspend_reading_`, `bev_group_unsuspend_writing_` (bufferevent_ratelim.c:489-527) */
  function UnsuspendGroup(g: Group, w: bool, busy: Busy): Group
    requires |busy| == |g.members|
  {
    g.(suspended := g.suspended.Put(w, false), pending := g.pending.Put(w, true in busy),
       members := MarkAll(g.members, w, false, busy))
  }

  function Spend(g: Group, w: bool, n: int): Group {
    g.(bucket := g.bucket.(limit := g.bucket.limit.Put(w, g.bucket.limit.Get(w) - n)))
  }

  /** The group part of `bufferevent_decrement_read_buckets_` (bufferevent_ratelim.c:295-305) */
  function DecrementBuckets(g: Group, w: bool, n: int, busy: Busy): Group
    requires |busy| == |g.members|
  {
    var h := Spend(g, w, n);
    if h.bucket.limit.Get(w) <= 0 then SuspendGroup(h, w, busy)
    else if h.suspended.Get(w) then UnsuspendGroup(h, w, busy)
    else h
  }

  /** `bufferevent_rate_limit_group_decrement_read`, `..._write` (bufferevent_ratelim.c:1024-1062) */
  function DecrementGroup(g: Group, w: bool, n: int, busy: Busy): Group
    requires |busy| == |g.members|
  {
    var h := Spend(g, w, n);
    var before, after := g.bucket.limit.Get(w), h.bucket.limit.Get(w);
    if before > 0 && after <= 0 then SuspendGroup(h, w, busy)
    else if before <= 0 && after > 0 then UnsuspendGroup(h, w, busy)
    else h
  }

  /** One direction of the refill (bufferevent_ratelim.c:545-552) */
  function Relieve(g: Group, w: bool, busy: Busy): (h: Group)
    requires |busy| == |g.members|
    ensures |h.members| == |g.members|
  {
    if g.pending.Get(w) || (g.suspended.Get(w) && g.bucket.limit.Get(w) >= g.minShare) then UnsuspendGroup(g, w, busy)
    else g
  }

  /** `bev_group_refill_callback_` (bufferevent_ratelim.c:529-557); the locks may differ for the two passes. */
  function Refill(g: Group, now: nat, busyRead: Busy, busyWrite: Busy): Group
    requires |busyRead| == |busyWrite| == |g.members|
  {
    Relieve(Relieve(g.(bucket := Updated(g.bucket, g.cfg, now)), false, busyRead), true, busyWrite)
  }

  /** `bufferevent_rate_limit_group_set_min_share` (bufferevent_ratelim.c:703-721) */
  function SetMinShare(g: Group, share: nat): Group {
    if share > SSIZE_MAX then g
    else g.(configured := share, minShare := Min(Min(share, g.cfg.rate.read), g.cfg.rate.write))
  }

  /** `bufferevent_rate_limit_group_set_cfg` (bufferevent_ratelim.c:672-700) */
  function SetCfg(g: Group, cfg: Cfg): Group {
    var b := g.bucket.(limit := Two(Min(g.bucket.limit.read, cfg.maximum.read), Min(g.bucket.limit.write, cfg.maximum.write)));
    SetMinShare(g.(cfg := cfg, bucket := b), g.configured)
  }

  /** `bufferevent_rate_limit_group_new` (bufferevent_ratelim.c:638-669) */
  function NewGroup(cfg: Cfg, now: nat): Group {
    SetMinShare(Group(cfg, Initial(Bucket(Two(0, 0), 0), cfg, now, false), Two(false, false), Two(false, false), 0, 0, []), 64)
  }

  /** The first step of `bufferevent_add_to_rate_limit_group` (bufferevent_ratelim.c:760-769) */
  function Join(g: Group): Group {
    g.(members := [Member(Two(false, false), Some(g.suspended))] + g.members)
  }

  /** The second step (bufferevent_ratelim.c:771-774) */
  function FinishJoin(g: Group, i: nat): Group
    requires i < |g.members| && g.members[i].joining.Some?
  {
    var m := g.members[i];
    g.(members := g.members[i := Member(Two(m.bit.read || m.joining.value.read, m.bit.write || m.joining.value.write), None)])
  }

  /** `bufferevent_remove_from_rate_limit_group` (bufferevent_ratelim.c:786-807), which frees it of its bits too */
  function Leave(g: Group, i: nat): Group
    requires i < |g.members|
  {
    g.(members := g.members[..i] + g.members[i + 1..])
  }

  /** C's division, which truncates. */
  function Quotient(a: int, b: nat): int
    requires b > 0
  {
    if a >= 0 then a / b else -((-a) / b)
  }

  /** The group part of `bufferevent_get_rlim_max_` (bufferevent_ratelim.c:226-253): what a member may use */
  function Share(g: Group, w: bool): int
    requires g.members != []
  {
    if g.suspended.Get(w) then 0
    else
      var share := Quotient(g.bucket.limit.Get(w), |g.members|);
      if share < g.minShare then g.minShare else share
  }

  function Ask(g: Group, i: nat, w: bool): Group
    requires i < |g.members|
  {
    if g.suspended.Get(w) then g.(members := g.members[i := Mark(g.members[i], w, true)]) else g
  }

  // -------- runs --------

  datatype Event =
    | Spent(w: bool, n: int, busy: Busy)              // a member read or wrote
    | Charged(x: bool, m: int, held: Busy)            // the user took bytes, or gave some back
    | Tick(now: nat, busyRead: Busy, busyWrite: Busy)
    | NewCfg(cfg: Cfg)
    | NewMinShare(share: nat)
    | Joins
    | Joined(i: nat)
    | Leaves(j: nat)
    | Asks(k: nat, y: bool)

  /** The locks found taken are any, but include those of the threads in the middle of joining. */
  predicate Locks(g: Group, busy: Busy) {
    |busy| == |g.members| && forall i :: 0 <= i < |busy| ==> g.members[i].joining.Some? ==> busy[i]
  }

  predicate NoSurplus(g: Group, w: bool, n: int) {
    -SSIZE_MAX - 1 <= g.bucket.limit.Get(w) - n <= g.cfg.maximum.Get(w)
  }

  predicate Possible(g: Group, e: Event) {
    match e
    case Spent(w, n, busy) => Locks(g, busy) && NoSurplus(g, w, n)
    case Charged(w, n, busy) => Locks(g, busy) && NoSurplus(g, w, n)
    case Tick(_, r, w) => Locks(g, r) && Locks(g, w)
    case NewCfg(cfg) => Proper(cfg)
    case NewMinShare(_) => true
    case Joins => true
    case Joined(i) => i < |g.members| && g.members[i].joining.Some?
    case Leaves(i) => i < |g.members| && g.members[i].joining.None?
    case Asks(i, _) => i < |g.members| && g.members[i].joining.None?
  }

  function After(g: Group, e: Event): Group
    requires Possible(g, e)
  {
    match e
    case Spent(w, n, busy) => DecrementBuckets(g, w, n, busy)
    case Charged(w, n, busy) => DecrementGroup(g, w, n, busy)
    case Tick(now, r, w) => Refill(g, now, r, w)
    case NewCfg(cfg) => SetCfg(g, cfg)
    case NewMinShare(share) => SetMinShare(g, share)
    case Joins => Join(g)
    case Joined(i) => FinishJoin(g, i)
    case Leaves(i) => Leave(g, i)
    case Asks(i, w) => Ask(g, i, w)
  }

  /** Somebody will look after the member: the group is suspended, or has releases outstanding. */
  predicate Remembered(g: Group, m: Member, w: bool) {
    m.bit.Get(w) || (m.joining.Some? && m.joining.value.Get(w)) ==> g.suspended.Get(w) || g.pending.Get(w)
  }

  predicate Waking(g: Group, w: bool) {
    && !(g.suspended.Get(w) && g.pending.Get(w))
    && forall i :: 0 <= i < |g.members| ==> Remembered(g, g.members[i], w)
  }

  predicate Bounded(g: Group) {
    && Proper(g.cfg) && Within(g.bucket, g.cfg)
    && g.minShare == Min(Min(g.configured, g.cfg.rate.read), g.cfg.rate.write)
    && g.configured <= SSIZE_MAX
  }

  predicate Inv(g: Group) {
    Waking(g, false) && Waking(g, true) && Bounded(g)
  }

  lemma SuspendWakes(g: Group, w: bool, busy: Busy, x: bool)
    requires Waking(g, false) && Waking(g, true) && Locks(g, busy)
    ensures Waking(SuspendGroup(g, w, busy), x)
    ensures Waking(UnsuspendGroup(g, w, busy), x)
    ensures Locks(g, busy) ==> |SuspendGroup(g, w, busy).members| == |UnsuspendGroup(g, w, busy).members| == |g.members|
  {
    var h := UnsuspendGroup(g, w, busy);
    forall i | 0 <= i < |h.members|
      ensures Remembered(h, h.members[i], x)
    {
      assert Remembered(g, g.members[i], x);
      assert busy[i] ==> true in busy;
    }
    var s := SuspendGroup(g, w, busy);
    forall i | 0 <= i < |s.members|
      ensures Remembered(s, s.members[i], x)
    {
      assert Remembered(g, g.members[i], x);
    }
  }

  lemma SpendKeepsBounded(g: Group, w: bool, n: int)
    requires Bounded(g) && NoSurplus(g, w, n)
    ensures Bounded(Spend(g, w, n))
    ensures forall x :: Waking(g, x) ==> Waking(Spend(g, w, n), x)
  {
    forall x | Waking(g, x)
      ensures Waking(Spend(g, w, n), x)
    {
      SameMembers(g, Spend(g, w, n), x);
    }
  }

  lemma SameMembers(g: Group, h: Group, x: bool)
    requires Waking(g, x) && h.members == g.members && h.suspended == g.suspended && h.pending == g.pending
    ensures Waking(h, x)
  {
    forall i | 0 <= i < |h.members|
      ensures Remembered(h, h.members[i], x)
    {
      assert Remembered(g, g.members[i], x);
    }
  }

  lemma SpentKeeps(g: Group, w: bool, n: int, busy: Busy)
    requires Inv(g) && Locks(g, busy) && NoSurplus(g, w, n)
    ensures Inv(DecrementBuckets(g, w, n, busy)) && Inv(DecrementGroup(g, w, n, busy))
  {
    hide Waking;
    SpendKeepsBounded(g, w, n);
    var h := Spend(g, w, n);
    SuspendWakes(h, w, busy, false);
    SuspendWakes(h, w, busy, true);
  }

  lemma RelieveKeeps(g: Group, w: bool, busy: Busy)
    requires Inv(g) && Locks(g, busy)
    ensures Inv(Relieve(g, w, busy))
  {
    hide Waking;
    SuspendWakes(g, w, busy, false);
    SuspendWakes(g, w, busy, true);
  }

  /** The joining members are the same after one pass. */
  lemma LocksStay(g: Group, w: bool, busy: Busy, other: Busy)
    requires Locks(g, busy) && Locks(g, other)
    ensures Locks(Relieve(g, w, busy), other)
  {
  }

  lemma TickKeeps(g: Group, now: nat, busyRead: Busy, busyWrite: Busy)
    requires Inv(g) && Locks(g, busyRead) && Locks(g, busyWrite)
    ensures Inv(Refill(g, now, busyRead, busyWrite))
  {
    hide Waking, Relieve, Updated;
    var h := g.(bucket := Updated(g.bucket, g.cfg, now));
    UpdateKeepsWithin(g.bucket, g.cfg, now);
    SameMembers(g, h, false);
    SameMembers(g, h, true);
    RelieveKeeps(h, false, busyRead);
    LocksStay(h, false, busyRead, busyWrite);
    RelieveKeeps(Relieve(h, false, busyRead), true, busyWrite);
  }

  lemma CfgKeeps(g: Group, cfg: Cfg, share: nat)
    requires Inv(g) && Proper(cfg)
    ensures Inv(SetCfg(g, cfg)) && Inv(SetMinShare(g, share))
  {
    hide Waking;
    SameMembers(g, SetCfg(g, cfg), false);
    SameMembers(g, SetCfg(g, cfg), true);
    SameMembers(g, SetMinShare(g, share), false);
    SameMembers(g, SetMinShare(g, share), true);
  }

  lemma JoinKeeps(g: Group, x: bool)
    requires Waking(g, x)
    ensures Waking(Join(g), x)
  {
    var h := Join(g);
    forall i | 0 <= i < |h.members|
      ensures Remembered(h, h.members[i], x)
    {
      if i > 0 {
        assert Remembered(g, g.members[i - 1], x);
      }
    }
  }

  lemma OneMemberKeeps(g: Group, i: nat, w: bool, x: bool)
    requires Waking(g, x) && i < |g.members|
    ensures g.members[i].joining.Some? ==> Waking(FinishJoin(g, i), x)
    ensures Waking(Leave(g, i), x)
    ensures Waking(Ask(g, i, w), x)
  {
    assert Remembered(g, g.members[i], x);
    var h := Leave(g, i);
    forall j | 0 <= j < |h.members|
      ensures Remembered(h, h.members[j], x)
    {
      assert Remembered(g, g.members[if j < i then j else j + 1], x);
    }
    var a := Ask(g, i, w);
    forall j | 0 <= j < |a.members|
      ensures Remembered(a, a.members[j], x)
    {
      assert Remembered(g, g.members[j], x);
    }
    if g.members[i].joining.Some? {
      var f := FinishJoin(g, i);
      forall j | 0 <= j < |f.members|
        ensures Remembered(f, f.members[j], x)
      {
        assert Remembered(g, g.members[j], x);
      }
    }
  }

  lemma StepKeeps(g: Group, e: Event)
    requires Inv(g) && Possible(g, e)
    ensures Inv(After(g, e))
  {
    hide Waking, Refill, DecrementBuckets, DecrementGroup;
    match e {
      case Spent(w, n, busy) => SpentKeeps(g, w, n, busy);
      case Charged(w, n, busy) => SpentKeeps(g, w, n, busy);
      case Tick(now, r, w) => TickKeeps(g, now, r, w);
      case NewCfg(cfg) => CfgKeeps(g, cfg, 0);
      case NewMinShare(share) => CfgKeeps(g, g.cfg, share);
      case Joins =>
        JoinKeeps(g, false);
        JoinKeeps(g, true);
      case Joined(i) =>
        OneMemberKeeps(g, i, false, false);
        OneMemberKeeps(g, i, false, true);
      case Leaves(i) =>
        OneMemberKeeps(g, i, false, false);
        OneMemberKeeps(g, i, false, true);
      case Asks(i, w) =>
        OneMemberKeeps(g, i, w, false);
        OneMemberKeeps(g, i, w, true);
    }
  }

  function Run(g: Group, es: seq<Event>): Option<Group>
    decreases |es|
  {
    if es == [] then Some(g)
    else if Possible(g, es[0]) then Run(After(g, es[0]), es[1..])
    else None
  }

  /**
   * No wake-up is lost, whatever locks are taken when: in every reachable state a member that carries
   * the bit, or is about to be given it, belongs to a group that is suspended or has releases
   * outstanding, and a group is never both.
   */
  lemma {:induction false} NoLostWakeup(g: Group, es: seq<Event>)
    requires Inv(g) && Run(g, es).Some?
    ensures Inv(Run(g, es).value)
    decreases |es|
  {
    if es != [] {
      hide Inv, Possible, After;
      StepKeeps(g, es[0]);
      NoLostWakeup(After(g, es[0]), es[1..]);
    }
  }

  lemma NewIsGood(cfg: Cfg, now: nat)
    requires Proper(cfg)
    ensures Inv(NewGroup(cfg, now)) && NewGroup(cfg, now).minShare >= 1
    ensures Guarded(NewGroup(cfg, now), false) && Guarded(NewGroup(cfg, now), true)
  {
  }

  /** A group begins with the bytes of one tick; a new configuration takes away what exceeds its maximum, and gives nothing. */
  lemma GroupBegins(g: Group, cfg: Cfg, now: nat, w: bool)
    ensures NewGroup(cfg, now).bucket.limit.Get(w) == cfg.rate.Get(w) && NewGroup(cfg, now).bucket.lastUpdated == now
    ensures var h := SetCfg(g, cfg);
      && h.bucket.lastUpdated == g.bucket.lastUpdated && h.members == g.members
      && h.bucket.limit.Get(w) <= g.bucket.limit.Get(w) && h.bucket.limit.Get(w) <= cfg.maximum.Get(w)
      && (g.bucket.limit.Get(w) <= cfg.maximum.Get(w) ==> h.bucket.limit.Get(w) == g.bucket.limit.Get(w))
  {
  }

  /** A group from its creation on: nobody is forgotten, and unless the minimal share is set to zero an empty bucket is suspended. */
  lemma EveryRunFromNew(cfg: Cfg, now: nat, es: seq<Event>)
    requires Proper(cfg) && Run(NewGroup(cfg, now), es).Some?
    ensures var h := Run(NewGroup(cfg, now), es).value;
      && Inv(h)
      && ((forall e :: e in es && e.NewMinShare? ==> e.share >= 1) ==> Guarded(h, false) && Guarded(h, true))
  {
    hide Inv, NewGroup, Run, Guarded;
    NewIsGood(cfg, now);
    NoLostWakeup(NewGroup(cfg, now), es);
    if forall e :: e in es && e.NewMinShare? ==> e.share >= 1 {
      EmptyIsSuspended(NewGroup(cfg, now), es);
    }
  }

  // -------- release --------

  /** A tick that comes at least one tick after the last one. */
  predicate Timely(g: Group, now: nat) {
    Forward(Elapsed(now, g.bucket.lastUpdated))
  }

  /** What is left of a suspension that only the passing of time ends. */
  function Deficit(g: Group, w: bool): nat {
    if g.suspended.Get(w) && g.bucket.limit.Get(w) < g.minShare then g.minShare - g.bucket.limit.Get(w) else 0
  }

  /** One refill: the bucket gains a whole rate, or holds at least the minimal share. */
  lemma OneTick(g: Group, now: nat, busyRead: Busy, busyWrite: Busy, w: bool)
    requires Inv(g) && Locks(g, busyRead) && Locks(g, busyWrite) && Timely(g, now)
    ensures var h := Refill(g, now, busyRead, busyWrite);
      var rate := g.cfg.rate.Get(w);
      && h.bucket.lastUpdated == now && h.cfg == g.cfg && h.minShare == g.minShare
      && (Deficit(g, w) <= rate ==> !h.suspended.Get(w))
      && (Deficit(g, w) > rate ==> Deficit(h, w) <= Deficit(g, w) - rate)
  {
    hide Updated, MarkAll;
    var n := Elapsed(now, g.bucket.lastUpdated);
    UpdateIsMin(g.bucket, g.cfg, now);
    Product(n, g.cfg.rate.read);
    Product(n, g.cfg.rate.write);
  }

  /** Ticks of an idle group, with any locks taken at each of them. */
  ghost predicate IdleRun(g: Group, es: seq<Event>)
    decreases |es|
  {
    es == [] || (es[0].Tick? && Possible(g, es[0]) && Timely(g, es[0].now) && IdleRun(After(g, es[0]), es[1..]))
  }

  lemma {:induction false} IdleRunRuns(g: Group, es: seq<Event>)
    requires IdleRun(g, es)
    ensures Run(g, es).Some?
    decreases |es|
  {
    if es != [] {
      hide Possible, After;
      IdleRunRuns(After(g, es[0]), es[1..]);
    }
  }

  lemma Enough(n: nat, rate: nat, deficit: nat)
    requires n > 0 && rate > 0 && n * rate >= deficit
    ensures n == 1 ==> deficit <= rate
    ensures (n - 1) * rate >= deficit - rate && (n - 1) * rate >= 0
  {
    assert n * rate == (n - 1) * rate + rate;
    Product(n - 1, rate);
  }

  /** An idle suspended group is released after as many ticks as it takes to make up the deficit, whatever locks are taken. */
  lemma {:induction false} IdleGroupReleased(g: Group, es: seq<Event>, w: bool)
    requires Inv(g) && IdleRun(g, es) && |es| > 0 && |es| * g.cfg.rate.Get(w) >= Deficit(g, w)
    ensures Run(g, es).Some? && !Run(g, es).value.suspended.Get(w)
    decreases |es|
  {
    IdleRunRuns(g, es);
    hide Inv, Possible, After, Deficit;
    var e := es[0];
    var h := After(g, e);
    StepKeeps(g, e);
    TickStep(g, e, w);
    Enough(|es|, g.cfg.rate.Get(w), Deficit(g, w));
    if |es| > 1 {
      IdleGroupReleased(h, es[1..], w);
    } else {
      assert es[1..] == [];
    }
  }

  lemma TickStep(g: Group, e: Event, w: bool)
    requires Inv(g) && e.Tick? && Possible(g, e) && Timely(g, e.now)
    ensures var h := After(g, e);
      h.cfg == g.cfg && g.cfg.rate.Get(w) >= 1
      && (Deficit(g, w) <= g.cfg.rate.Get(w) ==> !h.suspended.Get(w) && Deficit(h, w) == 0)
      && (Deficit(g, w) > g.cfg.rate.Get(w) ==> Deficit(h, w) <= Deficit(g, w) - g.cfg.rate.Get(w))
  {
    OneTick(g, e.now, e.busyRead, e.busyWrite, w);
  }

  /** Once a group is released, the first refill that finds all locks free frees every member. */
  lemma AllFreed(g: Group, now: nat, busyRead: Busy, busyWrite: Busy)
    requires Inv(g) && |busyRead| == |busyWrite| == |g.members| && true !in busyRead && true !in busyWrite
    requires Locks(g, busyRead) && !g.suspended.read && !g.suspended.write
    ensures var h := Refill(g, now, busyRead, busyWrite);
      && !h.pending.read && !h.pending.write
      && forall i :: 0 <= i < |h.members| ==> !h.members[i].bit.read && !h.members[i].bit.write
  {
    hide Updated;
    TickKeeps(g, now, busyRead, busyWrite);
    var h := Refill(g, now, busyRead, busyWrite);
    forall i | 0 <= i < |h.members|
      ensures !h.members[i].bit.read && !h.members[i].bit.write
    {
      assert Remembered(h, h.members[i], false) && Remembered(h, h.members[i], true);
    }
  }

  /**
   * An idle group frees its members: after as many ticks as it takes to make up both deficits, one at which
   * no lock is taken leaves no member with the bit and no release outstanding.
   */
  lemma IdleMembersFreed(g: Group, es: seq<Event>, tick: Event)
    requires Inv(g) && IdleRun(g, es) && |es| > 0
    requires forall w :: |es| * g.cfg.rate.Get(w) >= Deficit(g, w)
    requires Run(g, es).Some? && tick.Tick? && Possible(Run(g, es).value, tick)
    requires true !in tick.busyRead && true !in tick.busyWrite
    ensures var h := After(Run(g, es).value, tick);
      && !h.pending.read && !h.pending.write
      && forall i :: 0 <= i < |h.members| ==> !h.members[i].bit.read && !h.members[i].bit.write
  {
    hide Inv, Refill, Run, IdleRun, Deficit;
    IdleGroupReleased(g, es, false);
    IdleGroupReleased(g, es, true);
    NoLostWakeup(g, es);
    AllFreed(Run(g, es).value, tick.now, tick.busyRead, tick.busyWrite);
  }

  // -------- what a group gains and spends --------

  function Gained(last: nat, now: nat): nat {
    if Forward(Elapsed(now, last)) then Elapsed(now, last) else 0
  }

  /** A refill gives the rate for every tick that has passed, up to the maximum. */
  lemma RefillExact(g: Group, now: nat, busyRead: Busy, busyWrite: Busy, w: bool)
    requires Inv(g) && Locks(g, busyRead) && Locks(g, busyWrite)
    ensures var h := Refill(g, now, busyRead, busyWrite);
      && h.cfg == g.cfg && h.bucket.lastUpdated == (if Forward(Elapsed(now, g.bucket.lastUpdated)) then now else g.bucket.lastUpdated)
      && h.bucket.limit.Get(w)
        == Min(g.cfg.maximum.Get(w), g.bucket.limit.Get(w) + Gained(g.bucket.lastUpdated, now) * g.cfg.rate.Get(w))
  {
    hide Updated, MarkAll;
    if Forward(Elapsed(now, g.bucket.lastUpdated)) {
      UpdateIsMin(g.bucket, g.cfg, now);
    } else {
      NoTick(g.bucket, g.cfg, now);
    }
  }

  lemma NoTick(b: Bucket, cfg: Cfg, now: nat)
    requires !Forward(Elapsed(now, b.lastUpdated))
    ensures Updated(b, cfg, now) == b
  {
  }

  /**
   * When a group is suspended: after its bytes were used, exactly if the bucket is empty; after the user took
   * or gave some, if that made it empty; after a refill, if it was and has not come up to
   * the minimal share.
   */
  lemma SuspendedExactly(g: Group, e: Event, w: bool)
    requires Inv(g) && Possible(g, e)
    ensures var h := After(g, e);
      var before, after := g.bucket.limit.Get(w), h.bucket.limit.Get(w);
      h.suspended.Get(w) <==>
        if e.Spent? && e.w == w then after <= 0
        else if e.Charged? && e.x == w && (before > 0) != (after > 0) then after <= 0
        else if e.Tick? then g.suspended.Get(w) && after < g.minShare
        else g.suspended.Get(w)
  {
    hide MarkAll, Updated;
  }

  /** What an event takes from the bucket, and what it gives. */
  function Taken(e: Event, w: bool): int {
    if e.Spent? && e.w == w then e.n else if e.Charged? && e.x == w then e.m else 0
  }

  function Given(g: Group, e: Event, w: bool): nat {
    if e.Tick? then Gained(g.bucket.lastUpdated, e.now) * g.cfg.rate.Get(w) else 0
  }

  function TotalTaken(es: seq<Event>, w: bool): int {
    if es == [] then 0 else Taken(es[0], w) + TotalTaken(es[1..], w)
  }

  ghost function TotalGiven(g: Group, es: seq<Event>, w: bool): nat
    requires Run(g, es).Some?
    decreases |es|
  {
    if es == [] then 0 else Given(g, es[0], w) + TotalGiven(After(g, es[0]), es[1..], w)
  }

  lemma EventLedger(g: Group, e: Event, w: bool)
    requires Inv(g) && Possible(g, e)
    ensures After(g, e).bucket.limit.Get(w) <= g.bucket.limit.Get(w) - Taken(e, w) + Given(g, e, w)
  {
    hide MarkAll, Refill, Gained;
    if e.Tick? {
      RefillExact(g, e.now, e.busyRead, e.busyWrite, w);
    }
  }

  /** The books of a group: over every run the bucket holds no more than it held, less what was taken, plus the ticks' rate. */
  lemma {:induction false} GroupLedger(g: Group, es: seq<Event>, w: bool)
    requires Inv(g) && Run(g, es).Some?
    ensures Run(g, es).value.bucket.limit.Get(w) <= g.bucket.limit.Get(w) - TotalTaken(es, w) + TotalGiven(g, es, w)
    decreases |es|
  {
    if es != [] {
      hide Inv, Possible, After, Taken, Given;
      StepKeeps(g, es[0]);
      EventLedger(g, es[0], w);
      GroupLedger(After(g, es[0]), es[1..], w);
    }
  }

  // -------- shares --------

  /**
   * What a member may use: nothing in a suspended group; else at least the minimal share, and beyond that
   * the largest number of which every member can have as much.
   */
  lemma ShareExact(g: Group, w: bool)
    requires g.members != []
    ensures var n, limit, share := |g.members|, g.bucket.limit.Get(w), Share(g, w);
      if g.suspended.Get(w) then share == 0
      else
        && share >= g.minShare
        && (limit >= 0 ==> (share == g.minShare || n * share <= limit) && limit < n * (share + 1))
        && (limit < 0 ==> share == g.minShare)
  {
    var n, limit := |g.members|, g.bucket.limit.Get(w);
    if limit >= 0 {
      assert limit == n * (limit / n) + limit % n;
      if limit / n < g.minShare {
        Product(n, g.minShare - limit / n);
        assert n * g.minShare == n * (limit / n) + n * (g.minShare - limit / n);
      }
      assert n * (limit / n + 1) == n * (limit / n) + n;
    }
  }

  function Sum(takes: seq<nat>): nat {
    if takes == [] then 0 else takes[0] + Sum(takes[1..])
  }

  /** Members use bytes in turn, each time whatever locks are taken. */
  function Round(g: Group, w: bool, takes: seq<nat>, locks: seq<Busy>): Group
    requires |takes| == |locks| && forall i :: 0 <= i < |locks| ==> |locks[i]| == |g.members|
    decreases |takes|
  {
    if takes == [] then g else Round(DecrementBuckets(g, w, takes[0], locks[0]), w, takes[1..], locks[1..])
  }

  /** Each uses at most the share it is told when its turn comes. */
  predicate Obedient(g: Group, w: bool, takes: seq<nat>, locks: seq<Busy>)
    requires |takes| == |locks| && forall i :: 0 <= i < |locks| ==> |locks[i]| == |g.members|
    decreases |takes|
  {
    takes != [] ==>
      && g.members != [] && takes[0] <= Share(g, w)
      && Obedient(DecrementBuckets(g, w, takes[0], locks[0]), w, takes[1..], locks[1..])
  }

  lemma OneTake(g: Group, w: bool, n: nat, busy: Busy)
    requires |busy| == |g.members|
    ensures var h := DecrementBuckets(g, w, n, busy);
      && |h.members| == |g.members| && h.minShare == g.minShare
      && h.bucket.limit.Get(w) == g.bucket.limit.Get(w) - n
  {
    hide MarkAll;
  }

  lemma OneMore(n: nat, most: nat)
    requires n > 0
    ensures n * most == most + (n - 1) * most
  {
  }

  lemma {:induction false} RoundTakes(g: Group, w: bool, takes: seq<nat>, locks: seq<Busy>, most: nat)
    requires |takes| == |locks| && forall i :: 0 <= i < |locks| ==> |locks[i]| == |g.members|
    requires Obedient(g, w, takes, locks)
    requires g.members != [] ==> most >= g.minShare && g.bucket.limit.Get(w) < |g.members| * (most + 1)
    ensures Sum(takes) <= |takes| * most
    ensures Round(g, w, takes, locks).bucket.limit.Get(w) == g.bucket.limit.Get(w) - Sum(takes)
    decreases |takes|
  {
    if takes != [] {
      hide Share, DecrementBuckets;
      var h := DecrementBuckets(g, w, takes[0], locks[0]);
      OneTake(g, w, takes[0], locks[0]);
      ShareAtMost(g, w, most);
      RoundTakes(h, w, takes[1..], locks[1..], most);
      OneMore(|takes|, most);
    }
  }

  lemma ShareAtMost(g: Group, w: bool, most: nat)
    requires g.members != [] && most >= g.minShare && g.bucket.limit.Get(w) < |g.members| * (most + 1)
    ensures Share(g, w) <= most
  {
    hide Share;
    ShareExact(g, w);
    if g.bucket.limit.Get(w) >= 0 {
      Cancel(|g.members|, Share(g, w), most + 1);
    }
  }

  lemma Cancel(n: nat, a: int, b: int)
    requires n > 0
    ensures n * a < n * b ==> a < b
  {
    if a >= b {
      Product(n, a - b);
      assert n * a == n * b + n * (a - b);
    }
  }

  /** The largest share that a bucket allows `n` members, or the minimal one. */
  lemma Fair(limit: int, n: nat, minShare: nat) returns (most: nat)
    requires n > 0
    ensures most >= minShare && limit < n * (most + 1) && (n * most <= limit || most == minShare)
  {
    most := minShare;
    if limit < 0 {
      Product(n, most + 1);
    } else {
      var fair := limit / n;
      assert limit == n * fair + limit % n && n * (fair + 1) == n * fair + n;
      if fair >= minShare {
        most := fair;
      } else {
        Product(n, minShare - fair);
        assert n * (minShare + 1) == n * (fair + 1) + n * (minShare - fair);
      }
    }
  }

  /**
   * The law of the shares: in a round in which every member uses at most what it is told, no more is used
   * than the bucket held, or than a minimal share for each if that is more.
   */
  lemma RoundKeepsLimit(g: Group, w: bool, takes: seq<nat>, locks: seq<Busy>)
    requires |takes| == |locks| == |g.members| && forall i :: 0 <= i < |locks| ==> |locks[i]| == |g.members|
    requires Obedient(g, w, takes, locks)
    ensures var limit := g.bucket.limit.Get(w);
      && (Sum(takes) <= limit || Sum(takes) <= |g.members| * g.minShare)
      && Round(g, w, takes, locks).bucket.limit.Get(w) == limit - Sum(takes)
  {
    if g.members != [] {
      hide Share, Round, Obedient, Sum;
      var most := Fair(g.bucket.limit.Get(w), |g.members|, g.minShare);
      RoundTakes(g, w, takes, locks, most);
    }
  }

  /** The same if everybody is told at the start. */
  lemma StartSharesKeepLimit(g: Group, w: bool, takes: seq<nat>)
    requires |takes| == |g.members| && g.members != [] && forall i :: 0 <= i < |takes| ==> takes[i] <= Share(g, w)
    ensures Sum(takes) <= g.bucket.limit.Get(w) || Sum(takes) <= |g.members| * g.minShare
  {
    hide Share;
    ShareExact(g, w);
    SumAtMost(takes, Share(g, w));
    Product(|g.members|, g.minShare);
  }

  lemma {:induction false} SumAtMost(takes: seq<nat>, most: nat)
    requires forall i :: 0 <= i < |takes| ==> takes[i] <= most
    ensures Sum(takes) <= |takes| * most
  {
    if takes != [] {
      SumAtMost(takes[1..], most);
      OneMore(|takes|, most);
    }
  }

  // -------- an empty bucket --------

  predicate Guarded(g: Group, w: bool) {
    g.bucket.limit.Get(w) <= 0 ==> g.suspended.Get(w)
  }

  /**
   * The one way to a group that runs with an empty bucket: a refill brings a suspended group, whose
   * minimal share is zero, to exactly zero.
   */
  lemma GuardExact(g: Group, e: Event, w: bool)
    requires Inv(g) && Possible(g, e) && Guarded(g, w)
    ensures !Guarded(After(g, e), w) <==>
      e.Tick? && g.suspended.Get(w) && g.minShare == 0 && Updated(g.bucket, g.cfg, e.now).limit.Get(w) == 0
  {
    hide Updated, MarkAll;
    if e.Tick? {
      UpdateKeepsWithin(g.bucket, g.cfg, e.now);
    }
  }

  /** The minimal share is zero only if it was set to that. */
  lemma ShareStays(g: Group, e: Event)
    requires Inv(g) && Possible(g, e) && g.minShare >= 1 && (e.NewMinShare? ==> e.share >= 1)
    ensures After(g, e).minShare >= 1
  {
    hide Updated, MarkAll;
  }

  /** As long as the minimal share is never set to zero, a group whose bucket is empty is suspended. */
  lemma {:induction false} EmptyIsSuspended(g: Group, es: seq<Event>)
    requires Inv(g) && g.minShare >= 1 && Guarded(g, false) && Guarded(g, true) && Run(g, es).Some?
    requires forall e :: e in es && e.NewMinShare? ==> e.share >= 1
    ensures var h := Run(g, es).value; Guarded(h, false) && Guarded(h, true)
    decreases |es|
  {
    if es != [] {
      hide Inv, Possible, After, Guarded;
      assert es[0] in es;
      StepKeeps(g, es[0]);
      GuardExact(g, es[0], false);
      GuardExact(g, es[0], true);
      ShareStays(g, es[0]);
      EmptyIsSuspended(After(g, es[0]), es[1..]);
    }
  }

  /** With a minimal share of zero, a group with an empty bucket may run: it is released as soon as the bucket is at zero. */
  lemma EmptyMayRun()
    ensures var g := NewGroup(Cfg(Two(100, 100), Two(100, 100)), 0);
      var es := [NewMinShare(0), Charged(false, 200, []), Tick(1, [], [])];
      Inv(g) && Run(g, es).Some? && Run(g, es).value.bucket.limit.read == 0 && !Run(g, es).value.suspended.read
  {
    var g := NewGroup(Cfg(Two(100, 100), Two(100, 100)), 0);
    var es := [NewMinShare(0), Charged(false, 200, []), Tick(1, [], [])];
    var g1 := After(g, es[0]);
    var g2 := After(g1, es[1]);
    assert g2.bucket.limit.read == -100 && g2.suspended.read;
    var g3 := After(g2, es[2]);
    assert g3.bucket.limit.read == 0 && !g3.suspended.read;
    assert es[1..] == [es[1], es[2]] && es[1..][1..] == [es[2]];
    assert Run(g2, [es[2]]) == Run(g3, []);
    assert Run(g1, [es[1], es[2]]) == Run(g2, [es[2]]);
    assert Run(g, es) == Run(g1, es[1..]);
  }
}
