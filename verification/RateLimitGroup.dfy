/**
 * The group object of deps/libevent/bufferevent_ratelim.c over its list of bufferevents. Which locks can
 * be taken is a parameter, as is the member that a release starts with.
 */
module RateLimitGroups {
  import opened Common
  import opened TokenBuckets
  import G = GroupLimits
  import R = RateLimit

  type Bev = R.LimitedBufferevent

  /** What the group sees of a member. */
  function Seen(suspended: Two<set<Reason>>, joining: Option<Two<bool>>): G.Member {
    G.Member(Two(GroupBandwidth in suspended.read, GroupBandwidth in suspended.write), joining)
  }

  ghost function Bits(m: Bev, joining: Option<Two<bool>>): G.Member
    reads m`suspended
  {
    Seen(m.suspended, joining)
  }

  ghost function AllBits(ms: seq<Bev>, joining: seq<Option<Two<bool>>>): (r: seq<G.Member>)
    requires |ms| == |joining|
    reads (set m | m in ms)`suspended
    ensures |r| == |ms| && forall i :: 0 <= i < |ms| ==> r[i] == Bits(ms[i], joining[i])
  {
    if ms == [] then [] else [Bits(ms[0], joining[0])] + AllBits(ms[1..], joining[1..])
  }

  /** What becomes of a member by a walk, given whether it is reached. */
  ghost function Touched(s: R.Limiter, w: bool, value: bool, reached: bool): R.Limiter {
    if reached then Reached(s, w, value) else s
  }

  /** What becomes of a member that is reached. */
  ghost function Reached(s: R.Limiter, w: bool, value: bool): R.Limiter {
    if value then R.Suspend(s, w, GroupBandwidth) else R.Unsuspend(s, w, GroupBandwidth)
  }

  /** The group sees exactly whether a member was reached. */
  lemma TouchedBits(s: R.Limiter, w: bool, value: bool, reached: bool, joining: Option<Two<bool>>)
    ensures Seen(Touched(s, w, value, reached).suspended, joining) ==
      if reached then G.Mark(Seen(s.suspended, joining), w, value) else Seen(s.suspended, joining)
  {
  }

  class RateLimitGroup {
    var cfg: Cfg
    const bucket: TokenBucket
    var suspended: Two<bool>
    var pending: Two<bool>
    var configured: nat
    var minShare: nat
    var members: seq<Bev>
    ghost var joining: seq<Option<Two<bool>>>

    ghost predicate Valid()
      reads `members, `joining
    {
      |joining| == |members| && forall i, j :: 0 <= i < j < |members| ==> members[i] != members[j]
    }

    ghost function View(): G.Group
      requires Valid()
      reads this, bucket, (set m | m in members)`suspended
    {
      G.Group(cfg, bucket.View(), suspended, pending, configured, minShare, AllBits(members, joining))
    }

    /** `bufferevent_rate_limit_group_new` */
    constructor (cfg: Cfg, now: nat)
      ensures Valid() && fresh(bucket) && View() == G.NewGroup(cfg, now)
    {
      this.cfg := cfg;
      bucket := new TokenBucket();
      suspended, pending := Two(false, false), Two(false, false);
      configured, minShare, members, joining := 0, 0, [], [];
      new;
      bucket.Init(cfg, now, false);
      var _ := SetMinShare(64);
    }

    /** `bufferevent_rate_limit_group_set_min_share` */
    method SetMinShare(share: nat) returns (r: int)
      requires Valid()
      modifies `configured, `minShare
      ensures View() == G.SetMinShare(old(View()), share)
      ensures r == if share > SSIZE_MAX then -1 else 0
    {
      if share > SSIZE_MAX {
        return -1;
      }
      configured := share;
      var least := share;
      if least > cfg.rate.read {
        least := cfg.rate.read;
      }
      if least > cfg.rate.write {
        least := cfg.rate.write;
      }
      minShare := least;
      r := 0;
    }

    /** `bufferevent_rate_limit_group_set_cfg`; the timer is not part of the model. */
    method SetCfg(newCfg: Cfg)
      requires Valid() && configured <= SSIZE_MAX
      modifies `cfg, `configured, `minShare, bucket
      ensures View() == G.SetCfg(old(View()), newCfg)
    {
      hide AllBits;
      cfg := newCfg;
      if bucket.readLimit > newCfg.maximum.read {
        bucket.readLimit := newCfg.maximum.read;
      }
      if bucket.writeLimit > newCfg.maximum.write {
        bucket.writeLimit := newCfg.maximum.write;
      }
      var _ := SetMinShare(configured);
    }

    /** One member, if its lock can be taken. */
    method Reach(i: nat, w: bool, value: bool, busy: bool)
      requires i < |members|
      modifies {members[i]}`suspended, {members[i]}`backend
      ensures members[i].View() == Touched(old(members[i].View()), w, value, !busy)
    {
      if !busy {
        if value {
          members[i].SuspendFor(w, GroupBandwidth);
        } else {
          members[i].UnsuspendFor(w, GroupBandwidth);
        }
      }
    }

    /** A walk over the list from position `low` up to `high`. */
    method Walk(low: nat, high: nat, w: bool, value: bool, busy: G.Busy) returns (again: bool)
      requires Valid() && low <= high <= |members| == |busy|
      modifies (set m | m in members)`suspended, (set m | m in members)`backend
      ensures forall i :: 0 <= i < |members| ==>
        members[i].View() == Touched(old(members[i].View()), w, value, low <= i < high && !busy[i])
      ensures again <==> true in busy[low..high]
    {
      again := false;
      for i := low to high
        invariant forall j :: 0 <= j < |members| ==>
          members[j].View() == Touched(old(members[j].View()), w, value, low <= j < i && !busy[j])
        invariant again <==> true in busy[low..i]
      {
        Reach(i, w, value, busy[i]);
        assert busy[low..i + 1] == busy[low..i] + [busy[i]];
        if busy[i] {
          again := true;
        }
      }
    }

    /** What the group sees of its members after they were all walked over. */
    lemma Marked(before: seq<G.Member>, w: bool, value: bool, busy: G.Busy)
      requires Valid() && |busy| == |members| == |before|
      requires forall i :: 0 <= i < |members| ==>
        Bits(members[i], joining[i]) == if busy[i] then before[i] else G.Mark(before[i], w, value)
      ensures AllBits(members, joining) == G.MarkAll(before, w, value, busy)
    {
      var after := AllBits(members, joining);
      forall i | 0 <= i < |members|
        ensures after[i] == G.MarkAll(before, w, value, busy)[i]
      {
        assert after[i] == Bits(members[i], joining[i]);
      }
    }

    /** `bev_group_suspend_reading_`, `bev_group_suspend_writing_` */
    method SuspendAll(w: bool, busy: G.Busy)
      requires Valid() && |busy| == |members|
      modifies `suspended, `pending, (set m | m in members)`suspended, (set m | m in members)`backend
      ensures Valid() && View() == G.SuspendGroup(old(View()), w, busy)
      ensures forall i :: 0 <= i < |members| ==>
        members[i].View() == Touched(old(members[i].View()), w, true, !busy[i])
    {
      hide Touched, Seen, G.MarkAll, G.Mark;
      suspended := suspended.Put(w, true);
      pending := pending.Put(w, false);
      ghost var before := AllBits(members, joining);
      var _ := Walk(0, |members|, w, true, busy);
      forall i | 0 <= i < |members|
        ensures Bits(members[i], joining[i]) == if busy[i] then before[i] else G.Mark(before[i], w, true)
      {
        TouchedBits(old(members[i].View()), w, true, !busy[i], joining[i]);
      }
      Marked(before, w, true, busy);
    }

    /** FOREACH_RANDOM_ORDER (bufferevent_ratelim.c:475-487): every member once, whatever comes first */
    method WalkRound(w: bool, busy: G.Busy, start: nat) returns (again: bool)
      requires Valid() && |busy| == |members| && start <= |members|
      modifies (set m | m in members)`suspended, (set m | m in members)`backend
      ensures forall i :: 0 <= i < |members| ==>
        members[i].View() == Touched(old(members[i].View()), w, false, !busy[i])
      ensures again <==> true in busy
    {
      var late := Walk(start, |members|, w, false, busy);
      label Half:
      var early := Walk(0, start, w, false, busy);
      forall i | 0 <= i < |members|
        ensures members[i].View() == Touched(old(members[i].View()), w, false, !busy[i])
      {
        assert old@Half(members[i].View()) == Touched(old(members[i].View()), w, false, start <= i && !busy[i]);
      }
      assert busy == busy[0..start] + busy[start..|members|];
      again := late || early;
    }

    /** `bev_group_unsuspend_reading_`, `bev_group_unsuspend_writing_`: from `start` to the end, then from the head. */
    method UnsuspendAll(w: bool, busy: G.Busy, start: nat)
      requires Valid() && |busy| == |members| && start <= |members|
      modifies `suspended, `pending, (set m | m in members)`suspended, (set m | m in members)`backend
      ensures Valid() && View() == G.UnsuspendGroup(old(View()), w, busy)
      ensures forall i :: 0 <= i < |members| ==>
        members[i].View() == Touched(old(members[i].View()), w, false, !busy[i])
    {
      hide Touched, Seen, G.MarkAll, G.Mark;
      suspended := suspended.Put(w, false);
      ghost var before := AllBits(members, joining);
      var again := WalkRound(w, busy, start);
      pending := pending.Put(w, again);
      forall i | 0 <= i < |members|
        ensures Bits(members[i], joining[i]) == if busy[i] then before[i] else G.Mark(before[i], w, false)
      {
        TouchedBits(old(members[i].View()), w, false, !busy[i], joining[i]);
      }
      Marked(before, w, false, busy);
    }

    /** The group part of `bufferevent_decrement_read_buckets_`, `bufferevent_decrement_write_buckets_` */
    method SpendBytes(w: bool, n: int, busy: G.Busy, start: nat)
      requires Valid() && |busy| == |members| && start <= |members|
      modifies `suspended, `pending, bucket, (set m | m in members)`suspended, (set m | m in members)`backend
      ensures Valid() && View() == G.DecrementBuckets(old(View()), w, n, busy)
    {
      hide G.MarkAll, AllBits, Touched;
      bucket.Decrement(w, n);
      if bucket.View().limit.Get(w) <= 0 {
        SuspendAll(w, busy);
      } else if suspended.Get(w) {
        UnsuspendAll(w, busy, start);
      }
    }

    /** `bufferevent_rate_limit_group_decrement_read`, `bufferevent_rate_limit_group_decrement_write` */
    method ChargeBytes(w: bool, n: int, busy: G.Busy, start: nat)
      requires Valid() && |busy| == |members| && start <= |members|
      modifies `suspended, `pending, bucket, (set m | m in members)`suspended, (set m | m in members)`backend
      ensures Valid() && View() == G.DecrementGroup(old(View()), w, n, busy)
    {
      hide G.MarkAll, AllBits, Touched;
      var before := bucket.View().limit.Get(w);
      bucket.Decrement(w, n);
      var after := bucket.View().limit.Get(w);
      if before > 0 && after <= 0 {
        SuspendAll(w, busy);
      } else if before <= 0 && after > 0 {
        UnsuspendAll(w, busy, start);
      }
    }

    method Relieve(w: bool, busy: G.Busy, start: nat)
      requires Valid() && |busy| == |members| && start <= |members|
      modifies `suspended, `pending, (set m | m in members)`suspended, (set m | m in members)`backend
      ensures Valid() && View() == G.Relieve(old(View()), w, busy)
    {
      if pending.Get(w) || (suspended.Get(w) && bucket.View().limit.Get(w) >= minShare) {
        UnsuspendAll(w, busy, start);
      }
    }

    /** `bev_group_refill_callback_` */
    method RefillCallback(now: nat, busyRead: G.Busy, busyWrite: G.Busy, startRead: nat, startWrite: nat)
      requires Valid() && |busyRead| == |busyWrite| == |members| && startRead <= |members| && startWrite <= |members|
      modifies `suspended, `pending, bucket, (set m | m in members)`suspended, (set m | m in members)`backend
      ensures Valid() && View() == G.Refill(old(View()), now, busyRead, busyWrite)
    {
      hide AllBits, G.Relieve, Updated;
      var _ := bucket.Update(cfg, now);
      Relieve(false, busyRead, startRead);
      Relieve(true, busyWrite, startWrite);
    }

    /** `bufferevent_add_to_rate_limit_group` under the lock of the group; what was read is acted on afterwards. */
    method Insert(bev: Bev) returns (rsuspend: bool, wsuspend: bool)
      requires Valid() && bev !in members
      requires GroupBandwidth !in bev.suspended.read && GroupBandwidth !in bev.suspended.write
      modifies `members, `joining
      ensures Valid() && members == [bev] + old(members) && View() == G.Join(old(View()))
      ensures Two(rsuspend, wsuspend) == suspended
    {
      members := [bev] + members;
      rsuspend, wsuspend := suspended.read, suspended.write;
      joining := [Some(suspended)] + joining;
    }

    /** The rest of it, with only the lock of the bufferevent held. */
    method Finish(ghost i: nat, bev: Bev, rsuspend: bool, wsuspend: bool)
      requires Valid() && i < |members| && bev == members[i] && joining[i] == Some(Two(rsuspend, wsuspend))
      modifies `joining, bev`suspended, bev`backend
      ensures Valid() && View() == G.FinishJoin(old(View()), i)
    {
      hide AllBits;
      ghost var before := AllBits(members, joining);
      FinishBev(bev, rsuspend, wsuspend);
      joining := joining[i := None];
      ghost var after := AllBits(members, joining);
      assert after == before[i := Bits(bev, None)];
    }

    method FinishBev(bev: Bev, rsuspend: bool, wsuspend: bool)
      modifies bev`suspended, bev`backend
      ensures Bits(bev, None).bit.read == (old(Bits(bev, None)).bit.read || rsuspend)
      ensures Bits(bev, None).bit.write == (old(Bits(bev, None)).bit.write || wsuspend)
    {
      ghost var s := bev.View();
      if rsuspend {
        bev.SuspendFor(false, GroupBandwidth);
      }
      ghost var t := bev.View();
      assert t.suspended == bev.suspended;
      if wsuspend {
        bev.SuspendFor(true, GroupBandwidth);
      }
      assert bev.View().suspended == bev.suspended && s.suspended == old(bev.suspended);
    }

    /** `bufferevent_remove_from_rate_limit_group` */
    method Remove(i: nat)
      requires Valid() && i < |members| && joining[i].None?
      modifies `members, `joining, {members[i]}`suspended, {members[i]}`backend
      ensures Valid() && members == old(members)[..i] + old(members)[i + 1..]
      ensures View() == G.Leave(old(View()), i)
      ensures old(members)[i].View() == R.Unsuspend(R.Unsuspend(old(members[i].View()), false, GroupBandwidth), true, GroupBandwidth)
    {
      hide AllBits, Seen;
      var bev := members[i];
      ghost var before := AllBits(members, joining);
      members := members[..i] + members[i + 1..];
      joining := joining[..i] + joining[i + 1..];
      ghost var after := AllBits(members, joining);
      assert after == before[..i] + before[i + 1..];
      assert bev !in members;
      bev.UnsuspendFor(false, GroupBandwidth);
      bev.UnsuspendFor(true, GroupBandwidth);
      assert AllBits(members, joining) == after;
    }

    /** The group part of `bufferevent_get_rlim_max_` */
    method Ask(i: nat, w: bool) returns (share: int)
      requires Valid() && i < |members|
      modifies {members[i]}`suspended, {members[i]}`backend
      ensures Valid() && View() == G.Ask(old(View()), i, w) && share == G.Share(old(View()), w)
    {
      hide AllBits;
      ghost var before := AllBits(members, joining);
      if suspended.Get(w) {
        members[i].SuspendFor(w, GroupBandwidth);
        assert AllBits(members, joining) == before[i := G.Mark(before[i], w, true)];
        share := 0;
      } else {
        share := G.Quotient(bucket.View().limit.Get(w), |members|);
        if share < minShare {
          share := minShare;
        }
      }
    }
  }
}
