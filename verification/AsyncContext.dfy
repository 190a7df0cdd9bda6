/**
 * `redisAsyncContext` of deps/hiredis/async.c as an object whose methods update its fields, each
 * proved to take the step of the state machine in `AsyncClient` of the same event.
 */
module AsyncContext {
  import opened Common
  import opened Resp
  import opened AsyncClient

  /** The two subscription dictionaries seen as one. */
  function Merge(channels: map<string, Callback>, patterns: map<string, Callback>): (m: map<Topic, Callback>)
    ensures forall n :: Topic(false, n) in m <==> n in channels
    ensures forall n :: Topic(true, n) in m <==> n in patterns
    ensures forall n :: n in channels ==> m[Topic(false, n)] == channels[n]
    ensures forall n :: n in patterns ==> m[Topic(true, n)] == patterns[n]
  {
    var keys := (set n | n in channels :: Topic(false, n)) + (set n | n in patterns :: Topic(true, n));
    map t | t in keys :: if t.pattern then patterns[t.name] else channels[t.name]
  }

  lemma MergeSet(channels: map<string, Callback>, patterns: map<string, Callback>, n: string, cb: Callback)
    ensures Merge(channels[n := cb], patterns) == Merge(channels, patterns)[Topic(false, n) := cb]
    ensures Merge(channels, patterns[n := cb]) == Merge(channels, patterns)[Topic(true, n) := cb]
  {
    hide Merge;
    MergeSame(Merge(channels[n := cb], patterns), Merge(channels, patterns)[Topic(false, n) := cb]);
    MergeSame(Merge(channels, patterns[n := cb]), Merge(channels, patterns)[Topic(true, n) := cb]);
  }

  lemma MergeDrop(channels: map<string, Callback>, patterns: map<string, Callback>, n: string)
    ensures Merge(channels - {n}, patterns) == Merge(channels, patterns) - {Topic(false, n)}
    ensures Merge(channels, patterns - {n}) == Merge(channels, patterns) - {Topic(true, n)}
  {
    hide Merge;
    MergeSame(Merge(channels - {n}, patterns), Merge(channels, patterns) - {Topic(false, n)});
    MergeSame(Merge(channels, patterns - {n}), Merge(channels, patterns) - {Topic(true, n)});
  }

  lemma MergeEmpty(channels: map<string, Callback>, patterns: map<string, Callback>)
    ensures |channels| == 0 && |patterns| == 0 <==> Merge(channels, patterns) == map[]
  {
    if |channels| > 0 { var n :| n in channels; assert Topic(false, n) in Merge(channels, patterns); }
    if |patterns| > 0 { var n :| n in patterns; assert Topic(true, n) in Merge(channels, patterns); }
    if channels == map[] && patterns == map[] {
      MergeSame(Merge(channels, patterns), map[]);
    }
  }

  /** Two maps of topics that agree on channels and on patterns are equal. */
  lemma MergeSame(a: map<Topic, Callback>, b: map<Topic, Callback>)
    requires forall n :: Topic(false, n) in a <==> Topic(false, n) in b
    requires forall n :: Topic(true, n) in a <==> Topic(true, n) in b
    requires forall n :: Topic(false, n) in a ==> a[Topic(false, n)] == b[Topic(false, n)]
    requires forall n :: Topic(true, n) in a ==> a[Topic(true, n)] == b[Topic(true, n)]
    ensures a == b
  {
    forall t: Topic
      ensures t in a <==> t in b
      ensures t in a ==> a[t] == b[t]
    {
      assert t == Topic(false, t.name) || t == Topic(true, t.name);
    }
  }

  /** The topics of one dictionary that have a callback to run. */
  ghost function TopicsWithFn(dict: map<string, Callback>, pattern: bool): set<Topic> {
    set n | n in dict && dict[n].hasFn :: Topic(pattern, n)
  }

  lemma MergeWithFn(channels: map<string, Callback>, patterns: map<string, Callback>)
    ensures WithFn(Merge(channels, patterns)) == TopicsWithFn(channels, false) + TopicsWithFn(patterns, true)
  {
    var m := Merge(channels, patterns);
    forall t: Topic
      ensures t in WithFn(m) <==> t in TopicsWithFn(channels, false) + TopicsWithFn(patterns, true)
    {
      assert t == Topic(t.pattern, t.name);
    }
  }

  class RedisAsyncContext {
    var replies: seq<Callback>
    var subReplies: seq<Callback>
    var channels: map<string, Callback>
    var patterns: map<string, Callback>
    var pendingUnsubs: int
    var subscribed: bool
    var supportsPush: bool
    var monitoring: bool
    var disconnecting: bool
    var freeing: bool
    var closed: bool
    var inCallback: bool
    var current: Option<Callback>
    var timingOut: bool   // the loop of `redisAsyncHandleTimeout` waits for the callback to return
    const pushHandler: bool
    ghost var log: History

    ghost function Dict(): map<Topic, Callback>
      reads this`channels, this`patterns
    {
      Merge(channels, patterns)
    }

    ghost function View(): Client
      reads this
    {
      Client(Queues(replies, subReplies),
             PubSubState(Dict(), pendingUnsubs, subscribed, supportsPush),
             Flags(monitoring, disconnecting, freeing, closed, pushHandler),
             Running(inCallback, current, timingOut), log)
    }

    /** `redisAsyncInitialize` (async.c:106-159). */
    constructor (pushHandler: bool)
      ensures View() == Initial(pushHandler)
    {
      replies, subReplies := [], [];
      channels, patterns := map[], map[];
      pendingUnsubs := 0;
      subscribed, supportsPush, monitoring, disconnecting, freeing, closed, inCallback := false, false, false, false, false, false, false;
      current, timingOut := None, false;
      this.pushHandler := pushHandler;
      log := History([], [], [], {});
    }

    // ----- The dictionaries -----

    lemma KeysOfKind(pattern: bool)
      ensures forall n :: Topic(pattern, n) in Dict() <==> n in (if pattern then patterns else channels)
    {
      hide Merge;
    }

    lemma DictEmpty()
      ensures |channels| == 0 && |patterns| == 0 <==> Dict() == map[]
    {
      MergeEmpty(channels, patterns);
    }

    method Find(t: Topic) returns (cb: Option<Callback>)
      ensures cb == if t in Dict() then Some(Dict()[t]) else None
    {
      assert t == Topic(t.pattern, t.name);
      var dict := if t.pattern then patterns else channels;
      cb := if t.name in dict then Some(dict[t.name]) else None;
    }

    /** `dictReplace` */
    method Replace(t: Topic, cb: Callback)
      modifies this`channels, this`patterns
      ensures Dict() == old(Dict())[t := cb]
    {
      MergeSet(channels, patterns, t.name, cb);
      hide Merge;
      if t.pattern {
        patterns := patterns[t.name := cb];
      } else {
        channels := channels[t.name := cb];
      }
    }

    /** `dictDelete` */
    method Delete(t: Topic)
      modifies this`channels, this`patterns
      ensures Dict() == old(Dict()) - {t}
    {
      MergeDrop(channels, patterns, t.name);
      hide Merge;
      if t.pattern {
        patterns := patterns - {t.name};
      } else {
        channels := channels - {t.name};
      }
    }

    // ----- Commands -----

    /** The SUBSCRIBE branch (async.c:864-889). */
    method SubscribeTo(pattern: bool, names: seq<string>, first: Callback)
      modifies this`channels, this`patterns, this`subscribed
      ensures subscribed && Dict() == SubscribeAll(old(Dict()), pattern, names, first)
    {
      hide Dict;
      subscribed := true;
      var cb := first;
      assert names[0..] == names;
      for i := 0 to |names|
        invariant subscribed
        invariant SubscribeAll(Dict(), pattern, names[i..], cb) == SubscribeAll(old(Dict()), pattern, names, first)
      {
        var t := Topic(pattern, names[i]);
        var exist := Find(t);
        if exist.Some? {
          cb := cb.(pendingSubs := exist.value.pendingSubs + 1);
        }
        assert names[i..][0] == names[i] && names[i..][1..] == names[i + 1..];
        Replace(t, cb);
      }
    }

    /** UNSUBSCRIBE with channels (async.c:903-921). */
    method UnsubscribeFrom(pattern: bool, names: seq<string>)
      modifies this`channels, this`patterns, this`pendingUnsubs
      ensures (Dict(), pendingUnsubs) == UnsubscribeEach(old(Dict()), old(pendingUnsubs), pattern, names)
    {
      hide Dict;
      assert names[0..] == names;
      for i := 0 to |names|
        invariant UnsubscribeEach(Dict(), pendingUnsubs, pattern, names[i..])
               == UnsubscribeEach(old(Dict()), old(pendingUnsubs), pattern, names)
      {
        var t := Topic(pattern, names[i]);
        assert names[i..][0] == names[i] && names[i..][1..] == names[i + 1..];
        var exist := Find(t);
        if exist.Some? && !exist.value.unsubSent {
          Replace(t, exist.value.(unsubSent := true));
        } else {
          pendingUnsubs := pendingUnsubs + 1;
        }
      }
    }

    /** UNSUBSCRIBE without channels (async.c:922-941): iterate over one dictionary. */
    method UnsubscribeFromAll(pattern: bool)
      modifies this`channels, this`patterns, this`pendingUnsubs
      ensures (Dict(), pendingUnsubs) == UnsubscribeAllOf(old(Dict()), old(pendingUnsubs), pattern)
    {
      hide Dict, Marked, AllSent, UnsubscribeAllOf;
      var dict := if pattern then patterns else channels;
      ghost var before := Dict();
      KeysOfKind(pattern);
      MarkNone(before, pattern, dict.Keys);
      var noSubs := true;
      var todo := dict.Keys;
      while todo != {}
        invariant todo <= dict.Keys && pendingUnsubs == old(pendingUnsubs)
        invariant Dict() == Marked(before, pattern, todo)
        invariant noSubs == AllSent(before, pattern, todo)
        decreases todo
      {
        var n :| n in todo;
        MarkStep(before, pattern, todo, n);
        var exist := Find(Topic(pattern, n));
        if exist.Some? && !exist.value.unsubSent {
          Replace(Topic(pattern, n), exist.value.(unsubSent := true));
          noSubs := false;
        }
        todo := todo - {n};
      }
      MarkAllDone(before, pattern, pendingUnsubs);
      if noSubs {
        pendingUnsubs := pendingUnsubs + 1;
      }
    }

    /** `__redisAsyncCommand` (async.c:834-968). */
    method Command(args: seq<string>, tag: nat, hasFn: bool) returns (ok: bool)
      requires args != []
      modifies this
      ensures (View(), ok) == OnCommand(old(View()), args, tag, hasFn)
    {
      hide Dict, SubscribeAll, UnsubscribeEach, UnsubscribeAllOf, Classify;
      if disconnecting || freeing {
        return false;
      }
      var cb := Callback(tag, hasFn, 1, false);
      ok := true;
      match Classify(args)
      case Subscribe(pattern, names) =>
        SubscribeTo(pattern, names, cb);
      case Unsubscribe(pattern, names) =>
        if !subscribed {
          ok := false;
        } else if names == [] {
          UnsubscribeFromAll(pattern);
        } else {
          UnsubscribeFrom(pattern, names);
        }
      case Monitor =>
        monitoring := true;
        replies := replies + [cb];
      case Regular =>
        if subscribed {
          subReplies := subReplies + [cb];
        } else {
          replies := replies + [cb];
        }
        log := log.(registered := log.registered + [tag]);
    }

    // ----- Replies -----

    /** What follows the choice of a callback (async.c:632-656), up to the callback's start. */
    method Run(cb: Callback)
      modifies this`inCallback, this`current, this`timingOut, this`replies
      ensures View() == RunCallback(old(View()), cb)
    {
      if cb.hasFn {
        inCallback, current, timingOut := true, Some(cb), false;
      } else if monitoring {
        replies := replies + [cb];
      }
    }

    /** The counting of an UNSUBSCRIBE reply (async.c:511-515). */
    method CountOne(t: Option<Topic>, cb: Option<Callback>)
      requires cb == if t.Some? && t.value in Dict() then Some(Dict()[t.value]) else None
      modifies this`channels, this`patterns, this`pendingUnsubs
      ensures View() == CountUnsubscribe(old(View()), t)
    {
      hide Merge;
      if cb.None? {
        pendingUnsubs := pendingUnsubs - 1;
      } else if cb.value.pendingSubs == 0 {
        Delete(t.value);
      }
    }

    /** Leaving subscribed mode (async.c:527-537): the waiting callbacks move over one by one. */
    method LeaveMode(count: int)
      modifies this`subscribed, this`replies, this`subReplies
      ensures View() == LeaveIfDone(old(View()), count)
    {
      hide Dict;
      DictEmpty();
      if count == 0 && |channels| == 0 && |patterns| == 0 && pendingUnsubs == 0 {
        subscribed := false;
        MoveQueues();
      }
    }

    /** The move of the ongoing regular callbacks, shifted and pushed one by one. */
    method MoveQueues()
      modifies this`replies, this`subReplies
      ensures replies == old(replies) + old(subReplies) && subReplies == []
    {
      while subReplies != []
        invariant replies + subReplies == old(replies) + old(subReplies)
        decreases |subReplies|
      {
        var cb := subReplies[0];
        subReplies := subReplies[1..];
        replies := replies + [cb];
      }
      assert replies == replies + subReplies;
    }

    /** `__redisGetSubscribeCallback` on a pub/sub message (async.c:470-544). */
    method GetSubscribeCallback(r: Reply) returns (aborted: bool)
      requires r.Agg?
      modifies this
      ensures if aborted then OnPubSub(old(View()), r).Abort? else OnPubSub(old(View()), r) == Next(View())
    {
      var m := ReadPubSub(r);
      hide ReadPubSub;
      if m.None? {
        aborted := true;
      } else {
        aborted := ActOn(m.value, r);
      }
    }

    /** Its second half (async.c:503-538). */
    method ActOn(m: PubSubMessage, r: Reply) returns (aborted: bool)
      modifies this
      ensures if aborted then ApplyPubSub(old(View()), m, r).Abort? else ApplyPubSub(old(View()), m, r) == Next(View())
    {
      hide Dict, Notify, LeaveIfDone, CountUnsubscribe;
      var cb := None;
      if m.topic.Some? {
        cb := Find(m.topic.value);
      }
      match m.kind {
        case KSubscribe =>
          if cb.None? {
            return true;
          }
          Replace(m.topic.value, cb.value.(pendingSubs := cb.value.pendingSubs - 1));
        case KUnsubscribe =>
          if m.count.None? {
            return true;
          }
          CountOne(m.topic, cb);
          LeaveMode(m.count.value);
        case KOther =>
      }
      NotifyOne(cb, r);
      aborted := false;
    }

    method NotifyOne(cb: Option<Callback>, r: Reply)
      modifies this`inCallback, this`current, this`timingOut, this`replies, this`log
      ensures View() == Notify(old(View()), cb, r)
    {
      if cb.None? {
        Run(ZERO_CALLBACK);
      } else {
        if cb.value.hasFn {
          log := log.(notified := log.notified + [Delivery(cb.value.tag, Some(r))]);
        }
        Run(cb.value);
      }
    }

    /** One iteration of `redisProcessCallbacks` (async.c:570-662), up to the callback's start. */
    method ProcessReply(r: Reply) returns (aborted: bool)
      modifies this
      ensures if aborted then OnReply(old(View()), r).Abort? else OnReply(old(View()), r) == Next(View())
    {
      hide Dict, OnSubscribedReply, OnError, IsSubscribeReply, RunCallback;
      aborted := false;
      if IsPush(r) {
        supportsPush := true;
      }
      if IsPush(r) && !IsSubscribeReply(r) {
        if pushHandler {
          inCallback, current, timingOut := true, None, false;
        }
      } else if replies != [] {
        var cb := replies[0];
        replies := replies[1..];
        log := log.(served := log.served + [Delivery(cb.tag, Some(r))]);
        Run(cb);
      } else if r.Error? {
        DisconnectOnError();
      } else if !subscribed {
        aborted := true;
      } else {
        aborted := SubscribedReply(r);
      }
    }

    /** `__redisGetSubscribeCallback` (async.c:470-544). */
    method SubscribedReply(r: Reply) returns (aborted: bool)
      modifies this
      ensures if aborted then OnSubscribedReply(old(View()), r).Abort? else OnSubscribedReply(old(View()), r) == Next(View())
    {
      aborted := false;
      if r.Agg? && ((r.kind.Array? && !supportsPush && |r.elems| >= 3) || r.kind.Push?) {
        aborted := GetSubscribeCallback(r);
      } else if subReplies != [] {
        var cb := subReplies[0];
        subReplies := subReplies[1..];
        log := log.(served := log.served + [Delivery(cb.tag, Some(r))]);
        Run(cb);
      } else {
        Run(ZERO_CALLBACK);
      }
    }

    /** The rest of the iteration, or of the timeout loop, once the callback has returned. */
    method FinishCallback()
      modifies this
      ensures View() == OnCallbackDone(old(View()))
    {
      hide Dict, TimeOutWaiting, Teardown;
      var cb, resumed := current, timingOut;
      inCallback, current, timingOut := false, None, false;
      if resumed {
        TimeOut();
      } else if cb.Some? {
        if freeing {
          Release();
        } else if monitoring {
          replies := replies + [cb.value];
        }
      }
    }

    // ----- Closing -----

    /** `__redisAsyncFree` (async.c:362-409): two drain loops, then the subscription callbacks. */
    method Release()
      modifies this
      ensures View() == Teardown(old(View()))
    {
      hide Dict, NullDeliveries, WithFn;
      DrainWithNull();
      ReleaseSubscriptions();
      closed := true;
    }

    /** The second half: the subscription callbacks get a NULL reply too, and are forgotten. */
    method ReleaseSubscriptions()
      modifies this`log, this`channels, this`patterns
      ensures Dict() == map[] && log == old(log).(released := old(log.released) + WithFn(old(Dict())))
    {
      hide Merge, TopicsWithFn, WithFn;
      MergeWithFn(channels, patterns);
      RunReleased(channels, false);
      RunReleased(patterns, true);
      channels, patterns := map[], map[];
      DictEmpty();
    }

    /** One of the two loops that run the subscription callbacks with a NULL reply, in dictionary order. */
    method RunReleased(dict: map<string, Callback>, pattern: bool)
      modifies this`log
      ensures log == old(log).(released := old(log.released) + TopicsWithFn(dict, pattern))
    {
      var todo := dict.Keys;
      while todo != {}
        invariant todo <= dict.Keys
        invariant log == old(log).(released := log.released)
        invariant log.released + TopicsWithFn(dict, pattern) == old(log.released) + TopicsWithFn(dict, pattern)
        invariant forall n :: n in dict && n !in todo && dict[n].hasFn ==> Topic(pattern, n) in log.released
        invariant old(log.released) <= log.released
        decreases todo
      {
        var n :| n in todo;
        if dict[n].hasFn {
          log := log.(released := log.released + {Topic(pattern, n)});
        }
        todo := todo - {n};
      }
    }

    /** The two loops that run every waiting callback with a NULL reply. */
    method DrainWithNull()
      modifies this`replies, this`subReplies, this`log
      ensures replies == [] && subReplies == []
      ensures log == old(log).(served := old(log.served) + NullDeliveries(old(replies + subReplies)))
    {
      ghost var waiting := replies + subReplies;
      ghost var served := log.served;
      ghost var k := 0;
      assert NullDeliveries(waiting[..0]) == [];
      while replies != []
        invariant 0 <= k <= |waiting| && replies + subReplies == waiting[k..] && subReplies == old(subReplies)
        invariant log == old(log).(served := served + NullDeliveries(waiting[..k]))
        decreases |replies|
      {
        assert replies + subReplies == [replies[0]] + (replies[1..] + subReplies);
        ShiftNull(waiting, k, served, replies[0], replies[1..] + subReplies);
        log := log.(served := log.served + [Delivery(replies[0].tag, None)]);
        replies := replies[1..];
        k := k + 1;
      }
      assert subReplies == waiting[k..];
      while subReplies != []
        invariant 0 <= k <= |waiting| && replies == [] && subReplies == waiting[k..]
        invariant log == old(log).(served := served + NullDeliveries(waiting[..k]))
        decreases |subReplies|
      {
        assert subReplies == [subReplies[0]] + subReplies[1..];
        ShiftNull(waiting, k, served, subReplies[0], subReplies[1..]);
        log := log.(served := log.served + [Delivery(subReplies[0].tag, None)]);
        subReplies := subReplies[1..];
        k := k + 1;
      }
      assert waiting[..k] == waiting;
    }

    /** `__redisAsyncDisconnect` with an error set (async.c:427-452). */
    method DisconnectOnError()
      modifies this
      ensures View() == OnError(old(View()))
    {
      disconnecting := true;
      Release();
    }

    /** `redisAsyncDisconnect` (async.c:460-468). */
    method DisconnectNow()
      modifies this
      ensures View() == OnDisconnect(old(View()))
    {
      disconnecting := true;
      if !inCallback && replies == [] {
        Release();
      }
    }

    /** `redisAsyncFree` (async.c:415-424). */
    method FreeNow()
      modifies this
      ensures View() == OnFree(old(View()))
    {
      freeing := true;
      if !inCallback {
        Release();
      }
    }

    /** `redisProcessCallbacks` when the reader has no further reply (async.c:576-588). */
    method OutOfReplies(obufEmpty: bool)
      modifies this
      ensures View() == OnNoReply(old(View()), obufEmpty)
    {
      if disconnecting && obufEmpty && replies == [] {
        Release();
      }
    }

    /** `redisAsyncHandleTimeout` (async.c:776-813). */
    method HandleTimeout()
      modifies this
      ensures View() == OnTimeout(old(View()))
    {
      if replies == [] && subReplies == [] {
        return;
      }
      TimeOut();
    }

    /** Its loop, up to the start of the next callback or to the end. */
    method TimeOut()
      modifies this
      ensures View() == TimeOutWaiting(old(View()))
    {
      hide TimeOutOne, Dict, Teardown;
      while replies != []
        invariant TimeOutWaiting(View()) == TimeOutWaiting(old(View()))
        decreases |replies|
      {
        ShiftWithNull();
        if inCallback {
          return;
        }
      }
      DisconnectOnError();
    }

    /** One iteration: the callback leaves the queue and, if there is one to run, is started. */
    method ShiftWithNull()
      requires replies != []
      modifies this`replies, this`log, this`inCallback, this`current, this`timingOut
      ensures View() == TimeOutOne(old(View()))
    {
      hide Dict;
      var cb := replies[0];
      replies := replies[1..];
      log := log.(served := log.served + [Delivery(cb.tag, None)]);
      inCallback, current, timingOut := cb.hasFn, if cb.hasFn then Some(cb) else None, cb.hasFn;
    }
  }

  /** The dictionary when all of a kind but those in `todo` have been marked. */
  ghost function Marked(subs: map<Topic, Callback>, pattern: bool, todo: set<string>): map<Topic, Callback> {
    map t | t in subs :: if t.pattern == pattern && t.name !in todo then subs[t].(unsubSent := true) else subs[t]
  }

  ghost predicate AllSent(subs: map<Topic, Callback>, pattern: bool, todo: set<string>) {
    forall t :: t in subs && t.pattern == pattern && t.name !in todo ==> subs[t].unsubSent
  }

  lemma MarkNone(subs: map<Topic, Callback>, pattern: bool, all: set<string>)
    requires forall n :: Topic(pattern, n) in subs <==> n in all
    ensures Marked(subs, pattern, all) == subs && AllSent(subs, pattern, all)
  {
    assert forall t :: t in subs && t.pattern == pattern ==> t == Topic(pattern, t.name);
  }

  lemma MarkStep(subs: map<Topic, Callback>, pattern: bool, todo: set<string>, n: string)
    requires n in todo && Topic(pattern, n) in subs
    ensures var t, m := Topic(pattern, n), Marked(subs, pattern, todo);
            && t in m && m[t] == subs[t]
            && Marked(subs, pattern, todo - {n}) == (if subs[t].unsubSent then m else m[t := subs[t].(unsubSent := true)])
            && AllSent(subs, pattern, todo - {n}) == (AllSent(subs, pattern, todo) && subs[t].unsubSent)
  {
    var t := Topic(pattern, n);
    assert forall u :: u in subs && u.pattern == pattern && u.name == n ==> u == t;
    assert t.name !in todo - {n};
  }

  lemma MarkAllDone(subs: map<Topic, Callback>, pattern: bool, pu: int)
    ensures UnsubscribeAllOf(subs, pu, pattern)
         == (Marked(subs, pattern, {}), if AllSent(subs, pattern, {}) then pu + 1 else pu)
  {
    assert UnsubscribeAllOf(subs, pu, pattern).0 == Marked(subs, pattern, {});
    if t :| t in subs && t.pattern == pattern && !subs[t].unsubSent {
      assert t in OfKind(Unsent(subs), pattern);
    }
  }

  /** Draining one more waiting callback. */
  lemma ShiftNull(waiting: seq<Callback>, k: nat, served: seq<Delivery>, cb: Callback, rest: seq<Callback>)
    requires k < |waiting| && waiting[k..] == [cb] + rest
    ensures served + NullDeliveries(waiting[..k]) + [Delivery(cb.tag, None)] == served + NullDeliveries(waiting[..k + 1])
    ensures rest == waiting[k + 1..]
  {
    assert waiting[k] == cb;
    assert waiting[..k + 1] == waiting[..k] + [cb];
    assert NullDeliveries(waiting[..k + 1]) == NullDeliveries(waiting[..k]) + [Delivery(cb.tag, None)];
    assert waiting[k + 1..] == waiting[k..][1..];
  }
}
