/**
 * Which callback a reply goes to in subscribed mode, and what a pub/sub message does to the bookkeeping
 * (deps/hiredis/async.c:470-544), stated on the reply itself. Without pushes, on every RESP2 connection, an
 * array of three or more elements is taken for a pub/sub message.
 */
module Dispatch {
  import opened Common
  import opened Resp
  import opened AsyncClient

  /** The type of a message by its name, in any case of the letters, for channels and for patterns. */
  function NamedKind(w: string): PubSubKind {
    if Folded(w, "subscribe", "SUBSCRIBE") || Folded(w, "psubscribe", "PSUBSCRIBE") then KSubscribe
    else if Folded(w, "unsubscribe", "UNSUBSCRIBE") || Folded(w, "punsubscribe", "PUNSUBSCRIBE") then KUnsubscribe
    else KOther
  }

  predicate ForPatterns(w: string) {
    w != "" && (w[0] == 'p' || w[0] == 'P')
  }

  lemma CStrDropP(s: string)
    ensures CStr(DropP(s)) == DropP(CStr(s)) && StartsWithP(s) == StartsWithP(CStr(s)) == ForPatterns(s)
  {
    if s != "" && s[0] != '\0' {
      assert CStr(s)[0] == s[0] && CStr(s)[1..] == CStr(s[1..]);
    }
  }

  /** A name is what stands before a NUL. */
  lemma KindExact(s: string)
    ensures KindOf(s) == NamedKind(CStr(s))
  {
    hide Folded, Cases, EqualsIgnoreCase, CStr;
    CStrDropP(s);
    var w := CStr(s);
    TheWords();
    WordsWithP();
    FoldedIsEqual(DropP(w), "subscribe", "SUBSCRIBE");
    FoldedIsEqual(DropP(w), "unsubscribe", "UNSUBSCRIBE");
    WithP(w, "subscribe", "SUBSCRIBE");
    WithP(w, "unsubscribe", "UNSUBSCRIBE");
  }

  /** The topic named by the second element. */
  function TopicOf(elems: seq<Reply>): Option<Topic>
    requires |elems| >= 2 && elems[0].Str?
  {
    if elems[1].Str? then Some(Topic(ForPatterns(elems[0].str), elems[1].str)) else None
  }

  /** The callback that the client has for the topic. */
  function Subscriber(c: Client, elems: seq<Reply>): Option<Callback>
    requires |elems| >= 2 && elems[0].Str?
  {
    var t := TopicOf(elems);
    if t.Some? && t.value in c.ps.subs then Some(c.ps.subs[t.value]) else None
  }

  /** The subscriber's callback is run with the message, and no regular one. */
  predicate OnlyNotified(c: Client, c': Client, cb: Option<Callback>, r: Reply) {
    var runs := cb.Some? && cb.value.hasFn;
    && c'.flags == c.flags
    && c'.log == c.log.(notified := c.log.notified + if runs then [Delivery(cb.value.tag, Some(r))] else [])
    && c'.run == if runs then Running(true, cb, false) else c.run
  }

  /**
   * A long array, with no push seen before and no callback waiting in `replies`: a message. SUBSCRIBE counts
   * its topic down; UNSUBSCRIBE drops a topic for which no SUBSCRIBE is under way, or counts an ignored reply,
   * and leaves the mode when nothing is left; anything else changes nothing. The callbacks in `sub.replies`
   * get nothing.
   */
  lemma LongArray(c: Client, elems: seq<Reply>)
    requires c.ps.subscribed && !c.ps.supportsPush && c.q.replies == [] && !c.flags.monitoring && |elems| >= 3
    ensures var r := Agg(Array, elems);
      var o := OnReply(c, r);
      if !elems[0].Str? then o == Abort
      else
        var cb, kind := Subscriber(c, elems), NamedKind(CStr(elems[0].str));
        if (kind.KSubscribe? && cb.None?) || (kind.KUnsubscribe? && !elems[2].Integer?) then o == Abort
        else
          && o.Next? && OnlyNotified(c, o.c, cb, r)
          && match kind
             case KSubscribe =>
               var t := TopicOf(elems).value;
               && o.c.ps == c.ps.(subs := c.ps.subs[t := cb.value.(pendingSubs := cb.value.pendingSubs - 1)])
               && o.c.q == c.q
             case KUnsubscribe =>
               var subs := if cb.Some? && cb.value.pendingSubs == 0 then c.ps.subs - {TopicOf(elems).value} else c.ps.subs;
               var pu := if cb.Some? then c.ps.pendingUnsubs else c.ps.pendingUnsubs - 1;
               var over := elems[2].n == 0 && subs == map[] && pu == 0;
               && o.c.ps == c.ps.(subs := subs, pendingUnsubs := pu, subscribed := !over)
               && o.c.q == if over then Queues(c.q.subReplies, []) else c.q
             case KOther => o.c.ps == c.ps && o.c.q == c.q
  {
    hide CStr, Folded, KindOf, IsSubscribeReply;
    if elems[0].Str? {
      KindExact(elems[0].str);
      CStrDropP(elems[0].str);
      assert [] + c.q.subReplies == c.q.subReplies;
    }
  }

  /** Any other answer goes to the callback at the head of `sub.replies`. */
  lemma OtherReply(c: Client, r: Reply)
    requires c.ps.subscribed && c.q.replies == [] && c.q.subReplies != [] && !c.flags.monitoring
    requires !r.Error? && !IsPush(r) && !(r.Agg? && r.kind.Array? && |r.elems| >= 3 && !c.ps.supportsPush)
    ensures var o, cb := OnReply(c, r), c.q.subReplies[0];
      && o.Next? && o.c.ps == c.ps && o.c.flags == c.flags && o.c.q == Queues([], c.q.subReplies[1..])
      && o.c.log == c.log.(served := c.log.served + [Delivery(cb.tag, Some(r))])
      && o.c.run == if cb.hasFn then Running(true, Some(cb), false) else c.run
  {
  }

  /** A callback in `replies` comes first, whatever the reply is short of a push. */
  lemma RepliesFirst(c: Client, r: Reply)
    requires c.q.replies != [] && !c.flags.monitoring && !IsPush(r)
    ensures var o, cb := OnReply(c, r), c.q.replies[0];
      && o.Next? && o.c.ps == c.ps && o.c.flags == c.flags && o.c.q == Queues(c.q.replies[1..], c.q.subReplies)
      && o.c.log == c.log.(served := c.log.served + [Delivery(cb.tag, Some(r))])
      && o.c.run == if cb.hasFn then Running(true, Some(cb), false) else c.run
  {
  }

  /**
   * In subscribed mode an answer reaches the callback at the head of `sub.replies` exactly if it is not an
   * array of three or more elements, or pushes have been seen.
   */
  lemma ReachesHeadExactly(c: Client, r: Reply)
    requires c.ps.subscribed && c.q.replies == [] && c.q.subReplies != [] && !c.flags.monitoring
    requires !r.Error? && !IsPush(r)
    ensures var o := OnReply(c, r);
      (o.Next? && o.c.log.served == c.log.served + [Delivery(c.q.subReplies[0].tag, Some(r))])
      <==> !(r.Agg? && r.kind.Array? && |r.elems| >= 3) || c.ps.supportsPush
  {
    hide OnReply, CStr, NamedKind;
    if r.Agg? && r.kind.Array? && |r.elems| >= 3 && !c.ps.supportsPush {
      LongArray(c, r.elems);
      assert r == Agg(Array, r.elems);
    } else {
      OtherReply(c, r);
    }
  }

  // ----- An answer that is lost -----

  const LRANGE := ["lrange", "list", "0", "-1"]
  const FIRST := Topic(false, "a")
  const SECOND := Topic(false, "b")

  /** SUBSCRIBE and UNSUBSCRIBE of one channel, a command, SUBSCRIBE of another channel, then the replies. */
  const COMMANDS := [Send(["subscribe", "a"], 0, true), Send(["unsubscribe", "a"], 0, true), Send(LRANGE, 1, true),
                     Send(["subscribe", "b"], 2, true)]
  const SUBSCRIBED := Agg(Array, [Str("subscribe"), Str("a"), Integer(1)])
  const UNSUBSCRIBED := Agg(Array, [Str("unsubscribe"), Str("a"), Integer(0)])
  const RANGE := Agg(Array, [Str("one"), Str("two"), Str("three")])
  const REPLIES := [Received(SUBSCRIBED), CallbackDone, Received(UNSUBSCRIBED), CallbackDone, Received(RANGE)]

  const WAITING := Callback(1, true, 1, false)

  /** After the commands, after the first callback, and at the end. */
  function Asked(): Client {
    Initial(false).(q := Queues([], [WAITING]),
                    ps := PubSubState(map[FIRST := Callback(0, true, 1, true), SECOND := Callback(2, true, 1, false)], 0, true, false),
                    log := History([1], [], [], {}))
  }

  function Left(): Client {
    Asked().(ps := PubSubState(map[SECOND := Callback(2, true, 1, false)], 0, true, false),
             log := History([1], [], [Delivery(0, Some(SUBSCRIBED)), Delivery(0, Some(UNSUBSCRIBED))], {}))
  }

  lemma {:induction false} RunsMore(c: Client, es: seq<Event>, mid: Client, e: Event)
    requires Runs(c, es, mid) && Allowed(mid, e) && Step(mid, e).Next?
    ensures Runs(c, es + [e], Step(mid, e).c)
    decreases es
  {
    hide Allowed, Step;
    if es == [] {
      assert [] + [e] == [e] && Runs(Step(mid, e).c, [], Step(mid, e).c);
    } else {
      assert (es + [e])[0] == es[0] && (es + [e])[1..] == es[1..] + [e];
      RunsMore(Step(c, es[0]).c, es[1..], mid, e);
    }
  }

  lemma TheCommands()
    ensures Classify(["subscribe", "a"]) == Subscribe(false, ["a"]) && Classify(["subscribe", "b"]) == Subscribe(false, ["b"])
    ensures Classify(["unsubscribe", "a"]) == Unsubscribe(false, ["a"])
    ensures Classify(LRANGE).Regular?
  {
    ClassifyExact(["subscribe", "a"]);
    ClassifyExact(["subscribe", "b"]);
    ClassifyExact(["unsubscribe", "a"]);
    ClassifyExact(LRANGE);
    assert ["subscribe", "a"][1..] == ["a"] && ["subscribe", "b"][1..] == ["b"] && ["unsubscribe", "a"][1..] == ["a"];
  }

  lemma OneChannel(subs: map<Topic, Callback>, n: string, cb: Callback)
    ensures Topic(false, n) !in subs ==> SubscribeAll(subs, false, [n], cb) == subs[Topic(false, n) := cb]
    ensures Topic(false, n) in subs && !subs[Topic(false, n)].unsubSent ==>
      UnsubscribeEach(subs, 0, false, [n]) == (subs[Topic(false, n) := subs[Topic(false, n)].(unsubSent := true)], 0)
  {
    assert [n][1..] == [];
  }

  lemma CommandsRun()
    ensures Runs(Initial(false), COMMANDS, Asked())
  {
    hide Classify, SubscribeAll, UnsubscribeEach, Runs;
    TheCommands();
    var c0 := Initial(false);
    var a, b := Callback(0, true, 1, false), Callback(2, true, 1, false);
    OneChannel(map[], "a", a);
    var c1 := c0.(ps := PubSubState(map[FIRST := a], 0, true, false));
    assert Step(c0, COMMANDS[0]) == Next(c1);
    OneChannel(c1.ps.subs, "a", a);
    var c2 := c1.(ps := PubSubState(map[FIRST := a.(unsubSent := true)], 0, true, false));
    assert Step(c1, COMMANDS[1]) == Next(c2);
    var c3 := c2.(q := Queues([], [WAITING]), log := History([1], [], [], {}));
    assert Step(c2, COMMANDS[2]) == Next(c3);
    OneChannel(c3.ps.subs, "b", b);
    assert c3.ps.subs[SECOND := b] == Asked().ps.subs;
    assert Step(c3, COMMANDS[3]) == Next(Asked());
    RunsNone(c0);
    RunsMore(c0, [], c0, COMMANDS[0]);
    RunsMore(c0, [] + [COMMANDS[0]], c1, COMMANDS[1]);
    RunsMore(c0, [] + [COMMANDS[0]] + [COMMANDS[1]], c2, COMMANDS[2]);
    RunsMore(c0, [] + [COMMANDS[0]] + [COMMANDS[1]] + [COMMANDS[2]], c3, COMMANDS[3]);
    assert [] + [COMMANDS[0]] + [COMMANDS[1]] + [COMMANDS[2]] + [COMMANDS[3]] == COMMANDS;
  }

  lemma RunsNone(c: Client)
    ensures Runs(c, [], c)
  {
  }

  lemma TheReplies()
    ensures NamedKind(CStr("subscribe")) == KSubscribe && NamedKind(CStr("unsubscribe")) == KUnsubscribe
    ensures NamedKind(CStr("one")) == KOther
  {
    hide CStr, NamedKind;
    Plain("subscribe");
    Plain("unsubscribe");
    Plain("one");
    NamesOfKinds();
  }

  lemma NamesOfKinds()
    ensures NamedKind("subscribe") == KSubscribe && NamedKind("unsubscribe") == KUnsubscribe && NamedKind("one") == KOther
  {
  }

  lemma {:induction false} Plain(s: string)
    requires '\0' !in s
    ensures CStr(s) == s
    decreases s
  {
    if s != "" {
      assert '\0' !in s[1..];
      Plain(s[1..]);
    }
  }

  /** The two pub/sub replies, with the callbacks they run. */
  lemma RepliesRead()
    ensures var c1 := Asked().(ps := Asked().ps.(subs := Asked().ps.subs[FIRST := Callback(0, true, 0, true)]),
                               log := History([1], [], [Delivery(0, Some(SUBSCRIBED))], {}));
      && OnReply(Asked(), SUBSCRIBED) == Next(c1.(run := Running(true, Some(Callback(0, true, 1, true)), false)))
      && OnReply(c1, UNSUBSCRIBED) == Next(Left().(run := Running(true, Some(Callback(0, true, 0, true)), false)))
  {
    hide OnReply, CStr, NamedKind;
    TheReplies();
    var c := Asked();
    LongArray(c, SUBSCRIBED.elems);
    var c1 := c.(ps := c.ps.(subs := c.ps.subs[FIRST := Callback(0, true, 0, true)]),
                 log := History([1], [], [Delivery(0, Some(SUBSCRIBED))], {}));
    LongArray(c1, UNSUBSCRIBED.elems);
    assert c1.ps.subs - {FIRST} == Left().ps.subs && Left().ps.subs != map[] by { assert SECOND in Left().ps.subs; }
  }

  /** The answer to the command is read, and nobody gets it. */
  lemma RangeRead()
    ensures OnReply(Left(), RANGE) == Next(Left())
  {
    hide OnReply, CStr, NamedKind;
    TheReplies();
    LongArray(Left(), RANGE.elems);
    assert Topic(false, "two") != SECOND by { assert "two" != "b"; }
    assert Left().log.notified + [] == Left().log.notified;
  }

  /**
   * A server that answers in order and in RESP2: the array that answers the command is taken for a pub/sub
   * message. Every reply but that to the last SUBSCRIBE has come, and the callback still waits.
   */
  lemma LongAnswerIsLost()
    ensures Runs(Initial(false), COMMANDS + REPLIES, Left())
    ensures Left().q.subReplies == [WAITING] && Left().log.served == []
  {
    hide OnReply, Runs;
    CommandsRun();
    RepliesRead();
    RangeRead();
    var c0, c := Initial(false), Asked();
    var c1 := OnReply(c, SUBSCRIBED).c;
    var c2 := c1.(run := IDLE);
    var c3 := OnReply(c2, UNSUBSCRIBED).c;
    var es1 := COMMANDS + [REPLIES[0]];
    var es2 := es1 + [REPLIES[1]];
    var es3 := es2 + [REPLIES[2]];
    var es4 := es3 + [REPLIES[3]];
    RunsMore(c0, COMMANDS, c, REPLIES[0]);
    RunsMore(c0, es1, c1, REPLIES[1]);
    RunsMore(c0, es2, c2, REPLIES[2]);
    RunsMore(c0, es3, c3, REPLIES[3]);
    RunsMore(c0, es4, Left(), REPLIES[4]);
    assert es4 + [REPLIES[4]] == COMMANDS + REPLIES;
  }
}
