/**
 * The pub/sub bookkeeping of the client against everything in flight: `CoreInv` says that playing
 * the tokens in flight ends with exactly the subscriptions the client still wants, no counter left
 * over, and no more unmatched UNSUBSCRIBE replies than `pending_unsubs` accounts for.
 */
module Bookkeeping {
  import opened Common
  import opened AsyncClient
  import opened PubSub
  import opened InFlight

  function Counters(subs: map<Topic, Callback>): map<Topic, int> {
    map t | t in subs :: subs[t].pendingSubs
  }

  function Zeros(ts: set<Topic>): map<Topic, int> {
    map t | t in ts :: 0
  }

  function Begin(subs: map<Topic, Callback>, seen: set<Topic>): Sim {
    Sim(Counters(subs), seen, 0, true)
  }

  ghost predicate CoreInv(subs: map<Topic, Callback>, pu: int, seen: set<Topic>, toks: seq<Token>) {
    var end := Play(Begin(subs, seen), toks);
    && end.ok && end.live == Unsent(subs) && end.pending == Zeros(end.live)
    && pu >= end.nulls
    && NonNegative(Counters(subs))
  }

  /** How far `pending_unsubs` is ahead of the UNSUBSCRIBE replies that will decrease it. */
  ghost function Leak(subs: map<Topic, Callback>, pu: int, seen: set<Topic>, toks: seq<Token>): int {
    pu - Play(Begin(subs, seen), toks).nulls
  }

  /** SUBSCRIBE is sent: the leak grows by the ignored replies in flight for that topic. */
  lemma CoreSubscribe(subs: map<Topic, Callback>, pu: int, seen: set<Topic>, toks: seq<Token>, t: Topic, cb: Callback)
    requires CoreInv(subs, pu, seen, toks) && !cb.unsubSent
    ensures var subs' := SubscribeOne(subs, t, cb);
            && CoreInv(subs', pu, seen, toks + [TSub(t)])
            && Leak(subs', pu, seen, toks + [TSub(t)]) == Leak(subs, pu, seen, toks) + Ignored(Begin(subs, seen), toks, t)
  {
    var subs' := SubscribeOne(subs, t, cb);
    var a, b := Begin(subs, seen), Begin(subs', seen);
    assert b.pending == Bump(a.pending, t);
    PlayBumped(a, b, t, toks);
    PlayAppend(b, toks, [TSub(t)]);
    PlayOne(Play(b, toks), TSub(t));
    var live := Unsent(subs);
    assert Unsent(subs') == live + {t};
    assert Bump(Zeros(live), t)[t := 0] == Zeros(live + {t});
  }

  /** UNSUBSCRIBE of one topic is sent. */
  lemma CoreUnsubscribe(subs: map<Topic, Callback>, pu: int, seen: set<Topic>, toks: seq<Token>, t: Topic)
    requires CoreInv(subs, pu, seen, toks)
    ensures var (subs', pu') := UnsubscribeOne(subs, pu, t);
            && CoreInv(subs', pu', seen, toks + [TUnsub(t, None)])
            && Leak(subs', pu', seen, toks + [TUnsub(t, None)]) == Leak(subs, pu, seen, toks)
            && subs'.Keys == subs.Keys
  {
    var (subs', pu') := UnsubscribeOne(subs, pu, t);
    var a := Begin(subs, seen);
    assert Counters(subs') == Counters(subs);
    PlayAppend(a, toks, [TUnsub(t, None)]);
    PlayOne(Play(a, toks), TUnsub(t, None));
    var live := Unsent(subs);
    assert Unsent(subs') == live - {t};
    assert Zeros(live) - {t} == Zeros(live - {t});
  }

  /** UNSUBSCRIBE of all topics of a kind is sent. */
  lemma CoreUnsubscribeAll(subs: map<Topic, Callback>, pu: int, seen: set<Topic>, toks: seq<Token>, p: bool)
    requires CoreInv(subs, pu, seen, toks)
    ensures var (subs', pu') := UnsubscribeAllOf(subs, pu, p);
            && CoreInv(subs', pu', seen, toks + [TAllOf(p)])
            && Leak(subs', pu', seen, toks + [TAllOf(p)]) == Leak(subs, pu, seen, toks)
            && subs'.Keys == subs.Keys
  {
    var a := Begin(subs, seen);
    PlayAppend(a, toks, [TAllOf(p)]);
    PlayOne(Play(a, toks), TAllOf(p));
    MarkAll(subs, pu, p);
  }

  lemma MarkAll(subs: map<Topic, Callback>, pu: int, p: bool)
    ensures var subs', live := UnsubscribeAllOf(subs, pu, p).0, Unsent(subs);
            && Counters(subs') == Counters(subs) && subs'.Keys == subs.Keys
            && Unsent(subs') == live - OfKind(live, p)
            && Drop(Zeros(live), OfKind(live, p)) == Zeros(live - OfKind(live, p))
            && (OfKind(live, p) == {} ==> Unsent(subs') == live)
  {
  }

  // ----- Several names in one command -----

  /** A SUBSCRIBE that carries no counter over is a SUBSCRIBE of each channel on its own. */
  lemma {:induction false} NoCarryMeansEach(subs: map<Topic, Callback>, p: bool, names: seq<string>, cb: Callback, k: int)
    requires NoCarry(subs, Topics(p, names), cb.(pendingSubs := k))
    ensures SubscribeAll(subs, p, names, cb.(pendingSubs := k)) == SubscribeEach(subs, Topics(p, names), cb)
    decreases names
  {
    if names != [] {
      var t := Topic(p, names[0]);
      var k' := if t in subs then subs[t].pendingSubs + 1 else k;
      assert Topics(p, names)[1..] == Topics(p, names[1..]);
      assert cb.(pendingSubs := k).(pendingSubs := k') == cb.(pendingSubs := k');
      NoCarryMeansEach(subs[t := cb.(pendingSubs := k')], p, names[1..], cb, k');
    }
  }

  /** Once two maps differ in the counter of a topic, the rest of the loop keeps them apart. */
  lemma {:induction false} StayApart(m: map<Topic, Callback>, n: map<Topic, Callback>, p: bool, names: seq<string>,
                                     cb: Callback, dc: Callback, t: Topic)
    requires t in m && t in n && m[t].pendingSubs != n[t].pendingSubs
    ensures var m', n' := SubscribeAll(m, p, names, cb), SubscribeEach(n, Topics(p, names), dc);
            t in m' && t in n' && m'[t].pendingSubs != n'[t].pendingSubs
    decreases names
  {
    if names != [] {
      var u := Topic(p, names[0]);
      var cb' := if u in m then cb.(pendingSubs := m[u].pendingSubs + 1) else cb;
      assert Topics(p, names)[1..] == Topics(p, names[1..]);
      StayApart(m[u := cb'], SubscribeOne(n, u, dc), p, names[1..], cb', dc, t);
    }
  }

  /**
   * The counters of a multi-channel SUBSCRIBE (async.c:869-889) are right exactly when no
   * channel is new after one whose counter was carried over.
   */
  lemma {:induction false} MultiSubscribeExact(subs: map<Topic, Callback>, p: bool, names: seq<string>, cb: Callback, k: int)
    ensures SubscribeAll(subs, p, names, cb.(pendingSubs := k)) == SubscribeEach(subs, Topics(p, names), cb)
            <==> NoCarry(subs, Topics(p, names), cb.(pendingSubs := k))
    decreases names
  {
    if names != [] {
      var t := Topic(p, names[0]);
      var k' := if t in subs then subs[t].pendingSubs + 1 else k;
      assert Topics(p, names)[1..] == Topics(p, names[1..]);
      assert cb.(pendingSubs := k).(pendingSubs := k') == cb.(pendingSubs := k');
      var m, n := subs[t := cb.(pendingSubs := k')], SubscribeOne(subs, t, cb);
      if t !in subs && k != 1 {
        StayApart(m, n, p, names[1..], cb.(pendingSubs := k'), cb, t);
      } else {
        assert m == n;
        MultiSubscribeExact(m, p, names[1..], cb, k');
      }
    }
  }

  /** The carried-over counter is real: subscribing to "b" along with "a", of which a reply is pending. */
  lemma MultiSubscribeLeaks(a: string, b: string, cb: Callback)
    requires a != b && cb.pendingSubs == 1
    ensures var subs := map[Topic(false, a) := cb];
            var subs' := SubscribeAll(subs, false, [a, b], cb);
            Topic(false, b) in subs' && subs'[Topic(false, b)].pendingSubs == 2
  {
    var subs := map[Topic(false, a) := cb];
    var cb2 := cb.(pendingSubs := 2);
    assert [a, b][1..] == [b] && [b][1..] == [];
    assert SubscribeAll(subs[Topic(false, a) := cb2], false, [b], cb2)
        == SubscribeAll(subs[Topic(false, a) := cb2][Topic(false, b) := cb2], false, [], cb2);
  }

  /** The ignored replies in flight that a SUBSCRIBE of several topics takes over. */
  ghost function IgnoredByAll(subs: map<Topic, Callback>, seen: set<Topic>, toks: seq<Token>, ts: seq<Topic>, cb: Callback): nat
    decreases ts
  {
    if ts == [] then 0
    else Ignored(Begin(subs, seen), toks, ts[0])
         + IgnoredByAll(SubscribeOne(subs, ts[0], cb), seen, toks + [TSub(ts[0])], ts[1..], cb)
  }

  lemma SubsCons(toks: seq<Token>, ts: seq<Topic>)
    requires ts != []
    ensures toks + Subs(ts) == toks + [TSub(ts[0])] + Subs(ts[1..])
  {
    assert Subs(ts) == [TSub(ts[0])] + Subs(ts[1..]);
  }

  lemma {:induction false} CoreSubscribeEach(subs: map<Topic, Callback>, pu: int, seen: set<Topic>, toks: seq<Token>,
                                             ts: seq<Topic>, cb: Callback)
    requires CoreInv(subs, pu, seen, toks) && !cb.unsubSent
    ensures var subs' := SubscribeEach(subs, ts, cb);
            && CoreInv(subs', pu, seen, toks + Subs(ts)) && subs.Keys <= subs'.Keys
            && Leak(subs', pu, seen, toks + Subs(ts)) == Leak(subs, pu, seen, toks) + IgnoredByAll(subs, seen, toks, ts, cb)
    decreases ts
  {
    if ts == [] {
      assert toks + Subs(ts) == toks;
    } else {
      CoreSubscribe(subs, pu, seen, toks, ts[0], cb);
      CoreSubscribeEach(SubscribeOne(subs, ts[0], cb), pu, seen, toks + [TSub(ts[0])], ts[1..], cb);
      SubsCons(toks, ts);
    }
  }

  lemma {:induction false} CoreUnsubscribeEach(subs: map<Topic, Callback>, pu: int, seen: set<Topic>, toks: seq<Token>,
                                               p: bool, names: seq<string>)
    requires CoreInv(subs, pu, seen, toks)
    ensures var u := UnsubscribeEach(subs, pu, p, names);
            var toks' := toks + Unsubs(Topics(p, names));
            && CoreInv(u.0, u.1, seen, toks') && subs.Keys == u.0.Keys
            && Leak(u.0, u.1, seen, toks') == Leak(subs, pu, seen, toks)
    decreases names
  {
    var ts := Topics(p, names);
    if names == [] {
      assert toks + Unsubs(ts) == toks;
    } else {
      var first := UnsubscribeOne(subs, pu, ts[0]);
      var toks1 := toks + [TUnsub(ts[0], None)];
      CoreUnsubscribe(subs, pu, seen, toks, ts[0]);
      assert UnsubscribeEach(subs, pu, p, names) == UnsubscribeEach(first.0, first.1, p, names[1..]);
      CoreUnsubscribeEach(first.0, first.1, seen, toks1, p, names[1..]);
      UnsubsSplit(toks, p, names);
    }
  }

  lemma UnsubsSplit(toks: seq<Token>, p: bool, names: seq<string>)
    requires names != []
    ensures toks + Unsubs(Topics(p, names)) == toks + [TUnsub(Topics(p, names)[0], None)] + Unsubs(Topics(p, names[1..]))
  {
    assert Topics(p, names)[1..] == Topics(p, names[1..]);
    UnsubsCons(toks, Topics(p, names));
  }

  lemma UnsubsCons(toks: seq<Token>, ts: seq<Topic>)
    requires ts != []
    ensures toks + Unsubs(ts) == toks + [TUnsub(ts[0], None)] + Unsubs(ts[1..])
  {
    assert Unsubs(ts) == [TUnsub(ts[0], None)] + Unsubs(ts[1..]);
  }

  // ----- A reply is read -----

  lemma {:induction false} PendingShrinks(st: Sim, toks: seq<Token>)
    ensures Play(st, toks).pending.Keys <= st.pending.Keys
    decreases toks
  {
    if toks != [] {
      PendingShrinks(Tick(st, toks[0]), toks[1..]);
    }
  }

  /** Reading a token moves the simulation's start along. */
  lemma CoreAdvance(subs: map<Topic, Callback>, pu: int, seen: set<Topic>, toks: seq<Token>,
                    subs': map<Topic, Callback>, pu': int, seen': set<Topic>)
    requires toks != [] && CoreInv(subs, pu, seen, toks)
    requires var st := Tick(Begin(subs, seen), toks[0]);
             Begin(subs', seen') == st.(nulls := 0, ok := true) && pu' == pu - st.nulls
    requires forall t :: t in subs' ==> t in subs && subs'[t].unsubSent == subs[t].unsubSent
    ensures CoreInv(subs', pu', seen', toks[1..])
    ensures Leak(subs', pu', seen', toks[1..]) == Leak(subs, pu, seen, toks)
  {
    hide Tick;
    var st := Tick(Begin(subs, seen), toks[0]);
    PlayOk(st, toks[1..]);
    PlayShift(Begin(subs', seen'), toks[1..], st.nulls);
    PendingShrinks(st, toks[1..]);
    var end := Play(st, toks[1..]);
    assert end.live == end.pending.Keys;
    assert Counters(subs').Keys == subs'.Keys;
    assert Unsent(subs') == Unsent(subs);
    forall t | t in Counters(subs')
      ensures Counters(subs')[t] >= 0
    {
      assert t in st.pending && st.pending[t] >= 0 by { TickNonNegative(Begin(subs, seen), toks[0]); }
    }
  }

  lemma TickNonNegative(st: Sim, tok: Token)
    requires NonNegative(st.pending)
    ensures NonNegative(Tick(st, tok).pending)
  {
  }
}
