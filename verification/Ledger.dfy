/**
 * When subscribed mode ends, told from what the client itself sends and reads. The ledger counts, for
 * each topic, the UNSUBSCRIBE commands that the client sent although none was needed and whose reply is
 * still to come: the replies that `pending_unsubs` is there to ignore. A SUBSCRIBE of the topic takes
 * those replies over, and `pending_unsubs` never comes down again.
 */
module Ledger {
  import opened Common
  import opened AsyncClient
  import opened PubSub
  import opened InFlight
  import opened Bookkeeping
  import opened Protocol

  function TellSubscribe(r: multiset<Topic>, ts: seq<Topic>): multiset<Topic>
    decreases ts
  {
    if ts == [] then r else TellSubscribe(r[ts[0] := 0], ts[1..])
  }

  function TellUnsubscribe(r: multiset<Topic>, subs: map<Topic, Callback>, ts: seq<Topic>): multiset<Topic>
    decreases ts
  {
    if ts == [] then r
    else TellUnsubscribe(TellOne(r, subs, ts[0]), UnsubscribeOne(subs, 0, ts[0]).0, ts[1..])
  }

  function TellOne(r: multiset<Topic>, subs: map<Topic, Callback>, t: Topic): multiset<Topic> {
    if t in subs && !subs[t].unsubSent then r else r + multiset{t}
  }

  /** The ledger after a command of the client, or after it has read a reply. */
  function Tell(r: multiset<Topic>, s: System, m: Move): multiset<Topic> {
    var c := s.client;
    match m
    case Issue(args, _, _) => if args == [] || c.flags.disconnecting || c.flags.freeing then r else TellCommand(r, c, Classify(args))
    case Receive =>
      if s.back != [] && s.back[0].UnsubAck? && s.back[0].topic !in c.ps.subs then r - multiset{s.back[0].topic} else r
    case _ => r
  }

  function TellCommand(r: multiset<Topic>, c: Client, cmd: Command): multiset<Topic> {
    match cmd
    case Subscribe(p, names) => TellSubscribe(r, Topics(p, names))
    case Unsubscribe(p, names) => if c.ps.subscribed then TellUnsubscribe(r, c.ps.subs, Topics(p, names)) else r
    case _ => r
  }

  /** The replies a SUBSCRIBE of these topics takes over. */
  function TakenOver(r: multiset<Topic>, ts: seq<Topic>): nat
    decreases ts
  {
    if ts == [] then 0 else r[ts[0]] + TakenOver(r[ts[0] := 0], ts[1..])
  }

  function Loss(r: multiset<Topic>, s: System, m: Move): nat {
    if m.Issue? && m.args != [] && Classify(m.args).Subscribe? && !s.client.flags.disconnecting && !s.client.flags.freeing
    then var cmd := Classify(m.args); TakenOver(r, Topics(cmd.pattern, cmd.names))
    else 0
  }

  /** All the replies taken over in a run. */
  ghost function Losses(r: multiset<Topic>, s: System, ms: seq<Move>): nat
    decreases ms
  {
    if ms == [] then 0
    else if !Possible(s, ms[0]) || !Do(s, ms[0]).Moved? then Loss(r, s, ms[0])
    else Loss(r, s, ms[0]) + Losses(Tell(r, s, ms[0]), Do(s, ms[0]).s, ms[1..])
  }

  // ----- Ignored replies, and how playing them tells -----

  lemma {:induction false} IgnoredAppend(st: Sim, a: seq<Token>, b: seq<Token>, t: Topic)
    ensures Ignored(st, a + b, t) == Ignored(st, a, t) + Ignored(Play(st, a), b, t)
    decreases a
  {
    hide Tick;
    if a == [] {
      assert a + b == b;
    } else {
      assert (a + b)[0] == a[0] && (a + b)[1..] == a[1..] + b;
      IgnoredAppend(Tick(st, a[0]), a[1..], b, t);
    }
  }

  lemma IgnoredOne(st: Sim, tok: Token, t: Topic)
    ensures Ignored(st, [tok], t) == if tok.TUnsub? && tok.topic == t && t !in st.pending then 1 else 0
  {
    hide Tick;
    assert [tok][1..] == [];
  }

  lemma TickSame(a: Sim, b: Sim, tok: Token)
    requires a.pending == b.pending && a.live == b.live
    ensures Tick(a, tok).pending == Tick(b, tok).pending && Tick(a, tok).live == Tick(b, tok).live
  {
  }

  /** What is ignored depends on the counters and the server's topics only. */
  lemma {:induction false} IgnoredSame(a: Sim, b: Sim, toks: seq<Token>, t: Topic)
    requires a.pending == b.pending && a.live == b.live
    ensures Ignored(a, toks, t) == Ignored(b, toks, t)
    decreases toks
  {
    if toks != [] {
      TickSame(a, b, toks[0]);
      hide Tick;
      IgnoredSame(Tick(a, toks[0]), Tick(b, toks[0]), toks[1..], t);
    }
  }

  /** A further reply expected for `u` takes over what is ignored of `u`, and nothing else. */
  lemma {:induction false} IgnoredBumped(a: Sim, b: Sim, u: Topic, toks: seq<Token>, t: Topic)
    requires Bumped(a, b, u) && Play(a, toks).ok
    ensures Ignored(b, toks, t) == if t == u then 0 else Ignored(a, toks, t)
    decreases toks
  {
    if toks != [] {
      PlayOk(Tick(a, toks[0]), toks[1..]);
      TickBumped(a, b, u, toks[0]);
      hide Tick;
      IgnoredBumped(Tick(a, toks[0]), Tick(b, toks[0]), u, toks[1..], t);
    }
  }

  ghost function WithOneMore(st: Sim, t: Topic): Sim {
    st.(pending := Bump(st.pending, t))
  }

  /** Token lists that play alike, also with one more reply expected, ignore alike. */
  lemma SamePlaySameIgnored(st: Sim, x: seq<Token>, y: seq<Token>, t: Topic)
    requires st.ok && NonNegative(st.pending) && Play(st, x).ok
    requires Play(st, x) == Play(st, y) && Play(WithOneMore(st, t), x) == Play(WithOneMore(st, t), y)
    ensures Ignored(st, x, t) == Ignored(st, y, t)
  {
    hide Play;
    PlayBumped(st, WithOneMore(st, t), t, x);
    PlayBumped(st, WithOneMore(st, t), t, y);
  }

  // ----- The ledger is right -----

  ghost predicate TellsAll(r: multiset<Topic>, st: Sim, toks: seq<Token>) {
    forall t :: r[t] == Ignored(st, toks, t)
  }

  ghost predicate Tells(r: multiset<Topic>, s: System) {
    TellsAll(r, Begin(s.client.ps.subs, s.seen), Stream(s))
  }

  lemma SubscribeOneTells(r: multiset<Topic>, subs: map<Topic, Callback>, pu: int, seen: set<Topic>, toks: seq<Token>,
                          u: Topic, cb: Callback)
    requires CoreInv(subs, pu, seen, toks) && TellsAll(r, Begin(subs, seen), toks)
    ensures TellsAll(r[u := 0], Begin(SubscribeOne(subs, u, cb), seen), toks + [TSub(u)])
  {
    var a, b := Begin(subs, seen), Begin(SubscribeOne(subs, u, cb), seen);
    assert b.pending == Bump(a.pending, u);
    hide Tick, Play, Ignored;
    forall t
      ensures r[u := 0][t] == Ignored(b, toks + [TSub(u)], t)
    {
      IgnoredAppend(b, toks, [TSub(u)], t);
      IgnoredOne(Play(b, toks), TSub(u), t);
      IgnoredBumped(a, b, u, toks, t);
    }
  }

  lemma {:induction false} SubscribeTells(r: multiset<Topic>, subs: map<Topic, Callback>, pu: int, seen: set<Topic>, toks: seq<Token>,
                                          ts: seq<Topic>, cb: Callback)
    requires CoreInv(subs, pu, seen, toks) && !cb.unsubSent && TellsAll(r, Begin(subs, seen), toks)
    ensures TellsAll(TellSubscribe(r, ts), Begin(SubscribeEach(subs, ts, cb), seen), toks + Subs(ts))
    ensures TakenOver(r, ts) == IgnoredByAll(subs, seen, toks, ts, cb)
    decreases ts
  {
    if ts == [] {
      assert toks + Subs(ts) == toks;
    } else {
      hide CoreInv, Ignored, Begin, SubscribeOne;
      CoreSubscribe(subs, pu, seen, toks, ts[0], cb);
      SubscribeOneTells(r, subs, pu, seen, toks, ts[0], cb);
      SubscribeTells(r[ts[0] := 0], SubscribeOne(subs, ts[0], cb), pu, seen, toks + [TSub(ts[0])], ts[1..], cb);
      SubsCons(toks, ts);
    }
  }

  lemma UnsubscribeOneTells(r: multiset<Topic>, subs: map<Topic, Callback>, pu: int, seen: set<Topic>, toks: seq<Token>, u: Topic)
    requires CoreInv(subs, pu, seen, toks) && TellsAll(r, Begin(subs, seen), toks)
    ensures TellsAll(TellOne(r, subs, u), Begin(UnsubscribeOne(subs, pu, u).0, seen), toks + [TUnsub(u, None)])
  {
    var a := Begin(subs, seen);
    assert Counters(UnsubscribeOne(subs, pu, u).0) == Counters(subs);
    assert u in Unsent(subs) <==> u in subs && !subs[u].unsubSent;
    assert u in Play(a, toks).pending <==> u in Unsent(subs);
    hide Tick, Play, Ignored;
    forall t
      ensures TellOne(r, subs, u)[t] == Ignored(a, toks + [TUnsub(u, None)], t)
    {
      IgnoredAppend(a, toks, [TUnsub(u, None)], t);
      IgnoredOne(Play(a, toks), TUnsub(u, None), t);
    }
  }

  lemma {:induction false} UnsubscribeTells(r: multiset<Topic>, subs: map<Topic, Callback>, pu: int, seen: set<Topic>, toks: seq<Token>,
                                            p: bool, names: seq<string>)
    requires CoreInv(subs, pu, seen, toks) && TellsAll(r, Begin(subs, seen), toks)
    ensures TellsAll(TellUnsubscribe(r, subs, Topics(p, names)), Begin(UnsubscribeEach(subs, pu, p, names).0, seen),
                     toks + Unsubs(Topics(p, names)))
    decreases names
  {
    var ts := Topics(p, names);
    if names == [] {
      assert toks + Unsubs(ts) == toks;
    } else {
      hide CoreInv, Ignored, Begin, UnsubscribeOne;
      var first := UnsubscribeOne(subs, pu, ts[0]);
      CoreUnsubscribe(subs, pu, seen, toks, ts[0]);
      UnsubscribeOneTells(r, subs, pu, seen, toks, ts[0]);
      assert ts[1..] == Topics(p, names[1..]);
      SameMark(subs, pu, 0, ts[0]);
      assert UnsubscribeEach(subs, pu, p, names) == UnsubscribeEach(first.0, first.1, p, names[1..]);
      UnsubscribeTells(TellOne(r, subs, ts[0]), first.0, first.1, seen, toks + [TUnsub(ts[0], None)], p, names[1..]);
      UnsubsSplit(toks, p, names);
    }
  }

  lemma SameMark(subs: map<Topic, Callback>, pu: int, qu: int, t: Topic)
    ensures UnsubscribeOne(subs, pu, t).0 == UnsubscribeOne(subs, qu, t).0
  {
  }

  lemma UnsubscribeAllTells(r: multiset<Topic>, subs: map<Topic, Callback>, pu: int, seen: set<Topic>, toks: seq<Token>, p: bool)
    requires TellsAll(r, Begin(subs, seen), toks)
    ensures TellsAll(r, Begin(UnsubscribeAllOf(subs, pu, p).0, seen), toks + [TAllOf(p)])
  {
    var a := Begin(subs, seen);
    MarkAll(subs, pu, p);
    hide Tick, Play, Ignored;
    forall t
      ensures r[t] == Ignored(a, toks + [TAllOf(p)], t)
    {
      IgnoredAppend(a, toks, [TAllOf(p)], t);
      IgnoredOne(Play(a, toks), TAllOf(p), t);
    }
  }

  // ----- The server's moves -----

  /** What is known of an open context, also while a timeout runs its callbacks. */
  ghost predicate Facts(s: System) {
    var st := Begin(s.client.ps.subs, s.seen);
    && CoreInv(s.client.ps.subs, s.client.ps.pendingUnsubs, s.seen, Stream(s))
    && s.srv == Play(st, TokensOf(s.back)).live
  }

  lemma GoodFacts(s: System)
    requires Good(s) && !s.client.flags.closed
    ensures Facts(s)
  {
    if s.client.run.timingOut {
      var lost :| Inv(Restored(s, lost));
      assert Stream(Restored(s, lost)) == Stream(s);
    }
  }

  lemma ServedInContext(st: Sim, a: seq<Token>, req: Request, ch: Choice, b: seq<Token>)
    requires Play(st, a + Expected(req) + b).ok && ChoiceFits(Play(st, a).live, req, ch)
    ensures var y := TokensOf(ServeRequest(Play(st, a).live, req, ch).0);
            Play(st, a + y + b) == Play(st, a + Expected(req) + b)
  {
    var x, y := Expected(req), TokensOf(ServeRequest(Play(st, a).live, req, ch).0);
    PlayAppend(st, a + x, b);
    PlayAppend(st, a, x);
    PlayOk(Play(st, a + x), b);
    PlayServed(Play(st, a), req, ch);
    PlayAppend(st, a, y);
    PlayAppend(st, a + y, b);
  }

  lemma ProcessTells(r: multiset<Topic>, s: System, ch: Choice)
    requires Facts(s) && CanProcess(s, ch) && Tells(r, s)
    ensures Tells(r, ProcessStep(s, ch))
  {
    var s' := ProcessStep(s, ch);
    var req := s.pipe[0];
    var a, b := TokensOf(s.back), ExpectedAll(s.pipe[1..]);
    var y := TokensOf(ServeRequest(s.srv, req, ch).0);
    WireParts(s, ServeRequest(s.srv, req, ch).0);
    var st := Begin(s.client.ps.subs, s.seen);
    hide Tick, Play, Ignored, ServeRequest, Expected, ExpectedAll, ChoiceFits, Begin;
    ServedInContext(st, a, req, ch, b);
    forall t
      ensures r[t] == Ignored(st, Stream(s'), t)
    {
      OneMoreInContext(st, a, Expected(req), b, t);
      ServedInContext(WithOneMore(st, t), a, req, ch, b);
      BeginIsSound(s);
      SamePlaySameIgnored(st, a + Expected(req) + b, a + y + b, t);
    }
  }

  lemma BeginIsSound(s: System)
    requires Facts(s)
    ensures var st := Begin(s.client.ps.subs, s.seen); st.ok && NonNegative(st.pending) && Play(st, Stream(s)).ok
  {
  }

  lemma OneMoreInContext(st: Sim, a: seq<Token>, x: seq<Token>, b: seq<Token>, t: Topic)
    requires st.ok && NonNegative(st.pending) && Play(st, a + x + b).ok
    ensures var more := WithOneMore(st, t);
            Play(more, a).live == Play(st, a).live && Play(more, a + x + b).ok
  {
    hide Tick, Play;
    assert a + x + b == a + (x + b);
    PlayAppend(st, a, x + b);
    PlayOk(Play(st, a), x + b);
    PlayBumped(st, WithOneMore(st, t), t, a);
    PlayBumped(st, WithOneMore(st, t), t, a + x + b);
  }

  lemma TickInert(st: Sim, item: Item)
    requires item.Message? || item.Spontaneous?
    ensures var next := Tick(st, TokenOf(item)); next.pending == st.pending && next.live == st.live
    ensures !TokenOf(item).TUnsub?
  {
  }

  lemma InsertedTells(r: multiset<Topic>, s: System, item: Item)
    requires Facts(s) && Tells(r, s) && (item.Message? || item.Spontaneous?)
    ensures Tells(r, s.(back := s.back + [item]))
  {
    var tok := TokenOf(item);
    var a, b := TokensOf(s.back), ExpectedAll(s.pipe);
    TokensAppend(s.back, [item]);
    assert TokensOf([item]) == [tok];
    var st := Begin(s.client.ps.subs, s.seen);
    hide Tick, Play, Ignored, TokenOf, ExpectedAll;
    TickInert(Play(st, a), item);
    forall t
      ensures r[t] == Ignored(st, a + [tok] + b, t)
    {
      IgnoredAppend(st, a, b, t);
      IgnoredAppend(st, a, [tok], t);
      IgnoredAppend(st, a + [tok], b, t);
      PlayAppend(st, a, [tok]);
      PlayOne(Play(st, a), tok);
      IgnoredOne(Play(st, a), tok, t);
      IgnoredSame(Play(st, a), Tick(Play(st, a), tok), b, t);
    }
  }

  // ----- The client's moves -----

  lemma CommandTells(r: multiset<Topic>, s: System, cmd: Command, tag: nat, hasFn: bool)
    requires Facts(s) && CanIssue(s, cmd, tag, hasFn) && Tells(r, s)
    requires !s.client.flags.disconnecting && !s.client.flags.freeing
    ensures Tells(TellCommand(r, s.client, cmd), IssueStep(s, cmd, tag, hasFn))
    ensures cmd.Subscribe? ==> IssueCost(s, cmd, tag, hasFn) == TakenOver(r, Topics(cmd.pattern, cmd.names))
  {
    var ps, toks := s.client.ps, Stream(s);
    hide Ignored, Begin, CoreInv, Play, TellSubscribe, TellUnsubscribe, SubscribeAll, UnsubscribeEach, UnsubscribeAllOf;
    match cmd
    case Subscribe(p, names) =>
      var cb := Callback(tag, hasFn, 1, false);
      NoCarryMeansEach(ps.subs, p, names, cb, 1);
      assert cb.(pendingSubs := 1) == cb;
      SubscribeTells(r, ps.subs, ps.pendingUnsubs, s.seen, toks, Topics(p, names), cb);
      StreamGrows(s, ReqSub(p, names));
    case Unsubscribe(p, names) =>
      if ps.subscribed {
        StreamGrows(s, ReqUnsub(p, names));
        if names == [] {
          TellNothing(r, ps.subs, p);
          UnsubscribeAllTells(r, ps.subs, ps.pendingUnsubs, s.seen, toks, p);
        } else {
          UnsubscribeTells(r, ps.subs, ps.pendingUnsubs, s.seen, toks, p, names);
        }
      }
    case Regular =>
      StreamGrows(s, ReqRegular(tag));
      RegularTells(r, Begin(ps.subs, s.seen), toks, tag);
  }

  lemma TellNothing(r: multiset<Topic>, subs: map<Topic, Callback>, p: bool)
    ensures TellUnsubscribe(r, subs, Topics(p, [])) == r
  {
  }

  lemma RegularTells(r: multiset<Topic>, st: Sim, toks: seq<Token>, tag: nat)
    requires TellsAll(r, st, toks)
    ensures TellsAll(r, st, toks + [TReg(tag)])
  {
    hide Tick, Play, Ignored;
    forall t
      ensures r[t] == Ignored(st, toks + [TReg(tag)], t)
    {
      IgnoredAppend(st, toks, [TReg(tag)], t);
      IgnoredOne(Play(st, toks), TReg(tag), t);
    }
  }

  /** Reading a reply does to the counters and the topics seen what playing its token does. */
  ghost predicate Ticks(s: System)
    requires s.back != []
  {
    var st := Tick(Begin(s.client.ps.subs, s.seen), TokenOf(s.back[0]));
    ReceiveStep(s).Moved? && Counters(ReceiveStep(s).s.client.ps.subs) == st.pending && ReceiveStep(s).s.seen == st.live
  }

  lemma ReceiveTicks(s: System)
    requires Inv(s) && CanReceive(s) && ReceiveStep(s).Moved? && !ReceiveStep(s).s.client.flags.closed
    ensures Ticks(s)
    ensures Stream(s) != [] && Stream(s)[0] == TokenOf(s.back[0]) && Stream(ReceiveStep(s).s) == Stream(s)[1..]
  {
    hide Inv, Ticks, Stream, TokenOf, OnReply, Render;
    StreamTail(s);
    StreamMoves(s);
    match s.back[0]
    case Answer(_, _) => AnswerTicks(s);
    case SubAck(_, _) => SubTicks(s);
    case UnsubAck(_, _) => UnsubTicks(s);
    case UnsubNone(_, _) => UnsubTicks(s);
    case Message(_, _, _) => MessageTicks(s);
    case Spontaneous(_) => SpontaneousTicks(s);
  }

  lemma StreamMoves(s: System)
    requires CanReceive(s) && ReceiveStep(s).Moved?
    ensures Stream(ReceiveStep(s).s) == TokensOf(s.back[1..]) + ExpectedAll(s.pipe)
  {
    hide TokensOf, ExpectedAll, OnReply, Render;
  }

  lemma AnswerTicks(s: System)
    requires Inv(s) && CanReceive(s) && s.back[0].Answer? && ReceiveStep(s).Moved? && !ReceiveStep(s).s.client.flags.closed
    ensures Ticks(s)
  {
    AnswerShape(s);
    if s.client.q.replies != [] || !s.back[0].reply.Error? {
      AnswerServed(s);
    }
  }

  lemma SubTicks(s: System)
    requires Inv(s) && CanReceive(s) && s.back[0].SubAck?
    ensures Ticks(s)
  {
    hide Inv, OnReply, Render, Play;
    PubSubArrives(s);
    SubAckEffect(s);
    CountDown(s.client.ps.subs, s.back[0].topic);
  }

  lemma UnsubTicks(s: System)
    requires Inv(s) && CanReceive(s) && (s.back[0].UnsubAck? || s.back[0].UnsubNone?) && ReceiveStep(s).Moved?
    ensures Ticks(s)
  {
    hide Inv, OnReply, Render, Play;
    UnsubAckEffect(s);
    CountPlays(s.client, s.seen, s.back[0]);
  }

  lemma MessageTicks(s: System)
    requires Inv(s) && CanReceive(s) && s.back[0].Message?
    ensures Ticks(s)
  {
    hide Inv, OnReply, Render, Play;
    MessageArrives(s);
  }

  lemma SpontaneousTicks(s: System)
    requires Inv(s) && CanReceive(s) && s.back[0].Spontaneous?
    ensures Ticks(s)
  {
    hide Play, CoreInv, Lined, Quiet;
    assert WellFormed(s.resp3, s.back[0]);
  }

  lemma ReceiveTells(r: multiset<Topic>, s: System)
    requires Inv(s) && CanReceive(s) && ReceiveStep(s).Moved? && !ReceiveStep(s).s.client.flags.closed && Tells(r, s)
    ensures Tells(Tell(r, s, Receive), ReceiveStep(s).s)
  {
    hide Inv, ReceiveStep, Stream, Play;
    ReceiveTicks(s);
    var s', a, tok := ReceiveStep(s).s, Begin(s.client.ps.subs, s.seen), TokenOf(s.back[0]);
    forall t
      ensures Tell(r, s, Receive)[t] == Ignored(Begin(s'.client.ps.subs, s'.seen), Stream(s'), t)
    {
      IgnoredHead(a, Stream(s), t);
      IgnoredSame(Tick(a, tok), Begin(s'.client.ps.subs, s'.seen), Stream(s'), t);
      IgnoredHeadTells(r, s, t);
    }
  }

  lemma IgnoredHead(st: Sim, toks: seq<Token>, t: Topic)
    requires toks != []
    ensures Ignored(st, toks, t)
         == (if toks[0].TUnsub? && toks[0].topic == t && t !in st.pending then 1 else 0) + Ignored(Tick(st, toks[0]), toks[1..], t)
  {
  }

  lemma BeginKeys(subs: map<Topic, Callback>, seen: set<Topic>)
    ensures Begin(subs, seen).pending.Keys == subs.Keys
  {
  }

  lemma IgnoredHeadTells(r: multiset<Topic>, s: System, t: Topic)
    requires s.back != []
    ensures var tok := TokenOf(s.back[0]);
            var hit := tok.TUnsub? && tok.topic == t && t !in Begin(s.client.ps.subs, s.seen).pending;
            Tell(r, s, Receive)[t] == if hit && r[t] > 0 then r[t] - 1 else r[t]
  {
    hide TellCommand, Classify, Begin;
    BeginKeys(s.client.ps.subs, s.seen);
  }

  /** Every move of the system keeps the ledger right, and loses what the leak gains. */
  lemma MoveTells(r: multiset<Topic>, s: System, m: Move)
    requires Good(s) && Possible(s, m) && Tells(r, s)
    requires Do(s, m).Moved? && !Do(s, m).s.client.flags.closed
    ensures Tells(Tell(r, s, m), Do(s, m).s) && Loss(r, s, m) == Cost(s, m)
  {
    hide Inv, Tells, Facts, TellCommand, IssueCost, TakenOver, ReceiveStep, ProcessStep;
    GoodFacts(s);
    match m
    case Issue(args, tag, hasFn) => IssueTells(r, s, m);
    case Process(ch) => ProcessTells(r, s, ch);
    case Publish(t, source, payload) => InsertedTells(r, s, Message(t, source, payload));
    case PushOut(reply) => InsertedTells(r, s, Spontaneous(reply));
    case Receive => ReceiveTells(r, s);
    case Local(e) => LocalTells(r, s, e);
  }

  lemma IssueTells(r: multiset<Topic>, s: System, m: Move)
    requires Facts(s) && Possible(s, m) && Tells(r, s) && m.Issue?
    ensures Tells(Tell(r, s, m), Do(s, m).s) && Loss(r, s, m) == Cost(s, m)
  {
    hide Tells, Facts, TellCommand, TakenOver, IgnoredByAll;
    if !s.client.flags.disconnecting && !s.client.flags.freeing {
      CommandTells(r, s, Classify(m.args), m.tag, m.hasFn);
    } else {
      assert Do(s, m).s == s;
    }
  }

  lemma LocalTells(r: multiset<Topic>, s: System, e: Event)
    requires Possible(s, Local(e)) && Tells(r, s) && LocalStep(s, e).Moved? && !LocalStep(s, e).s.client.flags.closed
    ensures Tells(r, LocalStep(s, e).s)
  {
    var s' := LocalStep(s, e).s;
    LocalLeaves(s.client, e);
    assert Stream(s') == Stream(s);
  }

  lemma LocalLeaves(c: Client, e: Event)
    requires Allowed(c, e) && !e.Send? && !e.Received? && Step(c, e).Next? && !Step(c, e).c.flags.closed
    ensures Step(c, e).c.ps == c.ps
  {
    hide TimeOutWaiting;
    TimeOutShrinks(c);
    TimeOutShrinks(c.(run := IDLE));
  }

  /** Over a run, what the ledger loses is what the leak gains. */
  lemma {:induction false} LossesAreTheLeak(r: multiset<Topic>, s: System, ms: seq<Move>, s': System)
    requires Good(s) && !s.client.flags.closed && Reaches(s, ms, s') && !s'.client.flags.closed && Tells(r, s)
    ensures LeakOf(s') == LeakOf(s) + Losses(r, s, ms)
    decreases ms
  {
    hide Good, Tells, LeakOf, Do, Possible, Loss, Tell, Cost;
    if ms != [] {
      var next := Do(s, ms[0]).s;
      MoveKeeps(s, ms[0]);
      if next.client.flags.closed {
        ClosedStays(next, ms[1..], s');
      } else {
        MoveTells(r, s, ms[0]);
        LossesAreTheLeak(Tell(r, s, ms[0]), next, ms[1..], s');
      }
    }
  }

  /**
   * From the start, an UNSUBSCRIBE reply ends subscribed mode exactly when nothing more of pub/sub
   * is in flight, the server held no topic when it replied, and the client has never sent a SUBSCRIBE
   * for a topic while the reply to a superfluous UNSUBSCRIBE of it was outstanding.
   */
  lemma ModeEndsExactly(resp3: bool, pushHandler: bool, ms: seq<Move>, s: System)
    requires Reaches(Start(resp3, pushHandler), ms, s)
    requires Possible(s, Receive) && (s.back[0].UnsubAck? || s.back[0].UnsubNone?)
    ensures Do(s, Receive).Moved?
    ensures var s' := Do(s, Receive).s;
            !s'.client.ps.subscribed
            <==> NoPubSub(Stream(s')) && s'.seen == {} && Losses(multiset{}, Start(resp3, pushHandler), ms) == 0
  {
    hide Good, LeakOf, Losses, Stream, NoPubSub, Do, Tells;
    var s0 := Start(resp3, pushHandler);
    StartIsGood(resp3, pushHandler);
    StartTells(resp3, pushHandler);
    LossesAreTheLeak(multiset{}, s0, ms, s);
    assert Reachable(s);
    ModeIsLeftExactly(s);
  }

  lemma StartTells(resp3: bool, pushHandler: bool)
    ensures Tells(multiset{}, Start(resp3, pushHandler)) && LeakOf(Start(resp3, pushHandler)) == 0
  {
    assert Stream(Start(resp3, pushHandler)) == [];
  }
}
