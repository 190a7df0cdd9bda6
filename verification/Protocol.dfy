/**
 * The main theorems about the asynchronous client: against a server that answers in order and
 * pushes pub/sub messages, every reply reaches the callback of its own command, no assertion of the
 * client fails, and subscribed mode is left only when no pub/sub reply is in flight.
 */
module Protocol {
  import opened Common
  import opened Resp
  import opened AsyncClient
  import opened PubSub
  import opened InFlight
  import opened Bookkeeping
  import opened Alignment

  /** Everything in flight, nearest to the client first. */
  function Stream(s: System): seq<Token> {
    TokensOf(s.back) + ExpectedAll(s.pipe)
  }

  /** Outside subscribed mode there is no subscription and no pub/sub reply in flight. */
  ghost predicate Quiet(s: System) {
    && s.client.ps.subs == map[] && s.client.ps.pendingUnsubs == 0 && s.seen == {}
    && NoPubSub(Stream(s)) && s.client.q.subReplies == []
  }

  /** The queues of the client line up with the answers in flight. */
  ghost predicate Lined(s: System) {
    var c := s.client;
    && RegTags(Stream(s)) == Tags(c.q.replies + c.q.subReplies)
    && Ahead(Stream(s), |c.q.replies|)
    && (c.q.replies != [] ==> s.seen == {})
    && (if s.resp3 then c.ps.subscribed && !c.ps.supportsPush ==> PushWithin(Stream(s), |c.q.replies|)
        else !c.ps.supportsPush && ShortBehind(s.back, |c.q.replies|))
  }

  ghost predicate Inv(s: System) {
    var c := s.client;
    && !c.flags.monitoring
    && CoreInv(c.ps.subs, c.ps.pendingUnsubs, s.seen, Stream(s))
    && s.seen <= c.ps.subs.Keys
    && s.srv == Play(Begin(c.ps.subs, s.seen), TokensOf(s.back)).live
    && (forall i :: 0 <= i < |s.back| ==> WellFormed(s.resp3, s.back[i]))
    && (!c.ps.subscribed ==> Quiet(s))
    && Lined(s)
  }

  /** Of the answers on the wire none behind the first `n` could be taken for a pub/sub message. */
  predicate ShortBehind(back: seq<Item>, n: nat)
    decreases back
  {
    back != [] ==>
      if back[0].Answer? then (n > 0 || !IsLong(back[0].reply)) && ShortBehind(back[1..], if n > 0 then n - 1 else 0)
      else ShortBehind(back[1..], n)
  }

  lemma {:induction false} ShortMore(back: seq<Item>, n: nat, m: nat)
    requires ShortBehind(back, n) && n <= m
    ensures ShortBehind(back, m)
    decreases back
  {
    if back != [] {
      if back[0].Answer? {
        ShortMore(back[1..], if n > 0 then n - 1 else 0, if m > 0 then m - 1 else 0);
      } else {
        ShortMore(back[1..], n, m);
      }
    }
  }

  lemma {:induction false} ShortAppend(back: seq<Item>, item: Item, n: nat)
    requires ShortBehind(back, n) && (item.Answer? && IsLong(item.reply) ==> Answers(back) < n)
    ensures ShortBehind(back + [item], n)
    decreases back
  {
    if back == [] {
      assert back + [item] == [item] && [item][1..] == [];
    } else {
      assert (back + [item])[0] == back[0] && (back + [item])[1..] == back[1..] + [item];
      ShortAppend(back[1..], item, if back[0].Answer? then (if n > 0 then n - 1 else 0) else n);
    }
  }

  lemma {:induction false} ShortAppendAll(back: seq<Item>, items: seq<Item>, n: nat)
    requires ShortBehind(back, n) && forall i :: 0 <= i < |items| ==> !items[i].Answer?
    ensures ShortBehind(back + items, n)
    decreases items
  {
    if items == [] {
      assert back + items == back;
    } else {
      ShortAppend(back, items[0], n);
      ShortAppendAll(back + [items[0]], items[1..], n);
      assert back + [items[0]] + items[1..] == back + items;
    }
  }

  ghost predicate Kept(s: System) {
    s.client.flags.closed || Inv(s)
  }

  lemma TokensAppend(a: seq<Item>, b: seq<Item>)
    ensures TokensOf(a + b) == TokensOf(a) + TokensOf(b)
  {
  }

  // ----- The client issues a command -----

  lemma StreamGrows(s: System, req: Request)
    ensures Stream(s.(pipe := s.pipe + [req])) == Stream(s) + Expected(req)
  {
    ExpectedSnoc(s.pipe, req);
    Assoc(TokensOf(s.back), ExpectedAll(s.pipe), Expected(req));
  }

  lemma TickLive(a: Sim, b: Sim, tok: Token)
    requires a.live == b.live && Tick(a, tok).ok && Tick(b, tok).ok
    ensures Tick(a, tok).live == Tick(b, tok).live
  {
  }

  /** Adding a subscription callback does not change which topics the server is seen to hold. */
  lemma {:induction false} LiveIgnoresPending(a: Sim, b: Sim, toks: seq<Token>)
    requires a.live == b.live && Play(a, toks).ok && Play(b, toks).ok
    ensures Play(a, toks).live == Play(b, toks).live
    decreases toks
  {
    if toks != [] {
      PlayOk(Tick(a, toks[0]), toks[1..]);
      PlayOk(Tick(b, toks[0]), toks[1..]);
      TickLive(a, b, toks[0]);
      hide Tick;
      LiveIgnoresPending(Tick(a, toks[0]), Tick(b, toks[0]), toks[1..]);
    }
  }

  /** New tokens at the far end of the stream leave the alignment alone. */
  lemma LinedGrows(toks: seq<Token>, more: seq<Token>, n: nat)
    ensures Ahead(toks, n) && n <= |RegTags(toks)| ==> Ahead(toks + more, n)
    ensures PushWithin(toks, n) ==> PushWithin(toks + more, n)
    ensures RegTags(toks + more) == RegTags(toks) + RegTags(more)
  {
    AheadSplit(toks, more, n);
    PushSplit(toks, more, n);
    RegTagsAppend(toks, more);
  }

  lemma BackStillOk(st: Sim, a: seq<Token>, b: seq<Token>)
    requires Play(st, a + b).ok
    ensures Play(st, a).ok
  {
    PlayAppend(st, a, b);
    PlayOk(Play(st, a), b);
  }

  /** A pub/sub command: `x` is what it is expected to bring, `subs` and `pu` the new bookkeeping. */
  lemma PubSubCommandKeeps(s: System, s': System, x: seq<Token>)
    requires Inv(s)
    requires x != [] && forall i :: 0 <= i < |x| ==> IsPubSub(x[i])
    requires Stream(s') == Stream(s) + x && s'.back == s.back && s'.srv == s.srv && s'.seen == s.seen && s'.resp3 == s.resp3
    requires s'.client == s.client.(ps := s'.client.ps)
    requires s'.client.ps.subscribed && s'.client.ps.supportsPush == s.client.ps.supportsPush
    requires CoreInv(s'.client.ps.subs, s'.client.ps.pendingUnsubs, s.seen, Stream(s) + x)
    requires s.client.ps.subs.Keys <= s'.client.ps.subs.Keys
    ensures Inv(s')
  {
    var c, n := s.client, |s.client.q.replies|;
    PubSubHasNoTags(x);
    LinedGrows(Stream(s), x, n);
    assert |RegTags(Stream(s))| == |c.q.replies + c.q.subReplies|;
    assert RegTags(Stream(s)) + [] == RegTags(Stream(s));
    var a, b := Begin(c.ps.subs, s.seen), Begin(s'.client.ps.subs, s.seen);
    BackStillOk(a, TokensOf(s.back), ExpectedAll(s.pipe));
    BackStillOk(b, TokensOf(s'.back), ExpectedAll(s'.pipe));
    LiveIgnoresPending(a, b, TokensOf(s.back));
    if !c.ps.subscribed {
      assert !AllReg(Stream(s')) by { assert !Stream(s')[|Stream(s)|].TReg?; }
      PushAmong(Stream(s'));
      assert |RegTags(Stream(s'))| == n;
    }
  }

  lemma RegularKeeps(s: System, cmd: Command, tag: nat, hasFn: bool)
    requires Inv(s) && CanIssue(s, cmd, tag, hasFn) && cmd.Regular?
    ensures Kept(IssueStep(s, cmd, tag, hasFn)) && LeakOf(IssueStep(s, cmd, tag, hasFn)) == LeakOf(s)
  {
    var c := s.client;
    if !c.flags.disconnecting && !c.flags.freeing {
      StreamGrows(s, ReqRegular(tag));
      RegularAdds(s, IssueStep(s, cmd, tag, hasFn), Callback(tag, hasFn, 1, false));
    }
  }

  /** One more answer is expected, and one more callback waits for it at the end of the right queue. */
  lemma RegularAdds(s: System, s': System, cb: Callback)
    requires Inv(s)
    requires Stream(s') == Stream(s) + [TReg(cb.tag)] && s'.back == s.back && s'.srv == s.srv && s'.seen == s.seen
    requires s'.resp3 == s.resp3
    requires s'.client.ps == s.client.ps && s'.client.flags == s.client.flags
    requires s'.client.q == if s.client.ps.subscribed then s.client.q.(subReplies := s.client.q.subReplies + [cb])
                            else s.client.q.(replies := s.client.q.replies + [cb])
    ensures Inv(s') && LeakOf(s') == LeakOf(s)
  {
    hide ShortBehind, PushWithin, Ahead, WellFormed;
    var c, x := s.client, [TReg(cb.tag)];
    var waiting := c.q.replies + c.q.subReplies;
    assert s'.client.q.replies + s'.client.q.subReplies == waiting + [cb];
    assert Tags(waiting + [cb]) == Tags(waiting) + [cb.tag];
    assert RegTags(x) == [cb.tag] by { assert x[1..] == []; }
    if !s.resp3 {
      ShortMore(s.back, |c.q.replies|, |s'.client.q.replies|);
    }
    LinedGrows(Stream(s), x, |c.q.replies|);
    assert |RegTags(Stream(s))| == |waiting|;
    PlayReg(Begin(c.ps.subs, s.seen), Stream(s), cb.tag);
    if !c.ps.subscribed {
      NoPubSubAppend(Stream(s), x);
      QuietIsAhead(Stream(s'), |s'.client.q.replies|);
    }
  }

  lemma PlayReg(st: Sim, toks: seq<Token>, tag: nat)
    ensures Play(st, toks + [TReg(tag)]) == Play(st, toks)
  {
    PlayAppend(st, toks, [TReg(tag)]);
    PlayOne(Play(st, toks), TReg(tag));
  }

  lemma SubscribeKeeps(s: System, cmd: Command, tag: nat, hasFn: bool)
    requires Inv(s) && CanIssue(s, cmd, tag, hasFn) && cmd.Subscribe?
    ensures Kept(IssueStep(s, cmd, tag, hasFn))
    ensures LeakOf(IssueStep(s, cmd, tag, hasFn)) == LeakOf(s) + IssueCost(s, cmd, tag, hasFn)
  {
    var c := s.client;
    if !c.flags.disconnecting && !c.flags.freeing {
      var s' := IssueStep(s, cmd, tag, hasFn);
      var p, names := cmd.pattern, cmd.names;
      var cb := Callback(tag, hasFn, 1, false);
      var req := ReqSub(p, names);
      StreamGrows(s, req);
      NoCarryMeansEach(c.ps.subs, p, names, cb, 1);
      CoreSubscribeEach(c.ps.subs, c.ps.pendingUnsubs, s.seen, Stream(s), Topics(p, names), cb);
      PubSubCommandKeeps(s, s', Expected(req));
    }
  }

  lemma UnsubscribeKeeps(s: System, cmd: Command, tag: nat, hasFn: bool)
    requires Inv(s) && CanIssue(s, cmd, tag, hasFn) && cmd.Unsubscribe?
    ensures Kept(IssueStep(s, cmd, tag, hasFn)) && LeakOf(IssueStep(s, cmd, tag, hasFn)) == LeakOf(s)
  {
    var c := s.client;
    if !c.flags.disconnecting && !c.flags.freeing && c.ps.subscribed {
      var s' := IssueStep(s, cmd, tag, hasFn);
      var p, names := cmd.pattern, cmd.names;
      var req := ReqUnsub(p, names);
      StreamGrows(s, req);
      if names == [] {
        CoreUnsubscribeAll(c.ps.subs, c.ps.pendingUnsubs, s.seen, Stream(s), p);
      } else {
        CoreUnsubscribeEach(c.ps.subs, c.ps.pendingUnsubs, s.seen, Stream(s), p, names);
      }
      PubSubCommandKeeps(s, s', Expected(req));
    }
  }

  // ----- The server acts -----

  /** The stream from the server's point of view: what is on the wire, and what it still has to do. */
  lemma ServerView(s: System)
    requires Inv(s)
    ensures var mid := Play(Begin(s.client.ps.subs, s.seen), TokensOf(s.back));
            && mid.ok && mid.live == s.srv
            && Play(Begin(s.client.ps.subs, s.seen), Stream(s)) == Play(mid, ExpectedAll(s.pipe))
  {
    PlayAppend(Begin(s.client.ps.subs, s.seen), TokensOf(s.back), ExpectedAll(s.pipe));
    BackStillOk(Begin(s.client.ps.subs, s.seen), TokensOf(s.back), ExpectedAll(s.pipe));
  }

  lemma {:induction false} UnsubscribingShape(srv: set<Topic>, ts: seq<Topic>)
    ensures var items := Unsubscribing(srv, ts).0;
            |items| == |ts| && forall i :: 0 <= i < |items| ==> items[i].UnsubAck?
    decreases ts
  {
    if ts != [] {
      UnsubscribingShape(srv - {ts[0]}, ts[1..]);
    }
  }

  lemma {:induction false} SubscribingShape(srv: set<Topic>, ts: seq<Topic>)
    ensures var items := Subscribing(srv, ts).0;
            |items| == |ts| && forall i :: 0 <= i < |items| ==> items[i].SubAck?
    decreases ts
  {
    if ts != [] {
      SubscribingShape(srv + {ts[0]}, ts[1..]);
    }
  }

  lemma PubSubOnBothSides(x: seq<Token>, items: seq<Item>)
    requires forall i :: 0 <= i < |x| ==> IsPubSub(x[i])
    requires forall i :: 0 <= i < |items| ==> IsPubSub(TokenOf(items[i]))
    requires x == [] <==> items == []
    ensures Interchangeable(x, TokensOf(items))
  {
  }

  lemma ServedShape(resp3: bool, srv: set<Topic>, req: Request, ch: Choice)
    requires ChoiceFits(srv, req, ch)
    ensures Interchangeable(Expected(req), TokensOf(ServeRequest(srv, req, ch).0))
    ensures forall i :: 0 <= i < |ServeRequest(srv, req, ch).0| ==> WellFormed(resp3, ServeRequest(srv, req, ch).0[i])
    ensures !req.ReqRegular? ==> forall i :: 0 <= i < |ServeRequest(srv, req, ch).0| ==> !ServeRequest(srv, req, ch).0[i].Answer?
  {
    match req
    case ReqRegular(tag) =>
      assert TokensOf([Answer(tag, ch.reply)]) == [TReg(tag)];
    case ReqSub(p, names) => AllSubscribedShape(resp3, srv, Topics(p, names));
    case ReqUnsub(p, names) =>
      if names != [] {
        AllUnsubscribedShape(resp3, srv, Topics(p, names));
      } else {
        AllDroppedShape(resp3, srv, p, ch);
      }
  }

  lemma AllSubscribedShape(resp3: bool, srv: set<Topic>, ts: seq<Topic>)
    ensures var items := Subscribing(srv, ts).0;
            Interchangeable(Subs(ts), TokensOf(items)) && forall i :: 0 <= i < |items| ==> WellFormed(resp3, items[i]) && !items[i].Answer?
  {
    SubscribingShape(srv, ts);
    PubSubOnBothSides(Subs(ts), Subscribing(srv, ts).0);
  }

  lemma AllUnsubscribedShape(resp3: bool, srv: set<Topic>, ts: seq<Topic>)
    ensures var items := Unsubscribing(srv, ts).0;
            Interchangeable(Unsubs(ts), TokensOf(items)) && forall i :: 0 <= i < |items| ==> WellFormed(resp3, items[i]) && !items[i].Answer?
  {
    UnsubscribingShape(srv, ts);
    PubSubOnBothSides(Unsubs(ts), Unsubscribing(srv, ts).0);
  }

  lemma AllDroppedShape(resp3: bool, srv: set<Topic>, p: bool, ch: Choice)
    requires ChoiceFits(srv, ReqUnsub(p, []), ch)
    ensures var items := ServeRequest(srv, ReqUnsub(p, []), ch).0;
            && Interchangeable([TAllOf(p)], TokensOf(items))
            && forall i :: 0 <= i < |items| ==> WellFormed(resp3, items[i]) && !items[i].Answer?
  {
    if OfKind(srv, p) == {} {
      PubSubOnBothSides([TAllOf(p)], [UnsubNone(p, |srv|)]);
    } else {
      UnsubscribingShape(srv, ch.order);
      var t :| t in OfKind(srv, p);
      assert t in ch.order;
      PubSubOnBothSides([TAllOf(p)], Unsubscribing(srv, ch.order).0);
    }
  }

  /** The simulation does not notice that the server has handled a request. */
  lemma ProcessPlays(s: System, ch: Choice)
    requires Inv(s) && CanProcess(s, ch)
    ensures var (items, srv) := ServeRequest(s.srv, s.pipe[0], ch);
            var st := Begin(s.client.ps.subs, s.seen);
            var a, y, b := TokensOf(s.back), TokensOf(items), ExpectedAll(s.pipe[1..]);
            && Play(st, a + y + b) == Play(st, Stream(s))
            && Play(st, a + y).live == srv
  {
    var req := s.pipe[0];
    var a, x, b := TokensOf(s.back), Expected(req), ExpectedAll(s.pipe[1..]);
    var y := TokensOf(ServeRequest(s.srv, req, ch).0);
    ServerView(s);
    ExpectedHead(s.pipe);
    var st := Begin(s.client.ps.subs, s.seen);
    var mid := Play(st, a);
    PlayAppend(mid, x, b);
    PlayOk(Play(mid, x), b);
    PlayServed(mid, req, ch);
    PlayAppend(st, a, y);
    PlayAppend(st, a + y, b);
  }

  lemma WireParts(s: System, items: seq<Item>)
    requires s.pipe != []
    ensures Stream(s) == TokensOf(s.back) + Expected(s.pipe[0]) + ExpectedAll(s.pipe[1..])
    ensures TokensOf(s.back + items) == TokensOf(s.back) + TokensOf(items)
  {
    ExpectedHead(s.pipe);
    TokensAppend(s.back, items);
    Assoc(TokensOf(s.back), Expected(s.pipe[0]), ExpectedAll(s.pipe[1..]));
  }

  lemma ReplaceOnWire(s: System, s': System, items: seq<Item>)
    requires Inv(s) && s.pipe != []
    requires s'.client == s.client && s'.seen == s.seen && s'.pipe == s.pipe[1..] && s'.back == s.back + items && s'.resp3 == s.resp3
    requires s.resp3 || ShortBehind(s'.back, |s.client.q.replies|)
    requires Interchangeable(Expected(s.pipe[0]), TokensOf(items))
    requires forall i :: 0 <= i < |items| ==> WellFormed(s.resp3, items[i])
    requires var st := Begin(s.client.ps.subs, s.seen);
             var a, y, b := TokensOf(s.back), TokensOf(items), ExpectedAll(s.pipe[1..]);
             Play(st, a + y + b) == Play(st, Stream(s)) && Play(st, a + y).live == s'.srv
    ensures Inv(s') && LeakOf(s') == LeakOf(s)
  {
    WireParts(s, items);
    Interchange(TokensOf(s.back), Expected(s.pipe[0]), TokensOf(items), ExpectedAll(s.pipe[1..]), |s.client.q.replies|);
    SameForClient(s, s');
  }

  lemma ProcessKeeps(s: System, ch: Choice)
    requires Inv(s) && CanProcess(s, ch)
    ensures Inv(ProcessStep(s, ch)) && LeakOf(ProcessStep(s, ch)) == LeakOf(s)
  {
    ProcessPlays(s, ch);
    ServedShape(s.resp3, s.srv, s.pipe[0], ch);
    if !s.resp3 {
      if s.pipe[0].ReqRegular? {
        ShortAppend(s.back, Answer(s.pipe[0].tag, ch.reply), |s.client.q.replies|);
      } else {
        ShortAppendAll(s.back, ServeRequest(s.srv, s.pipe[0], ch).0, |s.client.q.replies|);
      }
    }
    ReplaceOnWire(s, ProcessStep(s, ch), ServeRequest(s.srv, s.pipe[0], ch).0);
  }

  /** A change on the wire that plays and aligns as before. */
  lemma SameForClient(s: System, s': System)
    requires Inv(s) && s'.client == s.client && s'.seen == s.seen && s'.resp3 == s.resp3
    requires s.resp3 || ShortBehind(s'.back, |s.client.q.replies|)
    requires var st := Begin(s.client.ps.subs, s.seen);
             Play(st, Stream(s')) == Play(st, Stream(s)) && s'.srv == Play(st, TokensOf(s'.back)).live
    requires forall i :: 0 <= i < |s'.back| ==> WellFormed(s.resp3, s'.back[i])
    requires RegTags(Stream(s')) == RegTags(Stream(s))
    requires Ahead(Stream(s), |s.client.q.replies|) ==> Ahead(Stream(s'), |s.client.q.replies|)
    requires PushWithin(Stream(s), |s.client.q.replies|) ==> PushWithin(Stream(s'), |s.client.q.replies|)
    requires !s.client.ps.subscribed && NoPubSub(Stream(s)) ==> NoPubSub(Stream(s'))
    ensures Inv(s') && LeakOf(s') == LeakOf(s)
  {
  }

  lemma PutOnWire(s: System, item: Item)
    requires Inv(s) && WellFormed(s.resp3, item)
    requires match item case Message(t, _, _) => t in s.srv case Spontaneous(_) => true case _ => false
    ensures Inv(s.(back := s.back + [item])) && LeakOf(s.(back := s.back + [item])) == LeakOf(s)
  {
    var s' := s.(back := s.back + [item]);
    var c, tok := s.client, TokenOf(item);
    var a, b := TokensOf(s.back), ExpectedAll(s.pipe);
    TokensAppend(s.back, [item]);
    assert TokensOf([item]) == [tok];
    assert Stream(s') == a + [tok] + b;
    ServerView(s);
    var st := Begin(c.ps.subs, s.seen);
    PlayAppend(st, a, [tok]);
    PlayOne(Play(st, a), tok);
    PlayAppend(st, a + [tok], b);
    Insert(a, tok, b, |c.q.replies|);
    if tok.TMsg? {
      if !c.ps.subscribed || |RegTags(a)| < |c.q.replies| {
        AheadSplit(a, b, |c.q.replies|);
        NoPubSubAppend(a, b);
        PlayQuiet(st, a);
        assert false;
      }
    }
    if !s.resp3 {
      ShortAppend(s.back, item, |c.q.replies|);
    }
    SameForClient(s, s');
  }

  // ----- The client reads a reply -----

  lemma {:induction false} CStrWhole(s: string)
    requires '\0' !in s
    ensures CStr(s) == s
    decreases s
  {
    if s != "" {
      assert '\0' !in s[1..];
      CStrWhole(s[1..]);
    }
  }

  lemma TypeWordRead(pattern: bool, word: string)
    requires word != "" && Lower(word[0]) != 'p' && '\0' !in word
    ensures StartsWithP(TypeWord(pattern, word)) == pattern
    ensures DropP(TypeWord(pattern, word)) == word && CStr(word) == word
  {
    CStrWhole(word);
    if pattern {
      assert TypeWord(pattern, word)[1..] == word;
    }
  }

  lemma SameWord(w: string)
    ensures EqualsIgnoreCase(w, w) && ('\0' !in w ==> MatchesPrefix(w, w))
  {
    assert w[..|w|] == w;
  }

  lemma OtherLength(a: string, b: string)
    requires |a| != |b|
    ensures !EqualsIgnoreCase(a, b)
  {
  }

  lemma SubscribeWord(pattern: bool)
    ensures var w := TypeWord(pattern, "subscribe");
            IsSubscribeType(w) && StartsWithP(w) == pattern && KindOf(w) == KSubscribe
  {
    TypeWordRead(pattern, "subscribe");
    SameWord("subscribe");
    hide MatchesPrefix, EqualsIgnoreCase, StartsWithP, DropP, CStr;
  }

  lemma UnsubscribeWord(pattern: bool)
    ensures var w := TypeWord(pattern, "unsubscribe");
            IsSubscribeType(w) && StartsWithP(w) == pattern && KindOf(w) == KUnsubscribe
  {
    TypeWordRead(pattern, "unsubscribe");
    SameWord("unsubscribe");
    OtherLength("unsubscribe", "subscribe");
    hide MatchesPrefix, EqualsIgnoreCase, StartsWithP, DropP, CStr;
  }

  lemma MessageWord(pattern: bool)
    ensures var w := TypeWord(pattern, "message");
            IsSubscribeType(w) && StartsWithP(w) == pattern && KindOf(w) == KOther
  {
    TypeWordRead(pattern, "message");
    SameWord("message");
    OtherLength("message", "subscribe");
    OtherLength("message", "unsubscribe");
    hide MatchesPrefix, EqualsIgnoreCase, StartsWithP, DropP, CStr;
  }

  /** What the client makes of a pub/sub item. */
  function MeaningOf(item: Item): PubSubMessage
    requires IsPubSub(TokenOf(item))
  {
    match item
    case SubAck(t, n) => PubSubMessage(KSubscribe, Some(t), Some(n))
    case UnsubAck(t, n) => PubSubMessage(KUnsubscribe, Some(t), Some(n))
    case UnsubNone(_, n) => PubSubMessage(KUnsubscribe, None, Some(n))
    case Message(t, _, _) => PubSubMessage(KOther, Some(t), None)
  }

  /** The client reads a rendered pub/sub item as what it is. */
  lemma RenderedMeaning(resp3: bool, item: Item)
    requires IsPubSub(TokenOf(item))
    ensures var r := Render(resp3, item);
            && r.Agg? && ReadPubSub(r) == Some(MeaningOf(item))
            && (if resp3 then IsPush(r) && IsSubscribeReply(r) else IsLong(r) && !IsPush(r))
  {
    WordMeaning(item);
    PushMeaning(if resp3 then Push else Array, WordOf(item), FieldsOf(item));
  }

  lemma WordMeaning(item: Item)
    requires IsPubSubItem(item)
    ensures IsSubscribeType(WordOf(item))
    ensures KindOf(WordOf(item)) == (match item case SubAck(_, _) => KSubscribe case Message(_, _, _) => KOther case _ => KUnsubscribe)
    ensures StartsWithP(WordOf(item)) == (match item case UnsubNone(p, _) => p case _ => item.topic.pattern)
  {
    match item
    case SubAck(t, n) => SubscribeWord(t.pattern);
    case UnsubAck(t, n) => UnsubscribeWord(t.pattern);
    case UnsubNone(p, n) => UnsubscribeWord(p);
    case Message(t, _, _) => MessageWord(t.pattern);
  }

  /** Reading a push from its type string and the elements after it. */
  lemma PushMeaning(kind: AggKind, w: string, rest: seq<Reply>)
    requires IsSubscribeType(w) && |rest| >= 1
    ensures var r := Agg(kind, [Str(w)] + rest);
            && IsSubscribeReply(r)
            && ReadPubSub(r) == Some(PubSubMessage(KindOf(w),
                 if rest[0].Str? then Some(Topic(StartsWithP(w), rest[0].str)) else None,
                 if |rest| >= 2 && rest[1].Integer? then Some(rest[1].n) else None))
  {
  }

  lemma StreamTail(s: System)
    requires s.back != []
    ensures Stream(s) != [] && Stream(s)[0] == TokenOf(s.back[0])
    ensures Stream(s)[1..] == TokensOf(s.back[1..]) + ExpectedAll(s.pipe)
    ensures TokensOf(s.back)[1..] == TokensOf(s.back[1..])
  {
    hide ExpectedAll, TokenOf;
    var a, b := TokensOf(s.back), ExpectedAll(s.pipe);
    assert a[1..] == TokensOf(s.back[1..]);
    assert (a + b)[1..] == a[1..] + b;
  }

  /** When a pub/sub item arrives, no answer is outstanding for `replies`, and the mode is subscribed. */
  lemma PubSubArrives(s: System)
    requires Inv(s) && s.back != [] && IsPubSub(TokenOf(s.back[0]))
    ensures s.client.ps.subscribed && s.client.q.replies == []
    ensures Tick(Begin(s.client.ps.subs, s.seen), TokenOf(s.back[0])).ok
    ensures OnReply(s.client, Render(s.resp3, s.back[0]))
            == ApplyPubSub(NotePush(s.client, Render(s.resp3, s.back[0])), MeaningOf(s.back[0]), Render(s.resp3, s.back[0]))
  {
    StreamTail(s);
    assert !NoPubSub(Stream(s)) by { assert IsPubSub(Stream(s)[0]); }
    PlayOk(Tick(Begin(s.client.ps.subs, s.seen), Stream(s)[0]), Stream(s)[1..]);
    RenderedMeaning(s.resp3, s.back[0]);
  }

  /** The invariant after a pub/sub item, from what happened to the bookkeeping and the queues. */
  lemma AdvanceKeeps(s: System, s': System)
    requires Inv(s) && s.back != [] && IsPubSub(TokenOf(s.back[0]))
    requires s'.back == s.back[1..] && s'.pipe == s.pipe && s'.srv == s.srv && s'.resp3 == s.resp3
    requires s'.client.flags == s.client.flags && s'.client.ps.supportsPush == s.resp3
    requires var st := Tick(Begin(s.client.ps.subs, s.seen), TokenOf(s.back[0]));
             && Begin(s'.client.ps.subs, s'.seen) == st.(nulls := 0, ok := true)
             && s'.client.ps.pendingUnsubs == s.client.ps.pendingUnsubs - st.nulls
    requires forall t :: t in s'.client.ps.subs ==>
                t in s.client.ps.subs && s'.client.ps.subs[t].unsubSent == s.client.ps.subs[t].unsubSent
    requires s'.seen <= s'.client.ps.subs.Keys
    requires if s'.client.ps.subscribed then s'.client.q == s.client.q
             else s'.client.q == Queues(s.client.q.replies + s.client.q.subReplies, [])
                  && s'.client.ps.subs == map[] && s'.client.ps.pendingUnsubs == 0
    ensures Inv(s')
    ensures LeakOf(s') == LeakOf(s)
  {
    var c, c' := s.client, s'.client;
    PubSubArrives(s);
    StreamTail(s);
    assert Stream(s') == Stream(s)[1..];
    CoreAdvance(c.ps.subs, c.ps.pendingUnsubs, s.seen, Stream(s), c'.ps.subs, c'.ps.pendingUnsubs, s'.seen);
    AdvanceServer(s, s');
    assert RegTags(Stream(s)) == RegTags(Stream(s'));
    assert c'.q.replies + c'.q.subReplies == c.q.replies + c.q.subReplies;
    if !s.resp3 {
      ShortMore(s'.back, |c.q.replies|, |c'.q.replies|);
    }
    if !c'.ps.subscribed {
      QuietAhead(Begin(c'.ps.subs, s'.seen), Stream(s'));
      QuietIsAhead(Stream(s'), |c'.q.replies|);
    }
  }

  lemma AdvanceServer(s: System, s': System)
    requires Inv(s) && s.back != [] && s'.back == s.back[1..] && s'.srv == s.srv
    requires var st := Tick(Begin(s.client.ps.subs, s.seen), TokenOf(s.back[0]));
             Begin(s'.client.ps.subs, s'.seen) == st.(nulls := 0, ok := true) && st.ok
    ensures s'.srv == Play(Begin(s'.client.ps.subs, s'.seen), TokensOf(s'.back)).live
  {
    hide CoreInv, Lined, Quiet, WellFormed, Tick, Stream, TokenOf;
    StreamTail(s);
    var st := Tick(Begin(s.client.ps.subs, s.seen), TokenOf(s.back[0]));
    PlayShift(Begin(s'.client.ps.subs, s'.seen), TokensOf(s'.back), st.nulls);
  }

  ghost function LeakOf(s: System): int {
    Leak(s.client.ps.subs, s.client.ps.pendingUnsubs, s.seen, Stream(s))
  }

  /** Acting on a SUBSCRIBE reply: one reply fewer is pending. */
  lemma ApplySubscribe(c: Client, t: Topic, m: PubSubMessage, r: Reply)
    requires !c.flags.monitoring && m.kind == KSubscribe && m.topic == Some(t) && t in c.ps.subs
    ensures var o, less := ApplyPubSub(c, m, r), c.ps.subs[t].(pendingSubs := c.ps.subs[t].pendingSubs - 1);
            o.Next? && o.c.flags == c.flags && o.c.q == c.q && o.c.ps == c.ps.(subs := c.ps.subs[t := less])
  {
    var less := c.ps.subs[t].(pendingSubs := c.ps.subs[t].pendingSubs - 1);
    NotifyQueues(WithSub(c, t, less), Some(c.ps.subs[t]), r);
    hide Notify;
  }

  lemma SubAckFinds(s: System)
    requires Inv(s) && s.back != [] && s.back[0].SubAck?
    ensures s.back[0].topic in s.client.ps.subs && !s.client.flags.monitoring
  {
    PubSubArrives(s);
    assert s.back[0].topic in Counters(s.client.ps.subs);
  }

  lemma SubAckEffect(s: System)
    requires Inv(s) && CanReceive(s) && s.back[0].SubAck?
    ensures var c, t := s.client, s.back[0].topic;
            && ReceiveStep(s).Moved? && t in c.ps.subs
            && var c' := ReceiveStep(s).s.client;
               && c'.flags == c.flags && c'.q == c.q && c'.ps.subscribed && c'.ps.supportsPush == s.resp3
               && c'.ps.pendingUnsubs == c.ps.pendingUnsubs
               && c'.ps.subs == c.ps.subs[t := c.ps.subs[t].(pendingSubs := c.ps.subs[t].pendingSubs - 1)]
  {
    PubSubArrives(s);
    SubAckFinds(s);
    RenderedMeaning(s.resp3, s.back[0]);
    SubAckOutcome(s, MeaningOf(s.back[0]), Render(s.resp3, s.back[0]));
  }

  lemma SubAckOutcome(s: System, m: PubSubMessage, r: Reply)
    requires s.back != [] && s.back[0].SubAck? && r == Render(s.resp3, s.back[0]) && IsPush(r) == s.resp3
    requires !s.resp3 ==> !s.client.ps.supportsPush
    requires m.kind == KSubscribe && m.topic == Some(s.back[0].topic)
    requires OnReply(s.client, r) == ApplyPubSub(NotePush(s.client, r), m, r)
    requires s.back[0].topic in s.client.ps.subs && !s.client.flags.monitoring
    ensures var c, t := s.client, s.back[0].topic;
            && ReceiveStep(s).Moved?
            && var c' := ReceiveStep(s).s.client;
               && c'.flags == c.flags && c'.q == c.q && c'.ps.subscribed == c.ps.subscribed && c'.ps.supportsPush == s.resp3
               && c'.ps.pendingUnsubs == c.ps.pendingUnsubs
               && c'.ps.subs == c.ps.subs[t := c.ps.subs[t].(pendingSubs := c.ps.subs[t].pendingSubs - 1)]
  {
    hide OnReply, ApplyPubSub, Render;
    ApplySubscribe(NotePush(s.client, r), s.back[0].topic, m, r);
  }

  lemma CountDown(subs: map<Topic, Callback>, t: Topic)
    requires t in subs
    ensures Counters(subs[t := subs[t].(pendingSubs := subs[t].pendingSubs - 1)]) == Counters(subs)[t := Counters(subs)[t] - 1]
  {
  }

  lemma SubAckKeeps(s: System)
    requires Inv(s) && CanReceive(s) && s.back[0].SubAck?
    ensures ReceiveStep(s).Moved? && Inv(ReceiveStep(s).s) && LeakOf(ReceiveStep(s).s) == LeakOf(s)
  {
    SubAckEffect(s);
    PubSubArrives(s);
    CountDown(s.client.ps.subs, s.back[0].topic);
    AdvanceKeeps(s, ReceiveStep(s).s);
  }

  /** Acting on an UNSUBSCRIBE reply: count it, then perhaps leave subscribed mode. */
  lemma ApplyUnsubscribe(c: Client, m: PubSubMessage, r: Reply)
    requires !c.flags.monitoring && m.kind == KUnsubscribe && m.count.Some?
    ensures var o, c1 := ApplyPubSub(c, m, r), LeaveIfDone(CountUnsubscribe(c, m.topic), m.count.value);
            o.Next? && o.c.flags == c.flags && o.c.q == c1.q && o.c.ps == c1.ps
  {
    var cb := if m.topic.Some? && m.topic.value in c.ps.subs then Some(c.ps.subs[m.topic.value]) else None;
    NotifyQueues(LeaveIfDone(CountUnsubscribe(c, m.topic), m.count.value), cb, r);
  }

  lemma UnsubAckEffect(s: System)
    requires Inv(s) && CanReceive(s) && (s.back[0].UnsubAck? || s.back[0].UnsubNone?)
    ensures var c, m := s.client, MeaningOf(s.back[0]);
            && ReceiveStep(s).Moved?
            && var c', c1 := ReceiveStep(s).s.client, LeaveIfDone(CountUnsubscribe(c, m.topic), m.count.value);
               && c'.flags == c.flags && c'.q == c1.q
               && c'.ps == c1.ps.(supportsPush := s.resp3)
  {
    PubSubArrives(s);
    var r, m := Render(s.resp3, s.back[0]), MeaningOf(s.back[0]);
    assert NotePush(s.client, r).ps == s.client.ps.(supportsPush := s.resp3);
    ApplyUnsubscribe(NotePush(s.client, r), m, r);
    PushCommutes(s.client, m, s.resp3);
  }

  lemma PushCommutes(c: Client, m: PubSubMessage, push: bool)
    requires m.count.Some?
    ensures var c2 := c.(ps := c.ps.(supportsPush := push));
            var d, e := LeaveIfDone(CountUnsubscribe(c2, m.topic), m.count.value), LeaveIfDone(CountUnsubscribe(c, m.topic), m.count.value);
            d.q == e.q && d.ps == e.ps.(supportsPush := push) && d.flags == e.flags
  {
  }

  /** The counting of `CountUnsubscribe` is that of the simulation. */
  lemma CountPlays(c: Client, seen: set<Topic>, item: Item)
    requires item.UnsubAck? || item.UnsubNone?
    ensures var st := Tick(Begin(c.ps.subs, seen), TokenOf(item));
            var c1 := CountUnsubscribe(c, MeaningOf(item).topic);
            && Begin(c1.ps.subs, SeenAfter(seen, item)) == st.(nulls := 0, ok := true)
            && c1.ps.pendingUnsubs == c.ps.pendingUnsubs - st.nulls
            && (forall t :: t in c1.ps.subs ==> t in c.ps.subs && c1.ps.subs[t] == c.ps.subs[t])
            && (seen <= c.ps.subs.Keys ==> SeenAfter(seen, item) <= c1.ps.subs.Keys)
  {
    if item.UnsubAck? && item.topic in c.ps.subs {
      assert Counters(c.ps.subs - {item.topic}) == Counters(c.ps.subs) - {item.topic};
    }
  }

  lemma UnsubAckKeeps(s: System)
    requires Inv(s) && CanReceive(s) && (s.back[0].UnsubAck? || s.back[0].UnsubNone?)
    ensures ReceiveStep(s).Moved? && Inv(ReceiveStep(s).s) && LeakOf(ReceiveStep(s).s) == LeakOf(s)
  {
    UnsubAckEffect(s);
    PubSubArrives(s);
    CountPlays(s.client, s.seen, s.back[0]);
    AdvanceKeeps(s, ReceiveStep(s).s);
  }

  /** A message in flight is for a topic that the client has a callback for. */
  lemma MessageIsLive(s: System)
    requires Inv(s) && s.back != [] && s.back[0].Message?
    ensures s.back[0].topic in s.seen && s.seen <= s.client.ps.subs.Keys && s.back[0].topic in s.client.ps.subs
    ensures !s.client.flags.monitoring
  {
    hide OnReply, ApplyPubSub, Render, Stream, Play, CoreInv, Lined, Quiet;
    PubSubArrives(s);
  }

  /** The client's side of reading a message: its callback is run, and nothing else changes. */
  lemma MessageArrives(s: System)
    requires Inv(s) && s.back != [] && s.back[0].Message?
    ensures var c, t := s.client, s.back[0].topic;
            ReceiveStep(s).Moved? && t in c.ps.subs && MessageEffect(s.resp3, c, ReceiveStep(s).s.client, c.ps.subs[t], Render(s.resp3, s.back[0]))
  {
    hide OnReply, ApplyPubSub, NotePush, Render, IsSubscribeReply, ReadPubSub, Play, Inv, Tick, Begin, Stream, MessageEffect;
    PubSubArrives(s);
    MessageIsLive(s);
    RenderedMeaning(s.resp3, s.back[0]);
    NoPushYet(s);
    MessageNotified(s, MeaningOf(s.back[0]), Render(s.resp3, s.back[0]));
  }

  lemma NoPushYet(s: System)
    requires Inv(s)
    ensures !s.resp3 ==> !s.client.ps.supportsPush
  {
  }

  predicate MessageEffect(resp3: bool, c: Client, c': Client, cb: Callback, r: Reply) {
    && c'.flags == c.flags && c'.q == c.q && c'.ps == c.ps.(supportsPush := resp3)
    && c'.log.notified == c.log.notified + if cb.hasFn then [Delivery(cb.tag, Some(r))] else []
  }

  lemma MessageNotified(s: System, m: PubSubMessage, r: Reply)
    requires s.back != [] && s.back[0].Message? && r == Render(s.resp3, s.back[0]) && IsPush(r) == s.resp3
    requires !s.resp3 ==> !s.client.ps.supportsPush
    requires m.kind == KOther && m.topic == Some(s.back[0].topic)
    requires OnReply(s.client, r) == ApplyPubSub(NotePush(s.client, r), m, r)
    requires s.back[0].topic in s.client.ps.subs && !s.client.flags.monitoring
    ensures ReceiveStep(s).Moved?
    ensures MessageEffect(s.resp3, s.client, ReceiveStep(s).s.client, s.client.ps.subs[s.back[0].topic], r)
  {
    hide OnReply, Render;
  }

  lemma MessageKeeps(s: System)
    requires Inv(s) && CanReceive(s) && s.back[0].Message?
    ensures ReceiveStep(s).Moved? && Inv(ReceiveStep(s).s) && LeakOf(ReceiveStep(s).s) == LeakOf(s)
  {
    hide OnReply, ApplyPubSub, NotePush, Render, Play, Inv, Stream, LeakOf;
    MessageIsLive(s);
    PubSubArrives(s);
    MessageArrives(s);
    AdvanceKeeps(s, ReceiveStep(s).s);
  }

  /** Reading an answer consumes the first answer token. */
  lemma AnswerShape(s: System)
    requires Inv(s) && s.back != [] && s.back[0].Answer?
    ensures var c, rest := s.client, Stream(s)[1..];
            && Stream(s)[0] == TReg(s.back[0].tag)
            && c.q.replies + c.q.subReplies != []
            && (c.q.replies + c.q.subReplies)[0].tag == s.back[0].tag
            && RegTags(rest) == Tags((c.q.replies + c.q.subReplies)[1..])
            && (c.q.replies != [] ==> Ahead(rest, |c.q.replies| - 1))
            && (c.q.replies == [] ==> c.ps.subscribed && if s.resp3 then c.ps.supportsPush else !IsLong(s.back[0].reply))
            && (if s.resp3 then c.q.replies != [] && c.ps.subscribed && !c.ps.supportsPush ==> PushWithin(rest, |c.q.replies| - 1)
                else !c.ps.supportsPush && ShortBehind(s.back[1..], if c.q.replies != [] then |c.q.replies| - 1 else 0))
  {
    StreamTail(s);
    var waiting := s.client.q.replies + s.client.q.subReplies;
    assert RegTags(Stream(s)) == [s.back[0].tag] + RegTags(Stream(s)[1..]);
    assert Tags(waiting) == RegTags(Stream(s));
    assert Tags(waiting)[0] == s.back[0].tag;
    assert Tags(waiting)[1..] == Tags(waiting[1..]);
  }

  /** A token that plays no part in the bookkeeping is read. */
  lemma SkipToken(s: System, s': System)
    requires Inv(s) && s.back != [] && !IsPubSub(TokenOf(s.back[0]))
    requires s'.back == s.back[1..] && s'.pipe == s.pipe && s'.srv == s.srv && s'.seen == s.seen
    requires s'.client.ps.subs == s.client.ps.subs && s'.client.ps.pendingUnsubs == s.client.ps.pendingUnsubs
    ensures Stream(s) != [] && Stream(s)[0] == TokenOf(s.back[0]) && Stream(s') == Stream(s)[1..]
    ensures CoreInv(s'.client.ps.subs, s'.client.ps.pendingUnsubs, s'.seen, Stream(s'))
    ensures s'.srv == Play(Begin(s'.client.ps.subs, s'.seen), TokensOf(s'.back)).live
    ensures LeakOf(s') == LeakOf(s)
    ensures NoPubSub(Stream(s)) ==> NoPubSub(Stream(s'))
  {
    var c := s.client;
    StreamTail(s);
    CoreAdvance(c.ps.subs, c.ps.pendingUnsubs, s.seen, Stream(s), c.ps.subs, c.ps.pendingUnsubs, s.seen);
    AdvanceServer(s, s');
    NoPubSubHead(Stream(s));
  }

  /** The invariant after an answer went to the callback at the head of the queues. */
  lemma AnswerAdvances(s: System, s': System)
    requires Inv(s) && s.back != [] && s.back[0].Answer?
    requires s'.back == s.back[1..] && s'.pipe == s.pipe && s'.srv == s.srv && s'.seen == s.seen && s'.resp3 == s.resp3
    requires s'.client.flags == s.client.flags && s'.client.ps == s.client.ps
    requires var q, q' := s.client.q, s'.client.q;
             if q.replies != [] then q' == Queues(q.replies[1..], q.subReplies)
             else q.subReplies != [] && q' == Queues([], q.subReplies[1..])
    ensures Inv(s') && LeakOf(s') == LeakOf(s)
  {
    hide CoreInv, Play, Begin, WellFormed, RegTags, PushWithin, NoPubSub, Stream;
    AnswerShape(s);
    SkipToken(s, s');
    var q, q' := s.client.q, s'.client.q;
    assert q'.replies + q'.subReplies == (q.replies + q.subReplies)[1..];
  }

  /** The client's side of reading an answer: it goes to the callback of its own command. */
  lemma AnswerServed(s: System)
    requires Inv(s) && CanReceive(s) && s.back[0].Answer?
    requires s.client.q.replies != [] || !s.back[0].reply.Error?
    ensures var c, r := s.client, s.back[0].reply;
            var cb := (c.q.replies + c.q.subReplies)[0];
            && c.q.replies + c.q.subReplies != [] && cb.tag == s.back[0].tag
            && OnReply(c, r).Next?
            && var c' := OnReply(c, r).c;
               && c'.flags == c.flags && c'.ps == c.ps
               && c'.log == c.log.(served := c.log.served + [Delivery(cb.tag, Some(r))])
               && c'.run == (if cb.hasFn then Running(true, Some(cb), false) else c.run)
               && (if c.q.replies != [] then c'.q == Queues(c.q.replies[1..], c.q.subReplies)
                   else c.q.subReplies != [] && c'.q == Queues([], c.q.subReplies[1..]))
  {
    AnswerShape(s);
    assert WellFormed(s.resp3, s.back[0]);
  }

  lemma AnswerKeeps(s: System)
    requires Inv(s) && CanReceive(s) && s.back[0].Answer?
    ensures ReceiveStep(s).Moved? && Kept(ReceiveStep(s).s)
    ensures !ReceiveStep(s).s.client.flags.closed ==> LeakOf(ReceiveStep(s).s) == LeakOf(s)
  {
    if s.client.q.replies != [] || !s.back[0].reply.Error? {
      AnswerServed(s);
      AnswerAdvances(s, ReceiveStep(s).s);
    }
  }

  lemma SpontaneousKeeps(s: System)
    requires Inv(s) && CanReceive(s) && s.back[0].Spontaneous?
    ensures ReceiveStep(s).Moved? && Kept(ReceiveStep(s).s) && LeakOf(ReceiveStep(s).s) == LeakOf(s)
  {
    assert WellFormed(s.resp3, s.back[0]);
    SkipToken(s, ReceiveStep(s).s);
  }

  lemma ReceiveKeeps(s: System)
    requires Inv(s) && CanReceive(s)
    ensures ReceiveStep(s).Moved? && Kept(ReceiveStep(s).s)
    ensures !ReceiveStep(s).s.client.flags.closed ==> LeakOf(ReceiveStep(s).s) == LeakOf(s)
  {
    match s.back[0]
    case Answer(_, _) => AnswerKeeps(s);
    case SubAck(_, _) => SubAckKeeps(s);
    case UnsubAck(_, _) => UnsubAckKeeps(s);
    case UnsubNone(_, _) => UnsubAckKeeps(s);
    case Message(_, _, _) => MessageKeeps(s);
    case Spontaneous(_) => SpontaneousKeeps(s);
  }

  /** What else happens to the client closes it or changes only flags. */
  lemma LocalKeeps(s: System, e: Event)
    requires Inv(s) && Allowed(s.client, e) && !e.Send? && !e.Received?
    requires !(e.Timeout? || (e.CallbackDone? && s.client.run.timingOut))
    ensures LocalStep(s, e).Moved? && Kept(LocalStep(s, e).s)
    ensures !LocalStep(s, e).s.client.flags.closed ==> LeakOf(LocalStep(s, e).s) == LeakOf(s)
  {
    var c, c' := s.client, LocalStep(s, e).s.client;
    assert c'.flags.closed || (c'.q == c.q && c'.ps == c.ps && c'.flags.monitoring == c.flags.monitoring);
  }

  /** What a command adds to the leak: a SUBSCRIBE takes over the ignored replies in flight for its topics. */
  ghost function IssueCost(s: System, cmd: Command, tag: nat, hasFn: bool): nat
  {
    if cmd.Subscribe? && !s.client.flags.disconnecting && !s.client.flags.freeing then
      IgnoredByAll(s.client.ps.subs, s.seen, Stream(s), Topics(cmd.pattern, cmd.names), Callback(tag, hasFn, 1, false))
    else 0
  }

  ghost function Cost(s: System, m: Move): nat
    requires Possible(s, m)
  {
    if m.Issue? then IssueCost(s, Classify(m.args), m.tag, m.hasFn) else 0
  }

  lemma IssueKeeps(s: System, cmd: Command, tag: nat, hasFn: bool)
    requires Inv(s) && CanIssue(s, cmd, tag, hasFn)
    ensures Kept(IssueStep(s, cmd, tag, hasFn))
    ensures LeakOf(IssueStep(s, cmd, tag, hasFn)) == LeakOf(s) + IssueCost(s, cmd, tag, hasFn)
  {
    match cmd
    case Subscribe(_, _) => SubscribeKeeps(s, cmd, tag, hasFn);
    case Unsubscribe(_, _) => UnsubscribeKeeps(s, cmd, tag, hasFn);
    case Regular => RegularKeeps(s, cmd, tag, hasFn);
  }

  lemma RunningKeeps(s: System, m: Move)
    requires Inv(s) && Possible(s, m)
    requires m.Local? ==> !(m.event.Timeout? || (m.event.CallbackDone? && s.client.run.timingOut))
    ensures Do(s, m).Moved? && Kept(Do(s, m).s)
    ensures !Do(s, m).s.client.flags.closed ==> LeakOf(Do(s, m).s) == LeakOf(s) + Cost(s, m)
  {
    match m
    case Issue(args, tag, hasFn) =>
      IssueKeeps(s, Classify(args), tag, hasFn);
    case Process(ch) => ProcessKeeps(s, ch);
    case Publish(t, source, payload) => PutOnWire(s, Message(t, source, payload));
    case PushOut(r) => PutOnWire(s, Spontaneous(r));
    case Receive => ReceiveKeeps(s);
    case Local(e) => LocalKeeps(s, e);
  }

  // ----- Timeouts -----

  /** The state as it would be had the callbacks `lost` to a timeout not left the queue. */
  ghost function Restored(s: System, lost: seq<Callback>): System {
    s.(client := Rejoined(s.client, lost))
  }

  ghost function Rejoined(c: Client, lost: seq<Callback>): Client {
    c.(q := c.q.(replies := lost + c.q.replies))
  }

  /** While a timeout runs the waiting callbacks, their answers stay in flight, and none is read. */
  ghost predicate TimingOut(s: System) {
    s.client.run.inCallback && exists lost :: Inv(Restored(s, lost))
  }

  ghost predicate Good(s: System) {
    s.client.flags.closed || (if s.client.run.timingOut then TimingOut(s) else Inv(s))
  }

  /** What the timeout loop leaves of an open context: callbacks it has run are missing at the front. */
  lemma {:induction false} TimeOutLoses(c: Client) returns (lost: seq<Callback>)
    ensures var c' := TimeOutWaiting(c);
            c'.flags.closed || (c'.run.timingOut && c'.run.inCallback
                                && c'.ps == c.ps && c'.flags == c.flags && c'.q.subReplies == c.q.subReplies
                                && c.q.replies == lost + c'.q.replies)
    decreases |c.q.replies|
  {
    lost := [];
    if c.q.replies != [] {
      var cb := c.q.replies[0];
      lost := [cb];
      if !cb.hasFn {
        var more := TimeOutLoses(TimeOutOne(c));
        lost := [cb] + more;
        assert [cb] + (more + TimeOutWaiting(c).q.replies) == lost + TimeOutWaiting(c).q.replies;
      }
    }
  }

  /** The invariant looks at the queues, the bookkeeping and the wire only. */
  lemma SameInv(s: System, s': System)
    requires Inv(s) && s'.client.q == s.client.q && s'.client.ps == s.client.ps && s'.client.flags.monitoring == s.client.flags.monitoring
    requires s' == s.(client := s'.client)
    ensures Inv(s') && LeakOf(s') == LeakOf(s)
  {
    assert Stream(s') == Stream(s);
  }

  /** The timeout loop, with `lost` already gone before. */
  lemma LoopKeeps(s: System, lost: seq<Callback>, run: Running, s': System)
    requires Inv(Restored(s, lost)) && s' == s.(client := TimeOutWaiting(s.client.(run := run)))
    ensures Good(s') && (!s'.client.flags.closed ==> LeakOf(s') == LeakOf(s))
  {
    hide Inv, LeakOf, TimeOutWaiting;
    var c := s.client.(run := run);
    var more := TimeOutLoses(c);
    if !s'.client.flags.closed {
      assert lost + (more + s'.client.q.replies) == (lost + more) + s'.client.q.replies;
      SameInv(Restored(s, lost), Restored(s', lost + more));
      SameLeak(s, s');
    }
  }

  lemma SameLeak(s: System, s': System)
    requires s'.client.ps == s.client.ps && s' == s.(client := s'.client)
    ensures LeakOf(s') == LeakOf(s)
  {
    assert Stream(s') == Stream(s);
  }

  /** A move of the restored state is a move of the state, except that nothing is received. */
  lemma RestoredMove(s: System, lost: seq<Callback>, m: Move)
    requires s.client.run.timingOut && s.client.run.inCallback && Possible(s, m) && !m.Local?
    ensures Possible(Restored(s, lost), m) && Do(s, m).Moved?
    ensures Do(Restored(s, lost), m) == Moved(Restored(Do(s, m).s, lost))
    ensures Cost(Restored(s, lost), m) == Cost(s, m)
    ensures Do(s, m).s.client.run == s.client.run && Do(s, m).s.client.flags == s.client.flags
  {
    assert Stream(Restored(s, lost)) == Stream(s);
    if m.Issue? {
      RestoredCommand(s.client, lost, Classify(m.args), m.tag, m.hasFn);
    }
  }

  lemma RestoredCommand(c: Client, lost: seq<Callback>, cmd: Command, tag: nat, hasFn: bool)
    requires !cmd.Monitor?
    ensures var (c', sent) := Perform(c, cmd, tag, hasFn);
            && Perform(Rejoined(c, lost), cmd, tag, hasFn) == (Rejoined(c', lost), sent)
            && c'.run == c.run && c'.flags == c.flags
  {
    Assoc(lost, c.q.replies, [Callback(tag, hasFn, 1, false)]);
  }

  lemma TimingOutKeeps(s: System, lost: seq<Callback>, m: Move)
    requires s.client.run.timingOut && s.client.run.inCallback && Inv(Restored(s, lost)) && Possible(s, m)
    ensures Do(s, m).Moved? && Good(Do(s, m).s)
    ensures !Do(s, m).s.client.flags.closed ==> LeakOf(Do(s, m).s) == LeakOf(s) + Cost(s, m)
  {
    hide Inv, LeakOf, TimeOutWaiting, Cost, Stream;
    if m.Local? {
      if m.event.CallbackDone? {
        LoopKeeps(s, lost, IDLE, Do(s, m).s);
        NoCost(s, m);
      } else {
        var s' := Do(s, m).s;
        assert s'.client.q == s.client.q && s'.client.ps == s.client.ps && s'.client.run == s.client.run;
        SameInv(Restored(s, lost), Restored(s', lost));
        SameLeak(s, s');
        NoCost(s, m);
      }
    } else {
      RestoredMove(s, lost, m);
      RunningKeeps(Restored(s, lost), m);
      RestoredLeak(s, lost);
      RestoredLeak(Do(s, m).s, lost);
    }
  }

  lemma NoCost(s: System, m: Move)
    requires Possible(s, m) && m.Local?
    ensures Cost(s, m) == 0
  {
  }

  lemma RestoredLeak(s: System, lost: seq<Callback>)
    ensures LeakOf(Restored(s, lost)) == LeakOf(s)
  {
    assert Stream(Restored(s, lost)) == Stream(s);
  }

  /** Only the timeout loop starts a callback of the timeout loop. */
  lemma NoTimeoutStarts(c: Client, e: Event)
    requires !c.run.timingOut && Allowed(c, e) && Step(c, e).Next? && !e.Timeout?
    ensures !Step(c, e).c.run.timingOut
  {
    hide IsSubscribeReply, ReadPubSub;
  }

  lemma MoveRuns(s: System, m: Move)
    requires !s.client.run.timingOut && Possible(s, m) && Do(s, m).Moved?
    requires !(m.Local? && m.event.Timeout?)
    ensures !Do(s, m).s.client.run.timingOut
  {
    match m
    case Issue(args, tag, hasFn) => NoTimeoutStarts(s.client, Send(args, tag, hasFn));
    case Receive => NoTimeoutStarts(s.client, Received(Render(s.resp3, s.back[0])));
    case Local(e) => NoTimeoutStarts(s.client, e);
    case _ =>
  }

  // ----- The theorems -----

  lemma MoveKeeps(s: System, m: Move)
    requires Good(s) && Possible(s, m)
    ensures Do(s, m).Moved? && Good(Do(s, m).s)
    ensures !Do(s, m).s.client.flags.closed ==> LeakOf(Do(s, m).s) == LeakOf(s) + Cost(s, m)
  {
    hide Inv, LeakOf, Cost, Do;
    if s.client.run.timingOut {
      var lost :| Inv(Restored(s, lost));
      TimingOutKeeps(s, lost, m);
    } else if m.Local? && m.event.Timeout? {
      TimeoutKeeps(s, m);
    } else {
      RunningKeeps(s, m);
      MoveRuns(s, m);
    }
  }

  lemma TimeoutKeeps(s: System, m: Move)
    requires Inv(s) && !s.client.run.timingOut && Possible(s, m) && m == Local(Timeout)
    ensures Do(s, m).Moved? && Good(Do(s, m).s)
    ensures !Do(s, m).s.client.flags.closed ==> LeakOf(Do(s, m).s) == LeakOf(s) + Cost(s, m)
  {
    hide Inv, LeakOf, TimeOutWaiting;
    var none: seq<Callback> := [];
    assert none + s.client.q.replies == s.client.q.replies;
    SameInv(s, Restored(s, none));
    if s.client.q.replies != [] || s.client.q.subReplies != [] {
      assert Do(s, m).s == s.(client := TimeOutWaiting(s.client));
      LoopKeeps(s, none, s.client.run, Do(s, m).s);
    }
  }

  /** `s'` is reached from `s` by the moves. */
  ghost predicate Reaches(s: System, ms: seq<Move>, s': System)
    decreases ms
  {
    if ms == [] then s' == s
    else Possible(s, ms[0]) && Do(s, ms[0]).Moved? && Reaches(Do(s, ms[0]).s, ms[1..], s')
  }

  ghost predicate Reachable(s: System) {
    exists resp3, pushHandler, ms :: Reaches(Start(resp3, pushHandler), ms, s)
  }

  lemma {:induction false} ReachesKeeps(s: System, ms: seq<Move>, s': System)
    requires Good(s) && Reaches(s, ms, s')
    ensures Good(s')
    decreases ms
  {
    if ms != [] {
      MoveKeeps(s, ms[0]);
      ReachesKeeps(Do(s, ms[0]).s, ms[1..], s');
    }
  }

  lemma StartIsGood(resp3: bool, pushHandler: bool)
    ensures Good(Start(resp3, pushHandler))
  {
    var s := Start(resp3, pushHandler);
    assert Stream(s) == [];
    assert Tags([]) == [];
  }

  lemma ReachableIsGood(s: System)
    requires Reachable(s)
    ensures Good(s)
  {
    var resp3, pushHandler, ms :| Reaches(Start(resp3, pushHandler), ms, s);
    StartIsGood(resp3, pushHandler);
    ReachesKeeps(Start(resp3, pushHandler), ms, s);
  }

  /** No assertion of the client fails and no array bound is violated, whatever happens next. */
  lemma NeverCrashes(s: System, m: Move)
    requires Reachable(s) && Possible(s, m)
    ensures Do(s, m) != Crashed
  {
    ReachableIsGood(s);
    MoveKeeps(s, m);
  }

  /**
   * An answer reaches the callback of the command it answers. An error that meets an empty
   * `replies` list is taken for a connection-level error and closes the connection instead.
   */
  lemma AnswerReachesOwner(s: System)
    requires Reachable(s) && Possible(s, Receive) && s.back[0].Answer?
    ensures Do(s, Receive).Moved?
    ensures var c, c', a := s.client, Do(s, Receive).s.client, s.back[0];
            if a.reply.Error? && c.q.replies == [] then c'.flags.closed
            else c'.log.served == c.log.served + [Delivery(a.tag, Some(a.reply))]
  {
    ReachableIsGood(s);
    MoveKeeps(s, Receive);
    if s.client.q.replies != [] || !s.back[0].reply.Error? {
      AnswerServed(s);
    }
  }

  lemma {:induction false} ReachesMore(s: System, ms: seq<Move>, s1: System, m: Move)
    requires Reaches(s, ms, s1) && Possible(s1, m) && Do(s1, m).Moved?
    ensures Reaches(s, ms + [m], Do(s1, m).s)
    decreases ms
  {
    if ms == [] {
      assert Reaches(Do(s1, m).s, [], Do(s1, m).s);
    } else {
      hide Possible, Do;
      assert (ms + [m])[1..] == ms[1..] + [m];
      ReachesMore(Do(s, ms[0]).s, ms[1..], s1, m);
    }
  }

  lemma ReachableMore(s: System, m: Move)
    requires Reachable(s) && Possible(s, m) && Do(s, m).Moved?
    ensures Reachable(Do(s, m).s)
  {
    hide Reaches, Possible, Do;
    var resp3, pushHandler, ms :| Reaches(Start(resp3, pushHandler), ms, s);
    ReachesMore(Start(resp3, pushHandler), ms, s, m);
  }

  // A command in subscribed mode that the server refuses: SUBSCRIBE of a channel, then another command,
  // both handled by the server; the first reply is read and its callback returns.

  const SUB_CALLBACK := Callback(0, true, 1, false)
  const PING_CALLBACK := Callback(1, true, 1, false)

  function Asked(n: string): System {
    var c := Initial(false).(q := Queues([], [PING_CALLBACK]),
                             ps := PubSubState(map[Topic(false, n) := SUB_CALLBACK], 0, true, false),
                             log := History([1], [], [], {}));
    System(true, c, [ReqSub(false, [n]), ReqRegular(1)], {}, [], {})
  }

  function Handled(n: string, text: string): System {
    Asked(n).(pipe := [], srv := {Topic(false, n)}, back := [SubAck(Topic(false, n), 1), Answer(1, Error(text))])
  }

  function Refused(n: string, text: string): System {
    var c := Asked(n).client;
    var ps := PubSubState(map[Topic(false, n) := SUB_CALLBACK.(pendingSubs := 0)], 0, true, true);
    var ack := Render(true, SubAck(Topic(false, n), 1));
    Handled(n, text).(client := c.(ps := ps, log := c.log.(notified := [Delivery(0, Some(ack))])),
                      back := [Answer(1, Error(text))], seen := {Topic(false, n)})
  }

  function Subscriber(n: string): System {
    var c := Initial(false).(ps := PubSubState(map[Topic(false, n) := SUB_CALLBACK], 0, true, false));
    System(true, c, [ReqSub(false, [n])], {}, [], {})
  }

  lemma FirstCommand(n: string)
    ensures CanIssue(Start(true, false), Subscribe(false, [n]), 0, true)
    ensures IssueStep(Start(true, false), Subscribe(false, [n]), 0, true) == Subscriber(n)
  {
    OneTopic(n);
    var ts := [Topic(false, n)];
    assert ts[1..] == [];
    assert NoCarry(map[], ts, SUB_CALLBACK);
    SubscribeOfOne(map[], n, SUB_CALLBACK);
  }

  lemma SecondCommand(n: string)
    ensures CanIssue(Subscriber(n), Regular, 1, true)
    ensures IssueStep(Subscriber(n), Regular, 1, true) == Asked(n)
  {
  }

  lemma AskedIsReachable(n: string)
    ensures Reachable(Asked(n))
  {
    hide Classify, IssueStep, CanIssue;
    var s0 := Start(true, false);
    assert Reaches(s0, [], s0);
    PlainWords(n);
    PingIsRegular();
    FirstCommand(n);
    SecondCommand(n);
    ReachableMore(s0, Issue(["subscribe", n], 0, true));
    ReachableMore(Subscriber(n), Issue(PING, 1, true));
  }

  lemma OneTopic(n: string)
    ensures Topics(false, [n]) == [Topic(false, n)]
  {
    assert [n][1..] == [];
  }

  lemma OneSubscribed(none: set<Topic>, t: Topic)
    requires none == {}
    ensures Subscribing(none, [t]) == ([SubAck(t, 1)], {t})
  {
    var ts := [t];
    var rest := Subscribing(none + {ts[0]}, ts[1..]);
    assert ts[1..] == [] && none + {ts[0]} == {t};
    assert rest == ([], {t}) && |{t}| == 1;
    assert [SubAck(t, 1)] + rest.0 == [SubAck(t, 1)];
    assert Subscribing(none, ts) == ([SubAck(ts[0], |none + {ts[0]}|)] + rest.0, rest.1);
  }

  lemma HandledIsReachable(n: string, text: string)
    ensures Reachable(Handled(n, text))
  {
    hide Reachable;
    AskedIsReachable(n);
    var s2, t := Asked(n), Topic(false, n);
    var first, second := Process(Choice(Nil, [])), Process(Choice(Error(text), []));
    OneTopic(n);
    OneSubscribed(s2.srv, t);
    ReachableMore(s2, first);
    var s3 := Do(s2, first).s;
    assert s3 == s2.(pipe := [ReqRegular(1)], srv := {t}, back := [SubAck(t, 1)]);
    ReachableMore(s3, second);
    assert Do(s3, second).s == Handled(n, text);
  }

  /** Reading a SUBSCRIBE reply with a callback that has a function. */
  lemma AckRead(c: Client, t: Topic, m: PubSubMessage, r: Reply)
    requires IsPush(r) && IsSubscribeReply(r) && ReadPubSub(r) == Some(m) && m.kind.KSubscribe? && m.topic == Some(t)
    requires c.q.replies == [] && c.ps.subscribed && t in c.ps.subs && c.ps.subs[t].hasFn
    ensures var cb := c.ps.subs[t];
      OnReply(c, r) == Next(c.(ps := c.ps.(subs := c.ps.subs[t := cb.(pendingSubs := cb.pendingSubs - 1)], supportsPush := true),
                               run := Running(true, Some(cb), false),
                               log := c.log.(notified := c.log.notified + [Delivery(cb.tag, Some(r))])))
  {
    hide IsSubscribeReply, ReadPubSub;
  }

  /** In the callback of the first reply. */
  function Subscribed(n: string, text: string): System {
    Refused(n, text).(client := Refused(n, text).client.(run := Running(true, Some(SUB_CALLBACK), false)))
  }

  lemma AckStep(n: string, text: string)
    ensures ReceiveStep(Handled(n, text)) == Moved(Subscribed(n, text))
  {
    hide OnReply, Render, IsSubscribeReply, ReadPubSub, IsPush;
    var s, t := Handled(n, text), Topic(false, n);
    var r := Render(true, SubAck(t, 1));
    RenderedMeaning(true, SubAck(t, 1));
    AckRead(s.client, t, MeaningOf(SubAck(t, 1)), r);
    assert s.client.ps.subs[t := SUB_CALLBACK.(pendingSubs := 0)] == map[t := SUB_CALLBACK.(pendingSubs := 0)];
    assert s.back[1..] == [Answer(1, Error(text))];
    assert s.seen + {t} == {t};
  }

  lemma RefusedIsReachable(n: string, text: string)
    ensures Reachable(Refused(n, text))
  {
    hide Reachable, ReceiveStep, Render;
    HandledIsReachable(n, text);
    AckStep(n, text);
    ReachableMore(Handled(n, text), Receive);
    ReachableMore(Subscribed(n, text), Local(CallbackDone));
  }

  /** That case is reached: the callback that waits for the error gets NULL, and the connection is closed. */
  lemma ErrorMissesItsOwner(n: string, text: string)
    ensures var s := Refused(n, text);
      && Reachable(s) && Possible(s, Receive) && s.back[0] == Answer(1, Error(text))
      && s.client.q == Queues([], [PING_CALLBACK])
      && Do(s, Receive).Moved?
      && var c' := Do(s, Receive).s.client;
         c'.flags.closed && c'.log.served == [Delivery(1, None)]
  {
    RefusedIsReachable(n, text);
    assert NullDeliveries([PING_CALLBACK]) == [Delivery(1, None)];
    assert [] + [PING_CALLBACK] == [PING_CALLBACK];
  }

  /** A published message finds the subscription callback of its topic. */
  lemma MessageReachesSubscriber(s: System)
    requires Reachable(s) && Possible(s, Receive) && s.back[0].Message?
    ensures Do(s, Receive).Moved?
    ensures var c, c', t := s.client, Do(s, Receive).s.client, s.back[0].topic;
            && t in c.ps.subs
            && c'.log.notified == c.log.notified +
                 if c.ps.subs[t].hasFn then [Delivery(c.ps.subs[t].tag, Some(Render(s.resp3, s.back[0])))] else []
  {
    ReachableIsGood(s);
    MessageArrives(s);
  }

  /** Subscribed mode is off only when no pub/sub reply is in flight and the server holds no topic. */
  lemma ModeIsSafe(s: System)
    requires Reachable(s) && !s.client.flags.closed && !s.client.ps.subscribed
    ensures NoPubSub(Stream(s)) && s.srv == {} && s.client.ps.subs == map[] && s.client.q.subReplies == []
  {
    ReachableIsGood(s);
    NoPubSubAppend(TokensOf(s.back), ExpectedAll(s.pipe));
    PlayQuiet(Begin(s.client.ps.subs, s.seen), TokensOf(s.back));
  }

  /**
   * An UNSUBSCRIBE reply ends subscribed mode exactly when nothing more of pub/sub is in flight,
   * the server held no topic when it replied, and `pending_unsubs` has not run ahead.
   */
  lemma ModeIsLeftExactly(s: System)
    requires Reachable(s) && Possible(s, Receive) && (s.back[0].UnsubAck? || s.back[0].UnsubNone?)
    ensures Do(s, Receive).Moved?
    ensures var s' := Do(s, Receive).s;
            !s'.client.ps.subscribed <==> NoPubSub(Stream(s')) && s'.seen == {} && LeakOf(s) == 0
  {
    hide Inv, Stream, Begin, Tick, Play, LeakOf, OnReply, ApplyPubSub, Render, LeaveIfDone, NoPubSub, Reachable;
    ReachableIsGood(s);
    UnsubAckKeeps(s);
    PubSubArrives(s);
    UnsubAckEffect(s);
    LastReplyCounts(s);
    var s', c := Do(s, Receive).s, s.client;
    var c1 := CountUnsubscribe(c, MeaningOf(s.back[0]).topic);
    assert s'.seen == SeenAfter(s.seen, s.back[0]);
    LeavesExactly(c1, s', c.ps.subscribed);
  }

  lemma LeavesExactly(c1: Client, s': System, was: bool)
    requires Inv(s') && was && c1.ps.subscribed
    requires s'.client.ps == LeaveIfDone(c1, |s'.seen|).ps.(supportsPush := s'.resp3)
    ensures !s'.client.ps.subscribed <==> NoPubSub(Stream(s')) && s'.seen == {} && LeakOf(s') == 0
  {
    if NoPubSub(Stream(s')) {
      PlayQuiet(Begin(s'.client.ps.subs, s'.seen), Stream(s'));
      if s'.seen == {} && LeakOf(s') == 0 {
        NothingLeft(s'.client.ps.subs, s'.client.ps.pendingUnsubs, Stream(s'));
      }
    }
  }

  lemma NothingLeft(subs: map<Topic, Callback>, pu: int, toks: seq<Token>)
    requires CoreInv(subs, pu, {}, toks) && Play(Begin(subs, {}), toks) == Begin(subs, {})
    requires Leak(subs, pu, {}, toks) == 0
    ensures subs == map[] && pu == 0
  {
    assert Counters(subs).Keys == subs.Keys;
    assert subs.Keys == {};
  }

  /** The count in an UNSUBSCRIBE reply is the number of topics left. */
  lemma LastReplyCounts(s: System)
    requires Inv(s) && CanReceive(s) && (s.back[0].UnsubAck? || s.back[0].UnsubNone?)
    ensures MeaningOf(s.back[0]).count == Some(|SeenAfter(s.seen, s.back[0])|)
  {
    PubSubArrives(s);
  }

  ghost function TotalCost(s: System, ms: seq<Move>, s': System): nat
    requires Reaches(s, ms, s')
    decreases ms
  {
    if ms == [] then 0 else Cost(s, ms[0]) + TotalCost(Do(s, ms[0]).s, ms[1..], s')
  }

  lemma {:induction false} ClosedStays(s: System, ms: seq<Move>, s': System)
    requires Reaches(s, ms, s') && s.client.flags.closed
    ensures s' == s
  {
  }

  /**
   * The leak is nothing but the ignored replies taken over by SUBSCRIBE commands. With
   * `ModeIsLeftExactly`: subscribed mode is left when it should be, in every run in which no
   * SUBSCRIBE is sent for a topic while the reply to a redundant UNSUBSCRIBE of it is in flight.
   */
  lemma {:induction false} LeakIsExact(s: System, ms: seq<Move>, s': System)
    requires Good(s) && !s.client.flags.closed && Reaches(s, ms, s') && !s'.client.flags.closed
    ensures LeakOf(s') == LeakOf(s) + TotalCost(s, ms, s')
    decreases ms
  {
    if ms != [] {
      MoveKeeps(s, ms[0]);
      var next := Do(s, ms[0]).s;
      if next.client.flags.closed {
        ClosedStays(next, ms[1..], s');
      } else {
        LeakIsExact(next, ms[1..], s');
      }
    }
  }

  lemma PlainWords(n: string)
    ensures Classify(["subscribe", n]) == Subscribe(false, [n])
    ensures Classify(["unsubscribe", n]) == Unsubscribe(false, [n])
  {
    assert "subscribe" + "\r\n" == "subscribe\r\n" && "unsubscribe" + "\r\n" == "unsubscribe\r\n";
    assert ("subscribe\r\n")[..11] == "subscribe\r\n" && ("unsubscribe\r\n")[..13] == "unsubscribe\r\n";
    assert ["subscribe", n][1..] == [n] && ["unsubscribe", n][1..] == [n];
    assert Lower('u') != Lower('s');
  }

  /** SUBSCRIBE, UNSUBSCRIBE twice, SUBSCRIBE again, all of one channel, before any reply. */
  function Resubscription(n: string): seq<Move> {
    [Issue(["subscribe", n], 0, true), Issue(["unsubscribe", n], 0, true),
     Issue(["unsubscribe", n], 0, true), Issue(["subscribe", n], 0, true)]
  }

  /** The system after the first `k` of these commands. */
  function Stage(n: string, k: nat): System
    requires k <= 4
  {
    var t := Topic(false, n);
    var ps := if k == 0 then PubSubState(map[], 0, false, false)
              else if k == 1 then PubSubState(map[t := Callback(0, true, 1, false)], 0, true, false)
              else if k == 2 then PubSubState(map[t := Callback(0, true, 1, true)], 0, true, false)
              else if k == 3 then PubSubState(map[t := Callback(0, true, 1, true)], 1, true, false)
              else PubSubState(map[t := Callback(0, true, 2, false)], 1, true, false);
    var sub, unsub := ReqSub(false, [n]), ReqUnsub(false, [n]);
    Start(true, false).(client := Initial(false).(ps := ps), pipe := [sub, unsub, unsub, sub][..k])
  }

  function Resubscribed(n: string): System {
    Stage(n, 4)
  }

  lemma EachOfOne(subs: map<Topic, Callback>, pu: int, n: string)
    ensures UnsubscribeEach(subs, pu, false, [n]) == UnsubscribeOne(subs, pu, Topic(false, n))
  {
    var u := UnsubscribeOne(subs, pu, Topic(false, n));
    assert [n][1..] == [];
    assert UnsubscribeEach(u.0, u.1, false, []) == u;
  }

  lemma SubscribeOfOne(subs: map<Topic, Callback>, n: string, cb: Callback)
    ensures SubscribeAll(subs, false, [n], cb)
         == subs[Topic(false, n) := if Topic(false, n) in subs then cb.(pendingSubs := subs[Topic(false, n)].pendingSubs + 1) else cb]
  {
    assert [n][1..] == [];
  }

  lemma StageCommand(n: string, k: nat)
    requires k < 4
    ensures OnCommand(Stage(n, k).client, Resubscription(n)[k].args, 0, true) == (Stage(n, k + 1).client, true)
  {
    PlainWords(n);
    var t, ps := Topic(false, n), Stage(n, k).client.ps;
    var cb := Callback(0, true, 1, false);
    if k == 0 || k == 3 {
      SubscribeOfOne(ps.subs, n, cb);
      assert Stage(n, k + 1).client.ps.subs == SubscribeAll(ps.subs, false, [n], cb);
    } else {
      EachOfOne(ps.subs, ps.pendingUnsubs, n);
      assert Stage(n, k + 1).client.ps.subs == UnsubscribeEach(ps.subs, ps.pendingUnsubs, false, [n]).0;
    }
  }

  lemma StageStep(n: string, k: nat)
    requires k < 4
    ensures Possible(Stage(n, k), Resubscription(n)[k])
    ensures Do(Stage(n, k), Resubscription(n)[k]) == Moved(Stage(n, k + 1))
  {
    StageCommand(n, k);
    PlainWords(n);
    assert Topics(false, [n])[1..] == [] by { assert [n][1..] == []; }
    var sub, unsub := ReqSub(false, [n]), ReqUnsub(false, [n]);
    assert [sub, unsub, unsub, sub][..k + 1] == [sub, unsub, unsub, sub][..k] + [[sub, unsub, unsub, sub][k]];
  }

  lemma {:induction false} ResubscriptionRuns(n: string, k: nat)
    requires k <= 4
    ensures Reaches(Stage(n, k), Resubscription(n)[k..], Stage(n, 4))
    decreases 4 - k
  {
    if k < 4 {
      StageStep(n, k);
      assert Resubscription(n)[k..][1..] == Resubscription(n)[k + 1..];
      ResubscriptionRuns(n, k + 1);
    }
  }

  lemma ResubscribedStream(n: string)
    ensures var t := Topic(false, n);
            Stream(Resubscribed(n)) == [TSub(t), TUnsub(t, None), TUnsub(t, None), TSub(t)]
  {
    var s, t := Resubscribed(n), Topic(false, n);
    assert Topics(false, [n]) == [t] by { assert [n][1..] == []; }
    var sub, unsub := ReqSub(false, [n]), ReqUnsub(false, [n]);
    assert Expected(sub) == [TSub(t)] && Expected(unsub) == [TUnsub(t, None)];
    assert s.pipe == [sub, unsub, unsub] + [sub];
    ExpectedSnoc([sub, unsub, unsub], sub);
    assert [sub, unsub, unsub] == [sub, unsub] + [unsub];
    ExpectedSnoc([sub, unsub], unsub);
    assert [sub, unsub] == [sub] + [unsub];
    ExpectedSnoc([sub], unsub);
    assert [sub] == [] + [sub];
    ExpectedSnoc([], sub);
  }

  lemma ResubscribedPlay(st: Sim, t: Topic)
    requires st == Sim(map[t := 2], {}, 0, true)
    ensures Play(st, [TSub(t), TUnsub(t, None), TUnsub(t, None), TSub(t)]).nulls == 0
  {
    var a, b := [TSub(t), TUnsub(t, None)], [TUnsub(t, None), TSub(t)];
    assert [TSub(t), TUnsub(t, None), TUnsub(t, None), TSub(t)] == a + b;
    PlayAppend(st, a, b);
    assert a == [TSub(t)] + [TUnsub(t, None)] && b == [TUnsub(t, None)] + [TSub(t)];
    PlayAppend(st, [TSub(t)], [TUnsub(t, None)]);
    PlayOne(st, TSub(t));
    PlayOne(Play(st, [TSub(t)]), TUnsub(t, None));
    PlayAppend(Play(st, a), [TUnsub(t, None)], [TSub(t)]);
    PlayOne(Play(st, a), TUnsub(t, None));
    PlayOne(Play(Play(st, a), [TUnsub(t, None)]), TSub(t));
  }

  /** The leak is real: after that sequence `pending_unsubs` is one too many, for good. */
  lemma LeakHappens(n: string)
    ensures Reachable(Resubscribed(n)) && LeakOf(Resubscribed(n)) == 1
  {
    ResubscriptionRuns(n, 0);
    assert Resubscription(n)[0..] == Resubscription(n);
    assert Stage(n, 0) == Start(true, false) by {
      var none: seq<Request> := [];
      assert [ReqSub(false, [n]), ReqUnsub(false, [n]), ReqUnsub(false, [n]), ReqSub(false, [n])][..0] == none;
    }
    var s, t := Resubscribed(n), Topic(false, n);
    ResubscribedStream(n);
    assert Counters(s.client.ps.subs) == map[t := 2];
    ResubscribedPlay(Begin(s.client.ps.subs, s.seen), t);
  }
}
