/**
 * What is in flight between the client and the server, as the client will meet it: a list of
 * tokens, and a simulation of the client's pub/sub bookkeeping over that list.
 */
module InFlight {
  import opened Common
  import opened AsyncClient
  import opened PubSub

  datatype Token =
    | TReg(tag: nat)
    | TSub(topic: Topic)
    | TUnsub(topic: Topic, count: Option<nat>)   // the count is known once the server has replied
    | TNone(count: Option<nat>)
    | TAllOf(pattern: bool)
    | TMsg(topic: Topic)
    | TOther

  function TokenOf(item: Item): Token {
    match item
    case Answer(tag, _) => TReg(tag)
    case SubAck(t, _) => TSub(t)
    case UnsubAck(t, n) => TUnsub(t, Some(n))
    case UnsubNone(_, n) => TNone(Some(n))
    case Message(t, _, _) => TMsg(t)
    case Spontaneous(_) => TOther
  }

  function TokensOf(items: seq<Item>): (ts: seq<Token>)
    ensures |ts| == |items| && forall i :: 0 <= i < |items| ==> ts[i] == TokenOf(items[i])
  {
    seq(|items|, i requires 0 <= i < |items| => TokenOf(items[i]))
  }

  function Subs(ts: seq<Topic>): (r: seq<Token>)
    ensures |r| == |ts| && forall i :: 0 <= i < |ts| ==> r[i] == TSub(ts[i])
  {
    seq(|ts|, i requires 0 <= i < |ts| => TSub(ts[i]))
  }

  function Unsubs(ts: seq<Topic>): (r: seq<Token>)
    ensures |r| == |ts| && forall i :: 0 <= i < |ts| ==> r[i] == TUnsub(ts[i], None)
  {
    seq(|ts|, i requires 0 <= i < |ts| => TUnsub(ts[i], None))
  }

  function Expected(req: Request): seq<Token> {
    match req
    case ReqRegular(tag) => [TReg(tag)]
    case ReqSub(p, names) => Subs(Topics(p, names))
    case ReqUnsub(p, names) => if names == [] then [TAllOf(p)] else Unsubs(Topics(p, names))
  }

  function ExpectedEach(pipe: seq<Request>): (r: seq<seq<Token>>)
    ensures |r| == |pipe| && forall i :: 0 <= i < |pipe| ==> r[i] == Expected(pipe[i])
  {
    seq(|pipe|, i requires 0 <= i < |pipe| => Expected(pipe[i]))
  }

  function ExpectedAll(pipe: seq<Request>): seq<Token> {
    Flat(ExpectedEach(pipe))
  }

  lemma ExpectedSnoc(pipe: seq<Request>, req: Request)
    ensures ExpectedAll(pipe + [req]) == ExpectedAll(pipe) + Expected(req)
  {
    assert ExpectedEach(pipe + [req]) == ExpectedEach(pipe) + [Expected(req)];
    FlatAppend(ExpectedEach(pipe), [Expected(req)]);
    FlatOne(Expected(req));
  }

  lemma ExpectedHead(pipe: seq<Request>)
    requires pipe != []
    ensures ExpectedAll(pipe) == Expected(pipe[0]) + ExpectedAll(pipe[1..])
  {
    assert ExpectedEach(pipe) == [Expected(pipe[0])] + ExpectedEach(pipe[1..]);
    FlatCons(Expected(pipe[0]), ExpectedEach(pipe[1..]));
  }

  // ----- The simulation -----

  /**
   * `pending` holds the counters of the subscription callbacks, `live` the server's topics,
   * `nulls` the UNSUBSCRIBE replies met that find no callback. `ok` is lost when a SUBSCRIBE reply
   * finds no callback waiting for it, a message has no subscription, or a count is wrong.
   */
  datatype Sim = Sim(pending: map<Topic, int>, live: set<Topic>, nulls: nat, ok: bool)

  ghost function Tick(st: Sim, tok: Token): Sim {
    match tok
    case TReg(_) => st
    case TOther => st
    case TSub(t) =>
      if t in st.pending && st.pending[t] > 0
      then st.(pending := st.pending[t := st.pending[t] - 1], live := st.live + {t})
      else st.(ok := false)
    case TUnsub(t, n) =>
      var st := st.(live := st.live - {t}, ok := st.ok && (n.Some? ==> n.value == |st.live - {t}|));
      if t !in st.pending then st.(nulls := st.nulls + 1)
      else if st.pending[t] == 0 then st.(pending := st.pending - {t})
      else st
    case TNone(n) => st.(nulls := st.nulls + 1, ok := st.ok && (n.Some? ==> n.value == |st.live|))
    case TAllOf(p) =>
      var ts := OfKind(st.live, p);
      if ts == {} then st.(nulls := st.nulls + 1)
      else st.(live := st.live - ts, pending := Drop(st.pending, ts), ok := st.ok && ts <= st.pending.Keys)
    case TMsg(t) => st.(ok := st.ok && t in st.live)
  }

  /** The callbacks that survive an UNSUBSCRIBE reply for each of `ts`. */
  ghost function Drop(pending: map<Topic, int>, ts: set<Topic>): map<Topic, int> {
    map t | t in pending && !(t in ts && pending[t] == 0) :: pending[t]
  }

  ghost function Play(st: Sim, toks: seq<Token>): Sim
    decreases toks
  {
    if toks == [] then st else Play(Tick(st, toks[0]), toks[1..])
  }

  lemma {:induction false} PlayAppend(st: Sim, a: seq<Token>, b: seq<Token>)
    ensures Play(st, a + b) == Play(Play(st, a), b)
    decreases a
  {
    if a == [] {
      assert a + b == b;
    } else {
      assert (a + b)[0] == a[0] && (a + b)[1..] == a[1..] + b;
      PlayAppend(Tick(st, a[0]), a[1..], b);
    }
  }

  lemma TickShift(st: Sim, tok: Token, k: nat)
    ensures Tick(st.(nulls := st.nulls + k), tok) == Tick(st, tok).(nulls := Tick(st, tok).nulls + k)
    ensures Tick(st, tok).nulls >= st.nulls
  {
  }

  /** Counting from `k` instead of 0 only shifts the count. */
  lemma {:induction false} PlayShift(st: Sim, toks: seq<Token>, k: nat)
    ensures Play(st.(nulls := st.nulls + k), toks) == Play(st, toks).(nulls := Play(st, toks).nulls + k)
    ensures Play(st, toks).nulls >= st.nulls
    decreases toks
  {
    if toks != [] {
      TickShift(st, toks[0], k);
      PlayShift(Tick(st, toks[0]), toks[1..], k);
    }
  }

  lemma {:induction false} PlayOk(st: Sim, toks: seq<Token>)
    requires Play(st, toks).ok
    ensures st.ok
    decreases toks
  {
    if toks != [] {
      PlayOk(Tick(st, toks[0]), toks[1..]);
    }
  }

  predicate IsPubSub(tok: Token) {
    !tok.TReg? && !tok.TOther?
  }

  predicate NoPubSub(toks: seq<Token>) {
    forall i :: 0 <= i < |toks| ==> !IsPubSub(toks[i])
  }

  lemma {:induction false} PlayQuiet(st: Sim, toks: seq<Token>)
    requires NoPubSub(toks)
    ensures Play(st, toks) == st
    decreases toks
  {
    if toks != [] {
      assert !IsPubSub(toks[0]);
      forall i | 0 <= i < |toks[1..]|
        ensures !IsPubSub(toks[1..][i])
      {
        assert !IsPubSub(toks[i + 1]);
      }
      PlayQuiet(st, toks[1..]);
    }
  }

  /** With no callback, no topic and no unmatched reply to come, no pub/sub token is left. */
  lemma {:induction false} QuietAhead(st: Sim, toks: seq<Token>)
    requires st.pending == map[] && st.live == {}
    requires Play(st, toks).ok && Play(st, toks).nulls == st.nulls
    ensures NoPubSub(toks)
    decreases toks
  {
    if toks != [] {
      PlayOk(Tick(st, toks[0]), toks[1..]);
      PlayShift(Tick(st, toks[0]), toks[1..], 0);
      assert !IsPubSub(toks[0]);
      QuietAhead(st, toks[1..]);
      forall i | 0 <= i < |toks|
        ensures !IsPubSub(toks[i])
      {
        if i > 0 { assert toks[i] == toks[1..][i - 1]; }
      }
    }
  }

  // ----- A SUBSCRIBE is sent: one more reply is expected for its topic -----

  /** How many replies in flight for `t` find no callback: those an earlier UNSUBSCRIBE left to be ignored. */
  ghost function Ignored(st: Sim, toks: seq<Token>, t: Topic): nat
    decreases toks
  {
    if toks == [] then 0
    else (if toks[0].TUnsub? && toks[0].topic == t && t !in st.pending then 1 else 0)
         + Ignored(Tick(st, toks[0]), toks[1..], t)
  }

  function Bump(pending: map<Topic, int>, t: Topic): map<Topic, int> {
    pending[t := if t in pending then pending[t] + 1 else 1]
  }

  predicate NonNegative(pending: map<Topic, int>) {
    forall t :: t in pending ==> pending[t] >= 0
  }

  /** `b` is `a` with one more SUBSCRIBE reply expected for `t`. */
  ghost predicate Bumped(a: Sim, b: Sim, t: Topic) {
    && a.ok && b.ok && a.live == b.live && NonNegative(a.pending)
    && b.pending == Bump(a.pending, t)
  }

  lemma TickBumped(a: Sim, b: Sim, t: Topic, tok: Token)
    requires Bumped(a, b, t) && Tick(a, tok).ok
    ensures Bumped(Tick(a, tok), Tick(b, tok), t)
    ensures Tick(a, tok).nulls - Tick(b, tok).nulls ==
            a.nulls - b.nulls + if tok.TUnsub? && tok.topic == t && t !in a.pending then 1 else 0
  {
    match tok
    case TSub(u) => BumpedSub(a.pending, t, u);
    case TUnsub(u, n) => BumpedUnsub(a.pending, t, u);
    case TAllOf(p) => BumpedDrop(a.pending, t, OfKind(a.live, p));
    case _ =>
  }

  lemma BumpedSub(pending: map<Topic, int>, t: Topic, u: Topic)
    requires NonNegative(pending) && u in pending && pending[u] > 0
    ensures var a, b := pending[u := pending[u] - 1], Bump(pending, t);
            u in b && b[u] > 0 && b[u := b[u] - 1] == Bump(a, t) && NonNegative(a)
  {
  }

  lemma BumpedUnsub(pending: map<Topic, int>, t: Topic, u: Topic)
    requires NonNegative(pending)
    ensures var b := Bump(pending, t);
            && (u !in pending && u != t ==> u !in b)
            && (u == t ==> u in b && b[u] != 0)
            && (u in pending && u != t ==> u in b && b[u] == pending[u])
            && (u == t ==> Bump(pending - {u}, t) == if u in pending && pending[u] == 0 then b else Bump(pending - {u}, t))
            && (u != t ==> b - {u} == Bump(pending - {u}, t))
  {
  }

  lemma BumpedDrop(pending: map<Topic, int>, t: Topic, ts: set<Topic>)
    requires NonNegative(pending)
    ensures Drop(Bump(pending, t), ts) == Bump(Drop(pending, ts), t) && NonNegative(Drop(pending, ts))
    ensures pending.Keys <= Bump(pending, t).Keys
  {
  }

  lemma {:induction false} PlayBumped(a: Sim, b: Sim, t: Topic, toks: seq<Token>)
    requires Bumped(a, b, t) && Play(a, toks).ok
    ensures Bumped(Play(a, toks), Play(b, toks), t)
    ensures Play(a, toks).nulls - Play(b, toks).nulls == a.nulls - b.nulls + Ignored(a, toks, t)
    decreases toks
  {
    if toks != [] {
      PlayOk(Tick(a, toks[0]), toks[1..]);
      TickBumped(a, b, t, toks[0]);
      PlayBumped(Tick(a, toks[0]), Tick(b, toks[0]), t, toks[1..]);
    }
  }

  // ----- The server handles a request: its expected tokens become actual ones -----

  lemma {:induction false} PlaySubscribing(st: Sim, ts: seq<Topic>)
    requires Play(st, Subs(ts)).ok
    ensures var (items, srv) := Subscribing(st.live, ts);
            Play(st, TokensOf(items)) == Play(st, Subs(ts)) && srv == Play(st, Subs(ts)).live
    decreases ts
  {
    var (items, srv) := Subscribing(st.live, ts);
    if ts == [] {
      assert TokensOf(items) == [];
    } else {
      var rest := Subs(ts)[1..];
      assert rest == Subs(ts[1..]);
      PlayOk(Tick(st, TSub(ts[0])), rest);
      PlaySubscribing(Tick(st, TSub(ts[0])), ts[1..]);
      assert TokensOf(items)[1..] == TokensOf(items[1..]);
      assert items[1..] == Subscribing(st.live + {ts[0]}, ts[1..]).0;
    }
  }

  /** Playing an UNSUBSCRIBE reply whose count is right is playing one whose count is not known yet. */
  lemma CountedTick(st: Sim, t: Topic)
    ensures Tick(st, TUnsub(t, Some(|st.live - {t}|))) == Tick(st, TUnsub(t, None))
    ensures Tick(st, TUnsub(t, None)).live == st.live - {t}
  {
  }

  lemma PlayCons(st: Sim, tok: Token, toks: seq<Token>)
    ensures Play(st, [tok] + toks) == Play(Tick(st, tok), toks)
  {
    hide Tick;
    assert ([tok] + toks)[0] == tok && ([tok] + toks)[1..] == toks;
  }

  lemma TokensCons(item: Item, items: seq<Item>)
    ensures TokensOf([item] + items) == [TokenOf(item)] + TokensOf(items)
  {
    hide TokenOf;
  }

  lemma FirstUnsub(ts: seq<Topic>)
    requires ts != []
    ensures Unsubs(ts) == [TUnsub(ts[0], None)] + Unsubs(ts[1..])
  {
  }

  lemma UnsubscribingCons(srv: set<Topic>, ts: seq<Topic>)
    requires ts != []
    ensures var (rest, after) := Unsubscribing(srv - {ts[0]}, ts[1..]);
            Unsubscribing(srv, ts) == ([UnsubAck(ts[0], |srv - {ts[0]}|)] + rest, after)
  {
  }

  lemma {:induction false} PlayUnsubscribing(st: Sim, ts: seq<Topic>)
    ensures var (items, srv) := Unsubscribing(st.live, ts);
            Play(st, TokensOf(items)) == Play(st, Unsubs(ts)) && srv == Play(st, Unsubs(ts)).live
    decreases ts
  {
    if ts == [] {
      assert TokensOf([]) == [];
    } else {
      hide Tick, TokensOf, Unsubs, Unsubscribing, Play;
      var t, next := ts[0], Tick(st, TUnsub(ts[0], None));
      var rest := Unsubscribing(st.live - {t}, ts[1..]).0;
      CountedTick(st, t);
      UnsubscribingCons(st.live, ts);
      TokensCons(UnsubAck(t, |st.live - {t}|), rest);
      PlayCons(st, TUnsub(t, Some(|st.live - {t}|)), TokensOf(rest));
      FirstUnsub(ts);
      PlayCons(st, TUnsub(t, None), Unsubs(ts[1..]));
      PlayUnsubscribing(next, ts[1..]);
    }
  }

  /** Dropping topics one by one, in any order, is dropping them all. */
  lemma {:induction false} PlayUnsubsIsDrop(st: Sim, order: seq<Topic>, ts: set<Topic>)
    requires Enumerates(order, ts) && ts <= st.pending.Keys
    ensures Play(st, Unsubs(order)) == st.(live := st.live - ts, pending := Drop(st.pending, ts))
    decreases order
  {
    if order == [] {
      assert forall t :: t in ts ==> t in order;
      assert Drop(st.pending, ts) == st.pending;
    } else {
      var t, rest := order[0], order[1..];
      assert t in order;
      assert Unsubs(order)[1..] == Unsubs(rest);
      var next := Tick(st, TUnsub(t, None));
      var ts' := ts - {t};
      EnumeratesTail(order, ts);
      PlayUnsubsIsDrop(next, rest, ts');
      assert next.live - ts' == st.live - ts;
      assert Drop(next.pending, ts') == Drop(st.pending, ts);
    }
  }

  lemma EnumeratesTail(order: seq<Topic>, ts: set<Topic>)
    requires Enumerates(order, ts) && order != []
    ensures Enumerates(order[1..], ts - {order[0]})
  {
    forall t
      ensures t in order[1..] <==> t in ts - {order[0]}
    {
      if t in order[1..] {
        var i :| 0 <= i < |order[1..]| && order[1..][i] == t;
        assert order[i + 1] == t && t in order;
      }
      if t in ts - {order[0]} {
        assert t in order;
        var i :| 0 <= i < |order| && order[i] == t;
        assert order[1..][i - 1] == t;
      }
    }
  }

  lemma PlayOne(st: Sim, tok: Token)
    ensures Play(st, [tok]) == Tick(st, tok)
  {
    assert [tok][1..] == [];
  }

  lemma PlayAllDropped(st: Sim, p: bool, order: seq<Topic>)
    requires Enumerates(order, OfKind(st.live, p)) && OfKind(st.live, p) != {}
    requires Tick(st, TAllOf(p)).ok
    ensures Play(st, Unsubs(order)) == Tick(st, TAllOf(p))
  {
    PlayUnsubsIsDrop(st, order, OfKind(st.live, p));
  }

  /** What the server puts on the wire plays exactly as what was expected of it. */
  lemma PlayServed(st: Sim, req: Request, ch: Choice)
    requires ChoiceFits(st.live, req, ch) && Play(st, Expected(req)).ok
    ensures var (items, srv) := ServeRequest(st.live, req, ch);
            Play(st, TokensOf(items)) == Play(st, Expected(req)) && srv == Play(st, Expected(req)).live
  {
    match req
    case ReqRegular(tag) =>
      assert TokensOf([Answer(tag, ch.reply)]) == [TReg(tag)];
      PlayOne(st, TReg(tag));
    case ReqSub(p, names) => PlaySubscribing(st, Topics(p, names));
    case ReqUnsub(p, names) =>
      if names != [] {
        PlayUnsubscribing(st, Topics(p, names));
      } else {
        PlayOne(st, TAllOf(p));
        if OfKind(st.live, p) == {} {
          assert TokensOf([UnsubNone(p, |st.live|)]) == [TNone(Some(|st.live|))];
          PlayOne(st, TNone(Some(|st.live|)));
        } else {
          PlayUnsubscribing(st, ch.order);
          PlayAllDropped(st, p, ch.order);
        }
      }
  }
}
