/**
 * The state machine of the asynchronous client, deps/hiredis/async.c: two queues of reply
 * callbacks, the subscription callbacks with their counters, and the context flags.
 *
 * A step ends where control goes to a user callback; `CallbackDone` is the step that follows
 * its return. Commands, disconnects and frees issued from inside a callback are therefore
 * ordinary steps taken while `inCallback` is set.
 */
module AsyncClient {
  import opened Common
  import opened Num
  import opened Resp

  /** A key of `sub.channels` (pattern == false) or `sub.patterns` (pattern == true). */
  datatype Topic = Topic(pattern: bool, name: string)

  /** `redisCallback`: `tag` stands for the command it was registered with. */
  datatype Callback = Callback(tag: nat, hasFn: bool, pendingSubs: int, unsubSent: bool)

  const ZERO_CALLBACK := Callback(0, false, 0, false)

  /** A callback leaving its queue, with the reply it gets; `None` is the NULL reply. */
  datatype Delivery = Delivery(tag: nat, reply: Option<Reply>)

  /** The two lists of reply callbacks, `replies` and `sub.replies`. */
  datatype Queues = Queues(replies: seq<Callback>, subReplies: seq<Callback>)

  /** `subs` merges `sub.channels` and `sub.patterns`. */
  datatype PubSubState = PubSubState(
    subs: map<Topic, Callback>, pendingUnsubs: int, subscribed: bool, supportsPush: bool)

  /** `closed` says that __redisAsyncFree has run; `pushHandler` that `push_cb` is set. */
  datatype Flags = Flags(monitoring: bool, disconnecting: bool, freeing: bool, closed: bool, pushHandler: bool)

  /**
   * REDIS_IN_CALLBACK, the callback being run (none inside the push handler), and whether it was
   * called by the loop of `redisAsyncHandleTimeout`, which goes on when it returns.
   */
  datatype Running = Running(inCallback: bool, current: Option<Callback>, timingOut: bool)

  const IDLE := Running(false, None, false)

  /**
   * Regular commands accepted, regular callbacks that left their queue, subscription callbacks run,
   * and the topics whose callback was run with a NULL reply when the context was released.
   */
  datatype History = History(
    registered: seq<nat>, served: seq<Delivery>, notified: seq<Delivery>, released: set<Topic>)

  datatype Client = Client(q: Queues, ps: PubSubState, flags: Flags, run: Running, log: History)

  function Initial(pushHandler: bool): Client {
    Client(Queues([], []), PubSubState(map[], 0, false, false), Flags(false, false, false, false, pushHandler),
           IDLE, History([], [], [], {}))
  }

  // ----- Commands -----

  datatype Command =
    | Subscribe(pattern: bool, names: seq<string>)
    | Unsubscribe(pattern: bool, names: seq<string>)
    | Monitor
    | Regular

  predicate StartsWithIgnoreCase(s: string, prefix: string) {
    |prefix| <= |s| && EqualsIgnoreCase(s[..|prefix|], prefix)
  }

  predicate StartsWithP(s: string) {
    s != "" && Lower(s[0]) == 'p'
  }

  function DropP(s: string): string {
    if StartsWithP(s) then s[1..] else s
  }

  /** Which command is being appended: a comparison of the bytes up to and including CR LF. */
  function Classify(args: seq<string>): Command
    requires args != []
  {
    var pattern := StartsWithP(args[0]);
    var line := DropP(args[0]) + "\r\n";
    if |args| > 1 && StartsWithIgnoreCase(line, "subscribe\r\n") then Subscribe(pattern, args[1..])
    else if StartsWithIgnoreCase(line, "unsubscribe\r\n") then Unsubscribe(pattern, args[1..])
    else if StartsWithIgnoreCase(line, "monitor\r\n") then Monitor
    else Regular
  }

  /**
   * What a command is by its name, in any case of the letters: with a leading p the commands are those for
   * patterns. A SUBSCRIBE needs channels.
   */
  function Named(args: seq<string>): Command
    requires args != []
  {
    var w := args[0];
    if |args| > 1 && Folded(w, "subscribe", "SUBSCRIBE") then Subscribe(false, args[1..])
    else if |args| > 1 && Folded(w, "psubscribe", "PSUBSCRIBE") then Subscribe(true, args[1..])
    else if Folded(w, "unsubscribe", "UNSUBSCRIBE") then Unsubscribe(false, args[1..])
    else if Folded(w, "punsubscribe", "PUNSUBSCRIBE") then Unsubscribe(true, args[1..])
    else if Folded(w, "monitor", "MONITOR") || Folded(w, "pmonitor", "PMONITOR") then Monitor
    else Regular
  }

  /** Two strings that are the same letters in lower and in upper case. */
  predicate Cases(lower: string, upper: string) {
    |lower| == |upper| && forall i :: 0 <= i < |lower| ==> 'a' <= lower[i] <= 'z' && upper[i] as int == lower[i] as int - 32
  }

  lemma FoldedIsEqual(t: string, lower: string, upper: string)
    requires Cases(lower, upper)
    ensures EqualsIgnoreCase(t, lower) <==> Folded(t, lower, upper)
  {
    if |t| == |lower| {
      forall i | 0 <= i < |t|
        ensures Lower(t[i]) == Lower(lower[i]) <==> t[i] == lower[i] || t[i] == upper[i]
      {
        assert Lower(lower[i]) == lower[i];
      }
    }
  }

  /** A word without a CR is compared as a whole. */
  lemma WholeWord(d: string, lower: string, upper: string)
    requires Cases(lower, upper) && '\r' !in d
    ensures StartsWithIgnoreCase(d + "\r\n", lower + "\r\n") <==> Folded(d, lower, upper)
  {
    var line, k := d + "\r\n", |lower|;
    FoldedIsEqual(d, lower, upper);
    if |d| == k {
      assert line[..k + 2] == line;
      forall i | 0 <= i < k
        ensures line[i] == d[i] && (lower + "\r\n")[i] == lower[i]
      {
      }
    } else if |line| >= k + 2 {
      assert line[..k + 2][k] == line[k] == d[k] && (lower + "\r\n")[k] == '\r';
      assert Lower(d[k]) != Lower('\r') by { assert d[k] in d; }
    }
  }

  /** With a p in front. */
  lemma WithP(w: string, lower: string, upper: string)
    requires Cases(lower, upper) && lower != "" && lower[0] != 'p'
    ensures Folded(w, "p" + lower, "P" + upper) <==> StartsWithP(w) && Folded(DropP(w), lower, upper)
    ensures Folded(w, lower, upper) <==> !StartsWithP(w) && Folded(DropP(w), lower, upper)
  {
    var l, u := "p" + lower, "P" + upper;
    assert forall i :: 0 <= i < |lower| ==> l[i + 1] == lower[i] && u[i + 1] == upper[i];
    if w != "" {
      assert Lower(w[0]) == 'p' <==> w[0] == 'p' || w[0] == 'P';
      assert forall i :: 1 <= i < |w| ==> w[1..][i - 1] == w[i];
      if |w| == |l| && Folded(w[1..], lower, upper) && StartsWithP(w) {
        forall i | 0 <= i < |w|
          ensures w[i] == l[i] || w[i] == u[i]
        {
          assert i > 0 ==> w[1..][i - 1] == w[i] && l[i] == lower[i - 1] && u[i] == upper[i - 1];
        }
      }
      if Folded(w, l, u) {
        assert w[0] == l[0] || w[0] == u[0];
        forall i | 0 <= i < |w[1..]|
          ensures w[1..][i] == lower[i] || w[1..][i] == upper[i]
        {
          assert w[i + 1] == l[i + 1] || w[i + 1] == u[i + 1];
        }
      }
    }
  }

  lemma ClassifyExact(args: seq<string>)
    requires args != [] && '\r' !in args[0]
    ensures Classify(args) == Named(args)
  {
    hide Folded, Cases, StartsWithIgnoreCase;
    var w, d := args[0], DropP(args[0]);
    TheWords();
    WordsWithP();
    WordsWithCrlf();
    assert '\r' !in d;
    WholeWord(d, "subscribe", "SUBSCRIBE");
    WholeWord(d, "unsubscribe", "UNSUBSCRIBE");
    WholeWord(d, "monitor", "MONITOR");
    WithP(w, "subscribe", "SUBSCRIBE");
    WithP(w, "unsubscribe", "UNSUBSCRIBE");
    WithP(w, "monitor", "MONITOR");
  }

  lemma TheWords()
    ensures Cases("subscribe", "SUBSCRIBE") && Cases("unsubscribe", "UNSUBSCRIBE") && Cases("monitor", "MONITOR")
  {
  }

  lemma WordsWithP()
    ensures "p" + "subscribe" == "psubscribe" && "P" + "SUBSCRIBE" == "PSUBSCRIBE"
    ensures "p" + "unsubscribe" == "punsubscribe" && "P" + "UNSUBSCRIBE" == "PUNSUBSCRIBE"
    ensures "p" + "monitor" == "pmonitor" && "P" + "MONITOR" == "PMONITOR"
  {
  }

  lemma WordsWithCrlf()
    ensures "subscribe" + "\r\n" == "subscribe\r\n" && "unsubscribe" + "\r\n" == "unsubscribe\r\n"
    ensures "monitor" + "\r\n" == "monitor\r\n"
  {
  }

  /** The SUBSCRIBE loop (async.c:869-889): one `cb` is reused for every channel. */
  function SubscribeAll(subs: map<Topic, Callback>, pattern: bool, names: seq<string>, cb: Callback): map<Topic, Callback>
    decreases names
  {
    if names == [] then subs
    else
      var t := Topic(pattern, names[0]);
      var cb' := if t in subs then cb.(pendingSubs := subs[t].pendingSubs + 1) else cb;
      SubscribeAll(subs[t := cb'], pattern, names[1..], cb')
  }

  /** One channel of UNSUBSCRIBE (async.c:905-920): mark it, or expect a reply to be ignored. */
  function UnsubscribeOne(subs: map<Topic, Callback>, pu: int, t: Topic): (map<Topic, Callback>, int) {
    if t in subs && !subs[t].unsubSent then (subs[t := subs[t].(unsubSent := true)], pu)
    else (subs, pu + 1)
  }

  function UnsubscribeEach(subs: map<Topic, Callback>, pu: int, pattern: bool, names: seq<string>): (map<Topic, Callback>, int)
    decreases names
  {
    if names == [] then (subs, pu)
    else
      var (subs', pu') := UnsubscribeOne(subs, pu, Topic(pattern, names[0]));
      UnsubscribeEach(subs', pu', pattern, names[1..])
  }

  /** The subscribed topics of a kind for which no UNSUBSCRIBE is under way. */
  function Unsent(subs: map<Topic, Callback>): set<Topic> {
    set t | t in subs && !subs[t].unsubSent
  }

  function OfKind(ts: set<Topic>, pattern: bool): set<Topic> {
    set t | t in ts && t.pattern == pattern
  }

  /** UNSUBSCRIBE without channels (async.c:925-941). */
  function UnsubscribeAllOf(subs: map<Topic, Callback>, pu: int, pattern: bool): (map<Topic, Callback>, int) {
    (map t | t in subs :: if t.pattern == pattern then subs[t].(unsubSent := true) else subs[t],
     if OfKind(Unsent(subs), pattern) == {} then pu + 1 else pu)
  }

  // `__redisPushCallback` and `__redisShiftCallback` (async.c:269-305) on either list.

  function Push(c: Client, cb: Callback): Client {
    c.(q := c.q.(replies := c.q.replies + [cb]))
  }

  function PushSub(c: Client, cb: Callback): Client {
    c.(q := c.q.(subReplies := c.q.subReplies + [cb]))
  }

  function Shift(c: Client): Client
    requires c.q.replies != []
  {
    c.(q := c.q.(replies := c.q.replies[1..]))
  }

  function ShiftSub(c: Client): Client
    requires c.q.subReplies != []
  {
    c.(q := c.q.(subReplies := c.q.subReplies[1..]))
  }

  function WithSub(c: Client, t: Topic, cb: Callback): Client {
    c.(ps := c.ps.(subs := c.ps.subs[t := cb]))
  }

  function Disconnecting(c: Client): Client {
    c.(flags := c.flags.(disconnecting := true))
  }

  function Freeing(c: Client): Client {
    c.(flags := c.flags.(freeing := true))
  }

  /** `__redisAsyncCommand` (async.c:834-968): the new state, and whether the command was sent. */
  function OnCommand(c: Client, args: seq<string>, tag: nat, hasFn: bool): (Client, bool)
    requires args != []
  {
    Perform(c, Classify(args), tag, hasFn)
  }

  function Perform(c: Client, cmd: Command, tag: nat, hasFn: bool): (Client, bool) {
    var cb := Callback(tag, hasFn, 1, false);
    if c.flags.disconnecting || c.flags.freeing then (c, false)
    else match cmd
      case Subscribe(pattern, names) =>
        (c.(ps := c.ps.(subscribed := true, subs := SubscribeAll(c.ps.subs, pattern, names, cb))), true)
      case Unsubscribe(pattern, names) =>
        if !c.ps.subscribed then (c, false)
        else
          var (subs, pu) := if names == [] then UnsubscribeAllOf(c.ps.subs, c.ps.pendingUnsubs, pattern)
                            else UnsubscribeEach(c.ps.subs, c.ps.pendingUnsubs, pattern, names);
          (c.(ps := c.ps.(subs := subs, pendingUnsubs := pu)), true)
      case Monitor =>
        (Push(c, cb).(flags := c.flags.(monitoring := true)), true)
      case Regular =>
        var c' := if c.ps.subscribed then PushSub(c, cb) else Push(c, cb);
        (c'.(log := c.log.(registered := c.log.registered + [tag])), true)
  }

  // ----- Replies -----

  /** Either the machine goes on, or an assert() fails or an element out of range is read. */
  datatype Outcome = Next(c: Client) | Abort

  predicate IsPush(r: Reply) {
    r.Agg? && r.kind.Push?
  }

  /** The part of a byte string that C string functions see. */
  function CStr(s: string): string {
    if s == "" || s[0] == '\0' then "" else [s[0]] + CStr(s[1..])
  }

  /** strncasecmp(s, keyword, len of s) == 0 */
  predicate MatchesPrefix(s: string, keyword: string) {
    if '\0' in s then EqualsIgnoreCase(CStr(s), keyword)
    else |s| <= |keyword| && EqualsIgnoreCase(s, keyword[..|s|])
  }

  /** `redisIsSubscribeReply` (async.c:549-568). */
  predicate IsSubscribeReply(r: Reply)
    requires r.Agg?
  {
    |r.elems| >= 1 && r.elems[0].Str? && IsSubscribeType(r.elems[0].str)
  }

  predicate IsSubscribeType(stype: string) {
    && |stype| >= 7
    && var s := DropP(stype);
       MatchesPrefix(s, "subscribe") || MatchesPrefix(s, "message") || MatchesPrefix(s, "unsubscribe")
  }

  datatype PubSubKind = KSubscribe | KUnsubscribe | KOther

  function KindOf(stype: string): PubSubKind {
    var s := CStr(DropP(stype));
    if EqualsIgnoreCase(s, "subscribe") then KSubscribe
    else if EqualsIgnoreCase(s, "unsubscribe") then KUnsubscribe
    else KOther
  }

  /** Hand a regular reply to the callback shifted from a queue. */
  function Serve(c: Client, cb: Callback, r: Reply): Client {
    RunCallback(c.(log := c.log.(served := c.log.served + [Delivery(cb.tag, Some(r))])), cb)
  }

  /** The end of an iteration of `redisProcessCallbacks`: run the callback, or go straight on. */
  function RunCallback(c: Client, cb: Callback): Client {
    if cb.hasFn then c.(run := Running(true, Some(cb), false))
    else if c.flags.monitoring then Push(c, cb)
    else c
  }

  /** Hand a pub/sub message to the subscription callback found for it, if any. */
  function Notify(c: Client, cb: Option<Callback>, r: Reply): Client {
    match cb
    case None => RunCallback(c, ZERO_CALLBACK)
    case Some(cb) =>
      RunCallback(if cb.hasFn then c.(log := c.log.(notified := c.log.notified + [Delivery(cb.tag, Some(r))])) else c, cb)
  }

  /** When the last UNSUBSCRIBE reply is in, leave subscribed mode (async.c:527-537). */
  function LeaveIfDone(c: Client, count: int): Client {
    if count == 0 && c.ps.subs == map[] && c.ps.pendingUnsubs == 0
    then c.(ps := c.ps.(subscribed := false), q := Queues(c.q.replies + c.q.subReplies, []))
    else c
  }

  /** The bookkeeping for one UNSUBSCRIBE reply (async.c:511-525). */
  function CountUnsubscribe(c: Client, t: Option<Topic>): Client {
    if t.None? || t.value !in c.ps.subs then c.(ps := c.ps.(pendingUnsubs := c.ps.pendingUnsubs - 1))
    else if c.ps.subs[t.value].pendingSubs == 0 then c.(ps := c.ps.(subs := c.ps.subs - {t.value}))
    else c
  }

  /** A pub/sub message as `__redisGetSubscribeCallback` reads it. */
  datatype PubSubMessage = PubSubMessage(kind: PubSubKind, topic: Option<Topic>, count: Option<int>)

  /** Reading the message (async.c:478-503); nothing when an assert() or an array bound is violated. */
  function ReadPubSub(r: Reply): Option<PubSubMessage>
    requires r.Agg?
  {
    if |r.elems| < 2 || !r.elems[0].Str? then None
    else
      var stype := r.elems[0].str;
      Some(PubSubMessage(KindOf(stype),
                  if r.elems[1].Str? then Some(Topic(StartsWithP(stype), r.elems[1].str)) else None,
                  if |r.elems| >= 3 && r.elems[2].Integer? then Some(r.elems[2].n) else None))
  }

  /** Acting on the message (async.c:503-538). */
  function ApplyPubSub(c: Client, m: PubSubMessage, r: Reply): Outcome {
    var cb := if m.topic.Some? && m.topic.value in c.ps.subs then Some(c.ps.subs[m.topic.value]) else None;
    match m.kind
    case KSubscribe =>
      if cb.None? then Abort
      else
        var less := cb.value.(pendingSubs := cb.value.pendingSubs - 1);
        Next(Notify(WithSub(c, m.topic.value, less), cb, r))
    case KUnsubscribe =>
      if m.count.None? then Abort
      else Next(Notify(LeaveIfDone(CountUnsubscribe(c, m.topic), m.count.value), cb, r))
    case KOther => Next(Notify(c, cb, r))
  }

  /** `__redisGetSubscribeCallback` for a pub/sub message (async.c:483-538). */
  function OnPubSub(c: Client, r: Reply): Outcome
    requires r.Agg?
  {
    match ReadPubSub(r)
    case None => Abort
    case Some(m) => ApplyPubSub(c, m, r)
  }

  /** `__redisGetSubscribeCallback` (async.c:470-544). */
  function OnSubscribedReply(c: Client, r: Reply): Outcome {
    if r.Agg? && ((r.kind.Array? && !c.ps.supportsPush && |r.elems| >= 3) || r.kind.Push?) then OnPubSub(c, r)
    else if c.q.subReplies != [] then
      Next(Serve(ShiftSub(c), c.q.subReplies[0], r))
    else Next(RunCallback(c, ZERO_CALLBACK))
  }

  /** The connection has shown that it speaks RESP3. */
  function NotePush(c: Client, r: Reply): Client {
    if IsPush(r) then c.(ps := c.ps.(supportsPush := true)) else c
  }

  /** One iteration of the loop of `redisProcessCallbacks` (async.c:570-662). */
  function OnReply(c: Client, r: Reply): Outcome {
    var c := NotePush(c, r);
    if IsPush(r) && !IsSubscribeReply(r) then
      Next(if c.flags.pushHandler then c.(run := Running(true, None, false)) else c)
    else if c.q.replies != [] then
      Next(Serve(Shift(c), c.q.replies[0], r))
    else if r.Error? then
      Next(OnError(c))
    else if !c.ps.subscribed then Abort
    else OnSubscribedReply(c, r)
  }

  /** The rest of that iteration, or of the timeout loop, after a callback has returned. */
  function OnCallbackDone(c: Client): Client {
    var done := c.(run := IDLE);
    if c.run.timingOut then TimeOutWaiting(done)
    else if c.run.current.None? then done
    else if c.flags.freeing then Teardown(done)
    else if c.flags.monitoring then Push(done, c.run.current.value)
    else done
  }

  // ----- Closing -----

  function NullDeliveries(cbs: seq<Callback>): (ds: seq<Delivery>)
    ensures |ds| == |cbs|
    ensures forall i :: 0 <= i < |cbs| ==> ds[i] == Delivery(cbs[i].tag, None)
  {
    seq(|cbs|, i requires 0 <= i < |cbs| => Delivery(cbs[i].tag, None))
  }

  /**
   * `__redisAsyncFree` (async.c:362-409): every waiting callback gets a NULL reply, in order, then
   * every subscription callback, in the order of the dictionaries. No command is accepted meanwhile:
   * one of the two flags that refuse it is set whenever this is called.
   */
  function Teardown(c: Client): Client {
    Client(Queues([], []), c.ps.(subs := map[]), c.flags.(closed := true), c.run,
           c.log.(served := c.log.served + NullDeliveries(c.q.replies + c.q.subReplies),
                  released := c.log.released + WithFn(c.ps.subs)))
  }

  function WithFn(subs: map<Topic, Callback>): set<Topic> {
    set t | t in subs && subs[t].hasFn
  }

  /** `redisProcessCallbacks` out of replies (async.c:576-588). */
  function OnNoReply(c: Client, obufEmpty: bool): Client {
    if c.flags.disconnecting && obufEmpty && c.q.replies == [] then Teardown(c) else c
  }

  /** A read or write error, or an unparsable stream: `__redisAsyncDisconnect` with an error. */
  function OnError(c: Client): Client {
    Teardown(Disconnecting(c))
  }

  /**
   * The loop of `redisAsyncHandleTimeout` (async.c:804-812), up to the start of the next callback:
   * each gets a NULL reply while the context still accepts commands; when none is left, the
   * connection is closed.
   */
  function TimeOutWaiting(c: Client): Client
    decreases |c.q.replies|
  {
    if c.q.replies == [] then OnError(c)
    else
      var c' := TimeOutOne(c);
      if c'.run.inCallback then c' else TimeOutWaiting(c')
  }

  function TimeOutOne(c: Client): (c': Client)
    requires c.q.replies != []
    ensures c'.q == Queues(c.q.replies[1..], c.q.subReplies)
  {
    var cb := c.q.replies[0];
    var c' := Shift(c).(log := c.log.(served := c.log.served + [Delivery(cb.tag, None)]));
    if cb.hasFn then c'.(run := Running(true, Some(cb), true)) else c'.(run := IDLE)
  }

  /** `redisAsyncHandleTimeout` on a connected context with a command timeout (async.c:779-815). */
  function OnTimeout(c: Client): Client {
    if c.q.replies == [] && c.q.subReplies == [] then c else TimeOutWaiting(c)
  }

  /** `redisAsyncDisconnect` (async.c:460-468). */
  function OnDisconnect(c: Client): Client {
    var c := Disconnecting(c);
    if !c.run.inCallback && c.q.replies == [] then Teardown(c) else c
  }

  /** `redisAsyncFree` (async.c:415-424). */
  function OnFree(c: Client): Client {
    var c := Freeing(c);
    if c.run.inCallback then c else Teardown(c)
  }

  // ----- Runs -----

  datatype Event =
    | Send(args: seq<string>, tag: nat, hasFn: bool)
    | Received(r: Reply)
    | CallbackDone
    | NoReply(obufEmpty: bool)
    | IOError
    | Timeout
    | Disconnect
    | Free

  /** Calls the API forbids: on a freed context, or re-entering the event handlers from a callback. */
  predicate Allowed(c: Client, e: Event) {
    && !c.flags.closed
    && match e
       case Send(args, _, _) => args != []
       case CallbackDone => c.run.inCallback
       case Disconnect => true
       case Free => true
       case _ => !c.run.inCallback
  }

  function Step(c: Client, e: Event): Outcome
    requires Allowed(c, e)
  {
    match e
    case Send(args, tag, hasFn) => Next(OnCommand(c, args, tag, hasFn).0)
    case Received(r) => OnReply(c, r)
    case CallbackDone => Next(OnCallbackDone(c))
    case NoReply(obufEmpty) => Next(OnNoReply(c, obufEmpty))
    case IOError => Next(OnError(c))
    case Timeout => Next(OnTimeout(c))
    case Disconnect => Next(OnDisconnect(c))
    case Free => Next(OnFree(c))
  }

  /** `c'` is reached from `c` by the events, none of which aborts. */
  predicate Runs(c: Client, es: seq<Event>, c': Client)
    decreases es
  {
    if es == [] then c' == c
    else Allowed(c, es[0]) && Step(c, es[0]).Next? && Runs(Step(c, es[0]).c, es[1..], c')
  }

  predicate NoMonitor(es: seq<Event>) {
    forall i :: 0 <= i < |es| && es[i].Send? && es[i].args != [] ==> !Classify(es[i].args).Monitor?
  }

  // ----- Conservation of callbacks, without any assumption on the server -----

  function Tags(cbs: seq<Callback>): (ts: seq<nat>)
    ensures |ts| == |cbs| && forall i :: 0 <= i < |cbs| ==> ts[i] == cbs[i].tag
  {
    seq(|cbs|, i requires 0 <= i < |cbs| => cbs[i].tag)
  }

  function ServedTags(ds: seq<Delivery>): (ts: seq<nat>)
    ensures |ts| == |ds| && forall i :: 0 <= i < |ds| ==> ts[i] == ds[i].tag
  {
    seq(|ds|, i requires 0 <= i < |ds| => ds[i].tag)
  }

  predicate NullsLast(ds: seq<Delivery>) {
    forall i, j :: 0 <= i < j < |ds| && ds[i].reply.None? ==> ds[j].reply.None?
  }

  predicate GotNull(ds: seq<Delivery>) {
    exists d :: d in ds && d.reply.None?
  }

  /**
   * The accepted regular commands are, in order, those already served, those waiting in
   * `replies`, then those waiting in `sub.replies`; outside subscribed mode the latter is empty.
   * While the context is open, some callback has got a NULL reply exactly if the timeout loop is
   * running; once the context is closed, nothing waits.
   */
  predicate Conserved(c: Client) {
    && !c.flags.monitoring
    && c.log.registered == ServedTags(c.log.served) + Tags(c.q.replies + c.q.subReplies)
    && (!c.ps.subscribed ==> c.q.subReplies == [])
    && (!c.flags.closed ==> (GotNull(c.log.served) <==> c.run.timingOut))
    && (c.run.timingOut ==> c.run.inCallback)
    && NullsLast(c.log.served)
    && (c.flags.closed ==> c.q.replies == [] && c.q.subReplies == [] && (c.flags.disconnecting || c.flags.freeing))
  }

  /** The part that also holds between two callbacks of the timeout loop. */
  predicate ConservedSoFar(c: Client) {
    && !c.flags.monitoring && !c.flags.closed && !c.run.timingOut
    && c.log.registered == ServedTags(c.log.served) + Tags(c.q.replies + c.q.subReplies)
    && (!c.ps.subscribed ==> c.q.subReplies == [])
    && NullsLast(c.log.served)
  }

  lemma ServeOne(served: seq<Delivery>, cb: Callback, r: Option<Reply>, waiting: seq<Callback>)
    ensures ServedTags(served) + Tags([cb] + waiting) == ServedTags(served + [Delivery(cb.tag, r)]) + Tags(waiting)
  {
    assert Tags([cb] + waiting) == [cb.tag] + Tags(waiting);
    assert ServedTags(served + [Delivery(cb.tag, r)]) == ServedTags(served) + [cb.tag];
  }

  lemma TeardownKeeps(c: Client)
    requires ConservedSoFar(c) && !c.flags.closed && (c.flags.disconnecting || c.flags.freeing)
    ensures Conserved(Teardown(c))
    ensures Teardown(c).log.served == c.log.served + NullDeliveries(c.q.replies + c.q.subReplies)
    ensures forall t :: t in Teardown(c).log.released <==> t in c.log.released || (t in c.ps.subs && c.ps.subs[t].hasFn)
  {
    var waiting := c.q.replies + c.q.subReplies;
    assert ServedTags(NullDeliveries(waiting)) == Tags(waiting);
    assert ServedTags(Teardown(c).log.served) == ServedTags(c.log.served) + Tags(waiting);
    var none: seq<Callback> := [];
    assert none + none == [] && Tags(none) == [];
  }

  lemma CommandKeeps(c: Client, args: seq<string>, tag: nat, hasFn: bool)
    requires Conserved(c) && !c.flags.closed && args != [] && !Classify(args).Monitor?
    ensures Conserved(OnCommand(c, args, tag, hasFn).0)
  {
    var cb := Callback(tag, hasFn, 1, false);
    if Classify(args).Regular? && !c.flags.disconnecting && !c.flags.freeing {
      var c' := OnCommand(c, args, tag, hasFn).0;
      var waiting := c.q.replies + c.q.subReplies;
      assert c'.q.replies + c'.q.subReplies == waiting + [cb];
      assert Tags(waiting + [cb]) == Tags(waiting) + [tag];
      assert c'.log.registered == ServedTags(c.log.served) + (Tags(waiting) + [tag]);
    }
  }

  lemma ReplyKeeps(c: Client, r: Reply)
    requires Conserved(c) && !c.flags.closed && !c.run.inCallback && OnReply(c, r).Next?
    ensures Conserved(OnReply(c, r).c)
  {
    hide OnSubscribedReply, Serve, Teardown, IsSubscribeReply;
    var c1 := NotePush(c, r);
    if IsPush(r) && !IsSubscribeReply(r) {
    } else if c1.q.replies != [] {
      ServeKeeps(c1, Shift(c1), c.q.replies[0], r);
    } else if r.Error? {
      TeardownKeeps(Disconnecting(c1));
    } else {
      SubscribedReplyKeeps(c1, r);
    }
  }

  lemma ServeKeeps(c: Client, shifted: Client, cb: Callback, r: Reply)
    requires Conserved(c) && !c.flags.closed && !c.run.timingOut
    requires shifted == c.(q := shifted.q)
    requires c.q.replies + c.q.subReplies == [cb] + (shifted.q.replies + shifted.q.subReplies)
    requires !c.ps.subscribed ==> shifted.q.subReplies == []
    ensures Conserved(Serve(shifted, cb, r))
  {
    ServeOne(c.log.served, cb, Some(r), shifted.q.replies + shifted.q.subReplies);
  }

  lemma SubscribedReplyKeeps(c: Client, r: Reply)
    requires Conserved(c) && !c.flags.closed && !c.run.timingOut && c.ps.subscribed && c.q.replies == []
    requires OnSubscribedReply(c, r).Next?
    ensures Conserved(OnSubscribedReply(c, r).c)
  {
    if r.Agg? && ((r.kind.Array? && !c.ps.supportsPush && |r.elems| >= 3) || r.kind.Push?) {
      PubSubKeeps(c, ReadPubSub(r).value, r);
    } else if c.q.subReplies != [] {
      ServeKeeps(c, ShiftSub(c), c.q.subReplies[0], r);
    }
  }

  lemma NotifyQueues(c: Client, cb: Option<Callback>, r: Reply)
    requires !c.flags.monitoring
    ensures var c' := Notify(c, cb, r);
            && c'.q == c.q && c'.ps == c.ps && c'.flags == c.flags && (c'.run.timingOut ==> c.run.timingOut)
            && c'.log == c.log.(notified := c'.log.notified)
  {
  }

  /** A pub/sub message moves no regular callback, except to the other queue in order. */
  lemma PubSubQueues(c: Client, m: PubSubMessage, r: Reply)
    requires !c.flags.monitoring && c.ps.subscribed && !c.run.timingOut
    requires ApplyPubSub(c, m, r).Next?
    ensures var c' := ApplyPubSub(c, m, r).c;
            && c'.flags == c.flags && c'.log == c.log.(notified := c'.log.notified) && !c'.run.timingOut
            && c'.q == if c'.ps.subscribed then c.q else Queues(c.q.replies + c.q.subReplies, [])
  {
    var cb := if m.topic.Some? && m.topic.value in c.ps.subs then Some(c.ps.subs[m.topic.value]) else None;
    match m.kind
    case KSubscribe =>
      var less := cb.value.(pendingSubs := cb.value.pendingSubs - 1);
      NotifyQueues(WithSub(c, m.topic.value, less), cb, r);
    case KUnsubscribe =>
      NotifyQueues(LeaveIfDone(CountUnsubscribe(c, m.topic), m.count.value), cb, r);
    case KOther =>
      NotifyQueues(c, cb, r);
  }

  lemma PubSubKeeps(c: Client, m: PubSubMessage, r: Reply)
    requires Conserved(c) && !c.flags.closed && !c.run.timingOut && c.ps.subscribed && c.q.replies == []
    requires ApplyPubSub(c, m, r).Next?
    ensures Conserved(ApplyPubSub(c, m, r).c)
  {
    PubSubQueues(c, m, r);
    QueuesMoved(c, ApplyPubSub(c, m, r).c);
  }

  lemma QueuesMoved(c: Client, c': Client)
    requires Conserved(c) && !c.flags.closed && !c.run.timingOut && !c'.run.timingOut && c.q.replies == []
    requires c'.flags == c.flags && c'.log == c.log.(notified := c'.log.notified)
    requires c'.q == if c'.ps.subscribed then c.q else Queues(c.q.replies + c.q.subReplies, [])
    requires !c.ps.subscribed ==> !c'.ps.subscribed
    ensures Conserved(c')
  {
    assert c'.q.replies + c'.q.subReplies == c.q.replies + c.q.subReplies;
  }

  lemma {:induction false} TimeOutKeeps(c: Client)
    requires ConservedSoFar(c)
    ensures Conserved(TimeOutWaiting(c))
    decreases |c.q.replies|
  {
    if c.q.replies == [] {
      TeardownKeeps(Disconnecting(c));
    } else {
      var cb, rest := c.q.replies[0], c.q.replies[1..] + c.q.subReplies;
      var c' := TimeOutOne(c);
      assert c.q.replies + c.q.subReplies == [cb] + rest;
      ServeOne(c.log.served, cb, None, rest);
      assert Last(c'.log.served).reply.None?;
      assert Last(c'.log.served) in c'.log.served;
      if !cb.hasFn {
        TimeOutKeeps(c');
      }
    }
  }

  lemma StepKeeps(c: Client, e: Event)
    requires Conserved(c) && Allowed(c, e) && Step(c, e).Next?
    requires e.Send? ==> !Classify(e.args).Monitor?
    ensures Conserved(Step(c, e).c)
  {
    match e
    case Send(args, tag, hasFn) => CommandKeeps(c, args, tag, hasFn);
    case Received(r) => ReplyKeeps(c, r);
    case CallbackDone =>
      if c.run.timingOut {
        TimeOutKeeps(c.(run := IDLE));
      } else if c.flags.freeing {
        TeardownKeeps(c.(run := IDLE));
      }
    case NoReply(obufEmpty) =>
      if c.flags.disconnecting { TeardownKeeps(c); }
    case IOError => TeardownKeeps(Disconnecting(c));
    case Timeout => TimeOutKeeps(c);
    case Disconnect => if !c.run.inCallback { TeardownKeeps(Disconnecting(c)); }
    case Free => if !c.run.inCallback { TeardownKeeps(Freeing(c)); }
  }

  /** Over every run without MONITOR, whatever the server sends, callbacks are conserved in order. */
  lemma {:induction false} CallbacksConserved(c: Client, es: seq<Event>, c': Client)
    requires Conserved(c) && NoMonitor(es) && Runs(c, es, c')
    ensures Conserved(c')
    decreases es
  {
    if es != [] {
      StepKeeps(c, es[0]);
      CallbacksConserved(Step(c, es[0]).c, es[1..], c');
    }
  }

  lemma CallbacksConservedFromStart(pushHandler: bool, es: seq<Event>, c: Client)
    requires NoMonitor(es) && Runs(Initial(pushHandler), es, c)
    ensures Conserved(c)
  {
    CallbacksConserved(Initial(pushHandler), es, c);
  }

  // ----- When the connection is closed -----

  /** No callback that waits for a regular reply has a function. */
  predicate AllSilent(cbs: seq<Callback>) {
    forall i :: 0 <= i < |cbs| ==> !cbs[i].hasFn
  }

  lemma {:induction false} TimeOutCloses(c: Client)
    requires !c.flags.closed
    ensures TimeOutWaiting(c).flags.closed <==> AllSilent(c.q.replies)
    decreases |c.q.replies|
  {
    if c.q.replies != [] && !c.q.replies[0].hasFn {
      TimeOutCloses(TimeOutOne(c));
      assert AllSilent(c.q.replies[1..]) ==> AllSilent(c.q.replies) by {
        assert forall i :: 1 <= i < |c.q.replies| ==> c.q.replies[i] == c.q.replies[1..][i - 1];
      }
    }
  }

  /** The events that close an open connection. */
  predicate Closing(c: Client, e: Event) {
    match e
    case Send(_, _, _) => false
    case Received(r) => r.Error? && c.q.replies == []
    case CallbackDone =>
      if c.run.timingOut then AllSilent(c.q.replies) else c.run.current.Some? && c.flags.freeing
    case NoReply(obufEmpty) => c.flags.disconnecting && obufEmpty && c.q.replies == []
    case IOError => true
    case Timeout => (c.q.replies != [] || c.q.subReplies != []) && AllSilent(c.q.replies)
    case Disconnect => !c.run.inCallback && c.q.replies == []
    case Free => !c.run.inCallback
  }

  lemma ClosesExactly(c: Client, e: Event)
    requires Allowed(c, e) && Step(c, e).Next?
    ensures Step(c, e).c.flags.closed <==> Closing(c, e)
  {
    hide IsSubscribeReply, TimeOutWaiting, AllSilent, OnPubSub, Classify;
    match e {
      case CallbackDone => TimeOutCloses(c.(run := IDLE));
      case Timeout => TimeOutCloses(c);
      case Received(r) => PubSubStaysOpen(NotePush(c, r), r);
      case _ =>
    }
  }

  lemma PubSubStaysOpen(c: Client, r: Reply)
    requires !c.flags.closed
    ensures r.Agg? && OnPubSub(c, r).Next? ==> !OnPubSub(c, r).c.flags.closed
  {
    hide KindOf, CStr, DropP;
  }

  /** What the server's answers do to the callbacks waiting for them. */
  function Answering(cbs: seq<Callback>, rs: seq<Reply>): seq<Event>
    requires |cbs| == |rs|
    decreases |rs|
  {
    if rs == [] then [NoReply(true)]
    else (if cbs[0].hasFn then [Received(rs[0]), CallbackDone] else [Received(rs[0])]) + Answering(cbs[1..], rs[1..])
  }

  function Answered(cbs: seq<Callback>, rs: seq<Reply>): (ds: seq<Delivery>)
    requires |cbs| == |rs|
    ensures |ds| == |cbs|
  {
    seq(|cbs|, i requires 0 <= i < |cbs| => Delivery(cbs[i].tag, Some(rs[i])))
  }

  /** An answer that meets the callback of its command, and the return of that callback. */
  lemma OneAnswer(c: Client, r: Reply)
    requires c.q.replies != [] && c.run == IDLE && !c.flags.monitoring && !c.flags.freeing && !IsPush(r)
    ensures var cb := c.q.replies[0];
      var served := c.(q := Queues(c.q.replies[1..], c.q.subReplies), log := c.log.(served := c.log.served + [Delivery(cb.tag, Some(r))]));
      && OnReply(c, r) == Next(if cb.hasFn then served.(run := Running(true, Some(cb), false)) else served)
      && (cb.hasFn ==> OnCallbackDone(served.(run := Running(true, Some(cb), false))) == served)
  {
  }

  lemma NothingWaits(c: Client)
    requires c.q.replies == [] && c.q.subReplies == []
    ensures Teardown(c).log.served == c.log.served + Answered(c.q.replies, []) && Teardown(c).flags.closed
    ensures c.flags.disconnecting ==> OnNoReply(c, true) == Teardown(c)
  {
    assert NullDeliveries(c.q.replies + c.q.subReplies) == [] && Answered(c.q.replies, []) == [];
  }

  lemma {:induction false} AnsweringRuns(c: Client, rs: seq<Reply>) returns (c': Client)
    requires c.flags.disconnecting && !c.flags.closed && !c.flags.freeing && !c.flags.monitoring && !c.run.inCallback
    requires c.run == IDLE && c.q.subReplies == [] && |rs| == |c.q.replies|
    requires forall i :: 0 <= i < |rs| ==> !IsPush(rs[i])
    ensures Runs(c, Answering(c.q.replies, rs), c') && c'.flags.closed
    ensures c'.log.served == c.log.served + Answered(c.q.replies, rs)
    decreases |rs|
  {
    hide OnReply, OnCallbackDone, Teardown, IsPush;
    var cbs := c.q.replies;
    if rs == [] {
      c' := Teardown(c);
      NothingWaits(c);
      assert [NoReply(true)][1..] == [];
    } else {
      var cb, r := cbs[0], rs[0];
      var served := c.(q := Queues(cbs[1..], []), log := c.log.(served := c.log.served + [Delivery(cb.tag, Some(r))]));
      OneAnswer(c, r);
      c' := AnsweringRuns(served, rs[1..]);
      var es, rest := Answering(cbs, rs), Answering(cbs[1..], rs[1..]);
      if cb.hasFn {
        assert es[0] == Received(r) && es[1..] == [CallbackDone] + rest && ([CallbackDone] + rest)[1..] == rest;
        assert Runs(served.(run := Running(true, Some(cb), false)), es[1..], c');
      } else {
        assert es[0] == Received(r) && es[1..] == rest;
      }
      assert [Delivery(cb.tag, Some(r))] + Answered(cbs[1..], rs[1..]) == Answered(cbs, rs);
      Assoc(c.log.served, [Delivery(cb.tag, Some(r))], Answered(cbs[1..], rs[1..]));
    }
  }

  /**
   * A graceful disconnect: commands are refused from then on, but every callback that waits gets the answer
   * to its own command, and none NULL, before the connection is closed.
   */
  lemma GracefulDisconnect(c: Client, rs: seq<Reply>) returns (c': Client)
    requires !c.flags.closed && !c.flags.freeing && !c.flags.monitoring && c.run == IDLE
    requires c.q.replies != [] && c.q.subReplies == [] && |rs| == |c.q.replies|
    requires forall i :: 0 <= i < |rs| ==> !IsPush(rs[i])
    ensures Runs(c, [Disconnect] + Answering(c.q.replies, rs), c') && c'.flags.closed
    ensures c'.log.served == c.log.served + Answered(c.q.replies, rs)
  {
    hide Answering, Answered;
    var d := OnDisconnect(c);
    assert d == Disconnecting(c);
    c' := AnsweringRuns(d, rs);
    assert ([Disconnect] + Answering(c.q.replies, rs))[1..] == Answering(c.q.replies, rs);
  }

  /** After a disconnect or a free nothing is accepted any more, however long the context still lives. */
  lemma {:induction false} NothingAccepted(c: Client, es: seq<Event>, c': Client)
    requires (c.flags.disconnecting || c.flags.freeing) && Runs(c, es, c')
    ensures c'.log.registered == c.log.registered && (c'.flags.disconnecting || c'.flags.freeing)
    decreases es
  {
    if es != [] {
      hide Step, Allowed;
      StaysRefusing(c, es[0]);
      NothingAccepted(Step(c, es[0]).c, es[1..], c');
    }
  }

  lemma StaysRefusing(c: Client, e: Event)
    requires (c.flags.disconnecting || c.flags.freeing) && Allowed(c, e) && Step(c, e).Next?
    ensures var c' := Step(c, e).c; c'.log.registered == c.log.registered && (c'.flags.disconnecting || c'.flags.freeing)
  {
    hide IsSubscribeReply, TimeOutWaiting, OnPubSub, Classify;
    match e {
      case CallbackDone => TimeOutRefuses(c.(run := IDLE));
      case Timeout => TimeOutRefuses(c);
      case Received(r) => PubSubRefuses(NotePush(c, r), r);
      case _ =>
    }
  }

  lemma {:induction false} TimeOutRefuses(c: Client)
    ensures var c' := TimeOutWaiting(c);
      c'.log.registered == c.log.registered && c'.flags.freeing == c.flags.freeing && (c.flags.disconnecting ==> c'.flags.disconnecting)
    decreases |c.q.replies|
  {
    if c.q.replies != [] && !c.q.replies[0].hasFn {
      TimeOutRefuses(TimeOutOne(c));
    }
  }

  lemma PubSubRefuses(c: Client, r: Reply)
    ensures r.Agg? && OnPubSub(c, r).Next? ==> OnPubSub(c, r).c.flags == c.flags && OnPubSub(c, r).c.log.registered == c.log.registered
  {
    hide KindOf, CStr, DropP;
  }

  lemma DisconnectRefuses(c: Client, e: Event, es: seq<Event>, c': Client)
    requires (e.Disconnect? || e.Free?) && Allowed(c, e) && Runs(Step(c, e).c, es, c')
    ensures c'.log.registered == c.log.registered
  {
    hide Runs;
    NothingAccepted(Step(c, e).c, es, c');
  }

  // ----- MONITOR -----

  /** Every reply, and the return of the callback it is given to. */
  function Monitored(hasFn: bool, rs: seq<Reply>): seq<Event> {
    if rs == [] then []
    else (if hasFn then [Received(rs[0]), CallbackDone] else [Received(rs[0])]) + Monitored(hasFn, rs[1..])
  }

  function Feeding(tag: nat, rs: seq<Reply>): (ds: seq<Delivery>)
    ensures |ds| == |rs|
  {
    seq(|rs|, i requires 0 <= i < |rs| => Delivery(tag, Some(rs[i])))
  }

  /** Once MONITOR is accepted, its callback gets every reply, and waits for the next. */
  lemma {:induction false} MonitorStays(c: Client, rs: seq<Reply>)
    requires c.flags.monitoring && !c.flags.closed && !c.flags.freeing && c.run == IDLE && |c.q.replies| == 1
    requires forall i :: 0 <= i < |rs| ==> !IsPush(rs[i])
    ensures var cb := c.q.replies[0];
      Runs(c, Monitored(cb.hasFn, rs), c.(log := c.log.(served := c.log.served + Feeding(cb.tag, rs))))
    decreases |rs|
  {
    hide OnReply, OnCallbackDone, IsPush;
    var cb := c.q.replies[0];
    if rs == [] {
      assert c.log.served + Feeding(cb.tag, rs) == c.log.served;
    } else {
      var r, rest := rs[0], Monitored(cb.hasFn, rs[1..]);
      var next := c.(log := c.log.(served := c.log.served + [Delivery(cb.tag, Some(r))]));
      MonitorOnce(c, r);
      MonitorStays(next, rs[1..]);
      assert [Delivery(cb.tag, Some(r))] + Feeding(cb.tag, rs[1..]) == Feeding(cb.tag, rs);
      Assoc(c.log.served, [Delivery(cb.tag, Some(r))], Feeding(cb.tag, rs[1..]));
      var es := Monitored(cb.hasFn, rs);
      var c' := c.(log := c.log.(served := c.log.served + Feeding(cb.tag, rs)));
      if cb.hasFn {
        assert es[0] == Received(r) && es[1..] == [CallbackDone] + rest && ([CallbackDone] + rest)[1..] == rest;
        assert Runs(OnReply(c, r).c, es[1..], c');
      } else {
        assert es[0] == Received(r) && es[1..] == rest;
      }
    }
  }

  lemma MonitorOnce(c: Client, r: Reply)
    requires c.flags.monitoring && !c.flags.closed && !c.flags.freeing && c.run == IDLE && |c.q.replies| == 1 && !IsPush(r)
    ensures var cb := c.q.replies[0];
      var next := c.(log := c.log.(served := c.log.served + [Delivery(cb.tag, Some(r))]));
      OnReply(c, r).Next?
      && if cb.hasFn then OnReply(c, r).c.run.inCallback && !OnReply(c, r).c.flags.closed && OnCallbackDone(OnReply(c, r).c) == next
         else OnReply(c, r).c == next
  {
    assert c.q.replies[1..] + [c.q.replies[0]] == c.q.replies;
  }

  // ----- How long a timeout takes -----

  /** How many callbacks returned during a run. */
  function Returns(es: seq<Event>): nat {
    if es == [] then 0 else (if es[0].CallbackDone? then 1 else 0) + Returns(es[1..])
  }

  lemma {:induction false} TimeOutShrinks(c: Client)
    ensures var c' := TimeOutWaiting(c);
            c'.flags.closed || (c'.run.timingOut && c'.run.inCallback && |c'.q.replies| < |c.q.replies|)
    ensures var c' := TimeOutWaiting(c);
            !c'.flags.closed ==> c'.flags == c.flags && c'.ps == c.ps && c'.q.subReplies == c.q.subReplies
    decreases |c.q.replies|
  {
    if c.q.replies != [] && !c.q.replies[0].hasFn {
      TimeOutShrinks(TimeOutOne(c));
    }
  }

  /** A callback has been called by the timeout loop, and the connection is open. */
  predicate Looping(c: Client) {
    c.run.timingOut && c.run.inCallback && !c.flags.closed
  }

  /**
   * What a callback issues is refused, or, in subscribed mode, waits elsewhere; but MONITOR always waits
   * where the loop takes its callbacks from.
   */
  predicate LoopIsFed(c: Client, monitors: bool) {
    !c.flags.disconnecting && !c.flags.freeing && (!c.ps.subscribed || monitors)
  }

  /** Otherwise, after at most one return for each callback that was waiting the connection is closed. */
  lemma {:induction false} TimeoutEnds(c: Client, monitors: bool, es: seq<Event>, c': Client)
    requires Looping(c) && !LoopIsFed(c, monitors)
    requires (monitors || NoMonitor(es)) && Runs(c, es, c')
    ensures if c'.flags.closed then Returns(es) <= |c.q.replies| + 1 else Returns(es) + |c'.q.replies| <= |c.q.replies|
    decreases es
  {
    hide TimeOutWaiting;
    if es != [] {
      var next := Step(c, es[0]).c;
      if es[0].CallbackDone? {
        TimeOutShrinks(c.(run := IDLE));
      } else {
        assert next.q.replies == c.q.replies && !LoopIsFed(next, monitors) && next.run == c.run;
      }
      if next.flags.closed {
        assert es[1..] == [];
      } else {
        TimeoutEnds(next, monitors, es[1..], c');
      }
    }
  }

  const PING := ["ping"]
  const MONITOR := ["monitor"]

  /** A command that waits in `replies`. */
  function Feed(c: Client): seq<string> {
    if c.ps.subscribed then MONITOR else PING
  }

  /** A callback that issues the command again whenever it is run, `k` times. */
  function Reissuing(args: seq<string>, k: nat): (es: seq<Event>)
    ensures args == PING ==> NoMonitor(es)
    ensures Returns(es) == k
  {
    if k == 0 then []
    else
      PingIsRegular();
      var rest := Reissuing(args, k - 1);
      assert ([Send(args, 0, true), CallbackDone] + rest)[1..] == [CallbackDone] + rest;
      assert ([CallbackDone] + rest)[1..] == rest;
      [Send(args, 0, true), CallbackDone] + rest
  }

  lemma PingIsRegular()
    ensures Classify(PING).Regular? && Classify(MONITOR).Monitor?
  {
    assert DropP("ping") + "\r\n" == "ing\r\n";
    assert Lower('i') != Lower('m');
    assert DropP("monitor") == "monitor";
  }

  /** The state after `k` rounds. */
  function AfterRounds(c: Client, args: seq<string>, k: nat): Client
    requires args != []
    decreases k
  {
    if k == 0 then c else AfterRounds(OnCallbackDone(OnCommand(c, args, 0, true).0), args, k - 1)
  }

  /** The loop stops at a callback if the last one waiting has a function. */
  lemma {:induction false} StopsAtFunction(c: Client)
    requires c.q.replies != [] && Last(c.q.replies).hasFn && !c.flags.closed
    ensures var c' := TimeOutWaiting(c); Looping(c') && c'.flags == c.flags && c'.ps == c.ps
    decreases |c.q.replies|
  {
    if !c.q.replies[0].hasFn {
      StopsAtFunction(TimeOutOne(c));
    }
  }

  lemma OneRound(c: Client)
    requires Looping(c) && LoopIsFed(c, true)
    ensures var c1 := OnCommand(c, Feed(c), 0, true).0;
      var c' := OnCallbackDone(c1);
      Looping(c1) && Looping(c') && LoopIsFed(c', true) && c'.ps == c.ps
  {
    hide Classify, TimeOutWaiting;
    PingIsRegular();
    var c1 := OnCommand(c, Feed(c), 0, true).0;
    assert Last(c1.q.replies).hasFn;
    StopsAtFunction(c1.(run := IDLE));
  }

  lemma {:induction false} RoundsGoOn(c: Client, k: nat)
    requires Looping(c) && LoopIsFed(c, true)
    ensures var c' := AfterRounds(c, Feed(c), k);
      Runs(c, Reissuing(Feed(c), k), c') && Looping(c') && LoopIsFed(c', true) && c'.ps == c.ps
    decreases k
  {
    hide OnCommand, OnCallbackDone, Looping, LoopIsFed;
    if k > 0 {
      OneRound(c);
      var c1 := OnCommand(c, Feed(c), 0, true).0;
      var next := OnCallbackDone(c1);
      RoundsGoOn(next, k - 1);
      var es, rest := Reissuing(Feed(c), k), Reissuing(Feed(c), k - 1);
      assert es[1..] == [CallbackDone] + rest && ([CallbackDone] + rest)[1..] == rest;
      TwoSteps(c, Feed(c), rest, AfterRounds(next, Feed(c), k - 1));
    }
  }

  lemma TwoSteps(c: Client, args: seq<string>, rest: seq<Event>, c': Client)
    requires args != [] && Looping(c) && Looping(OnCommand(c, args, 0, true).0)
    requires Runs(OnCallbackDone(OnCommand(c, args, 0, true).0), rest, c')
    ensures Runs(c, [Send(args, 0, true), CallbackDone] + rest, c')
  {
    hide OnCommand, OnCallbackDone;
    var es := [Send(args, 0, true), CallbackDone] + rest;
    assert es[1..] == [CallbackDone] + rest && ([CallbackDone] + rest)[1..] == rest;
    assert Runs(OnCommand(c, args, 0, true).0, es[1..], c');
  }

  /** No run from here sees more than `n` callbacks return; `monitors` says whether MONITOR may be issued. */
  ghost predicate EndsWithin(c: Client, monitors: bool, n: nat) {
    forall es, c' :: (monitors || NoMonitor(es)) && Runs(c, es, c') ==> Returns(es) <= n
  }

  /**
   * A timeout is bound to end if and only if commands are refused, or the context is in subscribed mode
   * and MONITOR is not issued. Otherwise the callbacks can keep the connection open for ever.
   */
  lemma TimeoutEndsExactly(c: Client, monitors: bool)
    requires Looping(c)
    ensures (exists n: nat :: EndsWithin(c, monitors, n)) <==> !LoopIsFed(c, monitors)
  {
    hide Runs, LoopIsFed, Looping, Returns, NoMonitor;
    if LoopIsFed(c, monitors) {
      forall n: nat
        ensures !EndsWithin(c, monitors, n)
      {
        GoesBeyond(c, monitors, n);
      }
    } else {
      var n := |c.q.replies| + 1;
      forall es, c' | (monitors || NoMonitor(es)) && Runs(c, es, c')
        ensures Returns(es) <= n
      {
        TimeoutEnds(c, monitors, es, c');
      }
      assert EndsWithin(c, monitors, n);
    }
  }

  lemma GoesBeyond(c: Client, monitors: bool, n: nat)
    requires Looping(c) && LoopIsFed(c, monitors)
    ensures !EndsWithin(c, monitors, n)
  {
    RoundsGoOn(c, n + 1);
    hide Runs, Looping, AfterRounds;
    var es := Reissuing(Feed(c), n + 1);
    assert monitors || NoMonitor(es);
    assert Returns(es) == n + 1;
  }

  /** Such a timeout is reached by one command; after any number of returns the connection is open and takes commands. */
  lemma TimeoutGoesOn(k: nat)
    ensures var start := [Send(PING, 0, true), Timeout];
      var c0 := OnTimeout(OnCommand(Initial(false), PING, 0, true).0);
      var c' := AfterRounds(c0, PING, k);
      Runs(Initial(false), start, c0) && Runs(c0, Reissuing(PING, k), c')
      && !c'.flags.closed && OnCommand(c', PING, 0, true).1
  {
    PingIsRegular();
    var c := Initial(false);
    var c1 := OnCommand(c, PING, 0, true).0;
    var c0 := OnTimeout(c1);
    assert Last(c1.q.replies).hasFn;
    StopsAtFunction(c1);
    var start := [Send(PING, 0, true), Timeout];
    assert start[1..] == [Timeout] && start[1..][1..] == [];
    hide AfterRounds, Reissuing;
    RoundsGoOn(c0, k);
  }
}
