/**
 * The asynchronous client against a server that answers in order and sends pub/sub messages, as pushes
 * in RESP3 and as arrays in RESP2. Client, request pipe, server and reply stream are one transition system; the
 * client's part is the state machine of `AsyncClient`, fed with the replies the server renders.
 */
module PubSub {
  import opened Common
  import opened Resp
  import opened AsyncClient

  // ----- The wire -----

  datatype Request =
    | ReqSub(pattern: bool, names: seq<string>)
    | ReqUnsub(pattern: bool, names: seq<string>)
    | ReqRegular(tag: nat)

  datatype Item =
    | Answer(tag: nat, reply: Reply)
    | SubAck(topic: Topic, count: nat)
    | UnsubAck(topic: Topic, count: nat)
    | UnsubNone(pattern: bool, count: nat)
    | Message(topic: Topic, source: string, payload: string)
    | Spontaneous(reply: Reply)

  /** The type string of a pub/sub message, with or without the pattern prefix. */
  function TypeWord(pattern: bool, word: string): string {
    if pattern then ['p'] + word else word
  }

  predicate IsPubSubItem(item: Item) {
    !item.Answer? && !item.Spontaneous?
  }

  function WordOf(item: Item): string
    requires IsPubSubItem(item)
  {
    match item
    case SubAck(t, _) => TypeWord(t.pattern, "subscribe")
    case UnsubAck(t, _) => TypeWord(t.pattern, "unsubscribe")
    case UnsubNone(p, _) => TypeWord(p, "unsubscribe")
    case Message(t, _, _) => TypeWord(t.pattern, "message")
  }

  /** The elements after the type string. */
  function FieldsOf(item: Item): seq<Reply>
    requires IsPubSubItem(item)
  {
    match item
    case SubAck(t, n) => [Str(t.name), Integer(n)]
    case UnsubAck(t, n) => [Str(t.name), Integer(n)]
    case UnsubNone(_, n) => [Nil, Integer(n)]
    case Message(t, source, payload) =>
      if t.pattern then [Str(t.name), Str(source), Str(payload)] else [Str(t.name), Str(payload)]
  }

  /** The reply object the client parses for an item (pub/sub message format of RESP3, or of RESP2). */
  function Render(resp3: bool, item: Item): Reply {
    match item
    case Answer(_, r) => r
    case Spontaneous(r) => r
    case _ => Agg(if resp3 then Push else Array, [Str(WordOf(item))] + FieldsOf(item))
  }

  /** Answers are never pushes; spontaneous pushes are not pub/sub messages, and RESP2 has none. */
  predicate WellFormed(resp3: bool, item: Item) {
    match item
    case Answer(_, r) => !IsPush(r)
    case Spontaneous(r) => resp3 && IsPush(r) && !IsSubscribeReply(r)
    case _ => true
  }

  /** What a client without pushes takes for a pub/sub message: an array of three or more elements. */
  predicate IsLong(r: Reply) {
    r.Agg? && r.kind.Array? && |r.elems| >= 3
  }

  /** How many answers are on the wire. */
  function Answers(back: seq<Item>): nat {
    if back == [] then 0 else (if back[0].Answer? then 1 else 0) + Answers(back[1..])
  }

  // ----- The server -----

  function Topics(pattern: bool, names: seq<string>): (ts: seq<Topic>)
    ensures |ts| == |names|
  {
    if names == [] then [] else [Topic(pattern, names[0])] + Topics(pattern, names[1..])
  }

  function Subscribing(srv: set<Topic>, ts: seq<Topic>): (seq<Item>, set<Topic>)
    decreases ts
  {
    if ts == [] then ([], srv)
    else
      var (items, srv') := Subscribing(srv + {ts[0]}, ts[1..]);
      ([SubAck(ts[0], |srv + {ts[0]}|)] + items, srv')
  }

  function Unsubscribing(srv: set<Topic>, ts: seq<Topic>): (seq<Item>, set<Topic>)
    decreases ts
  {
    if ts == [] then ([], srv)
    else
      var (items, srv') := Unsubscribing(srv - {ts[0]}, ts[1..]);
      ([UnsubAck(ts[0], |srv - {ts[0]}|)] + items, srv')
  }

  ghost predicate Enumerates(order: seq<Topic>, ts: set<Topic>) {
    && (forall t :: t in order <==> t in ts)
    && (forall i, j :: 0 <= i < j < |order| ==> order[i] != order[j])
  }

  /** The server's choices: what it answers, and in which order it drops all topics of a kind. */
  datatype Choice = Choice(reply: Reply, order: seq<Topic>)

  ghost predicate ChoiceFits(srv: set<Topic>, req: Request, ch: Choice) {
    match req
    case ReqRegular(_) => !IsPush(ch.reply)
    case ReqUnsub(p, names) => names == [] ==> Enumerates(ch.order, OfKind(srv, p))
    case ReqSub(_, _) => true
  }

  function ServeRequest(srv: set<Topic>, req: Request, ch: Choice): (seq<Item>, set<Topic>) {
    match req
    case ReqRegular(tag) => ([Answer(tag, ch.reply)], srv)
    case ReqSub(p, names) => Subscribing(srv, Topics(p, names))
    case ReqUnsub(p, names) =>
      if names != [] then Unsubscribing(srv, Topics(p, names))
      else if OfKind(srv, p) == {} then ([UnsubNone(p, |srv|)], srv)
      else Unsubscribing(srv, ch.order)
  }

  // ----- The system -----

  /** `resp3` tells which protocol is spoken, `seen` is the server's topic set as of the replies the client has read. */
  datatype System = System(
    resp3: bool,
    client: Client,
    pipe: seq<Request>,
    srv: set<Topic>,
    back: seq<Item>,
    seen: set<Topic>)

  function Start(resp3: bool, pushHandler: bool): System {
    System(resp3, Initial(pushHandler), [], {}, [], {})
  }

  /** One SUBSCRIBE with fresh counters for every channel, as the bookkeeping intends. */
  function SubscribeEach(subs: map<Topic, Callback>, ts: seq<Topic>, cb: Callback): map<Topic, Callback>
    decreases ts
  {
    if ts == [] then subs else SubscribeEach(SubscribeOne(subs, ts[0], cb), ts[1..], cb)
  }

  function SubscribeOne(subs: map<Topic, Callback>, t: Topic, cb: Callback): map<Topic, Callback> {
    subs[t := cb.(pendingSubs := if t in subs then subs[t].pendingSubs + 1 else 1)]
  }

  /** No channel of a SUBSCRIBE is new after one whose counter was carried over. */
  predicate NoCarry(subs: map<Topic, Callback>, ts: seq<Topic>, cb: Callback)
    decreases ts
  {
    if ts == [] then true
    else
      && (ts[0] !in subs ==> cb.pendingSubs == 1)
      && var cb' := if ts[0] in subs then cb.(pendingSubs := subs[ts[0]].pendingSubs + 1) else cb;
         NoCarry(subs[ts[0] := cb'], ts[1..], cb')
  }

  datatype Move =
    | Issue(args: seq<string>, tag: nat, hasFn: bool)   // the client calls redisAsyncCommand
    | Process(choice: Choice)                           // the server handles the next request
    | Publish(topic: Topic, source: string, payload: string)
    | PushOut(reply: Reply)                             // an unrelated push, such as an invalidation
    | Receive                                           // the client reads the next reply
    | Local(event: Event)                               // anything else that happens to the client

  function RequestOf(cmd: Command, tag: nat): Request
    requires !cmd.Monitor?
  {
    match cmd
    case Subscribe(p, names) => ReqSub(p, names)
    case Unsubscribe(p, names) => ReqUnsub(p, names)
    case Regular => ReqRegular(tag)
  }

  ghost predicate Possible(s: System, m: Move) {
    && !s.client.flags.closed
    && match m
       case Issue(args, tag, hasFn) => args != [] && CanIssue(s, Classify(args), tag, hasFn)
       case Process(ch) => CanProcess(s, ch)
       case Publish(t, _, _) => t in s.srv
       case PushOut(r) => s.resp3 && IsPush(r) && !IsSubscribeReply(r)
       case Receive => CanReceive(s)
       case Local(e) => !e.Send? && !e.Received? && Allowed(s.client, e)
  }

  /** The server's topic set after an item, as the item tells it. */
  function SeenAfter(seen: set<Topic>, item: Item): set<Topic> {
    match item
    case SubAck(t, _) => seen + {t}
    case UnsubAck(t, _) => seen - {t}
    case _ => seen
  }

  datatype Result = Moved(s: System) | Crashed

  function IssueStep(s: System, cmd: Command, tag: nat, hasFn: bool): System
    requires !cmd.Monitor?
  {
    var (c, sent) := Perform(s.client, cmd, tag, hasFn);
    s.(client := c, pipe := if sent then s.pipe + [RequestOf(cmd, tag)] else s.pipe)
  }

  function ProcessStep(s: System, ch: Choice): System
    requires s.pipe != []
  {
    var (items, srv) := ServeRequest(s.srv, s.pipe[0], ch);
    s.(pipe := s.pipe[1..], srv := srv, back := s.back + items)
  }

  function ReceiveStep(s: System): Result
    requires s.back != []
  {
    match OnReply(s.client, Render(s.resp3, s.back[0]))
    case Abort => Crashed
    case Next(c) => Moved(s.(client := c, back := s.back[1..], seen := SeenAfter(s.seen, s.back[0])))
  }

  function LocalStep(s: System, e: Event): Result
    requires Allowed(s.client, e)
  {
    match Step(s.client, e)
    case Abort => Crashed
    case Next(c) => Moved(s.(client := c))
  }

  function Do(s: System, m: Move): Result
    requires Possible(s, m)
  {
    match m
    case Issue(args, tag, hasFn) => Moved(IssueStep(s, Classify(args), tag, hasFn))
    case Process(ch) => Moved(ProcessStep(s, ch))
    case Publish(t, source, payload) => Moved(s.(back := s.back + [Message(t, source, payload)]))
    case PushOut(r) => Moved(s.(back := s.back + [Spontaneous(r)]))
    case Receive => ReceiveStep(s)
    case Local(e) => LocalStep(s, e)
  }

  ghost predicate CanIssue(s: System, cmd: Command, tag: nat, hasFn: bool) {
    && !cmd.Monitor?
    && (cmd.Subscribe? ==>
          cmd.names != [] && NoCarry(s.client.ps.subs, Topics(cmd.pattern, cmd.names), Callback(tag, hasFn, 1, false)))
  }

  /**
   * The server can handle the next request. In RESP2 a command whose callback waits in `sub.replies` is
   * answered by no array of three or more elements: the commands that RESP2 permits in subscribed mode are
   * not, and for others see `Dispatch.LongAnswerIsLost`.
   */
  ghost predicate CanProcess(s: System, ch: Choice) {
    && s.pipe != [] && ChoiceFits(s.srv, s.pipe[0], ch)
    && (!s.resp3 && s.pipe[0].ReqRegular? && IsLong(ch.reply) ==> Answers(s.back) < |s.client.q.replies|)
  }

  ghost predicate CanReceive(s: System) {
    s.back != [] && !s.client.run.inCallback
  }
}
