/**
 The client as a whole: router, connection and the chars in front of the parser move
 together. Every event is one call by the user or one handler run by the io_service,
 the callbacks from one object to the other included.
 */
module WholeClient {
  import opened Resp
  import opened Stream
  import opened Commands
  import opened Router
  import opened RedisConnection
  import opened TcpProperties
  import RouterProperties
  import Tcp

  datatype Whole = Whole(client: Client, tcp: Tcp.State, front: string)

  const INITIAL: Whole := Whole(RouterProperties.FRESH, Tcp.INITIAL, [])

  datatype Event =
    | Executes(callback: Option<Callback>, args: seq<string>)
    | Subscribes(pattern: bool, key: string, id: nat)
    | Unsubscribes(pattern: bool, key: string)
    | Connects(auto: bool)
    | Disconnects
    | Handles(event: Tcp.Event)                        // a handler of the connection, other than for reads
    | ReadBreaks                                       // a read ends with an error
    | ReadBrings(chunk: string, stop: Outcome<Reply>)  // stop: why the parse loop ends

  /** The handlers that a call into the library leads to. */
  predicate OfLibrary(e: Tcp.Event) {
    match e
    case RunDispatched => true
    case WriteDone(_, _) => true
    case WriteFailed(_) => true
    case Recall(_) => true
    case ConnectDone => true
    case ConnectFailed => true
    case TimerExpires => true
    case TimerHandler => true
    case _ => false
  }

  /** With the missing bounds test a loop that should wait for more may fail instead. */
  predicate MayStop(whole: string, stop: Outcome<Reply>) {
    var meant := Decode(whole).stop;
    stop == meant || (meant.Incomplete? && (stop.ParseError? || stop.Undefined?))
  }

  predicate Enabled(w: Whole, x: Event) {
    match x
    case Executes(_, args) => args != []
    case Handles(e) => OfLibrary(e) && Tcp.Enabled(w.tcp, e)
    case ReadBrings(chunk, stop) => MayStop(w.front + chunk, stop)
    case _ => true
  }

  /** The hypothesis that only what is proved of the wire needs, see TcpProperties. */
  predicate InTime(w: Whole, x: Event) {
    x.Handles? ==> Timely(w.tcp, x.event)
  }

  function SubscribeArgs(pattern: bool, key: string): seq<string> {
    [if pattern then "PSUBSCRIBE" else "SUBSCRIBE", key]
  }

  function UnsubscribeArgs(pattern: bool, key: string): seq<string> {
    [if pattern then "PUNSUBSCRIBE" else "UNSUBSCRIBE", key]
  }

  /** The command that the event hands to execute, if any. */
  function Commanded(c: Client, x: Event): Option<seq<string>> {
    match x
    case Executes(_, args) => Some(args)
    case Subscribes(pattern, key, _) => if key in c.subs then None else Some(SubscribeArgs(pattern, key))
    case Unsubscribes(pattern, key) => if key in c.subs then Some(UnsubscribeArgs(pattern, key)) else None
    case _ => None
  }

  /** The callback that waits for the answer to it. */
  function CallbackOf(x: Event): Option<Callback> {
    match x
    case Executes(callback, _) => callback
    case Subscribes(_, _, _) => Some(OnSubscribe)
    case _ => None
  }

  predicate Takes(t: Tcp.State, args: seq<string>) {
    Tcp.Accepts(t, Encode(CommandWire(args)))
  }

  predicate Sends(w: Whole, x: Event) {
    var args := Commanded(w.client, x);
    args.Some? && w.tcp.IsConnected() && Takes(w.tcp, args.value)
  }

  function Reads(replies: seq<Reply>): seq<RouterProperties.Event> {
    if replies == [] then [] else [RouterProperties.ReplyRead(replies[0])] + Reads(replies[1..])
  }

  /** What happens to the router. */
  function ForRouter(w: Whole, x: Event): seq<RouterProperties.Event> {
    var up := w.tcp.IsConnected();
    match x
    case Executes(callback, args) => [RouterProperties.ExecuteCalled(callback, up, Takes(w.tcp, args))]
    case Subscribes(pattern, key, id) =>
      [RouterProperties.SubscribeCalled(key, id, pattern, up, Takes(w.tcp, SubscribeArgs(pattern, key)))]
    case Unsubscribes(pattern, key) =>
      [RouterProperties.UnsubscribeCalled(key, up, Takes(w.tcp, UnsubscribeArgs(pattern, key)))]
    case Handles(e) =>
      if !w.tcp.callbacks then []
      else if e.ConnectDone? || e.ConnectFailed? then [RouterProperties.ConnectionMade]
      else if e.WriteFailed? && up then [RouterProperties.ConnectionLost]
      else []
    case ReadBreaks => if w.tcp.callbacks then [RouterProperties.ConnectionLost] else []
    case ReadBrings(chunk, stop) =>
      if !w.tcp.callbacks then []
      else Reads(Decode(w.front + chunk).replies) + if stop.ParseError? then [RouterProperties.ConnectionLost] else []
    case _ => []
  }

  /** What happens to the connection apart from the reconnects that the router asks for. */
  function TcpNext(w: Whole, x: Event): Tcp.State
    requires Enabled(w, x)
  {
    if Sends(w, x) then Sent(w.tcp, Encode(CommandWire(Commanded(w.client, x).value)))
    else
      match x
      case Connects(auto) => Tcp.Next(w.tcp, Tcp.UserConnect(auto))
      case Disconnects => Tcp.Next(w.tcp, Tcp.UserDisconnect)
      case Handles(e) => Tcp.Next(w.tcp, e)
      case ReadBreaks => Tcp.Next(w.tcp, Tcp.ReadFailed)
      case ReadBrings(_, stop) => if stop.ParseError? then Tcp.Next(w.tcp, Tcp.ReadFailed) else w.tcp
      case _ => w.tcp
  }

  function FrontNext(front: string, x: Event): string {
    match x
    case ReadBrings(chunk, stop) =>
      var whole := front + chunk;
      var rest := Decode(whole).rest;
      if stop.Incomplete? || |whole| < |rest| then rest else whole[..|rest|]
    case _ => front
  }

  function Next(w: Whole, x: Event): Whole
    requires Enabled(w, x)
  {
    var client := RouterProperties.Run(w.client, [], ForRouter(w, x)).0;
    var t := TcpNext(w, x);
    Whole(client,
          if w.client.calls <= client.calls then TcpAfter(t, w.client.calls, client.calls) else t,
          FrontNext(w.front, x))
  }

  // ---- the router's part ----

  lemma RunNone(c: Client)
    ensures RouterProperties.Run(c, [], []).0 == c
  {
  }

  lemma {:induction false} RunOne(c: Client, e: RouterProperties.Event)
    ensures RouterProperties.Run(c, [], [e]).0 == RouterProperties.Next(c, e)
  {
    hide RouterProperties.Next, RouterProperties.Given;
    var d := RouterProperties.Next(c, e);
    assert [e][1..] == [];
  }

  lemma {:induction false} RunReads(c: Client, replies: seq<Reply>)
    ensures RouterProperties.Run(c, [], Reads(replies)).0 == RouterProperties.ReadAll(c, replies)
    decreases |replies|
  {
    hide Router.OnRead;
    if replies != [] {
      var d := Router.OnRead(c, replies[0]);
      RunReads(d, replies[1..]);
      assert Reads(replies)[1..] == Reads(replies[1..]);
      assert [] + RouterProperties.Given(c, Reads(replies)[0]) == [];
    }
  }

  lemma {:induction false} RunReadsLost(c: Client, replies: seq<Reply>)
    ensures RouterProperties.Run(c, [], Reads(replies) + [RouterProperties.ConnectionLost]).0
         == NotifyAll(RouterProperties.ReadAll(c, replies))
    decreases |replies|
  {
    hide Router.OnRead, NotifyAll;
    if replies == [] {
      RunOne(c, RouterProperties.ConnectionLost);
      assert [] + [RouterProperties.ConnectionLost] == [RouterProperties.ConnectionLost];
    } else {
      var d := Router.OnRead(c, replies[0]);
      RunReadsLost(d, replies[1..]);
      assert (Reads(replies) + [RouterProperties.ConnectionLost])[1..]
          == Reads(replies[1..]) + [RouterProperties.ConnectionLost];
      assert [] + RouterProperties.Given(c, Reads(replies)[0]) == [];
    }
  }

  // ---- what is recorded of a run ----

  /** What has come since the connection was established. */
  datatype Reading = Reading(
    base: string,                   // what stood in front then
    stream: string,                 // the chars that reads have brought
    replies: seq<Reply>,            // the replies that have been parsed
    begun: bool,
    failed: bool                    // a parse loop has ended otherwise than waiting for more
  )

  datatype Record = Record(
    epoch: Epoch,
    given: seq<Callback>,                // callbacks handed to execute, ever
    commands: seq<seq<string>>,          // commands sent since the connection was established
    waiting: seq<Option<Callback>>,      // with their callbacks, those of unsubscribes being none
    got: seq<(Callback, Reply)>,         // what reads have delivered to callbacks since then
    held: map<string, Subscription>,     // keys subscribed and not reported gone since the last connect reported
    subscribing: bool,                   // subscribe has been called since then
    reading: Reading
  )

  const NOTHING: Record :=
    Record(Epoch([], [], []), [], [], [], [], map[], false, Reading([], [], [], false, false))

  /** The event has the connection tell the client that a connect has completed or failed. */
  predicate ReportsConnect(w: Whole, x: Event) {
    w.tcp.callbacks && x.Handles? && (x.event.ConnectDone? || x.event.ConnectFailed?)
  }

  /** The keys whose unsubscribed callback is among the calls. */
  function Gone(calls: seq<Call>): set<string> {
    set call | call in calls && call.Unsubscribed? :: call.key
  }

  function NewCalls(before: Client, after: Client): seq<Call> {
    if before.calls <= after.calls then after.calls[|before.calls|..] else []
  }

  function HeldNext(held: map<string, Subscription>, w: Whole, x: Event): map<string, Subscription>
    requires Enabled(w, x)
  {
    if ReportsConnect(w, x) then map[]
    else if x.Subscribes? && x.key !in held then held[x.key := Subscription(x.id, !x.pattern, x.pattern)]
    else held - Gone(NewCalls(w.client, Next(w, x).client))
  }

  function ReadingNext(front: string, g: Reading, x: Event): Reading {
    match x
    case Handles(e) => if e.ConnectDone? then Reading(front, [], [], false, false) else g
    case ReadBrings(chunk, stop) =>
      Reading(g.base, g.stream + chunk, g.replies + Decode(front + chunk).replies, true, g.failed || !stop.Incomplete?)
    case _ => g
  }

  /** What the replies of a read have delivered. */
  function Delivered(w: Whole, x: Event): seq<(Callback, Reply)> {
    if x.ReadBrings? && w.tcp.callbacks then
      var client := RouterProperties.ReadAll(w.client, Decode(w.front + x.chunk).replies);
      var before, now := RouterProperties.Deliveries(w.client.calls), RouterProperties.Deliveries(client.calls);
      if |before| <= |now| then now[|before|..] else []
    else []
  }

  function Recorded(w: Whole, r: Record, x: Event): Record
    requires Enabled(w, x)
  {
    var s := r.(given := RouterProperties.Run(w.client, r.given, ForRouter(w, x)).1,
                reading := ReadingNext(w.front, r.reading, x),
                got := r.got + Delivered(w, x),
                held := HeldNext(r.held, w, x),
                subscribing := !ReportsConnect(w, x) && (r.subscribing || x.Subscribes?));
    if Sends(w, x) then
      var args := Commanded(w.client, x).value;
      s.(epoch := r.epoch.(accepted := r.epoch.accepted + [Encode(CommandWire(args))]),
         commands := r.commands + [args], waiting := r.waiting + [CallbackOf(x)])
    else if x.Handles? then
      var epoch := Observe(w.tcp, r.epoch, x.event);
      if x.event.ConnectDone? then s.(epoch := epoch, commands := [], waiting := [], got := [])
      else s.(epoch := epoch)
    else s
  }

  /** As long as nothing has failed: parsed and waiting is the decoding of all chars since the connect, behind the old ones. */
  predicate ReadingInv(front: string, g: Reading) {
    !g.failed ==>
      if g.begun then Decode(g.base + g.stream) == Decoded(g.replies, front, Incomplete)
      else front == g.base && g.stream == [] && g.replies == []
  }

  /** What every run keeps, whenever connects complete. */
  ghost predicate Inv(w: Whole, r: Record) {
    && Standing(w.tcp)
    && AreMessages(r.epoch.accepted, r.commands) && Sendable(r.commands) && |r.waiting| == |r.commands|
    && RouterProperties.Ledger(w.client, r.given) && RouterProperties.ModeInv(w.client)
    && ReadingInv(w.front, r.reading)
  }

  // ---- every step ----

  /** The connection makes legal steps of its own machine, timely ones if the client's step is in time. */
  lemma {:induction false} SentReachable(t: Tcp.State, h: Epoch, message: string)
    requires Reachable(t, h) && Tcp.Accepts(t, message)
    ensures Reachable(Sent(t, message), h.(accepted := h.accepted + [message]))
  {
    hide Reachable;
    ReachableStep(t, h, Tcp.SendAppend(message));
    if t.sendBuffer == [] {
      ReachableStep(Tcp.Append(t, message), h.(accepted := h.accepted + [message]), Tcp.SendDispatch);
    }
  }

  lemma {:induction false} TcpNextReachable(w: Whole, r: Record, x: Event)
    requires Reachable(w.tcp, r.epoch) && Enabled(w, x) && InTime(w, x)
    ensures Reachable(TcpNext(w, x), Recorded(w, r, x).epoch)
  {
    hide Reachable, Decode, Tcp.Next, ForRouter, RouterProperties.Run, Delivered, ReadingNext;
    if Sends(w, x) {
      SentReachable(w.tcp, r.epoch, Encode(CommandWire(Commanded(w.client, x).value)));
    } else {
      match x
      case Connects(auto) => ReachableStep(w.tcp, r.epoch, Tcp.UserConnect(auto));
      case Disconnects => ReachableStep(w.tcp, r.epoch, Tcp.UserDisconnect);
      case Handles(e) => ReachableStep(w.tcp, r.epoch, e);
      case ReadBreaks => ReachableStep(w.tcp, r.epoch, Tcp.ReadFailed);
      case ReadBrings(_, stop) =>
        if stop.ParseError? {
          ReachableStep(w.tcp, r.epoch, Tcp.ReadFailed);
        }
      case _ =>
    }
  }

  lemma {:induction false} TcpReachable(w: Whole, r: Record, x: Event)
    requires Reachable(w.tcp, r.epoch) && Enabled(w, x) && InTime(w, x)
    ensures Reachable(Next(w, x).tcp, Recorded(w, r, x).epoch)
  {
    hide Reachable, TcpNext, Recorded, RouterProperties.Run, ForRouter;
    TcpNextReachable(w, r, x);
    ReachableStep(TcpNext(w, x), Recorded(w, r, x).epoch, Tcp.UserReconnect);
  }

  /** A command that is taken is within the limit, and so is every length in it. */
  lemma {:induction false} TakenIsSendable(t: Tcp.State, args: seq<string>)
    requires Takes(t, args) && Standing(t)
    ensures Sendable([args])
  {
    BulksLength(args);
  }

  lemma {:induction false} MessagesStep(w: Whole, r: Record, x: Event)
    requires Inv(w, r) && Enabled(w, x)
    ensures var q := Recorded(w, r, x);
            AreMessages(q.epoch.accepted, q.commands) && Sendable(q.commands) && |q.waiting| == |q.commands|
  {
    hide Encode, CommandWire, Decode, ForRouter, RouterProperties.Run, RouterProperties.Ledger, Total, Delivered,
      ReadingNext;
    if Sends(w, x) {
      TakenIsSendable(w.tcp, Commanded(w.client, x).value);
    }
  }

  /** Nor does what stands of the connection in any case. */
  lemma {:induction false} SentStanding(t: Tcp.State, message: string)
    requires Standing(t) && Tcp.Accepts(t, message)
    ensures Standing(Sent(t, message))
  {
    hide Standing;
    StandingStep(t, Tcp.SendAppend(message));
    if t.sendBuffer == [] {
      StandingStep(Tcp.Append(t, message), Tcp.SendDispatch);
    }
  }

  lemma {:induction false} WholeStanding(w: Whole, x: Event)
    requires Standing(w.tcp) && Enabled(w, x)
    ensures Standing(Next(w, x).tcp)
  {
    hide Standing, Decode, Tcp.Next, Tcp.Reconnect, ForRouter, RouterProperties.Run, Encode;
    if Sends(w, x) {
      SentStanding(w.tcp, Encode(CommandWire(Commanded(w.client, x).value)));
    } else {
      match x
      case Connects(auto) => StandingStep(w.tcp, Tcp.UserConnect(auto));
      case Disconnects => StandingStep(w.tcp, Tcp.UserDisconnect);
      case Handles(e) => StandingStep(w.tcp, e);
      case _ => StandingStep(w.tcp, Tcp.ReadFailed);
    }
    ReconnectStanding(TcpNext(w, x));
  }

  lemma {:induction false} ReconnectStanding(t: Tcp.State)
    requires Standing(t)
    ensures Standing(Tcp.Reconnect(t))
  {
    StandingStep(t, Tcp.UserReconnect);
  }

  /** What is given over a run does not depend on what was given before. */
  lemma {:induction false} RunGiven(c: Client, given: seq<Callback>, events: seq<RouterProperties.Event>)
    ensures RouterProperties.Run(c, given, events).0 == RouterProperties.Run(c, [], events).0
    decreases |events|
  {
    hide RouterProperties.Next, RouterProperties.Given;
    if events != [] {
      var d := RouterProperties.Next(c, events[0]);
      RunGiven(d, given + RouterProperties.Given(c, events[0]), events[1..]);
      RunGiven(d, [] + RouterProperties.Given(c, events[0]), events[1..]);
    }
  }

  lemma {:induction false} ReadingKeeps(front: string, g: Reading, x: Event)
    requires ReadingInv(front, g) && (x.ReadBrings? ==> MayStop(front + x.chunk, x.stop))
    ensures ReadingInv(FrontNext(front, x), ReadingNext(front, g, x))
  {
    hide Decode;
    if x.ReadBrings? && !g.failed && x.stop.Incomplete? {
      assert g.base + g.stream + x.chunk == g.base + (g.stream + x.chunk);
      if g.begun {
        DecodeAppend(g.base + g.stream, x.chunk);
      } else {
        assert g.base + ([] + x.chunk) == g.base + x.chunk;
      }
    }
  }

  lemma {:induction false} StepKeeps(w: Whole, r: Record, x: Event)
    requires Inv(w, r) && Enabled(w, x)
    ensures Inv(Next(w, x), Recorded(w, r, x))
  {
    hide Standing, AreMessages, Sendable, RouterProperties.Ledger, RouterProperties.ModeInv, ForRouter,
      RouterProperties.Run, ReadingInv, FrontNext, ReadingNext, Delivered;
    ReadingKeeps(w.front, r.reading, x);
    WholeStanding(w, x);
    MessagesStep(w, r, x);
    var events := ForRouter(w, x);
    RouterProperties.LedgerRun(w.client, r.given, events);
    RouterProperties.RouterMode(w.client, r.given, events);
    RunGiven(w.client, r.given, events);
  }

  // ---- every run ----

  ghost predicate Legal(w: Whole, events: seq<Event>, timely: bool)
    decreases |events|
  {
    events == [] ||
    (Enabled(w, events[0]) && (timely ==> InTime(w, events[0])) && Legal(Next(w, events[0]), events[1..], timely))
  }

  function After(w: Whole, r: Record, events: seq<Event>): (Whole, Record)
    requires Legal(w, events, false)
    decreases |events|
  {
    if events == [] then (w, r) else After(Next(w, events[0]), Recorded(w, r, events[0]), events[1..])
  }

  lemma {:induction false} InitialInv()
    ensures Inv(INITIAL, NOTHING) && Reachable(INITIAL.tcp, NOTHING.epoch)
  {
    assert TcpProperties.Legal(Tcp.INITIAL, [], true) && TcpProperties.Legal(Tcp.INITIAL, [], false);
    assert (Tcp.INITIAL, NOTHING.epoch) == TcpProperties.After(Tcp.INITIAL, Epoch([], [], []), []);
    RouterProperties.NothingDelivered();
    assert RouterProperties.Called([]) == [];
  }

  lemma {:induction false} RunKeeps(w: Whole, r: Record, events: seq<Event>)
    requires Inv(w, r) && Legal(w, events, false)
    ensures var (v, q) := After(w, r, events); Inv(v, q)
    decreases |events|
  {
    hide Inv, Enabled, Next, Recorded;
    if events != [] {
      StepKeeps(w, r, events[0]);
      RunKeeps(Next(w, events[0]), Recorded(w, r, events[0]), events[1..]);
    }
  }

  lemma {:induction false} RunReachable(w: Whole, r: Record, events: seq<Event>)
    requires Reachable(w.tcp, r.epoch) && Legal(w, events, true) && Legal(w, events, false)
    ensures var (v, q) := After(w, r, events); Reachable(v.tcp, q.epoch)
    decreases |events|
  {
    hide Reachable, Enabled, InTime, Next, Recorded;
    if events != [] {
      TcpReachable(w, r, events[0]);
      RunReachable(Next(w, events[0]), Recorded(w, r, events[0]), events[1..]);
    }
  }

  lemma {:induction false} RunInv(events: seq<Event>)
    requires Legal(INITIAL, events, false)
    ensures var (w, r) := After(INITIAL, NOTHING, events);
            Inv(w, r) && (Legal(INITIAL, events, true) ==> Reachable(w.tcp, r.epoch))
  {
    hide Inv, Reachable, Legal, After;
    InitialInv();
    RunKeeps(INITIAL, NOTHING, events);
    if Legal(INITIAL, events, true) {
      RunReachable(INITIAL, NOTHING, events);
    }
  }

  // ---- what holds in every run ----

  /**
   Every callback given to execute is either queued or has been called, as often as
   it was given, whatever has happened to the connection meanwhile.
   */
  lemma {:induction false} EveryCallbackOnce(events: seq<Event>, callback: Callback)
    requires Legal(INITIAL, events, false)
    ensures var (w, r) := After(INITIAL, NOTHING, events);
            var called := RouterProperties.Called(w.client.calls);
            && multiset(r.given)[callback] == multiset(w.client.opCallbacks)[callback] + multiset(called)[callback]
            && (multiset(r.given)[callback] == 1 ==> (callback in w.client.opCallbacks <==> callback !in called))
  {
    hide Legal, After, Reachable, Standing, ReadingInv, RouterProperties.ModeInv, RouterProperties.Called;
    RunInv(events);
  }

  /**
   Every connection of a run: if nothing stood in front of the parser when it was
   established, then of whatever replies its server sends, cut in any way, the first
   ones have been parsed, all that are complete; unless a parse loop has failed.
   */
  lemma {:induction false} RepliesComeInOrder(events: seq<Event>, ws: seq<Wire>) returns (k: nat)
    requires Legal(INITIAL, events, false)
    requires var g := After(INITIAL, NOTHING, events).1.reading;
             !g.failed && g.base == [] && AllWellFormed(ws) && g.stream <= EncodeAll(ws)
    ensures k <= |ws|
    ensures var (w, r) := After(INITIAL, NOTHING, events);
            && r.reading.replies == ToReplies(ws)[..k]
            && r.reading.stream == EncodeAll(ws[..k]) + w.front
            && (k < |ws| ==> w.front < Encode(ws[k]))
  {
    hide Legal, After, Reachable, Standing, RouterProperties.ModeInv, RouterProperties.Ledger, Encode, EncodeAll, ToReplies, WellFormed,
      Parse, Decode;
    RunInv(events);
    var (w, r) := After(INITIAL, NOTHING, events);
    var g := r.reading;
    assert g.base + g.stream == g.stream;
    EmptyIsIncomplete();
    DecodeStop([]);
    k := DecodeArriving(ws, g.stream);
    assert Decode(g.stream) == Decoded(g.replies, w.front, Incomplete);
  }

  /**
   A sender that finds the queue empty dispatches before anything else happens: no
   message of the client waits for a thread.
   */
  lemma {:induction false} SendersDispatch(w: Whole, r: Record, events: seq<Event>)
    requires Legal(w, events, false) && w.tcp.io.senders == 0
    ensures After(w, r, events).0.tcp.io.senders == 0
    decreases |events|
  {
    hide Enabled, Next, Recorded;
    if events != [] {
      StepDispatches(w, events[0]);
      SendersDispatch(Next(w, events[0]), Recorded(w, r, events[0]), events[1..]);
    }
  }

  lemma {:induction false} StepDispatches(w: Whole, x: Event)
    requires Enabled(w, x) && w.tcp.io.senders == 0
    ensures Next(w, x).tcp.io.senders == 0
  {
    hide Decode, Encode, ForRouter, RouterProperties.Run, Tcp.Next, Tcp.Reconnect, Sent, Takes;
    if Sends(w, x) {
      SentDispatches(w.tcp, Encode(CommandWire(Commanded(w.client, x).value)));
    } else {
      match x
      case Connects(auto) => SendersStay(w.tcp, Tcp.UserConnect(auto));
      case Disconnects => SendersStay(w.tcp, Tcp.UserDisconnect);
      case Handles(e) => SendersStay(w.tcp, e);
      case _ => SendersStay(w.tcp, Tcp.ReadFailed);
    }
    ReconnectLeavesSenders(TcpNext(w, x));
  }

  lemma {:induction false} SentDispatches(t: Tcp.State, message: string)
    requires t.io.senders == 0
    ensures Sent(t, message).io.senders == 0
  {
  }

  lemma {:induction false} SendersStay(t: Tcp.State, e: Tcp.Event)
    requires Tcp.Enabled(t, e) && !e.SendAppend? && !e.SendDispatch?
    ensures Tcp.Next(t, e).io.senders == t.io.senders
  {
    match e
    case WriteDone(write, n) =>
    case _ =>
  }

  lemma {:induction false} ReconnectLeavesSenders(t: Tcp.State)
    ensures Tcp.Reconnect(t).io.senders == t.io.senders
  {
  }
}
