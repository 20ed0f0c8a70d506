/** Which subscriptions the whole client holds, over losses, reconnects and refusals. */
module Subscriptions {
  import opened Resp
  import opened Stream
  import opened Commands
  import opened Router
  import opened WholeClient
  import RouterProperties
  import Tcp

  /** From c to d keys have gone exactly with their unsubscribed callback. */
  ghost predicate OnlyReported(c: Client, d: Client) {
    c.calls <= d.calls && d.subs == c.subs - Gone(NewCalls(c, d)) && d.pubsubMode == c.pubsubMode
  }

  lemma {:induction false} SameClient(c: Client, d: Client)
    requires d == c.(opCallbacks := d.opCallbacks)
    ensures OnlyReported(c, d)
  {
  }

  lemma {:induction false} OnlyReportedTwice(c: Client, d: Client, e: Client)
    requires OnlyReported(c, d) && OnlyReported(d, e)
    ensures OnlyReported(c, e)
  {
    assert e.calls[|c.calls|..] == d.calls[|c.calls|..] + e.calls[|d.calls|..];
    assert Gone(NewCalls(c, e)) == Gone(NewCalls(c, d)) + Gone(NewCalls(d, e));
  }

  lemma {:induction false} OneCall(c: Client, call: Call)
    ensures NewCalls(c, c.Made(call)) == [call]
    ensures Gone([call]) == if call.Unsubscribed? then {call.key} else {}
  {
  }

  lemma {:induction false} CallbackReports(c: Client, reply: Reply)
    ensures OnlyReported(c, OnSubscribeCallback(c, reply))
  {
    hide TopicOf, Upper, Gone, NewCalls;
    var d := OnSubscribeCallback(c, reply);
    if d == c {
      SameClient(c, d);
    } else {
      var call := d.calls[|c.calls|];
      OneCall(c, call);
      assert NewCalls(c, d) == NewCalls(c, c.Made(call)) by { SameCalls(c, d, c.Made(call)); }
    }
  }

  lemma {:induction false} SameCalls(c: Client, d: Client, e: Client)
    requires d.calls == e.calls
    ensures NewCalls(c, d) == NewCalls(c, e)
  {
  }

  lemma {:induction false} InvokeReports(c: Client, callback: Callback, reply: Reply)
    ensures OnlyReported(c, Invoke(c, callback, reply))
  {
    hide OnSubscribeCallback;
    var call := Replied(callback, reply);
    OneCall(c, call);
    if callback.OnSubscribe? {
      CallbackReports(c.Made(call), reply);
      OnlyReportedTwice(c, c.Made(call), Invoke(c, callback, reply));
    }
  }

  lemma {:induction false} QueueMoves(c: Client, d: Client, queue: seq<Callback>)
    requires OnlyReported(c, d)
    ensures OnlyReported(c, d.(opCallbacks := queue))
  {
    SameCalls(c, d, d.(opCallbacks := queue));
  }

  lemma {:induction false} ReadReports(c: Client, reply: Reply)
    ensures OnlyReported(c, OnRead(c, reply))
  {
    hide OnlyReported, OnSubscribeCallback, Invoke, IsPush;
    if c.pubsubMode && IsPush(reply) {
      CallbackReports(c, reply);
    } else if c.opCallbacks == [] {
      MadeReports(c, ReconnectAsked);
    } else {
      InvokeReports(c, c.opCallbacks[0], reply);
      QueueMoves(c, Invoke(c, c.opCallbacks[0], reply), c.opCallbacks[1..]);
    }
  }

  lemma {:induction false} MadeReports(c: Client, call: Call)
    requires !call.Unsubscribed?
    ensures OnlyReported(c, c.Made(call))
  {
    OneCall(c, call);
  }

  lemma {:induction false} ReadAllReports(c: Client, replies: seq<Reply>)
    ensures OnlyReported(c, RouterProperties.ReadAll(c, replies))
    decreases |replies|
  {
    hide OnlyReported, OnRead;
    if replies == [] {
      SameClient(c, c);
    } else {
      var d := OnRead(c, replies[0]);
      ReadReports(c, replies[0]);
      ReadAllReports(d, replies[1..]);
      OnlyReportedTwice(c, d, RouterProperties.ReadAll(d, replies[1..]));
    }
  }

  lemma {:induction false} NotifyReports(c: Client)
    ensures OnlyReported(c, NotifyAll(c))
    decreases |c.opCallbacks|
  {
    hide OnlyReported, Invoke;
    if c.opCallbacks == [] {
      SameClient(c, c);
    } else {
      var error := Error(DISCONNECTED);
      InvokeKeepsQueue(c, c.opCallbacks[0], error);
      InvokeReports(c, c.opCallbacks[0], error);
      var d := Invoke(c, c.opCallbacks[0], error).(opCallbacks := c.opCallbacks[1..]);
      QueueMoves(c, Invoke(c, c.opCallbacks[0], error), c.opCallbacks[1..]);
      NotifyReports(d);
      OnlyReportedTwice(c, d, NotifyAll(d));
    }
  }

  lemma {:induction false} ExecuteReports(c: Client, callback: Option<Callback>, up: bool, accepted: bool)
    ensures OnlyReported(c, Execute(c, callback, up, accepted))
  {
    hide OnlyReported, Invoke;
    if callback.Some? {
      InvokeReports(c, callback.value, Error(if up then BUFFER_FULL else CANNOT_SEND));
      SameClient(c, c.(opCallbacks := c.opCallbacks + [callback.value]));
    } else {
      MadeReports(c, NullCall);
      SameClient(c, c);
    }
  }

  /** A command that is not sent is answered with an error, which is no acknowledgement. */
  lemma {:induction false} SubscribeReports(c: Client, key: string, callbacks: Subscription, up: bool, accepted: bool)
    requires key !in c.subs
    ensures var d := Subscribe(c, key, callbacks, up, accepted);
            d.subs == c.subs[key := callbacks] && d.pubsubMode
  {
  }

  /** Every event but a subscribe and a reported connect. */
  lemma {:induction false} OtherReports(w: Whole, x: Event)
    requires WholeClient.Enabled(w, x) && !x.Subscribes? && !ReportsConnect(w, x)
    ensures OnlyReported(w.client, WholeClient.Next(w, x).client)
  {
    hide OnlyReported, Decode, Encode, Takes, Execute, NotifyAll, RouterProperties.Run, RouterProperties.ReadAll, TcpNext;
    var c, events := w.client, ForRouter(w, x);
    RunNone(c);
    SameClient(c, c);
    RunOne(c, RouterProperties.ConnectionLost);
    NotifyReports(c);
    match x
    case Executes(callback, args) =>
      RunOne(c, events[0]);
      ExecuteReports(c, callback, w.tcp.IsConnected(), Takes(w.tcp, args));
    case Unsubscribes(pattern, key) =>
      RunOne(c, events[0]);
      ExecuteReports(c, None, w.tcp.IsConnected(), Takes(w.tcp, UnsubscribeArgs(pattern, key)));
    case ReadBrings(chunk, stop) =>
      var replies := Decode(w.front + chunk).replies;
      RunReads(c, replies);
      RunReadsLost(c, replies);
      ReadAllReports(c, replies);
      var d := RouterProperties.ReadAll(c, replies);
      NotifyReports(d);
      OnlyReportedTwice(c, d, NotifyAll(d));
      assert Reads(replies) + [] == Reads(replies);
    case _ =>
  }

  /** on_connected, as the connection calls it: mode and subscriptions start anew, the queue does not. */
  lemma {:induction false} ConnectResets(w: Whole, x: Event)
    requires WholeClient.Enabled(w, x) && ReportsConnect(w, x)
    ensures var d := WholeClient.Next(w, x).client;
            d.subs == map[] && !d.pubsubMode && d.opCallbacks == w.client.opCallbacks && d.calls == w.client.calls
  {
    hide Decode, Encode;
    RunOne(w.client, RouterProperties.ConnectionMade);
  }

  /** The subscriptions held, and the mode. */
  ghost predicate HeldInv(w: Whole, r: Record) {
    w.client.subs == r.held && (w.client.pubsubMode <==> r.subscribing)
  }

  lemma {:induction false} StepHolds(w: Whole, r: Record, x: Event)
    requires HeldInv(w, r) && WholeClient.Enabled(w, x)
    ensures HeldInv(WholeClient.Next(w, x), Recorded(w, r, x))
  {
    hide Gone, NewCalls, WholeClient.Next, ForRouter, RouterProperties.Run, Delivered, Sends, ReadingNext;
    if ReportsConnect(w, x) {
      ConnectResets(w, x);
    } else if x.Subscribes? {
      SubscribeStep(w, x);
      if x.key in w.client.subs {
        NothingGone(w, x);
      }
    } else {
      OtherReports(w, x);
    }
  }

  lemma {:induction false} SubscribeStep(w: Whole, x: Event)
    requires x.Subscribes?
    ensures var d := WholeClient.Next(w, x).client;
            d.pubsubMode
            && d.subs == if x.key in w.client.subs then w.client.subs
                         else w.client.subs[x.key := Subscription(x.id, !x.pattern, x.pattern)]
  {
    hide Encode, Execute, Subscribe, Takes;
    var c := w.client;
    RunOne(c, ForRouter(w, x)[0]);
    assert ForRouter(w, x) == [ForRouter(w, x)[0]];
    TakenKey(c, x.key, Subscription(x.id, !x.pattern, x.pattern), w.tcp.IsConnected(),
             Takes(w.tcp, SubscribeArgs(x.pattern, x.key)));
    if x.key !in c.subs {
      SubscribeReports(c, x.key, Subscription(x.id, !x.pattern, x.pattern), w.tcp.IsConnected(),
                       Takes(w.tcp, SubscribeArgs(x.pattern, x.key)));
    }
  }

  /** A subscribe that is refused changes nothing but the mode. */
  lemma {:induction false} TakenKey(c: Client, key: string, callbacks: Subscription, up: bool, accepted: bool)
    ensures key in c.subs ==> Subscribe(c, key, callbacks, up, accepted) == c.(pubsubMode := true)
  {
  }

  lemma {:induction false} NothingGone(w: Whole, x: Event)
    requires x.Subscribes? && x.key in w.client.subs
    ensures Gone(NewCalls(w.client, WholeClient.Next(w, x).client)) == {}
  {
    hide Encode, Execute, Subscribe, Takes;
    var c := w.client;
    RunOne(c, ForRouter(w, x)[0]);
    assert ForRouter(w, x) == [ForRouter(w, x)[0]];
    TakenKey(c, x.key, Subscription(x.id, !x.pattern, x.pattern), w.tcp.IsConnected(),
             Takes(w.tcp, SubscribeArgs(x.pattern, x.key)));
    assert WholeClient.Next(w, x).client.calls == c.calls;
  }

  lemma {:induction false} RunHolds(w: Whole, r: Record, events: seq<Event>)
    requires HeldInv(w, r) && Legal(w, events, false)
    ensures var (v, q) := After(w, r, events); HeldInv(v, q)
    decreases |events|
  {
    hide HeldInv, WholeClient.Enabled, WholeClient.Next, Recorded;
    if events != [] {
      StepHolds(w, r, events[0]);
      RunHolds(WholeClient.Next(w, events[0]), Recorded(w, r, events[0]), events[1..]);
    }
  }

  /**
   Over every run of the client: it holds exactly the keys subscribed since the last
   connect it was told of, but for those whose unsubscribed callback has been called,
   each with the callbacks given first; it is in pub/sub mode exactly if subscribe has
   been called since then. So a subscribe is refused exactly for a key that is held so.
   */
  lemma {:induction false} SubscriptionsAreOurs(events: seq<Event>, pattern: bool, key: string, id: nat)
    requires Legal(INITIAL, events, false)
    ensures var (w, r) := After(INITIAL, NOTHING, events);
            && w.client.subs == r.held && (w.client.pubsubMode <==> r.subscribing)
            && (Commanded(w.client, Subscribes(pattern, key, id)) == None <==> key in r.held)
  {
    hide Legal, After;
    RunHolds(INITIAL, NOTHING, events);
  }
}
