/** What becomes of every command: it is sent as given, or answered with an error at once, or when the connection is lost. */
module Accounts {
  import opened Resp
  import opened Stream
  import opened Commands
  import opened Router
  import opened WholeClient
  import opened LeftoverCallbacks
  import opened RouterProperties
  import Conversation
  import Tcp
  import TcpProperties

  /** The delivery that a command which is not sent causes: its callback gets an error. */
  function Refusals(w: Whole, x: WholeClient.Event): seq<(Callback, Reply)> {
    if Commanded(w.client, x).Some? && CallbackOf(x).Some? && !Sends(w, x) then
      [(CallbackOf(x).value,
        Error(if w.tcp.IsConnected() then "ERROR: TCP send buffer is full. Current limit is: 10485760"
              else "TCP CANNOT SEND MESSAGE"))]
    else []
  }

  /** Everyone gets the error of a lost connection, in order. */
  function Lost(callbacks: seq<Callback>): (deliveries: seq<(Callback, Reply)>)
    ensures |deliveries| == |callbacks|
    ensures forall i :: 0 <= i < |callbacks| ==> deliveries[i] == (callbacks[i], Error("TCP DISCONNECTED"))
  {
    seq(|callbacks|, i requires 0 <= i < |callbacks| => (callbacks[i], Error("TCP DISCONNECTED")))
  }

  /** The deliveries that no read has made. */
  function Errors(w: Whole, x: WholeClient.Event): seq<(Callback, Reply)> {
    Refusals(w, x) + if Drains(w, x) then Lost(StillWaiting(w, x)) else []
  }

  lemma {:induction false} PairsAreLost(callbacks: seq<Callback>)
    ensures Pairs(callbacks, seq(|callbacks|, _ => Error(DISCONNECTED))) == Lost(callbacks)
  {
    if callbacks != [] {
      var errors := seq(|callbacks|, _ => Error(DISCONNECTED));
      PairsAreLost(callbacks[1..]);
      assert errors[1..] == seq(|callbacks[1..]|, _ => Error(DISCONNECTED));
      assert Lost(callbacks) == [Lost(callbacks)[0]] + Lost(callbacks[1..]);
    }
  }

  lemma {:induction false} ExecuteAccount(c: Client, callback: Option<Callback>, up: bool, accepted: bool)
    ensures Deliveries(Execute(c, callback, up, accepted).calls) == Deliveries(c.calls) +
              if callback.Some? && !(up && accepted) then
                [(callback.value, Error(if up then "ERROR: TCP send buffer is full. Current limit is: 10485760"
                                        else "TCP CANNOT SEND MESSAGE"))]
              else []
  {
    hide Deliveries, Invoke;
    if callback.Some? {
      DeliveriesOfInvoke(c, callback.value, Error(if up then BUFFER_FULL else CANNOT_SEND));
    } else {
      DeliveriesMade(c, NullCall);
    }
  }

  lemma {:induction false} NotifyAccount(c: Client)
    ensures Deliveries(NotifyAll(c).calls) == Deliveries(c.calls) + Lost(c.opCallbacks)
  {
    NotifiedInOrder(c);
    PairsAreLost(c.opCallbacks);
  }

  lemma {:induction false} ExecutesAccount(w: Whole, callback: Option<Callback>, args: seq<string>)
    requires args != []
    ensures var x := Executes(callback, args);
            Deliveries(WholeClient.Next(w, x).client.calls) == Deliveries(w.client.calls) + Refusals(w, x)
  {
    hide Deliveries, Execute, Encode, Takes, TcpNext;
    var x, up := Executes(callback, args), w.tcp.IsConnected();
    RunOne(w.client, ForRouter(w, x)[0]);
    assert ForRouter(w, x) == [ForRouter(w, x)[0]];
    ExecuteAccount(w.client, callback, up, Takes(w.tcp, args));
  }

  lemma {:induction false} SubscribesAccount(w: Whole, pattern: bool, key: string, id: nat)
    ensures var x := Subscribes(pattern, key, id);
            Deliveries(WholeClient.Next(w, x).client.calls) == Deliveries(w.client.calls) + Refusals(w, x)
  {
    hide Deliveries, Execute, Encode, Takes, TcpNext;
    var x, up, c := Subscribes(pattern, key, id), w.tcp.IsConnected(), w.client;
    RunOne(c, ForRouter(w, x)[0]);
    assert ForRouter(w, x) == [ForRouter(w, x)[0]];
    ExecuteAccount(c.(pubsubMode := true, subs := c.subs[key := Subscription(id, !pattern, pattern)]), Some(OnSubscribe),
                   up, Takes(w.tcp, SubscribeArgs(pattern, key)));
  }

  lemma {:induction false} UnsubscribesAccount(w: Whole, pattern: bool, key: string)
    ensures var x := Unsubscribes(pattern, key);
            Deliveries(WholeClient.Next(w, x).client.calls) == Deliveries(w.client.calls) + Refusals(w, x)
  {
    hide Deliveries, Execute, Encode, Takes, TcpNext;
    var x, up := Unsubscribes(pattern, key), w.tcp.IsConnected();
    RunOne(w.client, ForRouter(w, x)[0]);
    assert ForRouter(w, x) == [ForRouter(w, x)[0]];
    ExecuteAccount(w.client, None, up, Takes(w.tcp, UnsubscribeArgs(pattern, key)));
  }

  lemma {:induction false} CommandAccount(w: Whole, x: WholeClient.Event)
    requires WholeClient.Enabled(w, x) && (x.Executes? || x.Subscribes? || x.Unsubscribes?)
    ensures Deliveries(WholeClient.Next(w, x).client.calls) == Deliveries(w.client.calls) + Refusals(w, x)
  {
    hide Deliveries, WholeClient.Next, Refusals;
    match x
    case Executes(callback, args) => ExecutesAccount(w, callback, args);
    case Subscribes(pattern, key, id) => SubscribesAccount(w, pattern, key, id);
    case Unsubscribes(pattern, key) => UnsubscribesAccount(w, pattern, key);
  }

  /** A read delivers in turn; what waits behind it is told if the parser has failed. */
  lemma {:induction false} ReadAccount(w: Whole, x: WholeClient.Event)
    requires WholeClient.Enabled(w, x) && x.ReadBrings? && w.tcp.callbacks
    ensures Deliveries(WholeClient.Next(w, x).client.calls) ==
              Deliveries(w.client.calls) + Delivered(w, x) + (if Drains(w, x) then Lost(StillWaiting(w, x)) else [])
  {
    hide Deliveries, Decode, RouterProperties.ReadAll, RouterProperties.Run, NotifyAll;
    var replies := Decode(w.front + x.chunk).replies;
    var d := RouterProperties.ReadAll(w.client, replies);
    ReadAllDelivers(w.client, replies);
    if x.stop.ParseError? {
      RunReadsLost(w.client, replies);
      NotifyAccount(d);
    } else {
      Conversation.ReadQueue(w, x);
    }
  }

  lemma {:induction false} ReadAllDelivers(c: Client, replies: seq<Reply>)
    ensures Deliveries(c.calls) <= Deliveries(RouterProperties.ReadAll(c, replies).calls)
    decreases |replies|
  {
    hide Deliveries, OnRead, IsPush;
    if replies != [] {
      ReadOne(c, replies[0]);
      ReadAllDelivers(OnRead(c, replies[0]), replies[1..]);
    }
  }

  /** The account of every step: what callbacks get is what reads deliver, and errors. */
  lemma {:induction false} DeliveriesAfter(w: Whole, x: WholeClient.Event)
    requires WholeClient.Enabled(w, x)
    ensures Deliveries(WholeClient.Next(w, x).client.calls) ==
              Deliveries(w.client.calls) + Delivered(w, x) + Errors(w, x)
  {
    hide Deliveries, Delivered, Encode, Decode, RouterProperties.Run, NotifyAll, Takes;
    RunNone(w.client);
    RunOne(w.client, ConnectionMade);
    RunOne(w.client, ConnectionLost);
    NotifyAccount(w.client);
    DeliveredByReads(w, x);
    if x.Executes? || x.Subscribes? || x.Unsubscribes? {
      CommandAccount(w, x);
    } else if x.ReadBrings? && w.tcp.callbacks {
      ReadAccount(w, x);
    }
  }

  lemma {:induction false} DeliveredByReads(w: Whole, x: WholeClient.Event)
    ensures !(x.ReadBrings? && w.tcp.callbacks) ==> Delivered(w, x) == []
  {
  }

  // ---- every run ----

  function DeliveredOver(w: Whole, events: seq<WholeClient.Event>): seq<(Callback, Reply)>
    requires Legal(w, events, false)
    decreases |events|
  {
    if events == [] then [] else Delivered(w, events[0]) + DeliveredOver(WholeClient.Next(w, events[0]), events[1..])
  }

  function ErrorsOver(w: Whole, events: seq<WholeClient.Event>): seq<(Callback, Reply)>
    requires Legal(w, events, false)
    decreases |events|
  {
    if events == [] then [] else Errors(w, events[0]) + ErrorsOver(WholeClient.Next(w, events[0]), events[1..])
  }

  predicate AreErrors(deliveries: seq<(Callback, Reply)>) {
    forall i :: 0 <= i < |deliveries| ==>
      deliveries[i].1 in [Error("TCP DISCONNECTED"), Error("TCP CANNOT SEND MESSAGE"),
                          Error("ERROR: TCP send buffer is full. Current limit is: 10485760")]
  }

  lemma {:induction false} StepErrors(w: Whole, x: WholeClient.Event)
    ensures AreErrors(Errors(w, x))
  {
    hide Commanded, Sends, Drains, StillWaiting;
  }

  lemma {:induction false} RunErrors(w: Whole, r: Record, events: seq<WholeClient.Event>)
    requires Legal(w, events, false)
    ensures AreErrors(ErrorsOver(w, events))
    ensures multiset(Deliveries(After(w, r, events).0.client.calls)) ==
              multiset(Deliveries(w.client.calls)) + multiset(DeliveredOver(w, events)) + multiset(ErrorsOver(w, events))
    decreases |events|
  {
    hide Deliveries, Delivered, Errors, WholeClient.Next, WholeClient.Enabled, Recorded;
    if events != [] {
      StepErrors(w, events[0]);
      DeliveriesAfter(w, events[0]);
      RunErrors(WholeClient.Next(w, events[0]), Recorded(w, r, events[0]), events[1..]);
    }
  }

  /**
   Over every run of the client: each delivery to a callback was made by a read, in
   its turn, or is one of the three errors; so no callback takes a command that was
   not answered for one that was.
   */
  lemma {:induction false} UnreadAreErrors(events: seq<WholeClient.Event>)
    requires Legal(INITIAL, events, false)
    ensures var (w, _) := After(INITIAL, NOTHING, events);
            && AreErrors(ErrorsOver(INITIAL, events))
            && multiset(Deliveries(w.client.calls)) ==
                 multiset(DeliveredOver(INITIAL, events)) + multiset(ErrorsOver(INITIAL, events))
  {
    hide Legal, After, DeliveredOver, ErrorsOver;
    RunErrors(INITIAL, NOTHING, events);
    NothingDelivered();
  }

  // ---- sent or refused ----

  /** The words that go to the server. */
  lemma {:induction false} CommandWords(c: Client, pattern: bool, key: string, id: nat, callback: Option<Callback>,
                                        args: seq<string>)
    ensures Commanded(c, Executes(callback, args)) == Some(args)
    ensures key !in c.subs ==> Commanded(c, Subscribes(false, key, id)) == Some(["SUBSCRIBE", key])
    ensures key !in c.subs ==> Commanded(c, Subscribes(true, key, id)) == Some(["PSUBSCRIBE", key])
    ensures key in c.subs ==> Commanded(c, Unsubscribes(false, key)) == Some(["UNSUBSCRIBE", key])
    ensures key in c.subs ==> Commanded(c, Unsubscribes(true, key)) == Some(["PUNSUBSCRIBE", key])
    ensures key in c.subs ==> Commanded(c, Subscribes(pattern, key, id)) == None
    ensures key !in c.subs ==> Commanded(c, Unsubscribes(pattern, key)) == None
  {
  }

  /**
   After every run: a command handed to execute is sent exactly if the connection is up
   and its message still fits the limit. Then it stands last in the send queue and its
   callback last among those that wait, and nobody is called. Otherwise neither queue
   changes, and its callback has been called with the error.
   */
  lemma {:induction false} SentOrRefused(events: seq<WholeClient.Event>, x: WholeClient.Event)
    requires Legal(INITIAL, events, false)
    requires var (w, _) := After(INITIAL, NOTHING, events); WholeClient.Enabled(w, x) && Commanded(w.client, x).Some?
    ensures var (w, _) := After(INITIAL, NOTHING, events);
            var v, message := WholeClient.Next(w, x), Encode(CommandWire(Commanded(w.client, x).value));
            if w.tcp.IsConnected() && TcpProperties.Total(w.tcp.sendBuffer) + |message| <= 10485760 then
              && v.tcp.sendBuffer == w.tcp.sendBuffer + [message]
              && v.client.opCallbacks == w.client.opCallbacks + Conversation.Owed([CallbackOf(x)])
              && v.client.calls == w.client.calls
            else
              && v.tcp.sendBuffer == w.tcp.sendBuffer && v.client.opCallbacks == w.client.opCallbacks
              && Deliveries(v.client.calls) == Deliveries(w.client.calls) + Refusals(w, x)
  {
    hide Legal, After, Deliveries, Encode, CommandWire, Refusals, AreMessages, Sendable, Ledger, ModeInv, ReadingInv,
      TcpProperties.Reachable, TcpProperties.Total;
    RunInv(events);
    var (w, _) := After(INITIAL, NOTHING, events);
    if Sends(w, x) {
      Conversation.SentQueue(w, x);
      SentCalls(w, x);
    } else {
      UnsentQueue(w, x);
      CommandAccount(w, x);
      UnsentBuffer(w, x);
    }
  }

  lemma {:induction false} SentCalls(w: Whole, x: WholeClient.Event)
    requires WholeClient.Enabled(w, x) && Sends(w, x)
    ensures WholeClient.Next(w, x).client.calls == w.client.calls
    ensures WholeClient.Next(w, x).tcp.sendBuffer
         == w.tcp.sendBuffer + [Encode(CommandWire(Commanded(w.client, x).value))]
  {
    hide Encode, CommandWire, Invoke;
    RunOne(w.client, ForRouter(w, x)[0]);
    assert ForRouter(w, x) == [ForRouter(w, x)[0]];
  }

  lemma {:induction false} UnsentBuffer(w: Whole, x: WholeClient.Event)
    requires WholeClient.Enabled(w, x) && !Sends(w, x) && Commanded(w.client, x).Some?
    ensures WholeClient.Next(w, x).tcp.sendBuffer == w.tcp.sendBuffer
  {
    hide Encode, RouterProperties.Run, ForRouter, Takes;
  }
}
