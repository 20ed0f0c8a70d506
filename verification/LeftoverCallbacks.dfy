/** Which ways to lose a connection leave callbacks in the queue, and how long they stay there. */
module LeftoverCallbacks {
  import opened Resp
  import opened Stream
  import opened Commands
  import opened Router
  import opened WholeClient
  import opened Conversation
  import RouterProperties
  import Tcp

  /** on_disconnected runs: a read or a write has failed, or the parser has, and callbacks are set. */
  predicate Drains(w: Whole, x: WholeClient.Event) {
    w.tcp.callbacks &&
    match x
    case ReadBreaks => true
    case Handles(e) => e.WriteFailed? && w.tcp.IsConnected()
    case ReadBrings(_, stop) => stop.ParseError?
    case _ => false
  }

  /** The queue that the step leaves if nothing drains it. */
  function StillWaiting(w: Whole, x: WholeClient.Event): seq<Callback> {
    if Sends(w, x) then w.client.opCallbacks + Owed([CallbackOf(x)])
    else if x.ReadBrings? && w.tcp.callbacks then
      RouterProperties.ReadAll(w.client, Decode(w.front + x.chunk).replies).opCallbacks
    else w.client.opCallbacks
  }

  lemma {:induction false} NotSentQueue(c: Client, callback: Option<Callback>, up: bool, accepted: bool)
    requires !(up && accepted)
    ensures Execute(c, callback, up, accepted).opCallbacks == c.opCallbacks
  {
    if callback.Some? {
      InvokeKeepsQueue(c, callback.value, Error(if up then BUFFER_FULL else CANNOT_SEND));
    }
  }

  lemma {:induction false} UnsentQueue(w: Whole, x: WholeClient.Event)
    requires WholeClient.Enabled(w, x) && !Sends(w, x) && (x.Executes? || x.Subscribes? || x.Unsubscribes?)
    ensures WholeClient.Next(w, x).client.opCallbacks == w.client.opCallbacks
  {
    hide Encode, Invoke, Execute, TcpNext, Takes;
    var c, events, up := w.client, ForRouter(w, x), w.tcp.IsConnected();
    RunOne(c, events[0]);
    assert events == [events[0]];
    match x
    case Executes(callback, args) => NotSentQueue(c, callback, up, Takes(w.tcp, args));
    case Subscribes(pattern, key, id) =>
      if key !in c.subs {
        NotSentQueue(c.(pubsubMode := true, subs := c.subs[key := Subscription(id, !pattern, pattern)]), Some(OnSubscribe),
                     up, Takes(w.tcp, SubscribeArgs(pattern, key)));
      }
    case Unsubscribes(pattern, key) =>
      if key in c.subs {
        NotSentQueue(c, None, up, Takes(w.tcp, UnsubscribeArgs(pattern, key)));
      }
  }

  /** What every step does to the queue. */
  lemma {:induction false} QueueAfter(w: Whole, x: WholeClient.Event)
    requires WholeClient.Enabled(w, x)
    ensures WholeClient.Next(w, x).client.opCallbacks == if Drains(w, x) then [] else StillWaiting(w, x)
  {
    hide Decode, Encode, RouterProperties.ReadAll, RouterProperties.Run, Execute, Subscribe, Unsubscribe, NotifyAll;
    RunNone(w.client);
    RunOne(w.client, RouterProperties.ConnectionMade);
    RunOne(w.client, RouterProperties.ConnectionLost);
    RouterProperties.NotifiedInOrder(w.client);
    if Sends(w, x) {
      SentQueue(w, x);
    } else if x.Executes? || x.Subscribes? || x.Unsubscribes? {
      UnsentQueue(w, x);
    } else if x.ReadBrings? && w.tcp.callbacks {
      var replies := Decode(w.front + x.chunk).replies;
      if x.stop.ParseError? {
        RunReadsLost(w.client, replies);
        RouterProperties.NotifiedInOrder(RouterProperties.ReadAll(w.client, replies));
      } else {
        ReadQueue(w, x);
      }
    }
  }

  predicate Loses(w: Whole, x: WholeClient.Event)
    requires WholeClient.Enabled(w, x)
  {
    w.tcp.IsConnected() && !WholeClient.Next(w, x).tcp.IsConnected()
  }

  /** A command that is sent, an unsubscribe and the handlers that come with a living connection do not lose it. */
  lemma {:induction false} NoLoss(w: Whole, x: WholeClient.Event)
    requires WholeClient.Enabled(w, x) && w.tcp.IsConnected()
    requires Sends(w, x) || x.Unsubscribes? || (x.Handles? && LeavesUp(x.event))
    ensures !Loses(w, x)
  {
    hide Encode, Decode, Invoke, Takes;
    RunNone(w.client);
    if |ForRouter(w, x)| == 1 {
      RunOne(w.client, ForRouter(w, x)[0]);
      assert ForRouter(w, x) == [ForRouter(w, x)[0]];
    }
    assert WholeClient.Next(w, x).client.calls == w.client.calls;
  }

  /**
   Which losses leave callbacks behind: all by which no read, write or parse loop fails.
   These are a disconnect or another connect by the user, a late failure of another
   connect, a late timer, a command refused because the buffer is full, and a reply
   that the router rejects.
   */
  lemma {:induction false} LossLeavesCallbacks(w: Whole, x: WholeClient.Event)
    requires WholeClient.Enabled(w, x) && Loses(w, x)
    ensures WholeClient.Next(w, x).client.opCallbacks != [] <==> StillWaiting(w, x) != [] && !Drains(w, x)
    ensures !x.ReadBrings? ==> StillWaiting(w, x) == w.client.opCallbacks
    ensures w.tcp.callbacks && !Drains(w, x) ==>
              || x.Connects? || x.Disconnects? || x.Subscribes? || x.Executes?
              || (x.Handles? && (x.event.ConnectFailed? || x.event.TimerHandler?))
              || (x.ReadBrings? && !x.stop.ParseError?)
  {
    hide WholeClient.Next, Sends, Decode;
    QueueAfter(w, x);
    if Sends(w, x) || x.Unsubscribes? || (x.Handles? && LeavesUp(x.event)) {
      NoLoss(w, x);
    }
  }

  /** The one among them that the client brings about itself: a subscribe that the full buffer refuses. */
  lemma {:induction false} RefusedSubscribeLeaves(w: Whole, pattern: bool, key: string, id: nat)
    requires w.tcp.IsConnected() && key !in w.client.subs && !Takes(w.tcp, SubscribeArgs(pattern, key))
    ensures var x := Subscribes(pattern, key, id);
            Loses(w, x) && WholeClient.Next(w, x).client.opCallbacks == w.client.opCallbacks
  {
    hide Takes;
    var x, c := Subscribes(pattern, key, id), w.client;
    var callbacks := Subscription(id, !pattern, pattern);
    RunOne(c, ForRouter(w, x)[0]);
    assert ForRouter(w, x) == [ForRouter(w, x)[0]];
    RouterProperties.SubscribeUnsent(c, key, callbacks, true, false);
    UnsentQueue(w, x);
    var d := Router.Subscribe(c, key, callbacks, true, false);
    assert WholeClient.Next(w, x).client == d;
    assert c.calls <= d.calls;
  }

  predicate BringsOrBreaks(x: WholeClient.Event) {
    x.ReadBrings? || x.ReadBreaks? || (x.Handles? && x.event.WriteFailed?)
  }

  /** And they stay there, over any number of connects, until a read brings something or a read or write fails. */
  lemma {:induction false} CallbacksStay(w: Whole, r: Record, events: seq<WholeClient.Event>)
    requires Legal(w, events, false) && forall i :: 0 <= i < |events| ==> !BringsOrBreaks(events[i])
    ensures w.client.opCallbacks <= After(w, r, events).0.client.opCallbacks
    decreases |events|
  {
    hide WholeClient.Next, WholeClient.Enabled, Recorded, Owed, Sends;
    if events != [] {
      QueueAfter(w, events[0]);
      CallbacksStay(WholeClient.Next(w, events[0]), Recorded(w, r, events[0]), events[1..]);
    }
  }
}
