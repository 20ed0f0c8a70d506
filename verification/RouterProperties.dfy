/** What every run of one client keeps, whatever replies and events come. */
module RouterProperties {
  import opened Resp
  import opened Router

  /** The callbacks of commands that have been called, with what they got. */
  function Deliveries(calls: seq<Call>): seq<(Callback, Reply)> {
    if calls == [] then []
    else
      var last := calls[|calls| - 1];
      Deliveries(calls[..|calls| - 1]) + if last.Replied? then [(last.callback, last.reply)] else []
  }

  lemma NothingDelivered()
    ensures Deliveries([]) == []
  {
  }

  lemma {:induction false} DeliveriesMade(c: Client, call: Call)
    ensures Deliveries(c.Made(call).calls) ==
              Deliveries(c.calls) + if call.Replied? then [(call.callback, call.reply)] else []
  {
    assert c.Made(call).calls[..|c.calls|] == c.calls;
  }

  lemma {:induction false} DeliveriesOfPush(c: Client, reply: Reply)
    ensures Deliveries(OnSubscribeCallback(c, reply).calls) == Deliveries(c.calls)
  {
    hide TopicOf, Upper, Deliveries;
    var d := OnSubscribeCallback(c, reply);
    if d != c {
      var call := d.calls[|c.calls|];
      assert d.calls == c.Made(call).calls;
      DeliveriesMade(c, call);
    }
  }

  lemma {:induction false} DeliveriesOfInvoke(c: Client, callback: Callback, reply: Reply)
    ensures Deliveries(Invoke(c, callback, reply).calls) == Deliveries(c.calls) + [(callback, reply)]
    ensures Invoke(c, callback, reply).opCallbacks == c.opCallbacks
    ensures Invoke(c, callback, reply).pubsubMode == c.pubsubMode
  {
    hide Deliveries;
    DeliveriesMade(c, Replied(callback, reply));
    DeliveriesOfPush(c.Made(Replied(callback, reply)), reply);
    InvokeKeepsQueue(c, callback, reply);
    InvokeKeepsQueue(c.Made(Replied(callback, reply)), callback, reply);
  }

  // ---- positional matching ----

  function ReadAll(c: Client, replies: seq<Reply>): Client
    decreases |replies|
  {
    if replies == [] then c else ReadAll(OnRead(c, replies[0]), replies[1..])
  }

  /** The replies that go to the queue. */
  function PassedOn(pubsubMode: bool, replies: seq<Reply>): seq<Reply> {
    if replies == [] then []
    else (if pubsubMode && IsPush(replies[0]) then [] else [replies[0]]) + PassedOn(pubsubMode, replies[1..])
  }

  function Pairs(callbacks: seq<Callback>, replies: seq<Reply>): seq<(Callback, Reply)>
    requires |callbacks| == |replies|
  {
    if replies == [] then [] else [(callbacks[0], replies[0])] + Pairs(callbacks[1..], replies[1..])
  }

  lemma {:induction false} ReadOne(c: Client, reply: Reply)
    ensures var d := OnRead(c, reply);
            && d.pubsubMode == c.pubsubMode
            && if (c.pubsubMode && IsPush(reply)) || c.opCallbacks == [] then
                 d.opCallbacks == c.opCallbacks && Deliveries(d.calls) == Deliveries(c.calls)
               else
                 d.opCallbacks == c.opCallbacks[1..] &&
                 Deliveries(d.calls) == Deliveries(c.calls) + [(c.opCallbacks[0], reply)]
  {
    hide Deliveries, TopicOf, Upper, Invoke;
    if c.pubsubMode && IsPush(reply) {
      InvokeKeepsQueue(c, OnSubscribe, reply);
      DeliveriesOfPush(c, reply);
    } else if c.opCallbacks == [] {
      DeliveriesMade(c, ReconnectAsked);
    } else {
      DeliveriesOfInvoke(c, c.opCallbacks[0], reply);
    }
  }

  /**
   The k-th reply that is not a push goes to the k-th waiting callback, and the
   queue moves on by as many; pushes in between, known or not, change nothing of it.
   */
  lemma {:induction false} PositionalMatching(c: Client, replies: seq<Reply>)
    requires |PassedOn(c.pubsubMode, replies)| <= |c.opCallbacks|
    ensures var d := ReadAll(c, replies);
            var passed := PassedOn(c.pubsubMode, replies);
            && d.opCallbacks == c.opCallbacks[|passed|..]
            && Deliveries(d.calls) == Deliveries(c.calls) + Pairs(c.opCallbacks[..|passed|], passed)
    decreases |replies|
  {
    hide Deliveries, OnRead, IsPush;
    if replies != [] {
      var d := OnRead(c, replies[0]);
      var passed := PassedOn(c.pubsubMode, replies);
      ReadOne(c, replies[0]);
      PositionalMatching(d, replies[1..]);
      if !(c.pubsubMode && IsPush(replies[0])) {
        var rest := PassedOn(d.pubsubMode, replies[1..]);
        assert passed[1..] == rest;
        assert c.opCallbacks[1..][..|rest|] == c.opCallbacks[..|passed|][1..];
        assert Pairs(c.opCallbacks[..|passed|], passed)
            == [(c.opCallbacks[0], replies[0])] + Pairs(c.opCallbacks[1..][..|rest|], rest);
      } else {
        assert passed == PassedOn(d.pubsubMode, replies[1..]);
      }
    }
  }

  /** The same run with every push left out: same callbacks, same replies, same queue. */
  lemma {:induction false} PushesErased(c: Client, d: Client, replies: seq<Reply>)
    requires c.pubsubMode == d.pubsubMode && c.opCallbacks == d.opCallbacks
    requires Deliveries(c.calls) == Deliveries(d.calls)
    ensures var e, f := ReadAll(c, replies), ReadAll(d, PassedOn(d.pubsubMode, replies));
            e.opCallbacks == f.opCallbacks && Deliveries(e.calls) == Deliveries(f.calls)
    decreases |replies|
  {
    hide Deliveries, OnRead, IsPush;
    if replies != [] {
      var reply := replies[0];
      ReadOne(c, reply);
      if c.pubsubMode && IsPush(reply) {
        PushesErased(OnRead(c, reply), d, replies[1..]);
        assert PassedOn(d.pubsubMode, replies) == PassedOn(d.pubsubMode, replies[1..]);
      } else {
        ReadOne(d, reply);
        PushesErased(OnRead(c, reply), OnRead(d, reply), replies[1..]);
        assert PassedOn(d.pubsubMode, replies)[1..] == PassedOn(d.pubsubMode, replies[1..]);
      }
    }
  }

  /** A lost connection answers every waiting command with the same error, oldest first. */
  lemma {:induction false} NotifiedInOrder(c: Client)
    ensures NotifyAll(c).opCallbacks == []
    ensures Deliveries(NotifyAll(c).calls) ==
              Deliveries(c.calls) + Pairs(c.opCallbacks, seq(|c.opCallbacks|, _ => Error(DISCONNECTED)))
    decreases |c.opCallbacks|
  {
    hide Deliveries, Invoke;
    if c.opCallbacks != [] {
      var first, rest := c.opCallbacks[0], c.opCallbacks[1..];
      var errors := seq(|c.opCallbacks|, _ => Error(DISCONNECTED));
      DeliveriesOfInvoke(c, first, Error(DISCONNECTED));
      NotifiedInOrder(Invoke(c, first, Error(DISCONNECTED)).(opCallbacks := rest));
      assert errors[1..] == seq(|rest|, _ => Error(DISCONNECTED));
    }
  }

  // ---- commands sent from inside a reply callback ----

  /** One call of execute. */
  datatype Request = Request(callback: Option<Callback>, connected: bool, accepted: bool)

  function ExecuteEach(c: Client, requests: seq<Request>): Client
    decreases |requests|
  {
    if requests == [] then c
    else
      var r := requests[0];
      ExecuteEach(Execute(c, r.callback, r.connected, r.accepted), requests[1..])
  }

  function Popped(c: Client): Client
    requires c.opCallbacks != []
  {
    c.(opCallbacks := c.opCallbacks[1..])
  }

  /** on_read when the callback it calls executes commands: they are queued while the callback still stands in front. */
  function OnReadReentered(c: Client, reply: Reply, requests: seq<Request>): Client
    requires c.opCallbacks != []
  {
    var d := ExecuteEach(Invoke(c, c.opCallbacks[0], reply), requests);
    if d.opCallbacks == [] then d else Popped(d)
  }

  /** The subscription callback does not look at the queue. */
  lemma {:induction false} SubscriptionsIgnoreQueue(c: Client, d: Client, reply: Reply)
    requires d == c.(opCallbacks := d.opCallbacks)
    ensures OnSubscribeCallback(d, reply) == OnSubscribeCallback(c, reply).(opCallbacks := d.opCallbacks)
  {
    hide TopicOf, Upper;
  }

  lemma {:induction false} InvokePopped(c: Client, callback: Callback, reply: Reply)
    requires c.opCallbacks != []
    ensures Invoke(c, callback, reply).opCallbacks == c.opCallbacks
    ensures Invoke(Popped(c), callback, reply) == Popped(Invoke(c, callback, reply))
  {
    hide OnSubscribeCallback;
    var call := Replied(callback, reply);
    InvokeKeepsQueue(c, callback, reply);
    SubscriptionsIgnoreQueue(c.Made(call), Popped(c).Made(call), reply);
  }

  lemma {:induction false} ExecutePopped(c: Client, r: Request)
    requires c.opCallbacks != []
    ensures Execute(c, r.callback, r.connected, r.accepted).opCallbacks != []
    ensures Execute(Popped(c), r.callback, r.connected, r.accepted)
         == Popped(Execute(c, r.callback, r.connected, r.accepted))
  {
    hide Invoke;
    if r.callback.Some? {
      var error := Error(if r.connected then BUFFER_FULL else CANNOT_SEND);
      InvokeKeepsQueue(c, r.callback.value, error);
      InvokePopped(c, r.callback.value, error);
    }
  }

  lemma {:induction false} ExecuteEachPopped(c: Client, requests: seq<Request>)
    requires c.opCallbacks != []
    ensures ExecuteEach(c, requests).opCallbacks != []
    ensures ExecuteEach(Popped(c), requests) == Popped(ExecuteEach(c, requests))
    decreases |requests|
  {
    hide Execute;
    if requests != [] {
      var r := requests[0];
      ExecutePopped(c, r);
      ExecuteEachPopped(Execute(c, r.callback, r.connected, r.accepted), requests[1..]);
    }
  }

  /** Executing from inside a reply callback comes to the same as executing right after it. */
  lemma {:induction false} ReentrantExecute(c: Client, reply: Reply, requests: seq<Request>)
    requires c.opCallbacks != [] && !(c.pubsubMode && IsPush(reply))
    ensures OnReadReentered(c, reply, requests) == ExecuteEach(OnRead(c, reply), requests)
  {
    hide Invoke, Execute;
    InvokeKeepsQueue(c, c.opCallbacks[0], reply);
    ExecuteEachPopped(Invoke(c, c.opCallbacks[0], reply), requests);
  }

  // ---- commands that cannot be sent ----

  /**
   An unsubscribe calls an empty function exactly when the connection is down, and is
   lost silently when the buffer is full.
   */
  lemma {:induction false} UnsubscribeUnsent(c: Client, key: string, connected: bool, accepted: bool)
    ensures Unsubscribe(c, key, connected, accepted).calls == c.calls + [NullCall] <==> key in c.subs && !connected
    ensures connected || key !in c.subs ==> Unsubscribe(c, key, connected, accepted) == c
  {
    assert |c.calls + [NullCall]| == |c.calls| + 1;
  }

  /** A subscribe that cannot be sent keeps its key registered and asks for a reconnect, even while connecting. */
  lemma {:induction false} SubscribeUnsent(c: Client, key: string, callbacks: Subscription, connected: bool, accepted: bool)
    requires key !in c.subs
    ensures var d := Subscribe(c, key, callbacks, connected, accepted);
            && key in d.subs && d.subs[key] == callbacks
            && (ReconnectAsked in d.calls[|c.calls|..] <==> !(connected && accepted))
    ensures connected && accepted ==>
              Subscribe(c, key, callbacks, connected, accepted).opCallbacks == c.opCallbacks + [OnSubscribe]
  {
    var error := Error(if connected then BUFFER_FULL else CANNOT_SEND);
    var d := Subscribe(c, key, callbacks, connected, accepted);
    if connected && accepted {
      assert d.calls[|c.calls|..] == [];
    } else {
      assert d.calls == c.calls + [Replied(OnSubscribe, error)] + [ReconnectAsked];
      assert d.calls[|c.calls| + 1] == ReconnectAsked;
    }
  }

  // ---- the callback ledger ----

  datatype Event =
    | ExecuteCalled(callback: Option<Callback>, connected: bool, accepted: bool)
    | SubscribeCalled(key: string, id: nat, pattern: bool, connected: bool, accepted: bool)
    | UnsubscribeCalled(key: string, connected: bool, accepted: bool)
    | ReplyRead(reply: Reply)
    | ConnectionMade
    | ConnectionLost

  function Next(c: Client, e: Event): Client {
    match e
    case ExecuteCalled(callback, connected, accepted) => Execute(c, callback, connected, accepted)
    case SubscribeCalled(key, id, pattern, connected, accepted) =>
      Subscribe(c, key, Subscription(id, !pattern, pattern), connected, accepted)
    case UnsubscribeCalled(key, connected, accepted) => Unsubscribe(c, key, connected, accepted)
    case ReplyRead(reply) => OnRead(c, reply)
    case ConnectionMade => OnConnected(c)
    case ConnectionLost => NotifyAll(c)
  }

  /** The callbacks that the event hands to execute. */
  function Given(c: Client, e: Event): seq<Callback> {
    match e
    case ExecuteCalled(callback, _, _) => if callback.Some? then [callback.value] else []
    case SubscribeCalled(key, _, _, _, _) => if key in c.subs then [] else [OnSubscribe]
    case _ => []
  }

  function Called(calls: seq<Call>): seq<Callback> {
    CallbacksOf(Deliveries(calls))
  }

  function CallbacksOf(deliveries: seq<(Callback, Reply)>): (callbacks: seq<Callback>)
    ensures |callbacks| == |deliveries| && forall i :: 0 <= i < |callbacks| ==> callbacks[i] == deliveries[i].0
  {
    seq(|deliveries|, i requires 0 <= i < |deliveries| => deliveries[i].0)
  }

  /** Every callback given is owed a call or has had it. */
  ghost predicate Ledger(c: Client, given: seq<Callback>) {
    multiset(given) == multiset(c.opCallbacks) + multiset(Called(c.calls))
  }

  lemma {:induction false} CalledInvoke(c: Client, callback: Callback, reply: Reply)
    ensures Called(Invoke(c, callback, reply).calls) == Called(c.calls) + [callback]
  {
    hide Deliveries;
    DeliveriesOfInvoke(c, callback, reply);
  }

  lemma {:induction false} CalledMade(c: Client, call: Call)
    requires !call.Replied?
    ensures Called(c.Made(call).calls) == Called(c.calls)
  {
    DeliveriesMade(c, call);
  }

  lemma {:induction false} ExecuteLedger(c: Client, callback: Option<Callback>, connected: bool, accepted: bool,
                                         given: seq<Callback>)
    requires Ledger(c, given)
    ensures Ledger(Execute(c, callback, connected, accepted), given + if callback.Some? then [callback.value] else [])
  {
    hide Called, Deliveries, Invoke;
    if callback.None? {
      CalledMade(c, NullCall);
      assert given + [] == given;
    } else {
      var error := Error(if connected then BUFFER_FULL else CANNOT_SEND);
      CalledInvoke(c, callback.value, error);
      DeliveriesOfInvoke(c, callback.value, error);
    }
  }

  lemma {:induction false} ReadLedger(c: Client, reply: Reply, given: seq<Callback>)
    requires Ledger(c, given)
    ensures Ledger(OnRead(c, reply), given)
  {
    hide OnRead, IsPush, Deliveries;
    ReadOne(c, reply);
    if !(c.pubsubMode && IsPush(reply)) && c.opCallbacks != [] {
      assert c.opCallbacks == [c.opCallbacks[0]] + c.opCallbacks[1..];
      assert Called(OnRead(c, reply).calls) == Called(c.calls) + [c.opCallbacks[0]];
    }
  }

  lemma {:induction false} NotifyLedger(c: Client, given: seq<Callback>)
    requires Ledger(c, given)
    ensures Ledger(NotifyAll(c), given) && NotifyAll(c).opCallbacks == []
    decreases |c.opCallbacks|
  {
    hide Called, Invoke;
    if c.opCallbacks != [] {
      var first, rest := c.opCallbacks[0], c.opCallbacks[1..];
      var d := Invoke(c, first, Error(DISCONNECTED));
      CalledInvoke(c, first, Error(DISCONNECTED));
      assert c.opCallbacks == [first] + rest;
      NotifyLedger(d.(opCallbacks := rest), given);
    }
  }

  lemma {:induction false} LedgerStep(c: Client, e: Event, given: seq<Callback>)
    requires Ledger(c, given)
    ensures Ledger(Next(c, e), given + Given(c, e))
  {
    hide Called, Execute, OnRead;
    assert given + [] == given;
    match e
    case ExecuteCalled(callback, connected, accepted) => ExecuteLedger(c, callback, connected, accepted, given);
    case SubscribeCalled(key, id, pattern, connected, accepted) =>
      if key !in c.subs {
        var d := c.(pubsubMode := true, subs := c.subs[key := Subscription(id, !pattern, pattern)]);
        ExecuteLedger(d, Some(OnSubscribe), connected, accepted, given);
      }
    case UnsubscribeCalled(key, connected, accepted) =>
      if key in c.subs {
        ExecuteLedger(c, None, connected, accepted, given);
      }
    case ReplyRead(reply) => ReadLedger(c, reply, given);
    case ConnectionMade =>
    case ConnectionLost => NotifyLedger(c, given);
  }

  function Run(c: Client, given: seq<Callback>, events: seq<Event>): (Client, seq<Callback>)
    decreases |events|
  {
    if events == [] then (c, given) else Run(Next(c, events[0]), given + Given(c, events[0]), events[1..])
  }

  const FRESH: Client := Client([], false, map[], [])

  /**
   The callback ledger over every run: whatever happens to the connection, a
   callback that was given once is queued once and not called, or called once and
   not queued; and once a lost connection has been noticed none is queued.
   */
  lemma {:induction false} CallbackLedger(events: seq<Event>, callback: Callback)
    ensures var (c, given) := Run(FRESH, [], events);
            && multiset(given)[callback] == multiset(c.opCallbacks)[callback] + multiset(Called(c.calls))[callback]
            && (multiset(given)[callback] == 1 ==> (callback in c.opCallbacks <==> callback !in Called(c.calls)))
            && NotifyAll(c).opCallbacks == []
            && multiset(Called(NotifyAll(c).calls)) == multiset(given)
  {
    hide Next, Given;
    assert Called([]) == [];
    LedgerRun(FRESH, [], events);
    var (c, given) := Run(FRESH, [], events);
    NotifyLedger(c, given);
  }

  lemma {:induction false} LedgerRun(c: Client, given: seq<Callback>, events: seq<Event>)
    requires Ledger(c, given)
    ensures var (d, all) := Run(c, given, events); Ledger(d, all)
    decreases |events|
  {
    hide Ledger, Next, Given;
    if events != [] {
      LedgerStep(c, events[0], given);
      LedgerRun(Next(c, events[0]), given + Given(c, events[0]), events[1..]);
    }
  }

  // ---- the mode ----

  /** There are subscriptions in pub/sub mode only, and each has exactly one change callback. */
  ghost predicate ModeInv(c: Client) {
    && (c.subs.Keys != {} ==> c.pubsubMode)
    && forall key :: key in c.subs ==> c.subs[key].hasChange != c.subs[key].hasPatternChange
  }

  lemma {:induction false} InvokeShrinks(c: Client, callback: Callback, reply: Reply)
    ensures OnSubscribeCallback(c, reply).subs.Keys <= c.subs.Keys
    ensures forall key :: key in OnSubscribeCallback(c, reply).subs ==>
              OnSubscribeCallback(c, reply).subs[key] == c.subs[key]
    ensures Invoke(c, callback, reply).subs.Keys <= c.subs.Keys
    ensures forall key :: key in Invoke(c, callback, reply).subs ==> Invoke(c, callback, reply).subs[key] == c.subs[key]
  {
    hide TopicOf, Upper;
  }

  lemma {:induction false} InvokeMode(c: Client, callback: Callback, reply: Reply)
    requires ModeInv(c)
    ensures ModeInv(OnSubscribeCallback(c, reply)) && ModeInv(Invoke(c, callback, reply))
  {
    hide OnSubscribeCallback, Invoke;
    InvokeShrinks(c, callback, reply);
    InvokeKeepsQueue(c, callback, reply);
  }

  lemma {:induction false} NotifyMode(c: Client)
    requires ModeInv(c)
    ensures ModeInv(NotifyAll(c))
    decreases |c.opCallbacks|
  {
    hide Invoke;
    if c.opCallbacks != [] {
      InvokeMode(c, c.opCallbacks[0], Error(DISCONNECTED));
      InvokeKeepsQueue(c, c.opCallbacks[0], Error(DISCONNECTED));
      NotifyMode(Invoke(c, c.opCallbacks[0], Error(DISCONNECTED)).(opCallbacks := c.opCallbacks[1..]));
    }
  }

  lemma {:induction false} ExecuteMode(c: Client, callback: Option<Callback>, connected: bool, accepted: bool)
    requires ModeInv(c)
    ensures ModeInv(Execute(c, callback, connected, accepted))
  {
    hide Invoke;
    if callback.Some? {
      InvokeMode(c, callback.value, Error(if connected then BUFFER_FULL else CANNOT_SEND));
    }
  }

  lemma {:induction false} ModeStep(c: Client, e: Event)
    requires ModeInv(c)
    ensures ModeInv(Next(c, e))
  {
    hide Execute, Invoke, OnSubscribeCallback, IsPush;
    match e
    case ExecuteCalled(callback, connected, accepted) => ExecuteMode(c, callback, connected, accepted);
    case SubscribeCalled(key, id, pattern, connected, accepted) =>
      if key !in c.subs {
        var d := c.(pubsubMode := true, subs := c.subs[key := Subscription(id, !pattern, pattern)]);
        ExecuteMode(d, Some(OnSubscribe), connected, accepted);
      }
    case UnsubscribeCalled(key, connected, accepted) => ExecuteMode(c, None, connected, accepted);
    case ReplyRead(reply) =>
      InvokeMode(c, if c.opCallbacks == [] then OnSubscribe else c.opCallbacks[0], reply);
    case ConnectionMade =>
    case ConnectionLost => NotifyMode(c);
  }

  /** Router mode over every run, without a hypothesis on replies or callers. */
  lemma {:induction false} RouterMode(c: Client, given: seq<Callback>, events: seq<Event>)
    requires ModeInv(c)
    ensures ModeInv(Run(c, given, events).0)
    decreases |events|
  {
    hide ModeInv, Next, Given;
    if events != [] {
      ModeStep(c, events[0]);
      RouterMode(Next(c, events[0]), given + Given(c, events[0]), events[1..]);
    }
  }
}
