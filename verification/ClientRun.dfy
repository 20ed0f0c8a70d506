/**
 Runs of the objects themselves: calls of the client's methods, and handlers of the
 connection with the callbacks that connect has bound, in any order. They go step by
 step through the states of WholeClient.
 */
module ClientRun {
  import opened Resp
  import opened Router
  import opened RedisConnection
  import opened WholeClient
  import RouterProperties
  import Stream
  import Tcp
  import TcpProperties
  import TcpConnection

  ghost predicate Valid(redis: Redis)
    reads redis.tcp.parser
  {
    redis.tcp.parser.Valid() && redis.tcp.parser.buffer.Length == Stream.BUFFER_SIZE
  }

  function View(redis: Redis): Whole
    reads redis, redis.tcp, redis.tcp.parser, redis.tcp.parser.buffer
    requires Valid(redis)
  {
    Whole(redis.State(), redis.tcp.Snapshot(), redis.tcp.parser.Unparsed())
  }

  // ---- handlers that call back ----

  /** A handler of the connection, and what it calls in the client. */
  method HandleEvent(redis: Redis, e: Tcp.Event)
    requires Valid(redis) && Enabled(View(redis), Handles(e))
    modifies redis, redis.tcp
    ensures Valid(redis) && View(redis) == Next(old(View(redis)), Handles(e))
  {
    hide Tcp.Next, NotifyAll;
    var callbacks, up := redis.tcp.callbacks, redis.tcp.IsConnected();
    RunOne(redis.State(), RouterProperties.ConnectionMade);
    RunOne(redis.State(), RouterProperties.ConnectionLost);
    RunNone(redis.State());
    redis.tcp.Handle(e);
    if callbacks {
      if e.ConnectDone? || e.ConnectFailed? {
        redis.OnConnected();
      } else if e.WriteFailed? && up {
        redis.OnDisconnected();
      }
    }
  }

  method HandleBrokenRead(redis: Redis)
    requires Valid(redis)
    modifies redis, redis.tcp, redis.tcp.parser, redis.tcp.parser.buffer
    ensures Valid(redis) && View(redis) == Next(old(View(redis)), ReadBreaks)
  {
    hide Tcp.Next, NotifyAll;
    RunOne(redis.State(), RouterProperties.ConnectionLost);
    RunNone(redis.State());
    var callbacks := redis.tcp.callbacks;
    var delivered, next := redis.tcp.OnRead(TcpConnection.Broken, "");
    if callbacks {
      redis.OnDisconnected();
    }
  }

  /** A read with chars: the replies go to the client one by one, then a parse error is handled. */
  method HandleRead(redis: Redis, chunk: string) returns (stop: Outcome<Reply>)
    requires Valid(redis) && |View(redis).front| + |chunk| <= Stream.BUFFER_SIZE
    modifies redis, redis.tcp, redis.tcp.parser, redis.tcp.parser.buffer
    ensures Valid(redis) && Enabled(old(View(redis)), ReadBrings(chunk, stop))
    ensures View(redis) == Next(old(View(redis)), ReadBrings(chunk, stop))
  {
    hide Tcp.Next, NotifyAll, Stream.Decode, Router.OnRead, RouterProperties.Run, RouterProperties.ReadAll;
    var callbacks := redis.tcp.callbacks;
    ghost var c, t, whole := redis.State(), redis.tcp.Snapshot(), View(redis).front + chunk;
    ghost var d := Stream.Decode(whole);
    stop := redis.tcp.parser.StopOf(chunk);
    redis.tcp.parser.OnlyWaitingStops(chunk);
    var delivered, next := redis.tcp.OnRead(TcpConnection.Received, chunk);
    ghost var up := redis.tcp.Snapshot();
    DeliverReplies(redis, delivered);
    ghost var c1 := redis.State();
    RunReads(c, delivered);
    RunNone(c);
    if callbacks && next.Reconnects? {
      redis.OnDisconnected();
      RunReadsLost(c, delivered);
      TcpAfterTwice(up, c.calls, c1.calls, redis.calls);
    }
    assert Reads(d.replies) + [] == Reads(d.replies);
    ghost var w := Whole(c, t, old(redis.tcp.parser.Unparsed()));
    assert w == old(View(redis));
    ghost var x := ReadBrings(chunk, stop);
    assert TcpNext(w, x) == up;
    assert FrontNext(w.front, x) == View(redis).front;
    assert redis.State() == RouterProperties.Run(c, [], ForRouter(w, x)).0;
    assert redis.tcp.Snapshot() == TcpAfter(up, c.calls, redis.calls);
  }

  method DeliverReplies(redis: Redis, replies: seq<Reply>)
    requires Valid(redis)
    modifies redis, redis.tcp
    ensures Valid(redis) && View(redis).front == old(View(redis).front)
    ensures redis.State() == RouterProperties.ReadAll(old(redis.State()), replies)
    ensures old(redis.calls) <= redis.calls
    ensures redis.tcp.Snapshot() == TcpAfter(old(redis.tcp.Snapshot()), old(redis.calls), redis.calls)
    ensures redis.tcp.callbacks == old(redis.tcp.callbacks)
  {
    hide Router.OnRead;
    if replies == [] {
      return;
    }
    ghost var t, calls := redis.tcp.Snapshot(), redis.calls;
    redis.OnRead(replies[0]);
    ghost var before := redis.calls;
    DeliverReplies(redis, replies[1..]);
    TcpAfterTwice(t, calls, before, redis.calls);
  }

  // ---- any event, any schedule ----

  /** The event in the schedule can happen; why a parse loop ends is not for the schedule to say. */
  predicate Possible(w: Whole, x: Event) {
    match x
    case ReadBrings(chunk, _) => |w.front| + |chunk| <= Stream.BUFFER_SIZE
    case _ => Enabled(w, x)
  }

  predicate Same(x: Event, done: Event) {
    if x.ReadBrings? then done.ReadBrings? && done.chunk == x.chunk else done == x
  }

  method ExecuteCommand(redis: Redis, callback: Option<Callback>, args: seq<string>)
    requires Valid(redis) && args != []
    modifies redis, redis.tcp
    ensures Valid(redis) && View(redis) == Next(old(View(redis)), Executes(callback, args))
  {
    hide Invoke;
    ghost var w := View(redis);
    RunOne(w.client, ForRouter(w, Executes(callback, args))[0]);
    var sent := redis.Execute(callback, args);
  }

  method SubscribeKey(redis: Redis, pattern: bool, key: string, id: nat)
    requires Valid(redis)
    modifies redis, redis.tcp
    ensures Valid(redis) && View(redis) == Next(old(View(redis)), Subscribes(pattern, key, id))
  {
    hide Invoke;
    ghost var w := View(redis);
    RunOne(w.client, ForRouter(w, Subscribes(pattern, key, id))[0]);
    var ok;
    if pattern {
      ok := redis.PSubscribe(key, id);
    } else {
      ok := redis.Subscribe(key, id);
    }
  }

  method UnsubscribeKey(redis: Redis, pattern: bool, key: string)
    requires Valid(redis)
    modifies redis, redis.tcp
    ensures Valid(redis) && View(redis) == Next(old(View(redis)), Unsubscribes(pattern, key))
  {
    hide Invoke;
    ghost var w := View(redis);
    RunOne(w.client, ForRouter(w, Unsubscribes(pattern, key))[0]);
    var ok;
    if pattern {
      ok := redis.PUnsubscribe(key);
    } else {
      ok := redis.Unsubscribe(key);
    }
  }

  method Perform(redis: Redis, x: Event) returns (done: Event)
    requires Valid(redis) && Possible(View(redis), x)
    modifies redis, redis.tcp, redis.tcp.parser, redis.tcp.parser.buffer
    ensures Valid(redis) && Same(x, done) && Enabled(old(View(redis)), done)
    ensures View(redis) == Next(old(View(redis)), done)
  {
    done := x;
    RunNone(redis.State());
    match x
    case Executes(callback, args) => ExecuteCommand(redis, callback, args);
    case Subscribes(pattern, key, id) => SubscribeKey(redis, pattern, key, id);
    case Unsubscribes(pattern, key) => UnsubscribeKey(redis, pattern, key);
    case Connects(auto) => redis.Connect(auto);
    case Disconnects => redis.Disconnect();
    case Handles(e) => HandleEvent(redis, e);
    case ReadBreaks => HandleBrokenRead(redis);
    case ReadBrings(chunk, _) =>
      var stop := HandleRead(redis, chunk);
      done := ReadBrings(chunk, stop);
  }

  /** What a schedule comes to: its events in order, but for those that cannot happen when it is their turn. */
  ghost predicate Follows(w: Whole, schedule: seq<Event>, done: seq<Event>)
    decreases |schedule|
  {
    if schedule == [] then done == []
    else if !Possible(w, schedule[0]) then Follows(w, schedule[1..], done)
    else
      && done != [] && Same(schedule[0], done[0]) && Enabled(w, done[0])
      && Follows(Next(w, done[0]), schedule[1..], done[1..])
  }

  /**
   Any schedule of calls and handlers, run on the objects: they end where the machine
   does, with every property that its runs have.
   */
  method Run(redis: Redis, schedule: seq<Event>, ghost r: Record) returns (done: seq<Event>, ghost q: Record)
    requires Valid(redis) && Inv(View(redis), r)
    modifies redis, redis.tcp, redis.tcp.parser, redis.tcp.parser.buffer
    ensures Valid(redis) && Follows(old(View(redis)), schedule, done) && Legal(old(View(redis)), done, false)
    ensures (View(redis), q) == After(old(View(redis)), r, done)
    ensures Inv(View(redis), q)
    decreases |schedule|
  {
    hide Inv, Next, Recorded, Enabled;
    if schedule == [] {
      return [], r;
    }
    ghost var w := View(redis);
    if !Possible(View(redis), schedule[0]) {
      done, q := Run(redis, schedule[1..], r);
      return;
    }
    var first := Perform(redis, schedule[0]);
    StepKeeps(w, r, first);
    var rest;
    rest, q := Run(redis, schedule[1..], Recorded(w, r, first));
    done := [first] + rest;
    assert done[1..] == rest;
  }

  /** From a new client on. */
  method RunFresh(schedule: seq<Event>) returns (redis: Redis, done: seq<Event>, ghost r: Record)
    ensures fresh(redis) && Valid(redis)
    ensures Follows(INITIAL, schedule, done) && Legal(INITIAL, done, false)
    ensures (View(redis), r) == After(INITIAL, NOTHING, done) && Inv(View(redis), r)
    ensures Legal(INITIAL, done, true) ==> TcpProperties.Reachable(redis.tcp.Snapshot(), r.epoch)
  {
    hide Inv, Follows, TcpProperties.Reachable, Legal, After;
    redis := new Redis();
    InitialInv();
    done, r := Run(redis, schedule, NOTHING);
    RunInv(done);
  }
}
