/** The Redis client class, over the connection class it owns. */
module RedisConnection {
  import opened Resp
  import opened Router
  import opened Commands
  import opened Stream
  import Tcp
  import TcpConnection

  /** What the calls made since before do to the connection: reconnecting twice is reconnecting once. */
  function TcpAfter(t: Tcp.State, before: seq<Call>, calls: seq<Call>): Tcp.State
    requires before <= calls
  {
    if ReconnectAsked in calls[|before|..] then Tcp.Reconnect(t) else t
  }

  lemma {:induction false} TcpAfterTwice(t: Tcp.State, a: seq<Call>, b: seq<Call>, c: seq<Call>)
    requires a <= b <= c
    ensures TcpAfter(TcpAfter(t, a, b), b, c) == TcpAfter(t, a, c)
  {
    assert c[|a|..] == b[|a|..] + c[|b|..];
  }

  /** The connection after send has taken the message and posted a try_to_send if the queue was empty. */
  function Sent(t: Tcp.State, message: string): Tcp.State {
    var appended := Tcp.Append(t, message);
    if t.sendBuffer == [] && Tcp.Accepts(t, message) then Tcp.Dispatch(appended) else appended
  }

  class Redis {
    const tcp: TcpConnection.Connection
    var opCallbacks: seq<Callback>
    var pubsubMode: bool
    var subs: map<string, Subscription>
    var calls: seq<Call>

    function State(): Client
      reads this
    {
      Client(opCallbacks, pubsubMode, subs, calls)
    }

    constructor ()
      ensures State() == Client([], false, map[], []) && tcp.Snapshot() == Tcp.INITIAL && fresh(tcp)
      ensures fresh(tcp.parser) && fresh(tcp.parser.buffer) && tcp.parser.Valid()
      ensures tcp.parser.Unparsed() == [] && tcp.parser.buffer.Length == BUFFER_SIZE && !tcp.parser.guarded
    {
      tcp := new TcpConnection.Connection(BUFFER_SIZE);
      opCallbacks, pubsubMode, subs, calls := [], false, map[], [];
    }

    method Connect(auto: bool)
      modifies tcp
      ensures State() == old(State())
      ensures tcp.Snapshot() == Tcp.Next(old(tcp.Snapshot()), Tcp.UserConnect(auto))
    {
      tcp.Connect(auto);
    }

    /** The queue is left as it is. */
    method Disconnect()
      modifies tcp
      ensures State() == old(State())
      ensures tcp.Snapshot() == Tcp.Next(old(tcp.Snapshot()), Tcp.UserDisconnect)
    {
      tcp.Disconnect();
    }

    /** One call out of this object; a reconnect is the only one that comes back to what is modelled here. */
    method Make(call: Call)
      modifies this`calls, tcp
      ensures State() == old(State()).Made(call)
      ensures tcp.Snapshot() == TcpAfter(old(tcp.Snapshot()), old(calls), calls)
    {
      calls := calls + [call];
      if call.ReconnectAsked? {
        tcp.Reconnect();
      }
      assert calls[|old(calls)|..] == [call];
    }

    method Execute(callback: Option<Callback>, args: seq<string>) returns (sent: bool)
      requires args != []
      modifies this`opCallbacks, this`calls, this`subs, tcp
      ensures var t, message := old(tcp.Snapshot()), Encode(CommandWire(args));
              && sent == (t.IsConnected() && Tcp.Accepts(t, message))
              && State() == Router.Execute(old(State()), callback, t.IsConnected(), Tcp.Accepts(t, message))
              && old(calls) <= calls
              && tcp.Snapshot() == if sent then Sent(t, message) else TcpAfter(t, old(calls), calls)
    {
      if !tcp.IsConnected() {
        if callback.None? {
          Make(NullCall);
        } else {
          Call(callback.value, Error(CANNOT_SEND));
        }
        return false;
      }
      var message := BuildMessage(args);
      if callback.Some? {
        opCallbacks := opCallbacks + [callback.value];
      }
      sent := tcp.Send(message);
      if !sent && callback.Some? {
        var last := opCallbacks[|opCallbacks| - 1];
        Call(last, Error(BUFFER_FULL));
        opCallbacks := opCallbacks[..|opCallbacks| - 1];
      }
    }

    method Call(callback: Callback, reply: Reply)
      modifies this`calls, this`subs, tcp
      ensures State() == Invoke(old(State()), callback, reply)
      ensures old(calls) <= calls && tcp.Snapshot() == TcpAfter(old(tcp.Snapshot()), old(calls), calls)
    {
      calls := calls + [Replied(callback, reply)];
      if callback.OnSubscribe? {
        OnSubscribeCallback(reply);
      }
    }

    /** False is the exception subscription_already_exists. */
    method Subscribe(channel: string, id: nat) returns (ok: bool)
      modifies this, tcp
      ensures ok == (channel !in old(subs))
      ensures var t, message := old(tcp.Snapshot()), Encode(CommandWire(["SUBSCRIBE", channel]));
              && State() == Router.Subscribe(old(State()), channel, Subscription(id, true, false),
                                             t.IsConnected(), Tcp.Accepts(t, message))
              && old(calls) <= calls
              && tcp.Snapshot() == if !ok then t
                                   else if t.IsConnected() && Tcp.Accepts(t, message) then Sent(t, message)
                                   else TcpAfter(t, old(calls), calls)
    {
      pubsubMode := true;
      if channel in subs {
        return false;
      }
      subs := subs[channel := Subscription(id, true, false)];
      var sent := Execute(Some(OnSubscribe), ["SUBSCRIBE", channel]);
      return true;
    }

    method PSubscribe(pattern: string, id: nat) returns (ok: bool)
      modifies this, tcp
      ensures ok == (pattern !in old(subs))
      ensures var t, message := old(tcp.Snapshot()), Encode(CommandWire(["PSUBSCRIBE", pattern]));
              && State() == Router.Subscribe(old(State()), pattern, Subscription(id, false, true),
                                             t.IsConnected(), Tcp.Accepts(t, message))
              && old(calls) <= calls
              && tcp.Snapshot() == if !ok then t
                                   else if t.IsConnected() && Tcp.Accepts(t, message) then Sent(t, message)
                                   else TcpAfter(t, old(calls), calls)
    {
      pubsubMode := true;
      if pattern in subs {
        return false;
      }
      subs := subs[pattern := Subscription(id, false, true)];
      var sent := Execute(Some(OnSubscribe), ["PSUBSCRIBE", pattern]);
      return true;
    }

    /** False is the exception subscription_does_not_exist. */
    method Unsubscribe(channel: string) returns (ok: bool)
      modifies this, tcp
      ensures ok == (channel in old(subs))
      ensures var t, message := old(tcp.Snapshot()), Encode(CommandWire(["UNSUBSCRIBE", channel]));
              && State() == Router.Unsubscribe(old(State()), channel, t.IsConnected(), Tcp.Accepts(t, message))
              && tcp.Snapshot() == if ok && t.IsConnected() && Tcp.Accepts(t, message) then Sent(t, message) else t
    {
      if channel !in subs {
        return false;
      }
      var sent := Execute(None, ["UNSUBSCRIBE", channel]);
      return true;
    }

    method PUnsubscribe(pattern: string) returns (ok: bool)
      modifies this, tcp
      ensures ok == (pattern in old(subs))
      ensures var t, message := old(tcp.Snapshot()), Encode(CommandWire(["PUNSUBSCRIBE", pattern]));
              && State() == Router.Unsubscribe(old(State()), pattern, t.IsConnected(), Tcp.Accepts(t, message))
              && tcp.Snapshot() == if ok && t.IsConnected() && Tcp.Accepts(t, message) then Sent(t, message) else t
    {
      if pattern !in subs {
        return false;
      }
      var sent := Execute(None, ["PUNSUBSCRIBE", pattern]);
      return true;
    }

    method OnConnected()
      modifies this
      ensures State() == Router.OnConnected(old(State()))
    {
      pubsubMode := false;
      subs := map[];
    }

    /** Every command that waits for a reply gets an error instead; the oldest one first. */
    method OnDisconnected()
      modifies this, tcp
      ensures State() == NotifyAll(old(State()))
      ensures opCallbacks == [] && old(calls) <= calls
      ensures tcp.Snapshot() == TcpAfter(old(tcp.Snapshot()), old(calls), calls)
    {
      while opCallbacks != []
        invariant NotifyAll(State()) == NotifyAll(old(State()))
        invariant old(calls) <= calls
        invariant tcp.Snapshot() == TcpAfter(old(tcp.Snapshot()), old(calls), calls)
        decreases |opCallbacks|
      {
        ghost var c, t, before := State(), tcp.Snapshot(), calls;
        var callback := opCallbacks[0];
        Call(callback, Error(DISCONNECTED));
        InvokeKeepsQueue(c, callback, Error(DISCONNECTED));
        TcpAfterTwice(old(tcp.Snapshot()), old(calls), before, calls);
        opCallbacks := opCallbacks[1..];
      }
    }

    lemma {:induction false} TcpUnchanged(t: Tcp.State, calls: seq<Call>)
      ensures TcpAfter(t, calls, calls) == t
    {
    }

    method OnRead(reply: Reply)
      modifies this, tcp
      ensures State() == Router.OnRead(old(State()), reply)
      ensures old(calls) <= calls && tcp.Snapshot() == TcpAfter(old(tcp.Snapshot()), old(calls), calls)
    {
      if pubsubMode {
        var done := CheckSubscribeCallback(reply);
        if done {
          return;
        }
      }
      if opCallbacks == [] {
        Make(ReconnectAsked);
        return;
      }
      var callback := opCallbacks[0];
      Call(callback, reply);
      opCallbacks := opCallbacks[1..];
    }

    method CheckSubscribeCallback(reply: Reply) returns (done: bool)
      modifies this`calls, this`subs, tcp
      ensures done == IsPush(reply)
      ensures State() == if done then Router.OnSubscribeCallback(old(State()), reply) else old(State())
      ensures old(calls) <= calls && tcp.Snapshot() == TcpAfter(old(tcp.Snapshot()), old(calls), calls)
    {
      if !reply.Array? || |reply.elements| == 0 || !reply.elements[0].Str? {
        return false;
      }
      var str := Upper(reply.elements[0].str);
      if "MESSAGE" == str || "UNSUBSCRIBE" == str || "PMESSAGE" == str || "PUNSUBSCRIBE" == str {
        OnSubscribeCallback(reply);
        return true;
      }
      return false;
    }

    method OnSubscribeCallback(reply: Reply)
      modifies this`calls, this`subs, tcp
      ensures State() == Router.OnSubscribeCallback(old(State()), reply)
      ensures old(calls) <= calls && tcp.Snapshot() == TcpAfter(old(tcp.Snapshot()), old(calls), calls)
    {
      hide TcpAfter, Upper;
      if !reply.Array? || |reply.elements| < 1 || !reply.elements[0].Str? {
        Make(ReconnectAsked);
        return;
      }
      var e := reply.elements;
      TcpUnchanged(tcp.Snapshot(), calls);
      var command := Upper(e[0].str);
      if "SUBSCRIBE" == command || "PSUBSCRIBE" == command {
        if |e| < 3 || !e[1].Str? || !e[2].Integer? || e[1].str !in subs {
          Make(ReconnectAsked);
          return;
        }
        Make(Subscribed(e[1].str));
      } else if "MESSAGE" == command {
        if |e| < 3 || !e[1].Str? || !e[2].Str? || e[1].str !in subs {
          Make(ReconnectAsked);
          return;
        }
        var change := subs[e[1].str].hasChange;
        Make(if change then Changed(e[1].str, e[2].str) else NullCall);
      } else if "UNSUBSCRIBE" == command || "PUNSUBSCRIBE" == command {
        if |e| < 3 || !e[1].Str? || !e[2].Integer? || e[1].str !in subs {
          Make(ReconnectAsked);
          return;
        }
        Make(Unsubscribed(e[1].str));
        subs := subs - {e[1].str};
      } else if "PMESSAGE" == command {
        if |e| < 4 || !e[1].Str? || !e[2].Str? || !e[3].Str? || e[1].str !in subs {
          Make(ReconnectAsked);
          return;
        }
        var change := subs[e[1].str].hasPatternChange;
        Make(if change then PatternChanged(e[1].str, e[2].str, e[3].str) else NullCall);
      }
    }
  }
}
