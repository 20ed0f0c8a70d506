/** The whole way: from execute over the send queue to the server, and from the server over the parser to the callbacks. */
module EndToEnd {
  import opened Resp
  import opened Stream
  import opened Commands
  import opened Router
  import RouterProperties
  import WholeClient
  import Conversation
  import Tcp
  import TcpProperties
  import RedisConnection

  function Messages(commands: seq<seq<string>>): (messages: seq<string>)
    ensures AreMessages(messages, commands)
  {
    seq(|commands|, i requires 0 <= i < |commands| => Encode(CommandWire(commands[i])))
  }

  lemma {:induction false} ConcatIsEncodeAll(messages: seq<string>, commands: seq<seq<string>>)
    requires AreMessages(messages, commands)
    ensures Concat(messages) == EncodeAll(CommandList(commands))
  {
    hide Encode, EncodeAll, Concat, CommandWire, CommandList;
    if messages == [] {
      TcpProperties.ConcatNothing();
      NothingEncoded(commands);
    } else {
      var n := |messages| - 1;
      var last := messages[n];
      ConcatIsEncodeAll(messages[..n], commands[..n]);
      TcpProperties.ConcatOne(messages[..n], last);
      EncodeAllSum(CommandList(commands[..n]), [CommandWire(commands[n])]);
      EncodeAllOne(CommandWire(commands[n]));
      CommandListLast(commands);
      assert messages == messages[..n] + [last];
    }
  }

  lemma {:induction false} EncodeAllOne(w: Wire)
    ensures EncodeAll([w]) == Encode(w)
  {
    assert EncodeAll([w]) == Encode(w) + EncodeAll([w][1..]);
  }

  lemma {:induction false} NothingEncoded(commands: seq<seq<string>>)
    requires commands == []
    ensures EncodeAll(CommandList(commands)) == []
  {
  }

  lemma {:induction false} CommandListLast(commands: seq<seq<string>>)
    requires commands != []
    ensures var n := |commands| - 1;
            CommandList(commands) == CommandList(commands[..n]) + [CommandWire(commands[n])]
  {
    hide CommandWire;
  }

  /** In every reachable state of the connection a server that decodes the wire has the first of the accepted commands. */
  lemma {:induction false} WireDecodes(s: Tcp.State, h: TcpProperties.Epoch, commands: seq<seq<string>>)
    returns (k: nat)
    requires TcpProperties.Reachable(s, h) && s.IsConnected()
    requires AreMessages(h.accepted, commands) && Sendable(commands)
    ensures |h.sent| <= k <= |commands|
    ensures var d := Decode(h.wire);
            && d.stop == Incomplete && |d.replies| == k
            && forall i :: 0 <= i < k ==> Requests(d.replies)[i] == Args(commands[i])
    ensures TcpProperties.Tokens(s) == 0 ==> k == |commands| && Decode(h.wire).rest == []
  {
    hide Parse, Decode, Encode, EncodeAll, Concat, ToReplies, ArgsOf, CommandWire, TcpProperties.Reachable, TcpProperties.Tokens;
    var progress := TcpProperties.WireFidelity(s, h);
    ConcatIsEncodeAll(h.accepted, commands);
    k := CommandsComeBack(commands, h.wire);
    SentIsDecoded(h, s.sendBuffer, commands, progress);
  }

  /**
   Commands, end to end: in every run of the client, over reconnects and whatever the
   sizes of the writes, while it is connected its server can decode the first of the
   commands that execute, subscribe and unsubscribe have sent on this connection, each
   with exactly its arguments, at least all that count as sent; and when nothing is
   left to run it has all of them.
   */
  lemma {:induction false} ServerSeesCommands(events: seq<WholeClient.Event>) returns (k: nat)
    requires WholeClient.Legal(WholeClient.INITIAL, events, true) && WholeClient.Legal(WholeClient.INITIAL, events, false)
    requires WholeClient.After(WholeClient.INITIAL, WholeClient.NOTHING, events).0.tcp.IsConnected()
    ensures var (w, r) := WholeClient.After(WholeClient.INITIAL, WholeClient.NOTHING, events);
            && |r.epoch.sent| <= k <= |r.commands|
            && var d := Decode(r.epoch.wire);
               && d.stop == Incomplete && |d.replies| == k
               && (forall i :: 0 <= i < k ==> Requests(d.replies)[i] == Args(r.commands[i]))
               && (TcpProperties.Tokens(w.tcp) == 0 ==> k == |r.commands| && d.rest == [])
  {
    hide Decode, Requests, TcpProperties.Reachable, TcpProperties.Tokens, WholeClient.Legal, WholeClient.After,
      RouterProperties.Ledger, RouterProperties.ModeInv, WholeClient.ReadingInv, AreMessages, Sendable;
    WholeClient.RunInv(events);
    var (w, r) := WholeClient.After(WholeClient.INITIAL, WholeClient.NOTHING, events);
    k := WireDecodes(w.tcp, r.epoch, r.commands);
  }

  lemma {:induction false} SentIsDecoded(h: TcpProperties.Epoch, queue: seq<string>, commands: seq<seq<string>>,
                                         progress: nat)
    requires h.accepted == h.sent + queue && AreMessages(h.accepted, commands) && Sendable(commands)
    requires if queue == [] then h.wire == Concat(h.accepted)
             else progress <= |queue[0]| && h.wire == Concat(h.sent) + queue[0][..progress]
    ensures |Decode(h.wire).replies| >= |h.sent|
  {
    hide Parse, Decode, Encode, EncodeAll, Concat, ToReply, CommandWire, WellFormed;
    var n := |h.sent|;
    var first := commands[..n];
    var part := if queue == [] then [] else queue[0][..progress];
    assert forall i :: 0 <= i < n ==> h.sent[i] == h.accepted[i];
    ConcatIsEncodeAll(h.sent, first);
    CommandsWellFormed(first);
    DecodeWhole(CommandList(first));
    DecodeAppend(Concat(h.sent), part);
    assert queue == [] ==> h.accepted == h.sent;
    assert h.wire == Concat(h.sent) + part;
  }

  function Users(ids: seq<nat>): (callbacks: seq<Callback>)
    ensures |callbacks| == |ids| && forall i :: 0 <= i < |ids| ==> callbacks[i] == User(ids[i])
  {
    seq(|ids|, i requires 0 <= i < |ids| => User(ids[i]))
  }

  lemma {:induction false} TotalPrefix(a: seq<string>, b: seq<string>)
    ensures TcpProperties.Total(a) <= TcpProperties.Total(a + b)
    decreases |b|
  {
    hide TcpProperties.Total;
    if b == [] {
      assert a + b == a;
    } else {
      var init, last := b[..|b| - 1], b[|b| - 1];
      TotalPrefix(a, init);
      TcpProperties.TotalAppend(a + init, last);
      assert a + b == a + init + [last];
    }
  }

  /** One more command: its message, and what it adds to the total. */
  lemma {:induction false} OneMore(commands: seq<seq<string>>, n: nat)
    requires n < |commands|
    ensures var message := Encode(CommandWire(commands[n]));
            && Messages(commands[..n]) + [message] == Messages(commands[..n + 1])
            && TcpProperties.Total(Messages(commands[..n + 1])) == TcpProperties.Total(Messages(commands[..n])) + |message|
            && TcpProperties.Total(Messages(commands[..n + 1])) <= TcpProperties.Total(Messages(commands))
  {
    hide Encode, CommandWire, TcpProperties.Total;
    TcpProperties.TotalAppend(Messages(commands[..n]), Encode(CommandWire(commands[n])));
    assert Messages(commands[..n]) + [Encode(CommandWire(commands[n]))] == Messages(commands[..n + 1]);
    TotalPrefix(Messages(commands[..n + 1]), Messages(commands[n + 1..]));
    assert Messages(commands[..n + 1]) + Messages(commands[n + 1..]) == Messages(commands);
  }

  /** One call of execute with a user's callback. */
  method ExecuteOne(redis: RedisConnection.Redis, id: nat, args: seq<string>) returns (sent: bool)
    requires args != []
    modifies redis, redis.tcp
    ensures var message := Encode(CommandWire(args));
            && sent == (old(redis.tcp.IsConnected()) && old(redis.tcp.sendBufferSize) + |message| <= 10485760)
            && redis.tcp.IsConnected() == old(redis.tcp.IsConnected())
            && redis.tcp.sendBufferSize == old(redis.tcp.sendBufferSize) + (if sent then |message| else 0)
            && redis.tcp.sendBuffer == old(redis.tcp.sendBuffer) + (if sent then [message] else [])
            && redis.opCallbacks == old(redis.opCallbacks) + (if sent then [User(id)] else [])
    ensures sent ==> redis.calls == old(redis.calls)
    ensures !sent ==> exists text :: redis.calls == old(redis.calls) + [Replied(User(id), Error(text))]
  {
    hide Encode, CommandWire;
    sent := redis.Execute(Some(User(id)), args);
    if !sent {
      var error := if old(redis.tcp.IsConnected()) then BUFFER_FULL else CANNOT_SEND;
      assert redis.calls == old(redis.calls) + [Replied(User(id), Error(error))];
      assert redis.calls[|old(redis.calls)|..] == [Replied(User(id), Error(error))];
    }
  }

  /**
   Pipelined calls of execute, up to the first that is refused: the callbacks wait in
   order, the messages of the commands stand in the send queue in the same order, and
   a refused command leaves nothing behind in either and gets an error. All of them
   are taken exactly if the connection is up and the limit is kept to the end.
   */
  method Pipeline(redis: RedisConnection.Redis, commands: seq<seq<string>>, ids: seq<nat>) returns (n: nat)
    requires |ids| == |commands| && forall i :: 0 <= i < |commands| ==> commands[i] != []
    modifies redis, redis.tcp
    ensures n <= |commands|
    ensures redis.opCallbacks == old(redis.opCallbacks) + Users(ids[..n])
    ensures redis.tcp.sendBuffer == old(redis.tcp.sendBuffer) + Messages(commands[..n])
    ensures n == |commands| ==> redis.calls == old(redis.calls)
    ensures n < |commands| ==>
              |redis.calls| == |old(redis.calls)| + 1 && redis.calls[|old(redis.calls)|].Replied?
              && redis.calls[|old(redis.calls)|].callback == User(ids[n])
              && redis.calls[|old(redis.calls)|].reply.Error?
    ensures commands != [] ==>
              (n == |commands| <==>
                && old(redis.tcp.IsConnected())
                && old(redis.tcp.sendBufferSize) + TcpProperties.Total(Messages(commands)) <= 10485760)
  {
    hide Encode, CommandWire, TcpProperties.Total, Messages;
    n := 0;
    NoMessages(commands);
    while n < |commands|
      invariant n <= |commands|
      invariant redis.opCallbacks == old(redis.opCallbacks) + Users(ids[..n])
      invariant redis.tcp.sendBuffer == old(redis.tcp.sendBuffer) + Messages(commands[..n])
      invariant redis.calls == old(redis.calls)
      invariant redis.tcp.IsConnected() == old(redis.tcp.IsConnected())
      invariant redis.tcp.sendBufferSize == old(redis.tcp.sendBufferSize) + TcpProperties.Total(Messages(commands[..n]))
      invariant n > 0 ==> redis.tcp.IsConnected() && redis.tcp.sendBufferSize <= 10485760
    {
      OneMore(commands, n);
      var sent := ExecuteOne(redis, ids[n], commands[n]);
      if !sent {
        return;
      }
      assert Users(ids[..n]) + [User(ids[n])] == Users(ids[..n + 1]);
      n := n + 1;
    }
    assert commands[..n] == commands && ids[..n] == ids;
  }

  lemma {:induction false} NoMessages(commands: seq<seq<string>>)
    ensures Messages(commands[..0]) == [] && TcpProperties.Total([]) == 0
  {
  }

  /**
   Both ways, in every run of the client: a connection that is made with nobody waiting
   and nothing in front of the parser, whose server sends, in any pieces, answers to
   the commands it has decoded and pushes in between. While it is up and no parse loop
   has failed, the server has decoded the first of the commands as they were given,
   the client has parsed the first of what was sent, each callback among the answered
   commands has got the answer to its own command, and the others wait in order.
   */
  lemma {:induction false} CallbacksGetAnswers(before: seq<WholeClient.Event>, events: seq<WholeClient.Event>,
                                               outputs: seq<Conversation.Output>)
    returns (decoded: nat)
    requires WholeClient.Legal(WholeClient.INITIAL, before, true) && WholeClient.Legal(WholeClient.INITIAL, before, false)
    requires var (w, _) := WholeClient.After(WholeClient.INITIAL, WholeClient.NOTHING, before);
             && WholeClient.Enabled(w, MADE) && WholeClient.InTime(w, MADE)
             && w.client.opCallbacks == [] && w.front == []
    requires var (w, r) := Made(before);
             && WholeClient.Legal(w, events, true) && WholeClient.Legal(w, events, false)
             && Conversation.ServedRun(w, r, events, outputs)
             && var (v, q) := WholeClient.After(w, r, events); v.tcp.IsConnected() && !q.reading.failed
    requires AllWellFormed(Conversation.WiresOf(outputs))
    requires forall i :: 0 <= i < |events| ==> !Conversation.IsConnect(events[i])
    ensures var (w, r) := Made(before);
            var (v, q) := WholeClient.After(w, r, events);
            var sent := Conversation.WiresOf(outputs);
            var n := |q.reading.replies|;
            && decoded == |Decode(q.epoch.wire).replies| <= |q.commands| == |q.waiting|
            && (forall i :: 0 <= i < decoded ==> Requests(Decode(q.epoch.wire).replies)[i] == Args(q.commands[i]))
            && n <= |outputs| && q.reading.replies == ToReplies(sent)[..n]
            && q.got == Conversation.Paired(q.waiting, outputs[..n])
            && var answered := Conversation.Answers(outputs[..n]);
               && answered <= |q.waiting| && v.client.opCallbacks == Conversation.Owed(q.waiting[answered..])
               && (answered == |q.waiting| ==> v.client.opCallbacks == [])
               && (forall j :: 0 <= j < n && outputs[j].Answer? ==>
                     var i := Conversation.Answers(outputs[..j]);
                     && i < |q.waiting|
                     && (q.waiting[i].Some? ==> (q.waiting[i].value, ToReply(outputs[j].wire)) in q.got))
  {
    hide Decode, Requests, WellFormed, ToReply, ToReplies, WholeClient.Legal, WholeClient.After, WholeClient.Next,
      WholeClient.Recorded, WholeClient.Enabled, WholeClient.InTime, TcpProperties.Reachable, Conversation.ServedRun,
      Conversation.Answers, Conversation.Paired, Conversation.Owed, Conversation.Fits, AreMessages, Sendable,
      RouterProperties.Ledger, RouterProperties.ModeInv, WholeClient.ReadingInv, TcpProperties.Tokens;
    var (u, p) := WholeClient.After(WholeClient.INITIAL, WholeClient.NOTHING, before);
    var (w, r) := Made(before);
    WholeClient.RunInv(before);
    WholeClient.StepKeeps(u, p, MADE);
    WholeClient.TcpReachable(u, p, MADE);
    Conversation.ConnectKeeps(u, p, outputs);
    Conversation.RunKeeps(w, r, events, outputs);
    WholeClient.RunKeeps(w, r, events);
    WholeClient.RunReachable(w, r, events);
    var (v, q) := WholeClient.After(w, r, events);
    decoded := WireDecodes(v.tcp, q.epoch, q.commands);
    var n := |q.reading.replies|;
    Conversation.OwedFirst([]);
    assert q.waiting[|q.waiting|..] == [];
    forall j | 0 <= j < n && outputs[j].Answer?
      ensures var i := Conversation.Answers(outputs[..j]);
              && i < |q.waiting|
              && (q.waiting[i].Some? ==> (q.waiting[i].value, ToReply(outputs[j].wire)) in q.got)
    {
      assert outputs[..n][..j] == outputs[..j];
      Conversation.PairedAt(q.waiting, outputs[..n], j);
    }
  }

  const MADE := WholeClient.Handles(Tcp.ConnectDone)

  /** The client and its record when the connection has been made. */
  function Made(before: seq<WholeClient.Event>): (WholeClient.Whole, WholeClient.Record)
    requires WholeClient.Legal(WholeClient.INITIAL, before, false)
    requires WholeClient.Enabled(WholeClient.After(WholeClient.INITIAL, WholeClient.NOTHING, before).0, MADE)
  {
    var (w, r) := WholeClient.After(WholeClient.INITIAL, WholeClient.NOTHING, before);
    (WholeClient.Next(w, MADE), WholeClient.Recorded(w, r, MADE))
  }
}
