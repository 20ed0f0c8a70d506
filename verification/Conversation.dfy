/**
 One connection of the whole client and its server, bytes both ways: commands over the
 send queue to the wire, answers and pushes over the parser to the callbacks. The
 server is only known by what it sends: answers to the commands that it can have
 decoded, in their order, and pushes in between.
 */
module Conversation {
  import opened Resp
  import opened RespRoundTrip
  import opened Stream
  import opened Commands
  import opened Router
  import opened RouterProperties
  import opened WholeClient
  import Tcp
  import TcpProperties

  datatype Output = Answer(wire: Wire) | Pushed(wire: Wire)

  function WiresOf(outputs: seq<Output>): (ws: seq<Wire>)
    ensures |ws| == |outputs| && forall i :: 0 <= i < |ws| ==> ws[i] == outputs[i].wire
  {
    seq(|outputs|, i requires 0 <= i < |outputs| => outputs[i].wire)
  }

  /** How many commands are answered. */
  function Answers(outputs: seq<Output>): (n: nat)
    ensures n <= |outputs|
  {
    if outputs == [] then 0 else (if outputs[0].Answer? then 1 else 0) + Answers(outputs[1..])
  }

  /** The callbacks among them, in order. */
  function Owed(waiting: seq<Option<Callback>>): seq<Callback> {
    if waiting == [] then [] else (if waiting[0].Some? then [waiting[0].value] else []) + Owed(waiting[1..])
  }

  /** The i-th answer goes with the i-th command. */
  function Paired(waiting: seq<Option<Callback>>, outputs: seq<Output>): seq<(Callback, Reply)>
    decreases |outputs|
  {
    if outputs == [] then []
    else if outputs[0].Pushed? then Paired(waiting, outputs[1..])
    else if waiting == [] then []
    else
      (if waiting[0].Some? then [(waiting[0].value, ToReply(outputs[0].wire))] else [])
      + Paired(waiting[1..], outputs[1..])
  }

  /** No more answers than commands; those without a callback, and only those, are answered with a push word. */
  predicate Fits(waiting: seq<Option<Callback>>, outputs: seq<Output>)
    decreases |outputs|
  {
    outputs == [] ||
    match outputs[0]
    case Pushed(wire) => IsPush(ToReply(wire)) && Fits(waiting, outputs[1..])
    case Answer(wire) =>
      && waiting != [] && (IsPush(ToReply(wire)) <==> waiting[0].None?)
      && Fits(waiting[1..], outputs[1..])
  }

  predicate Plain(outputs: seq<Output>) {
    forall i :: 0 <= i < |outputs| ==> !IsPush(ToReply(outputs[i].wire))
  }

  /** The commands that a server can have decoded from the wire by now. */
  function Decodable(r: Record): (n: nat)
    ensures n <= |r.waiting|
  {
    var n := |Requests(Decode(r.epoch.wire).replies)|;
    if n <= |r.waiting| then n else |r.waiting|
  }

  /** What a read brings is a part of what the server can have sent; push words go to a client in pub/sub mode. */
  ghost predicate Served(w: Whole, r: Record, x: WholeClient.Event, outputs: seq<Output>) {
    x.ReadBrings? ==>
      exists n :: 0 <= n <= |outputs|
        && Fits(r.waiting[..Decodable(r)], outputs[..n]) && (w.client.pubsubMode || Plain(outputs[..n]))
        && r.reading.stream + x.chunk <= EncodeAll(WiresOf(outputs[..n]))
  }

  ghost predicate ServedRun(w: Whole, r: Record, events: seq<WholeClient.Event>, outputs: seq<Output>)
    requires Legal(w, events, false)
    decreases |events|
  {
    events != [] ==>
      && Served(w, r, events[0], outputs)
      && ServedRun(WholeClient.Next(w, events[0]), Recorded(w, r, events[0]), events[1..], outputs)
  }

  // ---- pairs and queues ----

  lemma {:induction false} OwedFirst(waiting: seq<Option<Callback>>)
    ensures Owed(waiting) ==
              if waiting == [] then []
              else if waiting[0].Some? then [waiting[0].value] + Owed(waiting[1..])
              else Owed(waiting[1..])
  {
  }

  lemma {:induction false} OwedSum(a: seq<Option<Callback>>, b: seq<Option<Callback>>)
    ensures Owed(a + b) == Owed(a) + Owed(b)
    decreases |a|
  {
    hide Owed;
    OwedFirst(a);
    OwedFirst(a + b);
    if a == [] {
      assert a + b == b;
    } else {
      assert (a + b)[1..] == a[1..] + b;
      OwedSum(a[1..], b);
    }
  }

  /** Commands sent later change nothing for the answers there are. */
  lemma {:induction false} LaterCommands(waiting: seq<Option<Callback>>, more: seq<Option<Callback>>, outputs: seq<Output>)
    requires Fits(waiting, outputs)
    ensures Fits(waiting + more, outputs) && Paired(waiting + more, outputs) == Paired(waiting, outputs)
    ensures Answers(outputs) <= |waiting|
    decreases |outputs|
  {
    hide IsPush, ToReply;
    if outputs != [] {
      if outputs[0].Answer? {
        assert (waiting + more)[1..] == waiting[1..] + more;
        LaterCommands(waiting[1..], more, outputs[1..]);
      } else {
        LaterCommands(waiting, more, outputs[1..]);
      }
    }
  }

  /** Outputs that come later are for the commands behind those answered. */
  lemma {:induction false} LaterOutputs(waiting: seq<Option<Callback>>, a: seq<Output>, b: seq<Output>)
    requires Fits(waiting, a + b)
    ensures Answers(a) <= |waiting| && Fits(waiting, a) && Fits(waiting[Answers(a)..], b)
    ensures Answers(a + b) == Answers(a) + Answers(b)
    ensures Paired(waiting, a + b) == Paired(waiting, a) + Paired(waiting[Answers(a)..], b)
    decreases |a|
  {
    hide IsPush, ToReply;
    if a == [] {
      assert a + b == b && waiting[0..] == waiting;
    } else {
      assert (a + b)[1..] == a[1..] + b;
      if a[0].Answer? {
        LaterOutputs(waiting[1..], a[1..], b);
        assert waiting[1..][Answers(a[1..])..] == waiting[Answers(a)..];
      } else {
        LaterOutputs(waiting, a[1..], b);
      }
    }
  }

  /** In particular each callback gets the answer to its own command. */
  lemma {:induction false} PairedAt(waiting: seq<Option<Callback>>, outputs: seq<Output>, j: nat)
    requires Fits(waiting, outputs) && j < |outputs| && outputs[j].Answer?
    ensures var i := Answers(outputs[..j]);
            && i < |waiting|
            && (waiting[i].Some? ==> (waiting[i].value, ToReply(outputs[j].wire)) in Paired(waiting, outputs))
  {
    hide IsPush, ToReply;
    var a, b := outputs[..j], outputs[j..];
    assert outputs == a + b;
    LaterOutputs(waiting, a, b);
    assert b[0] == outputs[j];
  }

  /** Reading outputs: what is for a callback goes to the one whose turn it is, the rest bypasses the queue. */
  lemma {:induction false} ReadOutputs(c: Client, waiting: seq<Option<Callback>>, outputs: seq<Output>)
    requires c.opCallbacks == Owed(waiting) && Fits(waiting, outputs) && (c.pubsubMode || Plain(outputs))
    ensures Answers(outputs) <= |waiting|
    ensures var d := RouterProperties.ReadAll(c, ToReplies(WiresOf(outputs)));
            && d.opCallbacks == Owed(waiting[Answers(outputs)..])
            && Deliveries(d.calls) == Deliveries(c.calls) + Paired(waiting, outputs)
    decreases |outputs|
  {
    hide IsPush, ToReply, OnRead, Deliveries, RouterProperties.ReadAll, ToReplies, WiresOf, Plain, Fits, Paired, Owed, Answers;
    ReadFirst(c, outputs);
    OutputFirst(waiting, outputs);
    if outputs == [] {
      assert waiting[0..] == waiting;
      assert Deliveries(c.calls) + [] == Deliveries(c.calls);
    } else {
      var reply := ToReply(outputs[0].wire);
      ReadOne(c, reply);
      PlainFirst(outputs);
      var taken := if outputs[0].Answer? then 1 else 0;
      var rest := waiting[taken..];
      ReadOutputs(OnRead(c, reply), rest, outputs[1..]);
      TailOfTail(waiting, taken, Answers(outputs[1..]));
    }
  }

  /** What the first output has to do with the commands. */
  lemma {:induction false} OutputFirst(waiting: seq<Option<Callback>>, outputs: seq<Output>)
    requires Fits(waiting, outputs)
    ensures if outputs == [] then Paired(waiting, outputs) == [] && Answers(outputs) == 0
            else
              var taken := if outputs[0].Answer? then 1 else 0;
              var callbacks := if outputs[0].Answer? && waiting[0].Some? then [waiting[0].value] else [];
              && taken <= |waiting| && Fits(waiting[taken..], outputs[1..])
              && Answers(outputs) == taken + Answers(outputs[1..])
              && Owed(waiting) == callbacks + Owed(waiting[taken..])
              && (IsPush(ToReply(outputs[0].wire)) <==> callbacks == [])
              && Paired(waiting, outputs) ==
                   (if callbacks == [] then [] else [(callbacks[0], ToReply(outputs[0].wire))])
                   + Paired(waiting[taken..], outputs[1..])
  {
    hide IsPush, ToReply;
    assert waiting[0..] == waiting;
  }

  lemma {:induction false} ReadFirst(c: Client, outputs: seq<Output>)
    ensures RouterProperties.ReadAll(c, ToReplies(WiresOf(outputs))) ==
              if outputs == [] then c
              else RouterProperties.ReadAll(OnRead(c, ToReply(outputs[0].wire)), ToReplies(WiresOf(outputs[1..])))
  {
    hide ToReply, OnRead;
    if outputs != [] {
      assert WiresOf(outputs)[1..] == WiresOf(outputs[1..]);
    }
  }

  lemma PlainFirst(outputs: seq<Output>)
    requires outputs != []
    ensures Plain(outputs) ==> !IsPush(ToReply(outputs[0].wire)) && Plain(outputs[1..])
  {
  }

  // ---- every step of a connection ----

  /** As long as the connection is up and no parse loop has failed: who has got what, and who still waits. */
  ghost predicate Conversing(w: Whole, r: Record, outputs: seq<Output>) {
    var n := |r.reading.replies|;
    && n <= |outputs| && r.reading.base == []
    && r.reading.replies == ToReplies(WiresOf(outputs))[..n]
    && Fits(r.waiting, outputs[..n]) && Answers(outputs[..n]) <= |r.waiting|
    && r.got == Paired(r.waiting, outputs[..n])
    && w.client.opCallbacks == Owed(r.waiting[Answers(outputs[..n])..])
  }

  ghost predicate Kept(w: Whole, r: Record, outputs: seq<Output>) {
    w.tcp.IsConnected() && !r.reading.failed ==> w.tcp.callbacks && Conversing(w, r, outputs)
  }

  /** The events of the connection that leave it up, or make it. */
  predicate LeavesUp(e: Tcp.Event) {
    match e
    case SendAppend(_) => true
    case SendDispatch => true
    case RunDispatched => true
    case WriteDone(_, _) => true
    case Recall(_) => true
    case ConnectDone => true
    case TimerExpires => true
    case _ => false
  }

  lemma {:induction false} TcpStaysUp(s: Tcp.State, e: Tcp.Event)
    requires Tcp.Enabled(s, e) && !e.ConnectDone? && Tcp.Next(s, e).IsConnected()
    ensures s.IsConnected() && Tcp.Next(s, e).callbacks == s.callbacks
    ensures LeavesUp(e)
  {
  }

  predicate IsConnect(x: WholeClient.Event) {
    x.Handles? && x.event.ConnectDone?
  }

  /** What can be said of a step after which the connection is up, other than of a connect. */
  lemma {:induction false} StaysUp(w: Whole, x: WholeClient.Event)
    requires WholeClient.Enabled(w, x) && !IsConnect(x) && WholeClient.Next(w, x).tcp.IsConnected()
    ensures w.tcp.IsConnected() && WholeClient.Next(w, x).tcp.callbacks == w.tcp.callbacks
    ensures !x.Connects? && !x.Disconnects? && !x.ReadBreaks?
    ensures x.Handles? ==> LeavesUp(x.event)
    ensures x.ReadBrings? ==> !x.stop.ParseError?
  {
    hide Decode, Encode, ForRouter, RouterProperties.Run, Tcp.Next, Tcp.Enabled;
    var t := TcpNext(w, x);
    assert t.IsConnected();
    if Sends(w, x) {
      return;
    }
    match x
    case Connects(auto) => TcpStaysUp(w.tcp, Tcp.UserConnect(auto));
    case Disconnects => TcpStaysUp(w.tcp, Tcp.UserDisconnect);
    case Handles(e) => TcpStaysUp(w.tcp, e);
    case ReadBreaks => TcpStaysUp(w.tcp, Tcp.ReadFailed);
    case ReadBrings(_, stop) =>
      if stop.ParseError? {
        TcpStaysUp(w.tcp, Tcp.ReadFailed);
      }
    case _ =>
  }

  /** A command that is sent has its callback wait behind the others. */
  lemma {:induction false} SentQueue(w: Whole, x: WholeClient.Event)
    requires WholeClient.Enabled(w, x) && Sends(w, x)
    ensures WholeClient.Next(w, x).client.opCallbacks == w.client.opCallbacks + Owed([CallbackOf(x)])
  {
    hide Encode, Invoke;
    RunOne(w.client, ForRouter(w, x)[0]);
    assert Owed([CallbackOf(x)][1..]) == [];
  }

  lemma {:induction false} RefusedQueue(c: Client, callback: Option<Callback>)
    ensures Execute(c, callback, true, false).opCallbacks == c.opCallbacks
  {
    if callback.Some? {
      InvokeKeepsQueue(c, callback.value, Error(BUFFER_FULL));
    }
  }

  /** Any other event but a read leaves the queue alone, as long as the connection stays up. */
  lemma {:induction false} OtherQueue(w: Whole, x: WholeClient.Event)
    requires WholeClient.Enabled(w, x) && !IsConnect(x) && WholeClient.Next(w, x).tcp.IsConnected()
    requires !Sends(w, x) && !x.ReadBrings?
    ensures WholeClient.Next(w, x).client.opCallbacks == w.client.opCallbacks
  {
    hide Encode, Invoke, Execute, TcpNext, Takes;
    StaysUp(w, x);
    var c, events := w.client, ForRouter(w, x);
    if x.Handles? {
      RunNone(c);
    } else {
      RunOne(c, events[0]);
      assert events == [events[0]];
      match x
      case Executes(callback, _) => RefusedQueue(c, callback);
      case Subscribes(pattern, key, id) =>
        RefusedQueue(c.(pubsubMode := true, subs := c.subs[key := Subscription(id, !pattern, pattern)]), Some(OnSubscribe));
      case Unsubscribes(_, _) => RefusedQueue(c, None);
    }
  }

  lemma {:induction false} SendKeeps(w: Whole, r: Record, x: WholeClient.Event, outputs: seq<Output>)
    requires Conversing(w, r, outputs) && WholeClient.Enabled(w, x) && Sends(w, x)
    ensures Conversing(WholeClient.Next(w, x), Recorded(w, r, x), outputs)
  {
    hide WholeClient.Next, Takes, Fits, Paired, Owed, Answers, RouterProperties.Run, ForRouter, Decode, Encode, ToReplies;
    SentQueue(w, x);
    var sent := outputs[..|r.reading.replies|];
    var more := [CallbackOf(x)];
    LaterCommands(r.waiting, more, sent);
    var a := Answers(sent);
    assert (r.waiting + more)[a..] == r.waiting[a..] + more;
    OwedSum(r.waiting[a..], more);
    assert Delivered(w, x) == [];
    assert r.got + [] == r.got;
  }

  lemma {:induction false} OtherKeeps(w: Whole, r: Record, x: WholeClient.Event, outputs: seq<Output>)
    requires Conversing(w, r, outputs) && WholeClient.Enabled(w, x) && !IsConnect(x)
    requires !Sends(w, x) && !x.ReadBrings? && WholeClient.Next(w, x).tcp.IsConnected()
    ensures Conversing(WholeClient.Next(w, x), Recorded(w, r, x), outputs)
  {
    hide WholeClient.Next, Sends, Fits, Paired, Owed, Answers, RouterProperties.Run, ForRouter, Decode, Encode, ToReplies;
    OtherQueue(w, x);
    assert r.got + [] == r.got;
  }

  /** The replies that a read adds, in terms of the outputs: none is passed over and none comes twice. */
  lemma {:induction false} ReadAdds(w: Whole, r: Record, x: WholeClient.Event, outputs: seq<Output>, n: nat) returns (k: nat)
    requires ReadingInv(w.front, r.reading) && WholeClient.Enabled(w, x) && x.ReadBrings? && x.stop.Incomplete?
    requires r.reading.base == [] && !r.reading.failed && AllWellFormed(WiresOf(outputs))
    requires n <= |outputs| && r.reading.stream + x.chunk <= EncodeAll(WiresOf(outputs[..n]))
    requires |r.reading.replies| <= |outputs|
    requires r.reading.replies == ToReplies(WiresOf(outputs))[..|r.reading.replies|]
    ensures |r.reading.replies| <= k <= n
    ensures var replies := Decode(w.front + x.chunk).replies;
            && r.reading.replies + replies == ToReplies(WiresOf(outputs))[..k]
            && replies == ToReplies(WiresOf(outputs[|r.reading.replies|..k]))
  {
    hide Decode, Encode, EncodeAll, WellFormed, ToReplies;
    ReadingKeeps(w.front, r.reading, x);
    var stream := r.reading.stream + x.chunk;
    assert r.reading.base + stream == stream;
    assert WiresOf(outputs[..n]) == WiresOf(outputs)[..n];
    k := DecodeArriving(WiresOf(outputs[..n]), stream);
    var before, now := r.reading.replies, Decode(stream).replies;
    assert now == before + Decode(w.front + x.chunk).replies;
    RepliesOfPart(WiresOf(outputs), 0, n);
    RepliesOfPart(WiresOf(outputs), |before|, k);
    assert WiresOf(outputs)[0..n] == WiresOf(outputs[..n]);
    assert now == ToReplies(WiresOf(outputs))[0..n][..k] == ToReplies(WiresOf(outputs))[..k];
    assert WiresOf(outputs[|before|..k]) == WiresOf(outputs)[|before|..k];
    assert Decode(w.front + x.chunk).replies == now[|before|..];
  }

  lemma {:induction false} RepliesOfPart(ws: seq<Wire>, from: nat, to: nat)
    requires from <= to <= |ws|
    ensures ToReplies(ws[from..to]) == ToReplies(ws)[from..to]
  {
    hide ToReplies;
    forall i | 0 <= i < to - from ensures ToReplies(ws[from..to])[i] == ToReplies(ws)[from..to][i] {
      RepliesAt(ws[from..to], i);
      RepliesAt(ws, from + i);
    }
  }

  /** What the router makes of a read after which the connection is up. */
  lemma {:induction false} ReadQueue(w: Whole, x: WholeClient.Event)
    requires WholeClient.Enabled(w, x) && x.ReadBrings? && w.tcp.callbacks && !x.stop.ParseError?
    ensures WholeClient.Next(w, x).client == RouterProperties.ReadAll(w.client, Decode(w.front + x.chunk).replies)
  {
    hide Decode, RouterProperties.ReadAll, RouterProperties.Run;
    var replies := Decode(w.front + x.chunk).replies;
    RunReads(w.client, replies);
    assert Reads(replies) + [] == Reads(replies);
  }

  /** The queue and the deliveries of a read that brings the given outputs. */
  lemma {:induction false} ReadDelivers(w: Whole, x: WholeClient.Event, waiting: seq<Option<Callback>>, more: seq<Output>)
    requires WholeClient.Enabled(w, x) && x.ReadBrings? && w.tcp.callbacks && !x.stop.ParseError?
    requires Decode(w.front + x.chunk).replies == ToReplies(WiresOf(more))
    requires w.client.opCallbacks == Owed(waiting) && Fits(waiting, more) && (w.client.pubsubMode || Plain(more))
    ensures Answers(more) <= |waiting|
    ensures WholeClient.Next(w, x).client.opCallbacks == Owed(waiting[Answers(more)..])
    ensures Delivered(w, x) == Paired(waiting, more)
  {
    hide WholeClient.Next, RouterProperties.ReadAll, Decode, ToReplies, Fits, Paired, Owed, Answers, Plain, Deliveries;
    ReadOutputs(w.client, waiting, more);
    ReadQueue(w, x);
  }

  lemma {:induction false} ReadKeeps(w: Whole, r: Record, x: WholeClient.Event, outputs: seq<Output>)
    requires Conversing(w, r, outputs) && w.tcp.callbacks && !r.reading.failed && ReadingInv(w.front, r.reading)
    requires WholeClient.Enabled(w, x) && x.ReadBrings? && x.stop.Incomplete?
    requires AllWellFormed(WiresOf(outputs)) && Served(w, r, x, outputs)
    ensures Conversing(WholeClient.Next(w, x), Recorded(w, r, x), outputs)
  {
    hide WholeClient.Next, WholeClient.Enabled, RouterProperties.Run, RouterProperties.ReadAll, ForRouter, Decode, Encode,
      EncodeAll, ToReplies, Fits, Paired, Owed, Answers, Decodable, WellFormed, Plain, Delivered, ReadingInv, WiresOf;
    var n :| 0 <= n <= |outputs|
      && Fits(r.waiting[..Decodable(r)], outputs[..n]) && (w.client.pubsubMode || Plain(outputs[..n]))
      && r.reading.stream + x.chunk <= EncodeAll(WiresOf(outputs[..n]));
    var m := |r.reading.replies|;
    var k := ReadAdds(w, r, x, outputs, n);
    ServedPart(r.waiting, Decodable(r), outputs, m, k, n, w.client.pubsubMode);
    var a := Answers(outputs[..m]);
    ReadDelivers(w, x, r.waiting[a..], outputs[m..k]);
    TailOfTail(r.waiting, a, Answers(outputs[m..k]));
    ReadRecorded(w, r, x);
    RepliesCount(outputs, k);
  }

  lemma {:induction false} ReadRecorded(w: Whole, r: Record, x: WholeClient.Event)
    requires WholeClient.Enabled(w, x) && x.ReadBrings?
    ensures var q := Recorded(w, r, x);
            && q.waiting == r.waiting && q.got == r.got + Delivered(w, x) && q.reading.base == r.reading.base
            && q.reading.replies == r.reading.replies + Decode(w.front + x.chunk).replies
  {
    hide Delivered, Decode, RouterProperties.Run, ForRouter;
  }

  lemma {:induction false} RepliesCount(outputs: seq<Output>, k: nat)
    requires k <= |outputs|
    ensures |ToReplies(WiresOf(outputs))[..k]| == k
  {
  }

  lemma {:induction false} TailOfTail<T>(s: seq<T>, a: nat, b: nat)
    requires a + b <= |s|
    ensures s[a..][b..] == s[a + b..]
  {
  }

  /** Of what a server can have sent: the part that has been read, and the part that is read now. */
  lemma {:induction false} ServedPart(waiting: seq<Option<Callback>>, sent: nat, outputs: seq<Output>, m: nat, k: nat, n: nat,
                                      mode: bool)
    requires m <= k <= n <= |outputs| && sent <= |waiting|
    requires Fits(waiting[..sent], outputs[..n]) && (mode || Plain(outputs[..n]))
    ensures Answers(outputs[..m]) + Answers(outputs[m..k]) == Answers(outputs[..k]) <= |waiting|
    ensures Fits(waiting, outputs[..k]) && Fits(waiting[Answers(outputs[..m])..], outputs[m..k])
    ensures mode || Plain(outputs[m..k])
    ensures Paired(waiting, outputs[..k])
         == Paired(waiting, outputs[..m]) + Paired(waiting[Answers(outputs[..m])..], outputs[m..k])
  {
    hide Fits, Paired, Answers, IsPush, ToReply;
    assert waiting == waiting[..sent] + waiting[sent..];
    LaterCommands(waiting[..sent], waiting[sent..], outputs[..n]);
    assert outputs[..n] == outputs[..k] + outputs[k..n];
    LaterOutputs(waiting, outputs[..k], outputs[k..n]);
    assert outputs[..k] == outputs[..m] + outputs[m..k];
    LaterOutputs(waiting, outputs[..m], outputs[m..k]);
    assert forall i :: 0 <= i < k - m ==> outputs[m..k][i] == outputs[..n][m + i];
  }

  lemma {:induction false} StepKeeps(w: Whole, r: Record, x: WholeClient.Event, outputs: seq<Output>)
    requires Kept(w, r, outputs) && WholeClient.Inv(w, r) && WholeClient.Enabled(w, x) && !IsConnect(x)
    requires AllWellFormed(WiresOf(outputs)) && Served(w, r, x, outputs)
    ensures Kept(WholeClient.Next(w, x), Recorded(w, r, x), outputs)
  {
    hide Conversing, WholeClient.Next, Decode, Encode, WellFormed, Served, Takes, ForRouter, RouterProperties.Run, Delivered;
    var v, q := WholeClient.Next(w, x), Recorded(w, r, x);
    if v.tcp.IsConnected() && !q.reading.failed {
      StaysUp(w, x);
      if Sends(w, x) {
        SendKeeps(w, r, x, outputs);
      } else if x.ReadBrings? {
        ReadKeeps(w, r, x, outputs);
      } else {
        OtherKeeps(w, r, x, outputs);
      }
    }
  }

  lemma {:induction false} RunKeeps(w: Whole, r: Record, events: seq<WholeClient.Event>, outputs: seq<Output>)
    requires Kept(w, r, outputs) && WholeClient.Inv(w, r) && Legal(w, events, false)
    requires forall i :: 0 <= i < |events| ==> !IsConnect(events[i])
    requires AllWellFormed(WiresOf(outputs)) && ServedRun(w, r, events, outputs)
    ensures var (v, q) := After(w, r, events); Kept(v, q, outputs)
    decreases |events|
  {
    hide Kept, WholeClient.Inv, WholeClient.Enabled, WholeClient.Next, Recorded, WellFormed, Served;
    if events != [] {
      StepKeeps(w, r, events[0], outputs);
      WholeClient.StepKeeps(w, r, events[0]);
      RunKeeps(WholeClient.Next(w, events[0]), Recorded(w, r, events[0]), events[1..], outputs);
    }
  }

  /** A connection that is made with nobody waiting and nothing in front of the parser. */
  lemma {:induction false} ConnectKeeps(w: Whole, r: Record, outputs: seq<Output>)
    requires WholeClient.Enabled(w, Handles(Tcp.ConnectDone)) && w.client.opCallbacks == [] && w.front == []
    requires w.tcp.astate == Tcp.AdminConnected ==> w.tcp.callbacks
    ensures Kept(WholeClient.Next(w, Handles(Tcp.ConnectDone)), Recorded(w, r, Handles(Tcp.ConnectDone)), outputs)
  {
    hide Decode, Encode;
    RunNone(w.client);
    RunOne(w.client, ConnectionMade);
    assert outputs[..0] == [];
  }
}
