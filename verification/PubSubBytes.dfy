/**
 The same connection with the bytes between server and client: the server encodes its
 items onto a pipe, and the client is given whatever part of it a read brings. Every
 run of it is a run of PubSub.
 */
module PubSubBytes {
  import opened Resp
  import opened RespRoundTrip
  import opened Stream
  import opened Router
  import opened RouterProperties
  import opened PubSub
  import opened PubSubProperties
  import Commands

  datatype Wired = Wired(
    system: System,      // its replies only record what stands on the wire
    front: string,       // the chars at the front of the parser's buffer
    pipe: string         // the chars on their way
  )

  function WiresOf(items: seq<Item>): (ws: seq<Wire>)
    ensures |ws| == |items| && forall i :: 0 <= i < |ws| ==> ws[i] == WireOf(items[i])
  {
    seq(|items|, i requires 0 <= i < |items| => WireOf(items[i]))
  }

  function Values(items: seq<Item>): (rs: seq<Reply>)
    ensures |rs| == |items| && forall i :: 0 <= i < |rs| ==> rs[i] == Value(items[i])
  {
    seq(|items|, i requires 0 <= i < |items| => Value(items[i]))
  }

  /** on_read is called with one reply after the other. */
  function DeliverAll(s: System, replies: seq<Reply>): System
    decreases |replies|
  {
    if replies == [] then s
    else if s.replies == [] then s.(client := RouterProperties.ReadAll(s.client, replies))
    else DeliverAll(Deliver(s, replies[0]), replies[1..])
  }

  datatype Event = Do(step: Step) | Receive(n: nat)

  function Written(s: System, step: Step): seq<Item>
    requires Possible(s, step) && !step.Read?
  {
    var t := Apply(s, step);
    if |s.replies| <= |t.replies| then t.replies[|s.replies|..] else []
  }

  ghost predicate Enabled(w: Wired, e: Event) {
    match e
    case Do(step) => !step.Read? && Possible(w.system, step) && AllWellFormed(WiresOf(Written(w.system, step)))
    case Receive(n) => n <= |w.pipe|
  }

  function Next(w: Wired, e: Event): Wired
    requires Enabled(w, e)
  {
    match e
    case Do(step) =>
      Wired(Apply(w.system, step), w.front, w.pipe + EncodeAll(WiresOf(Written(w.system, step))))
    case Receive(n) =>
      var d := Decode(w.front + w.pipe[..n]);
      Wired(DeliverAll(w.system, d.replies), d.rest, w.pipe[n..])
  }

  /** What the bytes are, and that the client has all that is complete. */
  ghost predicate Synced(w: Wired) {
    var ws := WiresOf(w.system.replies);
    && AllWellFormed(ws)
    && w.front + w.pipe == EncodeAll(ws)
    && (ws != [] ==> |w.front| < |Encode(ws[0])|)
  }

  // ---- items on the wire ----

  lemma {:induction false} ThreeReplies(ws: seq<Wire>)
    ensures |ws| == 3 ==> ToReplies(ws) == [ToReply(ws[0]), ToReply(ws[1]), ToReply(ws[2])]
    ensures |ws| == 4 ==> ToReplies(ws) == [ToReply(ws[0]), ToReply(ws[1]), ToReply(ws[2]), ToReply(ws[3])]
  {
    forall i | 0 <= i < |ws| ensures ToReplies(ws)[i] == ToReply(ws[i]) {
      Commands.RepliesAt(ws, i);
    }
  }

  /** An item is read as what it means. */
  lemma {:induction false} WireMeansValue(item: Item)
    ensures ToReply(WireOf(item)) == Value(item)
  {
    hide ToReplies;
    if !item.Answer? {
      ThreeReplies(WireOf(item).items);
    }
  }

  lemma {:induction false} WiresMeanValues(items: seq<Item>)
    ensures ToReplies(WiresOf(items)) == Values(items)
  {
    hide WireOf, Value, ToReply;
    forall i | 0 <= i < |items| ensures ToReplies(WiresOf(items))[i] == Values(items)[i] {
      Commands.RepliesAt(WiresOf(items), i);
      WireMeansValue(items[i]);
    }
  }

  // ---- one read ----

  function Reads(k: nat): seq<Step> {
    seq(k, _ => Step.Read)
  }

  /** Delivering the values of the first k items is reading k times. */
  lemma {:induction false} DeliverAllIsReads(s: System, k: nat)
    requires k <= |s.replies|
    ensures Legal(s, Reads(k))
    ensures var t := After(s, Reads(k)); DeliverAll(s, Values(s.replies)[..k]) == t && t.replies == s.replies[k..]
    decreases k
  {
    hide Value, OnRead, Deliveries;
    if k > 0 {
      var t := Apply(s, Step.Read);
      assert Reads(k)[1..] == Reads(k - 1);
      assert Values(s.replies)[..k][1..] == Values(t.replies)[..k - 1];
      DeliverAllIsReads(t, k - 1);
    }
  }

  /** What a read of n chars decodes to, and what remains. */
  lemma {:induction false} ReceiveBytes(ws: seq<Wire>, front: string, pipe: string, n: nat) returns (k: nat)
    requires AllWellFormed(ws) && front + pipe == EncodeAll(ws) && n <= |pipe|
    ensures k <= |ws|
    ensures var d := Decode(front + pipe[..n]);
            && d.stop == Incomplete && d.replies == ToReplies(ws)[..k]
            && d.rest + pipe[n..] == EncodeAll(ws[k..])
            && (k < |ws| ==> |d.rest| < |Encode(ws[k])|)
  {
    hide Decode, Encode, EncodeAll, ToReplies, WellFormed;
    var s := front + pipe[..n];
    assert pipe == pipe[..n] + pipe[n..];
    Regroup(front, pipe[..n], pipe[n..]);
    assert s + pipe[n..] == EncodeAll(ws);
    k := DecodeArriving(ws, s);
    assert ws == ws[..k] + ws[k..];
    EncodeAllSum(ws[..k], ws[k..]);
    Regroup(EncodeAll(ws[..k]), Decode(s).rest, pipe[n..]);
    SameTail(EncodeAll(ws[..k]), Decode(s).rest + pipe[n..], EncodeAll(ws[k..]));
  }

  /** A read of any part of the pipe gives the client the next replies, each as the server meant it. */
  lemma {:induction false} ReceiveRefines(w: Wired, n: nat) returns (k: nat)
    requires Synced(w) && n <= |w.pipe|
    ensures k <= |w.system.replies| && Legal(w.system, Reads(k))
    ensures Decode(w.front + w.pipe[..n]).stop == Incomplete
    ensures var v := Next(w, Receive(n)); v.system == After(w.system, Reads(k)) && Synced(v)
  {
    hide Decode, Encode, EncodeAll, ToReplies, WellFormed, Legal, After, Apply, DeliverAll, WireOf, Value;
    var items := w.system.replies;
    k := ReceiveBytes(WiresOf(items), w.front, w.pipe, n);
    WiresMeanValues(items);
    DeliverAllIsReads(w.system, k);
    assert WiresOf(items[k..]) == WiresOf(items)[k..];
  }

  lemma {:induction false} SameTail(a: string, b: string, c: string)
    requires a + b == a + c
    ensures b == c
  {
    assert (a + b)[|a|..] == b;
    assert (a + c)[|a|..] == c;
  }

  // ---- every other step ----

  lemma {:induction false} OnlyReadTakes(s: System, step: Step)
    requires Possible(s, step) && !step.Read?
    ensures Apply(s, step).replies == s.replies + Written(s, step)
  {
    hide Router.Execute, Router.Subscribe, Router.Unsubscribe, Answering;
  }

  lemma {:induction false} DoSyncs(w: Wired, step: Step)
    requires Synced(w) && Enabled(w, Do(step))
    ensures Synced(Next(w, Do(step)))
  {
    hide Apply, Possible, Encode, EncodeAll, WellFormed, Written, WireOf;
    var items, more := w.system.replies, Written(w.system, step);
    OnlyReadTakes(w.system, step);
    assert WiresOf(items + more) == WiresOf(items) + WiresOf(more);
    EncodeAllSum(WiresOf(items), WiresOf(more));
    var v := Next(w, Do(step));
    assert v.front + v.pipe == (w.front + w.pipe) + EncodeAll(WiresOf(more));
    if items == [] && more != [] {
      EncodeNothing();
      EncodeLead(WireOf(more[0]));
    }
  }

  // ---- every run ----

  lemma {:induction false} RunsCompose(s: System, steps: seq<Step>, more: seq<Step>)
    requires Legal(s, steps) && Legal(After(s, steps), more)
    ensures Legal(s, steps + more) && After(s, steps + more) == After(After(s, steps), more)
    decreases |steps|
  {
    hide Possible, Apply;
    if steps == [] {
      assert steps + more == more;
    } else {
      assert (steps + more)[1..] == steps[1..] + more;
      RunsCompose(Apply(s, steps[0]), steps[1..], more);
    }
  }

  lemma {:induction false} ReachableSteps(s: System, more: seq<Step>)
    requires Reachable(s) && Legal(s, more)
    ensures Reachable(After(s, more))
  {
    hide Legal, After;
    var c: Client, steps :| c.opCallbacks == [] && Legal(Start(c), steps) && s == After(Start(c), steps);
    RunsCompose(Start(c), steps, more);
  }

  lemma {:induction false} OneStep(s: System, step: Step)
    requires Possible(s, step)
    ensures Legal(s, [step]) && After(s, [step]) == Apply(s, step)
  {
    assert [step][1..] == [];
  }

  ghost predicate Sound(w: Wired) {
    Synced(w) && Reachable(w.system)
  }

  lemma {:induction false} EventKeeps(w: Wired, e: Event)
    requires Sound(w) && Enabled(w, e)
    ensures Sound(Next(w, e))
  {
    hide Reachable, Synced, Legal, After, Apply, Possible, DeliverAll, Decode, EncodeAll;
    match e
    case Do(step) =>
      DoSyncs(w, step);
      OneStep(w.system, step);
      ReachableSteps(w.system, [step]);
    case Receive(n) =>
      var k := ReceiveRefines(w, n);
      ReachableSteps(w.system, Reads(k));
  }

  ghost predicate LegalRun(w: Wired, events: seq<Event>)
    decreases |events|
  {
    events == [] || (Enabled(w, events[0]) && LegalRun(Next(w, events[0]), events[1..]))
  }

  function AfterRun(w: Wired, events: seq<Event>): Wired
    requires LegalRun(w, events)
    decreases |events|
  {
    if events == [] then w else AfterRun(Next(w, events[0]), events[1..])
  }

  lemma {:induction false} RunSound(w: Wired, events: seq<Event>)
    requires Sound(w) && LegalRun(w, events)
    ensures Sound(AfterRun(w, events))
    decreases |events|
  {
    hide Sound, Enabled, Next;
    if events != [] {
      EventKeeps(w, events[0]);
      RunSound(Next(w, events[0]), events[1..]);
    }
  }

  /** A new connection of a client that no one waits on, with an empty parser. */
  function Fresh(c: Client): Wired {
    Wired(Start(c), [], [])
  }

  /**
   Refinement: however the bytes are cut and whatever happens in between, the client
   is where PubSub says after some legal steps, and the bytes are those of the items.
   */
  lemma {:induction false} BytesRefine(c: Client, events: seq<Event>)
    requires c.opCallbacks == [] && LegalRun(Fresh(c), events)
    ensures var w := AfterRun(Fresh(c), events); Synced(w) && Reachable(w.system)
  {
    hide LegalRun, AfterRun;
    EncodeNothing();
    assert WiresOf([]) == [];
    assert Legal(Start(c), []) && Start(c) == After(Start(c), []);
    RunSound(Fresh(c), events);
  }

  /**
   Answers and pushes over the bytes, with commands, subscriptions and pushes
   interleaved in any way and the bytes cut in any way: what callbacks have got is the
   first part of the answers, these belong to the commands in sending order, and no
   read has asked for a reconnect; the callbacks of subscriptions have been called with
   exactly what they were sent, in order. When nothing is under way any more, every
   callback has got its answer and nobody waits.
   */
  lemma {:induction false} AnswersOverBytes(c: Client, events: seq<Event>)
    requires c.opCallbacks == [] && LegalRun(Fresh(c), events)
    ensures var w := AfterRun(Fresh(c), events);
            var s := w.system;
            && s.got <= s.answered && CallbacksOf(s.answered) <= s.accepted
            && |s.client.opCallbacks| == |s.accepted| - |s.got|
            && Clean(s.client.calls)
            && SubscriptionCalls(s.client.calls) == Dues(s.read) && s.read <= s.sent
            && (w.pipe == [] ==> s.read == s.sent)
            && (w.pipe == [] && s.commands == [] ==>
                  s.got == s.answered && CallbacksOf(s.got) == s.accepted && s.client.opCallbacks == [])
  {
    hide LegalRun, AfterRun, Reachable, Encode, EncodeAll, WireOf,
      WellFormed, Matched, KeyInv, ModeInv;
    BytesRefine(c, events);
    var w := AfterRun(Fresh(c), events);
    AnswersReachTheirCommands(w.system);
    EverythingIsReported(w.system);
    ReachableKeeps(w.system);
    if w.pipe == [] && w.system.replies != [] {
      var ws := WiresOf(w.system.replies);
      EncodeAllFront(ws);
      assert false;
    }
  }

  lemma {:induction false} EncodeAllFront(ws: seq<Wire>)
    requires ws != []
    ensures |Encode(ws[0])| <= |EncodeAll(ws)|
  {
  }
}
