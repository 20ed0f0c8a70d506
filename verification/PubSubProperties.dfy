/** What every run of a connection keeps: who gets which reply, and who knows which subscription. */
module PubSubProperties {
  import opened Resp
  import opened Router
  import opened RouterProperties
  import opened PubSub

  // ---- the words ----

  lemma {:induction false} UpperIs(s: string, u: string)
    requires |u| == |s| && forall i :: 0 <= i < |s| ==> u[i] == UpperChar(s[i])
    ensures Upper(s) == u
  {
  }

  lemma {:induction false} Words()
    ensures TopicOf(Upper("subscribe")) == TopicOf(Upper("psubscribe")) == Beginning
    ensures TopicOf(Upper("unsubscribe")) == TopicOf(Upper("punsubscribe")) == Ending
    ensures TopicOf(Upper("message")) == Message && TopicOf(Upper("pmessage")) == PatternMessage
  {
    hide Upper;
    UpperIs("subscribe", "SUBSCRIBE");
    UpperIs("psubscribe", "PSUBSCRIBE");
    UpperIs("unsubscribe", "UNSUBSCRIBE");
    UpperIs("punsubscribe", "PUNSUBSCRIBE");
    UpperIs("message", "MESSAGE");
    UpperIs("pmessage", "PMESSAGE");
  }

  /** What the router makes of the server's items, case by case. */
  lemma {:induction false} ItemTopic(item: Item)
    requires !item.Answer?
    ensures HasWord(Value(item)) && Value(item).elements[1] == Str(item.key)
    ensures TopicOf(Word(Value(item))) == match item
                                          case SubAck(_, _, _) => Beginning
                                          case UnsubAck(_, _, _) => Ending
                                          case Push(Channels, _, _, _) => Message
                                          case Push(Patterns, _, _, _) => PatternMessage
    ensures IsPush(Value(item)) <==> !item.SubAck?
    ensures !item.Push? ==> IsAck(Value(item))
    ensures item.Push? ==> AreTexts(Value(item), if item.kind.Channels? then 2 else 3)
  {
    hide Upper, TopicOf;
    Words();
  }

  /**
   A push or an unsubscribe acknowledgement makes the client ask for a reconnect
   exactly when it names a key that the client does not hold.
   */
  lemma {:induction false} ReconnectIff(c: Client, item: Item)
    requires c.pubsubMode && !item.Answer? && !item.SubAck? && ModeInv(c)
    ensures OnRead(c, Value(item)) == c.Made(ReconnectAsked) <==> item.key !in c.subs
  {
    hide Upper, TopicOf;
    ItemTopic(item);
    var d := OnRead(c, Value(item));
    assert d.calls[|c.calls|] == ReconnectAsked <==> item.key !in c.subs;
  }

  /** Why one unsubscribe at a time: the acknowledgement of a second one finds the key gone. */
  lemma {:induction false} SecondAcknowledgement(c: Client, kind: Kind, key: string, n: int, m: int)
    requires c.pubsubMode && key in c.subs && ModeInv(c)
    ensures var d := OnRead(c, Value(UnsubAck(kind, key, n)));
            && d.calls == c.calls + [Unsubscribed(key)]
            && OnRead(d, Value(UnsubAck(kind, key, m))) == d.Made(ReconnectAsked)
  {
    hide Value, OnSubscribeCallback, TopicOf, Upper;
    var ack := UnsubAck(kind, key, n);
    ItemTopic(ack);
    ReadKnown(c, ack);
    ReconnectIff(OnRead(c, Value(ack)), UnsubAck(kind, key, m));
  }

  /** Reading an item whose key is held, with the change callback of its kind. */
  lemma {:induction false} ReadKnown(c: Client, item: Item)
    requires !item.Answer? && item.key in c.subs
    requires item.Push? ==> KindOf(c.subs[item.key]) == item.kind
    requires ModeInv(c)
    ensures var d := OnSubscribeCallback(c, Value(item));
            && d.opCallbacks == c.opCallbacks && d.pubsubMode == c.pubsubMode
            && d.subs == (if item.UnsubAck? then c.subs - {item.key} else c.subs)
            && d == c.Made(match item
                           case SubAck(_, key, _) => Subscribed(key)
                           case UnsubAck(_, key, _) => Unsubscribed(key)
                           case Push(Channels, key, _, text) => Changed(key, text)
                           case Push(Patterns, key, channel, text) => PatternChanged(key, channel, text)).(subs := d.subs)
  {
    hide Upper, TopicOf;
    ItemTopic(item);
  }

  /** on_read in pub/sub mode calls what a push or an unsubscribe acknowledgement is for, and nothing else. */
  lemma {:induction false} PushIsReported(c: Client, item: Item)
    requires c.pubsubMode && !item.Answer? && !item.SubAck? && item.key in c.subs && ModeInv(c)
    requires item.Push? ==> KindOf(c.subs[item.key]) == item.kind
    ensures OnRead(c, Value(item)).calls == c.calls + Due(item)
  {
    hide Upper, TopicOf, Value, OnSubscribeCallback;
    ItemTopic(item);
    ReadKnown(c, item);
  }

  /** So does on_read when the callback of a subscribe is in front and its acknowledgement comes. */
  lemma {:induction false} AckIsReported(c: Client, item: Item)
    requires item.SubAck? && item.key in c.subs && ModeInv(c)
    requires c.opCallbacks != [] && c.opCallbacks[0] == OnSubscribe
    ensures OnRead(c, Value(item)).calls == c.calls + [Replied(OnSubscribe, Value(item))] + Due(item)
  {
    hide Upper, TopicOf, Value, OnSubscribeCallback;
    ItemTopic(item);
    ReadKnown(c.Made(Replied(OnSubscribe, Value(item))), item);
  }

  // ---- pipes ----

  lemma {:induction false} RepliesOfFront(items: seq<Item>, key: string)
    requires items != []
    ensures RepliesOf(items, key) == Only(items[0], key) + RepliesOf(items[1..], key)
  {
  }

  lemma {:induction false} RepliesOfAppend(items: seq<Item>, item: Item, key: string)
    ensures RepliesOf(items + [item], key) ==
              if About(item, key) then RepliesOf(items, key) + [item] else RepliesOf(items, key)
  {
    hide RepliesOf;
    var more := items + [item];
    RepliesOfFront(more, key);
    if items == [] {
      RepliesOfNone(key);
      assert more[1..] == [];
    } else {
      assert more[1..] == items[1..] + [item];
      RepliesOfAppend(items[1..], item, key);
      RepliesOfFront(items, key);
    }
  }

  lemma RepliesOfNone(key: string)
    ensures RepliesOf([], key) == []
  {
  }

  lemma {:induction false} CommandsOfFront(commands: seq<Command>, key: string)
    requires commands != []
    ensures CommandsOf(commands, key) == OnlyCommand(commands[0], key) + CommandsOf(commands[1..], key)
  {
  }

  lemma {:induction false} CommandsOfAppend(commands: seq<Command>, command: Command, key: string)
    ensures CommandsOf(commands + [command], key) ==
              if !command.Regular? && command.key == key then CommandsOf(commands, key) + [command]
              else CommandsOf(commands, key)
  {
    hide CommandsOf;
    var more := commands + [command];
    CommandsOfFront(more, key);
    if commands == [] {
      CommandsOfNone(key);
      assert more[1..] == [];
    } else {
      assert more[1..] == commands[1..] + [command];
      CommandsOfAppend(commands[1..], command, key);
      CommandsOfFront(commands, key);
    }
  }

  lemma CommandsOfNone(key: string)
    ensures CommandsOf([], key) == []
  {
  }

  lemma {:induction false} PairingsFront(items: seq<Item>)
    requires items != []
    ensures Pairings(items) == Pairing(items[0]) + Pairings(items[1..])
  {
  }

  lemma {:induction false} PairingsAppend(items: seq<Item>, item: Item)
    ensures Pairings(items + [item]) == Pairings(items) + Pairing(item)
  {
    hide Pairings;
    var more := items + [item];
    PairingsFront(more);
    if items == [] {
      PairingsNone();
      assert more[1..] == [];
    } else {
      assert more[1..] == items[1..] + [item];
      PairingsAppend(items[1..], item);
      PairingsFront(items);
    }
  }

  lemma PairingsNone()
    ensures Pairings([]) == []
  {
  }

  lemma {:induction false} WaitingFront(commands: seq<Command>)
    requires commands != []
    ensures Waiting(commands) == Waits(commands[0]) + Waiting(commands[1..])
  {
  }

  lemma {:induction false} WaitingAppend(commands: seq<Command>, command: Command)
    ensures Waiting(commands + [command]) == Waiting(commands) + Waits(command)
  {
    hide Waiting;
    var more := commands + [command];
    WaitingFront(more);
    if commands == [] {
      WaitingNone();
      assert more[1..] == [];
    } else {
      assert more[1..] == commands[1..] + [command];
      WaitingAppend(commands[1..], command);
      WaitingFront(commands);
    }
  }

  lemma WaitingNone()
    ensures Waiting([]) == []
  {
  }

  // ---- the life of a subscription, step by step ----

  lemma {:induction false} LifeSubServed(kind: Kind, key: string, acked: bool, leaving: bool,
                                         items: seq<Item>, served: bool, commands: seq<Command>, n: int)
    requires Life(kind, key, acked, leaving, items, served, commands)
    requires commands != [] && commands[0].Sub?
    ensures commands[0] == Sub(kind, key)
    ensures Life(kind, key, acked, leaving, items + [SubAck(kind, key, n)], true, commands[1..])
    decreases |items|
  {
    var more := items + [SubAck(kind, key, n)];
    if items == [] {
      assert more[1..] == [];
    } else {
      assert more[1..] == items[1..] + [SubAck(kind, key, n)];
      LifeSubServed(kind, key, acked || items[0].SubAck?, leaving, items[1..], served, commands, n);
    }
  }

  lemma {:induction false} LifeUnsubServed(kind: Kind, key: string, acked: bool, leaving: bool,
                                           items: seq<Item>, served: bool, commands: seq<Command>, n: int)
    requires Life(kind, key, acked, leaving, items, served, commands)
    requires commands != [] && commands[0].Unsub?
    ensures commands == [Unsub(kind, key)] && served
    ensures Life(kind, key, acked, leaving, items + [UnsubAck(kind, key, n)], false, [])
    decreases |items|
  {
    var more := items + [UnsubAck(kind, key, n)];
    if items == [] {
      assert more[1..] == [];
    } else {
      assert more[1..] == items[1..] + [UnsubAck(kind, key, n)];
      LifeUnsubServed(kind, key, acked || items[0].SubAck?, leaving, items[1..], served, commands, n);
    }
  }

  lemma {:induction false} LifePublished(kind: Kind, key: string, acked: bool, leaving: bool,
                                         items: seq<Item>, commands: seq<Command>, channel: string, text: string)
    requires Life(kind, key, acked, leaving, items, true, commands)
    ensures Life(kind, key, acked, leaving, items + [Push(kind, key, channel, text)], true, commands)
    decreases |items|
  {
    var more := items + [Push(kind, key, channel, text)];
    if items == [] {
      assert more[1..] == [];
    } else {
      assert more[1..] == items[1..] + [Push(kind, key, channel, text)];
      LifePublished(kind, key, acked || items[0].SubAck?, leaving, items[1..], commands, channel, text);
    }
  }

  lemma {:induction false} LifeLeaving(kind: Kind, key: string, acked: bool,
                                       items: seq<Item>, served: bool, commands: seq<Command>)
    requires Life(kind, key, acked, false, items, served, commands)
    ensures Life(kind, key, acked, true, items, served, commands + [Unsub(kind, key)])
    decreases |items|
  {
    if items != [] {
      LifeLeaving(kind, key, acked || items[0].SubAck?, items[1..], served, commands);
    }
  }

  // ---- every step ----

  lemma {:induction false} ExecuteKeeps(s: System, id: nat, accepted: bool)
    requires Inv(s)
    ensures Inv(DoExecute(s, id, accepted))
  {
    hide Pairings, CallbacksOf, RepliesOf, CommandsOf, Life, Waiting;
    var t := DoExecute(s, id, accepted);
    if accepted {
      WaitingAppend(s.commands, Regular(id));
      forall key ensures KeyInv(t, key) {
        assert KeyInv(s, key);
        CommandsOfAppend(s.commands, Regular(id), key);
      }
    } else {
      forall key ensures KeyInv(t, key) {
        assert KeyInv(s, key);
      }
    }
  }

  lemma {:induction false} SubscribeKeeps(s: System, kind: Kind, key: string, id: nat)
    requires Inv(s)
    ensures Inv(DoSubscribe(s, kind, key, id))
  {
    hide Pairings, CallbacksOf, RepliesOf, CommandsOf, Waiting;
    var t := DoSubscribe(s, kind, key, id);
    if key in s.client.subs {
      forall k ensures KeyInv(t, k) {
        assert KeyInv(s, k);
      }
    } else {
      WaitingAppend(s.commands, Sub(kind, key));
      forall k ensures KeyInv(t, k) {
        assert KeyInv(s, k);
        CommandsOfAppend(s.commands, Sub(kind, key), k);
      }
    }
  }

  lemma {:induction false} UnsubscribeKeeps(s: System, key: string, accepted: bool)
    requires Inv(s) && key !in s.leaving
    ensures Inv(DoUnsubscribe(s, key, accepted))
  {
    hide Pairings, CallbacksOf, RepliesOf, CommandsOf, Waiting, Life;
    var t := DoUnsubscribe(s, key, accepted);
    if key in s.client.subs && accepted {
      var kind := KindOf(s.client.subs[key]);
      WaitingAppend(s.commands, Unsub(kind, key));
      forall k ensures KeyInv(t, k) {
        assert KeyInv(s, k);
        CommandsOfAppend(s.commands, Unsub(kind, key), k);
        if k == key {
          LifeLeaving(kind, key, key in s.acked, RepliesOf(s.replies, key), key in s.Served(kind),
                      CommandsOf(s.commands, key));
        }
      }
    } else {
      forall k ensures KeyInv(t, k) {
        assert KeyInv(s, k);
      }
    }
  }

  lemma {:induction false} PublishKeeps(s: System, kind: Kind, key: string, channel: string, text: string)
    requires Inv(s) && key in s.Served(kind)
    ensures Inv(DoPublish(s, Push(kind, key, channel, text)))
  {
    hide Pairings, CallbacksOf, RepliesOf, CommandsOf, Waiting, Life;
    var item := Push(kind, key, channel, text);
    var t := DoPublish(s, item);
    PairingsAppend(s.replies, item);
    forall k ensures KeyInv(t, k) {
      assert KeyInv(s, k);
      RepliesOfAppend(s.replies, item, k);
      if k == key {
        LifePublished(kind, key, key in s.acked, key in s.leaving, RepliesOf(s.replies, key),
                      CommandsOf(s.commands, key), channel, text);
      }
    }
  }

  lemma {:induction false} ServeKeyInv(s: System, wire: Wire, n: int, k: string)
    requires s.commands != [] && KeyInv(s, k)
    ensures KeyInv(DoServe(s, wire, n), k)
  {
    hide Pairings, Life, Pairing;
    var command := s.commands[0];
    var t := DoServe(s, wire, n);
    RepliesOfAppend(s.replies, Answering(command, wire, n), k);
    if !command.Regular? && command.key == k {
      var kind := KindOf(s.client.subs[k]);
      var items, commands := RepliesOf(s.replies, k), CommandsOf(s.commands, k);
      assert commands == [command] + CommandsOf(t.commands, k);
      assert commands[1..] == CommandsOf(t.commands, k);
      if command.Sub? {
        LifeSubServed(kind, k, k in s.acked, k in s.leaving, items, k in s.Served(kind), commands, n);
      } else {
        LifeUnsubServed(kind, k, k in s.acked, k in s.leaving, items, k in s.Served(kind), commands, n);
      }
    } else {
      assert CommandsOf(s.commands, k) == CommandsOf(t.commands, k);
    }
  }

  lemma {:induction false} CallbacksOfSum(a: seq<(Callback, Reply)>, b: seq<(Callback, Reply)>)
    ensures CallbacksOf(a + b) == CallbacksOf(a) + CallbacksOf(b)
  {
  }

  lemma {:induction false} ServeKeeps(s: System, wire: Wire, n: int)
    requires Inv(s) && Possible(s, Serve(wire, n))
    ensures Inv(DoServe(s, wire, n))
  {
    hide Pairings, RepliesOf, CommandsOf, Life, KeyInv, CallbacksOf;
    var t := DoServe(s, wire, n);
    var item := Answering(s.commands[0], wire, n);
    PairingsAppend(s.replies, item);
    CallbacksOfSum(Pairings(s.replies), Pairing(item));
    CallbacksOfSum(s.answered, Pairing(item));
    assert Waiting(s.commands) == CallbacksOf(Pairing(item)) + Waiting(t.commands) by {
      CallbacksOfPairing(item);
    }
    forall k ensures KeyInv(t, k) {
      ServeKeyInv(s, wire, n, k);
    }
  }

  lemma {:induction false} CallbacksOfPairing(item: Item)
    ensures CallbacksOf(Pairing(item)) == match item
                                          case Answer(id, _) => [User(id)]
                                          case SubAck(_, _, _) => [OnSubscribe]
                                          case _ => []
  {
  }

  // ---- reading ----

  /** What reading the item in front changes, as far as subscriptions are concerned. */
  ghost predicate FrontTaken(s: System, t: System)
    requires s.replies != []
  {
    var item := s.replies[0];
    && t.commands == s.commands && t.channels == s.channels && t.patterns == s.patterns
    && t.replies == s.replies[1..]
    && t.client.subs == (if item.UnsubAck? then s.client.subs - {item.key} else s.client.subs)
    && t.acked == (if item.SubAck? then s.acked + {item.key} else if item.UnsubAck? then s.acked - {item.key} else s.acked)
    && t.leaving == (if item.UnsubAck? then s.leaving - {item.key} else s.leaving)
  }

  lemma {:induction false} ReadOtherKey(s: System, t: System, k: string)
    requires s.replies != [] && !About(s.replies[0], k) && KeyInv(s, k) && FrontTaken(s, t)
    ensures KeyInv(t, k)
  {
    hide CommandsOf, Life;
    assert RepliesOf(s.replies, k) == RepliesOf(s.replies[1..], k);
  }

  lemma {:induction false} ReadThisKey(s: System, t: System, k: string)
    requires s.replies != [] && About(s.replies[0], k) && KeyInv(s, k) && FrontTaken(s, t)
    ensures KeyInv(t, k)
  {
    hide CommandsOf, RepliesOf;
    RepliesOfFront(s.replies, k);
    assert RepliesOf(s.replies, k)[1..] == RepliesOf(s.replies[1..], k);
  }

  /** The item in front is known to the client: the heart of subscription agreement. */
  lemma {:induction false} FrontIsKnown(s: System)
    requires Inv(s) && s.replies != [] && !s.replies[0].Answer?
    ensures var item := s.replies[0];
            && item.key in s.client.subs && KindOf(s.client.subs[item.key]) == item.kind
            && s.client.pubsubMode
  {
    hide Matched, CommandsOf;
    var item := s.replies[0];
    assert KeyInv(s, item.key);
    assert RepliesOf(s.replies, item.key)[0] == item;
  }

  lemma {:induction false} FrontCallback(s: System)
    requires Matched(s) && s.replies != []
    ensures s.client.opCallbacks ==
              CallbacksOf(Pairing(s.replies[0])) + (CallbacksOf(Pairings(s.replies[1..])) + Waiting(s.commands))
  {
    hide Waiting, Pairing, CallbacksOf;
    CallbacksOfSum(Pairing(s.replies[0]), Pairings(s.replies[1..]));
  }

  /** What reading the item in front does to the client. */
  lemma {:induction false} ReadFront(s: System)
    requires Inv(s) && s.replies != []
    ensures var item, c, d := s.replies[0], s.client, OnRead(s.client, Value(s.replies[0]));
            && d.opCallbacks == CallbacksOf(Pairings(s.replies[1..])) + Waiting(s.commands)
            && Deliveries(d.calls) == Deliveries(c.calls) + Pairing(item)
            && d.pubsubMode == c.pubsubMode
            && d.subs == (if item.UnsubAck? then c.subs - {item.key} else c.subs)
            && Clean(d.calls)
  {
    hide KeyInv, Pairings, Waiting, CallbacksOf, Deliveries, OnSubscribeCallback, Upper, TopicOf, Value;
    var item, c := s.replies[0], s.client;
    var reply := Value(item);
    ReadOne(c, reply);
    FrontCallback(s);
    CallbacksOfPairing(item);
    if item.Answer? {
      AnswerValue(item);
      assert !IsPush(reply);
    } else {
      FrontIsKnown(s);
      ItemTopic(item);
      ReadKnown(if item.SubAck? then c.Made(Replied(OnSubscribe, reply)) else c, item);
    }
  }

  lemma AnswerValue(item: Item)
    requires item.Answer?
    ensures Value(item) == ToReply(item.wire)
  {
  }

  lemma {:induction false} ReadKeeps(s: System)
    requires Inv(s) && s.replies != []
    ensures Inv(DoRead(s))
  {
    hide KeyInv, OnRead, Deliveries, Value, Waiting, CallbacksOf;
    var t := DoRead(s);
    ReadFront(s);
    assert t.got == s.got + Pairing(s.replies[0]);
    assert s.got + (Pairing(s.replies[0]) + Pairings(t.replies)) == t.got + Pairings(t.replies);
    forall k ensures KeyInv(t, k) {
      if About(s.replies[0], k) {
        ReadThisKey(s, t, k);
      } else {
        ReadOtherKey(s, t, k);
      }
    }
  }

  lemma {:induction false} StepKeeps(s: System, step: Step)
    requires Inv(s) && Possible(s, step)
    ensures Inv(Apply(s, step))
  {
    hide Inv, DoExecute, DoSubscribe, DoUnsubscribe, DoServe, DoPublish, DoRead;
    match step
    case Execute(id, accepted) => ExecuteKeeps(s, id, accepted);
    case Subscribe(kind, key, id) => SubscribeKeeps(s, kind, key, id);
    case Unsubscribe(key, accepted) => UnsubscribeKeeps(s, key, accepted);
    case Serve(wire, n) => ServeKeeps(s, wire, n);
    case Publish(kind, key, channel, text) => PublishKeeps(s, kind, key, channel, text);
    case Read => ReadKeeps(s);
  }

  // ---- every run ----

  ghost predicate Legal(s: System, steps: seq<Step>)
    decreases |steps|
  {
    steps == [] || (Possible(s, steps[0]) && Legal(Apply(s, steps[0]), steps[1..]))
  }

  function After(s: System, steps: seq<Step>): System
    requires Legal(s, steps)
    decreases |steps|
  {
    if steps == [] then s else After(Apply(s, steps[0]), steps[1..])
  }

  lemma {:induction false} RunKeeps(s: System, steps: seq<Step>)
    requires Inv(s) && Legal(s, steps)
    ensures Inv(After(s, steps))
    decreases |steps|
  {
    hide Inv, Possible, Apply;
    if steps != [] {
      StepKeeps(s, steps[0]);
      RunKeeps(Apply(s, steps[0]), steps[1..]);
    }
  }

  /** A connection starts sound exactly when no earlier one has left a callback in the queue. */
  lemma {:induction false} StartIff(c: Client)
    ensures Inv(Start(c)) <==> c.opCallbacks == []
  {
    var s := Start(c);
    assert CallbacksOf([]) == [];
    forall key ensures KeyInv(s, key) {
    }
  }

  ghost predicate Reachable(s: System) {
    exists c: Client, steps :: c.opCallbacks == [] && Legal(Start(c), steps) && s == After(Start(c), steps)
  }

  lemma {:induction false} ReachableKeeps(s: System)
    requires Reachable(s)
    ensures Inv(s)
  {
    var c: Client, steps :| c.opCallbacks == [] && Legal(Start(c), steps) && s == After(Start(c), steps);
    StartIff(c);
    RunKeeps(Start(c), steps);
  }

  /**
   Subscription agreement: whatever is under way to the client names a key it holds,
   with the right kind of callback; so no reconnect has been asked for, and no empty
   function called.
   */
  lemma {:induction false} SubscriptionAgreement(s: System, i: nat)
    requires Reachable(s) && i < |s.replies| && !s.replies[i].Answer?
    ensures var item := s.replies[i];
            item.key in s.client.subs && KindOf(s.client.subs[item.key]) == item.kind
    ensures s.client.pubsubMode && Clean(s.client.calls)
  {
    hide Matched, CommandsOf;
    ReachableKeeps(s);
    var item := s.replies[i];
    assert KeyInv(s, item.key);
    RepliesOfHas(s.replies, i, item.key);
    var items := RepliesOf(s.replies, item.key);
    var j :| 0 <= j < |items| && items[j] == item;
    LifeKinds(KindOf(s.client.subs[item.key]), item.key, item.key in s.acked, item.key in s.leaving, items,
              item.key in s.Served(KindOf(s.client.subs[item.key])), CommandsOf(s.commands, item.key), j);
  }

  lemma {:induction false} RepliesOfHas(items: seq<Item>, i: nat, key: string)
    requires i < |items| && About(items[i], key)
    ensures items[i] in RepliesOf(items, key)
  {
    if i > 0 {
      RepliesOfHas(items[1..], i - 1, key);
    }
  }

  lemma {:induction false} LifeKinds(kind: Kind, key: string, acked: bool, leaving: bool,
                                     items: seq<Item>, served: bool, commands: seq<Command>, j: nat)
    requires Life(kind, key, acked, leaving, items, served, commands) && j < |items|
    ensures !items[j].Answer? && items[j].kind == kind
    decreases |items|
  {
    if j > 0 {
      LifeKinds(kind, key, acked || items[0].SubAck?, leaving, items[1..], served, commands, j - 1);
    }
  }

  /** What the server serves, the client holds; a key the client does not hold is nowhere any more. */
  lemma {:induction false} ServedIsHeld(s: System, key: string)
    requires Reachable(s)
    ensures key in s.channels + s.patterns ==> key in s.client.subs
    ensures key in s.channels ==> key !in s.patterns
    ensures key !in s.client.subs ==> RepliesOf(s.replies, key) == [] && CommandsOf(s.commands, key) == []
  {
    hide Matched, Life;
    ReachableKeeps(s);
    assert KeyInv(s, key);
  }

  /**
   Positional matching over every run, pushes and all: the callbacks of the answers
   are those of the commands in the order in which they were sent, and what reads
   have delivered is the first part of what the server has answered.
   */
  lemma {:induction false} AnswersReachTheirCommands(s: System)
    requires Reachable(s)
    ensures CallbacksOf(s.answered) <= s.accepted
    ensures s.got <= s.answered
    ensures |s.client.opCallbacks| == |s.accepted| - |s.got|
    ensures s.replies == [] && s.commands == [] ==> s.got == s.answered && CallbacksOf(s.got) == s.accepted
  {
    hide KeyInv;
    ReachableKeeps(s);
    CallbacksOfSum(s.got, Pairings(s.replies));
  }

  // ---- what is reported ----

  lemma {:induction false} CallsMade(calls: seq<Call>, call: Call)
    ensures SubscriptionCalls(calls + [call]) == SubscriptionCalls(calls) +
              if call.Subscribed? || call.Changed? || call.PatternChanged? || call.Unsubscribed? then [call] else []
  {
    assert (calls + [call])[..|calls|] == calls;
  }

  lemma {:induction false} DuesAppend(items: seq<Item>, item: Item)
    ensures Dues(items + [item]) == Dues(items) + Due(item)
  {
    assert (items + [item])[..|items|] == items;
  }

  lemma {:induction false} ReadReports(s: System)
    requires Inv(s) && Reported(s) && s.replies != []
    ensures Reported(DoRead(s))
  {
    hide KeyInv, OnRead, Deliveries, Value, SubscriptionCalls, Dues, IsPush, ModeInv;
    var item, c := s.replies[0], s.client;
    DuesAppend(s.read, item);
    FrontCallback(s);
    CallbacksOfPairing(item);
    assert s.replies == [item] + s.replies[1..];
    if item.Answer? {
      AnswerReads(c, item);
      CallsMade(c.calls, Replied(User(item.id), Value(item)));
    } else {
      FrontIsKnown(s);
      if item.SubAck? {
        AckIsReported(c, item);
        CallsMade(c.calls, Replied(OnSubscribe, Value(item)));
        CallsMade(c.calls + [Replied(OnSubscribe, Value(item))], Due(item)[0]);
      } else {
        PushIsReported(c, item);
        CallsMade(c.calls, Due(item)[0]);
      }
    }
  }

  lemma {:induction false} AnswerReads(c: Client, item: Item)
    requires item.Answer? && !IsPush(Value(item)) && c.opCallbacks != [] && c.opCallbacks[0] == User(item.id)
    ensures OnRead(c, Value(item)).calls == c.calls + [Replied(User(item.id), Value(item))]
  {
    hide IsPush, Value;
  }

  lemma {:induction false} StepReports(s: System, step: Step)
    requires Inv(s) && Reported(s) && Possible(s, step)
    ensures Reported(Apply(s, step))
  {
    hide Inv, DoRead, SubscriptionCalls, Dues, Answering;
    match step
    case Execute(id, accepted) =>
      CallsMade(s.client.calls, Replied(User(id), Error(BUFFER_FULL)));
    case Read => ReadReports(s);
    case _ =>
  }

  lemma {:induction false} RunReports(s: System, steps: seq<Step>)
    requires Inv(s) && Reported(s) && Legal(s, steps)
    ensures Reported(After(s, steps))
    decreases |steps|
  {
    hide Inv, Reported, Possible, Apply;
    if steps != [] {
      StepKeeps(s, steps[0]);
      StepReports(s, steps[0]);
      RunReports(Apply(s, steps[0]), steps[1..]);
    }
  }

  /**
   Reports over every run: the calls of subscription callbacks are, in order and with
   their texts, exactly those due for the acknowledgements and pushes that have been
   read, and these are the first that the server has sent. With the pipe empty each
   of them has been reported.
   */
  lemma {:induction false} EverythingIsReported(s: System)
    requires Reachable(s)
    ensures s.sent == s.read + s.replies
    ensures SubscriptionCalls(s.client.calls) == Dues(s.read)
    ensures s.replies == [] ==> SubscriptionCalls(s.client.calls) == Dues(s.sent)
  {
    hide Inv, Legal, After;
    var c: Client, steps :| c.opCallbacks == [] && Legal(Start(c), steps) && s == After(Start(c), steps);
    StartIff(c);
    RunReports(Start(c), steps);
    assert s.replies == [] ==> s.read + s.replies == s.read;
  }

  /** With a callback left over from an earlier connection, the first answer goes to that one. */
  lemma {:induction false} LeftoverGetsTheAnswer(c: Client, id: nat, wire: Wire)
    requires c.opCallbacks != [] && !IsPush(ToReply(wire))
    ensures var s := DoServe(DoExecute(Start(c), id, true), wire, 0);
            && s.answered == [(User(id), ToReply(wire))]
            && DoRead(s).got == [(c.opCallbacks[0], ToReply(wire))]
  {
    hide Deliveries, OnRead;
    var s := DoServe(DoExecute(Start(c), id, true), wire, 0);
    assert s.replies == [Answer(id, wire)];
    ReadOne(s.client, ToReply(wire));
    NothingDelivered();
  }
}
