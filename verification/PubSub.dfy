/**
 One connection as a whole: the client, the commands on their way to the server,
 the server, which answers in order and publishes when it likes, and the replies on
 their way back. Both pipes keep order.
 */
module PubSub {
  import opened Resp
  import opened Router
  import opened RouterProperties

  datatype Kind = Channels | Patterns

  datatype Command = Regular(id: nat) | Sub(kind: Kind, key: string) | Unsub(kind: Kind, key: string)

  /** What the server sends; subscriptions is the number it puts in an acknowledgement. */
  datatype Item =
    | Answer(id: nat, wire: Wire)
    | SubAck(kind: Kind, key: string, subscriptions: int)
    | UnsubAck(kind: Kind, key: string, subscriptions: int)
    | Push(kind: Kind, key: string, channel: string, text: string)

  /** What stands on the wire: words and keys are bulk strings. */
  function WireOf(item: Item): Wire {
    match item
    case Answer(_, wire) => wire
    case SubAck(Channels, key, n) => Items([Bulk("subscribe"), Bulk(key), Number(n)])
    case SubAck(Patterns, key, n) => Items([Bulk("psubscribe"), Bulk(key), Number(n)])
    case UnsubAck(Channels, key, n) => Items([Bulk("unsubscribe"), Bulk(key), Number(n)])
    case UnsubAck(Patterns, key, n) => Items([Bulk("punsubscribe"), Bulk(key), Number(n)])
    case Push(Channels, key, _, text) => Items([Bulk("message"), Bulk(key), Bulk(text)])
    case Push(Patterns, key, channel, text) => Items([Bulk("pmessage"), Bulk(key), Bulk(channel), Bulk(text)])
  }

  /** The reply that the client's parser makes of it. */
  function Value(item: Item): Reply {
    match item
    case Answer(_, wire) => ToReply(wire)
    case SubAck(Channels, key, n) => Array([Str("subscribe"), Str(key), Integer(n)])
    case SubAck(Patterns, key, n) => Array([Str("psubscribe"), Str(key), Integer(n)])
    case UnsubAck(Channels, key, n) => Array([Str("unsubscribe"), Str(key), Integer(n)])
    case UnsubAck(Patterns, key, n) => Array([Str("punsubscribe"), Str(key), Integer(n)])
    case Push(Channels, key, _, text) => Array([Str("message"), Str(key), Str(text)])
    case Push(Patterns, key, channel, text) => Array([Str("pmessage"), Str(key), Str(channel), Str(text)])
  }

  datatype System = System(
    client: Client,
    commands: seq<Command>,
    channels: set<string>,                 // what the server has subscribed
    patterns: set<string>,
    replies: seq<Item>,
    // what has happened on this connection
    acked: set<string>,                    // keys whose subscription the client has seen acknowledged
    leaving: set<string>,                  // keys with an unsubscribe under way
    accepted: seq<Callback>,               // callbacks of the commands sent, in order
    answered: seq<(Callback, Reply)>,      // what the server has answered, in order
    got: seq<(Callback, Reply)>,           // what reads have delivered, in order
    sent: seq<Item>,                       // what the server has sent, in order
    read: seq<Item>                        // what the client has read, in order
  ) {
    function Served(kind: Kind): set<string> {
      match kind
      case Channels => channels
      case Patterns => patterns
    }
  }

  /** A connection that has just been made by a client with any past; calls are counted from here. */
  function Start(c: Client): System {
    System(OnConnected(c).(calls := []), [], {}, {}, [], {}, {}, [], [], [], [], [])
  }

  datatype Step =
    | Execute(id: nat, accepted: bool)
    | Subscribe(kind: Kind, key: string, id: nat)
    | Unsubscribe(key: string, accepted: bool)
    | Serve(wire: Wire, subscriptions: int)
    | Publish(kind: Kind, key: string, channel: string, text: string)
    | Read

  function KindOf(s: Subscription): Kind {
    if s.hasPatternChange then Patterns else Channels
  }

  /**
   The hypotheses: at most one unsubscribe under way per key, of the kind of the
   subscription; no regular command is answered with one of the four push words; and
   the send buffer takes a subscribe.
   */
  predicate Possible(s: System, step: Step) {
    match step
    case Unsubscribe(key, _) => key !in s.leaving
    case Serve(wire, _) => s.commands != [] && (s.commands[0].Regular? ==> !IsPush(ToReply(wire)))
    case Publish(kind, key, _, _) => key in s.Served(kind)
    case Read => s.replies != []
    case _ => true
  }

  function DoExecute(s: System, id: nat, accepted: bool): System {
    var client := Router.Execute(s.client, Some(User(id)), true, accepted);
    if accepted
    then s.(client := client, commands := s.commands + [Regular(id)], accepted := s.accepted + [User(id)])
    else s.(client := client)
  }

  function DoSubscribe(s: System, kind: Kind, key: string, id: nat): System {
    var client := Router.Subscribe(s.client, key, Subscription(id, kind.Channels?, kind.Patterns?), true, true);
    if key in s.client.subs then s.(client := client)
    else s.(client := client, commands := s.commands + [Sub(kind, key)], accepted := s.accepted + [OnSubscribe])
  }

  function DoUnsubscribe(s: System, key: string, accepted: bool): System {
    var client := Router.Unsubscribe(s.client, key, true, accepted);
    if key in s.client.subs && accepted
    then s.(client := client, leaving := s.leaving + {key},
            commands := s.commands + [Unsub(KindOf(s.client.subs[key]), key)])
    else s.(client := client)
  }

  function Answering(command: Command, wire: Wire, subscriptions: int): Item {
    match command
    case Regular(id) => Answer(id, wire)
    case Sub(kind, key) => SubAck(kind, key, subscriptions)
    case Unsub(kind, key) => UnsubAck(kind, key, subscriptions)
  }

  function Change(served: set<string>, kind: Kind, command: Command): set<string> {
    if command.Sub? && command.kind == kind then served + {command.key}
    else if command.Unsub? && command.kind == kind then served - {command.key}
    else served
  }

  function DoServe(s: System, wire: Wire, subscriptions: int): System
    requires s.commands != []
  {
    var item := Answering(s.commands[0], wire, subscriptions);
    s.(commands := s.commands[1..],
       channels := Change(s.channels, Channels, s.commands[0]),
       patterns := Change(s.patterns, Patterns, s.commands[0]),
       replies := s.replies + [item],
       answered := s.answered + Pairing(item),
       sent := s.sent + [item])
  }

  /** on_read is called with this reply; the item in front is what it has been made of. */
  function Deliver(s: System, reply: Reply): System
    requires s.replies != []
  {
    var item := s.replies[0];
    var client := OnRead(s.client, reply);
    var before := |Deliveries(s.client.calls)|;
    var now := Deliveries(client.calls);
    s.(client := client,
       replies := s.replies[1..],
       acked := if item.SubAck? then s.acked + {item.key} else if item.UnsubAck? then s.acked - {item.key} else s.acked,
       leaving := if item.UnsubAck? then s.leaving - {item.key} else s.leaving,
       got := s.got + (if before <= |now| then now[before..] else []),
       read := s.read + [item])
  }

  function DoRead(s: System): System
    requires s.replies != []
  {
    Deliver(s, Value(s.replies[0]))
  }

  function DoPublish(s: System, item: Item): System {
    s.(replies := s.replies + [item], sent := s.sent + [item])
  }

  function Apply(s: System, step: Step): System
    requires Possible(s, step)
  {
    match step
    case Execute(id, accepted) => DoExecute(s, id, accepted)
    case Subscribe(kind, key, id) => DoSubscribe(s, kind, key, id)
    case Unsubscribe(key, accepted) => DoUnsubscribe(s, key, accepted)
    case Serve(wire, subscriptions) => DoServe(s, wire, subscriptions)
    case Publish(kind, key, channel, text) => DoPublish(s, Push(kind, key, channel, text))
    case Read => DoRead(s)
  }

  // ---- positional matching ----

  /** The callback that an item is for, with what it will get; pushes and unsubscribe acknowledgements are for none. */
  function Pairing(item: Item): seq<(Callback, Reply)> {
    match item
    case Answer(id, wire) => [(User(id), ToReply(wire))]
    case SubAck(_, _, _) => [(OnSubscribe, Value(item))]
    case _ => []
  }

  function Pairings(items: seq<Item>): seq<(Callback, Reply)> {
    if items == [] then [] else Pairing(items[0]) + Pairings(items[1..])
  }

  /** The callback that a command has put into the queue. */
  function Waits(command: Command): seq<Callback> {
    match command
    case Regular(id) => [User(id)]
    case Sub(_, _) => [OnSubscribe]
    case Unsub(_, _) => []
  }

  function Waiting(commands: seq<Command>): seq<Callback> {
    if commands == [] then [] else Waits(commands[0]) + Waiting(commands[1..])
  }

  ghost predicate Matched(s: System) {
    && s.client.opCallbacks == CallbacksOf(Pairings(s.replies)) + Waiting(s.commands)
    && s.answered == s.got + Pairings(s.replies)
    && s.accepted == CallbacksOf(s.answered) + Waiting(s.commands)
  }

  // ---- subscription calls ----

  /** The calls of a subscription's callbacks. */
  function SubscriptionCalls(calls: seq<Call>): seq<Call> {
    if calls == [] then []
    else
      var last := calls[|calls| - 1];
      SubscriptionCalls(calls[..|calls| - 1])
      + if last.Subscribed? || last.Changed? || last.PatternChanged? || last.Unsubscribed? then [last] else []
  }

  /** The call that an item is for, with the item's own texts. */
  function Due(item: Item): seq<Call> {
    match item
    case Answer(_, _) => []
    case SubAck(_, key, _) => [Subscribed(key)]
    case UnsubAck(_, key, _) => [Unsubscribed(key)]
    case Push(Channels, key, _, text) => [Changed(key, text)]
    case Push(Patterns, key, channel, text) => [PatternChanged(key, channel, text)]
  }

  function Dues(items: seq<Item>): seq<Call> {
    if items == [] then [] else Dues(items[..|items| - 1]) + Due(items[|items| - 1])
  }

  /** Nothing is lost between server and client, and everything read has been reported, in order. */
  ghost predicate Reported(s: System) {
    s.sent == s.read + s.replies && SubscriptionCalls(s.client.calls) == Dues(s.read)
  }

  // ---- subscription agreement ----

  predicate About(item: Item, key: string) {
    !item.Answer? && item.key == key
  }

  function Only(item: Item, key: string): seq<Item> {
    if About(item, key) then [item] else []
  }

  function OnlyCommand(command: Command, key: string): seq<Command> {
    if !command.Regular? && command.key == key then [command] else []
  }

  function RepliesOf(items: seq<Item>, key: string): seq<Item> {
    if items == [] then [] else Only(items[0], key) + RepliesOf(items[1..], key)
  }

  function CommandsOf(commands: seq<Command>, key: string): seq<Command> {
    if commands == [] then []
    else OnlyCommand(commands[0], key) + CommandsOf(commands[1..], key)
  }

  /**
   The life of a subscription as it lies in the pipes. In front what the client will
   read next: the acknowledgement if it has not had it, pushes, and at the very end
   the acknowledgement of the unsubscribe; then the server; then what it will serve.
   */
  ghost predicate Life(kind: Kind, key: string, acked: bool, leaving: bool,
                       items: seq<Item>, served: bool, commands: seq<Command>)
    decreases |items|
  {
    if items == [] then
      && served == acked
      && commands == (if acked then [] else [Sub(kind, key)]) + (if leaving then [Unsub(kind, key)] else [])
    else
      match items[0]
      case Answer(_, _) => false
      case SubAck(k, name, _) =>
        k == kind && name == key && !acked && Life(kind, key, true, leaving, items[1..], served, commands)
      case Push(k, name, _, _) =>
        k == kind && name == key && acked && Life(kind, key, acked, leaving, items[1..], served, commands)
      case UnsubAck(k, name, _) =>
        k == kind && name == key && acked && leaving && items[1..] == [] && !served && commands == []
  }

  ghost predicate KeyInv(s: System, key: string) {
    var items, commands := RepliesOf(s.replies, key), CommandsOf(s.commands, key);
    if key in s.client.subs then
      var kind := KindOf(s.client.subs[key]);
      && Life(kind, key, key in s.acked, key in s.leaving, items, key in s.Served(kind), commands)
      && key !in s.Served(if kind.Channels? then Patterns else Channels)
    else
      && items == [] && commands == []
      && key !in s.channels && key !in s.patterns && key !in s.acked && key !in s.leaving
  }

  /** No reconnect has been asked for and no empty function called. */
  ghost predicate Clean(calls: seq<Call>) {
    ReconnectAsked !in calls && NullCall !in calls
  }

  ghost predicate Inv(s: System) {
    && ModeInv(s.client)
    && Matched(s)
    && (forall key :: KeyInv(s, key))
    && Clean(s.client.calls)
    && (forall i :: 0 <= i < |s.replies| && s.replies[i].Answer? ==> !IsPush(Value(s.replies[i])))
  }
}
