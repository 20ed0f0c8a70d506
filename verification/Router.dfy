/**
 The Redis client: which callback gets a reply. The functions here are what the
 methods of RedisConnection compute; the lemmas say what that means over runs.
 User callbacks are foreign code: a call of one is recorded, and does nothing to
 the client.
 */
module Router {
  import opened Resp

  datatype Option<+T> = None | Some(value: T)

  /** What _op_callbacks holds: a callback the user gave to execute, or the bound on_subscribe_callback. */
  datatype Callback = User(id: nat) | OnSubscribe

  /** The callbacks of one key; of the two change callbacks one is an empty function. */
  datatype Subscription = Subscription(id: nat, hasChange: bool, hasPatternChange: bool)

  datatype Call =
    | Replied(callback: Callback, reply: Reply)
    | Subscribed(key: string)
    | Changed(key: string, message: string)
    | PatternChanged(key: string, channel: string, message: string)
    | Unsubscribed(key: string)
    | NullCall                      // an empty std::function was called: std::bad_function_call
    | ReconnectAsked                // _tcp.reconnect()

  datatype Client = Client(
    opCallbacks: seq<Callback>,
    pubsubMode: bool,
    subs: map<string, Subscription>,
    calls: seq<Call>                // the calls made so far, oldest first
  ) {
    function Made(call: Call): Client {
      this.(calls := calls + [call])
    }
  }

  const CANNOT_SEND := "TCP CANNOT SEND MESSAGE"
  const BUFFER_FULL := "ERROR: TCP send buffer is full. Current limit is: 10485760"
  const DISCONNECTED := "TCP DISCONNECTED"

  function UpperChar(c: char): char {
    if 'a' <= c <= 'z' then (c as int - 32) as char else c
  }

  function Upper(s: string): (u: string)
    ensures |u| == |s| && forall i :: 0 <= i < |s| ==> u[i] == UpperChar(s[i])
  {
    if s == [] then [] else [UpperChar(s[0])] + Upper(s[1..])
  }

  /** The command word of a reply that can concern a subscription. */
  predicate HasWord(reply: Reply) {
    reply.Array? && 0 < |reply.elements| && reply.elements[0].Str?
  }

  function Word(reply: Reply): string
    requires HasWord(reply)
  {
    Upper(reply.elements[0].str)
  }

  /** What a command word announces. */
  datatype Topic = Beginning | Message | Ending | PatternMessage | Other

  function TopicOf(word: string): Topic {
    if word == "SUBSCRIBE" || word == "PSUBSCRIBE" then Beginning
    else if word == "MESSAGE" then Message
    else if word == "UNSUBSCRIBE" || word == "PUNSUBSCRIBE" then Ending
    else if word == "PMESSAGE" then PatternMessage
    else Other
  }

  predicate IsPushTopic(topic: Topic) {
    topic.Message? || topic.Ending? || topic.PatternMessage?
  }

  /** Replies that bypass the queue in pub/sub mode. */
  predicate IsPush(reply: Reply) {
    HasWord(reply) && IsPushTopic(TopicOf(Word(reply)))
  }

  /** An acknowledgement: word, key, number of subscriptions. */
  predicate IsAck(reply: Reply)
    requires HasWord(reply)
  {
    3 <= |reply.elements| && reply.elements[1].Str? && reply.elements[2].Integer?
  }

  predicate AreTexts(reply: Reply, n: nat)
    requires HasWord(reply)
  {
    n < |reply.elements| && forall i :: 1 <= i <= n ==> reply.elements[i].Str?
  }

  function OnSubscribeCallback(c: Client, reply: Reply): Client {
    if !HasWord(reply) then c.Made(ReconnectAsked)
    else
      match TopicOf(Word(reply))
      case Beginning =>
        if !IsAck(reply) || reply.elements[1].str !in c.subs then c.Made(ReconnectAsked)
        else c.Made(Subscribed(reply.elements[1].str))
      case Message =>
        if !AreTexts(reply, 2) || reply.elements[1].str !in c.subs then c.Made(ReconnectAsked)
        else
          var key := reply.elements[1].str;
          if c.subs[key].hasChange then c.Made(Changed(key, reply.elements[2].str)) else c.Made(NullCall)
      case Ending =>
        if !IsAck(reply) || reply.elements[1].str !in c.subs then c.Made(ReconnectAsked)
        else
          var key := reply.elements[1].str;
          c.Made(Unsubscribed(key)).(subs := c.subs - {key})
      case PatternMessage =>
        if !AreTexts(reply, 3) || reply.elements[1].str !in c.subs then c.Made(ReconnectAsked)
        else
          var key := reply.elements[1].str;
          if c.subs[key].hasPatternChange
          then c.Made(PatternChanged(key, reply.elements[2].str, reply.elements[3].str))
          else c.Made(NullCall)
      case Other => c
  }

  function Invoke(c: Client, callback: Callback, reply: Reply): Client {
    var d := c.Made(Replied(callback, reply));
    if callback.OnSubscribe? then OnSubscribeCallback(d, reply) else d
  }

  function OnRead(c: Client, reply: Reply): Client {
    if c.pubsubMode && IsPush(reply) then OnSubscribeCallback(c, reply)
    else if c.opCallbacks == [] then c.Made(ReconnectAsked)
    else Invoke(c, c.opCallbacks[0], reply).(opCallbacks := c.opCallbacks[1..])
  }

  /** accepted is whether the send buffer takes the message; a refused command without a callback just vanishes. */
  function Execute(c: Client, callback: Option<Callback>, connected: bool, accepted: bool): Client {
    if !connected then
      if callback.None? then c.Made(NullCall) else Invoke(c, callback.value, Error(CANNOT_SEND))
    else if callback.None? then c
    else if accepted then c.(opCallbacks := c.opCallbacks + [callback.value])
    else Invoke(c, callback.value, Error(BUFFER_FULL))
  }

  /** A key that is taken is refused with an exception, but not before the mode has changed. */
  function Subscribe(c: Client, key: string, callbacks: Subscription, connected: bool, accepted: bool): Client {
    var d := c.(pubsubMode := true);
    if key in c.subs then d
    else Execute(d.(subs := c.subs[key := callbacks]), Some(OnSubscribe), connected, accepted)
  }

  function Unsubscribe(c: Client, key: string, connected: bool, accepted: bool): Client {
    if key !in c.subs then c else Execute(c, None, connected, accepted)
  }

  function NotifyAll(c: Client): Client
    decreases |c.opCallbacks|
  {
    if c.opCallbacks == [] then c
    else
      InvokeKeepsQueue(c, c.opCallbacks[0], Error(DISCONNECTED));
      NotifyAll(Invoke(c, c.opCallbacks[0], Error(DISCONNECTED)).(opCallbacks := c.opCallbacks[1..]))
  }

  lemma {:induction false} InvokeKeepsQueue(c: Client, callback: Callback, reply: Reply)
    ensures OnSubscribeCallback(c, reply).opCallbacks == c.opCallbacks
    ensures OnSubscribeCallback(c, reply).pubsubMode == c.pubsubMode
    ensures Invoke(c, callback, reply).opCallbacks == c.opCallbacks
    ensures Invoke(c, callback, reply).pubsubMode == c.pubsubMode
  {
    hide TopicOf, Upper;
  }

  function OnConnected(c: Client): Client {
    c.(pubsubMode := false, subs := map[])
  }
}
