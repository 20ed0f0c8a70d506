/** Every kind of reply that can reach the client, well-formed or not, and what the client calls for it. */
module ReplyCases {
  import opened Resp
  import opened Router

  // ---- words ----

  /** Whatever the case of its letters. */
  ghost predicate Spells(s: string, word: string) {
    && |s| == |word|
    && forall i :: 0 <= i < |s| ==>
         'A' <= word[i] <= 'Z' && (s[i] == word[i] || s[i] as int == word[i] as int + 32)
  }

  lemma {:induction false} SpellsIsUpper(s: string, word: string)
    requires forall i :: 0 <= i < |word| ==> 'A' <= word[i] <= 'Z'
    ensures Spells(s, word) <==> Upper(s) == word
  {
    var u := Upper(s);
    assert forall i :: 0 <= i < |s| ==> u[i] == UpperChar(s[i]);
    if Spells(s, word) {
      assert forall i :: 0 <= i < |s| ==> u[i] == word[i];
    }
  }

  /** The words of a subscription, as a server may write them. */
  ghost predicate Announces(reply: Reply, word: string) {
    reply.Array? && reply.elements != [] && reply.elements[0].Str? && Spells(reply.elements[0].str, word)
  }

  lemma {:induction false} AnnouncesIsWord(reply: Reply, word: string)
    requires forall i :: 0 <= i < |word| ==> 'A' <= word[i] <= 'Z'
    ensures Announces(reply, word) <==> HasWord(reply) && Word(reply) == word
  {
    hide Upper, Spells;
    if HasWord(reply) {
      SpellsIsUpper(reply.elements[0].str, word);
    }
  }

  lemma {:induction false} AllWords(reply: Reply)
    ensures forall word | word in ["SUBSCRIBE", "PSUBSCRIBE", "MESSAGE", "PMESSAGE", "UNSUBSCRIBE", "PUNSUBSCRIBE"] ::
              Announces(reply, word) <==> HasWord(reply) && Word(reply) == word
  {
    hide Announces, Word, HasWord;
    AnnouncesIsWord(reply, "SUBSCRIBE");
    AnnouncesIsWord(reply, "PSUBSCRIBE");
    AnnouncesIsWord(reply, "MESSAGE");
    AnnouncesIsWord(reply, "PMESSAGE");
    AnnouncesIsWord(reply, "UNSUBSCRIBE");
    AnnouncesIsWord(reply, "PUNSUBSCRIBE");
  }

  /** Exactly these replies bypass the queue in pub/sub mode. */
  lemma {:induction false} PushIff(reply: Reply)
    ensures IsPush(reply) <==>
              || Announces(reply, "MESSAGE") || Announces(reply, "PMESSAGE")
              || Announces(reply, "UNSUBSCRIBE") || Announces(reply, "PUNSUBSCRIBE")
  {
    hide Announces, Word;
    AllWords(reply);
  }

  // ---- in pub/sub mode ----

  /** A reply of this word that names a key and has so many texts behind it. */
  ghost predicate Message(reply: Reply, word: string, texts: nat) {
    && Announces(reply, word) && |reply.elements| >= 2 + texts
    && forall i :: 1 <= i <= 1 + texts ==> reply.elements[i].Str?
  }

  ghost predicate Acknowledges(reply: Reply, word: string) {
    Announces(reply, word) && |reply.elements| >= 3 && reply.elements[1].Str? && reply.elements[2].Integer?
  }

  /** A message for a held key calls its change callback, with key and text as they came. */
  lemma {:induction false} MessageReported(c: Client, reply: Reply)
    requires c.pubsubMode && Message(reply, "MESSAGE", 1) && reply.elements[1].str in c.subs
    ensures var key, text := reply.elements[1].str, reply.elements[2].str;
            OnRead(c, reply) == c.Made(if c.subs[key].hasChange then Changed(key, text) else NullCall)
  {
    hide Announces, Word;
    AllWords(reply);
  }

  lemma {:induction false} PatternMessageReported(c: Client, reply: Reply)
    requires c.pubsubMode && Message(reply, "PMESSAGE", 2) && reply.elements[1].str in c.subs
    ensures var key, channel, text := reply.elements[1].str, reply.elements[2].str, reply.elements[3].str;
            OnRead(c, reply) ==
              c.Made(if c.subs[key].hasPatternChange then PatternChanged(key, channel, text) else NullCall)
  {
    hide Announces, Word;
    AllWords(reply);
  }

  /** The end of a subscription calls its callback and gives the key back. */
  lemma {:induction false} EndReported(c: Client, reply: Reply)
    requires c.pubsubMode && (Acknowledges(reply, "UNSUBSCRIBE") || Acknowledges(reply, "PUNSUBSCRIBE"))
    requires reply.elements[1].str in c.subs
    ensures var key := reply.elements[1].str;
            OnRead(c, reply) == c.Made(Unsubscribed(key)).(subs := map k | k in c.subs && k != key :: c.subs[k])
  {
    hide Announces, Word;
    AllWords(reply);
    var key := reply.elements[1].str;
    assert c.subs - {key} == map k | k in c.subs && k != key :: c.subs[k];
  }

  /** A reply with one of the four words makes the client reconnect exactly if it has not the shape, or names no held key. */
  lemma {:induction false} RejectedIff(c: Client, reply: Reply)
    requires c.pubsubMode && IsPush(reply)
    ensures OnRead(c, reply) == c.Made(ReconnectAsked) <==>
              !((|| Message(reply, "MESSAGE", 1) || Message(reply, "PMESSAGE", 2)
                 || Acknowledges(reply, "UNSUBSCRIBE") || Acknowledges(reply, "PUNSUBSCRIBE"))
                && reply.elements[1].str in c.subs)
  {
    hide Announces, Word;
    AllWords(reply);
    var d := OnRead(c, reply);
    assert d.calls[|c.calls|] == ReconnectAsked || d != c.Made(ReconnectAsked);
  }

  // ---- the queue ----

  /** Any other reply is for the callback in front, which is called with it once and leaves the queue. */
  lemma {:induction false} FrontCallbackGets(c: Client, reply: Reply, id: nat)
    requires !(c.pubsubMode && IsPush(reply)) && c.opCallbacks != [] && c.opCallbacks[0] == User(id)
    ensures OnRead(c, reply) == c.Made(Replied(User(id), reply)).(opCallbacks := c.opCallbacks[1..])
  {
    hide IsPush;
  }

  /** A reply that nobody waits for makes the client reconnect. */
  lemma {:induction false} NobodyWaits(c: Client, reply: Reply)
    requires !(c.pubsubMode && IsPush(reply)) && c.opCallbacks == []
    ensures OnRead(c, reply) == c.Made(ReconnectAsked)
  {
    hide IsPush;
  }

  /** The reply to a subscribe: reported if it acknowledges a held key, otherwise the client reconnects. */
  lemma {:induction false} SubscribeAnswered(c: Client, reply: Reply)
    requires c.opCallbacks != [] && c.opCallbacks[0] == OnSubscribe
    requires !HasWord(reply) || Announces(reply, "SUBSCRIBE") || Announces(reply, "PSUBSCRIBE")
    ensures OnRead(c, reply) ==
              c.(opCallbacks := c.opCallbacks[1..],
                 calls := c.calls + [Replied(OnSubscribe, reply),
                   if (Acknowledges(reply, "SUBSCRIBE") || Acknowledges(reply, "PSUBSCRIBE"))
                      && reply.elements[1].str in c.subs
                   then Subscribed(reply.elements[1].str) else ReconnectAsked])
  {
    hide Announces, Word;
    AllWords(reply);
    PushIff(reply);
  }

  /** A reply to a subscribe with any other word is passed over: its callback has been called, and that is all. */
  lemma {:induction false} OtherWordIgnored(c: Client, reply: Reply)
    requires c.opCallbacks != [] && c.opCallbacks[0] == OnSubscribe && HasWord(reply)
    requires forall word | word in ["SUBSCRIBE", "PSUBSCRIBE", "MESSAGE", "PMESSAGE", "UNSUBSCRIBE", "PUNSUBSCRIBE"] ::
               !Announces(reply, word)
    ensures OnRead(c, reply) == c.Made(Replied(OnSubscribe, reply)).(opCallbacks := c.opCallbacks[1..])
  {
    hide Announces, Word;
    AllWords(reply);
    assert !Announces(reply, "SUBSCRIBE") && !Announces(reply, "PSUBSCRIBE");
    assert !Announces(reply, "MESSAGE") && !Announces(reply, "PMESSAGE");
    assert !Announces(reply, "UNSUBSCRIBE") && !Announces(reply, "PUNSUBSCRIBE");
  }
}
