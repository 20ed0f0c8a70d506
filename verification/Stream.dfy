/**
 A whole connection's byte stream, decoded at once and decoded as it is cut up by
 the reads.
 */
module Stream {
  import opened Numerals
  import opened Resp
  import opened RespStability
  import opened RespRoundTrip

  /** The replies of a stream up to its first failure, what is left, and why it stopped there. */
  datatype Decoded = Decoded(replies: seq<Reply>, rest: string, stop: Outcome<Reply>) {
    function Before(earlier: seq<Reply>): Decoded {
      Decoded(earlier + replies, rest, stop)
    }
  }

  function Decode(s: string): (d: Decoded)
    ensures !d.stop.Done?
  {
    match Parse(s, |s|, 0, true)
    case Done(reply, next) => Decode(s[next..]).Before([reply])
    case stop => Decoded([], s, stop)
  }

  function Concat(chunks: seq<string>): string {
    if chunks == [] then [] else Concat(chunks[..|chunks| - 1]) + chunks[|chunks| - 1]
  }

  lemma {:induction false} BeforeTwice(d: Decoded, a: seq<Reply>, b: seq<Reply>)
    ensures d.Before(b).Before(a) == d.Before(a + b)
  {
    assert a + (b + d.replies) == a + b + d.replies;
  }

  lemma {:induction false} DecodeDone(s: string, reply: Reply, next: nat)
    requires Parse(s, |s|, 0, true) == Done(reply, next)
    ensures 0 < next <= |s| && Decode(s) == Decode(s[next..]).Before([reply])
  {
    hide Parse;
  }

  lemma {:induction false} DecodeStop(s: string)
    requires !Parse(s, |s|, 0, true).Done?
    ensures Decode(s) == Decoded([], s, Parse(s, |s|, 0, true))
  {
    hide Parse;
  }

  /** What is left over is the end of the stream. */
  lemma {:induction false} DecodeRest(s: string)
    ensures var rest := Decode(s).rest; |rest| <= |s| && rest == s[|s| - |rest|..]
  {
    hide Parse;
    var r := Parse(s, |s|, 0, true);
    if r.Done? {
      DecodeRest(s[r.next..]);
    }
  }

  /** Decoding a + b is decoding a and then going on with what a left over. */
  ghost predicate Resumes(a: string, b: string) {
    var d := Decode(a);
    Decode(a + b) == if d.stop.Incomplete? then Decode(d.rest + b).Before(d.replies)
                     else Decoded(d.replies, d.rest + b, d.stop)
  }

  lemma {:induction false} DecodeAppendDone(a: string, b: string, reply: Reply, next: nat)
    requires Parse(a, |a|, 0, true) == Parse(a + b, |a + b|, 0, true) == Done(reply, next)
    requires next <= |a| && Resumes(a[next..], b)
    ensures Resumes(a, b)
  {
    hide Parse, Decode;
    var tail := Decode(a[next..]);
    DecodeDone(a, reply, next);
    DecodeDone(a + b, reply, next);
    assert (a + b)[next..] == a[next..] + b;
    BeforeTwice(Decode(tail.rest + b), [reply], tail.replies);
  }

  /** Decoding resumes from what is left: the heart of chunk independence. */
  lemma {:induction false} DecodeAppend(a: string, b: string)
    ensures Resumes(a, b)
    decreases |a|
  {
    hide Parse, Decode;
    var r := Parse(a, |a|, 0, true);
    if !r.Incomplete? {
      ParseStableAppend(a, b);
    }
    if r.Done? {
      DecodeAppend(a[r.next..], b);
      DecodeAppendDone(a, b, r.value, r.next);
    } else {
      DecodeStop(a);
      if !r.Incomplete? {
        DecodeStop(a + b);
      } else {
        assert [] + Decode(a + b).replies == Decode(a + b).replies;
      }
    }
  }

  /** The state of a connection that has read the chunks one by one, reading no more after a failure. */
  function ReadChunks(chunks: seq<string>): (d: Decoded)
    ensures !d.stop.Done?
  {
    if chunks == [] then Decoded([], [], Incomplete)
    else
      var d := ReadChunks(chunks[..|chunks| - 1]);
      if d.stop.Incomplete? then Decode(d.rest + chunks[|chunks| - 1]).Before(d.replies) else d
  }

  /**
   Chunk independence: however a stream is cut, the same replies come out, reading
   stops for the same reason, and what is left over is the end of the same stream.
   */
  lemma {:induction false} ChunkIndependence(chunks: seq<string>)
    ensures var d, whole := ReadChunks(chunks), Decode(Concat(chunks));
            && d.replies == whole.replies && d.stop == whole.stop
            && d.rest <= whole.rest
            && (d.stop.Incomplete? ==> d.rest == whole.rest)
  {
    if chunks != [] {
      var before, last := chunks[..|chunks| - 1], chunks[|chunks| - 1];
      ChunkIndependence(before);
      DecodeAppend(Concat(before), last);
    }
  }

  lemma {:induction false} ChunkIndependenceOfCut(chunks: seq<string>, others: seq<string>)
    requires Concat(chunks) == Concat(others)
    ensures ReadChunks(chunks).replies == ReadChunks(others).replies && ReadChunks(chunks).stop == ReadChunks(others).stop
  {
    ChunkIndependence(chunks);
    ChunkIndependence(others);
  }

  // ---- one call of on_read, on memory ----

  datatype Drained = Drained(replies: seq<Reply>, left: nat, stop: Outcome<Reply>) {
    function Before(earlier: seq<Reply>): Drained {
      Drained(earlier + replies, left, stop)
    }
  }

  /** The parse loop over mem, of which the first used chars are received. */
  function Drain(mem: string, used: nat, guarded: bool): (d: Drained)
    requires used <= |mem|
    ensures !d.stop.Done? && d.left <= used
    decreases used
  {
    match Parse(mem, used, 0, guarded)
    case Done(reply, next) =>
      if next == used then Drained([reply], 0, Incomplete)
      else Drain(mem[next..], used - next, guarded).Before([reply])
    case stop => Drained([], used, stop)
  }

  lemma {:induction false} DrainDone(mem: string, used: nat, guarded: bool, reply: Reply, next: nat)
    requires used <= |mem| && Parse(mem, used, 0, guarded) == Done(reply, next)
    ensures 0 < next <= used
    ensures Drain(mem, used, guarded) == if next == used then Drained([reply], 0, Incomplete)
                                         else Drain(mem[next..], used - next, guarded).Before([reply])
  {
    hide Parse;
  }

  lemma {:induction false} DrainStop(mem: string, used: nat, guarded: bool)
    requires used <= |mem| && !Parse(mem, used, 0, guarded).Done?
    ensures Drain(mem, used, guarded) == Drained([], used, Parse(mem, used, 0, guarded))
  {
    hide Parse;
  }

  /** With the bounds test, on_read decodes what has been received and does not see what lies behind it. */
  lemma {:induction false} DrainIsDecode(mem: string, used: nat)
    requires used <= |mem|
    ensures var d := Decode(mem[..used]);
            Drain(mem, used, true) == Drained(d.replies, |d.rest|, d.stop)
    decreases used
  {
    hide Parse;
    GuardedReadsOnlyReceived(mem, mem[..used], used, 0);
    var r := Parse(mem, used, 0, true);
    if r.Done? {
      if r.next < used {
        DrainIsDecode(mem[r.next..], used - r.next);
        assert mem[r.next..][..used - r.next] == mem[..used][r.next..];
      } else {
        assert mem[..used][r.next..] == [];
        assert Decode([]) == Decoded([], [], Incomplete) by { EmptyIsIncomplete(); }
      }
    }
  }

  /** A failure leaves at least the char it has met; there is one if anything has been received. */
  lemma {:induction false} FailureLeaves(mem: string, used: nat, guarded: bool)
    requires 0 < used <= |mem|
    ensures Drain(mem, used, guarded).stop.Incomplete? || Drain(mem, used, guarded).left > 0
    decreases used
  {
    hide Parse;
    var r := Parse(mem, used, 0, guarded);
    if r.Done? && r.next < used {
      FailureLeaves(mem[r.next..], used - r.next, guarded);
    }
  }

  lemma {:induction false} EmptyIsIncomplete()
    ensures Parse([], 0, 0, true) == Incomplete
  {
  }

  /** The loop comes to a parse call that starves, see RespStability. */
  predicate DrainStarves(mem: string, used: nat)
    requires used <= |mem|
    decreases used
  {
    match Parse(mem, used, 0, true)
    case Done(_, next) => next < used && DrainStarves(mem[next..], used - next)
    case _ => Starves(mem, used, 0)
  }

  /**
   Exactly when on_read as written does what it is meant to: unless the received
   chars end where an element of an unfinished array would start, and the char
   behind them is absent (buffer full) or a stale one that opens no reply. Then the
   same replies are delivered, but instead of waiting for more the loop fails.
   */
  lemma {:induction false} DrainAsWritten(mem: string, used: nat)
    requires used <= |mem|
    ensures Drain(mem, used, false) == Drain(mem, used, true) <==> !(DrainStarves(mem, used) && StrayNext(mem, used))
    ensures DrainStarves(mem, used) && StrayNext(mem, used) ==>
              && Drain(mem, used, true).stop == Incomplete
              && Drain(mem, used, false) ==
                   Drain(mem, used, true).(stop := if used == |mem| then Undefined else ParseError)
    decreases used
  {
    hide Parse, Starves;
    GuardMatters(mem, used, 0);
    var r := Parse(mem, used, 0, true);
    if r.Done? {
      GuardUnneededWhenComplete(mem, used, 0);
      if Starves(mem, used, 0) {
        StarvedIsIncomplete(mem, used, 0);
      } else if r.next < used {
        var rest := mem[r.next..];
        DrainAsWritten(rest, used - r.next);
        assert used < |mem| ==> rest[used - r.next] == mem[used];
        var f, t := Drain(rest, used - r.next, false), Drain(rest, used - r.next, true);
        assert ([r.value] + f.replies)[1..] == f.replies;
        assert ([r.value] + t.replies)[1..] == t.replies;
      }
    } else if Starves(mem, used, 0) {
      StarvedIsIncomplete(mem, used, 0);
    }
  }

  /** One call of on_read, with or without the bounds test, in terms of the received chars. */
  lemma {:induction false} DrainMeans(mem: string, used: nat, guarded: bool)
    requires used <= |mem|
    ensures var d, e := Decode(mem[..used]), Drain(mem, used, guarded);
            var stray := !guarded && DrainStarves(mem, used) && StrayNext(mem, used);
            && e.replies == d.replies && e.left == |d.rest| <= used && d.rest == mem[used - |d.rest|..used]
            && e.stop == (if !stray then d.stop else if used == |mem| then Undefined else ParseError)
            && (stray ==> d.stop.Incomplete?)
            && (e.stop.Incomplete? || used == 0 || e.left > 0)
  {
    hide Parse, Drain, Decode, DrainStarves, StrayNext;
    DrainAsWritten(mem, used);
    DrainIsDecode(mem, used);
    DecodeRest(mem[..used]);
    if used > 0 {
      FailureLeaves(mem, used, guarded);
    }
  }

  // ---- streams a server may send ----

  ghost predicate AllWellFormed(ws: seq<Wire>) {
    forall i :: 0 <= i < |ws| ==> WellFormed(ws[i])
  }

  /** Of a stream that has come in part, the whole replies are delivered and the rest is a proper part of the next one. */
  lemma {:induction false} DecodeArriving(ws: seq<Wire>, s: string) returns (k: nat)
    requires AllWellFormed(ws) && s <= EncodeAll(ws)
    ensures k <= |ws|
    ensures Decode(s).stop == Incomplete
    ensures Decode(s).replies == ToReplies(ws)[..k]
    ensures k == |ws| ==> Decode(s).rest == [] && s == EncodeAll(ws)
    ensures k < |ws| ==> Decode(s).rest < Encode(ws[k])
    ensures s == EncodeAll(ws[..k]) + Decode(s).rest
    decreases ws
  {
    hide Parse, Decode, WellFormed, Encode, EncodeAll, ToReply, ToReplies;
    EncodeAllSplit(ws);
    if ws == [] {
      EmptyIsIncomplete();
      DecodeStop(s);
      return 0;
    }
    var e := Encode(ws[0]);
    CutInFirst(s, e, EncodeAll(ws[1..]));
    ParseEncoded(s, |s|, 0, ws[0]);
    if |s| < |e| {
      DecodeStop(s);
      EncodeAllSplit(ws[..0]);
      return 0;
    }
    DecodeDone(s, ToReply(ws[0]), |e|);
    var k' := DecodeArriving(ws[1..], s[|e|..]);
    k := k' + 1;
    assert ws[..k][1..] == ws[1..][..k'];
    EncodeAllSplit(ws[..k]);
    Regroup(e, EncodeAll(ws[1..][..k']), Decode(s).rest);
    assert ToReplies(ws)[..k] == [ToReply(ws[0])] + ToReplies(ws[1..])[..k'];
  }

  lemma {:induction false} Regroup(a: string, b: string, c: string)
    ensures a + (b + c) == (a + b) + c
  {
  }

  lemma {:induction false} EncodeAllSplit(ws: seq<Wire>)
    ensures EncodeAll(ws) == if ws == [] then [] else Encode(ws[0]) + EncodeAll(ws[1..])
    ensures ToReplies(ws) == if ws == [] then [] else [ToReply(ws[0])] + ToReplies(ws[1..])
  {
  }

  lemma {:induction false} CutInFirst(s: string, e: string, tail: string)
    requires s <= e + tail
    ensures Arriving(s, |s|, 0, e)
    ensures |s| < |e| ==> s < e
    ensures |e| <= |s| ==> s[|e|..] <= tail && s == e + s[|e|..]
  {
    var n := if |s| < |e| then |s| else |e|;
    assert s[..n] == (e + tail)[..|s|][..n] == e[..n];
    if |e| <= |s| {
      assert s[|e|..] == (e + tail)[..|s|][|e|..] == tail[..|s| - |e|];
    }
  }

  lemma {:induction false} EncodeAllSum(a: seq<Wire>, b: seq<Wire>)
    ensures EncodeAll(a + b) == EncodeAll(a) + EncodeAll(b)
    decreases |a|
  {
    hide Encode;
    if a == [] {
      assert a + b == b;
    } else {
      assert (a + b)[1..] == a[1..] + b;
      EncodeAllSum(a[1..], b);
    }
  }

  lemma {:induction false} EncodeNothing()
    ensures EncodeAll([]) == []
  {
  }

  lemma {:induction false} DecodeWhole(ws: seq<Wire>)
    requires AllWellFormed(ws)
    ensures Decode(EncodeAll(ws)) == Decoded(ToReplies(ws), [], Incomplete)
    decreases ws
  {
    hide Parse, WellFormed, Encode, ToReply;
    if ws == [] {
      EmptyIsIncomplete();
    } else {
      RoundTrip(ws[0], EncodeAll(ws[1..]), true);
      DecodeWhole(ws[1..]);
      assert (Encode(ws[0]) + EncodeAll(ws[1..]))[|Encode(ws[0])|..] == EncodeAll(ws[1..]);
    }
  }

  /** Whatever a server sends, cut in any way, is delivered reply by reply. */
  lemma {:induction false} ServerStream(ws: seq<Wire>, chunks: seq<string>)
    requires AllWellFormed(ws) && Concat(chunks) == EncodeAll(ws)
    ensures ReadChunks(chunks) == Decoded(ToReplies(ws), [], Incomplete)
  {
    ChunkIndependence(chunks);
    DecodeWhole(ws);
  }

  /**
   Receive progress: if no encoding is longer than the buffer, then after any
   reads the unparsed chars leave room behind them for the next read.
   */
  lemma {:induction false} ReceiveProgress(ws: seq<Wire>, chunks: seq<string>, bufferSize: nat)
    requires AllWellFormed(ws) && Concat(chunks) <= EncodeAll(ws)
    requires 0 < bufferSize && forall i :: 0 <= i < |ws| ==> |Encode(ws[i])| <= bufferSize
    ensures var d := ReadChunks(chunks);
            d.stop == Incomplete && d.replies <= ToReplies(ws) && |d.rest| < bufferSize
  {
    hide WellFormed, Encode;
    ChunkIndependence(chunks);
    var k := DecodeArriving(ws, Concat(chunks));
  }

  /** A reply can ever be delivered out of a buffer of this size. */
  ghost predicate Deliverable(w: Wire, bufferSize: nat) {
    exists k :: 0 <= k <= |Encode(w)| && k <= bufferSize && Decode(Encode(w)[..k]).replies != []
  }

  /** Nothing longer than the buffer is ever delivered: its first bufferSize chars fill it and stay Incomplete. */
  lemma {:induction false} DeliverableIff(w: Wire, bufferSize: nat)
    requires WellFormed(w)
    ensures Deliverable(w, bufferSize) <==> |Encode(w)| <= bufferSize
  {
    hide Parse, WellFormed;
    var e := Encode(w);
    if |e| <= bufferSize {
      RoundTrip(w, [], true);
      assert e[..|e|] == e;
      assert Decode(e[..|e|]).replies != [];
    } else {
      forall k | 0 <= k <= |e| && k <= bufferSize ensures Decode(e[..k]).replies == [] {
        PrefixVerdict(w, k);
      }
    }
  }

  /** redis-connection gives its parser this many chars. */
  const BUFFER_SIZE: nat := 10240

  lemma {:induction false} DecimalLength(n: nat)
    ensures n < 10 <==> |Decimal(n)| == 1
    ensures n < 100 <==> |Decimal(n)| <= 2
    ensures n < 1000 <==> |Decimal(n)| <= 3
    ensures n < 10000 <==> |Decimal(n)| <= 4
    ensures n < 100000 <==> |Decimal(n)| <= 5
  {
    if n >= 10 {
      DecimalLength(n / 10);
    }
  }

  /** So the longest value that a GET can ever return has 10230 chars. */
  lemma {:induction false} LongestBulk(s: string)
    requires |s| <= INT64_MAX
    ensures Deliverable(Bulk(s), BUFFER_SIZE) <==> |s| <= 10230
  {
    hide Deliverable, Decimal;
    DeliverableIff(Bulk(s), BUFFER_SIZE);
    DecimalLength(|s|);
  }
}
