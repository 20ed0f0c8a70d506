/**
 What one connection leaves in the parser for the next one. Nothing empties the
 buffer when a connection is lost or made: the chars at its front, the unparsed ones
 or, after a failure, parsed ones, are taken for the beginning of the next stream.
 */
module NextConnection {
  import opened Numerals
  import opened Resp
  import opened RespStability
  import opened RespRoundTrip
  import opened Stream
  import opened ReplyParser

  /** With these chars in front, whatever the next connection's server sends is delivered as sent. */
  ghost predicate StartsClean(front: string) {
    forall ws | AllWellFormed(ws) :: Decode(front + EncodeAll(ws)).replies == ToReplies(ws)
  }

  /** The stream that tells any front but the empty one. */
  const PROBE: Wire := SimpleText("x")

  lemma {:induction false} ProbeEncoded()
    ensures AllWellFormed([PROBE]) && EncodeAll([PROBE]) == "+x\r\n" && ToReplies([PROBE]) == [Str("x")]
  {
    assert EncodeAll([PROBE]) == Encode(PROBE) + EncodeAll([PROBE][1..]);
    assert Encode(PROBE) == "+x\r\n";
    assert ToReplies([PROBE]) == [ToReply(PROBE)] + ToReplies([PROBE][1..]);
  }

  /** Where the probe is read as a line's text, the line has ended before the probe begins. */
  lemma {:induction false} LineProbed(front: string)
    requires front != [] && front[0] == '+'
    requires var s := front + "+x\r\n";
             ParseSimpleString(s, |s|, 0).Done? && ParseSimpleString(s, |s|, 0).value == "x"
    ensures ParseSimpleString(front, |front|, 0).Done?
  {
    var s := front + "+x\r\n";
    var lf := FindLF(s, 0, |s|);
    assert |s[1..lf - 1]| == 1;
    assert s[|front|] == '+' && s[lf - 2] == s[1..lf - 1][0] == 'x';
    assert lf == 3 && |front| != 3 && |front| != 2 && |front| != 1;
    assert forall i :: 0 <= i < 4 ==> front[i] == s[i];
    FindLFIs(front, 0, |front|, 3);
  }

  /** Likewise for the text of a bulk string. */
  lemma {:induction false} TextProbed(front: string)
    requires var s := front + "+x\r\n";
             ParseBulkString(s, |s|, 0).Done? && ParseBulkString(s, |s|, 0).value == Str("x")
    ensures ParseBulkString(front, |front|, 0).Done?
  {
    hide Accumulate, FindLF;
    var s := front + "+x\r\n";
    var start := GetInteger(s, |s|, 0).next;
    assert s[start..start + 1] == "x" && |s[start..start + 1]| == 1;
    assert s[|front|] == '+' && s[start] == 'x' && s[start + 1] == '\r' && s[start + 2] == '\n';
    assert s[start - 1] == '\n';
    assert |front| != start - 1 && |front| != start && |front| != start + 1 && |front| != start + 2;
    assert start + 3 <= |front|;
    NumberWithin(front, "+x\r\n");
  }

  /** A header that ends within the first of two strings is read there. */
  lemma {:induction false} NumberWithin(a: string, b: string)
    requires 4 <= |a| && GetInteger(a + b, |a + b|, 0).Done? && GetInteger(a + b, |a + b|, 0).next <= |a|
    ensures GetInteger(a, |a|, 0) == GetInteger(a + b, |a + b|, 0)
  {
    hide Accumulate;
    var s := a + b;
    var from := if s[1] == '-' then 2 else 1;
    var lf := FindLF(s, from, |s|);
    assert forall i :: 0 <= i < |a| ==> s[i] == a[i];
    FindLFIs(a, from, |a|, lf);
    assert s[from..lf] == a[from..lf];
  }

  /** Whatever stands in front of the probe, complete or not, it is not delivered as the only reply. */
  lemma {:induction false} ProbeTells(front: string)
    requires front != []
    ensures Decode(front).replies != [] || Decode(front + "+x\r\n").replies != [Str("x")]
  {
    hide Parse, Decode, ParseSimpleString, ParseBulkString;
    var s := front + "+x\r\n";
    var r := Parse(front, |front|, 0, true);
    if r.Done? {
      DecodeDone(front, r.value, r.next);
    } else {
      DecodeStop(front);
      if r.Incomplete? {
        ProbeParsed(front);
      }
      DecodeAppend(front, "+x\r\n");
      if Parse(s, |s|, 0, true).Done? {
        DecodeDone(s, Parse(s, |s|, 0, true).value, Parse(s, |s|, 0, true).next);
        assert Decode(s).replies[0] == Parse(s, |s|, 0, true).value;
      } else {
        DecodeStop(s);
      }
    }
  }

  lemma {:induction false} ProbeParsed(front: string)
    requires front != [] && Parse(front, |front|, 0, true).Incomplete?
    ensures var s := front + "+x\r\n";
            Parse(s, |s|, 0, true).Done? ==> Parse(s, |s|, 0, true).value != Str("x")
  {
    hide ParseSimpleString, ParseBulkString, GetInteger, ParseElements;
    var s := front + "+x\r\n";
    var r := Parse(s, |s|, 0, true);
    assert s[0] == front[0];
    if r.Done? && r.value == Str("x") {
      if s[0] == '+' {
        LineProbed(front);
      } else {
        ElementsAreArray(s);
        TextProbed(front);
      }
    }
  }

  lemma {:induction false} ArrayIsNoText(mem: string, size: nat, index: nat, length: nat, elements: seq<Reply>)
    requires index <= size <= |mem|
    ensures var r := ParseElements(mem, size, index, length, elements, true); r.Done? ==> r.value.Array?
    decreases length
  {
    hide Parse;
    if length > 0 {
      var r := Parse(mem, size, index, true);
      if r.Done? {
        ArrayIsNoText(mem, size, r.next, length - 1, elements + [r.value]);
      }
    }
  }

  lemma {:induction false} ElementsAreArray(s: string)
    requires s != [] && Parse(s, |s|, 0, true).Done? && Parse(s, |s|, 0, true).value.Str?
    ensures s[0] == '+' || s[0] == '$'
  {
    hide ParseSimpleString, ParseBulkString, GetInteger, ParseElements;
    if s[0] == '*' {
      var h := GetInteger(s, |s|, 0);
      if h.Done? && 0 <= h.value <= MAX_ELEMENTS {
        ArrayIsNoText(s, |s|, h.next, h.value, []);
      }
    }
  }

  /**
   When the next connection is decoded as its server sends it: exactly if nothing at
   all is left in front, whether it was left waiting for more or by a failure.
   */
  lemma {:induction false} StartsCleanIff(front: string)
    ensures StartsClean(front) <==> front == []
  {
    hide Decode, EncodeAll, ToReplies, WellFormed;
    if front == [] {
      forall ws | AllWellFormed(ws) ensures Decode(front + EncodeAll(ws)).replies == ToReplies(ws) {
        DecodeWhole(ws);
        assert front + EncodeAll(ws) == EncodeAll(ws);
      }
    } else {
      ProbeEncoded();
      ProbeTells(front);
      assert AllWellFormed([]);
      assert front + EncodeAll([]) == front by { EncodeNothing(); }
      assert StartsClean(front) ==> Decode(front + EncodeAll([])).replies == ToReplies([]) == [];
      assert StartsClean(front) ==> Decode(front + EncodeAll([PROBE])).replies == ToReplies([PROBE]);
    }
  }

  /** The parser object between two connections: its count of used bytes tells. */
  lemma {:induction false} ParserStartsCleanIff(parser: Parser)
    requires parser.Valid()
    ensures StartsClean(parser.Unparsed()) <==> parser.usedBytes == 0
  {
    StartsCleanIff(parser.Unparsed());
  }

  /** After a failure the parser never starts clean: the char that failed is still counted. */
  lemma {:induction false} FailureNeverClean(s: string)
    requires !Decode(s).stop.Incomplete?
    ensures 0 < |Decode(s).rest| <= |s| && !StartsClean(s[..|Decode(s).rest|])
    decreases |s|
  {
    hide Parse;
    var r := Parse(s, |s|, 0, true);
    if r.Done? {
      DecodeDone(s, r.value, r.next);
      FailureNeverClean(s[r.next..]);
    } else {
      DecodeStop(s);
      EmptyIsIncomplete();
    }
    DecodeRest(s);
    StartsCleanIff(s[..|Decode(s).rest|]);
  }

  /**
   A reply that comes again: of a stream that fails after its first reply w, as many
   chars stay in front as could not be parsed. Exactly if these are at least as many
   as w took, they hold a reply, and the next connection begins with w once more.
   */
  lemma {:induction false} DeliveredAgain(w: Wire, bad: string, next: string)
    requires WellFormed(w) && !Decode(bad).stop.Incomplete?
    ensures var s := Encode(w) + bad;
            && Decode(s) == Decode(bad).Before([ToReply(w)])
            && |Decode(s).rest| <= |s|
            && var front := s[..|Decode(s).rest|];
               && (Decode(front).replies != [] <==> |Encode(w)| <= |Decode(bad).rest|)
               && (Decode(front).replies != [] ==> [ToReply(w)] <= Decode(front + next).replies)
  {
    hide Parse, Decode, WellFormed, Encode, ToReply;
    var e := Encode(w);
    var s := e + bad;
    RoundTrip(w, bad, true);
    DecodeDone(s, ToReply(w), |e|);
    assert s[|e|..] == bad;
    DecodeRest(s);
    var front := s[..|Decode(s).rest|];
    if |front| < |e| {
      assert front == e[..|front|];
      PrefixVerdict(w, |front|);
      DecodeStop(front);
    } else {
      var tail := front[|e|..];
      assert front == e + tail;
      RoundTrip(w, tail, true);
      DecodeDone(front, ToReply(w), |e|);
      assert front + next == e + (tail + next);
      RoundTrip(w, tail + next, true);
      DecodeDone(front + next, ToReply(w), |e|);
    }
  }

  /** Chars that open no reply, as many as the reply before them took: it comes again on every next connection. */
  lemma {:induction false} StrayTailRepeats(w: Wire, next: string)
    requires WellFormed(w)
    ensures var stray := seq(|Encode(w)|, _ => 'x');
            && Decode(Encode(w) + stray) == Decoded([ToReply(w)], stray, ParseError)
            && (Encode(w) + stray)[..|stray|] == Encode(w)
            && [ToReply(w)] <= Decode(Encode(w) + next).replies
  {
    hide Decode, Encode, WellFormed, ToReply;
    var stray := seq(|Encode(w)|, _ => 'x');
    EncodeLead(w);
    StrayFails(stray);
    DeliveredAgain(w, stray, next);
  }

  lemma {:induction false} StrayFails(bad: string)
    requires bad != [] && !IsMark(bad[0])
    ensures Decode(bad) == Decoded([], bad, ParseError)
  {
  }

  /**
   The parser is not emptied when a connection is lost. What an array header of the
   old one left behind swallows the first reply of the new one, whatever it is.
   */
  lemma {:induction false} LeftoverSwallowsReply(w: Wire)
    requires WellFormed(w)
    ensures Decode(Header('*', 1)) == Decoded([], Header('*', 1), Incomplete)
    ensures Decode(Header('*', 1) + Encode(w)) == Decoded([Array([ToReply(w)])], [], Incomplete)
    ensures Decode(Encode(w)) == Decoded([ToReply(w)], [], Incomplete)
  {
    hide Parse, Decode;
    var one := Items([w]);
    assert EncodeAll([w]) == Encode(w) + EncodeAll([w][1..]) == Encode(w);
    assert ToReplies([w]) == [ToReply(w)];
    assert ToReplies([one]) == [Array([ToReply(w)])];
    assert EncodeAll([one]) == Encode(one) + EncodeAll([one][1..]) == Header('*', 1) + Encode(w);
    DecodeWhole([w]);
    DecodeWhole([one]);
    assert Encode(one)[..|Header('*', 1)|] == Header('*', 1);
    EncodeLead(w);
    PrefixVerdict(one, |Header('*', 1)|);
    DecodeStop(Header('*', 1));
  }

}
