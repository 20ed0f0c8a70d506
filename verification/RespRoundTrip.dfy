/** Encoded replies are parsed back, and no proper prefix of an encoding is mistaken for anything. */
module RespRoundTrip {
  import opened Numerals
  import opened Resp
  import opened RespStability

  function Upto(size: nat, index: nat, s: string): (to: nat)
    requires index <= size
  {
    if size - index < |s| then size else index + |s|
  }

  /** The received chars from index on are the first ones of s, as many as have come. */
  ghost predicate Arriving(mem: string, size: nat, index: nat, s: string) {
    index <= size <= |mem| && mem[index..Upto(size, index, s)] == s[..Upto(size, index, s) - index]
  }

  lemma {:induction false} FindLFIs(mem: string, from: nat, size: nat, lf: nat)
    requires from <= lf <= size <= |mem|
    requires forall i :: from <= i < lf ==> mem[i] != '\n'
    requires lf == size || mem[lf] == '\n'
    ensures FindLF(mem, from, size) == lf
  {
  }

  // ---- numbers ----

  lemma {:induction false} ArrivingAt(mem: string, size: nat, index: nat, s: string, i: nat)
    requires Arriving(mem, size, index, s) && index <= i < size && i - index < |s|
    ensures mem[i] == s[i - index]
  {
    var to := Upto(size, index, s);
    assert mem[i] == mem[index..to][i - index] == s[..to - index][i - index];
  }

  lemma {:induction false} ArrivingPart(mem: string, size: nat, index: nat, a: string, b: string)
    requires Arriving(mem, size, index, a + b)
    ensures Arriving(mem, size, index, a)
    ensures index + |a| <= size ==> Arriving(mem, size, index + |a|, b)
  {
    var to := Upto(size, index, a + b);
    var k := Upto(size, index, a) - index;
    assert mem[index..to][..k] == mem[index..index + k];
    assert (a + b)[..to - index][..k] == a[..k];
    if index + |a| <= size {
      assert mem[index..to][|a|..] == mem[index + |a|..to];
      var j := Upto(size, index + |a|, b) - (index + |a|);
      assert (a + b)[..to - index] == a + b[..j];
      assert (a + b[..j])[|a|..] == b[..j];
    }
  }

  lemma {:induction false} ArrivedSlice(mem: string, size: nat, index: nat, s: string, to: nat)
    requires Arriving(mem, size, index, s) && index <= to <= size && to - index <= |s|
    ensures mem[index..to] == s[..to - index]
  {
    var all := Upto(size, index, s);
    assert mem[index..all][..to - index] == mem[index..to];
    assert s[..all - index][..to - index] == s[..to - index];
  }

  /** The digits of v and the line end behind them, as the digit loop sees them. */
  lemma {:induction false} DigitLine(mem: string, size: nat, from: nat, v: nat)
    requires Arriving(mem, size, from, Decimal(v) + "\r\n")
    ensures var lf := from + |Decimal(v)| + 1;
            FindLF(mem, from, size) == if lf < size then lf else size
    ensures from + |Decimal(v)| + 1 < size ==> mem[from + |Decimal(v)|] == '\r'
    ensures from < size && |Decimal(v)| >= 1 ==> mem[from] != '-'
  {
    var d := Decimal(v);
    var line := d + "\r\n";
    DecimalIsDigits(v);
    var lf := if from + |d| + 1 < size then from + |d| + 1 else size;
    forall i | from <= i < lf ensures mem[i] != '\n' && (i == from ==> mem[i] != '-') {
      ArrivingAt(mem, size, from, line, i);
      assert i - from < |d| ==> line[i - from] == d[i - from] && IsDigit(d[i - from]);
    }
    if lf < size {
      ArrivingAt(mem, size, from, line, lf);
      ArrivingAt(mem, size, from, line, lf - 1);
    }
    FindLFIs(mem, from, size, lf);
  }

  lemma {:induction false} DigitLineValue(mem: string, size: nat, from: nat, v: nat)
    requires Arriving(mem, size, from, Decimal(v) + "\r\n")
    ensures var lf := from + |Decimal(v)| + 1;
            && (lf < size ==> Accumulate(mem[from..lf]) == if v <= INT64_MAX then Value(v) else Overflow)
            && (size <= lf && v <= INT64_MAX ==> Accumulate(mem[from..size]).Value?)
  {
    var d := Decimal(v);
    var line := d + "\r\n";
    var lf := from + |d| + 1;
    var to := if lf < size then lf else size;
    ArrivedSlice(mem, size, from, line, to);
    if to - from <= |d| {
      assert line[..to - from] == d[..to - from];
      if v <= INT64_MAX {
        PrefixValue(v, to - from);
      }
    } else {
      assert line[..to - from] == d + "\r";
      AccumulateDecimal(v);
      AccumulateDecimalCR(v);
    }
  }

  function Lead(mark: char, n: int): string {
    if n < 0 then [mark, '-'] else [mark]
  }

  function Magnitude(n: int): nat {
    if n < 0 then -n else n
  }

  /** The numbers whose digits fit the accumulator: int64 without its least one. */
  predicate Readable(n: int) {
    -INT64_MAX <= n <= INT64_MAX
  }

  lemma {:induction false} HeaderLayout(mark: char, n: int)
    ensures Header(mark, n) == Lead(mark, n) + (Decimal(Magnitude(n)) + "\r\n")
  {
  }

  /** What the function makes of the digits of v from there on. */
  lemma {:induction false} GetIntegerDigits(mem: string, size: nat, index: nat, from: nat, v: nat)
    requires Arriving(mem, size, from, Decimal(v) + "\r\n")
    requires |Decimal(v)| >= 1 && 4 <= size - index
    requires from == index + if mem[index + 1] == '-' then 2 else 1
    ensures var end := from + |Decimal(v)| + 2;
            && (end <= size ==>
                  GetInteger(mem, size, index) == if v > INT64_MAX then Undefined
                                                  else if mem[index + 1] == '-' then Done(0 - v, end)
                                                  else Done(v, end))
            && (size < end && v <= INT64_MAX ==> GetInteger(mem, size, index) == Incomplete)
  {
    hide Accumulate, Decimal, FindLF, Arriving;
    DigitLine(mem, size, from, v);
    DigitLineValue(mem, size, from, v);
  }

  /**
   A header reads as its number once it has arrived whole, and is Incomplete before.
   A number comes back exactly if its magnitude is within int64.
   */
  lemma {:induction false} GetIntegerArriving(mem: string, size: nat, index: nat, mark: char, n: int)
    requires Arriving(mem, size, index, Header(mark, n))
    ensures var end := index + |Header(mark, n)|;
            && (end <= size ==> GetInteger(mem, size, index) == if Readable(n) then Done(n, end) else Undefined)
            && (size < end && Readable(n) ==> GetInteger(mem, size, index) == Incomplete)
  {
    hide Decimal, GetInteger, Header, Arriving;
    var v := Magnitude(n);
    var line := Decimal(v) + "\r\n";
    DecimalIsDigits(v);
    HeaderLayout(mark, n);
    assert index <= size <= |mem| by { ArrivingBounds(mem, size, index, Header(mark, n)); }
    if size - index < 4 {
      GetIntegerShort(mem, size, index);
    } else {
      var from := index + |Lead(mark, n)|;
      ArrivingPart(mem, size, index, Lead(mark, n), line);
      if n < 0 {
        ArrivingAt(mem, size, index, Lead(mark, n), index + 1);
      } else {
        ArrivingAt(mem, size, from, line, from);
        DigitLine(mem, size, from, v);
      }
      GetIntegerDigits(mem, size, index, from, v);
    }
  }

  lemma {:induction false} ArrivingBounds(mem: string, size: nat, index: nat, s: string)
    requires Arriving(mem, size, index, s)
    ensures index <= size <= |mem|
  {
  }

  lemma {:induction false} GetIntegerShort(mem: string, size: nat, index: nat)
    requires index <= size <= |mem| && size - index < 4
    ensures GetInteger(mem, size, index) == Incomplete
  {
  }

  /**
   Integer replies: a number comes back as it was sent exactly if it is an int64 other
   than the least one; the digits of any other overflow on the way.
   */
  lemma {:induction false} IntegerReply(n: int)
    ensures var s := Header(':', n);
            && (Parse(s, |s|, 0, false) == Done(Integer(n), |s|) <==> -INT64_MAX <= n <= INT64_MAX)
            && (Parse(s, |s|, 0, false) == Undefined <==> !(-INT64_MAX <= n <= INT64_MAX))
  {
    hide GetInteger, Decimal;
    var s := Header(':', n);
    DecimalIsDigits(Magnitude(n));
    GetIntegerArriving(s, |s|, 0, ':', n);
  }

  // ---- round trip ----

  lemma {:induction false} ParseSimpleStringLine(mem: string, size: nat, index: nat, mark: char, s: string)
    requires mark == '+' || mark == '-'
    requires '\n' !in s && Arriving(mem, size, index, [mark] + s + "\r\n")
    requires index < size && mem[index] == mark
    ensures ParseSimpleString(mem, size, index) ==
              if size < index + |s| + 3 then Incomplete else Done(s, index + |s| + 3)
  {
    hide FindLF;
    var line := [mark] + s + "\r\n";
    ArrivingAt(mem, size, index, line, index);
    var lf := if size < index + |s| + 3 then size else index + |s| + 2;
    forall i | index <= i < lf ensures mem[i] != '\n' {
      ArrivingAt(mem, size, index, line, i);
      assert 0 < i - index <= |s| ==> line[i - index] == s[i - index - 1] && s[i - index - 1] in s;
    }
    if lf < size {
      ArrivingAt(mem, size, index, line, lf);
      ArrivingAt(mem, size, index, line, lf - 1);
      ArrivingPart(mem, size, index, [mark] + s, "\r\n");
      ArrivingPart(mem, size, index, [mark], s);
      ArrivedSlice(mem, size, index + 1, s, lf - 1);
      assert s[..|s|] == s;
    }
    FindLFIs(mem, index, size, lf);
  }

  lemma {:induction false} ParseBulkStringText(mem: string, size: nat, index: nat, s: string)
    requires |s| <= INT64_MAX && Arriving(mem, size, index, Header('$', |s|) + s + "\r\n")
    ensures var end := index + |Header('$', |s|)| + |s| + 2;
            ParseBulkString(mem, size, index) == if size < end then Incomplete else Done(Str(s), end)
  {
    hide GetInteger, Header, Arriving;
    var h := Header('$', |s|);
    assert h + s + "\r\n" == h + (s + "\r\n");
    ArrivingPart(mem, size, index, h, s + "\r\n");
    GetIntegerArriving(mem, size, index, '$', |s|);
    if index + |h| <= size {
      var start := index + |h|;
      var end := start + |s|;
      if end + 2 <= size {
        ArrivingAt(mem, size, start, s + "\r\n", end);
        ArrivingAt(mem, size, start, s + "\r\n", end + 1);
        ArrivingPart(mem, size, start, s, "\r\n");
        ArrivedSlice(mem, size, start, s, end);
        assert s[..|s|] == s;
      }
    }
  }

  lemma {:induction false} ParseLine(mem: string, size: nat, index: nat, mark: char, s: string)
    requires mark == '+' || mark == '-'
    requires '\n' !in s && Arriving(mem, size, index, [mark] + s + "\r\n")
    ensures var end := index + |s| + 3;
            Parse(mem, size, index, true) ==
              if size < end then Incomplete else Done(if mark == '+' then Str(s) else Error(s), end)
  {
    hide ParseSimpleString;
    if index < size {
      ArrivingAt(mem, size, index, [mark] + s + "\r\n", index);
      ParseSimpleStringLine(mem, size, index, mark, s);
    }
  }

  lemma {:induction false} ParseNumber(mem: string, size: nat, index: nat, n: int)
    requires -INT64_MAX <= n <= INT64_MAX && Arriving(mem, size, index, Header(':', n))
    ensures var end := index + |Header(':', n)|;
            Parse(mem, size, index, true) == if size < end then Incomplete else Done(Integer(n), end)
  {
    hide GetInteger, ToText;
    if index < size {
      ArrivingAt(mem, size, index, Header(':', n), index);
      GetIntegerArriving(mem, size, index, ':', n);
    }
  }

  lemma {:induction false} ParseText(mem: string, size: nat, index: nat, s: string)
    requires |s| <= INT64_MAX && Arriving(mem, size, index, Header('$', |s|) + s + "\r\n")
    ensures var end := index + |Header('$', |s|)| + |s| + 2;
            Parse(mem, size, index, true) == if size < end then Incomplete else Done(Str(s), end)
  {
    hide ParseBulkString, ToText;
    if index < size {
      ArrivingAt(mem, size, index, Header('$', |s|) + s + "\r\n", index);
      ParseBulkStringText(mem, size, index, s);
    }
  }

  lemma {:induction false} ParseNil(mem: string, size: nat, index: nat, mark: char)
    requires mark == '$' || mark == '*'
    requires Arriving(mem, size, index, Header(mark, -1))
    ensures var end := index + |Header(mark, -1)|;
            Parse(mem, size, index, true) == if size < end then Incomplete else Done(Nil, end)
  {
    hide GetInteger, ToText;
    if index < size {
      ArrivingAt(mem, size, index, Header(mark, -1), index);
      GetIntegerArriving(mem, size, index, mark, -1);
    }
  }

  /**
   Round trip and prefix verdicts together. While only part of the encoding of w
   has come, even none of it or a part that ends between elements, the answer is
   Incomplete; once all of it has come, the answer is the reply and exactly its
   length, whatever follows.
   */
  lemma {:induction false} ParseEncoded(mem: string, size: nat, index: nat, w: Wire)
    requires WellFormed(w) && Arriving(mem, size, index, Encode(w))
    ensures var end := index + |Encode(w)|;
            Parse(mem, size, index, true) == if size < end then Incomplete else Done(ToReply(w), end)
    decreases w, 1
  {
    hide Parse, Arriving;
    match w
    case SimpleText(s) => ParseLine(mem, size, index, '+', s);
    case ErrorText(s) => ParseLine(mem, size, index, '-', s);
    case Number(n) => ParseNumber(mem, size, index, n);
    case Bulk(s) => ParseText(mem, size, index, s);
    case NilBulk => ParseNil(mem, size, index, '$');
    case NilArray => ParseNil(mem, size, index, '*');
    case Items(ws) => ParseItems(mem, size, index, ws);
  }

  lemma {:induction false} ParseItems(mem: string, size: nat, index: nat, ws: seq<Wire>)
    requires |ws| < COUNTER_LIMIT && forall i :: 0 <= i < |ws| ==> WellFormed(ws[i])
    requires Arriving(mem, size, index, Header('*', |ws|) + EncodeAll(ws))
    ensures var end := index + |Header('*', |ws|)| + |EncodeAll(ws)|;
            Parse(mem, size, index, true) == if size < end then Incomplete else Done(Array(ToReplies(ws)), end)
    decreases ws, 1
  {
    hide GetInteger, ToText, ParseElements, EncodeAll, ToReplies, WellFormed;
    if index < size {
      var h := Header('*', |ws|);
      ArrivingAt(mem, size, index, h + EncodeAll(ws), index);
      ArrivingPart(mem, size, index, h, EncodeAll(ws));
      GetIntegerArriving(mem, size, index, '*', |ws|);
      if index + |h| <= size {
        ParseElementsEncoded(mem, size, index + |h|, ws, []);
        assert [] + ToReplies(ws) == ToReplies(ws);
      }
    }
  }

  lemma {:induction false} EncodeLead(w: Wire)
    ensures |Encode(w)| >= 3 && IsMark(Encode(w)[0])
  {
    hide Decimal;
    if w.Number? || w.NilBulk? || w.NilArray? {
      DecimalIsDigits(if w.Number? then Magnitude(w.n) else 1);
    } else if w.Bulk? || w.Items? {
      DecimalIsDigits(if w.Bulk? then |w.text| else |w.items|);
    }
  }

  lemma {:induction false} ParseElementsEncoded(mem: string, size: nat, index: nat, ws: seq<Wire>, elements: seq<Reply>)
    requires forall i :: 0 <= i < |ws| ==> WellFormed(ws[i])
    requires Arriving(mem, size, index, EncodeAll(ws))
    ensures var end := index + |EncodeAll(ws)|;
            ParseElements(mem, size, index, |ws|, elements, true) ==
              if size < end then Incomplete else Done(Array(elements + ToReplies(ws)), end)
    decreases ws, 0
  {
    hide Parse, Encode, WellFormed, ToReply, Arriving;
    if ws == [] {
      assert elements + ToReplies(ws) == elements;
    } else {
      ArrivingPart(mem, size, index, Encode(ws[0]), EncodeAll(ws[1..]));
      ParseEncoded(mem, size, index, ws[0]);
      var next := index + |Encode(ws[0])|;
      if next <= size {
        ParseElementsEncoded(mem, size, next, ws[1..], elements + [ToReply(ws[0])]);
        assert elements + [ToReply(ws[0])] + ToReplies(ws[1..]) == elements + ToReplies(ws);
      }
    }
  }

  /** Round trip for the program as it is: a whole encoding needs no bounds test and reads nothing behind itself. */
  lemma {:induction false} RoundTrip(w: Wire, trailing: string, guarded: bool)
    requires WellFormed(w)
    ensures var s := Encode(w) + trailing;
            Parse(s, |s|, 0, guarded) == Done(ToReply(w), |Encode(w)|)
    ensures Parse(Encode(w), |Encode(w)|, 0, guarded) == Done(ToReply(w), |Encode(w)|)
  {
    var s := Encode(w) + trailing;
    ParseEncoded(s, |s|, 0, w);
    GuardUnneededWhenComplete(s, |s|, 0);
    ParseEncoded(Encode(w), |Encode(w)|, 0, w);
    GuardUnneededWhenComplete(Encode(w), |Encode(w)|, 0);
  }

  /** Every proper prefix of an encoding, wherever it is cut, is Incomplete. */
  lemma {:induction false} PrefixVerdict(w: Wire, k: nat)
    requires WellFormed(w) && k < |Encode(w)|
    ensures Parse(Encode(w)[..k], k, 0, true) == Incomplete
  {
    ParseEncoded(Encode(w)[..k], k, 0, w);
  }

  /** Hence no encoding is a proper prefix of another, and equal encodings mean equal replies. */
  lemma {:induction false} PrefixFree(v: Wire, w: Wire)
    requires WellFormed(v) && WellFormed(w) && Encode(v) <= Encode(w)
    ensures Encode(v) == Encode(w) && ToReply(v) == ToReply(w)
  {
    hide Parse, Encode, ToReply, WellFormed;
    RoundTrip(v, [], true);
    RoundTrip(w, [], true);
    assert Encode(w)[..|Encode(v)|] == Encode(v);
    if |Encode(v)| < |Encode(w)| {
      PrefixVerdict(w, |Encode(v)|);
    }
    assert Encode(w)[..|Encode(w)|] == Encode(w);
  }

  // ---- what the protocol does not allow and the parser does not reject ----

  lemma {:induction false} DecimalShort(k: nat)
    requires k >= 10
    ensures |Decimal(k)| <= k - 7
  {
    if k >= 100 {
      DecimalShort(k / 10);
    }
  }

  /** An array length that no vector can have ends in the exception that nobody handles, at any depth. */
  lemma {:induction false} BadArrayLength(mem: string, size: nat, index: nat, n: int, guarded: bool)
    requires -INT64_MAX <= n < -1 || MAX_ELEMENTS < n <= INT64_MAX
    requires Arriving(mem, size, index, Header('*', n)) && index + |Header('*', n)| <= size
    ensures Parse(mem, size, index, guarded) == LengthError
  {
    hide GetInteger, ToText, ParseElements;
    ArrivingAt(mem, size, index, Header('*', n), index);
    GetIntegerArriving(mem, size, index, '*', n);
  }

  /**
   A bulk length below -1, at any depth: the unsigned sum of index and length is a huge
   number, or points before the buffer, or points back to a line end that has been
   read already, or to something else. The first looks incomplete for ever.
   */
  lemma {:induction false} NegativeBulkLength(mem: string, size: nat, index: nat, n: int, guarded: bool)
    requires -INT64_MAX <= n < -1
    requires Arriving(mem, size, index, Header('$', n)) && index + |Header('$', n)| <= size
    ensures var end := index + |Header('$', n)| + n;
            Parse(mem, size, index, guarded) ==
              if end + 2 < 0 then Incomplete
              else if end < 0 then Undefined
              else if mem[end..end + 2] == "\r\n" then LengthError
              else ParseError
  {
    hide GetInteger, ToText;
    ArrivingAt(mem, size, index, Header('$', n), index);
    GetIntegerArriving(mem, size, index, '$', n);
    var end := index + |Header('$', n)| + n;
    if 0 <= end {
      assert mem[end..end + 2] == [mem[end], mem[end + 1]];
    }
  }

  /** At the front of the buffer the number alone decides which of the four it is. */
  lemma {:induction false} NegativeBulkLengthInFront(n: int, trailing: string, guarded: bool)
    requires -INT64_MAX <= n < -1
    ensures var s := Header('$', n) + trailing;
            Parse(s, |s|, 0, guarded) == if n == -2 then LengthError
                                         else if n >= -5 then ParseError
                                         else if n >= -7 then Undefined
                                         else Incomplete
  {
    hide Parse, Header, Arriving, GetInteger, ParseBulkString, DigitChar;
    var h := Header('$', n);
    var s := h + trailing;
    ArrivingStart(s, h);
    NegativeBulkLength(s, |s|, 0, n, guarded);
    if n <= -10 {
      NegativeHeaderShort(n);
    } else {
      NegativeDigit(n);
      assert s[..5] == h;
      if n >= -5 {
        var end := 5 + n;
        assert s[end..end + 2] == [h[end], h[end + 1]];
        assert n == -2 ==> h[end] == '\r' && h[end + 1] == '\n';
        assert n == -3 ==> h[end + 1] == '\r';
        assert n == -4 ==> h[end] == '-';
        assert n == -5 ==> h[end] == '$';
      }
    }
  }

  lemma {:induction false} NegativeHeaderShort(n: int)
    requires n <= -10
    ensures |Header('$', n)| + n + 2 < 0
  {
    HeaderLayout('$', n);
    DecimalShort(-n);
  }

  lemma {:induction false} NegativeDigit(n: int)
    requires -10 < n < 0
    ensures Header('$', n) == ['$', '-', DigitChar(-n), '\r', '\n']
  {
    HeaderLayout('$', n);
    OneDigit(-n);
  }

  /** Inside an array it is the chars before that decide as well: -8 is an error here. */
  lemma {:induction false} NegativeBulkLengthInArray(guarded: bool)
    ensures var s := Header('*', 1) + Header('$', -8);
            Parse(s, |s|, 0, guarded) == ParseError
  {
    hide Parse, ParseBulkString, Decimal;
    var h, b := Header('*', 1), Header('$', -8);
    var s := h + b;
    HeaderLayout('*', 1);
    HeaderLayout('$', -8);
    OneDigit(1);
    OneDigit(8);
    assert s == "*1\r\n$-8\r\n";
    assert s[..] == s;
    ArrivingPart(s, |s|, 0, h, b);
    NegativeBulkLength(s, |s|, |h|, -8, guarded);
    assert s[1..3] == "1\r";
    OneElement(s, guarded);
  }

  lemma {:induction false} OneElement(s: string, guarded: bool)
    requires |s| > 4 && Arriving(s, |s|, 0, Header('*', 1)) && |Header('*', 1)| == 4
    requires Parse(s, |s|, 4, guarded).IsFailure()
    ensures Parse(s, |s|, 0, guarded) == Parse(s, |s|, 4, guarded)
  {
    hide GetInteger, ToText;
    ArrivingAt(s, |s|, 0, Header('*', 1), 0);
    GetIntegerArriving(s, |s|, 0, '*', 1);
    assert ParseElements(s, |s|, 4, 1, [], guarded) == Parse(s, |s|, 4, guarded);
  }

  lemma {:induction false} ArrivingStart(s: string, h: string)
    requires h <= s
    ensures Arriving(s, |s|, 0, h)
  {
  }

  lemma {:induction false} OneDigit(d: nat)
    requires d < 10
    ensures Decimal(d) == [DigitChar(d)]
  {
  }
}
