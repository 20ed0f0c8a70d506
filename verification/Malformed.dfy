/** What the parser makes of input that no server sends, and of the pieces that it takes more freely than the protocol. */
module Malformed {
  import opened Numerals
  import opened Resp
  import opened RespStability
  import opened RespRoundTrip

  // ---- numbers ----

  /** The chars of a number; the loop skips carriage returns. */
  function WithoutCR(s: string): string {
    if s == [] then [] else (if s[0] == '\r' then [] else [s[0]]) + WithoutCR(s[1..])
  }

  function Power(k: nat): nat {
    if k == 0 then 1 else 10 * Power(k - 1)
  }

  /** Positional value: every char counts by its distance from '0', digit or not. */
  function Positional(s: string): int {
    if s == [] then 0 else (SignedCode(s[0]) - 48) * Power(|s| - 1) + Positional(s[1..])
  }

  lemma {:induction false} PositionalAppend(s: string, c: char)
    ensures Positional(s + [c]) == 10 * Positional(s) + (SignedCode(c) - 48)
  {
    if s == [] {
      assert s + [c] == [c];
      assert Positional([c][1..]) == 0;
    } else {
      PositionalAppend(s[1..], c);
      assert (s + [c])[1..] == s[1..] + [c];
      var code := SignedCode(s[0]) - 48;
      TimesTen(code, Power(|s| - 1));
    }
  }

  lemma {:induction false} TimesTen(a: int, b: int)
    ensures a * (10 * b) == 10 * (a * b)
  {
  }

  lemma {:induction false} WithoutCRAppend(s: string, c: char)
    ensures WithoutCR(s + [c]) == WithoutCR(s) + if c == '\r' then [] else [c]
  {
    if s == [] {
      assert s + [c] == [c];
      assert WithoutCR([c][1..]) == [];
    } else {
      WithoutCRAppend(s[1..], c);
      assert (s + [c])[1..] == s[1..] + [c];
    }
  }

  /** What the digit loop computes, of whatever chars, unless it overflows. */
  lemma {:induction false} AccumulateIsPositional(s: string)
    requires Accumulate(s).Value?
    ensures Accumulate(s).value == Positional(WithoutCR(s))
    decreases |s|
  {
    if s != [] {
      var init, last := s[..|s| - 1], s[|s| - 1];
      AccumulateIsPositional(init);
      assert s == init + [last];
      WithoutCRAppend(init, last);
      if last == '\r' {
        assert WithoutCR(init) + [] == WithoutCR(init);
      } else {
        PositionalAppend(WithoutCR(init), last);
      }
    }
  }

  /** The value of the chars up to k, or ten times the value before it, is beyond int64. */
  predicate OverflowsAt(s: string, k: nat)
    requires k < |s|
  {
    s[k] != '\r' && !(IsInt64(10 * Positional(WithoutCR(s[..k]))) && IsInt64(Positional(WithoutCR(s[..k + 1]))))
  }

  /** It overflows exactly if it does so at some char. */
  lemma {:induction false} OverflowIff(s: string)
    ensures Accumulate(s).Overflow? <==> exists k :: 0 <= k < |s| && OverflowsAt(s, k)
    decreases |s|
  {
    hide OverflowsAt;
    if s != [] {
      var n := |s| - 1;
      OverflowIff(s[..n]);
      forall k | 0 <= k < n ensures OverflowsAt(s[..n], k) <==> OverflowsAt(s, k) {
        SamePrefix(s, k, n);
      }
      LastChar(s);
    }
  }

  lemma {:induction false} SamePrefix(s: string, k: nat, n: nat)
    requires k < n <= |s|
    ensures OverflowsAt(s[..n], k) <==> OverflowsAt(s, k)
  {
    assert s[..n][..k] == s[..k] && s[..n][..k + 1] == s[..k + 1];
  }

  lemma {:induction false} LastChar(s: string)
    requires s != []
    ensures Accumulate(s).Overflow? <==> Accumulate(s[..|s| - 1]).Overflow? || OverflowsAt(s, |s| - 1)
    ensures Accumulate(s[..|s| - 1]).Overflow? ==> Accumulate(s).Overflow?
  {
    hide Positional, WithoutCR;
    var n := |s| - 1;
    assert s[..n + 1] == s == s[..n] + [s[n]];
    if Accumulate(s[..n]).Value? {
      AccumulateIsPositional(s[..n]);
      WithoutCRAppend(s[..n], s[n]);
      PositionalAppend(WithoutCR(s[..n]), s[n]);
    }
  }

  /**
   A number at whose line feed the received chars arrive: undefined if the chars before
   it overflow, an error if no carriage return stands there, and otherwise the value.
   */
  lemma {:induction false} NumberEnds(mem: string, size: nat, index: nat, lf: nat, guarded: bool)
    requires index + 4 <= size <= |mem| && mem[index] == ':'
    requires var from := index + (if mem[index + 1] == '-' then 2 else 1);
             from <= lf < size && mem[lf] == '\n' && forall i :: from <= i < lf ==> mem[i] != '\n'
    ensures var from := index + (if mem[index + 1] == '-' then 2 else 1);
            var digits := mem[from..lf];
            Parse(mem, size, index, guarded) ==
              if Accumulate(digits).Overflow? then Undefined
              else if mem[lf - 1] != '\r' then ParseError
              else if from == index + 2 && Positional(WithoutCR(digits)) == INT64_MIN then Undefined
              else Done(Integer(if from == index + 2 then 0 - Positional(WithoutCR(digits))
                                else Positional(WithoutCR(digits))), lf + 1)
  {
    hide Accumulate, Positional, WithoutCR, FindLF;
    var from := index + (if mem[index + 1] == '-' then 2 else 1);
    FindLFIs(mem, from, size, lf);
    if Accumulate(mem[from..lf]).Value? {
      AccumulateIsPositional(mem[from..lf]);
    }
  }

  /** Whatever has not room for the shortest form of its kind is waited for, a line feed in it or not. */
  lemma {:induction false} ShortIsIncomplete(mem: string, size: nat, index: nat, guarded: bool)
    requires index < size <= |mem|
    requires (mem[index] in "+-" && size - index < 3) || (mem[index] in ":$*" && size - index < 4)
    ensures Parse(mem, size, index, guarded) == Incomplete
  {
  }

  /** Without a line feed a line, a number or a length is waited for, unless its chars overflow. */
  lemma {:induction false} OpenIsIncomplete(mem: string, size: nat, index: nat, guarded: bool)
    requires index + 4 <= size <= |mem| && mem[index] in "+-:$*"
    requires forall i :: index <= i < size ==> mem[i] != '\n'
    ensures var from := index + (if mem[index + 1] == '-' then 2 else 1);
            Parse(mem, size, index, guarded) ==
              if mem[index] in ":$*" && Accumulate(mem[from..size]).Overflow? then Undefined else Incomplete
  {
    hide FindLF, Accumulate;
    var from := index + (if mem[index + 1] == '-' then 2 else 1);
    FindLFIs(mem, from, size, size);
    FindLFIs(mem, index, size, size);
  }

  // ---- lines and texts ----

  /** A char that opens no reply is an error wherever a reply should start. */
  lemma {:induction false} UnknownMark(mem: string, size: nat, index: nat, guarded: bool)
    requires index < size <= |mem| && mem[index] !in "+-:$*"
    ensures Parse(mem, size, index, guarded) == ParseError
  {
  }

  /** A line is taken exactly if a carriage return stands before its line feed, and rejected otherwise. */
  lemma {:induction false} LineEnds(mem: string, size: nat, index: nat, lf: nat, guarded: bool)
    requires index + 3 <= size <= |mem| && mem[index] in "+-"
    requires index < lf < size && mem[lf] == '\n' && forall i :: index <= i < lf ==> mem[i] != '\n'
    ensures Parse(mem, size, index, guarded) ==
              if mem[lf - 1] != '\r' then ParseError
              else if mem[index] == '+' then Done(Str(mem[index + 1..lf - 1]), lf + 1)
              else Done(Error(mem[index + 1..lf - 1]), lf + 1)
  {
    hide FindLF;
    FindLFIs(mem, index, size, lf);
  }

  /** The text of a bulk string is taken exactly if a line end follows it, and rejected otherwise, once that has come. */
  lemma {:induction false} TextEnds(mem: string, size: nat, index: nat, n: nat, guarded: bool)
    requires n <= INT64_MAX && Arriving(mem, size, index, Header('$', n)) && index + |Header('$', n)| <= size
    ensures var start := index + |Header('$', n)|;
            Parse(mem, size, index, guarded) ==
              if start + n + 2 > size then Incomplete
              else if mem[start + n..start + n + 2] == "\r\n" then Done(Str(mem[start..start + n]), start + n + 2)
              else ParseError
  {
    hide GetInteger, ToText;
    ArrivingAt(mem, size, index, Header('$', n), index);
    GetIntegerArriving(mem, size, index, '$', n);
    var end := index + |Header('$', n)| + n;
    if end + 2 <= size {
      assert mem[end..end + 2] == [mem[end], mem[end + 1]];
    }
  }

  // ---- arrays ----

  lemma {:induction false} ElementsStop(mem: string, size: nat, index: nat, ws: seq<Wire>, length: nat,
                                        elements: seq<Reply>)
    requires forall i :: 0 <= i < |ws| ==> WellFormed(ws[i])
    requires Arriving(mem, size, index, EncodeAll(ws)) && index + |EncodeAll(ws)| <= size && |ws| < length
    requires !Parse(mem, size, index + |EncodeAll(ws)|, true).Done?
    ensures ParseElements(mem, size, index, length, elements, true) == Parse(mem, size, index + |EncodeAll(ws)|, true)
    decreases ws
  {
    hide Parse, Encode, WellFormed, ToReply, Arriving;
    if ws != [] {
      ArrivingPart(mem, size, index, Encode(ws[0]), EncodeAll(ws[1..]));
      ParseEncoded(mem, size, index, ws[0]);
      ElementsStop(mem, size, index + |Encode(ws[0])|, ws[1..], length - 1, elements + [ToReply(ws[0])]);
    }
  }

  /** An array ends as its first element does that is not a reply, be it incomplete or wrong, after any replies before it. */
  lemma {:induction false} ArrayEndsWithElement(mem: string, size: nat, index: nat, ws: seq<Wire>, length: nat)
    requires |ws| < length <= MAX_ELEMENTS && forall i :: 0 <= i < |ws| ==> WellFormed(ws[i])
    requires Arriving(mem, size, index, Header('*', length) + EncodeAll(ws))
    requires index + |Header('*', length)| + |EncodeAll(ws)| <= size
    requires var at := index + |Header('*', length)| + |EncodeAll(ws)|; !Parse(mem, size, at, true).Done?
    ensures var at := index + |Header('*', length)| + |EncodeAll(ws)|;
            Parse(mem, size, index, true) == Parse(mem, size, at, true)
  {
    hide GetInteger, ToText, ParseElements, EncodeAll, WellFormed;
    var h := Header('*', length);
    ArrivingAt(mem, size, index, h + EncodeAll(ws), index);
    ArrivingPart(mem, size, index, h, EncodeAll(ws));
    GetIntegerArriving(mem, size, index, '*', length);
    ElementsStop(mem, size, index + |h|, ws, length, []);
  }

  // ---- the bytes themselves ----

  /** The formats of the protocol, byte by byte. */
  lemma {:induction false} Formats(s: string, n: nat, ws: seq<Wire>)
    requires n < 10 && |s| < 10 && |ws| < 10
    ensures Encode(SimpleText(s)) == "+" + s + "\r\n"
    ensures Encode(ErrorText(s)) == "-" + s + "\r\n"
    ensures Encode(Number(n)) == [':', "0123456789"[n], '\r', '\n']
    ensures Encode(Bulk(s)) == ['$', "0123456789"[|s|], '\r', '\n'] + s + "\r\n"
    ensures Encode(NilBulk) == "$-1\r\n" && Encode(NilArray) == "*-1\r\n"
    ensures Encode(Items(ws)) == ['*', "0123456789"[|ws|], '\r', '\n'] + EncodeAll(ws)
  {
    OneDigit(n);
    OneDigit(|s|);
    OneDigit(1);
    OneDigit(|ws|);
    assert forall d: nat :: d < 10 ==> DigitChar(d) == "0123456789"[d];
    hide Decimal;
  }

  /** What is written of a number is its decimal numeral, of any size: digits, of this value, without a leading zero. */
  lemma {:induction false} DecimalIsPositional(n: nat)
    ensures Positional(Decimal(n)) == n
    ensures forall i :: 0 <= i < |Decimal(n)| ==> '0' <= Decimal(n)[i] <= '9'
    ensures |Decimal(n)| >= 1 && (n > 0 ==> Decimal(n)[0] != '0')
  {
    hide Positional;
    DecimalIsDigits(n);
    PositionalAppend([], DigitChar(n % 10));
    assert [] + [DigitChar(n % 10)] == [DigitChar(n % 10)];
    assert SignedCode(DigitChar(n % 10)) == 48 + n % 10;
    PositionalNothing();
    if n >= 10 {
      DecimalIsPositional(n / 10);
      PositionalAppend(Decimal(n / 10), DigitChar(n % 10));
    }
  }

  lemma PositionalNothing()
    ensures Positional([]) == 0
  {
  }
}
