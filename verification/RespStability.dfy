/** What more input can change, and what the missing bounds test can change. */
module RespStability {
  import opened Numerals
  import opened Resp

  /** The second memory has received everything the first has, and maybe more. */
  ghost predicate Extends(m1: string, s1: nat, m2: string, s2: nat) {
    s1 <= |m1| && s1 <= s2 <= |m2| && forall i :: 0 <= i < s1 ==> m1[i] == m2[i]
  }

  lemma {:induction false} FindLFExtends(m1: string, s1: nat, m2: string, s2: nat, from: nat)
    requires Extends(m1, s1, m2, s2) && from <= s1
    ensures FindLF(m1, from, s1) < s1 ==> FindLF(m2, from, s2) == FindLF(m1, from, s1)
    ensures FindLF(m1, from, s1) <= FindLF(m2, from, s2)
    decreases s1 - from
  {
    if from < s1 && m1[from] != '\n' {
      FindLFExtends(m1, s1, m2, s2, from + 1);
    }
  }

  lemma {:induction false} SameSlice(m1: string, s1: nat, m2: string, s2: nat, from: nat, to: nat)
    requires Extends(m1, s1, m2, s2) && from <= to <= s1
    ensures m1[from..to] == m2[from..to]
  {
  }

  lemma {:induction false} GetIntegerStable(m1: string, s1: nat, m2: string, s2: nat, index: nat)
    requires Extends(m1, s1, m2, s2) && index <= s1
    requires !GetInteger(m1, s1, index).Incomplete?
    ensures GetInteger(m2, s2, index) == GetInteger(m1, s1, index)
  {
    var from := if m1[index + 1] == '-' then index + 2 else index + 1;
    var lf1, lf2 := FindLF(m1, from, s1), FindLF(m2, from, s2);
    FindLFExtends(m1, s1, m2, s2, from);
    SameSlice(m1, s1, m2, s2, from, lf1);
    if lf1 == s1 {
      OverflowStays(m1[from..lf1], m2[lf1..lf2]);
      assert m2[from..lf2] == m1[from..lf1] + m2[lf1..lf2];
    }
  }

  lemma {:induction false} ParseSimpleStringStable(m1: string, s1: nat, m2: string, s2: nat, index: nat)
    requires Extends(m1, s1, m2, s2) && index < s1
    requires m1[index] != '\n' && m1[index] != '\r'
    requires !ParseSimpleString(m1, s1, index).Incomplete?
    ensures ParseSimpleString(m2, s2, index) == ParseSimpleString(m1, s1, index)
  {
    FindLFExtends(m1, s1, m2, s2, index);
    var lf := FindLF(m1, index, s1);
    if m1[lf - 1] == '\r' {
      SameSlice(m1, s1, m2, s2, index + 1, lf - 1);
    }
  }

  lemma {:induction false} ParseBulkStringStable(m1: string, s1: nat, m2: string, s2: nat, index: nat)
    requires Extends(m1, s1, m2, s2) && index <= s1
    requires !ParseBulkString(m1, s1, index).Incomplete?
    ensures ParseBulkString(m2, s2, index) == ParseBulkString(m1, s1, index)
  {
    GetIntegerStable(m1, s1, m2, s2, index);
    var h := GetInteger(m1, s1, index);
    if h.Done? && 0 <= h.value {
      SameSlice(m1, s1, m2, s2, h.next, h.next + h.value);
    }
  }

  /** Extension stability: a verdict other than Incomplete survives any further input. */
  lemma {:induction false} ParseStable(m1: string, s1: nat, m2: string, s2: nat, index: nat)
    requires Extends(m1, s1, m2, s2) && index <= s1
    requires !Parse(m1, s1, index, true).Incomplete?
    ensures Parse(m2, s2, index, true) == Parse(m1, s1, index, true)
    decreases s1 - index, 1
  {
    if m1[index] == '+' || m1[index] == '-' {
      ParseSimpleStringStable(m1, s1, m2, s2, index);
    } else if m1[index] == ':' {
      GetIntegerStable(m1, s1, m2, s2, index);
    } else if m1[index] == '$' {
      ParseBulkStringStable(m1, s1, m2, s2, index);
    } else if m1[index] == '*' {
      GetIntegerStable(m1, s1, m2, s2, index);
      var h := GetInteger(m1, s1, index);
      if h.Done? && 0 <= h.value <= MAX_ELEMENTS {
        ParseElementsStable(m1, s1, m2, s2, h.next, h.value, []);
      }
    }
  }

  lemma {:induction false} ParseElementsStable(m1: string, s1: nat, m2: string, s2: nat, index: nat,
                                               length: nat, elements: seq<Reply>)
    requires Extends(m1, s1, m2, s2) && index <= s1
    requires !ParseElements(m1, s1, index, length, elements, true).Incomplete?
    ensures ParseElements(m2, s2, index, length, elements, true) == ParseElements(m1, s1, index, length, elements, true)
    decreases s1 - index, length + 1
  {
    if length > 0 {
      ParseStable(m1, s1, m2, s2, index);
      var r := Parse(m1, s1, index, true);
      if r.Done? {
        ParseElementsStable(m1, s1, m2, s2, r.next, length - 1, elements + [r.value]);
      }
    }
  }

  lemma {:induction false} ParseStableAppend(a: string, b: string)
    requires !Parse(a, |a|, 0, true).Incomplete?
    ensures Parse(a + b, |a + b|, 0, true) == Parse(a, |a|, 0, true)
  {
    ParseStable(a, |a|, a + b, |a + b|, 0);
  }

  /** The guarded parser depends on the received chars alone, not on what lies behind them. */
  lemma {:induction false} GuardedReadsOnlyReceived(m1: string, m2: string, size: nat, index: nat)
    requires index <= size && Extends(m1, size, m2, size)
    ensures Parse(m1, size, index, true) == Parse(m2, size, index, true)
  {
    if !Parse(m1, size, index, true).Incomplete? {
      ParseStable(m1, size, m2, size, index);
    } else if !Parse(m2, size, index, true).Incomplete? {
      ParseStable(m2, size, m1, size, index);
    }
  }

  // ---- bounds ----

  lemma {:induction false} ReplyTakesThree(mem: string, size: nat, index: nat, guarded: bool)
    requires index <= size <= |mem| && Parse(mem, size, index, guarded).Done?
    ensures Parse(mem, size, index, guarded).next >= index + 3
    decreases size - index, 1
  {
    if index < size && mem[index] == '*' {
      var h := GetInteger(mem, size, index);
      HeaderTakesThree(mem, size, index);
      if 0 <= h.value <= MAX_ELEMENTS {
        ElementsTakeThree(mem, size, h.next, h.value, [], guarded);
      }
    } else if index < size && (mem[index] == ':' || mem[index] == '$') {
      HeaderTakesThree(mem, size, index);
    }
  }

  lemma {:induction false} HeaderTakesThree(mem: string, size: nat, index: nat)
    requires index <= size <= |mem| && GetInteger(mem, size, index).Done? && mem[index] != '\r'
    ensures GetInteger(mem, size, index).next >= index + 3
    ensures mem[index] == '$' && ParseBulkString(mem, size, index).Done? ==>
              ParseBulkString(mem, size, index).next >= index + 3
  {
    hide Accumulate;
  }

  /**
   The element loop parses at most a third as many elements as there are chars, so
   its 32-bit counter cannot wrap around in a buffer of fewer than three times 2^32
   chars; and what it collects has exactly the announced length.
   */
  lemma {:induction false} ElementsTakeThree(mem: string, size: nat, index: nat, length: nat, elements: seq<Reply>,
                                             guarded: bool)
    requires index <= size <= |mem| && ParseElements(mem, size, index, length, elements, guarded).Done?
    ensures var r := ParseElements(mem, size, index, length, elements, guarded);
            && index + 3 * length <= r.next <= size
            && r.value.Array? && elements <= r.value.elements && |r.value.elements| == |elements| + length
    decreases size - index, length + 1
  {
    if length > 0 {
      ReplyTakesThree(mem, size, index, guarded);
      var r := Parse(mem, size, index, guarded);
      ElementsTakeThree(mem, size, r.next, length - 1, elements + [r.value], guarded);
    }
  }

  // ---- the bounds test that the program leaves out ----

  predicate IsMark(c: char) {
    c == '+' || c == '-' || c == ':' || c == '$' || c == '*'
  }

  /** The received chars stop exactly where a reply, or an element of an unfinished array, would start. */
  predicate Starves(mem: string, size: nat, index: nat)
    requires index <= size <= |mem|
    decreases size - index, 1
  {
    || index == size
    || (mem[index] == '*' &&
        var h := GetInteger(mem, size, index);
        h.Done? && 0 <= h.value <= MAX_ELEMENTS && StarvesInElements(mem, size, h.next, h.value))
  }

  predicate StarvesInElements(mem: string, size: nat, index: nat, length: nat)
    requires index <= size <= |mem|
    decreases size - index, length + 1
  {
    length > 0 &&
    (|| Starves(mem, size, index)
     || (var r := Parse(mem, size, index, true);
         r.Done? && StarvesInElements(mem, size, r.next, length - 1)))
  }

  /** The char right after the received ones: absent, or not one that opens a reply. */
  predicate StrayNext(mem: string, size: nat)
    requires size <= |mem|
  {
    size == |mem| || !IsMark(mem[size])
  }

  lemma {:induction false} StarvedIsIncomplete(mem: string, size: nat, index: nat)
    requires index <= size <= |mem| && Starves(mem, size, index)
    ensures Parse(mem, size, index, true).Incomplete?
    decreases size - index, 1
  {
    if index < size {
      var h := GetInteger(mem, size, index);
      StarvedElementsAreIncomplete(mem, size, h.next, h.value, []);
    }
  }

  lemma {:induction false} StarvedElementsAreIncomplete(mem: string, size: nat, index: nat, length: nat,
                                                        elements: seq<Reply>)
    requires index <= size <= |mem| && StarvesInElements(mem, size, index, length)
    ensures ParseElements(mem, size, index, length, elements, true).Incomplete?
    decreases size - index, length + 1
  {
    if Starves(mem, size, index) {
      StarvedIsIncomplete(mem, size, index);
    } else {
      var r := Parse(mem, size, index, true);
      StarvedElementsAreIncomplete(mem, size, r.next, length - 1, elements + [r.value]);
    }
  }

  /**
   Exactly when the program's parser and the guarded one differ: the chars stop
   where an element would start and the next char in memory is stray. Then the
   program fails on a prefix of a valid stream.
   */
  lemma {:induction false} GuardMatters(mem: string, size: nat, index: nat)
    requires index <= size <= |mem|
    ensures Parse(mem, size, index, false) == Parse(mem, size, index, true)
       <==> !(Starves(mem, size, index) && StrayNext(mem, size))
    ensures Starves(mem, size, index) && StrayNext(mem, size) ==>
              Parse(mem, size, index, false) == if size == |mem| then Undefined else ParseError
    decreases size - index, 1
  {
    if index < size && mem[index] == '*' {
      var h := GetInteger(mem, size, index);
      if h.Done? && 0 <= h.value <= MAX_ELEMENTS {
        GuardMattersInElements(mem, size, h.next, h.value, []);
      }
    }
  }

  lemma {:induction false} GuardMattersInElements(mem: string, size: nat, index: nat, length: nat,
                                                  elements: seq<Reply>)
    requires index <= size <= |mem|
    ensures ParseElements(mem, size, index, length, elements, false)
         == ParseElements(mem, size, index, length, elements, true)
       <==> !(StarvesInElements(mem, size, index, length) && StrayNext(mem, size))
    ensures StarvesInElements(mem, size, index, length) && StrayNext(mem, size) ==>
              ParseElements(mem, size, index, length, elements, false) == if size == |mem| then Undefined else ParseError
    decreases size - index, length + 1
  {
    if length > 0 {
      GuardMatters(mem, size, index);
      if Starves(mem, size, index) {
        StarvedIsIncomplete(mem, size, index);
        StarvedElementsAreIncomplete(mem, size, index, length, elements);
      } else {
        var r := Parse(mem, size, index, true);
        if r.Done? {
          GuardMattersInElements(mem, size, r.next, length - 1, elements + [r.value]);
        }
      }
    }
  }

  /** Whatever the guarded parser completes, the program's parser completes identically. */
  lemma {:induction false} GuardUnneededWhenComplete(mem: string, size: nat, index: nat)
    requires index <= size <= |mem| && !Parse(mem, size, index, true).Incomplete?
    ensures Parse(mem, size, index, false) == Parse(mem, size, index, true)
  {
    GuardMatters(mem, size, index);
    if Starves(mem, size, index) {
      StarvedIsIncomplete(mem, size, index);
    }
  }

  /** The header of a one-element array, cut before the element: a stale 'x' in the buffer is taken for a reply. */
  lemma {:induction false} StaleCharWitness()
    ensures var mem := "*1\r\nx"; Parse(mem, 4, 0, true) == Incomplete && Parse(mem, 4, 0, false) == ParseError
    ensures var mem := "*1\r\n"; Parse(mem, 4, 0, true) == Incomplete && Parse(mem, 4, 0, false) == Undefined
  {
    OneElementHeader("*1\r\nx");
    OneElementHeader("*1\r\n");
    GuardMatters("*1\r\nx", 4, 0);
    GuardMatters("*1\r\n", 4, 0);
    StarvedIsIncomplete("*1\r\nx", 4, 0);
    StarvedIsIncomplete("*1\r\n", 4, 0);
  }

  lemma {:induction false} OneElementHeader(mem: string)
    requires |mem| >= 4 && mem[..4] == "*1\r\n"
    ensures Starves(mem, 4, 0)
  {
    assert mem[0] == mem[..4][0] && mem[1] == mem[..4][1] && mem[2] == mem[..4][2] && mem[3] == mem[..4][3];
    assert FindLF(mem, 3, 4) == 3;
    assert FindLF(mem, 1, 4) == 3;
    assert mem[1..3] == ([] + ['1']) + ['\r'];
    AccumulateAppend([], '1');
    AccumulateAppend([] + ['1'], '\r');
    assert GetInteger(mem, 4, 0) == Done(1, 4);
    assert StarvesInElements(mem, 4, 4, 1);
  }
}
