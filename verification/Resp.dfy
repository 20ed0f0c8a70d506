/**
 The recursive RESP reply parser, as a function of the memory it looks at.

 mem is everything from the char pointer handed to parse to the end of the
 buffer; only mem[..size] has been received, the rest is whatever was there
 before. guarded says whether parse tests index < size before it reads the type
 char: false is the program, true is the same program with that test added.
 */
module Resp {
  import opened Numerals

  /**
   The longest vector of replies that can be asked for: 72 bytes each, in the
   standard library's 64-bit layout. The proofs use only that it is not below 2^32.
   */
  const MAX_ELEMENTS: nat := INT64_MAX / 72

  /** The element loop counts with 32 bits. */
  const COUNTER_LIMIT: nat := 0x1_0000_0000

  datatype Reply =
    | Str(str: string)
    | Integer(integer: int)
    | Array(elements: seq<Reply>)
    | Nil
    | Error(str: string)

  /**
   How a parse function ends. Incomplete is the returned index 0. ParseError is
   the exception the connection handles; LengthError is std::length_error, which
   it does not handle. Undefined stands for a signed overflow or a read outside
   the chars from the start pointer to the end of the buffer.
   */
  datatype Outcome<+T> =
    | Done(value: T, next: nat)
    | Incomplete
    | ParseError
    | LengthError
    | Undefined
  {
    predicate IsFailure() {
      !Done?
    }

    function PropagateFailure<U>(): Outcome<U>
      requires IsFailure()
    {
      match this
      case Incomplete => Incomplete
      case ParseError => ParseError
      case LengthError => LengthError
      case Undefined => Undefined
    }

    function Extract(): (T, nat)
      requires !IsFailure()
    {
      (value, next)
    }
  }

  /** The first line feed at or after from, or size when there is none. */
  function FindLF(mem: string, from: nat, size: nat): (k: nat)
    requires from <= size <= |mem|
    ensures from <= k <= size
    ensures forall i :: from <= i < k ==> mem[i] != '\n'
    ensures k < size ==> mem[k] == '\n'
    decreases size - from
  {
    if from == size || mem[from] == '\n' then from else FindLF(mem, from + 1, size)
  }

  /** One turn of the digit loop. */
  lemma {:induction false} DigitStep(mem: string, from: nat, index: nat)
    requires from <= index < |mem|
    ensures Accumulate(mem[from..index + 1]) == Push(Accumulate(mem[from..index]), mem[index])
  {
    AccumulateAppend(mem[from..index], mem[index]);
    assert mem[from..index + 1] == mem[from..index] + [mem[index]];
  }

  lemma {:induction false} OverflowAt(mem: string, from: nat, index: nat, lf: nat)
    requires from <= index <= lf <= |mem| && Accumulate(mem[from..index]).Overflow?
    ensures Accumulate(mem[from..lf]).Overflow?
  {
    OverflowStays(mem[from..index], mem[index..lf]);
    assert mem[from..lf] == mem[from..index] + mem[index..lf];
  }

  function GetInteger(mem: string, size: nat, index: nat): (r: Outcome<int>)
    requires index <= size <= |mem|
    ensures r.Done? ==> index < r.next <= size && IsInt64(r.value)
  {
    if size - index < 4 then Incomplete
    else
      var minus := mem[index + 1] == '-';
      var from := if minus then index + 2 else index + 1;
      var lf := FindLF(mem, from, size);
      match Accumulate(mem[from..lf])
      case Overflow => Undefined
      case Value(v) =>
        if lf >= size then Incomplete
        else if mem[lf - 1] != '\r' then ParseError
        else if minus && v == INT64_MIN then Undefined
        else
          AccumulateIsInt64(mem[from..lf]);
          Done(if minus then -v else v, lf + 1)
  }

  lemma {:induction false} AccumulateIsInt64(s: string)
    requires Accumulate(s).Value?
    ensures IsInt64(Accumulate(s).value)
  {
    if s != [] {
      if Accumulate(s[..|s| - 1]).Value? {
        AccumulateIsInt64(s[..|s| - 1]);
      }
    }
  }

  function ParseSimpleString(mem: string, size: nat, index: nat): (r: Outcome<string>)
    requires index <= size <= |mem|
    requires index < |mem| && mem[index] != '\n' && mem[index] != '\r'
    ensures r.Done? ==> index < r.next <= size
  {
    if size - index < 3 then Incomplete
    else
      var lf := FindLF(mem, index, size);
      if lf >= size then Incomplete
      else if mem[lf - 1] != '\r' then ParseError
      else Done(mem[index + 1..lf - 1], lf + 1)
  }

  /**
   A negative length other than -1 is added to an unsigned index. The sum wraps
   to a huge number when it falls below zero, and otherwise points back into the
   chars already read.
   */
  function ParseBulkString(mem: string, size: nat, index: nat): (r: Outcome<Reply>)
    requires index <= size <= |mem|
    ensures r.Done? ==> index < r.next <= size
  {
    var (length, start) :- GetInteger(mem, size, index);
    var end := start + length;
    if length == -1 then Done(Nil, start)
    else if end + 2 < 0 || end + 2 > size then Incomplete
    else if end < 0 then Undefined
    else if mem[end] != '\r' || mem[end + 1] != '\n' then ParseError
    else if length < 0 then LengthError
    else Done(Str(mem[start..end]), end + 2)
  }

  function Parse(mem: string, size: nat, index: nat, guarded: bool): (r: Outcome<Reply>)
    requires index <= size <= |mem|
    ensures r.Done? ==> index < r.next <= size
    decreases size - index, 1
  {
    if guarded && index == size then Incomplete
    else if index == |mem| then Undefined
    else if mem[index] == '+' then
      var (text, next) :- ParseSimpleString(mem, size, index);
      Done(Str(text), next)
    else if mem[index] == '-' then
      var (text, next) :- ParseSimpleString(mem, size, index);
      Done(Error(text), next)
    else if mem[index] == ':' then
      var (n, next) :- GetInteger(mem, size, index);
      Done(Integer(n), next)
    else if mem[index] == '$' then ParseBulkString(mem, size, index)
    else if mem[index] == '*' then ParseArray(mem, size, index, guarded)
    else ParseError
  }

  function ParseArray(mem: string, size: nat, index: nat, guarded: bool): (r: Outcome<Reply>)
    requires index <= size <= |mem|
    ensures r.Done? ==> index < r.next <= size
    decreases size - index, 0
  {
    var (length, next) :- GetInteger(mem, size, index);
    // reserve throws for a length that is not one of a vector, negative ones included
    if length == -1 then Done(Nil, next)
    else if length < 0 || length > MAX_ELEMENTS then LengthError
    else ParseElements(mem, size, next, length, [], guarded)
  }

  /** The element loop with length turns to go; elements holds what has been parsed. */
  function ParseElements(mem: string, size: nat, index: nat, length: nat, elements: seq<Reply>, guarded: bool)
    : (r: Outcome<Reply>)
    requires index <= size <= |mem|
    ensures r.Done? ==> index <= r.next <= size
    decreases size - index, length + 1
  {
    if length == 0 then Done(Array(elements), index)
    else
      var (element, next) :- Parse(mem, size, index, guarded);
      ParseElements(mem, size, next, length - 1, elements + [element], guarded)
  }

  // ---- the wire side: what a server may send, and how it is written ----

  /** Keeps apart the two spellings of a text and the two spellings of nil. */
  datatype Wire =
    | SimpleText(text: string)
    | ErrorText(text: string)
    | Number(n: int)
    | Bulk(text: string)
    | NilBulk
    | NilArray
    | Items(items: seq<Wire>)

  ghost predicate WellFormed(w: Wire) {
    match w
    case SimpleText(s) => '\n' !in s
    case ErrorText(s) => '\n' !in s
    case Number(n) => -INT64_MAX <= n <= INT64_MAX
    case Bulk(s) => |s| <= INT64_MAX
    case NilBulk => true
    case NilArray => true
    case Items(ws) => |ws| < COUNTER_LIMIT && forall i :: 0 <= i < |ws| ==> WellFormed(ws[i])
  }

  function Header(mark: char, n: int): string {
    [mark] + ToText(n) + "\r\n"
  }

  function Encode(w: Wire): string
    decreases w, 1
  {
    match w
    case SimpleText(s) => "+" + s + "\r\n"
    case ErrorText(s) => "-" + s + "\r\n"
    case Number(n) => Header(':', n)
    case Bulk(s) => Header('$', |s|) + s + "\r\n"
    case NilBulk => Header('$', -1)
    case NilArray => Header('*', -1)
    case Items(ws) => Header('*', |ws|) + EncodeAll(ws)
  }

  function EncodeAll(ws: seq<Wire>): string
    decreases ws, 0
  {
    if ws == [] then [] else Encode(ws[0]) + EncodeAll(ws[1..])
  }

  function ToReply(w: Wire): Reply
    decreases w, 1
  {
    match w
    case SimpleText(s) => Str(s)
    case ErrorText(s) => Error(s)
    case Number(n) => Integer(n)
    case Bulk(s) => Str(s)
    case NilBulk => Nil
    case NilArray => Nil
    case Items(ws) => Array(ToReplies(ws))
  }

  function ToReplies(ws: seq<Wire>): (rs: seq<Reply>)
    ensures |rs| == |ws|
    decreases ws, 0
  {
    if ws == [] then [] else [ToReply(ws[0])] + ToReplies(ws[1..])
  }
}
