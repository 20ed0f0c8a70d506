/**
 The parser object: a fixed char buffer that the socket fills, a parse loop that
 empties it, and the parse functions themselves, which look at the buffer in place.
 Each is proved against the function of the same name in Resp, or against Stream.
 */
module ReplyParser {
  import opened Numerals
  import opened Resp
  import opened RespStability
  import opened Stream

  class Parser {
    const buffer: array<char>
    var usedBytes: nat

    /** Whether parse tests its index before it reads the type char; the program does not. */
    const guarded: bool

    ghost predicate Valid()
      reads this
    {
      usedBytes <= buffer.Length
    }

    /** The received chars that are not parsed yet. */
    function Unparsed(): string
      reads this, buffer
      requires Valid()
    {
      buffer[..usedBytes]
    }

    constructor (bufferSize: nat, guarded: bool)
      ensures Valid() && Unparsed() == [] && buffer.Length == bufferSize
      ensures fresh(buffer) && this.guarded == guarded
    {
      buffer := new char[bufferSize];
      usedBytes := 0;
      this.guarded := guarded;
    }

    // ---- the parse functions; ptr is where the char pointer points to ----

    method GetInteger(ptr: nat, size: nat, start: nat) returns (r: Outcome<int>)
      requires ptr + size <= buffer.Length && start <= size
      ensures r == Resp.GetInteger(buffer[ptr..], size, start)
    {
      hide Accumulate, FindLF;
      if size - start < 4 {
        return Incomplete;
      }
      var index := start + 1;
      var minus := false;
      if buffer[ptr + index] == '-' {
        minus := true;
        index := index + 1;
      }
      var integer;
      integer, index := ReadDigits(ptr, size, index);
      if integer.Overflow? {
        return Undefined;
      }
      if index >= size {
        return Incomplete;
      }
      if buffer[ptr + index - 1] != '\r' {
        return ParseError;
      }
      if minus {
        if integer.value == INT64_MIN {
          return Undefined;
        }
        integer := Value(integer.value * -1);
      }
      return Done(integer.value, index + 1);
    }

    /** The digit loop of get_integer, up to the line feed, the end of the received chars or an overflow. */
    method ReadDigits(ptr: nat, size: nat, from: nat) returns (number: Number, index: nat)
      requires ptr + size <= buffer.Length && from <= size
      ensures var mem := buffer[ptr..];
              && number == Accumulate(mem[from..FindLF(mem, from, size)])
              && (number.Value? ==> index == FindLF(mem, from, size))
    {
      hide Accumulate;
      ghost var mem := buffer[ptr..];
      index := from;
      var integer := 0;
      AccumulateNothing();
      assert mem[from..from] == [];
      while index < size && buffer[ptr + index] != '\n'
        invariant from <= index <= size
        invariant FindLF(mem, from, size) == FindLF(mem, index, size)
        invariant Accumulate(mem[from..index]) == Value(integer)
      {
        DigitStep(mem, from, index);
        if buffer[ptr + index] != '\r' {
          var digit := SignedCode(buffer[ptr + index]) - SignedCode('0');
          if !IsInt64(integer * 10) || !IsInt64(integer * 10 + digit) {
            OverflowAt(mem, from, index + 1, FindLF(mem, from, size));
            return Overflow, index;
          }
          integer := integer * 10 + digit;
        }
        index := index + 1;
      }
      return Value(integer), index;
    }

    method ParseSimpleString(ptr: nat, size: nat, start: nat) returns (r: Outcome<string>)
      requires ptr + size <= buffer.Length && start <= size && ptr + start < buffer.Length
      requires buffer[ptr + start] != '\n' && buffer[ptr + start] != '\r'
      ensures r == Resp.ParseSimpleString(buffer[ptr..], size, start)
    {
      if size - start < 3 {
        return Incomplete;
      }
      var index := start;
      while index < size && buffer[ptr + index] != '\n'
        invariant start <= index <= size
        invariant FindLF(buffer[ptr..], start, size) == FindLF(buffer[ptr..], index, size)
      {
        index := index + 1;
      }
      if index >= size {
        return Incomplete;
      }
      if buffer[ptr + index - 1] != '\r' {
        return ParseError;
      }
      assert buffer[ptr..][start + 1..index - 1] == buffer[ptr + start + 1..ptr + index - 1];
      return Done(buffer[ptr + start + 1..ptr + index - 1], index + 1);
    }

    method ParseBulkString(ptr: nat, size: nat, start: nat) returns (r: Outcome<Reply>)
      requires ptr + size <= buffer.Length && start <= size
      ensures r == Resp.ParseBulkString(buffer[ptr..], size, start)
    {
      var h := GetInteger(ptr, size, start);
      if !h.Done? {
        return h.PropagateFailure();
      }
      var index, integer := h.next, h.value;
      if integer == -1 {
        return Done(Nil, index);
      }
      if index + integer + 2 < 0 || index + integer + 2 > size {
        return Incomplete;
      }
      if index + integer < 0 {
        return Undefined;
      }
      if buffer[ptr + index + integer] != '\r' || buffer[ptr + index + integer + 1] != '\n' {
        return ParseError;
      }
      if integer < 0 {
        return LengthError;
      }
      assert buffer[ptr..][index..index + integer] == buffer[ptr + index..ptr + index + integer];
      return Done(Str(buffer[ptr + index..ptr + index + integer]), index + integer + 2);
    }

    method Parse(ptr: nat, size: nat, index: nat) returns (r: Outcome<Reply>)
      requires ptr + size <= buffer.Length && index <= size
      ensures r == Resp.Parse(buffer[ptr..], size, index, guarded)
      decreases size - index, 1
    {
      if guarded && index == size {
        return Incomplete;
      }
      if ptr + index == buffer.Length {
        return Undefined;
      }
      match buffer[ptr + index]
      case '+' =>
        var s := ParseSimpleString(ptr, size, index);
        r := if s.Done? then Done(Str(s.value), s.next) else s.PropagateFailure();
      case '-' =>
        var s := ParseSimpleString(ptr, size, index);
        r := if s.Done? then Done(Error(s.value), s.next) else s.PropagateFailure();
      case ':' =>
        var n := GetInteger(ptr, size, index);
        r := if n.Done? then Done(Integer(n.value), n.next) else n.PropagateFailure();
      case '$' =>
        r := ParseBulkString(ptr, size, index);
      case '*' =>
        r := ParseArray(ptr, size, index);
      case _ =>
        r := ParseError;
    }

    method ParseArray(ptr: nat, size: nat, start: nat) returns (r: Outcome<Reply>)
      requires ptr + size <= buffer.Length && start <= size
      ensures r == Resp.ParseArray(buffer[ptr..], size, start, guarded)
      decreases size - start, 0
    {
      hide Resp.GetInteger, Resp.Parse;
      var h := GetInteger(ptr, size, start);
      if !h.Done? {
        return h.PropagateFailure();
      }
      var index, integer := h.next, h.value;
      if integer == -1 {
        return Done(Nil, index);
      }
      if integer < 0 || integer > MAX_ELEMENTS {
        return LengthError;
      }
      var elements: seq<Reply> := [];
      var i := 0;
      while i < integer
        invariant 0 <= i <= integer && start < index <= size && |elements| == i
        invariant ParseElements(buffer[ptr..], size, index, integer - i, elements, guarded)
               == ParseElements(buffer[ptr..], size, h.next, integer, [], guarded)
      {
        var element := Parse(ptr, size, index);
        if !element.Done? {
          return element;
        }
        elements := elements + [element.value];
        index := element.next;
        i := i + 1;
      }
      return Done(Array(elements), index);
    }

    // ---- the framing buffer ----

    /** Where the next chars go, and how many of them fit. */
    method Buffer() returns (ptr: nat, size: nat)
      requires Valid()
      ensures ptr == |Unparsed()| && ptr + size == buffer.Length
    {
      return usedBytes, buffer.Length - usedBytes;
    }

    /**
     What the socket does before a read completes: it writes the chunk where Buffer
     points to. Chars before that place and behind the chunk keep their values.
     */
    method Fill(chunk: string)
      requires Valid() && usedBytes + |chunk| <= buffer.Length
      modifies buffer
      ensures buffer[..] == old(buffer[..usedBytes]) + chunk + old(buffer[usedBytes + |chunk|..])
    {
      forall i | 0 <= i < |chunk| {
        buffer[usedBytes + i] := chunk[i];
      }
    }

    /**
     The parse loop. A failure leaves usedBytes counting the unparsed chars while
     they still stand behind the parsed ones: only a loop that ends waiting for more
     moves them to the front. The callback may be missing, then replies are dropped.
     */
    method OnRead(readBytes: nat, hasCallback: bool) returns (delivered: seq<Reply>, stop: Outcome<Reply>)
      requires Valid() && usedBytes + readBytes <= buffer.Length
      modifies this`usedBytes, buffer
      ensures var used, mem := old(usedBytes) + readBytes, old(buffer[..]);
              var d := Drain(mem, used, guarded);
              && delivered == (if hasCallback then d.replies else [])
              && stop == d.stop
              && usedBytes == d.left
              && (stop.Incomplete? ==> buffer[..] == mem[used - d.left..used] + mem[d.left..])
              && (!stop.Incomplete? ==> buffer[..] == mem)
    {
      hide Drain;
      usedBytes := usedBytes + readBytes;
      var ptr;
      ghost var mem := buffer[..];
      delivered, ptr, stop := ParseLoop(hasCallback);
      if stop.Incomplete? {
        MoveToFront(ptr);
        assert buffer[..] == mem[ptr..ptr + usedBytes] + mem[usedBytes..];
      }
    }

    method ParseLoop(hasCallback: bool) returns (delivered: seq<Reply>, ptr: nat, stop: Outcome<Reply>)
      requires Valid()
      modifies this`usedBytes
      ensures var d := Drain(buffer[..], old(usedBytes), guarded);
              && delivered == (if hasCallback then d.replies else [])
              && stop == d.stop
              && usedBytes == d.left && ptr + usedBytes == old(usedBytes)
    {
      hide Resp.Parse, Drain;
      ghost var used, mem := usedBytes, buffer[..];
      ghost var all, parsed := Drain(mem, used, guarded), [];
      delivered, ptr := [], 0;
      var r := Parse(ptr, usedBytes, 0);
      assert buffer[0..] == mem == mem[0..];
      if !r.Done? {
        DrainStop(mem, used, guarded);
      }
      while r.Done?
        invariant ptr + usedBytes == used
        invariant !r.Done? ==> all == Drained(parsed, usedBytes, r)
        invariant r.Done? ==> r == Resp.Parse(mem[ptr..], usedBytes, 0, guarded)
        invariant r.Done? ==> Drain(mem[ptr..], usedBytes, guarded).Before(parsed) == all
        invariant delivered == if hasCallback then parsed else []
        decreases usedBytes, r.Done?
      {
        var length := r.next;
        DrainTurn(mem, ptr, usedBytes, parsed, r.value, length);
        if hasCallback {
          delivered := delivered + [r.value];
        }
        parsed := parsed + [r.value];
        ptr := ptr + length;
        usedBytes := usedBytes - length;
        if usedBytes == 0 {
          r := Incomplete;
        } else {
          r := Parse(ptr, usedBytes, 0);
          assert buffer[ptr..] == mem[ptr..];
        }
      }
      stop := r;
    }

    /** One turn of the parse loop. */
    lemma {:induction false} DrainTurn(mem: string, ptr: nat, used: nat, parsed: seq<Reply>, reply: Reply, length: nat)
      requires ptr + used <= |mem| && Resp.Parse(mem[ptr..], used, 0, guarded) == Done(reply, length)
      ensures 0 < length <= used
      ensures var all, more := Drain(mem[ptr..], used, guarded).Before(parsed), parsed + [reply];
              if length == used then all == Drained(more, 0, Incomplete)
              else
                var r := Resp.Parse(mem[ptr + length..], used - length, 0, guarded);
                && Drain(mem[ptr + length..], used - length, guarded).Before(more) == all
                && (!r.Done? ==> all == Drained(more, used - length, r))
    {
      hide Resp.Parse, Drain;
      DrainDone(mem[ptr..], used, guarded, reply, length);
      if length < used {
        var behind := mem[ptr + length..];
        assert behind == mem[ptr..][length..];
        BeforeTwiceDrained(Drain(behind, used - length, guarded), parsed, [reply]);
        if !Resp.Parse(behind, used - length, 0, guarded).Done? {
          DrainStop(behind, used - length, guarded);
        }
      }
    }

    /** memmove of the unparsed chars. */
    method MoveToFront(ptr: nat)
      requires ptr + usedBytes <= buffer.Length
      modifies buffer
      ensures buffer[..] == old(buffer[ptr..ptr + usedBytes] + buffer[usedBytes..])
    {
      forall i | 0 <= i < usedBytes {
        buffer[i] := buffer[ptr + i];
      }
    }

    lemma {:induction false} BeforeTwiceDrained(d: Drained, a: seq<Reply>, b: seq<Reply>)
      ensures d.Before(b).Before(a) == d.Before(a + b)
    {
      assert a + (b + d.replies) == a + b + d.replies;
    }

    // ---- reads ----

    /**
     Whether a read of this chunk does not meet the missing bounds test: it does if the
     chars end where an element would start with a stray char, or none, behind them.
     */
    predicate Calm(chunk: string)
      reads this, buffer
      requires Valid() && usedBytes + |chunk| <= buffer.Length
    {
      var used := usedBytes + |chunk|;
      var mem := Unparsed() + chunk + buffer[used..];
      !(DrainStarves(mem, used) && StrayNext(mem, used))
    }

    /** Why the parse loop stops when this chunk is read. */
    function StopOf(chunk: string): Outcome<Reply>
      reads this, buffer
      requires Valid() && usedBytes + |chunk| <= buffer.Length
    {
      if guarded || Calm(chunk) then Decode(Unparsed() + chunk).stop
      else if usedBytes + |chunk| == buffer.Length then Undefined
      else ParseError
    }

    /** Only a loop that should wait for more is stopped by a stray char. */
    lemma {:induction false} OnlyWaitingStops(chunk: string)
      requires Valid() && usedBytes + |chunk| <= buffer.Length
      ensures Calm(chunk) || Decode(Unparsed() + chunk).stop.Incomplete?
      ensures StopOf(chunk) == Decode(Unparsed() + chunk).stop
           || (!guarded && !Calm(chunk) && (StopOf(chunk).ParseError? || StopOf(chunk).Undefined?))
      ensures var used := usedBytes + |chunk|;
              StopOf(chunk) == Drain(Unparsed() + chunk + buffer[used..], used, guarded).stop
    {
      hide Drain, Decode, DrainStarves, StrayNext;
      var used := usedBytes + |chunk|;
      var mem := Unparsed() + chunk + buffer[used..];
      assert mem[..used] == Unparsed() + chunk;
      DrainMeans(mem, used, false);
      DrainMeans(mem, used, guarded);
    }

    /** One read, in terms of the memory: the socket fills the buffer and on_read is called. */
    method FillAndRead(chunk: string, hasCallback: bool) returns (delivered: seq<Reply>, stop: Outcome<Reply>)
      requires Valid() && usedBytes + |chunk| <= buffer.Length
      modifies this`usedBytes, buffer
      ensures var used := old(usedBytes) + |chunk|;
              var mem := old(Unparsed()) + chunk + old(buffer[used..]);
              var d := Drain(mem, used, guarded);
              && delivered == (if hasCallback then d.replies else [])
              && stop == d.stop && usedBytes == d.left
              && Unparsed() == if stop.Incomplete? then mem[used - d.left..used] else mem[..d.left]
    {
      hide Drain;
      ghost var used := usedBytes + |chunk|;
      ghost var mem := Unparsed() + chunk + buffer[used..];
      Fill(chunk);
      assert buffer[..] == mem;
      delivered, stop := OnRead(|chunk|, hasCallback);
      assert Unparsed() == buffer[..][..usedBytes];
    }

    /**
     One read. What is delivered and how much is left never depends on the bounds test,
     only why the loop stops. A failure leaves the old chars standing at the front.
     */
    method ReadChunk(chunk: string, hasCallback: bool) returns (delivered: seq<Reply>, stop: Outcome<Reply>)
      requires Valid() && usedBytes + |chunk| <= buffer.Length
      modifies this`usedBytes, buffer
      ensures Valid()
      ensures var whole := old(Unparsed()) + chunk;
              var d := Decode(whole);
              && delivered == (if hasCallback then d.replies else [])
              && usedBytes == |d.rest| <= |whole|
              && Unparsed() == if stop.Incomplete? then d.rest else whole[..|d.rest|]
      ensures stop == old(StopOf(chunk))
      ensures stop.Incomplete? || old(usedBytes) + |chunk| == 0 || usedBytes > 0
    {
      hide Drain, Decode, Calm, StopOf;
      OnlyWaitingStops(chunk);
      ReadMeans(Unparsed() + chunk + buffer[usedBytes + |chunk|..], Unparsed() + chunk);
      delivered, stop := FillAndRead(chunk, hasCallback);
    }

    /** What one call of on_read makes of the memory, in terms of the received chars. */
    lemma {:induction false} ReadMeans(mem: string, whole: string)
      requires whole <= mem
      ensures var used := |whole|;
              var d, e := Decode(whole), Drain(mem, used, guarded);
              && e.replies == d.replies && e.left == |d.rest| <= used
              && mem[used - e.left..used] == d.rest && mem[..e.left] == whole[..e.left]
              && (e.stop.Incomplete? || used == 0 || e.left > 0)
    {
      hide Drain, Decode, DrainStarves, StrayNext;
      var used := |whole|;
      assert mem[..used] == whole;
      DrainMeans(mem, used, guarded);
      var left := Drain(mem, used, guarded).left;
      assert mem[..left] == whole[..left];
    }

    /**
     A connection's reads. The k-th one takes up to sizes[k] chars, as many as are
     there and fit. Whatever the sizes, what has been received decodes to what has
     been delivered and what is left at the front of the buffer. The program without
     the bounds test delivers the same, but fails at the first read that is not calm.
     */
    method ReceiveAll(stream: string, sizes: seq<nat>)
      returns (received: string, delivered: seq<Reply>, stop: Outcome<Reply>, calm: bool)
      requires Valid() && usedBytes == 0
      modifies this`usedBytes, buffer
      ensures Valid() && received <= stream
      ensures delivered == Decode(received).replies
      ensures stop == Decode(received).stop
           || (!calm && !guarded && Decode(received).stop.Incomplete? && (stop.ParseError? || stop.Undefined?))
      ensures stop.Incomplete? ==> Unparsed() == Decode(received).rest
      ensures stop.Incomplete? && Eager(sizes, |stream|) ==> received == stream || usedBytes == buffer.Length
    {
      hide Resp.Parse, Decode, Calm;
      received, delivered, stop, calm := [], [], Incomplete, true;
      EmptyIsIncomplete();
      DecodeStop([]);
      var k := 0;
      while k < |sizes| && stop.Incomplete? && |received| < |stream|
        invariant Valid() && received <= stream && k <= |sizes|
        invariant delivered == Decode(received).replies
        invariant stop == Decode(received).stop
               || (!calm && !guarded && Decode(received).stop.Incomplete? && (stop.ParseError? || stop.Undefined?))
        invariant stop.Incomplete? ==> Unparsed() == Decode(received).rest
        invariant stop.Incomplete? && Eager(sizes, |stream|) ==>
                    k <= |received| || received == stream || usedBytes == buffer.Length
        decreases |sizes| - k
      {
        var ptr, room := Buffer();
        var there := |stream| - |received|;
        var n := if sizes[k] <= room then sizes[k] else room;
        n := if n <= there then n else there;
        var chunk := stream[|received|..|received| + n];
        calm := Calm(chunk);
        var replies;
        OnlyWaitingStops(chunk);
        replies, stop := ReadChunk(chunk, true);
        DecodeAppend(received, chunk);
        assert chunk == [] ==> received + chunk == received;
        received := received + chunk;
        delivered := delivered + replies;
        k := k + 1;
      }
    }

    /** Enough reads to take all of a stream, each of at least one char. */
    ghost predicate Eager(sizes: seq<nat>, n: nat) {
      |sizes| >= n && forall i :: 0 <= i < |sizes| ==> sizes[i] > 0
    }

    /**
     Any cut of any replies that fit the buffer one by one: all of them are delivered,
     in order. Where the program meets a read that is not calm it has delivered the
     first ones, in order, and nothing else.
     */
    method ReceiveReplies(ghost ws: seq<Wire>, stream: string, sizes: seq<nat>)
      returns (delivered: seq<Reply>, stop: Outcome<Reply>, calm: bool)
      requires Valid() && usedBytes == 0 && buffer.Length > 0
      requires AllWellFormed(ws) && stream == EncodeAll(ws) && Eager(sizes, |stream|)
      requires forall i :: 0 <= i < |ws| ==> |Encode(ws[i])| <= buffer.Length
      modifies this`usedBytes, buffer
      ensures delivered <= ToReplies(ws)
      ensures guarded || calm ==> stop.Incomplete? && delivered == ToReplies(ws) && usedBytes == 0
      ensures !stop.Incomplete? ==> stop.ParseError? || stop.Undefined?
    {
      hide Resp.Parse, Decode, WellFormed, Encode, EncodeAll, ToReplies;
      var received;
      received, delivered, stop, calm := ReceiveAll(stream, sizes);
      SingleChunk(received);
      ReceiveProgress(ws, [received], buffer.Length);
      ChunkIndependence([received]);
      if guarded || calm {
        assert received == stream;
        DecodeWhole(ws);
      }
    }

    lemma {:induction false} SingleChunk(s: string)
      ensures Concat([s]) == s
    {
      assert Concat([s]) == Concat([]) + s;
    }
  }
}
