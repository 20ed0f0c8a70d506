/** How execute writes a command, and how a server reads it back. */
module Commands {
  import opened Numerals
  import opened Resp
  import opened Stream

  function Bulks(args: seq<string>): (ws: seq<Wire>)
    ensures |ws| == |args| && forall i :: 0 <= i < |args| ==> ws[i] == Bulk(args[i])
  {
    if args == [] then [] else [Bulk(args[0])] + Bulks(args[1..])
  }

  /** A command is an array of bulk strings. */
  function CommandWire(args: seq<string>): Wire {
    Items(Bulks(args))
  }

  function CommandList(commands: seq<seq<string>>): (ws: seq<Wire>)
    ensures |ws| == |commands| && forall i :: 0 <= i < |ws| ==> ws[i] == CommandWire(commands[i])
  {
    if commands == [] then [] else [CommandWire(commands[0])] + CommandList(commands[1..])
  }

  /** The header and the arguments, appended one by one to the string that will be sent. */
  method BuildMessage(args: seq<string>) returns (message: string)
    requires args != []
    ensures message == Encode(CommandWire(args))
  {
    message := "*" + ToText(|args|) + "\r\n";
    message := AppendBulkStrings(message, args);
  }

  /** The bytes of commands of one and of two short words. */
  lemma {:induction false} CommandBytes(a: string, b: string)
    requires |a| < 10 && |b| < 10
    ensures Encode(CommandWire([a])) == "*1\r\n" + (['$', "0123456789"[|a|], '\r', '\n'] + a + "\r\n")
    ensures Encode(CommandWire([a, b])) ==
              "*2\r\n" + ((['$', "0123456789"[|a|], '\r', '\n'] + a + "\r\n")
                         + (['$', "0123456789"[|b|], '\r', '\n'] + b + "\r\n"))
  {
    hide EncodeAll, Bulks;
    BulkBytes(a);
    BulkBytes(b);
    assert Bulks([a]) == [Bulk(a)] && Bulks([a, b]) == [Bulk(a)] + [Bulk(b)];
    EncodeAllSum([Bulk(a)], [Bulk(b)]);
    ItemsBytes([Bulk(a)], "1");
    ItemsBytes([Bulk(a)] + [Bulk(b)], "2");
  }

  lemma {:induction false} ItemsBytes(ws: seq<Wire>, count: string)
    requires |ws| < 10 && count == ["0123456789"[|ws|]]
    ensures Encode(Items(ws)) == "*" + count + "\r\n" + EncodeAll(ws)
  {
    hide EncodeAll;
    assert Decimal(|ws|) == ["0123456789"[|ws|]];
  }

  lemma {:induction false} BulkBytes(s: string)
    requires |s| < 10
    ensures EncodeAll([Bulk(s)]) == ['$', "0123456789"[|s|], '\r', '\n'] + s + "\r\n"
  {
    assert EncodeAll([Bulk(s)]) == Encode(Bulk(s)) + EncodeAll([Bulk(s)][1..]);
    assert Decimal(|s|) == ["0123456789"[|s|]];
  }

  method AppendBulkStrings(target: string, args: seq<string>) returns (message: string)
    requires args != []
    ensures message == target + EncodeAll(Bulks(args))
    decreases |args|
  {
    var t := args[0];
    var part := "$" + ToText(|t|) + "\r\n" + t + "\r\n";
    message := target + part;
    assert part == Encode(Bulk(t));
    if |args| == 1 {
      assert Bulks(args)[1..] == [];
      assert EncodeAll(Bulks(args)) == part + [];
    } else {
      message := AppendBulkStrings(message, args[1..]);
      assert target + part + EncodeAll(Bulks(args[1..])) == target + (part + EncodeAll(Bulks(args[1..])));
    }
  }

  /** The messages are the commands, written by execute one after the other. */
  ghost predicate AreMessages(messages: seq<string>, commands: seq<seq<string>>) {
    |messages| == |commands| && forall i :: 0 <= i < |messages| ==> messages[i] == Encode(CommandWire(commands[i]))
  }

  /** What fits the send buffer is small enough for every length in it. */
  lemma {:induction false} BulksLength(args: seq<string>)
    ensures |args| <= |EncodeAll(Bulks(args))|
    ensures forall i :: 0 <= i < |args| ==> |args[i]| <= |EncodeAll(Bulks(args))|
  {
    if args != [] {
      BulksLength(args[1..]);
      assert |Encode(Bulk(args[0]))| > |args[0]|;
      assert forall i :: 1 <= i < |args| ==> args[i] == args[1..][i - 1];
    }
  }

  // ---- the server's side ----

  datatype Parsed = Args(args: seq<string>) | NotACommand

  /** The arguments of a request that has been parsed. */
  function ArgsOf(r: Reply): Parsed {
    if r.Array? && forall i :: 0 <= i < |r.elements| ==> r.elements[i].Str? then Args(Texts(r.elements)) else NotACommand
  }

  function Texts(rs: seq<Reply>): (texts: seq<string>)
    requires forall i :: 0 <= i < |rs| ==> rs[i].Str?
    ensures |texts| == |rs| && forall i :: 0 <= i < |rs| ==> texts[i] == rs[i].str
  {
    if rs == [] then [] else [rs[0].str] + Texts(rs[1..])
  }

  function Requests(rs: seq<Reply>): (ps: seq<Parsed>)
    ensures |ps| == |rs| && forall i :: 0 <= i < |rs| ==> ps[i] == ArgsOf(rs[i])
  {
    if rs == [] then [] else [ArgsOf(rs[0])] + Requests(rs[1..])
  }

  ghost predicate Sendable(commands: seq<seq<string>>) {
    forall i :: 0 <= i < |commands| ==>
      |commands[i]| < COUNTER_LIMIT && forall j :: 0 <= j < |commands[i]| ==> |commands[i][j]| <= INT64_MAX
  }

  lemma {:induction false} RepliesAt(ws: seq<Wire>, i: nat)
    requires i < |ws|
    ensures ToReplies(ws)[i] == ToReply(ws[i])
  {
    if i > 0 {
      RepliesAt(ws[1..], i - 1);
    }
  }

  lemma {:induction false} CommandComesBack(args: seq<string>)
    ensures ArgsOf(ToReply(CommandWire(args))) == Args(args)
  {
    var rs := ToReplies(Bulks(args));
    forall i | 0 <= i < |args| ensures rs[i] == Str(args[i]) {
      RepliesAt(Bulks(args), i);
    }
    assert Texts(rs) == args;
  }

  lemma {:induction false} CommandsWellFormed(commands: seq<seq<string>>)
    requires Sendable(commands)
    ensures AllWellFormed(CommandList(commands))
  {
  }

  /**
   A server that decodes what has arrived of pipelined commands gets the first of
   them, each with exactly its arguments, whatever chars these hold; once all has
   arrived it has all of them and nothing is left over.
   */
  lemma {:induction false} CommandsComeBack(commands: seq<seq<string>>, wire: string) returns (k: nat)
    requires Sendable(commands) && wire <= EncodeAll(CommandList(commands))
    ensures k <= |commands|
    ensures var d := Decode(wire);
            && d.stop == Incomplete && |d.replies| == k
            && forall i :: 0 <= i < k ==> Requests(d.replies)[i] == Args(commands[i])
    ensures wire == EncodeAll(CommandList(commands)) ==> k == |commands| && Decode(wire).rest == []
  {
    hide Parse, Decode, Encode, EncodeAll, WellFormed, ToReplies, ToReply, ArgsOf;
    var ws := CommandList(commands);
    CommandsWellFormed(commands);
    k := DecodeArriving(ws, wire);
    if wire == EncodeAll(ws) {
      DecodeWhole(ws);
      assert |ToReplies(ws)[..k]| == |ToReplies(ws)|;
    }
    forall i | 0 <= i < k ensures ArgsOf(Decode(wire).replies[i]) == Args(commands[i]) {
      RepliesAt(ws, i);
      CommandComesBack(commands[i]);
    }
  }
}
