# wiredis in Dafny

wiredis is an asynchronous Redis client. This project models its four cores and
proves what a user of the client relies on: replies are decoded the same way
however TCP cuts the stream, commands reach the server exactly as they were given,
each reply goes to the callback of its own command, pushed messages go to the
subscription they name, and a connection is written to by one activity at a time.

## How it is laid out

| file | content |
|---|---|
| `Numerals.dfy` | `std::to_string` and the digit accumulator of `get_integer`, with the int64 range made explicit |
| `Resp.dfy` | the recursive reply parser as a function of the memory it reads; the values a server may send and their encoding |
| `RespStability.dfy` | what more input can change; what the missing bounds test can change; how many chars a reply takes |
| `RespRoundTrip.dfy` | encoded replies come back, no proper prefix is mistaken for anything, and what becomes of lengths that are none |
| `Malformed.dfy` | what becomes of input that no server sends; the bytes of the formats |
| `Stream.dfy` | a whole byte stream decoded at once and cut up by reads |
| `ReplyParser.dfy` | the parser class: buffer, parse functions in place, `on_read` with its compaction |
| `NextConnection.dfy` | what one connection leaves in the parser for the next one |
| `Tcp.dfy`, `TcpConnection.dfy` | the connection as a machine over its handlers and user threads; the class whose methods are its steps |
| `TcpProperties.dfy` | send budget, single writer, wire fidelity, finality of a user's disconnect, auto reconnect |
| `TcpSchedules.dfy` | handlers and timers that outlive their connection; what brings a connection up again and gets the queue out |
| `Commands.dfy` | the command serializer and its inverse on the server |
| `Router.dfy`, `RedisConnection.dfy` | the callback queue and the pub/sub router; the client class |
| `ReplyCases.dfy` | every kind of reply, well-formed or not, and what the client calls for it |
| `RouterProperties.dfy` | positional matching, erasing pushes, the callback ledger, the mode invariant |
| `PubSub.dfy`, `PubSubProperties.dfy` | client, command pipe, in-order server and reply pipe as one system |
| `PubSubBytes.dfy` | the same system with the reply pipe as bytes, and the proof that it refines the other |
| `WholeClient.dfy` | router, connection and parser as one machine over the user's calls and the handlers |
| `Subscriptions.dfy` | which subscriptions the whole client holds |
| `Accounts.dfy` | what becomes of every command, and where every delivery comes from |
| `LeftoverCallbacks.dfy` | which losses leave callbacks in the queue, and how long they stay |
| `Conversation.dfy` | one connection of the whole client and its server, bytes both ways |
| `ClientRun.dfy` | runs of the objects over any schedule of calls and handlers, step by step those of the machine |
| `EndToEnd.dfy` | commands to the server and answers to their callbacks, over whole runs |

Conventions. A C++ `char` is a Dafny `char` whose low eight bits count, and
`std::string` is `string`. A parse function returns an `Outcome`: `Done`,
`Incomplete` (the index 0 of the program), `ParseError` (the exception the
connection handles), `LengthError` (`std::length_error`, which it does not handle),
or `Undefined` (signed overflow, or a read outside the chars handed to the parser).
Calls into Boost.Asio are recorded in `Tcp.Io`; their completions are events that
may come in any order that `Tcp.Enabled` allows, which includes the orders that one
io_service thread can have. Runs that are claimed to exist are such orders
(`TcpSchedules.Serial`). Calls of user callbacks are recorded in `Router.Client.calls`.

The program reads the type char of a reply without testing that it has been
received. `guarded` is false for the program as it is, and true for the same program
with that test. `RespStability.GuardMatters` and `Stream.DrainAsWritten` say exactly
when the two differ and how: the same replies are delivered and the same chars are
left, but a loop that should wait for more fails instead. `ReplyParser.Parser.Calm` is
the condition, and `StopOf` the outcome of every read of the program as it is.

## Findings

Each is proved, as a witness together with the exact condition where there is one.

- A chunk that ends between two elements of an array makes the parser look at the
  next char of the buffer, which has not been received: unless a stale type char
  happens to stand there, the connection fails (`StaleCharWitness`, `GuardMatters`).
- The integer reply -2^63 overflows on the way, as does every number outside int64; every
  other int64 comes back (`IntegerReply`).
- A length below -1 is never rejected as such: arrays end in an exception nobody
  handles, as do arrays longer than a vector can be (`BadArrayLength`), bulk strings in
  one of four ways that depend on the length and on where in the buffer the header
  stands (`NegativeBulkLength`): the same -8 waits for ever at the front of the buffer
  and is a parse error inside an array (`NegativeBulkLengthInFront`, `NegativeBulkLengthInArray`).
- No reply longer than the buffer of 10240 chars is ever delivered; the longest
  bulk string that is has 10230 chars (`DeliverableIff`, `LongestBulk`).
- The parser is not emptied between connections. The next one is decoded as its server
  sends it if and only if the count of used bytes is 0 (`StartsCleanIff`,
  `ParserStartsCleanIff`), which it never is after a parse error (`FailureNeverClean`, and
  `ReadChunk` for the program as it is).
  What a lost connection leaves may swallow the first reply of the next one
  (`LeftoverSwallowsReply`), and after a parse error a reply that has been delivered is
  delivered again on the next connection, exactly if as many chars were left unparsed as
  that reply took (`DeliveredAgain`, `StrayTailRepeats`).
- A loss leaves callbacks in the queue if and only if some wait and no read, write or
  parse loop has failed: a disconnect or a second connect by the user, a late timer, a
  failed connect, a subscribe refused by the full buffer, a reply that the router rejects
  (`LossLeavesCallbacks`, `RefusedSubscribeLeaves`). They stay over later connects
  (`CallbacksStay`), and the next connection starts sound if and only if there are none:
  otherwise its first answer goes to one of them (`StartIff`, `LeftoverGetsTheAnswer`).
- A handler left over from before a connect, such as the `try_to_send` of a message that
  was queued while connecting, becomes a second writer. From the initial state on it can
  send the start of a message twice (`LeftoverDispatchSendsTwice`); a connect that
  completes leads to such damage or to an access to an empty list, in some run, if and
  only if such a handler is left (`ConnectNeedsQuiet`).
- The handler of a reconnect timer takes down a connection that the user has made
  meanwhile, whether the timer expired before that connect or was merely armed and
  expires after it (`ConnectedBeforeIsReached`, `StaleTimerWitness`). It does so by
  opening a socket that is open; no connect or timer is then under way (`AliveStep`). A
  later loss of the old socket, which is still open, revives it (`LossRevives`).
- An unsubscribe on a connection that is down calls an empty function; one that
  meets a full send buffer is lost without a trace. A subscribe that cannot be sent
  stays registered and has the client reconnect (`UnsubscribeUnsent`, `SubscribeUnsent`).
- The acknowledgement of a second unsubscribe makes the client reconnect
  (`SecondAcknowledgement`, `ReconnectIff`).

## Model

| member | source | states |
|---|---|---|
| Numerals.PrefixValue | include/wiredis/proto/redis.h:271-278 | on the digits of any number within int64 every intermediate accumulator is between 0 and the number |
| Numerals.AccumulateDecimal | include/wiredis/proto/redis.h:271-278 | the digits of n accumulate to n exactly up to 2^63-1, and overflow from there on |
| Resp.FindLF | include/wiredis/proto/redis.h:144-147 | the scan stops at the first line feed, or at the end of the received chars |
| Resp.Parse | include/wiredis/proto/redis.h:103-129 | for any chars the recursion ends, and a success moves strictly forward and stays within the received chars, so 0 is free to mean incomplete |
| RespStability.ReplyTakesThree | include/wiredis/proto/redis.h:132-253 | every reply that is parsed takes at least three chars |
| RespStability.ElementsTakeThree | include/wiredis/proto/redis.h:239-252 | the element loop collects exactly the announced number, at most one for three chars, so its 32-bit counter cannot wrap on fewer than 3 * 2^32 chars |
| RespStability.ParseStable | include/wiredis/proto/redis.h:103-253 | extension stability: a verdict other than incomplete is the same for every extension of the input |
| RespStability.GuardedReadsOnlyReceived | include/wiredis/proto/redis.h:103-253 | with the bounds test the verdict does not depend on what lies behind the received chars |
| RespStability.GuardMatters | include/wiredis/proto/redis.h:103-129 | the program agrees with the guarded parser if and only if the chars do not stop where an element would start with a stray char behind; otherwise it fails |
| RespStability.GuardUnneededWhenComplete | include/wiredis/proto/redis.h:103-253 | a complete reply, or a failure, is found without the bounds test |
| RespStability.StarvedIsIncomplete | include/wiredis/proto/redis.h:243-251 | chars that stop between elements are incomplete for the guarded parser |
| RespStability.StaleCharWitness | include/wiredis/proto/redis.h:243-251 | the header of an array alone: incomplete if guarded, a parse error or an undefined read in the program |
| RespRoundTrip.GetIntegerArriving | include/wiredis/proto/redis.h:256-293 | the header of any number reads as that number once it has arrived whole if its magnitude is at most 2^63-1, and overflows otherwise; before that, such a number is incomplete |
| RespRoundTrip.IntegerReply | include/wiredis/proto/redis.h:173-185 | of all integers exactly those from -(2^63-1) to 2^63-1 are delivered as sent; exactly the others overflow |
| RespRoundTrip.ParseEncoded | include/wiredis/proto/redis.h:103-253 | for every nested reply and every part of its encoding that has come: incomplete, or exactly the reply and its length |
| RespRoundTrip.RoundTrip | include/wiredis/proto/redis.h:83-253 | encode then parse gives the reply and consumes its encoding, whatever follows, also without the bounds test |
| RespRoundTrip.PrefixVerdict | include/wiredis/proto/redis.h:132-253 | every proper prefix of an encoding is incomplete |
| RespRoundTrip.PrefixFree | include/wiredis/proto/redis.h:132-253 | no encoding is a proper prefix of another; equal encodings mean equal replies |
| RespRoundTrip.BadArrayLength | include/wiredis/proto/redis.h:232-241 | an array length below -1, or above that of the longest vector, ends in the length error at any depth |
| RespRoundTrip.NegativeBulkLength | include/wiredis/proto/redis.h:198-217 | at any depth a bulk length below -1 is for ever incomplete, an undefined read, a length error or a parse error, by where the sum of index and length points and what stands there |
| RespRoundTrip.NegativeBulkLengthInFront | include/wiredis/proto/redis.h:198-217 | at the front of the buffer the length alone decides which of the four it is |
| RespRoundTrip.NegativeBulkLengthInArray | include/wiredis/proto/redis.h:198-217 | -8 inside an array is a parse error, unlike -8 in front |
| Malformed.AccumulateIsPositional | include/wiredis/proto/redis.h:271-278 | the digit loop computes the positional value of whatever chars, carriage returns left out |
| Malformed.OverflowIff | include/wiredis/proto/redis.h:271-278 | it overflows if and only if the value of some prefix, or ten times the one before, is beyond int64 |
| Malformed.DecimalIsPositional | include/wiredis/redis-connection.h:133-134 | what is written of a number are digits of that value, without a leading zero |
| Malformed.NumberEnds | include/wiredis/proto/redis.h:256-293 | a number whose line feed has come, of any chars: overflow, an error without a carriage return, or the value |
| Malformed.ShortIsIncomplete | include/wiredis/proto/redis.h:136-263 | fewer chars than the shortest form takes are waited for, a line feed among them or not |
| Malformed.OpenIsIncomplete | include/wiredis/proto/redis.h:144-283 | without a line feed a line, a number or a length is waited for, unless it overflows |
| Malformed.UnknownMark | include/wiredis/proto/redis.h:103-129 | a char that opens no reply is a parse error |
| Malformed.LineEnds | include/wiredis/proto/redis.h:132-170 | a line is taken if and only if a carriage return stands before its first line feed, otherwise it is a parse error |
| Malformed.TextEnds | include/wiredis/proto/redis.h:188-220 | a bulk string is taken if and only if a line end follows its text, otherwise it is a parse error once that has come |
| Malformed.ArrayEndsWithElement | include/wiredis/proto/redis.h:239-252 | an array ends as its first element does that is no reply, after any replies before it |
| Malformed.Formats | include/wiredis/proto/redis.h:103-253 | the bytes of every kind of reply |
| Stream.DecodeAppend | include/wiredis/proto/base.h:59-90 | decoding a stream is decoding its first part and going on from what that leaves, up to the first failure |
| Stream.ChunkIndependence | include/wiredis/proto/base.h:59-90 | for every cut of every stream: same replies, same reason to stop, and what is left is the end of the stream |
| Stream.ChunkIndependenceOfCut | include/wiredis/proto/base.h:59-90 | two cuts of one stream deliver the same |
| Stream.DrainIsDecode | include/wiredis/proto/base.h:61-81 | the parse loop over the buffer decodes exactly the received chars |
| Stream.DrainAsWritten | include/wiredis/proto/base.h:61-81 | the loop as written does this if and only if it does not starve before a stray char; if it does, it delivers the same and fails where it should wait |
| Stream.DecodeArriving | include/wiredis/proto/base.h:65-87 | a partly received sequence of replies is the whole ones, which are delivered, and the rest, a proper prefix of the next one |
| Stream.ServerStream | include/wiredis/proto/base.h:59-90 | any replies, cut in any way, are all delivered in order with nothing left over |
| Stream.ReceiveProgress | include/wiredis/proto/base.h:81-98 | if no encoding is longer than the buffer, there is always room for the next read |
| Stream.DeliverableIff | include/wiredis/proto/base.h:93-98 | a reply can be delivered if and only if its encoding fits the buffer |
| Stream.LongestBulk | include/wiredis/redis-connection.h:49-55 | with 10240 chars a bulk string is deliverable if and only if it has at most 10230 |
| NextConnection.StartsCleanIff | include/wiredis/tcp-connection.h:257-263 | with any chars in front: the replies of every server on the next connection are delivered as sent if and only if there are none |
| NextConnection.ParserStartsCleanIff | include/wiredis/tcp-connection.h:257-263 | for the parser object: if and only if it counts no used bytes |
| NextConnection.FailureNeverClean | include/wiredis/proto/base.h:65-87 | after a failure the parser never starts clean |
| NextConnection.LeftoverSwallowsReply | include/wiredis/tcp-connection.h:257-263 | a leftover array header turns the next connection's first reply into its element |
| NextConnection.DeliveredAgain | include/wiredis/proto/base.h:65-87 | of a stream that fails after a reply, what stays in front holds that reply again if and only if as many chars were left as it took; then the next connection begins with it |
| NextConnection.StrayTailRepeats | include/wiredis/proto/base.h:65-87 | any reply followed by as many chars that open none is delivered, and comes first again on every next connection |
| ReplyParser.Parser.GetInteger | include/wiredis/proto/redis.h:256-293 | the in-place function computes the specified verdict and number |
| ReplyParser.Parser.ParseSimpleString | include/wiredis/proto/redis.h:132-163 | likewise for status and error lines |
| ReplyParser.Parser.ParseBulkString | include/wiredis/proto/redis.h:188-220 | likewise for bulk strings, with the unsigned sum of index and length |
| ReplyParser.Parser.ParseArray | include/wiredis/proto/redis.h:223-253 | likewise for arrays, element by element |
| ReplyParser.Parser.Parse | include/wiredis/proto/redis.h:103-129 | likewise for the dispatch on the type char |
| ReplyParser.Parser.Buffer | include/wiredis/proto/base.h:93-98 | the free region sits right behind the unparsed chars and reaches to the end of the buffer |
| ReplyParser.Parser.OnRead | include/wiredis/proto/base.h:59-90 | delivers what the loop finds; waiting for more moves the unparsed chars to the front, a failure leaves them where they are |
| ReplyParser.Parser.OnlyWaitingStops | include/wiredis/proto/base.h:65-81 | a read that the missing bounds test disturbs is one that should have waited for more |
| ReplyParser.Parser.ReadChunk | include/wiredis/proto/base.h:59-90 | one read of the program as it is or of the guarded one, calm or not: it delivers what the unparsed chars and the chunk decode to, stops as `StopOf` says, and leaves the rest in front, or after a failure as many old chars, at least one |
| ReplyParser.Parser.ReceiveAll | include/wiredis/proto/base.h:59-98 | over any schedule of reads, calm or not: the delivered replies are the decoding of what has been received, reading stops for the same reason or fails where it should wait, and it stalls only on a full buffer |
| ReplyParser.Parser.ReceiveReplies | include/wiredis/proto/base.h:59-98 | of replies that each fit the buffer the first ones are delivered, however they are cut; all of them unless the program meets a read that is not calm |
| TcpConnection.Connection.Connect | include/wiredis/tcp-connection.h:218-242 | the new state is the machine's step for a connect by the user |
| TcpConnection.Connection.Disconnect | include/wiredis/tcp-connection.h:93-105 | likewise for a disconnect by the user |
| TcpConnection.Connection.CloseSocket | include/wiredis/tcp-connection.h:331-347 | closes the socket; only the user's disconnect changes the administrative state |
| TcpConnection.Connection.Reconnect | include/wiredis/tcp-connection.h:150-160 | closes the socket and arms the timer if reconnecting is wanted |
| TcpConnection.Connection.OnTimer | include/wiredis/tcp-connection.h:160-182 | starts a connect unless the user has disconnected meanwhile |
| TcpConnection.Connection.TimerExpired | include/wiredis/tcp-connection.h:159-166 | an armed timer becomes one waiting handler |
| TcpConnection.Connection.SendLocked | include/wiredis/tcp-connection.h:189-202 | accepts a message exactly within the limit and reports whether the queue was empty |
| TcpConnection.Connection.Send | include/wiredis/tcp-connection.h:187-211 | append and, for the sender that found the queue empty, the dispatch |
| TcpConnection.Connection.DispatchSend | include/wiredis/tcp-connection.h:204-210 | a sender that found the queue empty becomes one call of `try_to_send` |
| TcpConnection.Connection.TryToSend | include/wiredis/tcp-connection.h:273-289 | starts one write of the rest of the front message when connected |
| TcpConnection.Connection.OnWrite | include/wiredis/tcp-connection.h:289-327 | partial write, complete write, error and late completion as the machine's steps |
| TcpConnection.Connection.OnConnect | include/wiredis/tcp-connection.h:243-269 | failure reconnects; success drops everything queued before |
| TcpConnection.Connection.OnRead | include/wiredis/tcp-connection.h:350-385 | aborted, broken and received reads, calm or not: what is delivered, what stands in front, and whether it reads on, reconnects, or lets an exception escape and reads no more |
| TcpConnection.Connection.Handle | include/wiredis/tcp-connection.h:187-347 | every event of the machine has its code, and the code makes the machine's step |
| TcpProperties.StepKeeps | include/wiredis/tcp-connection.h:187-347 | every event keeps budget, single writer and wire fidelity |
| TcpProperties.SendBudget | include/wiredis/tcp-connection.h:191-201 | over every run, timely or not: the counter is the sum of the queued lengths within 10485760, a message is appended if and only if it stays within it, and a rejected one changes nothing; in a timely run no handler meets an empty list or a counter that is too small |
| TcpProperties.OneWriter | include/wiredis/tcp-connection.h:187-211 | in every reachable connected state exactly one activity works on a queue that is not empty and none on an empty one |
| TcpProperties.WireFidelity | include/wiredis/tcp-connection.h:273-328 | for every schedule of short writes the wire is the sent messages and a part of the front one, a prefix of what was accepted; with nothing left to run it is all of it |
| TcpSchedules.ConnectNeedsQuiet | include/wiredis/tcp-connection.h:257-259 | after a connect that completes, a run with one thread for the handlers and timely connects from there on can access an empty list or write something else than the accepted messages if and only if a handler of an earlier connection is left |
| TcpSchedules.LeftoverDispatchSendsTwice | include/wiredis/tcp-connection.h:257-309 | a run from the initial state, each handler run to its end by one thread, after which the wire holds the first char of a message twice |
| TcpProperties.DisconnectIsFinal | include/wiredis/tcp-connection.h:93-105 | after the user's disconnect, over every run without a connect by the user: not connected, no attempt, no callback |
| TcpProperties.DisconnectReleases | include/wiredis/tcp-connection.h:93-105 | after a disconnect by the user, whatever it finds, the socket is closed, no timer is armed, and queue and handlers are as they were |
| TcpProperties.ConnectStarts | include/wiredis/tcp-connection.h:218-242 | a connect by the user starts one attempt if and only if the socket is closed |
| TcpProperties.ConnectCompletes | include/wiredis/tcp-connection.h:255-269 | a connect that completes empties the queue and is told; the connection is up if and only if the user has not disconnected |
| TcpProperties.LastConnectDecides | include/wiredis/tcp-connection.h:150-160 | over every run until the next connect by the user the client reconnects as the last one said, and a manual connection never has a timer armed anew |
| TcpProperties.LossTakesDown | include/wiredis/tcp-connection.h:150-160 | every kind of loss closes the socket, arms the timer if reconnecting is wanted, tells the user unless the client gave up itself, and keeps the queue and every handler under way |
| TcpProperties.DownIsSilent | include/wiredis/tcp-connection.h:273-296 | over every run in which no connect completes a connection that is down stays down, starts no write, adds nothing to the wire and takes nothing from the queue |
| TcpProperties.AliveStep | include/wiredis/tcp-connection.h:150-185 | a wanted connection stays up, under way or waited for, except exactly when a connect is asked for on an open socket |
| TcpProperties.AutoReconnect | include/wiredis/tcp-connection.h:150-185 | the same over every run without such a second connect |
| TcpSchedules.ConnectedBeforeIsReached | include/wiredis/tcp-connection.h:160-182 | legal serial runs from the initial state in which the timer of a failed connect expires before or after the user's own connect, and its handler waits while that is up |
| TcpSchedules.StaleTimerWitness | include/wiredis/tcp-connection.h:160-182 | that handler takes the connection down, its socket still open, with no connect or timer under way |
| TcpSchedules.LossRevives | include/wiredis/tcp-connection.h:150-160 | any loss, in any state, leaves a wanted connection waited for by the timer |
| TcpSchedules.LossRecovers | include/wiredis/tcp-connection.h:150-185 | after any loss of a wanted connection a serial run brings it up again with one attempt, the same callbacks and an empty queue, and soundly if no handler of the old one is left |
| TcpSchedules.DisconnectRecovers | include/wiredis/tcp-connection.h:93-105 | from a disconnect by the user in any state a connect brings the connection up with one attempt and an empty queue, soundly if no handler is left |
| TcpSchedules.QueueDrains | include/wiredis/tcp-connection.h:273-328 | no message is stranded: from every reachable connected state the writer alone puts everything accepted on the wire |
| Commands.BuildMessage | include/wiredis/redis-connection.h:133-134 | the message is the encoding of an array of bulk strings, one for each argument |
| Commands.AppendBulkStrings | include/wiredis/redis-connection.h:294-305 | appends the encoded arguments, in order |
| Commands.CommandBytes | include/wiredis/redis-connection.h:133-134 | the bytes of commands of one and two short words |
| Commands.CommandComesBack | include/wiredis/redis-connection.h:117-158 | a command that is parsed has exactly its arguments, for any chars in them |
| Commands.CommandsComeBack | include/wiredis/redis-connection.h:117-158 | decoding any received part of pipelined commands gives the first of them exactly, and all of them at the end |
| RedisConnection.Redis.Execute | include/wiredis/redis-connection.h:117-158 | queueing, sending, and the error reply of a command that cannot be sent |
| RedisConnection.Redis.Subscribe | include/wiredis/redis-connection.h:162-177 | refuses a key that is taken, after entering pub/sub mode; else registers it and sends |
| RedisConnection.Redis.PSubscribe | include/wiredis/redis-connection.h:191-206 | likewise for patterns |
| RedisConnection.Redis.Unsubscribe | include/wiredis/redis-connection.h:180-188 | refuses an unknown key; else sends without a callback and keeps the key |
| RedisConnection.Redis.PUnsubscribe | include/wiredis/redis-connection.h:209-216 | likewise for patterns |
| RedisConnection.Redis.Connect | include/wiredis/redis-connection.h:69-87 | passes the connect on and leaves queue, mode and subscriptions alone |
| RedisConnection.Redis.Disconnect | include/wiredis/redis-connection.h:90-95 | the queue keeps its callbacks |
| RedisConnection.Redis.OnConnected | include/wiredis/redis-connection.h:236-245 | leaves pub/sub mode and forgets all subscriptions, but not the queue |
| RedisConnection.Redis.OnDisconnected | include/wiredis/redis-connection.h:248-270 | calls every queued callback with an error, oldest first, until the queue is empty |
| RedisConnection.Redis.OnRead | include/wiredis/redis-connection.h:273-291 | pushes bypass the queue in pub/sub mode; any other reply goes to the front callback |
| RedisConnection.Redis.CheckSubscribeCallback | include/wiredis/redis-connection.h:308-323 | recognises exactly the four push words, in any case |
| RedisConnection.Redis.OnSubscribeCallback | include/wiredis/redis-connection.h:324-469 | checks the shape of the reply, finds the key and calls its callback, or asks for a reconnect |
| ReplyCases.SpellsIsUpper | include/wiredis/redis-connection.h:314-315 | a word is recognised in any case of its letters, and only so |
| ReplyCases.PushIff | include/wiredis/redis-connection.h:308-323 | a reply bypasses the queue if and only if it announces one of the four words |
| ReplyCases.MessageReported | include/wiredis/redis-connection.h:371-393 | any message for a held key calls its change callback with key and text as they came |
| ReplyCases.PatternMessageReported | include/wiredis/redis-connection.h:417-443 | likewise for patterns, with pattern, channel and text |
| ReplyCases.EndReported | include/wiredis/redis-connection.h:394-469 | the end of a subscription calls its callback and gives exactly its key back |
| ReplyCases.RejectedIff | include/wiredis/redis-connection.h:324-469 | a reply with one of the four words makes the client reconnect if and only if it has not the shape or names no held key |
| ReplyCases.FrontCallbackGets | include/wiredis/redis-connection.h:273-291 | any other reply is given once to the callback in front, which leaves the queue |
| ReplyCases.NobodyWaits | include/wiredis/redis-connection.h:281-287 | a reply that nobody waits for makes the client reconnect |
| ReplyCases.SubscribeAnswered | include/wiredis/redis-connection.h:324-371 | a subscribe is reported if its reply acknowledges a held key; an error or another shape makes the client reconnect |
| ReplyCases.OtherWordIgnored | include/wiredis/redis-connection.h:324-469 | a reply to a subscribe with an unknown word is passed over |
| RouterProperties.PositionalMatching | include/wiredis/redis-connection.h:273-291 | the k-th reply that is not a push goes to the k-th waiting callback, for any replies |
| RouterProperties.PushesErased | include/wiredis/redis-connection.h:273-323 | leaving every push out of a run changes neither deliveries nor queue |
| RouterProperties.NotifiedInOrder | include/wiredis/redis-connection.h:259-270 | a lost connection answers every waiting command with the same error, oldest first |
| RouterProperties.ReentrantExecute | include/wiredis/redis-connection.h:288-290 | commands executed from inside a reply callback come to the same as commands executed right after it |
| RouterProperties.UnsubscribeUnsent | include/wiredis/redis-connection.h:124-157 | an unsubscribe calls an empty function if and only if the key is known and the connection down |
| RouterProperties.SubscribeUnsent | include/wiredis/redis-connection.h:162-177 | a new subscribe asks for a reconnect if and only if it cannot be sent; its key is registered either way |
| RouterProperties.CallbackLedger | include/wiredis/redis-connection.h:117-291 | in every run a callback given once is either queued once and not called, or called once and not queued; after a loss none is queued |
| RouterProperties.RouterMode | include/wiredis/redis-connection.h:162-245 | in every run subscriptions exist in pub/sub mode only, each with exactly one kind of change callback |
| PubSubProperties.ReconnectIff | include/wiredis/redis-connection.h:371-467 | a push or unsubscribe acknowledgement makes the client reconnect if and only if it does not hold the key |
| PubSubProperties.ReadKnown | include/wiredis/redis-connection.h:324-469 | for a held key exactly the callback of the right kind is called, with the right arguments, and only an unsubscribe removes the key |
| PubSubProperties.PushIsReported | include/wiredis/redis-connection.h:273-469 | on_read calls for a push or an unsubscribe acknowledgement of a held key what is due, with the item's own texts, and nothing else |
| PubSubProperties.AckIsReported | include/wiredis/redis-connection.h:350-370 | on_read calls the subscribed callback of an acknowledged key |
| PubSubProperties.StepReports | include/wiredis/redis-connection.h:117-469 | every step keeps: what has been read has been reported, in order |
| PubSubProperties.EverythingIsReported | include/wiredis/redis-connection.h:273-469 | in every reachable state the subscription calls are, in order and with their texts, those due for the items read, and these are the first the server has sent; with an empty pipe all of them |
| PubSubProperties.SecondAcknowledgement | include/wiredis/redis-connection.h:394-416 | the acknowledgement of a second unsubscribe makes the client reconnect |
| PubSubProperties.StepKeeps | include/wiredis/redis-connection.h:117-469 | every step of client and server keeps matching, agreement and mode |
| PubSubProperties.SubscriptionAgreement | include/wiredis/redis-connection.h:350-468 | in every reachable state everything under way to the client names a key it holds with the right kind; no reconnect has been asked for |
| PubSubProperties.ServedIsHeld | include/wiredis/redis-connection.h:162-216 | what the server serves the client holds; of a key it does not hold nothing is under way |
| PubSubProperties.AnswersReachTheirCommands | include/wiredis/redis-connection.h:273-323 | in every reachable state the delivered replies are the first of the server's answers, and the answers belong to the commands in the order they were sent |
| PubSubProperties.StartIff | include/wiredis/redis-connection.h:90-95 | a new connection starts sound if and only if the queue is empty |
| PubSubProperties.LeftoverGetsTheAnswer | include/wiredis/redis-connection.h:90-95 | with a leftover callback the first answer goes to it instead |
| PubSubBytes.WireMeansValue | include/wiredis/redis-connection.h:324-469 | an item as the server writes it is parsed as the reply the router is given |
| PubSubBytes.ReceiveRefines | include/wiredis/proto/base.h:59-90 | a read of any part of the reply pipe is some reads of whole items, and leaves a part of the next item |
| PubSubBytes.BytesRefine | include/wiredis/redis-connection.h:117-469 | every run over bytes is a run over items: the client is in a reachable state of the item system and the bytes under way are its items |
| PubSubBytes.AnswersOverBytes | include/wiredis/redis-connection.h:117-469 | over every such run callbacks get the answers in order, subscription callbacks are called exactly as due, no read asks for a reconnect, and when nothing is under way everybody has got his |
| WholeClient.StepKeeps | include/wiredis/redis-connection.h:69-291 | every call by the user and every handler keeps, whenever connects complete: the send budget, the messages being the commands sent, the callback ledger, the mode, and the parsed replies the decoding of the chars received |
| WholeClient.TcpReachable | include/wiredis/redis-connection.h:69-291 | every such step that is in time is one or more steps of the connection's own machine |
| WholeClient.EveryCallbackOnce | include/wiredis/redis-connection.h:117-291 | in every run of the whole client, over losses and reconnects and whenever connects complete, a callback given once is queued and not called or called and not queued |
| WholeClient.RepliesComeInOrder | include/wiredis/tcp-connection.h:350-385 | on every connection of every run that found the parser empty, the parsed replies are the first the server sends and all that are complete, unless a parse loop has failed |
| WholeClient.SendersDispatch | include/wiredis/tcp-connection.h:187-211 | in every run of the client no sender that found the queue empty is left without its dispatch |
| Accounts.DeliveriesAfter | include/wiredis/redis-connection.h:117-291 | the account of every step: callbacks get what reads deliver, and the errors of refusal and loss, in this order |
| Accounts.UnreadAreErrors | include/wiredis/redis-connection.h:124-157 | over every run each delivery was made by a read or is one of the three errors |
| Accounts.CommandWords | include/wiredis/redis-connection.h:162-216 | which words go to the server |
| Accounts.SentOrRefused | include/wiredis/redis-connection.h:117-158 | after every run a command is sent, with its callback queued, if and only if the connection is up and the limit kept; otherwise nothing changes in the queues and its callback gets the error |
| Subscriptions.ConnectResets | include/wiredis/redis-connection.h:236-245 | a connect that completes or fails, as the connection reports it, ends mode and subscriptions and leaves the queue |
| Subscriptions.TakenKey | include/wiredis/redis-connection.h:162-172 | a subscribe for a held key changes nothing but the mode |
| Subscriptions.StepHolds | include/wiredis/redis-connection.h:162-469 | every step keeps: the keys held are those subscribed and not reported gone since the last connect reported |
| Subscriptions.SubscriptionsAreOurs | include/wiredis/redis-connection.h:162-245 | over every run: exactly these keys with the callbacks first given, pub/sub mode exactly since the first subscribe, and a subscribe refused exactly for such a key |
| ClientRun.HandleEvent | include/wiredis/redis-connection.h:69-87 | a handler of the connection with what it calls in the client is one step of the whole client |
| ClientRun.HandleRead | include/wiredis/redis-connection.h:69-87 | a read with all replies it delivers, and the parse error behind them, is one step of the whole client |
| ClientRun.Perform | include/wiredis/redis-connection.h:69-216 | every call and every handler of the objects is the step of the whole client |
| ClientRun.Run | include/wiredis/redis-connection.h:69-291 | any schedule run on the objects, late connects included, ends where the machine ends, with the invariants of every run |
| ClientRun.RunFresh | include/wiredis/redis-connection.h:49-55 | the same for a new client; if every connect was in time its connection is in a reachable state |
| LeftoverCallbacks.QueueAfter | include/wiredis/redis-connection.h:117-291 | what every step of the client does to the callback queue: drained, moved on by the replies read, longer by a command sent, or as it was |
| LeftoverCallbacks.LossLeavesCallbacks | include/wiredis/redis-connection.h:248-270 | a loss leaves callbacks in the queue if and only if some wait and no read, write or parse loop has failed; and which losses these are |
| LeftoverCallbacks.RefusedSubscribeLeaves | include/wiredis/redis-connection.h:144-177 | a subscribe that the full buffer refuses takes the connection down and leaves the queue as it was |
| LeftoverCallbacks.CallbacksStay | include/wiredis/redis-connection.h:236-270 | over any number of later connects, what has been left stays in front of the queue until a read brings something or a read or write fails |
| Conversation.ReadOutputs | include/wiredis/redis-connection.h:273-323 | answers and pushes, read in order: each callback gets the answer to its own command, pushes and the answers to unsubscribes bypass the queue |
| Conversation.ReadAdds | include/wiredis/proto/base.h:59-90 | a read adds exactly the next replies of what the server has sent, whatever it was cut into |
| Conversation.PairedAt | include/wiredis/redis-connection.h:273-291 | the answer to the i-th command is paired with the callback of the i-th command |
| Conversation.StepKeeps | include/wiredis/redis-connection.h:117-291 | every step after which the connection is up keeps: deliveries are the answers paired with their callbacks, the queue holds the callbacks of the commands not answered |
| Conversation.ConnectKeeps | include/wiredis/tcp-connection.h:255-269 | a connect that finds nobody waiting and nothing in front of the parser establishes this |
| EndToEnd.Pipeline | include/wiredis/redis-connection.h:117-158 | pipelined commands up to the first refused one: callbacks and messages stand in the same order in their two queues, a refused one leaves nothing in either and gets an error; all are taken if and only if the connection is up and the total length keeps the limit |
| EndToEnd.ServerSeesCommands | include/wiredis/redis-connection.h:117-216 | in every timely run of the whole client, while connected the server can decode from the wire the first of the commands sent on this connection with exactly their arguments, all that count as sent, and at last all of them |
| EndToEnd.CallbacksGetAnswers | include/wiredis/redis-connection.h:117-291 | both ways over runs of the whole client: on a connection made with nobody waiting and an empty parser, the server decodes the commands as given, and of its answers and pushes, in any pieces, each callback gets the answer to its own command; the others wait in order |

## Left out

- TcpProperties.OneWriter: assumes that a connect completes only when no `try_to_send` of an earlier connection is left, because the program clears the queue without regard to them; `TcpSchedules.ConnectNeedsQuiet` says what happens otherwise.
- TcpProperties.WireFidelity: the same assumption, and the wire of one connection only.
- EndToEnd.ServerSeesCommands: the same assumption, as `WholeClient.InTime`; what else holds of the whole client holds without it.
- ReplyParser.Parser.ReceiveReplies: of the program without the bounds test it promises all replies only if the last read is calm; `DrainAsWritten` says exactly which reads are not, and what they do.
- PubSubProperties.SubscriptionAgreement: assumes one unsubscribe under way per key, of the kind of the subscription, that no regular reply starts with a push word, and that the send buffer takes a subscribe; a connection lost on the way is not part of it.
- RouterProperties.CallbackLedger: user callbacks do not throw, and those called by the drain of a lost connection do not execute again, with which the loop need not end; `ReentrantExecute` covers the callbacks of replies.
- EndToEnd.CallbacksGetAnswers: the same assumption; speaks of connections that are up, on which no parse loop has failed; of the server it assumes that it answers in order commands it can have decoded, with a push word exactly those without a callback, and sends push words to a client in pub/sub mode only (`Conversation.Served`).
- PubSubBytes.AnswersOverBytes: the client is connected all the time and the parser is the guarded one, as in `Stream.Decode`, with room for every reply; the assumptions of `SubscriptionAgreement`.
- WholeClient.RepliesComeInOrder: says nothing of a connection after a parse loop has failed, or that found chars in front of the parser; `NextConnection.StartsCleanIff` does.
- Failed allocations: `reserve` is taken to succeed up to the longest vector, which `Resp.MAX_ELEMENTS` puts at that of the 64-bit GNU standard library.
- Buffers of 3 * 2^32 chars or more: from there on an array can hold more elements than its 32-bit loop counter counts. For the same reason `WellFormed` bounds arrays by 2^32 elements.
- Threads other than one running the io_service and any number calling `send` and `connect`; the unlocked reads of the two states from user threads are taken as atomic.
- `join` and `sync_join`: they wait and share the timer, and change no data.
- Addresses that cannot be parsed: `connect` is taken to get a valid one.
- Sockets, timers, socket options and keepalive: foreign calls, represented by their completions.
- User callbacks that are empty functions; texts of log messages; the callbacks for connected and disconnected of the Redis client, which are only passed on.
- How many disconnected callbacks one lost connection causes: it depends on how the library orders completions of a closed socket.
- `proto/endline.h` and `proto/raw.h`, the move operations of the parser, the examples and the unit tests.
