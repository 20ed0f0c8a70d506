/** The connection class. Each of its functions and handlers makes one step of the machine in Tcp, or two. */
module TcpConnection {
  import opened Tcp
  import opened Resp
  import Stream
  import ReplyParser

  /** How async_read_some ends: the socket was closed, the connection broke, or chars came. */
  datatype ReadResult = Aborted | Broken | Received

  /** What on_read leaves behind: another read started, a reconnect, nothing, or an exception that goes up the io_service. */
  datatype AfterRead = ReadsAgain | Reconnects | NothingMore | Escapes

  class Connection {
    const parser: ReplyParser.Parser
    var astate: AState
    var ostate: OState
    var callbacks: bool
    var autoReconnect: bool
    var sendBuffer: seq<string>
    var sendBufferSize: int

    /** What the library holds for this object: its asynchronous calls are recorded here. */
    var io: Io

    function Snapshot(): State
      reads this
    {
      State(astate, ostate, callbacks, autoReconnect, sendBuffer, sendBufferSize, io)
    }

    constructor (bufferSize: nat)
      ensures Snapshot() == INITIAL
      ensures fresh(parser) && fresh(parser.buffer)
      ensures parser.Valid() && parser.Unparsed() == [] && parser.buffer.Length == bufferSize && !parser.guarded
    {
      parser := new ReplyParser.Parser(bufferSize, false);
      astate, ostate, callbacks, autoReconnect := AdminDisconnected, Disconnected, false, true;
      sendBuffer, sendBufferSize, io := [], 0, IDLE;
    }

    predicate IsConnected()
      reads this
    {
      astate == AdminConnected && ostate == Connected
    }

    method Connect(auto: bool)
      modifies this
      ensures Snapshot() == Next(old(Snapshot()), UserConnect(auto))
    {
      OpenAndConnect(true, auto);
    }

    method OpenAndConnect(setCallbacks: bool, auto: bool)
      modifies this
      ensures Snapshot() == InternalConnect(old(Snapshot()), setCallbacks, auto)
    {
      astate := AdminConnected;
      ostate := Connecting;
      callbacks := setCallbacks;
      autoReconnect := auto;
      if io.socketOpen {
        return;
      }
      io := io.(socketOpen := true);
      io := io.(connects := io.connects + 1);
      io := io.(attempts := io.attempts + 1);
    }

    method Disconnect()
      modifies this
      ensures Snapshot() == Next(old(Snapshot()), UserDisconnect)
    {
      callbacks := false;
      io := io.(timerArmed := false);
      CloseSocket(true);
    }

    method CloseSocket(end: bool)
      modifies this
      ensures Snapshot() == Close(old(Snapshot()), end)
    {
      if end {
        astate := AdminDisconnected;
      }
      io := io.(socketOpen := false);
      ostate := Disconnected;
    }

    method Reconnect()
      modifies this
      ensures Snapshot() == Next(old(Snapshot()), UserReconnect)
    {
      CloseSocket(false);
      if !autoReconnect {
        return;
      }
      io := io.(timerArmed := true);
    }

    /** The reconnect timer expires: its handler is queued. */
    method TimerExpired()
      requires Enabled(Snapshot(), TimerExpires)
      modifies this
      ensures Snapshot() == Next(old(Snapshot()), TimerExpires)
    {
      io := io.(timerArmed := false);
      io := io.(timersFired := io.timersFired + 1);
    }

    method OnTimer()
      requires Enabled(Snapshot(), TimerHandler)
      modifies this
      ensures Snapshot() == Next(old(Snapshot()), TimerHandler)
    {
      io := io.(timersFired := io.timersFired - 1);
      if astate == AdminDisconnected {
        return;
      }
      OpenAndConnect(callbacks, autoReconnect);
    }

    /** The part of send under the lock. Not accepted means tcp_send_buffer_full was thrown. */
    method SendLocked(message: string) returns (accepted: bool, sendNow: bool)
      modifies this
      ensures accepted == Accepts(old(Snapshot()), message)
      ensures sendNow == (old(sendBuffer) == [])
      ensures Snapshot() == Next(old(Snapshot()), SendAppend(message))
    {
      sendNow := sendBuffer == [];
      if sendBufferSize + |message| > SEND_BUFFER_LIMIT {
        return false, sendNow;
      }
      sendBufferSize := sendBufferSize + |message|;
      sendBuffer := sendBuffer + [message];
      if sendNow {
        io := io.(senders := io.senders + 1);
      }
      return true, sendNow;
    }

    method Send(message: string) returns (accepted: bool)
      modifies this
      ensures accepted == Accepts(old(Snapshot()), message)
      ensures Snapshot() == var appended := Next(old(Snapshot()), SendAppend(message));
                            if accepted && old(sendBuffer) == [] then Next(appended, SendDispatch) else appended
    {
      var sendNow;
      accepted, sendNow := SendLocked(message);
      if accepted && sendNow {
        DispatchSend();
      }
    }

    /** What the sender that found the queue empty does after it has left the lock. */
    method DispatchSend()
      requires Enabled(Snapshot(), SendDispatch)
      modifies this
      ensures Snapshot() == Next(old(Snapshot()), SendDispatch)
    {
      io := io.(senders := io.senders - 1);
      io := io.(dispatched := io.dispatched + 1);
    }

    method TryToSend(start: nat)
      modifies this
      ensures Snapshot() == Tcp.TryToSend(old(Snapshot()), start)
    {
      if !IsConnected() {
        return;
      }
      if sendBuffer == [] {
        return;
      }
      var first := sendBuffer[0];
      if start > |first| {
        io := io.(fault := true);
        return;
      }
      io := io.(writes := io.writes + multiset{Write(start, |first| - start)});
    }

    method OnDispatched()
      requires Enabled(Snapshot(), RunDispatched)
      modifies this
      ensures Snapshot() == Next(old(Snapshot()), RunDispatched)
    {
      io := io.(dispatched := io.dispatched - 1);
      TryToSend(0);
    }

    /** The handler of a write; the call of try_to_send at its end is the recall event. */
    method OnWrite(write: Write, error: bool, n: nat)
      requires write in io.writes && n <= write.length
      modifies this
      ensures Snapshot() == Next(old(Snapshot()), if error then WriteFailed(write) else WriteDone(write, n))
    {
      hide Next;
      if error {
        OnWriteFailed(write);
      } else {
        OnWritten(write, n);
      }
    }

    method OnWriteFailed(write: Write)
      requires write in io.writes
      modifies this
      ensures Snapshot() == Next(old(Snapshot()), WriteFailed(write))
    {
      io := io.(writes := io.writes - multiset{write});
      if !IsConnected() {
        return;
      }
      Notify();
      Reconnect();
    }

    method OnWritten(write: Write, n: nat)
      requires write in io.writes && n <= write.length
      modifies this
      ensures Snapshot() == Next(old(Snapshot()), WriteDone(write, n))
    {
      io := io.(writes := io.writes - multiset{write});
      if !IsConnected() {
        return;
      }
      if write.length != n {
        io := io.(recalls := io.recalls + multiset{write.start + n});
        return;
      }
      if sendBuffer == [] || sendBufferSize < |sendBuffer[0]| {
        io := io.(fault := true);
        return;
      }
      sendBufferSize := sendBufferSize - |sendBuffer[0]|;
      sendBuffer := sendBuffer[1..];
      if sendBuffer != [] {
        io := io.(recalls := io.recalls + multiset{0});
      }
    }

    method OnRecall(start: nat)
      requires Enabled(Snapshot(), Recall(start))
      modifies this
      ensures Snapshot() == Next(old(Snapshot()), Recall(start))
    {
      io := io.(recalls := io.recalls - multiset{start});
      TryToSend(start);
    }

    method OnConnect(error: bool)
      requires io.connects > 0
      modifies this
      ensures Snapshot() == Next(old(Snapshot()), if error then ConnectFailed else ConnectDone)
    {
      hide Next;
      if error {
        OnConnectFailed();
      } else {
        OnConnectDone();
      }
    }

    method OnConnectFailed()
      requires io.connects > 0
      modifies this
      ensures Snapshot() == Next(old(Snapshot()), ConnectFailed)
    {
      io := io.(connects := io.connects - 1);
      ostate := Disconnected;
      Notify();
      Reconnect();
    }

    method OnConnectDone()
      requires io.connects > 0
      modifies this
      ensures Snapshot() == Next(old(Snapshot()), ConnectDone)
    {
      io := io.(connects := io.connects - 1);
      ostate := Connected;
      sendBuffer := [];
      sendBufferSize := 0;
      Notify();
    }

    /**
     The handler of a read. A length error is not a parse error: it is not caught, and
     leaves a connection that counts as up and reads no more; so does, at best, a look
     at the char behind a full buffer.
     */
    method OnRead(result: ReadResult, chunk: string) returns (delivered: seq<Reply>, next: AfterRead)
      requires parser.Valid() && parser.usedBytes + |chunk| <= parser.buffer.Length
      modifies this, parser`usedBytes, parser.buffer
      ensures parser.Valid()
      ensures !result.Received? ==> delivered == [] && parser.Unparsed() == old(parser.Unparsed())
      ensures result.Aborted? ==> Snapshot() == old(Snapshot()) && next == NothingMore
      ensures result.Broken? ==> Snapshot() == Next(old(Snapshot()), ReadFailed) && next == Reconnects
      ensures result.Received? ==>
                var whole := old(parser.Unparsed()) + chunk;
                var d := Stream.Decode(whole);
                && delivered == (if old(callbacks) then d.replies else [])
                && |d.rest| <= |whole|
                && match old(parser.StopOf(chunk))
                   case Incomplete =>
                     next == ReadsAgain && parser.Unparsed() == d.rest && Snapshot() == old(Snapshot())
                   case ParseError =>
                     && next == Reconnects && parser.Unparsed() == whole[..|d.rest|]
                     && Snapshot() == Next(old(Snapshot()), ReadFailed)
                   case _ =>
                     && next == Escapes && parser.Unparsed() == whole[..|d.rest|]
                     && Snapshot() == old(Snapshot())
    {
      delivered := [];
      if result.Aborted? {
        next := NothingMore;
        return;
      }
      if result.Broken? {
        OnReadError();
        next := Reconnects;
        return;
      }
      var stop;
      delivered, stop := parser.ReadChunk(chunk, callbacks);
      match stop
      case Incomplete =>
        next := ReadsAgain;
      case ParseError =>
        OnReadError();
        next := Reconnects;
      case _ =>
        next := Escapes;
    }

    /** A read that failed, or whose chars the parser rejected. */
    method OnReadError()
      modifies this
      ensures Snapshot() == Next(old(Snapshot()), ReadFailed)
    {
      Notify();
      Reconnect();
    }

    method Notify()
      modifies this`io
      ensures Snapshot() == Tcp.Notify(old(Snapshot()))
    {
      if callbacks {
        io := io.(notified := io.notified + 1);
      }
    }

    /** The code that runs when the event happens: every event of the machine has one. */
    method Handle(e: Event)
      requires Enabled(Snapshot(), e)
      modifies this
      ensures Snapshot() == Next(old(Snapshot()), e)
    {
      hide Next;
      match e
      case SendAppend(message) =>
        var accepted, sendNow := SendLocked(message);
      case SendDispatch => DispatchSend();
      case RunDispatched => OnDispatched();
      case WriteDone(write, n) => OnWrite(write, false, n);
      case WriteFailed(write) => OnWrite(write, true, 0);
      case Recall(start) => OnRecall(start);
      case UserConnect(auto) => Connect(auto);
      case ConnectDone => OnConnect(false);
      case ConnectFailed => OnConnect(true);
      case ReadFailed => OnReadError();
      case UserReconnect => Reconnect();
      case TimerExpires => TimerExpired();
      case TimerHandler => OnTimer();
      case UserDisconnect => Disconnect();
    }
  }
}
