/**
 The connection object as a machine. One io_service thread runs the handlers; user
 threads run send up to its dispatch, and connect. Every event is one stretch of
 code that nothing can interleave with: a locked section, a handler, or the part of
 a handler between two locked sections.

 The call of try_to_send at the end of a completion handler is an event of its own,
 because user threads can get in between. The machine lets other handlers run there
 as well, which one io_service thread does not: what is proved of every run holds of
 more runs than the program has. Runs that are claimed to exist are serial, see
 TcpSchedules.
 */
module Tcp {
  datatype AState = AdminDisconnected | AdminConnected
  datatype OState = Disconnected | Connecting | Connected

  const SEND_BUFFER_LIMIT: nat := 10485760

  /** A write handed to the socket: which part of the front message it covers. */
  datatype Write = Write(start: nat, length: nat)

  /** What the io_service, the socket, the timer and the user threads hold for one connection. */
  datatype Io = Io(
    socketOpen: bool,
    senders: nat,                 // send calls that found the queue empty and have not dispatched yet
    dispatched: nat,              // try_to_send calls waiting in the io_service
    writes: multiset<Write>,      // async_write_some operations without a completion
    recalls: multiset<nat>,       // completion handlers about to call try_to_send, with its argument
    connects: nat,                // async_connect operations without a completion
    timerArmed: bool,
    timersFired: nat,             // expired reconnect timers whose handler has not run
    attempts: nat,                // async_connect operations ever started
    notified: nat,                // calls of the connected and disconnected callbacks
    fault: bool                   // front() of an empty list, or an unsigned difference below zero
  )

  datatype State = State(
    astate: AState,
    ostate: OState,
    callbacks: bool,              // the user's callbacks are set
    autoReconnect: bool,
    sendBuffer: seq<string>,
    sendBufferSize: int,
    io: Io
  ) {
    predicate IsConnected() {
      astate == AdminConnected && ostate == Connected
    }
  }

  const IDLE: Io := Io(false, 0, 0, multiset{}, multiset{}, 0, false, 0, 0, 0, false)

  const INITIAL: State := State(AdminDisconnected, Disconnected, false, true, [], 0, IDLE)

  datatype Event =
    | SendAppend(message: string)
    | SendDispatch
    | RunDispatched
    | WriteDone(write: Write, n: nat)
    | WriteFailed(write: Write)
    | Recall(start: nat)
    | UserConnect(auto: bool)
    | ConnectDone
    | ConnectFailed
    | ReadFailed
    | UserReconnect
    | TimerExpires
    | TimerHandler
    | UserDisconnect

  /** What has to be outstanding for the event to happen. */
  predicate Enabled(s: State, e: Event) {
    match e
    case SendDispatch => s.io.senders > 0
    case RunDispatched => s.io.dispatched > 0
    case WriteDone(write, n) => write in s.io.writes && n <= write.length
    case WriteFailed(write) => write in s.io.writes
    case Recall(start) => start in s.io.recalls
    case ConnectDone => s.io.connects > 0
    case ConnectFailed => s.io.connects > 0
    case TimerExpires => s.io.timerArmed
    case TimerHandler => s.io.timersFired > 0
    case _ => true
  }

  predicate Accepts(s: State, message: string) {
    s.sendBufferSize + |message| <= SEND_BUFFER_LIMIT
  }

  function Append(s: State, message: string): State {
    if Accepts(s, message) then
      s.(sendBuffer := s.sendBuffer + [message],
         sendBufferSize := s.sendBufferSize + |message|,
         io := if s.sendBuffer == [] then s.io.(senders := s.io.senders + 1) else s.io)
    else s
  }

  function Dispatch(s: State): State
    requires s.io.senders > 0
  {
    s.(io := s.io.(senders := s.io.senders - 1, dispatched := s.io.dispatched + 1))
  }

  function TryToSend(s: State, start: nat): State {
    if !s.IsConnected() || s.sendBuffer == [] then s
    else if start > |s.sendBuffer[0]| then s.(io := s.io.(fault := true))
    else s.(io := s.io.(writes := s.io.writes + multiset{Write(start, |s.sendBuffer[0]| - start)}))
  }

  /** The completion handler of a write, up to where it calls try_to_send again. */
  function Written(s: State, write: Write, n: nat): State {
    if !s.IsConnected() then s
    else if n != write.length then s.(io := s.io.(recalls := s.io.recalls + multiset{write.start + n}))
    else if s.sendBuffer == [] || s.sendBufferSize < |s.sendBuffer[0]| then s.(io := s.io.(fault := true))
    else
      s.(sendBufferSize := s.sendBufferSize - |s.sendBuffer[0]|,
         sendBuffer := s.sendBuffer[1..],
         io := if |s.sendBuffer| > 1 then s.io.(recalls := s.io.recalls + multiset{0}) else s.io)
  }

  function Notify(s: State): State {
    if s.callbacks then s.(io := s.io.(notified := s.io.notified + 1)) else s
  }

  /** Opening a socket that is open already throws before a connect is started. */
  function InternalConnect(s: State, callbacks: bool, auto: bool): State {
    State(AdminConnected, Connecting, callbacks, auto, s.sendBuffer, s.sendBufferSize,
          if s.io.socketOpen then s.io
          else s.io.(socketOpen := true, connects := s.io.connects + 1, attempts := s.io.attempts + 1))
  }

  function Close(s: State, end: bool): State {
    s.(astate := if end then AdminDisconnected else s.astate, ostate := Disconnected,
       io := s.io.(socketOpen := false))
  }

  /** Arming the timer cancels the wait that was pending, but not a handler that has been queued. */
  function Reconnect(s: State): State {
    var t := Close(s, false);
    if s.autoReconnect then t.(io := t.io.(timerArmed := true)) else t
  }

  /** The handler of async_connect: everything queued for an earlier connection is dropped. */
  function ConnectedNow(s: State): State {
    Notify(s.(ostate := Connected, sendBuffer := [], sendBufferSize := 0))
  }

  function Without(io: Io, write: Write): Io {
    io.(writes := io.writes - multiset{write})
  }

  function Next(s: State, e: Event): State
    requires Enabled(s, e)
  {
    match e
    case SendAppend(message) => Append(s, message)
    case SendDispatch => Dispatch(s)
    case RunDispatched => TryToSend(s.(io := s.io.(dispatched := s.io.dispatched - 1)), 0)
    case WriteDone(write, n) => Written(s.(io := Without(s.io, write)), write, n)
    case WriteFailed(write) =>
      var t := s.(io := Without(s.io, write));
      if s.IsConnected() then Reconnect(Notify(t)) else t
    case Recall(start) => TryToSend(s.(io := s.io.(recalls := s.io.recalls - multiset{start})), start)
    case UserConnect(auto) => InternalConnect(s, true, auto)
    case ConnectDone => ConnectedNow(s.(io := s.io.(connects := s.io.connects - 1)))
    case ConnectFailed =>
      Reconnect(Notify(s.(ostate := Disconnected, io := s.io.(connects := s.io.connects - 1))))
    case ReadFailed => Reconnect(Notify(s))
    case UserReconnect => Reconnect(s)
    case TimerExpires => s.(io := s.io.(timerArmed := false, timersFired := s.io.timersFired + 1))
    case TimerHandler =>
      var t := s.(io := s.io.(timersFired := s.io.timersFired - 1));
      if s.astate == AdminDisconnected then t else InternalConnect(t, s.callbacks, s.autoReconnect)
    case UserDisconnect => Close(s.(callbacks := false, io := s.io.(timerArmed := false)), true)
  }
}
