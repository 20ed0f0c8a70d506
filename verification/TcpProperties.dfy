/** What every run of the connection machine keeps. */
module TcpProperties {
  import opened Tcp
  import opened Stream

  /** What has happened since the connection was established. */
  datatype Epoch = Epoch(
    accepted: seq<string>,   // messages that send took
    sent: seq<string>,       // messages written out completely
    wire: string             // chars the socket has taken
  )

  function Observe(s: State, h: Epoch, e: Event): Epoch
    requires Enabled(s, e)
  {
    match e
    case SendAppend(message) => if Accepts(s, message) then h.(accepted := h.accepted + [message]) else h
    case WriteDone(write, n) =>
      if s.IsConnected() && s.sendBuffer != [] && write.start + n <= |s.sendBuffer[0]| then
        h.(sent := if n == write.length then h.sent + [s.sendBuffer[0]] else h.sent,
           wire := h.wire + s.sendBuffer[0][write.start..write.start + n])
      else h
    case ConnectDone => Epoch([], [], [])
    case _ => h
  }

  function Total(messages: seq<string>): nat {
    if messages == [] then 0 else |messages[0]| + Total(messages[1..])
  }

  lemma {:induction false} TotalAppend(messages: seq<string>, message: string)
    ensures Total(messages + [message]) == Total(messages) + |message|
  {
    if messages == [] {
      assert messages + [message] == [message];
    } else {
      TotalAppend(messages[1..], message);
      assert (messages + [message])[1..] == messages[1..] + [message];
    }
  }

  // ---- invariants ----

  /** The counter is the sum of the queued lengths and within the limit. */
  ghost predicate Budget(s: State) {
    s.sendBufferSize == Total(s.sendBuffer) && s.sendBufferSize <= SEND_BUFFER_LIMIT
  }

  /** Everything that will lead to a call of try_to_send, or is one under way. */
  function Tokens(s: State): nat {
    s.io.senders + s.io.dispatched + |s.io.writes| + |s.io.recalls|
  }

  ghost predicate SingleWriter(s: State) {
    Tokens(s) == if s.sendBuffer == [] then 0 else 1
  }

  /** The wire holds the messages sent and the first progress chars of the front one. */
  ghost predicate Written(s: State, h: Epoch, progress: nat) {
    && s.sendBuffer != [] && progress <= |s.sendBuffer[0]|
    && h.wire == Concat(h.sent) + s.sendBuffer[0][..progress]
  }

  ghost predicate Faithful(s: State, h: Epoch) {
    && h.accepted == h.sent + s.sendBuffer
    && (s.io.senders + s.io.dispatched > 0 || s.sendBuffer == [] ==> h.wire == Concat(h.sent))
    && (forall w :: w in s.io.writes ==> Written(s, h, w.start) && w.start + w.length == |s.sendBuffer[0]|)
    && (forall start :: start in s.io.recalls ==> Written(s, h, start))
  }

  ghost predicate Inv(s: State, h: Epoch) {
    && Budget(s) && !s.io.fault
    && (s.IsConnected() ==> SingleWriter(s) && Faithful(s, h))
  }

  /** The one hypothesis on schedules: a connect completes only when no handler of an earlier connection is left. */
  predicate Timely(s: State, e: Event) {
    e.ConnectDone? ==> Tokens(s) == 0
  }

  // ---- every step ----

  lemma {:induction false} AppendKeeps(s: State, h: Epoch, message: string)
    requires Inv(s, h)
    ensures Inv(Next(s, SendAppend(message)), Observe(s, h, SendAppend(message)))
  {
    hide Concat;
    TotalAppend(s.sendBuffer, message);
    if Accepts(s, message) && s.IsConnected() {
      var t, k := Next(s, SendAppend(message)), Observe(s, h, SendAppend(message));
      assert h.sent + s.sendBuffer + [message] == h.sent + (s.sendBuffer + [message]);
      if s.sendBuffer == [] {
        assert s.io.writes == multiset{} && s.io.recalls == multiset{};
      }
      assert forall p :: Written(s, h, p) ==> Written(t, k, p);
    }
  }

  lemma {:induction false} TryToSendKeeps(s: State, h: Epoch, start: nat)
    requires Budget(s) && !s.io.fault
    requires s.IsConnected() ==>
               Tokens(s) == 0 && h.accepted == h.sent + s.sendBuffer && Written(s, h, start)
    ensures Inv(TryToSend(s, start), h)
  {
    hide Concat, Total;
    if s.IsConnected() {
      var t := TryToSend(s, start);
      assert s.io.writes == multiset{} && s.io.recalls == multiset{};
      assert forall p :: Written(s, h, p) ==> Written(t, h, p);
    }
  }

  lemma {:induction false} RunDispatchedKeeps(s: State, h: Epoch)
    requires Inv(s, h) && s.io.dispatched > 0
    ensures Inv(Next(s, RunDispatched), h)
  {
    hide Concat, Total;
    if s.IsConnected() {
      assert s.sendBuffer[0][..0] == [];
      assert Written(s, h, 0);
    }
    TryToSendKeeps(s.(io := s.io.(dispatched := s.io.dispatched - 1)), h, 0);
  }

  lemma {:induction false} RecallKeeps(s: State, h: Epoch, start: nat)
    requires Inv(s, h) && start in s.io.recalls
    ensures Inv(Next(s, Recall(start)), h)
  {
    hide Concat, Total;
    var t := s.(io := s.io.(recalls := s.io.recalls - multiset{start}));
    if s.IsConnected() {
      assert Written(s, h, start);
      assert s.io.recalls == multiset{start};
      assert Written(t, h, start);
    }
    TryToSendKeeps(t, h, start);
  }

  /** A connected state that keeps the invariant has no other handler under way beside a write. */
  lemma {:induction false} OnlyWrite(s: State, h: Epoch, write: Write)
    requires Inv(s, h) && s.IsConnected() && write in s.io.writes
    ensures Written(s, h, write.start) && write.start + write.length == |s.sendBuffer[0]|
    ensures s.io.writes == multiset{write} && s.io.recalls == multiset{}
    ensures s.io.senders == s.io.dispatched == 0
  {
    assert s.io.writes - multiset{write} == multiset{};
  }

  lemma {:induction false} PartWrittenStep(s: State, h: Epoch, write: Write, n: nat)
    requires s.IsConnected() && s.io.writes == multiset{write} && s.io.recalls == multiset{} && n < write.length
    requires s.sendBuffer != [] && write.start + n <= |s.sendBuffer[0]|
    ensures Next(s, WriteDone(write, n)) == s.(io := s.io.(writes := multiset{}, recalls := multiset{write.start + n}))
    ensures Observe(s, h, WriteDone(write, n))
         == h.(wire := h.wire + s.sendBuffer[0][write.start..write.start + n])
  {
    assert multiset{write} - multiset{write} == multiset{};
    assert multiset{} + multiset{write.start + n} == multiset{write.start + n};
  }

  lemma {:induction false} PartWrittenKeeps(s: State, h: Epoch, write: Write, n: nat)
    requires Inv(s, h) && s.IsConnected() && write in s.io.writes && n < write.length
    ensures Inv(Next(s, WriteDone(write, n)), Observe(s, h, WriteDone(write, n)))
  {
    hide Concat, Total, Next, Observe;
    OnlyWrite(s, h, write);
    PartWrittenStep(s, h, write, n);
    var t, k := Next(s, WriteDone(write, n)), Observe(s, h, WriteDone(write, n));
    var front := s.sendBuffer[0];
    assert front[..write.start] + front[write.start..write.start + n] == front[..write.start + n];
    assert Written(t, k, write.start + n);
  }

  lemma {:induction false} TotalFront(messages: seq<string>)
    requires messages != []
    ensures Total(messages) == |messages[0]| + Total(messages[1..])
  {
  }

  lemma {:induction false} AllWrittenStep(s: State, h: Epoch, write: Write)
    requires s.IsConnected() && s.io.writes == multiset{write} && s.io.recalls == multiset{}
    requires s.sendBuffer != [] && |s.sendBuffer[0]| <= s.sendBufferSize
    requires write.start + write.length == |s.sendBuffer[0]|
    ensures var front, rest := s.sendBuffer[0], s.sendBuffer[1..];
            && Next(s, WriteDone(write, write.length)) ==
                 s.(sendBuffer := rest, sendBufferSize := s.sendBufferSize - |front|,
                    io := s.io.(writes := multiset{}, recalls := if rest == [] then multiset{} else multiset{0}))
            && Observe(s, h, WriteDone(write, write.length))
               == h.(sent := h.sent + [front], wire := h.wire + front[write.start..])
  {
    assert multiset{write} - multiset{write} == multiset{};
    assert multiset{} + multiset{0} == multiset{0};
  }

  lemma {:induction false} RestWritten(wire: string, front: string, start: nat)
    requires start <= |front|
    ensures wire + front[..start] + front[start..] == wire + front
  {
    assert front[..start] + front[start..] == front;
  }

  lemma {:induction false} FrontSent(sent: seq<string>, queue: seq<string>)
    requires queue != []
    ensures sent + queue == sent + [queue[0]] + queue[1..]
  {
  }

  lemma {:induction false} AllWrittenKeeps(s: State, h: Epoch, write: Write)
    requires Inv(s, h) && s.IsConnected() && write in s.io.writes
    ensures Inv(Next(s, WriteDone(write, write.length)), Observe(s, h, WriteDone(write, write.length)))
  {
    hide Concat, Total, Next, Observe;
    OnlyWrite(s, h, write);
    TotalFront(s.sendBuffer);
    AllWrittenStep(s, h, write);
    var t, k := Next(s, WriteDone(write, write.length)), Observe(s, h, WriteDone(write, write.length));
    var front := s.sendBuffer[0];
    RestWritten(Concat(h.sent), front, write.start);
    ConcatOne(h.sent, front);
    assert k.wire == Concat(k.sent);
    FrontSent(h.sent, s.sendBuffer);
    assert k.accepted == k.sent + t.sendBuffer;
    if t.sendBuffer != [] {
      assert t.sendBuffer[0][..0] == [];
      assert Written(t, k, 0);
    }
  }

  lemma {:induction false} WriteDoneKeeps(s: State, h: Epoch, write: Write, n: nat)
    requires Inv(s, h) && write in s.io.writes && n <= write.length
    ensures Inv(Next(s, WriteDone(write, n)), Observe(s, h, WriteDone(write, n)))
  {
    if s.IsConnected() {
      hide Inv;
      if n < write.length {
        PartWrittenKeeps(s, h, write, n);
      } else {
        AllWrittenKeeps(s, h, write);
      }
    }
  }

  lemma {:induction false} ConcatOne(messages: seq<string>, message: string)
    ensures Concat(messages + [message]) == Concat(messages) + message
  {
    assert (messages + [message])[..|messages|] == messages;
  }

  /** Steps that leave the queue alone and either keep the handlers or leave the connection down. */
  lemma {:induction false} OtherKeeps(s: State, h: Epoch, t: State)
    requires Inv(s, h) && t.sendBuffer == s.sendBuffer && t.sendBufferSize == s.sendBufferSize
    requires t.io.fault == s.io.fault
    requires t.IsConnected() ==>
               && s.IsConnected()
               && t.io.senders + t.io.dispatched == s.io.senders + s.io.dispatched
               && t.io.writes == s.io.writes && t.io.recalls == s.io.recalls
    ensures Inv(t, h)
  {
    hide Concat, Total;
    assert forall p :: Written(s, h, p) ==> Written(t, h, p);
  }

  lemma {:induction false} StepKeeps(s: State, h: Epoch, e: Event)
    requires Inv(s, h) && Enabled(s, e) && Timely(s, e)
    ensures Inv(Next(s, e), Observe(s, h, e))
  {
    match e
    case SendAppend(message) => AppendKeeps(s, h, message);
    case RunDispatched => RunDispatchedKeeps(s, h);
    case WriteDone(write, n) => WriteDoneKeeps(s, h, write, n);
    case Recall(start) => RecallKeeps(s, h, start);
    case ConnectDone => ConnectDoneKeeps(s, h);
    case _ =>
      hide Inv, Timely;
      OtherKeeps(s, h, Next(s, e));
  }

  lemma {:induction false} ConnectDoneKeeps(s: State, h: Epoch)
    requires Inv(s, h) && s.io.connects > 0 && Tokens(s) == 0
    ensures Inv(Next(s, ConnectDone), Epoch([], [], []))
  {
    ConcatNothing();
    assert s.io.writes == multiset{} && s.io.recalls == multiset{};
  }

  lemma ConcatNothing()
    ensures Concat([]) == []
  {
  }

  // ---- every run ----

  ghost predicate Legal(s: State, events: seq<Event>, timely: bool)
    decreases |events|
  {
    events == [] ||
    (Enabled(s, events[0]) && (timely ==> Timely(s, events[0])) && Legal(Next(s, events[0]), events[1..], timely))
  }

  function After(s: State, h: Epoch, events: seq<Event>): (State, Epoch)
    requires Legal(s, events, false)
    decreases |events|
  {
    if events == [] then (s, h) else After(Next(s, events[0]), Observe(s, h, events[0]), events[1..])
  }

  lemma {:induction false} RunKeeps(s: State, h: Epoch, events: seq<Event>)
    requires Inv(s, h) && Legal(s, events, true)
    ensures Legal(s, events, false)
    ensures var (t, k) := After(s, h, events); Inv(t, k)
    decreases |events|
  {
    hide Inv, Next, Observe, Enabled, Timely;
    if events != [] {
      StepKeeps(s, h, events[0]);
      RunKeeps(Next(s, events[0]), Observe(s, h, events[0]), events[1..]);
    }
  }

  ghost predicate Reachable(s: State, h: Epoch) {
    exists events :: Legal(INITIAL, events, true) && Legal(INITIAL, events, false)
      && (s, h) == After(INITIAL, Epoch([], [], []), events)
  }

  lemma {:induction false} RunsCompose(s: State, h: Epoch, events: seq<Event>, more: seq<Event>, timely: bool)
    requires Legal(s, events, timely) && Legal(s, events, false)
    requires var (t, k) := After(s, h, events); Legal(t, more, timely) && Legal(t, more, false)
    ensures Legal(s, events + more, timely) && Legal(s, events + more, false)
    ensures var (t, k) := After(s, h, events); After(s, h, events + more) == After(t, k, more)
    decreases |events|
  {
    hide Enabled, Timely, Next, Observe;
    if events == [] {
      assert events + more == more;
    } else {
      assert (events + more)[1..] == events[1..] + more;
      RunsCompose(Next(s, events[0]), Observe(s, h, events[0]), events[1..], more, timely);
    }
  }

  lemma {:induction false} ReachableStep(s: State, h: Epoch, e: Event)
    requires Reachable(s, h) && Enabled(s, e) && Timely(s, e)
    ensures Reachable(Next(s, e), Observe(s, h, e))
  {
    hide Enabled, Timely, Next, Observe;
    var start := Epoch([], [], []);
    var events :| Legal(INITIAL, events, true) && Legal(INITIAL, events, false)
      && (s, h) == After(INITIAL, start, events);
    assert [e][1..] == [];
    assert Legal(s, [e], true) && Legal(s, [e], false);
    assert After(s, h, [e]) == (Next(s, e), Observe(s, h, e));
    RunsCompose(INITIAL, start, events, [e], true);
    RunsCompose(INITIAL, start, events, [e], false);
  }

  lemma {:induction false} ReachableKeeps(s: State, h: Epoch)
    requires Reachable(s, h)
    ensures Inv(s, h)
  {
    var events :| Legal(INITIAL, events, true) && Legal(INITIAL, events, false)
      && (s, h) == After(INITIAL, Epoch([], [], []), events);
    RunKeeps(INITIAL, Epoch([], [], []), events);
  }

  /** The counter needs no hypothesis on schedules: every event keeps it. */
  lemma {:induction false} BudgetStep(s: State, e: Event)
    requires Budget(s) && Enabled(s, e)
    ensures Budget(Next(s, e))
  {
    match e
    case SendAppend(message) => TotalAppend(s.sendBuffer, message);
    case WriteDone(write, n) =>
      if s.sendBuffer != [] {
        TotalFront(s.sendBuffer);
      }
    case ConnectDone => TotalNothing();
    case _ => hide Total;
  }

  /** What every event keeps, timely or not. */
  ghost predicate Standing(s: State) {
    Budget(s) && (s.astate == AdminConnected ==> s.callbacks)
  }

  lemma {:induction false} StandingStep(s: State, e: Event)
    requires Standing(s) && Enabled(s, e)
    ensures Standing(Next(s, e))
  {
    hide Budget, Next, Enabled;
    BudgetStep(s, e);
    CallbacksStep(s, e);
  }

  lemma {:induction false} CallbacksStep(s: State, e: Event)
    requires Enabled(s, e) && (s.astate == AdminConnected ==> s.callbacks)
    ensures Next(s, e).astate == AdminConnected ==> Next(s, e).callbacks
  {
  }

  lemma TotalNothing()
    ensures Total([]) == 0
  {
  }

  lemma {:induction false} BudgetRun(s: State, h: Epoch, events: seq<Event>)
    requires Budget(s) && Legal(s, events, false)
    ensures Budget(After(s, h, events).0)
    decreases |events|
  {
    hide Budget, Enabled, Next, Observe;
    if events != [] {
      BudgetStep(s, events[0]);
      BudgetRun(Next(s, events[0]), Observe(s, h, events[0]), events[1..]);
    }
  }

  /**
   Send budget over every run, timely or not: the counter is the sum of the queued
   lengths and within the limit; a message is appended exactly if it stays within it,
   and a rejected one changes nothing. In a timely run no handler meets an empty list
   or a counter that is too small.
   */
  lemma {:induction false} SendBudget(events: seq<Event>, message: string)
    requires Legal(INITIAL, events, false)
    ensures var (s, _) := After(INITIAL, Epoch([], [], []), events);
            && s.sendBufferSize == Total(s.sendBuffer) <= 10485760
            && (Next(s, SendAppend(message)).sendBuffer == s.sendBuffer + [message] <==>
                  Total(s.sendBuffer) + |message| <= 10485760)
            && (Total(s.sendBuffer) + |message| > 10485760 ==> Next(s, SendAppend(message)) == s)
            && (Legal(INITIAL, events, true) ==> !s.io.fault)
  {
    hide Total, Legal, After;
    TotalNothing();
    BudgetRun(INITIAL, Epoch([], [], []), events);
    if Legal(INITIAL, events, true) {
      RunKeeps(INITIAL, Epoch([], [], []), events);
    }
  }

  /** The writer token: exactly one activity works on a queue that is not empty, none on an empty one. */
  lemma {:induction false} OneWriter(s: State, h: Epoch)
    requires Reachable(s, h) && s.IsConnected()
    ensures s.sendBuffer == [] <==> Tokens(s) == 0
    ensures s.sendBuffer != [] <==> Tokens(s) == 1
    ensures |s.io.writes| <= 1
  {
    ReachableKeeps(s, h);
  }

  /** Where the wire stands, in any state that keeps the invariant. */
  lemma {:induction false} WireStands(s: State, h: Epoch) returns (progress: nat)
    requires Inv(s, h) && s.IsConnected()
    ensures h.accepted == h.sent + s.sendBuffer
    ensures s.sendBuffer == [] ==> h.wire == Concat(h.accepted)
    ensures s.sendBuffer != [] ==> Written(s, h, progress)
    ensures h.wire <= Concat(h.accepted)
    ensures Tokens(s) == 0 ==> h.wire == Concat(h.accepted)
  {
    hide Concat, Total;
    progress := 0;
    if s.sendBuffer == [] {
      assert h.sent + s.sendBuffer == h.sent;
    } else {
      if w :| w in s.io.writes {
        progress := w.start;
      } else if start :| start in s.io.recalls {
        progress := start;
      } else {
        assert s.io.writes == multiset{} && s.io.recalls == multiset{};
        assert s.sendBuffer[0][..0] == [];
      }
      assert Written(s, h, progress);
      ConcatFront(h.sent, s.sendBuffer, progress);
    }
  }

  /**
   Wire fidelity: whatever the sizes of the writes, the wire carries the accepted
   messages in order, the completed ones whole and the front one in part. With
   nothing left to run, all of them are out.
   */
  lemma {:induction false} WireFidelity(s: State, h: Epoch) returns (progress: nat)
    requires Reachable(s, h) && s.IsConnected()
    ensures h.accepted == h.sent + s.sendBuffer
    ensures s.sendBuffer == [] ==> h.wire == Concat(h.accepted)
    ensures s.sendBuffer != [] ==> Written(s, h, progress)
    ensures h.wire <= Concat(h.accepted)
    ensures Tokens(s) == 0 ==> h.wire == Concat(h.accepted)
  {
    hide Concat, Inv;
    ReachableKeeps(s, h);
    progress := WireStands(s, h);
  }

  lemma {:induction false} ConcatFront(sent: seq<string>, queue: seq<string>, progress: nat)
    requires queue != [] && progress <= |queue[0]|
    ensures Concat(sent) + queue[0][..progress] <= Concat(sent + queue)
    decreases |queue|
  {
    hide Concat;
    if |queue| == 1 {
      assert sent + queue == sent + [queue[0]];
      ConcatOne(sent, queue[0]);
      assert queue[0] == queue[0][..progress] + queue[0][progress..];
    } else {
      var init, last := queue[..|queue| - 1], queue[|queue| - 1];
      ConcatFront(sent, init, progress);
      assert sent + queue == (sent + init) + [last];
      ConcatOne(sent + init, last);
    }
  }

  // ---- a user's disconnect is final ----

  ghost predicate NoUserConnect(events: seq<Event>) {
    forall i :: 0 <= i < |events| ==> !events[i].UserConnect?
  }

  /**
   After a disconnect by the user, whatever completions, expired timers and sends
   are still on their way, in whatever order: the connection does not come up, no
   connect is started and no callback is called until the user connects again.
   */
  lemma {:induction false} DisconnectIsFinal(s: State, h: Epoch, events: seq<Event>)
    requires Legal(Next(s, UserDisconnect), events, false) && NoUserConnect(events)
    ensures var (t, _) := After(Next(s, UserDisconnect), h, events);
            && !t.IsConnected()
            && t.io.attempts == s.io.attempts && t.io.notified == s.io.notified
  {
    StaysDown(Next(s, UserDisconnect), h, events);
  }

  lemma {:induction false} StaysDown(s: State, h: Epoch, events: seq<Event>)
    requires s.astate == AdminDisconnected && !s.callbacks
    requires Legal(s, events, false) && NoUserConnect(events)
    ensures var (t, _) := After(s, h, events);
            && t.astate == AdminDisconnected && !t.callbacks
            && t.io.attempts == s.io.attempts && t.io.notified == s.io.notified
    decreases |events|
  {
    if events != [] {
      StaysDown(Next(s, events[0]), Observe(s, h, events[0]), events[1..]);
    }
  }

  /** No handler has run but that of the event, and none has come or gone. */
  predicate SameHandlers(s: State, t: State, e: Event) {
    && t.io.senders == s.io.senders && t.io.dispatched == s.io.dispatched && t.io.recalls == s.io.recalls
    && t.io.writes == (if e.WriteFailed? then s.io.writes - multiset{e.write} else s.io.writes)
    && t.io.fault == s.io.fault
  }

  // ---- what the user asked for last ----

  /** A disconnect by the user gives socket and timer back, whatever state it finds. */
  lemma {:induction false} DisconnectReleases(s: State)
    ensures var t := Next(s, UserDisconnect);
            && !t.io.socketOpen && !t.io.timerArmed && !t.callbacks && !t.IsConnected()
            && t.astate == AdminDisconnected && t.ostate == Disconnected
            && t.sendBuffer == s.sendBuffer && t.io.attempts == s.io.attempts
            && t.io.timersFired == s.io.timersFired && t.io.connects == s.io.connects
            && SameHandlers(s, t, UserDisconnect)
  {
  }

  /** A connect by the user starts one attempt, exactly if the socket is closed. */
  lemma {:induction false} ConnectStarts(s: State, auto: bool)
    ensures var t := Next(s, UserConnect(auto));
            && t.astate == AdminConnected && t.ostate == Connecting && t.callbacks && t.autoReconnect == auto
            && t.io.socketOpen && t.sendBuffer == s.sendBuffer
            && t.io.attempts == s.io.attempts + (if s.io.socketOpen then 0 else 1)
            && t.io.connects - s.io.connects == t.io.attempts - s.io.attempts
            && t.io.timersFired == s.io.timersFired && t.io.timerArmed == s.io.timerArmed
            && SameHandlers(s, t, UserConnect(auto))
  {
  }

  /**
   A connect that completes empties the queue and is told to the user, in whatever state;
   it makes the connection come up exactly if the user has not disconnected meanwhile.
   */
  lemma {:induction false} ConnectCompletes(s: State)
    requires Enabled(s, ConnectDone)
    ensures var t := Next(s, ConnectDone);
            && t.ostate == Connected && t.sendBuffer == [] && t.sendBufferSize == 0
            && (t.IsConnected() <==> s.astate == AdminConnected)
            && t.astate == s.astate && t.callbacks == s.callbacks && t.autoReconnect == s.autoReconnect
            && t.io.notified == s.io.notified + (if s.callbacks then 1 else 0)
            && t.io.socketOpen == s.io.socketOpen && t.io.connects == s.io.connects - 1
            && t.io.timerArmed == s.io.timerArmed && t.io.timersFired == s.io.timersFired
            && t.io.attempts == s.io.attempts && SameHandlers(s, t, ConnectDone)
  {
  }

  /**
   Whether the client reconnects by itself is what the last connect by the user said,
   over every run until the next one; a connection that is not to reconnect never has
   a timer armed that was not armed before.
   */
  lemma {:induction false} LastConnectDecides(s: State, h: Epoch, auto: bool, events: seq<Event>)
    requires Legal(Next(s, UserConnect(auto)), events, false) && NoUserConnect(events)
    ensures var (t, _) := After(Next(s, UserConnect(auto)), h, events);
            t.autoReconnect == auto && (!auto && t.io.timerArmed ==> s.io.timerArmed)
  {
    ConnectStarts(s, auto);
    AutoStays(Next(s, UserConnect(auto)), h, events);
  }

  lemma {:induction false} AutoStays(s: State, h: Epoch, events: seq<Event>)
    requires Legal(s, events, false) && NoUserConnect(events)
    ensures var (t, _) := After(s, h, events);
            t.autoReconnect == s.autoReconnect && (!s.autoReconnect && t.io.timerArmed ==> s.io.timerArmed)
    decreases |events|
  {
    hide Next, Observe, Enabled;
    if events != [] {
      AutoStep(s, events[0]);
      AutoStays(Next(s, events[0]), Observe(s, h, events[0]), events[1..]);
    }
  }

  lemma {:induction false} AutoStep(s: State, e: Event)
    requires Enabled(s, e) && !e.UserConnect?
    ensures Next(s, e).autoReconnect == s.autoReconnect
    ensures !s.autoReconnect && Next(s, e).io.timerArmed ==> s.io.timerArmed
  {
  }

  // ---- a lost connection ----

  /** The events by which a connection is found to be gone, or given up. */
  predicate Loses(s: State, e: Event) {
    e.ReadFailed? || e.UserReconnect? || e.ConnectFailed? || (e.WriteFailed? && s.IsConnected())
  }

  /**
   A loss closes the socket, tells the user unless the client itself gave up, and has
   the timer try again if that is wanted; what is queued stays queued for now.
   */
  lemma {:induction false} LossTakesDown(s: State, e: Event)
    requires Enabled(s, e) && Loses(s, e)
    ensures var t := Next(s, e);
            && !t.IsConnected() && !t.io.socketOpen && t.astate == s.astate
            && t.io.timerArmed == (s.autoReconnect || s.io.timerArmed)
            && t.io.notified == s.io.notified + (if s.callbacks && !e.UserReconnect? then 1 else 0)
            && t.sendBuffer == s.sendBuffer && t.io.attempts == s.io.attempts
            && t.autoReconnect == s.autoReconnect && t.callbacks == s.callbacks
            && t.io.timersFired == s.io.timersFired && SameHandlers(s, t, e)
            && t.io.connects == s.io.connects - (if e.ConnectFailed? then 1 else 0)
  {
  }

  /** Until a connect completes nothing is written: no write is started, and the wire stays as it is. */
  lemma {:induction false} DownIsSilent(s: State, h: Epoch, events: seq<Event>)
    requires !s.IsConnected() && Legal(s, events, false)
    requires forall i :: 0 <= i < |events| ==> !events[i].ConnectDone?
    ensures var (t, k) := After(s, h, events);
            && !t.IsConnected() && t.io.writes <= s.io.writes && t.io.recalls <= s.io.recalls
            && k.wire == h.wire && k.sent == h.sent && s.sendBuffer <= t.sendBuffer
    decreases |events|
  {
    hide Next, Observe, Enabled;
    if events != [] {
      DownStep(s, h, events[0]);
      DownIsSilent(Next(s, events[0]), Observe(s, h, events[0]), events[1..]);
    }
  }

  lemma {:induction false} DownStep(s: State, h: Epoch, e: Event)
    requires !s.IsConnected() && Enabled(s, e) && !e.ConnectDone?
    ensures var t, k := Next(s, e), Observe(s, h, e);
            && !t.IsConnected() && t.io.writes <= s.io.writes && t.io.recalls <= s.io.recalls
            && k.wire == h.wire && k.sent == h.sent && s.sendBuffer <= t.sendBuffer
  {
    if Completes(e) {
      DownCompletion(s, e);
    } else {
      DownOther(s, e);
    }
    hide Next;
  }

  predicate Completes(e: Event) {
    e.WriteDone? || e.WriteFailed? || e.Recall?
  }

  lemma {:induction false} DownCompletion(s: State, e: Event)
    requires !s.IsConnected() && Enabled(s, e) && Completes(e)
    ensures var t := Next(s, e);
            && !t.IsConnected() && t.io.writes <= s.io.writes && t.io.recalls <= s.io.recalls
            && t.sendBuffer == s.sendBuffer
  {
  }

  lemma {:induction false} DownOther(s: State, e: Event)
    requires !s.IsConnected() && Enabled(s, e) && !Completes(e) && !e.ConnectDone?
    ensures var t := Next(s, e);
            && !t.IsConnected() && t.io.writes == s.io.writes && t.io.recalls == s.io.recalls
            && s.sendBuffer <= t.sendBuffer
  {
  }

  // ---- auto reconnect ----

  /** A connection the user wants is up, being set up, or waited for by the timer. */
  predicate Alive(s: State) {
    s.astate == AdminConnected && s.autoReconnect ==>
      || s.io.timerArmed || s.io.timersFired > 0
      || (s.io.socketOpen && (s.ostate == Connected || s.io.connects > 0))
  }

  /** A connect is asked for while the socket is open and nothing else is going to bring a connection up. */
  predicate OpensTwice(s: State, e: Event) {
    && s.io.socketOpen && s.io.connects == 0 && !s.io.timerArmed
    && match e
       case UserConnect(auto) => auto && s.io.timersFired == 0
       case TimerHandler => s.astate == AdminConnected && s.autoReconnect && s.io.timersFired == 1
       case _ => false
  }

  /** Every step keeps the connection alive, except exactly a second connect on an open socket. */
  lemma {:induction false} AliveStep(s: State, e: Event)
    requires Alive(s) && Enabled(s, e)
    ensures Alive(Next(s, e)) <==> !OpensTwice(s, e)
  {
  }

  ghost predicate NeverOpensTwice(s: State, events: seq<Event>)
    requires Legal(s, events, false)
    decreases |events|
  {
    events != [] ==> !OpensTwice(s, events[0]) && NeverOpensTwice(Next(s, events[0]), events[1..])
  }

  lemma {:induction false} AutoReconnect(s: State, h: Epoch, events: seq<Event>)
    requires Alive(s) && Legal(s, events, false) && NeverOpensTwice(s, events)
    ensures Alive(After(s, h, events).0)
    decreases |events|
  {
    hide Alive, OpensTwice, Next, Observe, Enabled;
    if events != [] {
      AliveStep(s, events[0]);
      AutoReconnect(Next(s, events[0]), Observe(s, h, events[0]), events[1..]);
    }
  }
}
