/** Where the order of the connection's events matters: what is left over from an earlier connection. */
module TcpSchedules {
  import opened Tcp
  import opened TcpProperties
  import opened Stream

  const START: Epoch := Epoch([], [], [])

  /** What the io_service thread runs, apart from the end of a completion handler. */
  predicate OnIoThread(e: Event) {
    match e
    case SendAppend(_) => false
    case SendDispatch => false
    case Recall(_) => false
    case UserConnect(_) => false
    case TimerExpires => false
    case _ => true
  }

  /** The event would get in between a completion handler and the try_to_send at its end. */
  predicate Interrupts(s: State, e: Event) {
    s.io.recalls != multiset{} && OnIoThread(e)
  }

  /** One thread runs the handlers, each to its end: the schedules that the program can have. */
  ghost predicate Serial(s: State, events: seq<Event>)
    requires Legal(s, events, false)
    decreases |events|
  {
    events != [] ==> !Interrupts(s, events[0]) && Serial(Next(s, events[0]), events[1..])
  }

  lemma {:induction false} RunStep(s: State, h: Epoch, e: Event, events: seq<Event>, timely: bool)
    requires Enabled(s, e) && (timely ==> Timely(s, e)) && !Interrupts(s, e)
    requires Legal(Next(s, e), events, timely) && Legal(Next(s, e), events, false) && Serial(Next(s, e), events)
    ensures Legal(s, [e] + events, timely) && Legal(s, [e] + events, false) && Serial(s, [e] + events)
    ensures After(s, h, [e] + events) == After(Next(s, e), Observe(s, h, e), events)
  {
    assert ([e] + events)[1..] == events;
  }

  lemma RunNothing(s: State, h: Epoch)
    ensures Legal(s, [], true) && Legal(s, [], false) && Serial(s, []) && After(s, h, []) == (s, h)
  {
  }

  // ---- handlers that outlive their connection ----

  /** A program error, or a wire on which something other than the accepted messages stands. */
  ghost predicate Damaged(s: State, h: Epoch) {
    s.io.fault || !(h.wire <= Concat(h.accepted))
  }

  /** Some serial run from here on, in which every later connect is timely, ends in damage. */
  ghost predicate CanDamage(s: State, h: Epoch) {
    exists events :: Legal(s, events, true) && Legal(s, events, false) && Serial(s, events)
      && var (t, k) := After(s, h, events); Damaged(t, k)
  }

  lemma {:induction false} DamageNow(s: State, h: Epoch)
    requires Damaged(s, h)
    ensures CanDamage(s, h)
  {
    hide Legal, After, Serial, Damaged;
    RunNothing(s, h);
  }

  lemma {:induction false} DamageStep(s: State, h: Epoch, e: Event)
    requires Enabled(s, e) && Timely(s, e) && !Interrupts(s, e) && CanDamage(Next(s, e), Observe(s, h, e))
    ensures CanDamage(s, h)
  {
    hide Legal, After, Serial, Damaged, Enabled, Timely, Interrupts, Next, Observe;
    var t, k := Next(s, e), Observe(s, h, e);
    var events :| Legal(t, events, true) && Legal(t, events, false) && Serial(t, events)
      && var (u, l) := After(t, k, events); Damaged(u, l);
    RunStep(s, h, e, events, true);
  }

  /** A connection that has just come up. */
  predicate JustUp(s: State) {
    s.IsConnected() && s.sendBuffer == [] && s.sendBufferSize == 0
  }

  /** A write of the old connection completes: there is no front message. */
  lemma {:induction false} WriteDamages(s: State, h: Epoch, write: Write)
    requires JustUp(s) && write in s.io.writes && s.io.recalls == multiset{}
    ensures CanDamage(s, h)
  {
    hide CanDamage;
    var e := WriteDone(write, write.length);
    DamageNow(Next(s, e), Observe(s, h, e));
    DamageStep(s, h, e);
  }

  /** The rest of an old message is sent from a new one that is too short. */
  lemma {:induction false} RecallDamages(s: State, h: Epoch, start: nat)
    requires JustUp(s) && start in s.io.recalls && start > 0
    ensures CanDamage(s, h)
  {
    hide CanDamage;
    var append, e := SendAppend(""), Recall(start);
    var t, k := Next(s, append), Observe(s, h, append);
    DamageNow(Next(t, e), Observe(t, k, e));
    DamageStep(t, k, e);
    DamageStep(s, h, append);
  }

  /** One message, two writers: both write it, and the second finds it gone. */
  lemma {:induction false} SecondWriterDamages(s: State, h: Epoch)
    requires s.IsConnected() && s.sendBuffer == ["a"] && s.sendBufferSize == 1
    requires Write(0, 1) in s.io.writes && s.io.senders > 0 && s.io.recalls == multiset{}
    ensures CanDamage(s, h)
  {
    hide CanDamage;
    var done := WriteDone(Write(0, 1), 1);
    var t, k := Next(s, SendDispatch), Observe(s, h, SendDispatch);
    var u, l := Next(t, RunDispatched), Observe(t, k, RunDispatched);
    assert u.io.writes == s.io.writes + multiset{Write(0, 1)};
    var v, m := Next(u, done), Observe(u, l, done);
    WriteDamages(v, m, Write(0, 1));
    DamageStep(u, l, done);
    DamageStep(t, k, RunDispatched);
    DamageStep(s, h, SendDispatch);
  }

  /** Completion handlers that still call try_to_send become writers of the first message. */
  lemma {:induction false} RecallsDamage(s: State, h: Epoch)
    requires s.IsConnected() && s.sendBuffer == ["a"] && s.sendBufferSize == 1 && s.io.senders > 0
    requires forall start :: start in s.io.recalls ==> start == 0
    requires s.io.recalls == multiset{} ==> Write(0, 1) in s.io.writes
    ensures CanDamage(s, h)
    decreases |s.io.recalls|
  {
    hide CanDamage;
    if s.io.recalls == multiset{} {
      SecondWriterDamages(s, h);
    } else {
      var start :| start in s.io.recalls;
      var t := Next(s, Recall(0));
      assert t.io.recalls == s.io.recalls - multiset{0};
      assert t.io.writes == s.io.writes + multiset{Write(0, 1)};
      RecallsDamage(t, h);
      DamageStep(s, h, Recall(0));
    }
  }

  /** So does a try_to_send that waits in the io_service. */
  lemma {:induction false} DispatchedDamages(s: State, h: Epoch)
    requires JustUp(s) && s.io.dispatched > 0 && s.io.recalls == multiset{}
    ensures CanDamage(s, h)
  {
    hide CanDamage;
    var append := SendAppend("a");
    var t, k := Next(s, append), Observe(s, h, append);
    assert t.sendBuffer == ["a"] && t.io.senders > 0;
    var u, l := Next(t, RunDispatched), Observe(t, k, RunDispatched);
    SecondWriterDamages(u, l);
    DamageStep(t, k, RunDispatched);
    DamageStep(s, h, append);
  }

  lemma {:induction false} LeftoverDamages(s: State, h: Epoch)
    requires JustUp(s) && Tokens(s) > 0
    ensures CanDamage(s, h)
  {
    hide CanDamage;
    if start :| start in s.io.recalls && start > 0 {
      RecallDamages(s, h, start);
    } else if s.io.recalls != multiset{} {
      var append := SendAppend("a");
      RecallsDamage(Next(s, append), Observe(s, h, append));
      DamageStep(s, h, append);
    } else if write :| write in s.io.writes {
      WriteDamages(s, h, write);
    } else if s.io.dispatched > 0 {
      DispatchedDamages(s, h);
    } else {
      assert s.io.writes == multiset{};
      DispatchedDamages(Next(s, SendDispatch), Observe(s, h, SendDispatch));
      DamageStep(s, h, SendDispatch);
    }
  }

  // ---- no damage without them ----

  lemma {:induction false} PrefixStep(s: State, h: Epoch, e: Event)
    requires Inv(s, h) && h.wire <= Concat(h.accepted) && Enabled(s, e) && Timely(s, e)
    ensures Inv(Next(s, e), Observe(s, h, e))
    ensures Observe(s, h, e).wire <= Concat(Observe(s, h, e).accepted)
  {
    hide Inv, Concat;
    StepKeeps(s, h, e);
    var t, k := Next(s, e), Observe(s, h, e);
    if t.IsConnected() {
      var _ := WireStands(t, k);
    } else if e.SendAppend? {
      ConcatOne(h.accepted, e.message);
    }
  }

  lemma {:induction false} NeverDamaged(s: State, h: Epoch, events: seq<Event>)
    requires Inv(s, h) && h.wire <= Concat(h.accepted)
    requires Legal(s, events, true) && Legal(s, events, false)
    ensures var (t, k) := After(s, h, events); !Damaged(t, k)
    decreases |events|
  {
    hide Next, Observe, Enabled, Timely, Concat;
    if events != [] {
      PrefixStep(s, h, events[0]);
      NeverDamaged(Next(s, events[0]), Observe(s, h, events[0]), events[1..]);
    }
  }

  /**
   What a connect that completes needs: from then on, with one thread running the
   handlers and later connects timely, the program can come to an error or write something else than the accepted
   messages exactly if a handler of an earlier connection is left.
   */
  lemma {:induction false} ConnectNeedsQuiet(s: State, h: Epoch)
    requires Inv(s, h) && s.io.connects > 0 && s.astate == AdminConnected
    ensures CanDamage(Next(s, ConnectDone), START) <==> Tokens(s) > 0
  {
    hide Inv, Legal, After, Serial, Damaged;
    var t := Next(s, ConnectDone);
    if Tokens(s) > 0 {
      hide CanDamage;
      LeftoverDamages(t, START);
    } else {
      ConnectDoneKeeps(s, h);
      forall events | Legal(t, events, true) && Legal(t, events, false)
        ensures var (u, k) := After(t, START, events); !Damaged(u, k)
      {
        NeverDamaged(t, START, events);
      }
    }
  }

  /** A serial run leads from here to there. */
  ghost predicate Leads(s: State, h: Epoch, t: State, k: Epoch, timely: bool) {
    exists events :: Legal(s, events, timely) && Legal(s, events, false) && Serial(s, events)
      && After(s, h, events) == (t, k)
  }

  lemma {:induction false} LeadsHere(s: State, h: Epoch, timely: bool)
    ensures Leads(s, h, s, h, timely)
  {
    RunNothing(s, h);
    assert Legal(s, [], timely) && Legal(s, [], false) && Serial(s, []) && After(s, h, []) == (s, h);
  }

  /** One step of a serial run, and what is observed of it. */
  ghost predicate Goes(s: State, h: Epoch, e: Event, t: State, k: Epoch, timely: bool) {
    && Enabled(s, e) && (timely ==> Timely(s, e)) && !Interrupts(s, e)
    && t == Next(s, e) && k == Observe(s, h, e)
  }

  lemma {:induction false} LeadsStep(s: State, h: Epoch, e: Event, u: State, l: Epoch, t: State, k: Epoch, timely: bool)
    requires Goes(s, h, e, u, l, timely) && Leads(u, l, t, k, timely)
    ensures Leads(s, h, t, k, timely)
  {
    hide Legal, After, Serial, Enabled, Timely, Interrupts, Next, Observe;
    var events :| Legal(u, events, timely) && Legal(u, events, false) && Serial(u, events)
      && After(u, l, events) == (t, k);
    RunStep(s, h, e, events, timely);
  }

  ghost function Trying(io: Io): State {
    State(AdminConnected, Connecting, true, true, [], 0, io.(socketOpen := true, connects := 1))
  }

  ghost function Up(io: Io, queue: seq<string>): State
    requires |queue| <= 1
  {
    State(AdminConnected, Connected, true, true, queue, if queue == [] then 0 else |queue[0]|, io.(socketOpen := true))
  }

  /** A message is queued while connecting: its try_to_send waits in the io_service when the connection comes up. */
  lemma {:induction false} QueuedWhileConnecting(m: string)
    requires |m| <= SEND_BUFFER_LIMIT
    ensures var s1 := Trying(IDLE.(attempts := 1));
            var s2, h := Append(s1, m), Epoch([m], [], []);
            var up := Up(IDLE.(attempts := 1, notified := 1, dispatched := 1), []);
            && Goes(INITIAL, START, UserConnect(true), s1, START, false)
            && Goes(s1, START, SendAppend(m), s2, h, false)
            && Goes(s2, h, SendDispatch, Dispatch(s2), h, false)
            && Goes(Dispatch(s2), h, ConnectDone, up, START, false)
  {
  }

  lemma {:induction false} DispatchIsLeftOver(m: string, t: State, k: Epoch)
    requires |m| <= SEND_BUFFER_LIMIT
    requires Leads(Up(IDLE.(attempts := 1, notified := 1, dispatched := 1), []), START, t, k, false)
    ensures Leads(INITIAL, START, t, k, false)
  {
    var s1 := Trying(IDLE.(attempts := 1));
    var s2, h := Append(s1, m), Epoch([m], [], []);
    var up := Up(IDLE.(attempts := 1, notified := 1, dispatched := 1), []);
    QueuedWhileConnecting(m);
    hide Leads, Goes, Up;
    LeadsStep(Dispatch(s2), h, ConnectDone, up, START, t, k, false);
    LeadsStep(s2, h, SendDispatch, Dispatch(s2), h, t, k, false);
    LeadsStep(s1, START, SendAppend(m), s2, h, t, k, false);
    LeadsStep(INITIAL, START, UserConnect(true), s1, START, t, k, false);
  }

  function OnWrites(writes: multiset<Write>): Io {
    IDLE.(attempts := 1, notified := 1, writes := writes)
  }

  /** The next message is appended and dispatched. */
  lemma {:induction false} NextMessage(m: string)
    requires |m| <= SEND_BUFFER_LIMIT
    ensures var io, h := OnWrites(multiset{}), Epoch([m], [], []);
            var s1, s2 := Up(io.(dispatched := 1), []), Up(io.(dispatched := 1, senders := 1), [m]);
            && Goes(s1, START, SendAppend(m), s2, h, false)
            && Goes(s2, h, SendDispatch, Up(io.(dispatched := 2), [m]), h, false)
  {
  }

  /** Both calls of try_to_send start a write of it. */
  lemma {:induction false} BothRun(m: string, dispatched: nat, writes: multiset<Write>)
    ensures var h := Epoch([m], [], []);
            Goes(Up(OnWrites(writes).(dispatched := dispatched + 1), [m]), h, RunDispatched,
                 Up(OnWrites(writes + multiset{Write(0, |m|)}).(dispatched := dispatched), [m]), h, false)
  {
  }

  lemma {:induction false} TwoWriters(m: string, t: State, k: Epoch)
    requires |m| <= SEND_BUFFER_LIMIT
    requires Leads(Up(OnWrites(multiset{Write(0, |m|), Write(0, |m|)}), [m]), Epoch([m], [], []), t, k, false)
    ensures Leads(Up(OnWrites(multiset{}).(dispatched := 1), []), START, t, k, false)
  {
    var io, h, write := OnWrites(multiset{}), Epoch([m], [], []), multiset{Write(0, |m|)};
    NextMessage(m);
    BothRun(m, 1, multiset{});
    BothRun(m, 0, write);
    assert multiset{} + write == write && write + write == multiset{Write(0, |m|), Write(0, |m|)};
    assert OnWrites(write + write).(dispatched := 0) == OnWrites(write + write);
    hide Leads, Goes, Up;
    var s4 := Up(OnWrites(write).(dispatched := 1), [m]);
    LeadsStep(s4, h, RunDispatched, Up(OnWrites(write + write), [m]), h, t, k, false);
    LeadsStep(Up(io.(dispatched := 2), [m]), h, RunDispatched, s4, h, t, k, false);
    LeadsStep(Up(io.(dispatched := 1, senders := 1), [m]), h, SendDispatch, Up(io.(dispatched := 2), [m]), h, t, k, false);
    LeadsStep(Up(io.(dispatched := 1), []), START, SendAppend(m), Up(io.(dispatched := 1, senders := 1), [m]), h,
              t, k, false);
  }

  /** A short write of the first char, beside any others. */
  lemma {:induction false} OneCharWritten(m: string, before: string, after: string,
                                          writes: multiset<Write>, others: multiset<Write>)
    requires 1 < |m| && after == before + [m[0]] && writes == others + multiset{Write(0, |m|)}
    ensures Goes(Up(OnWrites(writes), [m]), Epoch([m], [], before), WriteDone(Write(0, |m|), 1),
                 Up(OnWrites(others).(recalls := multiset{1}), [m]), Epoch([m], [], after), false)
  {
    assert m[0..1] == [m[0]];
    assert writes - multiset{Write(0, |m|)} == others;
    assert multiset{} + multiset{0 + 1} == multiset{1};
  }

  /** Its handler ends with a write of the rest. */
  lemma {:induction false} RestStarted(m: string, h: Epoch, others: multiset<Write>, writes: multiset<Write>)
    requires 1 < |m| && writes == others + multiset{Write(1, |m| - 1)}
    ensures Goes(Up(OnWrites(others).(recalls := multiset{1}), [m]), h, Recall(1), Up(OnWrites(writes), [m]), h, false)
  {
    assert multiset{1} - multiset{1} == multiset{};
  }

  /** Two short writes of the same char. */
  lemma {:induction false} WrittenTwice(m: string) returns (t: State)
    requires 1 < |m|
    ensures Leads(Up(OnWrites(multiset{Write(0, |m|), Write(0, |m|)}), [m]), Epoch([m], [], []),
                  t, Epoch([m], [], [m[0], m[0]]), false)
  {
    hide Leads, Goes, Up;
    var whole, rest := Write(0, |m|), Write(1, |m| - 1);
    var both, one, mixed, last := multiset{whole, whole}, multiset{whole}, multiset{whole, rest}, multiset{rest};
    var h0, h1, h2 := Epoch([m], [], []), Epoch([m], [], [m[0]]), Epoch([m], [], [m[0], m[0]]);
    var s1, s2 := Up(OnWrites(one).(recalls := multiset{1}), [m]), Up(OnWrites(mixed), [m]);
    t := Up(OnWrites(last).(recalls := multiset{1}), [m]);
    OneCharWritten(m, [], [m[0]], both, one);
    RestStarted(m, h1, one, mixed);
    OneCharWritten(m, [m[0]], [m[0], m[0]], mixed, last);
    LeadsHere(t, h2, false);
    LeadsStep(s2, h1, WriteDone(whole, 1), t, h2, t, h2, false);
    LeadsStep(s1, h1, Recall(1), s2, h1, t, h2, false);
    LeadsStep(Up(OnWrites(both), [m]), h0, WriteDone(whole, 1), s1, h1, t, h2, false);
  }

  /**
   From the very beginning, on a schedule that one thread can have: a message is
   queued while connecting, the connect completes, and the first char of the next
   message goes out twice.
   */
  lemma {:induction false} LeftoverDispatchSendsTwice(m: string)
    requires 1 < |m| <= SEND_BUFFER_LIMIT
    ensures exists events :: Legal(INITIAL, events, false) && Serial(INITIAL, events)
              && After(INITIAL, START, events).1 == Epoch([m], [], [m[0], m[0]])
  {
    var t := WrittenTwice(m);
    var k := Epoch([m], [], [m[0], m[0]]);
    TwoWriters(m, t, k);
    DispatchIsLeftOver(m, t, k);
  }

  // ---- timers that outlive their purpose ----

  /** Connected, while the handler of an expired timer still waits. */
  ghost function ConnectedBefore(): State {
    Up(IDLE.(notified := 2, attempts := 2, timersFired := 1), [])
  }

  ghost function WaitingToTry(): State {
    State(AdminConnected, Disconnected, true, true, [], 0, IDLE.(notified := 1, attempts := 1, timerArmed := true))
  }

  lemma {:induction false} ConnectFails()
    ensures var s := Trying(IDLE.(attempts := 1));
            && Goes(INITIAL, START, UserConnect(true), s, START, true)
            && Goes(s, START, ConnectFailed, WaitingToTry(), START, true)
  {
  }

  /** Connecting again, before the handler of a timer that has expired, or while the timer is armed. */
  ghost function Again(io: Io): State {
    Trying(io.(notified := 1, attempts := 2))
  }

  lemma {:induction false} ExpiresBefore()
    ensures var a := WaitingToTry().(io := IDLE.(notified := 1, attempts := 1, timersFired := 1));
            && Goes(WaitingToTry(), START, TimerExpires, a, START, true)
            && Goes(a, START, UserConnect(true), Again(IDLE.(timersFired := 1)), START, true)
  {
  }

  lemma {:induction false} ConnectsWhileFired()
    ensures Goes(Again(IDLE.(timersFired := 1)), START, ConnectDone, ConnectedBefore(), START, true)
  {
  }

  lemma {:induction false} ConnectsWhileArmed()
    ensures var up := Up(IDLE.(notified := 2, attempts := 2, timerArmed := true), []);
            && Goes(WaitingToTry(), START, UserConnect(true), Again(IDLE.(timerArmed := true)), START, true)
            && Goes(Again(IDLE.(timerArmed := true)), START, ConnectDone, up, START, true)
            && Goes(up, START, TimerExpires, ConnectedBefore(), START, true)
  {
  }

  /**
   A connect fails and the timer is to repeat it, but the user connects first: the
   timer that expires before or after that finds the connection up.
   */
  lemma {:induction false} ConnectedBeforeIsReached()
    ensures Leads(INITIAL, START, WaitingToTry(), START, true)
    ensures Leads(INITIAL, START, ConnectedBefore(), START, true)
    ensures Goes(WaitingToTry(), START, UserConnect(true), Again(IDLE.(timerArmed := true)), START, true)
         && Leads(Again(IDLE.(timerArmed := true)), START, ConnectedBefore(), START, true)
  {
    var waiting, trying := WaitingToTry(), Trying(IDLE.(attempts := 1));
    var expired := waiting.(io := IDLE.(notified := 1, attempts := 1, timersFired := 1));
    var fired, armed := Again(IDLE.(timersFired := 1)), Again(IDLE.(timerArmed := true));
    var up, end := Up(IDLE.(notified := 2, attempts := 2, timerArmed := true), []), ConnectedBefore();
    ConnectFails();
    ExpiresBefore();
    ConnectsWhileFired();
    ConnectsWhileArmed();
    hide Leads, Goes, Up, Again, WaitingToTry, Trying;
    LeadsHere(waiting, START, true);
    LeadsStep(trying, START, ConnectFailed, waiting, START, waiting, START, true);
    LeadsStep(INITIAL, START, UserConnect(true), trying, START, waiting, START, true);
    LeadsHere(end, START, true);
    LeadsStep(up, START, TimerExpires, end, START, end, START, true);
    LeadsStep(armed, START, ConnectDone, up, START, end, START, true);
    LeadsStep(fired, START, ConnectDone, end, START, end, START, true);
    LeadsStep(expired, START, UserConnect(true), fired, START, end, START, true);
    LeadsStep(waiting, START, TimerExpires, expired, START, end, START, true);
    LeadsStep(trying, START, ConnectFailed, waiting, START, end, START, true);
    LeadsStep(INITIAL, START, UserConnect(true), trying, START, end, START, true);
  }

  /** Its handler takes the connection down, and no connect or timer is under way to bring it up again. */
  lemma {:induction false} StaleTimerWitness()
    ensures ConnectedBefore().IsConnected() && Enabled(ConnectedBefore(), TimerHandler)
    ensures var t := Next(ConnectedBefore(), TimerHandler); !t.IsConnected() && t.io.socketOpen && !Alive(t)
  {
    AliveStep(ConnectedBefore(), TimerHandler);
  }

  // ---- what brings a connection up again ----

  /** Any loss does, also one of a socket that was open in vain. */
  lemma {:induction false} LossRevives(s: State, e: Event)
    requires Enabled(s, e) && Loses(s, e)
    ensures Alive(Next(s, e))
  {
    hide Next, Enabled, Loses;
    LossTakesDown(s, e);
  }

  /**
   After any loss of a connection the user wants, the timer can run and a connect
   complete: one more attempt, the same callbacks, and a connection on which nothing
   is queued. If no handler of the lost one is left it starts sound.
   */
  lemma {:induction false} LossRecovers(s: State, h: Epoch, e: Event)
    requires Inv(s, h) && Enabled(s, e) && Loses(s, e) && s.astate == AdminConnected && s.autoReconnect
    ensures exists u :: Leads(Next(s, e), h, u, START, false) && JustUp(u)
              && u.callbacks == s.callbacks && u.autoReconnect && u.io.attempts == s.io.attempts + 1
              && u.io.notified == s.io.notified + (if !s.callbacks then 0 else if e.UserReconnect? then 1 else 2)
              && (Tokens(Next(s, e)) == 0 ==> Leads(Next(s, e), h, u, START, true) && Inv(u, START))
  {
    hide Leads, Next, Inv, Enabled;
    LossTakesDown(s, e);
    StepKeeps(s, h, e);
    assert Observe(s, h, e) == h;
    var u := TimerReconnects(Next(s, e), h);
  }

  lemma {:induction false} TimerReconnects(s: State, h: Epoch) returns (u: State)
    requires Inv(s, h) && s.io.timerArmed && !s.io.socketOpen && s.astate == AdminConnected && !s.IsConnected()
    ensures Leads(s, h, u, START, false) && JustUp(u)
    ensures u.callbacks == s.callbacks && u.autoReconnect == s.autoReconnect
    ensures u.io.attempts == s.io.attempts + 1
    ensures u.io.notified == s.io.notified + if s.callbacks then 1 else 0
    ensures Tokens(s) == 0 ==> Leads(s, h, u, START, true) && Inv(u, START)
    decreases |s.io.recalls|
  {
    hide Leads, Inv;
    if start :| start in s.io.recalls {
      // a completion handler ends, without a write
      StepKeeps(s, h, Recall(start));
      u := TimerReconnects(Next(s, Recall(start)), h);
      LeadsStep(s, h, Recall(start), Next(s, Recall(start)), h, u, START, false);
    } else {
      assert s.io.recalls == multiset{};
      u := TimerRuns(s, h);
    }
  }

  lemma {:induction false} TimerRuns(s: State, h: Epoch) returns (u: State)
    requires Inv(s, h) && s.io.timerArmed && !s.io.socketOpen && s.astate == AdminConnected
    requires s.io.recalls == multiset{}
    ensures Leads(s, h, u, START, false) && JustUp(u)
    ensures u.callbacks == s.callbacks && u.autoReconnect == s.autoReconnect
    ensures u.io.attempts == s.io.attempts + 1
    ensures u.io.notified == s.io.notified + if s.callbacks then 1 else 0
    ensures Tokens(s) == 0 ==> Leads(s, h, u, START, true) && Inv(u, START)
  {
    hide Leads, Inv;
    var t := Next(s, TimerExpires);
    StepKeeps(s, h, TimerExpires);
    var v := Next(t, TimerHandler);
    StepKeeps(t, h, TimerHandler);
    u := Next(v, ConnectDone);
    LeadsHere(u, START, false);
    LeadsStep(v, h, ConnectDone, u, START, u, START, false);
    LeadsStep(t, h, TimerHandler, v, h, u, START, false);
    LeadsStep(s, h, TimerExpires, t, h, u, START, false);
    if Tokens(s) == 0 {
      ConnectDoneKeeps(v, h);
      LeadsHere(u, START, true);
      LeadsStep(v, h, ConnectDone, u, START, u, START, true);
      LeadsStep(t, h, TimerHandler, v, h, u, START, true);
      LeadsStep(s, h, TimerExpires, t, h, u, START, true);
    }
  }

  /**
   From a disconnect by the user, in whatever state, a connect brings the connection up
   again: one attempt, nothing queued, and soundly if no handler is left by then.
   */
  lemma {:induction false} DisconnectRecovers(s: State, h: Epoch, auto: bool)
    requires Inv(s, h)
    ensures var t := Next(s, UserDisconnect);
            exists u :: Leads(t, h, u, START, false) && JustUp(u)
              && u.callbacks && u.autoReconnect == auto && u.io.socketOpen
              && u.io.attempts == s.io.attempts + 1 && u.io.notified == s.io.notified + 1
              && (Tokens(s) == 0 ==> Leads(t, h, u, START, true) && Inv(u, START))
  {
    hide Leads, Next, Inv;
    DisconnectReleases(s);
    StepKeeps(s, h, UserDisconnect);
    DisconnectKeepsTokens(s);
    var u := ConnectRuns(Next(s, UserDisconnect), h, auto);
  }

  lemma {:induction false} DisconnectKeepsTokens(s: State)
    ensures Tokens(Next(s, UserDisconnect)) == Tokens(s)
    ensures Next(s, UserDisconnect).io.notified == s.io.notified
  {
  }

  lemma {:induction false} ConnectRuns(s: State, h: Epoch, auto: bool) returns (u: State)
    requires Inv(s, h) && !s.io.socketOpen && !s.IsConnected()
    ensures Leads(s, h, u, START, false) && JustUp(u)
    ensures u.callbacks && u.autoReconnect == auto && u.io.socketOpen
    ensures u.io.attempts == s.io.attempts + 1 && u.io.notified == s.io.notified + 1
    ensures Tokens(s) == 0 ==> Leads(s, h, u, START, true) && Inv(u, START)
    decreases |s.io.recalls|
  {
    hide Leads, Inv;
    if start :| start in s.io.recalls {
      StepKeeps(s, h, Recall(start));
      u := ConnectRuns(Next(s, Recall(start)), h, auto);
      LeadsStep(s, h, Recall(start), Next(s, Recall(start)), h, u, START, false);
    } else {
      assert s.io.recalls == multiset{};
      var v := Next(s, UserConnect(auto));
      StepKeeps(s, h, UserConnect(auto));
      u := Next(v, ConnectDone);
      LeadsHere(u, START, false);
      LeadsStep(v, h, ConnectDone, u, START, u, START, false);
      LeadsStep(s, h, UserConnect(auto), v, h, u, START, false);
      if Tokens(s) == 0 {
        ConnectDoneKeeps(v, h);
        LeadsHere(u, START, true);
        LeadsStep(v, h, ConnectDone, u, START, u, START, true);
        LeadsStep(s, h, UserConnect(auto), v, h, u, START, true);
      }
    }
  }

  // ---- the queue gets out ----

  /** What a writer does: its dispatch, its turn, the completion of its write and the call behind it. */
  predicate Writes(e: Event) {
    e.SendDispatch? || e.RunDispatched? || e.WriteDone? || e.Recall?
  }

  /** A serial run of nothing but the writer leads from here to there. */
  ghost predicate WritesTo(s: State, h: Epoch, t: State, k: Epoch) {
    exists events :: Legal(s, events, true) && Legal(s, events, false) && Serial(s, events)
      && (forall i :: 0 <= i < |events| ==> Writes(events[i]))
      && After(s, h, events) == (t, k)
  }

  lemma {:induction false} WritesHere(s: State, h: Epoch)
    ensures WritesTo(s, h, s, h)
  {
    RunNothing(s, h);
    var events: seq<Event> := [];
    assert Legal(s, events, true) && Legal(s, events, false) && Serial(s, events) && After(s, h, events) == (s, h);
  }

  lemma {:induction false} WritesStep(s: State, h: Epoch, e: Event, t: State, k: Epoch)
    requires Enabled(s, e) && !Interrupts(s, e) && Writes(e) && WritesTo(Next(s, e), Observe(s, h, e), t, k)
    ensures WritesTo(s, h, t, k)
  {
    hide Legal, After, Serial, Enabled, Interrupts, Next, Observe;
    var u, l := Next(s, e), Observe(s, h, e);
    var events :| Legal(u, events, true) && Legal(u, events, false) && Serial(u, events)
      && (forall i :: 0 <= i < |events| ==> Writes(events[i])) && After(u, l, events) == (t, k);
    RunStep(s, h, e, events, true);
    assert forall i :: 0 <= i < |[e] + events| ==> Writes(([e] + events)[i]);
  }

  /** The write of the front message completes, and so do those behind it. */
  lemma {:induction false} WriteDrains(s: State, h: Epoch, write: Write) returns (t: State, k: Epoch)
    requires Inv(s, h) && s.IsConnected() && write in s.io.writes
    ensures WritesTo(s, h, t, k) && Inv(t, k) && t.IsConnected() && t.sendBuffer == [] && k.accepted == h.accepted
    decreases |s.sendBuffer|
  {
    hide WritesTo, Inv, Next, Observe;
    var done := WriteDone(write, write.length);
    StepKeeps(s, h, done);
    WriteGoesOn(s, h, write);
    var u, l := Next(s, done), Observe(s, h, done);
    if u.sendBuffer == [] {
      t, k := u, l;
      WritesHere(u, l);
    } else {
      var next := Write(0, |u.sendBuffer[0]|);
      StepKeeps(u, l, Recall(0));
      RecallStarts(u, l);
      t, k := WriteDrains(Next(u, Recall(0)), l, next);
      WritesStep(u, l, Recall(0), t, k);
    }
    WritesStep(s, h, done, t, k);
  }

  lemma {:induction false} WriteGoesOn(s: State, h: Epoch, write: Write)
    requires Inv(s, h) && s.IsConnected() && write in s.io.writes
    ensures var done := WriteDone(write, write.length);
            var u, l := Next(s, done), Observe(s, h, done);
            && Enabled(s, done) && !Interrupts(s, done)
            && u.IsConnected() && s.sendBuffer != [] && u.sendBuffer == s.sendBuffer[1..] && l.accepted == h.accepted
            && (u.sendBuffer != [] ==> 0 in u.io.recalls)
  {
    hide Concat, Total;
    OnlyWrite(s, h, write);
    TotalFront(s.sendBuffer);
    AllWrittenStep(s, h, write);
  }

  lemma {:induction false} RecallStarts(s: State, h: Epoch)
    requires s.IsConnected() && s.sendBuffer != [] && 0 in s.io.recalls
    ensures var t := Next(s, Recall(0));
            && Enabled(s, Recall(0)) && !Interrupts(s, Recall(0)) && Observe(s, h, Recall(0)) == h
            && t.IsConnected() && t.sendBuffer == s.sendBuffer && Write(0, |s.sendBuffer[0]|) in t.io.writes
  {
  }

  /**
   No message is stranded: from every connected state that a timely run reaches, a run
   of the writer alone puts everything accepted on the wire, in order.
   */
  lemma {:induction false} QueueDrains(s: State, h: Epoch)
    requires Reachable(s, h) && s.IsConnected()
    ensures exists t, k :: WritesTo(s, h, t, k) && t.IsConnected() && t.sendBuffer == []
              && k.accepted == h.accepted && k.wire == Concat(h.accepted)
  {
    hide WritesTo, Reachable, Inv;
    ReachableKeeps(s, h);
    var t, k := WriterDrains(s, h);
    var _ := WireStands(t, k);
  }

  lemma {:induction false} WriterDrains(s: State, h: Epoch) returns (t: State, k: Epoch)
    requires Inv(s, h) && s.IsConnected()
    ensures WritesTo(s, h, t, k) && Inv(t, k) && t.IsConnected() && t.sendBuffer == [] && k.accepted == h.accepted
  {
    hide WritesTo, Concat, Total;
    if s.sendBuffer == [] {
      t, k := s, h;
      WritesHere(s, h);
    } else if write :| write in s.io.writes {
      t, k := WriteDrains(s, h, write);
    } else {
      assert s.io.writes == multiset{};
      if start :| start in s.io.recalls {
        t, k := StartDrains(s, h, Recall(start), start);
      } else {
        assert s.io.recalls == multiset{};
        if s.io.dispatched > 0 {
          t, k := StartDrains(s, h, RunDispatched, 0);
        } else {
          var u := Next(s, SendDispatch);
          StepKeeps(s, h, SendDispatch);
          t, k := StartDrains(u, h, RunDispatched, 0);
          WritesStep(s, h, SendDispatch, t, k);
        }
      }
    }
  }

  lemma {:induction false} StartWrites(s: State, h: Epoch, e: Event, start: nat)
    requires Inv(s, h) && s.IsConnected() && s.sendBuffer != [] && Enabled(s, e)
    requires e == Recall(start) || (e == RunDispatched && start == 0 && s.io.recalls == multiset{})
    ensures !Interrupts(s, e) && Writes(e) && Observe(s, h, e) == h && start <= |s.sendBuffer[0]|
    ensures Next(s, e).IsConnected() && Write(start, |s.sendBuffer[0]| - start) in Next(s, e).io.writes
  {
    hide Concat, Total;
    assert TcpProperties.Written(s, h, start) || start == 0;
  }

  lemma {:induction false} StartDrains(s: State, h: Epoch, e: Event, start: nat) returns (t: State, k: Epoch)
    requires Inv(s, h) && s.IsConnected() && s.sendBuffer != [] && Enabled(s, e)
    requires e == Recall(start) || (e == RunDispatched && start == 0 && s.io.recalls == multiset{})
    ensures WritesTo(s, h, t, k) && Inv(t, k) && t.IsConnected() && t.sendBuffer == [] && k.accepted == h.accepted
  {
    hide WritesTo, Inv, Next, Enabled, Interrupts, Observe, Writes;
    StartWrites(s, h, e, start);
    StepKeeps(s, h, e);
    t, k := WriteDrains(Next(s, e), h, Write(start, |s.sendBuffer[0]| - start));
    WritesStep(s, h, e, t, k);
  }
}
