/** The supervisor under a host that follows the MCP lifecycle. */
module SupervisorLifecycle {
  import opened Wrappers
  import opened Supervisor
  import opened SupervisorSafety

  /** The lines written to one child, in order. */
  function LinesTo(delivered: seq<Delivery>, child: nat): seq<Line> {
    if delivered == [] then []
    else
      var last := delivered[|delivered| - 1];
      LinesTo(delivered[..|delivered| - 1], child) + if last.child == child then [last.line] else []
  }

  lemma LinesNext(delivered: seq<Delivery>, d: Delivery, child: nat)
    ensures LinesTo(delivered + [d], child) == LinesTo(delivered, child) + if d.child == child then [d.line] else []
  {
    assert (delivered + [d])[..|delivered|] == delivered;
  }

  /** The line of the host that an event reads. */
  function HostLineOf(e: Event): Option<Line> {
    if e.HostLine? then Some(e.line) else if e.RestartCut? then e.unwritten else None
  }

  /** One initialize request; one initialized notification, after the response was read. */
  predicate Lifecycle(w: World, e: Event) {
    HostLineOf(e).Some? ==>
      match Classify(HostLineOf(e).value)
      case Request(_, initialize) => initialize ==> w.p.initializeLine.None?
      case Initialized => w.p.initializeComplete && w.p.initializedLine.None?
      case Other => true
  }

  predicate LifecycleRun(events: seq<Event>) {
    events == [] ||
    (LifecycleRun(events[..|events| - 1]) &&
     var before := StepAll(START, events[..|events| - 1]);
     before.alive ==> Lifecycle(before, events[|events| - 1]))
  }

  /** The handshake a new child must see before anything else, as far as the host got with it. */
  function Handshake(p: Protocol, initialized: bool): seq<Line> {
    (if p.initializeLine.Some? then [p.initializeLine.value] else []) +
    (if initialized && p.initializedLine.Some? then [p.initializedLine.value] else [])
  }

  /** lines is the start of a handshake, or starts with all of it. */
  predicate Agrees(lines: seq<Line>, handshake: seq<Line>) {
    lines <= handshake || handshake <= lines
  }

  ghost predicate SinceOk(w: World) {
    && (w.since.Some? <==> w.p.initializeLine.Some?)
    && (w.ready.Some? <==> w.p.initializedLine.Some?)
    && (w.since.Some? ==> w.since.value <= w.spawned)
    && (w.ready.Some? ==> w.since.Some? && w.since.value <= w.ready.value <= w.spawned && w.p.initializeComplete)
  }

  /** Which handshake a child spawned as number c must see first. */
  function Owed(w: World, c: nat): seq<Line> {
    if w.ready.Some? && c >= w.ready.value then Handshake(w.p, true)
    else if w.since.Some? && c >= w.since.value then Handshake(w.p, false)
    else []
  }

  ghost predicate Greeted(w: World) {
    && (forall c: nat :: Agrees(LinesTo(w.delivered, c), Owed(w, c)))
    && (forall c: nat :: c >= w.spawned ==> LinesTo(w.delivered, c) == [])
  }

  /** The host has read one initialize response if the handshake is complete, else none. */
  ghost predicate OneResponse(w: World) {
    w.p.initializeId.Some? ==> Answers(w.output, w.p.initializeId.value) == if w.p.initializeComplete then 1 else 0
  }

  /** Never more than one, also when the run was cut while the response was on its way. */
  ghost predicate AtMostOneResponse(w: World) {
    w.p.initializeId.Some? ==> Answers(w.output, w.p.initializeId.value) <= 1
  }

  ghost predicate Orderly(w: World) {
    && SinceOk(w) && Greeted(w) && OneResponse(w)
    && Owed(w, w.child) <= LinesTo(w.delivered, w.child)
    && (w.p.initializeComplete ==> w.p.initializeId.Some? && (w.child, w.p.initializeId.value) in w.replied)
  }

  lemma HostLineSince(w: World, line: Line)
    requires SinceOk(w) && Lifecycle(w, HostLine(line, true, []))
    requires w.p.initializeComplete ==> w.p.initializeLine.Some?
    ensures SinceOk(Deliver(ReadHost(w, line), line))
  {
  }

  lemma HostLineOwed(w: World, line: Line, c: nat)
    requires SinceOk(w) && Lifecycle(w, HostLine(line, true, [])) && c < w.spawned
    ensures Owed(Deliver(ReadHost(w, line), line), c) == Owed(w, c)
  {
  }

  lemma HostLineGreeted(w: World, line: Line)
    requires SinceOk(w) && Greeted(w) && Lifecycle(w, HostLine(line, true, [])) && w.child < w.spawned
    requires Owed(w, w.child) <= LinesTo(w.delivered, w.child)
    ensures var w1 := Deliver(ReadHost(w, line), line);
            Greeted(w1) && Owed(w1, w1.child) <= LinesTo(w1.delivered, w1.child)
  {
    hide Classify, Agrees, Owed;
    var w1 := Deliver(ReadHost(w, line), line);
    GrowsAgree(LinesTo(w.delivered, w.child), line, Owed(w, w.child));
    forall c: nat
      ensures LinesTo(w1.delivered, c) ==
              if c == w.child then LinesTo(w.delivered, c) + [line] else LinesTo(w.delivered, c)
    {
      LinesNext(w.delivered, Delivery(w.child, line), c);
    }
    forall c: nat ensures Agrees(LinesTo(w1.delivered, c), Owed(w1, c)) {
      assert Agrees(LinesTo(w.delivered, c), Owed(w, c));
      if c < w.spawned {
        HostLineOwed(w, line, c);
      } else {
        assert LinesTo(w1.delivered, c) == [];
        NothingAgrees(Owed(w1, c));
      }
    }
    HostLineOwed(w, line, w.child);
  }

  lemma GrowsAgree(lines: seq<Line>, line: Line, handshake: seq<Line>)
    requires handshake <= lines
    ensures handshake <= lines + [line] && Agrees(lines + [line], handshake)
  {
  }

  lemma NothingAgrees(handshake: seq<Line>)
    ensures Agrees([], handshake)
  {
  }

  lemma HostLineResponse(w: World, line: Line)
    requires Safe(w) && OneResponse(w) && Lifecycle(w, HostLine(line, true, []))
    requires Classify(line).Request? ==> Classify(line).id !in w.used
    ensures OneResponse(Deliver(ReadHost(w, line), line))
  {
    if Classify(line).Request? {
      assert Unseen(w, Classify(line).id);
    }
  }

  lemma HostLineOrderly(w: World, line: Line)
    requires Safe(w) && Orderly(w) && Lifecycle(w, HostLine(line, true, []))
    requires Classify(line).Request? ==> Classify(line).id !in w.used
    ensures Orderly(Deliver(ReadHost(w, line), line))
  {
    HostLineSince(w, line);
    HostLineGreeted(w, line);
    HostLineResponse(w, line);
  }

  lemma ChildLineOrderly(w: World, line: Line)
    requires Safe(w) && Orderly(w) && MaySay(w, line)
    ensures Orderly(ReadChild(w, line))
  {
    hide Agrees, Owed;
    var w1 := ReadChild(w, line);
    if w.p.initializeId.Some? {
      AnswersNext(w.output, FromChild(line), w.p.initializeId.value);
    }
    SameGreetings(w, w1);
  }

  /** Greetings depend on the handshake lines and on what was written, only. */
  lemma SameGreetings(w: World, w1: World)
    requires w1.p.initializeLine == w.p.initializeLine && w1.p.initializedLine == w.p.initializedLine
    requires w1.since == w.since && w1.ready == w.ready && w1.delivered == w.delivered && w1.spawned >= w.spawned
    ensures forall c: nat :: Owed(w1, c) == Owed(w, c)
    ensures Greeted(w) ==> Greeted(w1)
  {
    hide Agrees;
    forall c: nat | Greeted(w) ensures Agrees(LinesTo(w1.delivered, c), Owed(w1, c)) {
      assert Agrees(LinesTo(w.delivered, c), Owed(w, c));
    }
  }

  /** Between two children, everything but the handshake of the next child holds. */
  ghost predicate Waiting(w: World) {
    && SinceOk(w) && Greeted(w) && OneResponse(w)
    && (w.p.initializeLine.Some? <==> w.p.initializeId.Some?)
    && (w.p.initializeComplete ==> w.p.initializeId.Some?)
  }

  lemma InterruptWaiting(w: World)
    requires Safe(w) && Orderly(w)
    ensures Waiting(Interrupt(w)) && Interrupt(w).spawned == w.spawned
  {
    var w1 := Interrupt(w);
    if w.p.initializeId.Some? {
      AnswersNext(w.output, Interrupted(InterruptedIds(w.p)), w.p.initializeId.value);
    }
    SameGreetings(w, w1);
  }

  lemma {:induction false} ReplayWaiting(w: World, replies: seq<Line>)
    requires Waiting(w) && w.p.initializeId.Some?
    requires forall line :: line in replies && ResponseId(line).Some? ==> ResponseId(line) == w.p.initializeId
    ensures var (w1, found) := Replay(w, replies);
            && Waiting(w1) && w1.delivered == w.delivered && w1.p == w.p && w1.child == w.child
            && w1.spawned == w.spawned && w1.since == w.since && w1.ready == w.ready
            && (found ==> (w.child, w.p.initializeId.value) in w1.replied)
    decreases |replies|
  {
    if replies == [] {
    } else {
      assert replies[0] in replies;
      var w1 := if ResponseId(replies[0]) == w.p.initializeId
                then w.(replied := w.replied + {(w.child, w.p.initializeId.value)})
                else w.(output := w.output + [FromChild(replies[0])]);
      AnswersNext(w.output, FromChild(replies[0]), w.p.initializeId.value);
      SameGreetings(w, w1);
      if ResponseId(replies[0]) != w.p.initializeId {
        ReplayWaiting(w1, replies[1..]);
      }
    }
  }

  /** A handshake line is written to a child that so far has seen the part before it. */
  lemma GreetNext(w: World, line: Line)
    requires Waiting(w) && w.child < w.spawned
    requires Agrees(LinesTo(w.delivered, w.child) + [line], Owed(w, w.child))
    ensures Waiting(Deliver(w, line))
    ensures LinesTo(Deliver(w, line).delivered, w.child) == LinesTo(w.delivered, w.child) + [line]
  {
    var w1 := Deliver(w, line);
    forall c: nat ensures LinesTo(w1.delivered, c) == LinesTo(w.delivered, c) + if c == w.child then [line] else [] {
      LinesNext(w.delivered, Delivery(w.child, line), c);
    }
    forall c: nat ensures Agrees(LinesTo(w1.delivered, c), Owed(w1, c)) {
      assert Agrees(LinesTo(w.delivered, c), Owed(w, c));
    }
  }

  /** A child is new when it was spawned after the handshake so far. */
  ghost predicate Newest(w: World) {
    && w.child < w.spawned
    && (w.since.Some? ==> w.child >= w.since.value) && (w.ready.Some? ==> w.child >= w.ready.value)
  }

  lemma NewestOwed(w: World)
    requires Waiting(w) && Newest(w)
    ensures Owed(w, w.child) == Handshake(w.p, true)
  {
  }

  lemma FirstGreeting(w: World)
    requires Waiting(w) && Newest(w) && LinesTo(w.delivered, w.child) == [] && w.p.initializeLine.Some?
    ensures var w1 := Deliver(w, w.p.initializeLine.value);
            Waiting(w1) && Newest(w1) && LinesTo(w1.delivered, w1.child) == Handshake(w.p, false)
  {
    var line := w.p.initializeLine.value;
    NewestOwed(w);
    assert [] + [line] == [line] && Handshake(w.p, true)[..1] == [line];
    GreetNext(w, line);
  }

  lemma SecondGreeting(w: World)
    requires Waiting(w) && Newest(w) && LinesTo(w.delivered, w.child) == Handshake(w.p, false)
    requires w.p.initializeLine.Some? && w.p.initializedLine.Some?
    ensures var w1 := Deliver(w, w.p.initializedLine.value);
            Waiting(w1) && Newest(w1) && LinesTo(w1.delivered, w1.child) == Handshake(w.p, true)
  {
    var line := w.p.initializedLine.value;
    NewestOwed(w);
    assert Handshake(w.p, false) + [line] == Handshake(w.p, true);
    GreetNext(w, line);
  }

  lemma WaitingIsOrderly(w: World)
    requires Waiting(w) && Newest(w) && LinesTo(w.delivered, w.child) == Handshake(w.p, true)
    requires w.p.initializeComplete ==> (w.child, w.p.initializeId.value) in w.replied
    ensures Orderly(w)
  {
    NewestOwed(w);
  }

  /** A newly spawned child that bootstraps has seen the whole handshake, and nothing else. */
  lemma BootstrapOrderly(w: World, a: Attempt)
    requires a.Spawned? && Waiting(w) && Newest(w) && LinesTo(w.delivered, w.child) == []
    requires forall line :: line in a.replies && ResponseId(line).Some? ==> ResponseId(line) == w.p.initializeId
    ensures var (w1, ok) := Bootstrap(w, a);
            && Waiting(w1) && w1.spawned == w.spawned && w1.p == w.p
            && (ok ==> Orderly(w1) && LinesTo(w1.delivered, w1.child) == Handshake(w.p, true))
  {
    hide Agrees, Owed, Greeted, OneResponse, Orderly, LinesTo, Classify;
    if w.p.initializeLine.None? {
      assert Handshake(w.p, true) == [];
      WaitingIsOrderly(w);
    } else {
      FirstGreeting(w);
      var w1 := Deliver(w, w.p.initializeLine.value);
      assert w.p.initializedLine.None? ==> Handshake(w.p, false) == Handshake(w.p, true);
      if a.initializeWritten {
        if !w.p.initializeComplete {
          WaitingIsOrderly(w1);
        } else {
          ReplayWaiting(w1, a.replies);
          var (w2, found) := Replay(w1, a.replies);
          if found && w.p.initializedLine.Some? {
            SecondGreeting(w2);
            WaitingIsOrderly(Deliver(w2, w.p.initializedLine.value));
          } else if found {
            WaitingIsOrderly(w2);
          }
        }
      }
    }
  }

  lemma SpawnWaiting(w: World)
    requires Waiting(w)
    ensures Waiting(Spawn(w)) && Newest(Spawn(w)) && LinesTo(Spawn(w).delivered, Spawn(w).child) == []
  {
    SameGreetings(w, Spawn(w));
  }

  lemma {:induction false} AttemptsOrderly(w: World, attempts: seq<Attempt>)
    requires Waiting(w)
    requires forall a :: a in attempts && a.Spawned? ==>
      forall line :: line in a.replies && ResponseId(line).Some? ==> ResponseId(line) == w.p.initializeId
    ensures Waiting(TryAttempts(w, attempts))
    ensures TryAttempts(w, attempts).alive ==> Orderly(TryAttempts(w, attempts))
    decreases |attempts|
  {
    if attempts == [] {
      SameGreetings(w, w.(alive := false));
    } else if attempts[0].SpawnFailed? {
      AttemptsOrderly(w, attempts[1..]);
    } else {
      assert attempts[0] in attempts;
      SpawnWaiting(w);
      BootstrapOrderly(Spawn(w), attempts[0]);
      AttemptsOrderly(Bootstrap(Spawn(w), attempts[0]).0, attempts[1..]);
    }
  }

  lemma RestartOrderly(w: World, attempts: seq<Attempt>)
    requires Safe(w) && Orderly(w) && MayReplay(w.p, attempts)
    ensures Waiting(Restart(w, attempts))
    ensures Restart(w, attempts).alive ==> Orderly(Restart(w, attempts))
  {
    InterruptWaiting(w);
    AttemptsOrderly(Interrupt(w), attempts);
  }

  /** What holds after any event, also one that ends the run. */
  ghost predicate Settled(w: World) {
    Greeted(w) && AtMostOneResponse(w) && (w.alive ==> Orderly(w))
  }

  lemma HostLineSettles(w: World, line: Line, written: bool, attempts: seq<Attempt>)
    requires w.alive && Safe(w) && Orderly(w)
    requires Allowed(w, HostLine(line, written, attempts)) && Lifecycle(w, HostLine(line, written, attempts))
    ensures Settled(Step(w, HostLine(line, written, attempts)))
  {
    hide Greeted, OneResponse, Safe, SinceOk, Owed, LinesTo, Restart;
    HostLineSafe(w, line);
    HostLineOrderly(w, line);
    var w1 := Deliver(ReadHost(w, line), line);
    if written {
      ResponseSettles(w1);
    } else {
      RestartSettles(w1, attempts);
    }
  }

  lemma ResponseSettles(w: World)
    requires OneResponse(w)
    ensures AtMostOneResponse(w)
  {}

  lemma RestartSettles(w: World, attempts: seq<Attempt>)
    requires Safe(w) && Orderly(w) && MayReplay(w.p, attempts)
    ensures Settled(Restart(w, attempts))
  {
    hide Greeted, OneResponse, Safe, SinceOk, Restart, Orderly;
    RestartOrderly(w, attempts);
    ResponseSettles(Restart(w, attempts));
  }

  lemma CutSettles(w: World, e: Event)
    requires w.alive && Safe(w) && Orderly(w) && Allowed(w, e) && Lifecycle(w, e)
    requires e.HostEnds? || e.ChildUnreadable? || e.HostUnwritable? || e.RestartCut?
    ensures Settled(Step(w, e))
  {
    hide Greeted, Safe, SinceOk, Owed, LinesTo, CutRestart;
    if e.RestartCut? {
      if e.unwritten.Some? {
        HostLineSafe(w, e.unwritten.value);
        HostLineOrderly(w, e.unwritten.value);
        CutRestartOrderly(Deliver(ReadHost(w, e.unwritten.value), e.unwritten.value), e.reported);
      } else {
        CutRestartOrderly(w, e.reported);
      }
      CutRestartEnds(if e.unwritten.Some? then Deliver(ReadHost(w, e.unwritten.value), e.unwritten.value) else w, e.reported);
    } else {
      SameGreetings(w, Step(w, e));
    }
  }

  lemma CutRestartEnds(w: World, reported: set<Id>)
    ensures !CutRestart(w, reported).alive
  {}

  lemma StepOrderly(w: World, e: Event)
    requires w.alive && Safe(w) && Orderly(w) && Allowed(w, e) && Lifecycle(w, e)
    ensures Settled(Step(w, e))
  {
    hide Settled;
    match e {
      case HostLine(line, written, attempts) => HostLineSettles(w, line, written, attempts);
      case ChildLine(line) =>
        ChildLineOrderly(w, line);
        OrderlySettles(ReadChild(w, line));
      case ChildExit(attempts) => RestartSettles(w, attempts);
      case RestartRequest(attempts) => RestartSettles(w, attempts);
      case _ => CutSettles(w, e);
    }
  }

  lemma OrderlySettles(w: World)
    requires Orderly(w)
    ensures Settled(w)
  {}

  lemma CutRestartOrderly(w: World, reported: set<Id>)
    requires Safe(w) && Orderly(w)
    ensures Greeted(CutRestart(w, reported)) && AtMostOneResponse(CutRestart(w, reported))
  {
    SameGreetings(w, CutRestart(w, reported));
    if w.p.initializeId.Some? {
      AnswersNext(w.output, Interrupted(InterruptedIds(w.p) * reported), w.p.initializeId.value);
    }
  }

  /**
   The host reads at most one initialize response; every child spawned since the
   initialize request receives it first; and every child spawned since the
   initialized notification receives both before anything else.
   */
  lemma {:induction false} RunIsOrderly(events: seq<Event>)
    requires AllowedRun(events) && LifecycleRun(events)
    ensures Greeted(StepAll(START, events)) && AtMostOneResponse(StepAll(START, events))
    ensures StepAll(START, events).alive ==> Orderly(StepAll(START, events))
  {
    if events == [] {
      assert forall c: nat :: LinesTo(START.delivered, c) == [];
    } else {
      var init := events[..|events| - 1];
      RunIsOrderly(init);
      RunIsSafe(init);
      if StepAll(START, init).alive {
        StepOrderly(StepAll(START, init), events[|events| - 1]);
      }
    }
  }

  /**
   For any host: a child that bootstraps has been written the initialize line,
   and the initialized line if and only if the handshake was complete.
   */
  lemma BootstrapWrites(w: World, a: Attempt)
    requires a.Spawned? && LinesTo(w.delivered, w.child) == [] && Bootstrap(w, a).1
    requires w.p.initializeComplete || w.p.initializedLine.Some? ==> w.p.initializeLine.Some?
    ensures LinesTo(Bootstrap(w, a).0.delivered, w.child) == Handshake(w.p, w.p.initializeComplete)
  {
    hide Replay, LinesTo, Classify;
    if w.p.initializeLine.Some? {
      var w1 := Deliver(w, w.p.initializeLine.value);
      LinesNext(w.delivered, Delivery(w.child, w.p.initializeLine.value), w.child);
      if w.p.initializeComplete {
        ReplayKeeps(w1, a.replies);
        ReplayChild(w1, a.replies);
        var w2 := Replay(w1, a.replies).0;
        if w.p.initializedLine.Some? {
          LinesNext(w2.delivered, Delivery(w.child, w.p.initializedLine.value), w.child);
        }
      }
    }
  }

  lemma {:induction false} ReplayChild(w: World, replies: seq<Line>)
    ensures Replay(w, replies).0.child == w.child
    decreases |replies|
  {
    if replies != [] && ResponseId(replies[0]) != w.p.initializeId {
      ReplayChild(w.(output := w.output + [FromChild(replies[0])]), replies[1..]);
    }
  }

  /**
   A host that sends the initialized notification before it has read the
   response, against the protocol, can lose it: the replacement never gets it.
   */
  lemma EarlyNotificationLost()
    ensures exists events ::
      && AllowedRun(events)
      && var w := StepAll(START, events);
         && w.alive && w.child == 1 && w.p.initializedLine.Some?
         && w.p.initializedLine.value !in LinesTo(w.delivered, 1)
  {
    var initialize := Line("1", Some(Message(Some("initialize"), Some(Number(1)))));
    var initialized := Line("2", Some(Message(Some("notifications/initialized"), None)));
    var attempt := Spawned(true, [], true);
    var attempts := [attempt, attempt, attempt, attempt, attempt];
    var one, two, three := HostLine(initialize, true, attempts), HostLine(initialized, true, attempts), ChildExit(attempts);
    StepOne(START, [], one);
    StepOne(START, [one], two);
    StepOne(START, [one, two], three);
    var events := [one, two, three];
    assert [] + [one] == [one] && [one] + [two] == [one, two] && [one, two] + [three] == events;
    var w2, w := StepAll(START, [one, two]), StepAll(START, events);
    assert w2.delivered == [Delivery(0, initialize), Delivery(0, initialized)];
    assert w.delivered == w2.delivered + [Delivery(1, initialize)];
    LinesNext([], Delivery(0, initialize), 1);
    LinesNext([Delivery(0, initialize)], Delivery(0, initialized), 1);
    LinesNext(w2.delivered, Delivery(1, initialize), 1);
    assert AllowedRun([]) && AllowedRun([one]) && AllowedRun([one, two]) && AllowedRun(events);
  }

  lemma StepOne(w: World, events: seq<Event>, e: Event)
    ensures StepAll(w, events + [e]) == if StepAll(w, events).alive then Step(StepAll(w, events), e) else StepAll(w, events)
    ensures (events + [e])[..|events|] == events
  {
    assert (events + [e])[..|events|] == events;
  }
}
