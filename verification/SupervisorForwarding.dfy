/** Every line is passed on, in order, to whoever is there to read it. */
module SupervisorForwarding {
  import opened Wrappers
  import opened Supervisor
  import opened SupervisorSafety

  /** Nothing written or answered is taken back. */
  ghost predicate Extends(before: World, after: World) {
    before.delivered <= after.delivered && before.output <= after.output
  }

  lemma {:induction false} ReplayExtends(w: World, replies: seq<Line>)
    ensures Extends(w, Replay(w, replies).0)
    decreases |replies|
  {
    if replies != [] && ResponseId(replies[0]) != w.p.initializeId {
      ReplayExtends(w.(output := w.output + [FromChild(replies[0])]), replies[1..]);
    }
  }

  lemma BootstrapExtends(w: World, a: Attempt)
    requires a.Spawned?
    ensures Extends(w, Bootstrap(w, a).0)
  {
    hide Replay;
    if w.p.initializeLine.Some? {
      ReplayExtends(Deliver(w, w.p.initializeLine.value), a.replies);
    }
  }

  lemma {:induction false} AttemptsExtend(w: World, attempts: seq<Attempt>)
    ensures Extends(w, TryAttempts(w, attempts))
    decreases |attempts|
  {
    hide Bootstrap;
    if attempts == [] {
    } else if attempts[0].SpawnFailed? {
      AttemptsExtend(w, attempts[1..]);
    } else {
      BootstrapExtends(Spawn(w), attempts[0]);
      AttemptsExtend(Bootstrap(Spawn(w), attempts[0]).0, attempts[1..]);
    }
  }

  lemma RestartExtends(w: World, attempts: seq<Attempt>)
    ensures Extends(w, Restart(w, attempts))
  {
    AttemptsExtend(Interrupt(w), attempts);
  }

  /** The host line that an event reads goes to the child of that moment; a child's line goes to the host. */
  ghost predicate Forwards(w: World, e: Event, after: World) {
    && Extends(w, after)
    && (e.HostLine? ==> w.delivered + [Delivery(w.child, e.line)] <= after.delivered)
    && (e.RestartCut? && e.unwritten.Some? ==> w.delivered + [Delivery(w.child, e.unwritten.value)] <= after.delivered)
    && (e.HostLine? && e.written ==> after.delivered == w.delivered + [Delivery(w.child, e.line)] && after.output == w.output)
    && (e.ChildLine? ==> after.output == w.output + [FromChild(e.line)] && after.delivered == w.delivered)
    && (e.ChildLine? || (e.HostLine? && e.written) ==> after.alive == w.alive && after.child == w.child)
  }

  lemma StepForwards(w: World, e: Event)
    ensures Forwards(w, e, Step(w, e))
  {
    hide Restart;
    match e {
      case HostLine(line, written, attempts) =>
        ReadKeeps(w, line);
        RestartExtends(Deliver(ReadHost(w, line), line), attempts);
      case ChildLine(line) =>
      case ChildExit(attempts) => RestartExtends(w, attempts);
      case RestartRequest(attempts) => RestartExtends(w, attempts);
      case HostEnds =>
      case ChildUnreadable =>
      case HostUnwritable(line) =>
      case RestartCut(unwritten, reported) =>
        if unwritten.Some? {
          ReadKeeps(w, unwritten.value);
        }
    }
  }

  lemma ReadKeeps(w: World, line: Line)
    ensures ReadHost(w, line).delivered == w.delivered && ReadHost(w, line).output == w.output
    ensures ReadHost(w, line).child == w.child && ReadHost(w, line).alive == w.alive
  {
  }

  lemma {:induction false} RunExtends(events: seq<Event>, n: nat)
    requires n <= |events|
    ensures Extends(StepAll(START, events[..n]), StepAll(START, events))
    decreases |events|
  {
    hide Step, Extends;
    if n == |events| {
      assert events[..n] == events;
      ExtendsSelf(StepAll(START, events));
    } else {
      var init := events[..|events| - 1];
      assert init[..n] == events[..n];
      RunExtends(init, n);
      var before := StepAll(START, init);
      if before.alive {
        StepForwards(before, events[|events| - 1]);
        ExtendsOn(StepAll(START, events[..n]), before, events[|events| - 1]);
      }
    }
  }

  lemma ExtendsSelf(w: World)
    ensures Extends(w, w)
  {
  }

  lemma ExtendsOn(first: World, before: World, e: Event)
    requires Extends(first, before) && Forwards(before, e, Step(before, e))
    ensures Extends(first, Step(before, e))
  {
    hide Step;
  }

  /**
   Over any run, each host line that is read is written to the child of that moment, each line of a child is passed to the
   host, and both in the order in which they were read: a line is where the record of lines ended when it was read.
   */
  lemma EveryLineForwarded(events: seq<Event>, i: nat)
    requires i < |events| && StepAll(START, events[..i]).alive
    ensures var before, after := StepAll(START, events[..i]), StepAll(START, events);
      && (events[i].HostLine? ==>
            && |before.delivered| < |after.delivered|
            && after.delivered[|before.delivered|] == Delivery(before.child, events[i].line))
      && (events[i].ChildLine? ==>
            && |before.output| < |after.output| && after.output[|before.output|] == FromChild(events[i].line))
  {
    hide Step;
    var before := StepAll(START, events[..i]);
    assert events[..i + 1][..i] == events[..i];
    StepForwards(before, events[i]);
    RunExtends(events, i + 1);
    var next, after := StepAll(START, events[..i + 1]), StepAll(START, events);
    assert next == Step(before, events[i]);
    if events[i].HostLine? {
      assert after.delivered[..|next.delivered|] == next.delivered;
    }
    if events[i].ChildLine? {
      assert after.output[..|next.output|] == next.output;
    }
  }

  /** A message with an id, other than the two of the handshake. */
  predicate IsPlainRequest(line: Line, id: Id) {
    && line.message.Some? && line.message.value.id == Some(id)
    && line.message.value.name != Some("initialize") && line.message.value.name != Some("notifications/initialized")
  }

  lemma {:induction false} AttemptsPlain(w: World, attempts: seq<Attempt>)
    ensures TryAttempts(w, attempts).plain == w.plain
    decreases |attempts|
  {
    hide Bootstrap;
    if attempts == [] {
    } else if attempts[0].SpawnFailed? {
      AttemptsPlain(w, attempts[1..]);
    } else {
      BootstrapPlain(Spawn(w), attempts[0]);
      AttemptsPlain(Bootstrap(Spawn(w), attempts[0]).0, attempts[1..]);
    }
  }

  lemma BootstrapPlain(w: World, a: Attempt)
    requires a.Spawned?
    ensures Bootstrap(w, a).0.plain == w.plain
  {
    if w.p.initializeLine.Some? {
      ReplayPlain(Deliver(w, w.p.initializeLine.value), a.replies);
    }
  }

  lemma {:induction false} ReplayPlain(w: World, replies: seq<Line>)
    ensures Replay(w, replies).0.plain == w.plain
    decreases |replies|
  {
    if replies != [] && ResponseId(replies[0]) != w.p.initializeId {
      ReplayPlain(w.(output := w.output + [FromChild(replies[0])]), replies[1..]);
    }
  }

  /** A plain request is kept track of from when it is read. */
  lemma StepPlain(w: World, e: Event)
    ensures w.plain <= Step(w, e).plain
    ensures forall id :: e.HostLine? && IsPlainRequest(e.line, id) ==> id in Step(w, e).plain
  {
    match e {
      case HostLine(line, written, attempts) =>
        AttemptsPlain(Interrupt(Deliver(ReadHost(w, line), line)), attempts);
      case ChildLine(line) =>
      case ChildExit(attempts) => AttemptsPlain(Interrupt(w), attempts);
      case RestartRequest(attempts) => AttemptsPlain(Interrupt(w), attempts);
      case HostEnds =>
      case ChildUnreadable =>
      case HostUnwritable(line) =>
      case RestartCut(unwritten, reported) =>
    }
  }

  lemma {:induction false} RunPlain(events: seq<Event>, n: nat)
    requires n <= |events|
    ensures StepAll(START, events[..n]).plain <= StepAll(START, events).plain
    decreases |events|
  {
    hide Step;
    if n == |events| {
      assert events[..n] == events;
    } else {
      var init := events[..|events| - 1];
      assert init[..n] == events[..n];
      RunPlain(init, n);
      if StepAll(START, init).alive {
        StepPlain(StepAll(START, init), events[|events| - 1]);
      }
    }
  }

  /**
   Over any run each request that is read, the handshake aside, has been written to one child and answered at most once;
   once that child has been replaced, exactly once.
   */
  lemma EveryRequestAnswered(events: seq<Event>, i: nat, id: Id)
    requires AllowedRun(events) && i < |events| && StepAll(START, events[..i]).alive
    requires events[i].HostLine? && IsPlainRequest(events[i].line, id)
    ensures var w := StepAll(START, events);
      && |Receivers(w.delivered, id)| == 1 && Answers(w.output, id) <= 1
      && (w.child != Receivers(w.delivered, id)[0] ==> Answers(w.output, id) == 1)
      && (!w.alive && !w.cut ==> Answers(w.output, id) == 1)
  {
    hide Step, Receivers, Answers;
    assert events[..i + 1][..i] == events[..i];
    StepPlain(StepAll(START, events[..i]), events[i]);
    RunPlain(events, i + 1);
    RunIsSafe(events);
  }
}
