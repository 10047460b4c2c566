/** What the supervisor keeps true over every run of crashes, failed writes and restarts. */
module SupervisorSafety {
  import opened Wrappers
  import opened Supervisor

  // ----- what the host and the children may do -----

  /** The children that were written a request with this id, in order. */
  function Receivers(delivered: seq<Delivery>, id: Id): seq<nat> {
    if delivered == [] then []
    else
      var last := delivered[|delivered| - 1];
      Receivers(delivered[..|delivered| - 1], id) +
      if Classify(last.line).Request? && Classify(last.line).id == id then [last.child] else []
  }

  /** How many answers with this id the host has read. */
  function Answers(output: seq<Output>, id: Id): nat {
    if output == [] then 0
    else Answers(output[..|output| - 1], id) + if IsAnswer(output[|output| - 1], id) then 1 else 0
  }

  predicate IsAnswer(o: Output, id: Id) {
    (o.FromChild? && ResponseId(o.line) == Some(id)) || (o.Interrupted? && id in o.ids)
  }

  /** A child answers only requests it was sent, each at most once. */
  predicate MaySay(w: World, line: Line) {
    ResponseId(line).Some? ==>
      var id := ResponseId(line).value;
      w.child in Receivers(w.delivered, id) && (w.child, id) !in w.replied
  }

  /** A new child was sent nothing but the initialize request. */
  predicate MayReplay(p: Protocol, attempts: seq<Attempt>) {
    && |attempts| == RESTART_ATTEMPTS
    && forall a :: a in attempts && a.Spawned? ==>
         forall line :: line in a.replies && ResponseId(line).Some? ==> ResponseId(line) == p.initializeId
  }

  /** The host never reuses a request id; children keep to the two rules above. */
  predicate Allowed(w: World, e: Event) {
    match e
    case HostLine(line, _, attempts) =>
      && (Classify(line).Request? ==> Classify(line).id !in w.used)
      && MayReplay(RecordHost(w.p, line), attempts)
    case ChildLine(line) => MaySay(w, line)
    case ChildExit(attempts) => MayReplay(w.p, attempts)
    case RestartRequest(attempts) => MayReplay(w.p, attempts)
    case HostEnds | ChildUnreadable => true
    case HostUnwritable(line) => MaySay(w, line)
    case RestartCut(unwritten, _) =>
      unwritten.Some? && Classify(unwritten.value).Request? ==> Classify(unwritten.value).id !in w.used
  }

  predicate AllowedRun(events: seq<Event>) {
    events == [] ||
    (AllowedRun(events[..|events| - 1]) &&
     var before := StepAll(START, events[..|events| - 1]);
     before.alive ==> Allowed(before, events[|events| - 1]))
  }

  // ----- the invariant -----

  ghost predicate ProtocolOk(w: World) {
    && w.p.pending <= w.used && w.plain <= w.used
    && (w.p.initializeLine.Some? <==> w.p.initializeId.Some?)
    && (w.p.initializeId.Some? ==>
          && w.p.initializeId.value in w.used && w.p.initializeId.value !in w.plain
          && Classify(w.p.initializeLine.value) == Request(w.p.initializeId.value, true))
    && (w.p.initializeComplete ==> w.p.initializeId.Some?)
    && (w.p.initializedLine.Some? ==> Classify(w.p.initializedLine.value) == Initialized)
    && w.child < w.spawned
  }

  ghost predicate Unseen(w: World, id: Id) {
    Receivers(w.delivered, id) == [] && Answers(w.output, id) == 0
  }

  /**
   A host request is written to exactly one child and answered at most once. It
   is pending while unanswered, and then the current child has it.
   */
  ghost predicate Tracked(w: World, id: Id) {
    && |Receivers(w.delivered, id)| == 1
    && Receivers(w.delivered, id)[0] < w.spawned
    && Answers(w.output, id) == (if id in w.p.pending then 0 else 1)
    && (id in w.p.pending ==> Receivers(w.delivered, id)[0] == w.child)
    && (id !in w.p.pending && Receivers(w.delivered, id)[0] == w.child ==> (w.child, id) in w.replied)
  }

  ghost predicate Safe(w: World) {
    && ProtocolOk(w)
    && (forall id :: id !in w.used ==> Unseen(w, id))
    && (forall id :: id in w.plain ==> Tracked(w, id))
  }

  lemma ReceiversNext(delivered: seq<Delivery>, d: Delivery, id: Id)
    ensures Receivers(delivered + [d], id) ==
            Receivers(delivered, id) + if Classify(d.line).Request? && Classify(d.line).id == id then [d.child] else []
  {
    assert (delivered + [d])[..|delivered|] == delivered;
  }

  lemma AnswersNext(output: seq<Output>, o: Output, id: Id)
    ensures Answers(output + [o], id) == Answers(output, id) + if IsAnswer(o, id) then 1 else 0
  {
    assert (output + [o])[..|output|] == output;
  }

  // ----- each step keeps it -----

  lemma HostLineTracked(w: World, line: Line, id: Id)
    requires Safe(w) && (Classify(line).Request? ==> Classify(line).id !in w.used)
    ensures var w1 := Deliver(ReadHost(w, line), line);
      (id in w1.plain ==> Tracked(w1, id)) && (id !in w1.used ==> Unseen(w1, id))
  {
    hide Receivers, Answers, Classify, ProtocolOk;
    Bounds(w);
    ReceiversNext(w.delivered, Delivery(w.child, line), id);
    assert id in w.plain ==> Tracked(w, id);
    assert id !in w.used ==> Unseen(w, id);
  }

  lemma Bounds(w: World)
    requires ProtocolOk(w)
    ensures w.p.pending <= w.used && w.plain <= w.used && w.child < w.spawned
  {
  }

  lemma HostLineProtocol(w: World, line: Line)
    requires ProtocolOk(w) && (Classify(line).Request? ==> Classify(line).id !in w.used)
    ensures ProtocolOk(Deliver(ReadHost(w, line), line))
  {
  }

  lemma HostLineSafe(w: World, line: Line)
    requires Safe(w) && (Classify(line).Request? ==> Classify(line).id !in w.used)
    ensures Safe(Deliver(ReadHost(w, line), line))
  {
    hide ProtocolOk, Tracked, Unseen, ReadHost, Deliver;
    HostLineProtocol(w, line);
    forall id ensures var w1 := Deliver(ReadHost(w, line), line);
      (id in w1.plain ==> Tracked(w1, id)) && (id !in w1.used ==> Unseen(w1, id))
    {
      HostLineTracked(w, line, id);
    }
  }

  lemma ChildLineSafe(w: World, line: Line)
    requires Safe(w) && MaySay(w, line)
    ensures Safe(ReadChild(w, line))
  {
    var w1 := ReadChild(w, line);
    forall id ensures Answers(w1.output, id) ==
                      Answers(w.output, id) + if ResponseId(line) == Some(id) then 1 else 0
    {
      AnswersNext(w.output, FromChild(line), id);
    }
    forall id | id in w1.plain ensures Tracked(w1, id) {
      assert Tracked(w, id);
    }
    forall id | id !in w1.used ensures Unseen(w1, id) {
      assert Unseen(w, id);
    }
  }

  lemma InterruptSettles(w: World)
    requires Safe(w)
    ensures Interrupt(w).p.initializeId == w.p.initializeId
    ensures ProtocolOk(Interrupt(w))
    ensures forall id :: id !in w.used ==> Unseen(Interrupt(w), id)
    ensures forall id :: id in w.plain ==> Retired(Interrupt(w), id)
  {
    var w1 := Interrupt(w);
    forall id ensures Answers(w1.output, id) ==
                      Answers(w.output, id) + if id in InterruptedIds(w.p) then 1 else 0
    {
      AnswersNext(w.output, Interrupted(InterruptedIds(w.p)), id);
    }
    forall id | id in w.plain ensures Retired(w1, id) {
      assert Tracked(w, id);
    }
    forall id | id !in w.used ensures Unseen(w1, id) {
      assert Unseen(w, id);
    }
  }

  /** The request was written to one child and has its one answer. */
  ghost predicate Retired(w: World, id: Id) {
    && id !in w.p.pending
    && |Receivers(w.delivered, id)| == 1 && Answers(w.output, id) == 1
    && Receivers(w.delivered, id)[0] < w.spawned
  }

  /** Between two children: nothing in flight, and no request sent to a child spawned from now on. */
  ghost predicate Quiet(w: World, from: nat) {
    && ProtocolOk(w) && from <= w.spawned
    && (forall id :: id !in w.used ==> Unseen(w, id))
    && (forall id :: id in w.plain ==> Retired(w, id) && Receivers(w.delivered, id)[0] < from)
  }

  lemma QuietIsSafe(w: World, from: nat)
    requires Quiet(w, from) && from <= w.child
    ensures Safe(w)
  {
    forall id | id in w.plain ensures Tracked(w, id) {
      assert Retired(w, id);
    }
  }

  lemma QuietDelivery(w: World, from: nat, line: Line)
    requires Quiet(w, from)
    requires w.p.initializeLine == Some(line) || w.p.initializedLine == Some(line)
    ensures Quiet(Deliver(w, line), from)
  {
    var w1 := Deliver(w, line);
    forall id | id in w.plain || id !in w.used ensures Receivers(w1.delivered, id) == Receivers(w.delivered, id) {
      ReceiversNext(w.delivered, Delivery(w.child, line), id);
    }
    forall id | id in w.plain ensures Retired(w1, id) && Receivers(w1.delivered, id)[0] < from {
      assert Retired(w, id);
    }
    forall id | id !in w.used ensures Unseen(w1, id) {
      assert Unseen(w, id);
    }
  }

  lemma QuietOutput(w: World, from: nat, line: Line)
    requires Quiet(w, from) && ResponseId(line).None?
    ensures Quiet(w.(output := w.output + [FromChild(line)]), from)
  {
    var w1 := w.(output := w.output + [FromChild(line)]);
    forall id ensures Answers(w1.output, id) == Answers(w.output, id) {
      AnswersNext(w.output, FromChild(line), id);
    }
    forall id | id in w.plain ensures Retired(w1, id) && Receivers(w1.delivered, id)[0] < from {
      assert Retired(w, id);
    }
    forall id | id !in w.used ensures Unseen(w1, id) {
      assert Unseen(w, id);
    }
  }

  lemma {:induction false} ReplayQuiet(w: World, from: nat, replies: seq<Line>)
    requires Quiet(w, from) && w.p.initializeId.Some?
    requires forall line :: line in replies && ResponseId(line).Some? ==> ResponseId(line) == w.p.initializeId
    ensures Quiet(Replay(w, replies).0, from)
    ensures Replay(w, replies).0.child == w.child && Replay(w, replies).0.p == w.p
    decreases |replies|
  {
    if replies == [] {
    } else if ResponseId(replies[0]) == w.p.initializeId {
      var w1 := w.(replied := w.replied + {(w.child, w.p.initializeId.value)});
      forall id | id in w.plain ensures Retired(w1, id) && Receivers(w1.delivered, id)[0] < from {
        assert Retired(w, id);
      }
      forall id | id !in w.used ensures Unseen(w1, id) {
        assert Unseen(w, id);
      }
    } else {
      assert replies[0] in replies;
      QuietOutput(w, from, replies[0]);
      ReplayQuiet(w.(output := w.output + [FromChild(replies[0])]), from, replies[1..]);
    }
  }

  lemma BootstrapQuiet(w: World, from: nat, a: Attempt)
    requires Quiet(w, from) && a.Spawned?
    requires forall line :: line in a.replies && ResponseId(line).Some? ==> ResponseId(line) == w.p.initializeId
    ensures Quiet(Bootstrap(w, a).0, from)
    ensures Bootstrap(w, a).0.child == w.child && Bootstrap(w, a).0.p == w.p
  {
    if w.p.initializeLine.Some? {
      QuietDelivery(w, from, w.p.initializeLine.value);
      var w1 := Deliver(w, w.p.initializeLine.value);
      ReplayQuiet(w1, from, a.replies);
      var w2 := Replay(w1, a.replies).0;
      if w.p.initializedLine.Some? {
        QuietDelivery(w2, from, w.p.initializedLine.value);
      }
    }
  }

  lemma {:induction false} AttemptsQuiet(w: World, from: nat, attempts: seq<Attempt>)
    requires Quiet(w, from)
    requires forall a :: a in attempts && a.Spawned? ==>
      forall line :: line in a.replies && ResponseId(line).Some? ==> ResponseId(line) == w.p.initializeId
    ensures Quiet(TryAttempts(w, attempts), from)
    ensures TryAttempts(w, attempts).alive ==> from <= TryAttempts(w, attempts).child
    decreases |attempts|
  {
    if attempts == [] {
      SameButAlive(w, from);
    } else if attempts[0].SpawnFailed? {
      AttemptsQuiet(w, from, attempts[1..]);
    } else {
      assert attempts[0] in attempts;
      SpawnQuiet(w, from);
      BootstrapQuiet(Spawn(w), from, attempts[0]);
      AttemptsQuiet(Bootstrap(Spawn(w), attempts[0]).0, from, attempts[1..]);
    }
  }

  lemma SameButAlive(w: World, from: nat)
    requires Quiet(w, from)
    ensures Quiet(w.(alive := false), from)
  {
    var w1 := w.(alive := false);
    forall id | id in w.plain ensures Retired(w1, id) && Receivers(w1.delivered, id)[0] < from {
      assert Retired(w, id);
    }
    forall id | id !in w.used ensures Unseen(w1, id) {
      assert Unseen(w, id);
    }
  }

  lemma SpawnQuiet(w: World, from: nat)
    requires Quiet(w, from)
    ensures Quiet(Spawn(w), from)
  {
    var w1 := Spawn(w);
    forall id | id in w.plain ensures Retired(w1, id) && Receivers(w1.delivered, id)[0] < from {
      assert Retired(w, id);
    }
    forall id | id !in w.used ensures Unseen(w1, id) {
      assert Unseen(w, id);
    }
  }

  lemma RestartSafe(w: World, attempts: seq<Attempt>)
    requires Safe(w) && MayReplay(w.p, attempts)
    ensures Quiet(Restart(w, attempts), w.spawned)
    ensures Restart(w, attempts).alive ==> Safe(Restart(w, attempts))
  {
    InterruptSettles(w);
    var w1 := Interrupt(w);
    forall id | id in w.plain ensures Receivers(w1.delivered, id)[0] < w.spawned {
      assert Retired(w1, id);
    }
    AttemptsQuiet(w1, w.spawned, attempts);
    if Restart(w, attempts).alive {
      QuietIsSafe(Restart(w, attempts), w.spawned);
    }
  }

  /**
   Every plain host request is written once and answered at most once. It is unanswered only while its child is the
   current one, and then only if the run goes on or was cut.
   */
  ghost predicate AtMostOnce(w: World) {
    forall id :: id in w.plain ==>
      && |Receivers(w.delivered, id)| == 1 && Answers(w.output, id) <= 1
      && (Answers(w.output, id) == 0 ==> (w.alive || w.cut) && Receivers(w.delivered, id)[0] == w.child)
  }

  lemma CutAtMostOnce(w: World)
    requires Safe(w)
    ensures AtMostOnce(Cut(w))
  {
    forall id | id in w.plain ensures Answers(w.output, id) <= 1 && |Receivers(w.delivered, id)| == 1 {
      assert Tracked(w, id);
    }
  }

  /** A line that was not passed on answers nothing. */
  lemma UnwrittenAtMostOnce(w: World, line: Line)
    requires Safe(w)
    ensures AtMostOnce(Step(w, HostUnwritable(line)))
  {
    var w1 := Step(w, HostUnwritable(line));
    assert w1.delivered == w.delivered && w1.plain == w.plain && w1.child == w.child;
    forall id | id in w.plain ensures Answers(w.output, id) <= 1 && |Receivers(w.delivered, id)| == 1 {
      assert Tracked(w, id);
    }
  }

  /** Some of the interrupted requests get their error, and none of them had an answer. */
  lemma CutRestartAtMostOnce(w: World, reported: set<Id>)
    requires Safe(w)
    ensures AtMostOnce(CutRestart(w, reported))
  {
    var w1 := CutRestart(w, reported);
    forall id | id in w.plain ensures
      && |Receivers(w.delivered, id)| == 1 && Answers(w1.output, id) <= 1
      && (Answers(w1.output, id) == 0 ==> Receivers(w.delivered, id)[0] == w.child)
    {
      assert Tracked(w, id);
      AnswersNext(w.output, Interrupted(InterruptedIds(w.p) * reported), id);
    }
  }

  lemma SafeAtMostOnce(w: World)
    requires Safe(w) && w.alive
    ensures AtMostOnce(w)
  {
    forall id | id in w.plain ensures Answers(w.output, id) <= 1 && |Receivers(w.delivered, id)| == 1 {
      assert Tracked(w, id);
    }
  }

  lemma QuietAtMostOnce(w: World, from: nat)
    requires Quiet(w, from)
    ensures AtMostOnce(w)
  {
    forall id | id in w.plain ensures Answers(w.output, id) == 1 && |Receivers(w.delivered, id)| == 1 {
      assert Retired(w, id);
    }
  }

  lemma StepSafe(w: World, e: Event)
    requires Safe(w) && w.alive && Allowed(w, e)
    ensures Step(w, e).alive ==> Safe(Step(w, e))
    ensures AtMostOnce(Step(w, e))
  {
    var w2 := Step(w, e);
    match e {
      case HostLine(line, written, attempts) =>
        HostLineSafe(w, line);
        var w1 := Deliver(ReadHost(w, line), line);
        if written {
          SafeAtMostOnce(w1);
        } else {
          RestartSafe(w1, attempts);
          QuietAtMostOnce(w2, w1.spawned);
        }
      case ChildLine(line) =>
        ChildLineSafe(w, line);
        SafeAtMostOnce(w2);
      case ChildExit(attempts) =>
        RestartSafe(w, attempts);
        QuietAtMostOnce(w2, w.spawned);
      case RestartRequest(attempts) =>
        RestartSafe(w, attempts);
        QuietAtMostOnce(w2, w.spawned);
      case HostEnds => CutAtMostOnce(w);
      case ChildUnreadable => CutAtMostOnce(w);
      case HostUnwritable(line) => UnwrittenAtMostOnce(w, line);
      case RestartCut(unwritten, reported) =>
        if unwritten.Some? {
          HostLineSafe(w, unwritten.value);
          CutRestartAtMostOnce(Deliver(ReadHost(w, unwritten.value), unwritten.value), reported);
        } else {
          CutRestartAtMostOnce(w, reported);
        }
    }
  }

  /**
   Over any run: each host request other than initialize is written to exactly
   one child and answered at most once, by that child or by one error.
   */
  lemma {:induction false} RunIsSafe(events: seq<Event>)
    requires AllowedRun(events)
    ensures StepAll(START, events).alive ==> Safe(StepAll(START, events))
    ensures AtMostOnce(StepAll(START, events))
  {
    if events == [] {
      assert Safe(START);
      SafeAtMostOnce(START);
    } else {
      var init := events[..|events| - 1];
      RunIsSafe(init);
      if StepAll(START, init).alive {
        StepSafe(StepAll(START, init), events[|events| - 1]);
      }
    }
  }
}
