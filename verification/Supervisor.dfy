/**
 The stdio supervisor: a proxy that restarts a crashed MCP server child without
 the host noticing more than an error for what was in flight.
 */
module Supervisor {
  import opened Wrappers

  const RESTART_ATTEMPTS := 5

  datatype Id = Number(n: int) | Text(s: string) | NoId

  /** A line of text; message is None when it is not JSON. */
  datatype Line = Line(text: string, message: Option<Message>)
  datatype Message = Message(name: Option<string>, id: Option<Id>)

  datatype HostMessage = Request(id: Id, initialize: bool) | Initialized | Other

  function Classify(line: Line): HostMessage {
    if line.message.None? then Other
    else if line.message.value.name == Some("notifications/initialized") then Initialized
    else if line.message.value.id.None? then Other
    else Request(line.message.value.id.value, line.message.value.name == Some("initialize"))
  }

  function ResponseId(line: Line): Option<Id> {
    if line.message.None? then None else line.message.value.id
  }

  // ----- ProtocolState -----

  datatype Protocol = Protocol(
    initializeLine: Option<Line>,
    initializeId: Option<Id>,
    initializedLine: Option<Line>,
    initializeComplete: bool,
    pending: set<Id>)

  const FRESH := Protocol(None, None, None, false, {})

  function RecordHost(p: Protocol, line: Line): Protocol {
    match Classify(line)
    case Request(id, initialize) =>
      var q := p.(pending := p.pending + {id});
      if initialize then q.(initializeLine := Some(line), initializeId := Some(id)) else q
    case Initialized => p.(initializedLine := Some(line))
    case Other => p
  }

  function RecordChild(p: Protocol, line: Line): Protocol {
    if ResponseId(line).None? then p
    else
      var id := ResponseId(line).value;
      p.(pending := p.pending - {id}, initializeComplete := p.initializeComplete || p.initializeId == Some(id))
  }

  /** The requests a crash interrupts: everything pending but the initialize request. */
  function InterruptedIds(p: Protocol): set<Id> {
    set id | id in p.pending && p.initializeId != Some(id)
  }

  class ProtocolState {
    var initializeLine: Option<Line>
    var initializeId: Option<Id>
    var initializedLine: Option<Line>
    var initializeComplete: bool
    var pending: set<Id>

    constructor ()
      ensures View() == FRESH
    {
      initializeLine, initializeId, initializedLine := None, None, None;
      initializeComplete, pending := false, {};
    }

    function View(): Protocol
      reads this
    {
      Protocol(initializeLine, initializeId, initializedLine, initializeComplete, pending)
    }

    method RecordHostMessage(line: Line, message: HostMessage)
      requires message == Classify(line)
      modifies this
      ensures View() == RecordHost(old(View()), line)
    {
      match message {
        case Request(id, initialize) =>
          pending := pending + {id};
          if initialize {
            initializeLine, initializeId := Some(line), Some(id);
          }
        case Initialized => initializedLine := Some(line);
        case Other =>
      }
    }

    method RecordChildMessage(line: Line)
      modifies this
      ensures View() == RecordChild(old(View()), line)
    {
      if line.message.None? || line.message.value.id.None? {
        return;
      }
      var id := line.message.value.id.value;
      pending := pending - {id};
      if initializeId == Some(id) {
        initializeComplete := true;
      }
    }

    method TakeInterruptedRequests() returns (interrupted: set<Id>)
      modifies this
      ensures interrupted == InterruptedIds(old(View()))
      ensures View() == old(View()).(pending := old(pending) - interrupted)
    {
      interrupted := set id | id in pending && initializeId != Some(id);
      pending := set id | id in pending && initializeId == Some(id);
    }
  }

  // ----- the supervisor and its surroundings -----

  datatype Delivery = Delivery(child: nat, line: Line)

  /** What the host reads: a child's line, or one error for each interrupted request. */
  datatype Output = FromChild(line: Line) | Interrupted(ids: set<Id>)

  /**
   One run so far. Besides the supervisor's state it keeps what was written to
   whom, children numbered in spawning order. since and ready are the numbers of
   children spawned when the host's initialize and initialized lines were read;
   cut is set when a stream of its own ended the run.
   */
  datatype World = World(
    p: Protocol,
    child: nat,
    spawned: nat,
    alive: bool,
    delivered: seq<Delivery>,
    output: seq<Output>,
    used: set<Id>,
    plain: set<Id>,
    replied: set<(nat, Id)>,
    since: Option<nat>,
    ready: Option<nat>,
    cut: bool)

  const START := World(FRESH, 0, 1, true, [], [], {}, {}, {}, None, None, false)

  /** One restart attempt: what the spawn, the child's replies and the two writes do. */
  datatype Attempt = SpawnFailed | Spawned(initializeWritten: bool, replies: seq<Line>, initializedWritten: bool)

  datatype Event =
    | HostLine(line: Line, written: bool, attempts: seq<Attempt>)
    | ChildLine(line: Line)
    | ChildExit(attempts: seq<Attempt>)
    | RestartRequest(attempts: seq<Attempt>)
    // The four that end the loop without another child: the host's lines end or cannot be read, a child's line is too
    // long, a child's line cannot be passed on, or a restart can report no more than some of the interrupted requests.
    | HostEnds
    | ChildUnreadable
    | HostUnwritable(line: Line)
    | RestartCut(unwritten: Option<Line>, reported: set<Id>)

  function Deliver(w: World, line: Line): World {
    w.(delivered := w.delivered + [Delivery(w.child, line)])
  }

  /** Forwards the replies before the initialize response, and says whether it came. */
  function Replay(w: World, replies: seq<Line>): (World, bool)
    decreases |replies|
  {
    if replies == [] then (w, false)
    else if ResponseId(replies[0]) == w.p.initializeId then
      (if w.p.initializeId.Some? then w.(replied := w.replied + {(w.child, w.p.initializeId.value)}) else w, true)
    else Replay(w.(output := w.output + [FromChild(replies[0])]), replies[1..])
  }

  /** bootstrap_child for a freshly spawned child. */
  function Bootstrap(w: World, a: Attempt): (World, bool)
    requires a.Spawned?
  {
    if w.p.initializeLine.None? then (w, true)
    else
      var w1 := Deliver(w, w.p.initializeLine.value);
      if !a.initializeWritten then (w1, false)
      else if !w.p.initializeComplete then (w1, true)
      else
        var (w2, found) := Replay(w1, a.replies);
        if !found then (w2, false)
        else if w.p.initializedLine.None? then (w2, true)
        else (Deliver(w2, w.p.initializedLine.value), a.initializedWritten)
  }

  function Spawn(w: World): World {
    w.(child := w.spawned, spawned := w.spawned + 1)
  }

  function TryAttempts(w: World, attempts: seq<Attempt>): World
    decreases |attempts|
  {
    if attempts == [] then w.(alive := false)
    else if attempts[0].SpawnFailed? then TryAttempts(w, attempts[1..])
    else
      var (w1, ok) := Bootstrap(Spawn(w), attempts[0]);
      if ok then w1 else TryAttempts(w1, attempts[1..])
  }

  // ----- what a restart comes to -----

  /** The child's replies hold the response to the initialize request. */
  predicate Responds(p: Protocol, a: Attempt)
    requires a.Spawned?
  {
    exists k :: 0 <= k < |a.replies| && ResponseId(a.replies[k]) == p.initializeId
  }

  /** The child spawns, the writes it needs succeed, and it responds when the host has had its response. */
  predicate ComesUp(p: Protocol, a: Attempt) {
    a.Spawned? &&
    (p.initializeLine.Some? ==>
       && a.initializeWritten
       && (p.initializeComplete ==> Responds(p, a) && (p.initializedLine.Some? ==> a.initializedWritten)))
  }

  predicate ComesFirst(p: Protocol, attempts: seq<Attempt>, k: nat) {
    k < |attempts| && ComesUp(p, attempts[k]) && forall j :: 0 <= j < k ==> !ComesUp(p, attempts[j])
  }

  function Spawns(attempts: seq<Attempt>): nat
    decreases |attempts|
  {
    if attempts == [] then 0 else (if attempts[0].Spawned? then 1 else 0) + Spawns(attempts[1..])
  }

  /** What a child says before its response goes to the host. */
  function BeforeResponse(p: Protocol, replies: seq<Line>): seq<Output>
    decreases |replies|
  {
    if replies == [] || ResponseId(replies[0]) == p.initializeId then []
    else [FromChild(replies[0])] + BeforeResponse(p, replies[1..])
  }

  function SaidBy(p: Protocol, a: Attempt): seq<Output> {
    if a.Spawned? && p.initializeLine.Some? && a.initializeWritten && p.initializeComplete
    then BeforeResponse(p, a.replies) else []
  }

  function Said(p: Protocol, attempts: seq<Attempt>): seq<Output>
    decreases |attempts|
  {
    if attempts == [] then [] else SaidBy(p, attempts[0]) + Said(p, attempts[1..])
  }

  lemma {:induction false} ReplayMeans(w: World, replies: seq<Line>)
    ensures Replay(w, replies).1 <==> exists k :: 0 <= k < |replies| && ResponseId(replies[k]) == w.p.initializeId
    ensures var after := Replay(w, replies).0;
      && after.output == w.output + BeforeResponse(w.p, replies) && after.p == w.p && after.alive == w.alive
      && after.child == w.child && after.spawned == w.spawned
    decreases |replies|
  {
    if replies != [] && ResponseId(replies[0]) != w.p.initializeId {
      ReplayMeans(w.(output := w.output + [FromChild(replies[0])]), replies[1..]);
      assert forall k :: 0 < k < |replies| ==> replies[k] == replies[1..][k - 1];
    }
  }

  lemma BootstrapMeans(w: World, a: Attempt)
    requires a.Spawned?
    ensures Bootstrap(w, a).1 <==> ComesUp(w.p, a)
    ensures var after := Bootstrap(w, a).0;
      && after.output == w.output + SaidBy(w.p, a) && after.p == w.p && after.alive == w.alive
      && after.child == w.child && after.spawned == w.spawned
  {
    hide Replay;
    if w.p.initializeLine.Some? {
      ReplayMeans(Deliver(w, w.p.initializeLine.value), a.replies);
    }
  }

  /**
   How a list of attempts ends: with the first child that comes up, by the attempts up to that one; without one, after
   all of them.
   */
  ghost predicate Ends(before: World, attempts: seq<Attempt>, after: World) {
    && (after.alive <==> exists k: nat :: ComesFirst(before.p, attempts, k))
    && (forall k: nat :: ComesFirst(before.p, attempts, k) ==>
          && after.child == before.spawned + Spawns(attempts[..k]) && after.spawned == after.child + 1
          && after.output == before.output + Said(before.p, attempts[..k + 1]))
    && (!after.alive ==>
          && after.spawned == before.spawned + Spawns(attempts)
          && after.output == before.output + Said(before.p, attempts))
  }

  lemma FirstNext(p: Protocol, attempts: seq<Attempt>, k: nat)
    requires attempts != [] && !ComesUp(p, attempts[0])
    ensures ComesFirst(p, attempts, k) <==> k > 0 && ComesFirst(p, attempts[1..], k - 1)
    ensures ComesFirst(p, attempts, k) ==>
      && attempts[..k] == [attempts[0]] + attempts[1..][..k - 1]
      && attempts[..k + 1] == [attempts[0]] + attempts[1..][..k]
  {
    var rest := attempts[1..];
    assert forall j :: 0 < j < |attempts| ==> attempts[j] == rest[j - 1];
    if k > 0 && ComesFirst(p, rest, k - 1) {
      forall j | 0 <= j < k ensures !ComesUp(p, attempts[j]) {
        if j > 0 {
          assert !ComesUp(p, rest[j - 1]);
        }
      }
    }
    if ComesFirst(p, attempts, k) {
      forall j | 0 <= j < k - 1 ensures !ComesUp(p, rest[j]) {
        assert !ComesUp(p, attempts[j + 1]);
      }
    }
  }

  lemma SpawnsNext(p: Protocol, a: Attempt, attempts: seq<Attempt>)
    ensures Spawns([a] + attempts) == (if a.Spawned? then 1 else 0) + Spawns(attempts)
    ensures Said(p, [a] + attempts) == SaidBy(p, a) + Said(p, attempts)
  {
    assert ([a] + attempts)[1..] == attempts;
  }

  /** What the attempts after the first come to, all of them come to. */
  lemma EndsNext(before: World, attempts: seq<Attempt>, between: World, after: World)
    requires attempts != [] && !ComesUp(before.p, attempts[0]) && Ends(between, attempts[1..], after)
    requires between.p == before.p && between.output == before.output + SaidBy(before.p, attempts[0])
    requires between.spawned == before.spawned + if attempts[0].Spawned? then 1 else 0
    ensures Ends(before, attempts, after)
  {
    hide ComesUp, Spawns, Said, SaidBy;
    var p, rest := before.p, attempts[1..];
    forall k: nat ensures ComesFirst(p, attempts, k) <==> k > 0 && ComesFirst(p, rest, k - 1) {
      FirstNext(p, attempts, k);
    }
    if after.alive {
      var k: nat :| ComesFirst(p, rest, k);
      assert ComesFirst(p, attempts, k + 1);
    }
    forall k: nat | ComesFirst(p, attempts, k)
      ensures after.child == before.spawned + Spawns(attempts[..k]) && after.spawned == after.child + 1
      ensures after.output == before.output + Said(p, attempts[..k + 1])
    {
      FirstNext(p, attempts, k);
      SpawnsNext(p, attempts[0], rest[..k - 1]);
      SpawnsNext(p, attempts[0], rest[..k]);
      assert ComesFirst(p, rest, k - 1);
    }
    assert attempts == [attempts[0]] + rest;
    SpawnsNext(p, attempts[0], rest);
  }

  lemma {:induction false} AttemptsEnd(w: World, attempts: seq<Attempt>)
    requires w.alive
    ensures Ends(w, attempts, TryAttempts(w, attempts))
    decreases |attempts|
  {
    hide Bootstrap, ComesUp, SaidBy;
    if attempts == [] {
      NoAttempts(w);
    } else if attempts[0].SpawnFailed? {
      AttemptsEnd(w, attempts[1..]);
      NeverUp(w.p, attempts[0]);
      EndsNext(w, attempts, w, TryAttempts(w, attempts));
    } else {
      BootstrapMeans(Spawn(w), attempts[0]);
      if ComesUp(w.p, attempts[0]) {
        UpAtOnce(w, attempts, Bootstrap(Spawn(w), attempts[0]).0);
      } else {
        var between := Bootstrap(Spawn(w), attempts[0]).0;
        AttemptsEnd(between, attempts[1..]);
        EndsNext(w, attempts, between, TryAttempts(w, attempts));
      }
    }
  }

  lemma NoAttempts(w: World)
    ensures Ends(w, [], TryAttempts(w, []))
  {
  }

  lemma NeverUp(p: Protocol, a: Attempt)
    requires a.SpawnFailed?
    ensures !ComesUp(p, a) && SaidBy(p, a) == []
  {
  }

  lemma UpAtOnce(w: World, attempts: seq<Attempt>, after: World)
    requires attempts != [] && attempts[0].Spawned? && ComesUp(w.p, attempts[0]) && after.alive
    requires after.child == w.spawned && after.spawned == w.spawned + 1
    requires after.output == w.output + SaidBy(w.p, attempts[0])
    ensures Ends(w, attempts, after)
  {
    assert ComesFirst(w.p, attempts, 0);
    assert forall k: nat :: ComesFirst(w.p, attempts, k) ==> k == 0;
    assert attempts[..0] == [] && attempts[..1] == [attempts[0]] + [];
    SpawnsNext(w.p, attempts[0], []);
    assert SaidBy(w.p, attempts[0]) + [] == SaidBy(w.p, attempts[0]);
  }

  /**
   A restart goes on with the first attempt whose child comes up, and ends the run only when none does; before the
   attempts the interrupted requests are reported.
   */
  lemma RestartMeans(w: World, attempts: seq<Attempt>)
    requires w.alive
    ensures Ends(Interrupt(w), attempts, Restart(w, attempts))
    ensures Interrupt(w).output == w.output + [Interrupted(InterruptedIds(w.p))] && Interrupt(w).spawned == w.spawned
    ensures forall a :: a in attempts ==> (ComesUp(Interrupt(w).p, a) <==> ComesUp(w.p, a))
  {
    AttemptsEnd(Interrupt(w), attempts);
  }

  /** The attempts after the child that comes up are not used. */
  lemma {:induction false} RestUnused(w: World, attempts: seq<Attempt>, k: nat, others: seq<Attempt>)
    requires ComesFirst(w.p, attempts, k)
    ensures TryAttempts(w, attempts[..k + 1] + others) == TryAttempts(w, attempts)
    decreases |attempts|
  {
    hide Bootstrap, ComesUp;
    var mixed := attempts[..k + 1] + others;
    if attempts[0].Spawned? {
      BootstrapMeans(Spawn(w), attempts[0]);
    } else {
      NeverUp(w.p, attempts[0]);
    }
    if k > 0 {
      FirstNext(w.p, attempts, k);
      assert mixed[1..] == attempts[1..][..k] + others;
      RestUnused(if attempts[0].Spawned? then Bootstrap(Spawn(w), attempts[0]).0 else w, attempts[1..], k - 1, others);
    }
  }

  function Interrupt(w: World): World {
    var ids := InterruptedIds(w.p);
    w.(p := w.p.(pending := w.p.pending - ids), output := w.output + [Interrupted(ids)])
  }

  function Restart(w: World, attempts: seq<Attempt>): World {
    TryAttempts(Interrupt(w), attempts)
  }

  /** The host's line is read and recorded before it is written to the child. */
  function ReadHost(w: World, line: Line): World {
    var w1 := w.(p := RecordHost(w.p, line));
    match Classify(line)
    case Request(id, initialize) =>
      w1.(used := w.used + {id}, plain := if initialize then w.plain else w.plain + {id},
          since := if initialize then Some(w.spawned) else w.since)
    case Initialized => w1.(ready := Some(w.spawned))
    case Other => w1
  }

  function ReadChild(w: World, line: Line): World {
    var w1 := w.(p := RecordChild(w.p, line), output := w.output + [FromChild(line)]);
    if ResponseId(line).Some? then w1.(replied := w.replied + {(w.child, ResponseId(line).value)}) else w1
  }

  function Step(w: World, e: Event): World {
    match e
    case HostLine(line, written, attempts) =>
      var w1 := Deliver(ReadHost(w, line), line);
      if written then w1 else Restart(w1, attempts)
    case ChildLine(line) => ReadChild(w, line)
    case ChildExit(attempts) => Restart(w, attempts)
    case RestartRequest(attempts) => Restart(w, attempts)
    case HostEnds => Cut(w)
    case ChildUnreadable => Cut(w)
    case HostUnwritable(line) => Cut(ReadChild(w, line).(output := w.output))
    case RestartCut(unwritten, reported) =>
      CutRestart(if unwritten.Some? then Deliver(ReadHost(w, unwritten.value), unwritten.value) else w, reported)
  }

  function Cut(w: World): World {
    w.(alive := false, cut := true)
  }

  function CutRestart(w: World, reported: set<Id>): World {
    var ids := InterruptedIds(w.p);
    Cut(w.(p := w.p.(pending := w.p.pending - ids), output := w.output + [Interrupted(ids * reported)]))
  }

  // ----- the loops of the source -----

  method BootstrapChild(w0: World, a: Attempt, state: ProtocolState) returns (w: World, ok: bool)
    requires a.Spawned? && w0.p == state.View()
    ensures (w, ok) == Bootstrap(w0, a)
  {
    w := w0;
    if state.initializeLine.None? {
      return w, true;
    }
    w := Deliver(w, state.initializeLine.value);
    if !a.initializeWritten {
      return w, false;
    }
    if state.initializeComplete {
      ghost var w1 := w;
      var i := 0;
      while true
        invariant 0 <= i <= |a.replies| && w.p == state.View()
        invariant Replay(w, a.replies[i..]) == Replay(w1, a.replies)
        decreases |a.replies| - i
      {
        if i == |a.replies| {
          return w, false;
        }
        var line := a.replies[i];
        if ResponseId(line) == state.initializeId {
          if state.initializeId.Some? {
            w := w.(replied := w.replied + {(w.child, state.initializeId.value)});
          }
          break;
        }
        w := w.(output := w.output + [FromChild(line)]);
        i := i + 1;
      }
      if state.initializedLine.Some? {
        w := Deliver(w, state.initializedLine.value);
        return w, a.initializedWritten;
      }
    }
    ok := true;
  }

  method RestartChild(w0: World, attempts: seq<Attempt>, state: ProtocolState) returns (w: World)
    requires w0.p == state.View()
    modifies state
    ensures w == Restart(w0, attempts) && w.p == state.View()
    ensures w0.alive ==> Ends(Interrupt(w0), attempts, w)
  {
    hide Ends, ComesUp;
    if w0.alive {
      RestartMeans(w0, attempts);
    }
    var interrupted := state.TakeInterruptedRequests();
    w := w0.(p := state.View(), output := w0.output + [Interrupted(interrupted)]);
    for k := 0 to |attempts|
      invariant w.p == state.View()
      invariant TryAttempts(w, attempts[k..]) == Restart(w0, attempts)
    {
      if attempts[k].Spawned? {
        var ok;
        BootstrapKeeps(Spawn(w), attempts[k]);
        w, ok := BootstrapChild(Spawn(w), attempts[k], state);
        if ok {
          return;
        }
      }
    }
    w := w.(alive := false);
  }

  lemma {:induction false} ReplayKeeps(w: World, replies: seq<Line>)
    ensures Replay(w, replies).0.p == w.p && Replay(w, replies).0.delivered == w.delivered
    decreases |replies|
  {
    if replies != [] && ResponseId(replies[0]) != w.p.initializeId {
      ReplayKeeps(w.(output := w.output + [FromChild(replies[0])]), replies[1..]);
    }
  }

  lemma BootstrapKeeps(w: World, a: Attempt)
    requires a.Spawned?
    ensures Bootstrap(w, a).0.p == w.p
  {
    if w.p.initializeLine.Some? {
      ReplayKeeps(Deliver(w, w.p.initializeLine.value), a.replies);
    }
  }

  function StepAll(w: World, events: seq<Event>): World {
    if events == [] then w else
      var before := StepAll(w, events[..|events| - 1]);
      if before.alive then Step(before, events[|events| - 1]) else before
  }

  /** The select loop, over the events that happen. */
  method Run(events: seq<Event>) returns (w: World)
    ensures w == StepAll(START, events)
  {
    var state := new ProtocolState();
    w := START;
    for i := 0 to |events|
      invariant w == StepAll(START, events[..i]) && w.p == state.View()
      invariant fresh(state)
    {
      assert events[..i + 1][..i] == events[..i];
      if w.alive {
        match events[i] {
          case HostLine(line, written, attempts) =>
            state.RecordHostMessage(line, Classify(line));
            w := Deliver(ReadHost(w, line), line);
            if !written {
              w := RestartChild(w, attempts, state);
            }
          case ChildLine(line) =>
            state.RecordChildMessage(line);
            w := ReadChild(w, line);
          case ChildExit(attempts) => w := RestartChild(w, attempts, state);
          case RestartRequest(attempts) => w := RestartChild(w, attempts, state);
          case HostEnds => w := Cut(w);
          case ChildUnreadable => w := Cut(w);
          case HostUnwritable(line) =>
            state.RecordChildMessage(line);
            w := Cut(ReadChild(w, line).(output := w.output));
          case RestartCut(unwritten, reported) =>
            if unwritten.Some? {
              state.RecordHostMessage(unwritten.value, Classify(unwritten.value));
              w := Deliver(ReadHost(w, unwritten.value), unwritten.value);
            }
            var interrupted := state.TakeInterruptedRequests();
            w := Cut(w.(p := state.View(), output := w.output + [Interrupted(interrupted * reported)]));
        }
      }
    }
    assert events[..|events|] == events;
  }
}
