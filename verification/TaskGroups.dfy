/** A seat's events as activities, each one line from start to result, grouped by task. */
module TaskGroups {
  import opened Wrappers
  import opened Activity

  datatype Action = Edit | Command | Test | Tool
  datatype Phase = Start | Done(ok: bool)
  datatype Operation = Operation(action: Action, phase: Phase)
  datatype Key = Key(run: string, action: Action, operation: Option<string>)
  datatype Outcome = Running | NoResult | Succeeded | Failed | Note(text: string)

  datatype Line = Line(action: Option<Action>, outcome: Outcome, task: Option<string>, tool: Option<string>,
                               target: Option<string>, duration: Option<nat>, exitCode: Option<int>, at: nat,
                               started: nat, run: string, operation: Option<string>)

  function OperationOf(kind: Kind): Option<Operation> {
    match kind
    case EditStarted => Some(Operation(Edit, Start))
    case EditFinished => Some(Operation(Edit, Done(true)))
    case EditFailed => Some(Operation(Edit, Done(false)))
    case CommandStarted => Some(Operation(Command, Start))
    case CommandFinished => Some(Operation(Command, Done(true)))
    case CommandFailed => Some(Operation(Command, Done(false)))
    case TestStarted => Some(Operation(Test, Start))
    case TestPassed => Some(Operation(Test, Done(true)))
    case TestFailed => Some(Operation(Test, Done(false)))
    case ToolStarted => Some(Operation(Tool, Start))
    case ToolFinished => Some(Operation(Tool, Done(true)))
    case ToolFailed => Some(Operation(Tool, Done(false)))
    case _ => None
  }

  /** The text shown for an event that is no operation, for the kinds that have one. */
  function NoteOf(kind: Kind): Option<string> {
    match kind
    case SessionStarted => Some("session started")
    case SessionFinished => Some("session ended")
    case TurnFinished | Waiting => Some("waiting for input")
    case Stopped => Some("stopped")
    case MailSent => Some("sent mail")
    case MailReceived => Some("received mail")
    case _ => None
  }

  predicate ClosesRun(kind: Kind) {
    kind.TurnFinished? || kind.Waiting? || kind.Stopped? || kind.SessionFinished?
  }

  // ----- what one record says -----

  function TaskOf(r: Record): Option<string> {
    if r.event.detail.Some? then r.event.detail.value.task else None
  }

  function ToolOf(r: Record): Option<string> {
    if r.event.detail.Some? then r.event.detail.value.tool else None
  }

  function TargetOf(r: Record): Option<string> {
    if r.event.detail.Some? then r.event.detail.value.file.Or(r.event.detail.value.command) else None
  }

  function OperationId(r: Record): Option<string> {
    if r.event.detail.Some? then r.event.detail.value.operation else None
  }

  function ExitCode(r: Record): Option<int> {
    if r.event.detail.Some? then r.event.detail.value.exitCode else None
  }

  function Duration(r: Record): Option<nat> {
    if r.event.detail.Some? then r.event.detail.value.duration else None
  }

  predicate IsOperation(r: Record) {
    OperationOf(r.event.kind).Some?
  }

  predicate IsStart(r: Record) {
    IsOperation(r) && OperationOf(r.event.kind).value.phase.Start?
  }

  predicate IsDone(r: Record) {
    IsOperation(r) && OperationOf(r.event.kind).value.phase.Done?
  }

  function KeyOf(r: Record): Key
    requires IsOperation(r)
  {
    Key(r.event.run, OperationOf(r.event.kind).value.action, OperationId(r))
  }

  // ----- what decides a start -----

  /** A record decides an operation of a key when it is of the same key or closes its run. */
  predicate Decides(key: Key, r: Record) {
    if IsOperation(r) then KeyOf(r) == key else ClosesRun(r.event.kind) && r.event.run == key.run
  }

  /** The first record after a start that decides it. */
  function Decider(h: seq<Record>, i: nat): (j: Option<nat>)
    requires i < |h| && IsStart(h[i])
    ensures j.Some? ==> i < j.value < |h|
  {
    var last := |h| - 1;
    if last == i then None
    else
      var before := Decider(h[..last], i);
      if before.Some? then before else if Decides(KeyOf(h[i]), h[last]) then Some(last) else None
  }

  lemma {:induction false} DeciderIsFirst(h: seq<Record>, i: nat)
    requires i < |h| && IsStart(h[i])
    ensures Decider(h, i).Some? ==> Decides(KeyOf(h[i]), h[Decider(h, i).value])
    ensures forall m :: i < m < |h| && (Decider(h, i).Some? ==> m < Decider(h, i).value) ==> !Decides(KeyOf(h[i]), h[m])
  {
    var last := |h| - 1;
    if last > i {
      DeciderIsFirst(h[..last], i);
      assert forall m :: i < m < last ==> h[..last][m] == h[m];
    }
  }

  /** The next start of the same key decides a start, if nothing did before. */
  lemma StartDecides(h: seq<Record>, a: nat, b: nat)
    requires a < |h| && b < |h| && IsStart(h[a]) && IsStart(h[b]) && KeyOf(h[a]) == KeyOf(h[b])
    ensures a < b ==> Decider(h, a).Some? && Decider(h, a).value <= b
  {
    DeciderIsFirst(h, a);
    assert Decides(KeyOf(h[a]), h[b]);
  }

  /** A result ends at most one start. */
  lemma ResultEndsOne(h: seq<Record>, a: nat, b: nat)
    requires a < |h| && b < |h| && IsStart(h[a]) && IsStart(h[b])
    requires Decider(h, a).Some? && Decider(h, a) == Decider(h, b) && IsOperation(h[Decider(h, a).value])
    ensures a == b
  {
    DeciderIsFirst(h, a);
    DeciderIsFirst(h, b);
    StartDecides(h, a, b);
    StartDecides(h, b, a);
  }

  /** A result that some start is waiting for. */
  ghost predicate Claimed(h: seq<Record>, j: nat)
    requires j < |h|
  {
    exists i :: 0 <= i < j && IsStart(h[i]) && Decider(h, i) == Some(j)
  }

  /** The records that add a line: starts, results that no start waits for, and notes. */
  ghost predicate Creates(h: seq<Record>, i: nat)
    requires i < |h|
  {
    if IsOperation(h[i]) then IsStart(h[i]) || !Claimed(h[..i + 1], i) else NoteOf(h[i].event.kind).Some?
  }

  ghost function Creators(h: seq<Record>): (c: seq<nat>)
    ensures forall k :: 0 <= k < |c| ==> c[k] < |h| && Creates(h[..c[k] + 1], c[k])
  {
    if h == [] then []
    else
      var last := |h| - 1;
      var before := Creators(h[..last]);
      assert forall k :: 0 <= k < |before| ==> h[..last][..before[k] + 1] == h[..before[k] + 1];
      assert h[..last + 1] == h;
      if Creates(h, last) then before + [last] else before
  }

  // ----- what a line says -----

  /** The task of the latest record of a run that has one. */
  function RunTask(h: seq<Record>, run: string): Option<string> {
    if h == [] then None
    else
      var r := h[|h| - 1];
      if r.event.run == run && TaskOf(r).Some? then TaskOf(r) else RunTask(h[..|h| - 1], run)
  }

  function TaskAt(h: seq<Record>, i: nat): Option<string>
    requires i < |h|
  {
    RunTask(h[..i + 1], h[i].event.run)
  }

  function Begun(r: Record, task: Option<string>): Line
    requires IsOperation(r)
  {
    Line(Some(OperationOf(r.event.kind).value.action), Running, task, ToolOf(r), TargetOf(r), None, None,
             r.receivedAt, r.receivedAt, r.event.run, OperationId(r))
  }

  function OutcomeOf(ok: bool): Outcome {
    if ok then Succeeded else Failed
  }

  /** A start once a record decided it. */
  function Resolved(a: Line, r: Record, task: Option<string>): Line {
    if !IsDone(r) then a.(outcome := NoResult)
    else
      var elapsed: nat := if r.receivedAt < a.started then 0 else r.receivedAt - a.started;
      a.(outcome := OutcomeOf(OperationOf(r.event.kind).value.phase.ok), exitCode := ExitCode(r),
         duration := Duration(r).Or(Some(elapsed)), at := r.receivedAt, task := a.task.Or(task),
         tool := a.tool.Or(ToolOf(r)), target := a.target.Or(TargetOf(r)))
  }

  function Alone(r: Record, task: Option<string>): Line
    requires IsDone(r)
  {
    Begun(r, task).(outcome := OutcomeOf(OperationOf(r.event.kind).value.phase.ok), duration := Duration(r),
                    exitCode := ExitCode(r))
  }

  function Noted(r: Record, text: string, task: Option<string>): Line {
    Line(None, Note(text), task, None, None, None, None, r.receivedAt, r.receivedAt, r.event.run, None)
  }

  /** The line of a record, as the whole history decides it. */
  ghost function LineAt(h: seq<Record>, i: nat): Line
    requires i < |h| && Creates(h[..i + 1], i)
  {
    var r, task := h[i], TaskAt(h, i);
    if IsStart(r) then
      var j := Decider(h, i);
      if j.None? then Begun(r, task) else Resolved(Begun(r, task), h[j.value], TaskAt(h, j.value))
    else if IsDone(r) then Alone(r, task)
    else Noted(r, NoteOf(r.event.kind).value, task)
  }

  /**
   * A start runs as long as no later record is of its key or closes its run, and otherwise the first that is or does
   * decides how it ended.
   */
  lemma OutcomeIsFirst(h: seq<Record>, i: nat, j: nat)
    requires i < j <= |h| && IsStart(h[i])
    requires forall m :: i < m < j ==> !Decides(KeyOf(h[i]), h[m])
    requires j < |h| ==> Decides(KeyOf(h[i]), h[j])
    ensures Creates(h[..i + 1], i)
    ensures j == |h| ==> LineAt(h, i).outcome == Running && LineAt(h, i).at == h[i].receivedAt
    ensures j < |h| && IsDone(h[j]) ==>
      && LineAt(h, i).outcome == OutcomeOf(OperationOf(h[j].event.kind).value.phase.ok)
      && LineAt(h, i).at == h[j].receivedAt
    ensures j < |h| && !IsDone(h[j]) ==> LineAt(h, i).outcome == NoResult && LineAt(h, i).at == h[i].receivedAt
  {
    hide Decides;
    DeciderIsFirst(h, i);
    assert Decider(h, i) == if j < |h| then Some(j) else None;
  }

  // ----- one record more -----

  lemma Grown(h: seq<Record>, r: Record, i: nat)
    requires i < |h|
    ensures (h + [r])[..i + 1] == h[..i + 1] && (h + [r])[i] == h[i]
    ensures TaskAt(h + [r], i) == TaskAt(h, i)
  {
    assert (h + [r])[..i + 1] == h[..i + 1];
  }

  lemma GrownDecider(h: seq<Record>, r: Record, i: nat)
    requires i < |h| && IsStart(h[i])
    ensures (h + [r])[i] == h[i]
    ensures Decider(h, i).Some? ==> Decider(h + [r], i) == Decider(h, i)
    ensures Decider(h, i).None? ==> Decider(h + [r], i) == if Decides(KeyOf(h[i]), r) then Some(|h|) else None
  {
    hide Decides, IsStart, KeyOf;
    assert (h + [r])[..|h|] == h;
  }

  predicate Undecided(h: seq<Record>, i: nat, key: Key) {
    i < |h| && IsStart(h[i]) && KeyOf(h[i]) == key && Decider(h, i).None?
  }

  lemma GrownLine(h: seq<Record>, r: Record, i: nat)
    requires i < |h| && Creates(h[..i + 1], i)
    ensures Creates((h + [r])[..i + 1], i)
    ensures LineAt(h + [r], i) ==
      if IsStart(h[i]) && Undecided(h, i, KeyOf(h[i])) && Decides(KeyOf(h[i]), r)
      then Resolved(LineAt(h, i), r, TaskAt(h + [r], |h|)) else LineAt(h, i)
  {
    hide RunTask, Begun, Alone, Noted, Resolved, Decides, Creates;
    Grown(h, r, i);
    if IsStart(h[i]) {
      GrownDecider(h, r, i);
      if Decider(h, i).Some? {
        Grown(h, r, Decider(h, i).value);
      }
    }
  }

  // ----- the pass over the history -----

  ghost predicate Lines(lines: seq<Line>, h: seq<Record>) {
    && |lines| == |Creators(h)|
    && forall k :: 0 <= k < |lines| ==> lines[k] == LineAt(h, Creators(h)[k])
  }

  /** The open map holds exactly the starts that nothing has decided. */
  ghost predicate OpenOk(open: map<Key, nat>, h: seq<Record>) {
    && (forall key :: key in open ==> open[key] < |Creators(h)| && Undecided(h, Creators(h)[open[key]], key))
    && (forall k, key :: 0 <= k < |Creators(h)| && Undecided(h, Creators(h)[k], key) ==> key in open && open[key] == k)
  }

  ghost predicate TasksOk(tasks: map<string, string>, h: seq<Record>) {
    forall run :: RunTask(h, run) == if run in tasks then Some(tasks[run]) else None
  }

  /** A line whose start the record decides. */
  ghost predicate Hit(open: map<Key, nat>, r: Record, k: nat) {
    exists key :: key in open && Decides(key, r) && open[key] == k
  }

  function Left(open: map<Key, nat>, r: Record): map<Key, nat> {
    map key | key in open && !Decides(key, r) :: open[key]
  }

  lemma CreatorsNext(h: seq<Record>, r: Record)
    ensures Creators(h + [r]) == if Creates(h + [r], |h|) then Creators(h) + [|h|] else Creators(h)
  {
    assert (h + [r])[..|h|] == h;
  }

  lemma {:induction false} StartCreates(h: seq<Record>, i: nat) returns (k: nat)
    requires i < |h| && IsStart(h[i])
    ensures k < |Creators(h)| && Creators(h)[k] == i
  {
    hide Claimed;
    var last := |h| - 1;
    assert h == h[..last] + [h[last]];
    CreatorsNext(h[..last], h[last]);
    if i == last {
      assert h[..i + 1] == h;
      k := |Creators(h)| - 1;
    } else {
      k := StartCreates(h[..last], i);
    }
  }

  lemma ClaimedIffOpen(open: map<Key, nat>, h: seq<Record>, r: Record)
    requires OpenOk(open, h) && IsDone(r)
    ensures Creates(h + [r], |h|) <==> KeyOf(r) !in open
  {
    hide Decider, LineAt, Creators;
    var next := h + [r];
    assert next[..|h| + 1] == next && next[|h|] == r;
    if Claimed(next, |h|) {
      var i :| 0 <= i < |h| && IsStart(next[i]) && Decider(next, i) == Some(|h|);
      GrownDecider(h, r, i);
      var k := StartCreates(h, i);
      assert Undecided(h, Creators(h)[k], KeyOf(r));
    }
    if KeyOf(r) in open {
      var i := Creators(h)[open[KeyOf(r)]];
      assert Undecided(h, i, KeyOf(r));
      GrownDecider(h, r, i);
    }
  }

  lemma LinesNext(lines: seq<Line>, now: seq<Line>, open: map<Key, nat>, h: seq<Record>, r: Record)
    requires Lines(lines, h) && OpenOk(open, h) && |now| == |lines|
    requires forall k :: 0 <= k < |lines| ==>
               now[k] == if Hit(open, r, k) then Resolved(lines[k], r, TaskAt(h + [r], |h|)) else lines[k]
    ensures !Creates(h + [r], |h|) ==> Lines(now, h + [r])
    ensures Creates(h + [r], |h|) ==> (h + [r])[..|h| + 1] == h + [r] && Lines(now + [LineAt(h + [r], |h|)], h + [r])
  {
    hide Creates, LineAt, Creators, Resolved, TaskAt, Undecided, Decides;
    assert (h + [r])[..|h| + 1] == h + [r];
    CreatorsNext(h, r);
    forall k | 0 <= k < |lines| ensures now[k] == LineAt(h + [r], Creators(h)[k]) {
      LineNext(open, h, r, k);
    }
  }

  lemma LineNext(open: map<Key, nat>, h: seq<Record>, r: Record, k: nat)
    requires OpenOk(open, h) && k < |Creators(h)|
    ensures Creates((h + [r])[..Creators(h)[k] + 1], Creators(h)[k])
    ensures LineAt(h + [r], Creators(h)[k]) ==
      if Hit(open, r, k) then Resolved(LineAt(h, Creators(h)[k]), r, TaskAt(h + [r], |h|)) else LineAt(h, Creators(h)[k])
  {
    hide LineAt, Creates, Creators, Resolved, TaskAt, Decides, Decider;
    var i := Creators(h)[k];
    GrownLine(h, r, i);
    if Hit(open, r, k) {
      var key :| key in open && Decides(key, r) && open[key] == k;
      assert Undecided(h, i, key);
    } else if IsStart(h[i]) && Undecided(h, i, KeyOf(h[i])) {
      assert open[KeyOf(h[i])] == k;
    }
  }

  function OpenAfter(open: map<Key, nat>, r: Record, n: nat): map<Key, nat> {
    if IsStart(r) then Left(open, r)[KeyOf(r) := n] else Left(open, r)
  }

  lemma OpenNext(open: map<Key, nat>, h: seq<Record>, r: Record)
    requires OpenOk(open, h)
    ensures OpenOk(OpenAfter(open, r, |Creators(h)|), h + [r])
  {
    hide Creators, Undecided, OpenAfter, Creates;
    var next, after := h + [r], OpenAfter(open, r, |Creators(h)|);
    CreatorsNext(h, r);
    assert next[..|h| + 1] == next;
    forall key | key in after ensures after[key] < |Creators(next)| && Undecided(next, Creators(next)[after[key]], key) {
      OpenIsUndecided(open, h, r, key);
    }
    forall k, key | 0 <= k < |Creators(next)| && Undecided(next, Creators(next)[k], key)
      ensures key in after && after[key] == k
    {
      UndecidedIsOpen(open, h, r, k, key);
    }
  }

  lemma OpenIsUndecided(open: map<Key, nat>, h: seq<Record>, r: Record, key: Key)
    requires OpenOk(open, h) && key in OpenAfter(open, r, |Creators(h)|)
    ensures OpenAfter(open, r, |Creators(h)|)[key] < |Creators(h + [r])|
    ensures Undecided(h + [r], Creators(h + [r])[OpenAfter(open, r, |Creators(h)|)[key]], key)
  {
    hide Decides, Creators, Decider, KeyOf;
    CreatorsNext(h, r);
    if IsStart(r) && key == KeyOf(r) {
      NewUndecided(h, r);
    } else {
      var i := Creators(h)[open[key]];
      assert Undecided(h, i, key);
      GrownDecider(h, r, i);
    }
  }

  lemma UndecidedIsOpen(open: map<Key, nat>, h: seq<Record>, r: Record, k: nat, key: Key)
    requires OpenOk(open, h) && k < |Creators(h + [r])| && Undecided(h + [r], Creators(h + [r])[k], key)
    ensures key in OpenAfter(open, r, |Creators(h)|) && OpenAfter(open, r, |Creators(h)|)[key] == k
  {
    hide Decides, Creators, Decider;
    CreatorsNext(h, r);
    if k < |Creators(h)| {
      StillUndecided(h, r, Creators(h)[k], key);
      assert key in open && open[key] == k;
      StartOfKey(h, r, key);
    }
  }

  lemma NewUndecided(h: seq<Record>, r: Record)
    requires IsStart(r)
    ensures Undecided(h + [r], |h|, KeyOf(r)) && Creates(h + [r], |h|)
  {}

  lemma StillUndecided(h: seq<Record>, r: Record, i: nat, key: Key)
    requires i < |h| && Undecided(h + [r], i, key)
    ensures Undecided(h, i, key) && !Decides(key, r)
  {
    hide Decider;
    GrownDecider(h, r, i);
  }

  /** A start takes the place of the open start of its key. */
  lemma StartOfKey(h: seq<Record>, r: Record, key: Key)
    ensures IsStart(r) && !Decides(key, r) ==> key != KeyOf(r)
  {}

  lemma TasksNext(tasks: map<string, string>, h: seq<Record>, r: Record)
    requires TasksOk(tasks, h)
    ensures TasksOk(if TaskOf(r).Some? then tasks[r.event.run := TaskOf(r).value] else tasks, h + [r])
    ensures TaskAt(h + [r], |h|) == RunTask(h + [r], r.event.run)
  {
    assert (h + [r])[..|h|] == h;
    assert (h + [r])[..|h| + 1] == h + [r];
  }

  ghost predicate Passed(lines: seq<Line>, open: map<Key, nat>, tasks: map<string, string>, h: seq<Record>) {
    Lines(lines, h) && OpenOk(open, h) && TasksOk(tasks, h)
  }

  lemma Sizes(lines: seq<Line>, open: map<Key, nat>, h: seq<Record>)
    requires Lines(lines, h) && OpenOk(open, h)
    ensures |lines| == |Creators(h)| && forall key :: key in open ==> open[key] < |lines|
  {
    hide LineAt, Creators, Undecided;
  }

  lemma NamedTask(tasks: map<string, string>, h: seq<Record>, r: Record, task: Option<string>)
    requires TasksOk(tasks, h) && h != [] && h[|h| - 1] == r
    requires task == if TaskOf(r).Some? then TaskOf(r) else if r.event.run in tasks then Some(tasks[r.event.run]) else None
    ensures TaskAt(h, |h| - 1) == task
  {
    assert h[..|h|] == h;
  }

  /** A record of an operation hits the open start of its key. */
  lemma HitsKey(open: map<Key, nat>, r: Record)
    requires IsOperation(r)
    ensures forall k :: Hit(open, r, k) <==> KeyOf(r) in open && open[KeyOf(r)] == k
  {
    assert Decides(KeyOf(r), r);
    forall k ensures Hit(open, r, k) <==> KeyOf(r) in open && open[KeyOf(r)] == k {
      if Hit(open, r, k) {
        var key :| key in open && Decides(key, r) && open[key] == k;
      }
    }
  }

  lemma StartLeft(open: map<Key, nat>, r: Record, n: nat)
    requires IsStart(r)
    ensures open[KeyOf(r) := n] == Left(open, r)[KeyOf(r) := n]
  {}

  lemma DoneLeft(open: map<Key, nat>, r: Record)
    requires IsDone(r)
    ensures open - {KeyOf(r)} == Left(open, r)
    ensures KeyOf(r) !in open ==> open == Left(open, r)
  {}

  lemma NewStart(h: seq<Record>, r: Record)
    requires IsStart(r)
    ensures Creates(h + [r], |h|) && (h + [r])[..|h| + 1] == h + [r]
    ensures LineAt(h + [r], |h|) == Begun(r, TaskAt(h + [r], |h|))
  {
    assert (h + [r])[..|h| + 1] == h + [r];
  }

  lemma NewResult(h: seq<Record>, r: Record)
    requires IsDone(r) && Creates(h + [r], |h|)
    ensures (h + [r])[..|h| + 1] == h + [r]
    ensures LineAt(h + [r], |h|) == Alone(r, TaskAt(h + [r], |h|))
  {
    assert (h + [r])[..|h| + 1] == h + [r];
  }

  lemma NewNote(h: seq<Record>, r: Record)
    requires !IsOperation(r)
    ensures Creates(h + [r], |h|) <==> NoteOf(r.event.kind).Some?
    ensures (h + [r])[..|h| + 1] == h + [r]
    ensures NoteOf(r.event.kind).Some? ==>
              LineAt(h + [r], |h|) == Noted(r, NoteOf(r.event.kind).value, TaskAt(h + [r], |h|))
  {
    assert (h + [r])[..|h| + 1] == h + [r];
  }

  /** Closes what the record decides: those lines have no result, and their keys are no longer open. */
  method CloseRun(lines: seq<Line>, open: map<Key, nat>, r: Record) returns (now: seq<Line>, left: map<Key, nat>)
    requires !IsOperation(r) && forall key :: key in open ==> open[key] < |lines|
    ensures |now| == |lines| && left == Left(open, r)
    ensures forall k :: 0 <= k < |lines| ==> now[k] == if Hit(open, r, k) then lines[k].(outcome := NoResult) else lines[k]
  {
    now, left := lines, open;
    if ClosesRun(r.event.kind) {
      var keys := open.Keys;
      while keys != {}
        invariant keys <= open.Keys && |now| == |lines|
        invariant left == map key | key in open && (key in keys || !Decides(key, r)) :: open[key]
        invariant forall k :: 0 <= k < |lines| ==>
                    now[k] == if HitSoFar(open, keys, r, k) then lines[k].(outcome := NoResult) else lines[k]
        decreases keys
      {
        var key :| key in keys;
        HitMore(open, keys, r, key);
        keys := keys - {key};
        if key.run == r.event.run {
          now := now[open[key] := now[open[key]].(outcome := NoResult)];
          left := left - {key};
        }
      }
      assert forall k :: HitSoFar(open, {}, r, k) <==> Hit(open, r, k);
    } else {
      assert forall key :: !Decides(key, r);
    }
  }

  ghost predicate HitSoFar(open: map<Key, nat>, left: set<Key>, r: Record, k: nat) {
    exists key :: key in open && key !in left && Decides(key, r) && open[key] == k
  }

  lemma HitMore(open: map<Key, nat>, left: set<Key>, r: Record, key: Key)
    requires key in left && left <= open.Keys
    ensures forall k :: HitSoFar(open, left - {key}, r, k) <==>
              HitSoFar(open, left, r, k) || (Decides(key, r) && open[key] == k)
  {
    forall k ensures HitSoFar(open, left - {key}, r, k) <==>
                     HitSoFar(open, left, r, k) || (Decides(key, r) && open[key] == k)
    {
      if HitSoFar(open, left, r, k) {
        var other :| other in open && other !in left && Decides(other, r) && open[other] == k;
        assert other !in left - {key};
      }
    }
  }

  /** One record: what it decides among the open starts, and the line it makes of its own. */
  method Take(lines: seq<Line>, open: map<Key, nat>, tasks: map<string, string>, ghost h: seq<Record>, r: Record)
    returns (now: seq<Line>, left: map<Key, nat>, named: map<string, string>)
    requires Passed(lines, open, tasks, h)
    ensures Passed(now, left, named, h + [r])
  {
    hide Lines, OpenOk, TasksOk, LineAt, Decides, Creators, RunTask, Creates;
    var run := r.event.run;
    now, left, named := lines, open, tasks;
    if TaskOf(r).Some? {
      named := named[run := TaskOf(r).value];
    }
    TasksNext(tasks, h, r);
    OpenNext(open, h, r);
    Sizes(lines, open, h);
    var task := TaskOf(r);
    if task.None? && run in named {
      task := Some(named[run]);
    }
    NamedTask(named, h + [r], r, task);
    assert (h + [r])[|h|] == r;
    if IsOperation(r) {
      var key := KeyOf(r);
      HitsKey(open, r);
      if IsStart(r) {
        if key in open {
          now := now[open[key] := now[open[key]].(outcome := NoResult)];
        }
        left := open[key := |now|];
        StartLeft(open, r, |lines|);
        LinesNext(lines, now, open, h, r);
        NewStart(h, r);
        now := now + [Begun(r, task)];
      } else {
        ClaimedIffOpen(open, h, r);
        if key in open {
          now := now[open[key] := Resolved(now[open[key]], r, task)];
          left := open - {key};
          DoneLeft(open, r);
          LinesNext(lines, now, open, h, r);
        } else {
          DoneLeft(open, r);
          LinesNext(lines, now, open, h, r);
          NewResult(h, r);
          now := now + [Alone(r, task)];
        }
      }
    } else {
      now, left := CloseRun(now, open, r);
      LinesNext(lines, now, open, h, r);
      NewNote(h, r);
      var text := NoteOf(r.event.kind);
      if text.Some? {
        now := now + [Noted(r, text.value, task)];
      }
    }
  }

  ghost function AllLines(h: seq<Record>): (lines: seq<Line>)
    ensures Lines(lines, h)
  {
    seq(|Creators(h)|, k requires 0 <= k < |Creators(h)| => LineAt(h, Creators(h)[k]))
  }

  /** Every start with its first decider, every result no start waits for, and every note, in order of the records. */
  method PairEvents(history: seq<Record>) returns (lines: seq<Line>)
    ensures lines == AllLines(history)
  {
    hide LineAt;
    lines := [];
    var open: map<Key, nat>, tasks: map<string, string> := map[], map[];
    assert history[..0] == [];
    for i := 0 to |history|
      invariant Passed(lines, open, tasks, history[..i])
    {
      assert history[..i + 1] == history[..i] + [history[i]];
      lines, open, tasks := Take(lines, open, tasks, history[..i], history[i]);
    }
    assert history[..|history|] == history;
  }

  // ----- newest first -----

  function Reversed(s: seq<Line>): seq<Line> {
    if s == [] then [] else [s[|s| - 1]] + Reversed(s[..|s| - 1])
  }

  ghost predicate Descending(s: seq<Line>) {
    forall i, j :: 0 <= i < j < |s| ==> s[i].at >= s[j].at
  }

  /** After everything at least as new. */
  function Placed(s: seq<Line>, x: Line): seq<Line> {
    if s == [] || s[|s| - 1].at >= x.at then s + [x] else Placed(s[..|s| - 1], x) + [s[|s| - 1]]
  }

  function Sorted(s: seq<Line>): seq<Line> {
    if s == [] then [] else Placed(Sorted(s[..|s| - 1]), s[|s| - 1])
  }

  function AtTime(s: seq<Line>, t: nat): seq<Line> {
    if s == [] then []
    else if s[|s| - 1].at == t then AtTime(s[..|s| - 1], t) + [s[|s| - 1]]
    else AtTime(s[..|s| - 1], t)
  }

  lemma AtTimeNext(s: seq<Line>, x: Line, t: nat)
    ensures AtTime(s + [x], t) == if x.at == t then AtTime(s, t) + [x] else AtTime(s, t)
  {
    assert (s + [x])[..|s|] == s;
  }

  lemma {:induction false} PlacedAbove(s: seq<Line>, x: Line, least: nat)
    requires x.at >= least && forall i :: 0 <= i < |s| ==> s[i].at >= least
    ensures forall i :: 0 <= i < |Placed(s, x)| ==> Placed(s, x)[i].at >= least
  {
    if s != [] && s[|s| - 1].at < x.at {
      PlacedAbove(s[..|s| - 1], x, least);
    }
  }

  lemma DescendingEnd(s: seq<Line>, y: Line)
    requires Descending(s) && forall i :: 0 <= i < |s| ==> s[i].at >= y.at
    ensures Descending(s + [y])
  {}

  lemma {:induction false} PlacedDescends(s: seq<Line>, x: Line)
    requires Descending(s)
    ensures Descending(Placed(s, x))
  {
    hide Descending;
    if s == [] || s[|s| - 1].at >= x.at {
      LastIsLeast(s);
      DescendingEnd(s, x);
    } else {
      var rest, y := s[..|s| - 1], s[|s| - 1];
      LastIsLeast(s);
      DescendingPrefix(s);
      PlacedDescends(rest, x);
      PlacedAbove(rest, x, y.at);
      DescendingEnd(Placed(rest, x), y);
    }
  }

  lemma LastIsLeast(s: seq<Line>)
    requires Descending(s)
    ensures forall i :: 0 <= i < |s| ==> s[i].at >= s[|s| - 1].at
  {}

  lemma DescendingPrefix(s: seq<Line>)
    requires Descending(s) && s != []
    ensures Descending(s[..|s| - 1])
  {}

  lemma {:induction false} PlacedKeeps(s: seq<Line>, x: Line)
    ensures multiset(Placed(s, x)) == multiset(s) + multiset{x}
  {
    if s != [] && s[|s| - 1].at < x.at {
      PlacedKeeps(s[..|s| - 1], x);
      assert s == s[..|s| - 1] + [s[|s| - 1]];
    }
  }

  lemma {:induction false} PlacedAtTime(s: seq<Line>, x: Line, t: nat)
    ensures AtTime(Placed(s, x), t) == AtTime(s + [x], t)
  {
    if s != [] && s[|s| - 1].at < x.at {
      var rest, y := s[..|s| - 1], s[|s| - 1];
      PlacedAtTime(rest, x, t);
      AtTimeNext(Placed(rest, x), y, t);
      AtTimeNext(rest, x, t);
      AtTimeNext(s, x, t);
    }
  }

  /** Newest first, nothing lost, and lines of the same time in the order they had. */
  lemma {:induction false} SortedIsStable(s: seq<Line>, t: nat)
    ensures Descending(Sorted(s)) && multiset(Sorted(s)) == multiset(s)
    ensures AtTime(Sorted(s), t) == AtTime(s, t)
  {
    if s != [] {
      var rest, x := s[..|s| - 1], s[|s| - 1];
      assert s == rest + [x];
      SortedIsStable(rest, t);
      PlacedDescends(Sorted(rest), x);
      PlacedKeeps(Sorted(rest), x);
      PlacedAtTime(Sorted(rest), x, t);
      AtTimeNext(Sorted(rest), x, t);
      AtTimeNext(rest, x, t);
    }
  }

  lemma {:induction false} AtTimeJoin(a: seq<Line>, b: seq<Line>, t: nat)
    ensures AtTime(a + b, t) == AtTime(a, t) + AtTime(b, t)
  {
    if b == [] {
      assert a + b == a;
    } else {
      var last := |b| - 1;
      assert (a + b)[..|a + b| - 1] == a + b[..last];
      AtTimeJoin(a, b[..last], t);
    }
  }

  lemma {:induction false} ReversedAll(s: seq<Line>)
    ensures multiset(Reversed(s)) == multiset(s)
  {
    if s != [] {
      ReversedAll(s[..|s| - 1]);
      assert s == s[..|s| - 1] + [s[|s| - 1]];
    }
  }

  lemma ReversedNext(s: seq<Line>, x: Line)
    ensures Reversed(s + [x]) == [x] + Reversed(s)
  {
    assert (s + [x])[..|s|] == s;
  }

  lemma {:induction false} ReversedAtTime(s: seq<Line>, t: nat)
    ensures AtTime(Reversed(s), t) == Reversed(AtTime(s, t))
  {
    if s != [] {
      var rest, x := s[..|s| - 1], s[|s| - 1];
      ReversedAtTime(rest, t);
      AtTimeJoin([x], Reversed(rest), t);
      assert [] + [x] == [x];
      AtTimeNext([], x, t);
      if x.at == t {
        ReversedNext(AtTime(rest, t), x);
      }
    }
  }

  // ----- groups -----

  datatype TaskGroup = TaskGroup(task: Option<string>, lines: seq<Line>)

  function OfTask(s: seq<Line>, task: Option<string>): seq<Line> {
    if s == [] then []
    else if s[|s| - 1].task == task then OfTask(s[..|s| - 1], task) + [s[|s| - 1]]
    else OfTask(s[..|s| - 1], task)
  }

  /** The tasks in order of first appearance. */
  function Tasks(s: seq<Line>): seq<Option<string>> {
    if s == [] then []
    else
      var before, task := Tasks(s[..|s| - 1]), s[|s| - 1].task;
      if task in before then before else before + [task]
  }

  function GroupsOf(s: seq<Line>): seq<TaskGroup> {
    seq(|Tasks(s)|, k requires 0 <= k < |Tasks(s)| => TaskGroup(Tasks(s)[k], OfTask(s, Tasks(s)[k])))
  }

  lemma TasksNextLine(s: seq<Line>, x: Line)
    ensures Tasks(s + [x]) == if x.task in Tasks(s) then Tasks(s) else Tasks(s) + [x.task]
    ensures forall t :: OfTask(s + [x], t) == if x.task == t then OfTask(s, t) + [x] else OfTask(s, t)
  {
    assert (s + [x])[..|s|] == s;
  }

  lemma OfTaskNext(s: seq<Line>, x: Line, t: Option<string>)
    ensures multiset(OfTask(s + [x], t)) == multiset(OfTask(s, t)) + if x.task == t then multiset{x} else multiset{}
  {
    assert (s + [x])[..|s|] == s;
  }

  lemma {:induction false} TasksDistinct(s: seq<Line>)
    ensures Distinct(Tasks(s))
    ensures forall t :: t in Tasks(s) <==> OfTask(s, t) != []
  {
    if s != [] {
      var last := |s| - 1;
      TasksDistinct(s[..last]);
      assert s == s[..last] + [s[last]];
      TasksNextLine(s[..last], s[last]);
    }
  }

  /** One group a task, in the order the tasks first appear. */
  method Group(s: seq<Line>) returns (groups: seq<TaskGroup>)
    ensures groups == GroupsOf(s)
  {
    groups := [];
    assert s[..0] == [];
    for i := 0 to |s|
      invariant groups == GroupsOf(s[..i])
    {
      var x := s[i];
      assert s[..i + 1] == s[..i] + [x];
      var k := 0;
      while k < |groups| && groups[k].task != x.task
        invariant 0 <= k <= |groups|
        invariant forall m :: 0 <= m < k ==> groups[m].task != x.task
      {
        k := k + 1;
      }
      if k < |groups| {
        GroupGrows(s[..i], x, k);
        groups := groups[k := TaskGroup(x.task, groups[k].lines + [x])];
      } else {
        GroupStarts(s[..i], x);
        groups := groups + [TaskGroup(x.task, [x])];
      }
    }
    assert s[..|s|] == s;
  }

  lemma GroupGrows(s: seq<Line>, x: Line, k: nat)
    requires k < |GroupsOf(s)| && GroupsOf(s)[k].task == x.task
    ensures GroupsOf(s + [x]) == GroupsOf(s)[k := TaskGroup(x.task, GroupsOf(s)[k].lines + [x])]
  {
    hide Tasks, OfTask;
    TasksNextLine(s, x);
    TasksDistinct(s);
    assert Tasks(s)[k] in Tasks(s);
    assert forall m :: 0 <= m < |Tasks(s)| && m != k ==> Tasks(s)[m] != x.task;
  }

  lemma GroupStarts(s: seq<Line>, x: Line)
    requires forall k :: 0 <= k < |GroupsOf(s)| ==> GroupsOf(s)[k].task != x.task
    ensures GroupsOf(s + [x]) == GroupsOf(s) + [TaskGroup(x.task, [x])]
  {
    hide Tasks, OfTask;
    TasksNextLine(s, x);
    TasksDistinct(s);
    var old_, now := GroupsOf(s), GroupsOf(s + [x]);
    assert forall k :: 0 <= k < |Tasks(s)| ==> old_[k].task == Tasks(s)[k];
    assert x.task !in Tasks(s);
    assert OfTask(s, x.task) == [] && OfTask(s + [x], x.task) == [x];
    assert |now| == |old_| + 1 && now[|old_|] == TaskGroup(x.task, [x]);
    assert forall k :: 0 <= k < |old_| ==> now[k] == old_[k];
  }

  method TaskGroups(history: seq<Record>) returns (groups: seq<TaskGroup>)
    ensures groups == GroupsOf(Sorted(Reversed(AllLines(history))))
  {
    var lines := PairEvents(history);
    groups := Group(Sorted(Reversed(lines)));
  }

  // ----- what the groups promise -----

  function Gathered(s: seq<Line>, tasks: seq<Option<string>>): multiset<Line> {
    if tasks == [] then multiset{}
    else Gathered(s, tasks[..|tasks| - 1]) + multiset(OfTask(s, tasks[|tasks| - 1]))
  }

  lemma {:induction false} GatheredNext(s: seq<Line>, x: Line, tasks: seq<Option<string>>)
    requires Distinct(tasks)
    ensures Gathered(s + [x], tasks) == Gathered(s, tasks) + if x.task in tasks then multiset{x} else multiset{}
  {
    hide OfTask;
    if tasks != [] {
      var rest, task := tasks[..|tasks| - 1], tasks[|tasks| - 1];
      GatheredNext(s, x, rest);
      OfTaskNext(s, x, task);
      LastIsNew(tasks);
    }
  }

  lemma LastIsNew(tasks: seq<Option<string>>)
    requires Distinct(tasks) && tasks != []
    ensures tasks[|tasks| - 1] !in tasks[..|tasks| - 1]
    ensures forall t :: t in tasks <==> t in tasks[..|tasks| - 1] || t == tasks[|tasks| - 1]
  {
    assert tasks == tasks[..|tasks| - 1] + [tasks[|tasks| - 1]];
  }

  /** Every line lands in exactly one group. */
  lemma {:induction false} GroupsPartition(s: seq<Line>)
    ensures Gathered(s, Tasks(s)) == multiset(s)
  {
    if s != [] {
      var last := |s| - 1;
      var rest, x := s[..last], s[last];
      assert s == rest + [x];
      GroupsPartition(rest);
      TasksDistinct(rest);
      TasksNextLine(rest, x);
      GatheredNext(rest, x, Tasks(rest));
      if x.task !in Tasks(rest) {
        var tasks := Tasks(rest) + [x.task];
        assert tasks[..|tasks| - 1] == Tasks(rest);
        assert OfTask(s, x.task) == [x];
      }
    }
  }

  lemma {:induction false} OfTaskIn(s: seq<Line>, task: Option<string>, least: nat)
    requires Descending(s) && forall i :: 0 <= i < |s| ==> least <= s[i].at
    ensures Descending(OfTask(s, task))
    ensures forall i :: 0 <= i < |OfTask(s, task)| ==> OfTask(s, task)[i].task == task && least <= OfTask(s, task)[i].at
  {
    if s != [] {
      var last := |s| - 1;
      OfTaskIn(s[..last], task, s[last].at);
    }
  }

  ghost predicate HeadsDescend(groups: seq<TaskGroup>) {
    && (forall k :: 0 <= k < |groups| ==> groups[k].lines != [])
    && (forall a, b :: 0 <= a < b < |groups| ==> groups[a].lines[0].at >= groups[b].lines[0].at)
  }

  lemma {:induction false} HeadsInOrder(s: seq<Line>)
    requires Descending(s)
    ensures HeadsDescend(GroupsOf(s)) && HeadsIn(GroupsOf(s), s)
  {
    hide GroupsOf, Descending, HeadsDescend, HeadsIn;
    if s == [] {
      NoHeads();
    } else {
      var rest, x := s[..|s| - 1], s[|s| - 1];
      assert s == rest + [x];
      DescendingPrefix(s);
      LastIsLeast(s);
      HeadsInOrder(rest);
      var groups := GroupsOf(rest);
      if k: nat :| k < |groups| && groups[k].task == x.task {
        GroupGrows(rest, x, k);
        HeadsStay(groups, rest, x, k);
      } else {
        GroupStarts(rest, x);
        HeadsJoin(groups, rest, x);
      }
    }
  }

  ghost predicate HeadsIn(groups: seq<TaskGroup>, s: seq<Line>) {
    forall k :: 0 <= k < |groups| ==> groups[k].lines != [] && groups[k].lines[0] in s
  }

  lemma NoHeads()
    ensures HeadsDescend(GroupsOf([])) && HeadsIn(GroupsOf([]), [])
  {}

  lemma HeadsStay(groups: seq<TaskGroup>, s: seq<Line>, x: Line, k: nat)
    requires HeadsDescend(groups) && HeadsIn(groups, s) && k < |groups|
    ensures var next := groups[k := TaskGroup(x.task, groups[k].lines + [x])];
            HeadsDescend(next) && HeadsIn(next, s + [x])
  {}

  lemma HeadsJoin(groups: seq<TaskGroup>, s: seq<Line>, x: Line)
    requires HeadsDescend(groups) && HeadsIn(groups, s)
    requires forall i :: 0 <= i < |s + [x]| ==> (s + [x])[i].at >= x.at
    ensures HeadsDescend(groups + [TaskGroup(x.task, [x])]) && HeadsIn(groups + [TaskGroup(x.task, [x])], s + [x])
  {
    forall k | 0 <= k < |groups| ensures groups[k].lines[0] in s + [x] && groups[k].lines[0].at >= x.at {}
  }

  /**
   * A grouping of lines: one group a task, with exactly the lines between them, and times never increasing within a
   * group or from the head of one group to the next.
   */
  ghost predicate Grouping(groups: seq<TaskGroup>, tasks: seq<Option<string>>, s: seq<Line>, lines: seq<Line>) {
    && Distinct(tasks) && |groups| == |tasks| && Gathered(s, tasks) == multiset(lines) && HeadsDescend(groups)
    && (forall k :: 0 <= k < |groups| ==> GroupOf(groups[k], tasks[k], s))
  }

  ghost predicate GroupOf(group: TaskGroup, task: Option<string>, s: seq<Line>) {
    && group.task == task && group.lines == OfTask(s, task) && Descending(group.lines)
    && (forall i :: 0 <= i < |group.lines| ==> group.lines[i].task == task)
  }

  /** The details view of a history groups its lines, and of two lines of one time the later comes first. */
  lemma GroupsMean(history: seq<Record>, t: nat)
    ensures var s := Sorted(Reversed(AllLines(history)));
      && Grouping(GroupsOf(s), Tasks(s), s, AllLines(history))
      && AtTime(s, t) == Reversed(AtTime(AllLines(history), t))
  {
    hide AllLines, Sorted, Reversed, AtTime, Tasks, OfTask, Gathered, Descending, Distinct, HeadsDescend, HeadsIn;
    var lines := AllLines(history);
    var s := Sorted(Reversed(lines));
    SortedIsStable(Reversed(lines), t);
    ReversedAll(lines);
    ReversedAtTime(lines, t);
    TasksDistinct(s);
    GroupsPartition(s);
    HeadsInOrder(s);
    forall k | 0 <= k < |Tasks(s)| ensures GroupOf(GroupsOf(s)[k], Tasks(s)[k], s) {
      OfTaskIn(s, Tasks(s)[k], 0);
    }
  }
}
