/** What each line of a seat's activity says, in the details of its records. */
module TaskLines {
  import opened Wrappers
  import opened Activity
  import opened TaskGroups

  // ----- the kinds -----

  predicate Starts(kind: Kind) {
    kind in {EditStarted, CommandStarted, TestStarted, ToolStarted}
  }

  predicate Succeeds(kind: Kind) {
    kind in {EditFinished, CommandFinished, TestPassed, ToolFinished}
  }

  predicate Fails(kind: Kind) {
    kind in {EditFailed, CommandFailed, TestFailed, ToolFailed}
  }

  predicate OfAction(kind: Kind, action: Action) {
    match action
    case Edit => kind in {EditStarted, EditFinished, EditFailed}
    case Command => kind in {CommandStarted, CommandFinished, CommandFailed}
    case Test => kind in {TestStarted, TestPassed, TestFailed}
    case Tool => kind in {ToolStarted, ToolFinished, ToolFailed}
  }

  lemma KindsMean(r: Record)
    ensures IsStart(r) <==> Starts(r.event.kind)
    ensures IsDone(r) <==> Succeeds(r.event.kind) || Fails(r.event.kind)
    ensures IsDone(r) ==> (OperationOf(r.event.kind).value.phase.ok <==> Succeeds(r.event.kind))
    ensures IsOperation(r) <==> IsStart(r) || IsDone(r)
    ensures IsOperation(r) ==> OfAction(r.event.kind, OperationOf(r.event.kind).value.action)
  {
  }

  // ----- what decides a start, in kinds -----

  /** Of the same action and run, and of the same operation when it has an id, or without one on both sides. */
  predicate SameOperation(a: Record, b: Record) {
    && a.event.run == b.event.run && IdOf(a) == IdOf(b)
    && exists action :: OfAction(a.event.kind, action) && OfAction(b.event.kind, action)
  }

  function IdOf(r: Record): Option<string> {
    match r.event.detail
    case None => None
    case Some(detail) => detail.operation
  }

  /** The next start or result of the same operation, or the end of the turn or session of the run. */
  predicate EndsOperation(start: Record, r: Record) {
    || SameOperation(start, r)
    || (start.event.run == r.event.run && r.event.kind in {TurnFinished, Waiting, Stopped, SessionFinished})
  }

  lemma DecidesMeans(start: Record, r: Record)
    requires IsStart(start)
    ensures Decides(KeyOf(start), r) <==> EndsOperation(start, r)
  {
    KindsMean(start);
    KindsMean(r);
    var action := OperationOf(start.event.kind).value.action;
    assert OfAction(start.event.kind, action);
    assert forall other :: OfAction(start.event.kind, other) ==> other == action;
    if IsOperation(r) {
      assert forall other :: OfAction(r.event.kind, other) ==> other == OperationOf(r.event.kind).value.action;
    }
  }

  // ----- details -----

  function ToolIn(r: Record): Option<string> {
    match r.event.detail
    case None => None
    case Some(detail) => detail.tool
  }

  /** The file edited, or else the command run. */
  function TargetIn(r: Record): Option<string> {
    match r.event.detail
    case None => None
    case Some(detail) => if detail.file.Some? then detail.file else detail.command
  }

  function TaskIn(r: Record): Option<string> {
    match r.event.detail
    case None => None
    case Some(detail) => detail.task
  }

  /** The task that the run named last, up to a record. */
  ghost predicate NamedLast(h: seq<Record>, i: nat, task: Option<string>)
    requires i < |h|
  {
    match task
    case None => forall m :: 0 <= m <= i && h[m].event.run == h[i].event.run ==> TaskIn(h[m]).None?
    case Some(_) =>
      exists m :: 0 <= m <= i && h[m].event.run == h[i].event.run && TaskIn(h[m]) == task &&
                  forall k :: m < k <= i && h[k].event.run == h[i].event.run ==> TaskIn(h[k]).None?
  }

  lemma {:induction false} RunTaskLast(h: seq<Record>, run: string)
    ensures RunTask(h, run).None? ==> forall m :: 0 <= m < |h| && h[m].event.run == run ==> TaskIn(h[m]).None?
    ensures RunTask(h, run).Some? ==>
      exists m :: 0 <= m < |h| && h[m].event.run == run && TaskIn(h[m]) == RunTask(h, run) &&
                  forall k :: m < k < |h| && h[k].event.run == run ==> TaskIn(h[k]).None?
  {
    if h != [] {
      var last := |h| - 1;
      RunTaskLast(h[..last], run);
      assert forall m :: 0 <= m < last ==> h[..last][m] == h[m];
      if h[last].event.run == run && TaskIn(h[last]).Some? {
        assert TaskIn(h[last]) == RunTask(h, run);
      } else if RunTask(h, run).Some? {
        var m :| 0 <= m < last && h[..last][m].event.run == run && TaskIn(h[..last][m]) == RunTask(h[..last], run) &&
                 forall k :: m < k < last && h[..last][k].event.run == run ==> TaskIn(h[..last][k]).None?;
        assert h[m].event.run == run;
      }
    }
  }

  lemma TaskAtLast(h: seq<Record>, i: nat)
    requires i < |h|
    ensures NamedLast(h, i, TaskAt(h, i))
  {
    hide RunTask;
    var p := h[..i + 1];
    RunTaskLast(p, h[i].event.run);
    assert forall m :: 0 <= m <= i ==> p[m] == h[m];
    if TaskAt(h, i).Some? {
      var m :| 0 <= m < |p| && p[m].event.run == h[i].event.run && TaskIn(p[m]) == TaskAt(h, i) &&
               forall k :: m < k < |p| && p[k].event.run == h[i].event.run ==> TaskIn(p[k]).None?;
      assert h[m].event.run == h[i].event.run;
    }
  }

  lemma DetailsMean(r: Record)
    ensures ToolOf(r) == ToolIn(r) && TargetOf(r) == TargetIn(r) && TaskOf(r) == TaskIn(r) && OperationId(r) == IdOf(r)
  {
  }

  // ----- the lines -----

  /** What a line takes from the record that began it. */
  ghost predicate BeganAt(line: Line, r: Record) {
    && line.action.Some? && OfAction(r.event.kind, line.action.value)
    && line.started == r.receivedAt && line.run == r.event.run && line.operation == IdOf(r)
  }

  /** A start that nothing has ended. */
  ghost predicate StillRuns(line: Line, h: seq<Record>, i: nat)
    requires i < |h|
  {
    && BeganAt(line, h[i]) && line.outcome == Running && line.at == h[i].receivedAt
    && line.tool == ToolIn(h[i]) && line.target == TargetIn(h[i]) && NamedLast(h, i, line.task)
    && line.duration.None? && line.exitCode.None?
  }

  /** A start that ended without a result: as it began. */
  ghost predicate EndedWithout(line: Line, h: seq<Record>, i: nat)
    requires i < |h|
  {
    && line.outcome == NoResult && StillRuns(line.(outcome := Running), h, i)
  }

  /** The duration that the result tells, or else the time from start to result. */
  predicate Took(line: Line, start: Record, result: Record) {
    match result.event.detail
    case Some(detail) =>
      if detail.duration.Some? then line.duration == detail.duration else Elapsed(line, start, result)
    case None => Elapsed(line, start, result)
  }

  predicate Elapsed(line: Line, start: Record, result: Record) {
    line.duration == Some(if start.receivedAt <= result.receivedAt then result.receivedAt - start.receivedAt else 0)
  }

  /** A start with its result: the result says how and when it ended, and tells what the start left out. */
  ghost predicate EndedWith(line: Line, h: seq<Record>, i: nat, j: nat)
    requires i < |h| && j < |h|
  {
    && BeganAt(line, h[i]) && line.at == h[j].receivedAt
    && line.outcome == (if Succeeds(h[j].event.kind) then Succeeded else Failed)
    && line.tool == (if ToolIn(h[i]).Some? then ToolIn(h[i]) else ToolIn(h[j]))
    && line.target == (if TargetIn(h[i]).Some? then TargetIn(h[i]) else TargetIn(h[j]))
    && (NamedLast(h, i, line.task) || (NamedLast(h, i, None) && NamedLast(h, j, line.task)))
    && line.exitCode == ExitCode(h[j]) && Took(line, h[i], h[j])
  }

  /** The line of a start, by the first record that ends it. */
  lemma StartLine(h: seq<Record>, i: nat, j: nat)
    requires i < j <= |h| && Starts(h[i].event.kind)
    requires forall m :: i < m < j ==> !EndsOperation(h[i], h[m])
    requires j < |h| ==> EndsOperation(h[i], h[j])
    ensures Creates(h[..i + 1], i)
    ensures j == |h| ==> StillRuns(LineAt(h, i), h, i)
    ensures j < |h| && (Succeeds(h[j].event.kind) || Fails(h[j].event.kind)) ==> EndedWith(LineAt(h, i), h, i, j)
    ensures j < |h| && !Succeeds(h[j].event.kind) && !Fails(h[j].event.kind) ==> EndedWithout(LineAt(h, i), h, i)
  {
    hide Decides, EndsOperation, RunTask, NamedLast, TaskIn;
    KindsMean(h[i]);
    forall m | i < m < |h| ensures Decides(KeyOf(h[i]), h[m]) <==> EndsOperation(h[i], h[m]) {
      DecidesMeans(h[i], h[m]);
    }
    OutcomeIsFirst(h, i, j);
    DeciderIsFirst(h, i);
    assert Decider(h, i) == if j < |h| then Some(j) else None;
    TaskAtLast(h, i);
    DetailsMean(h[i]);
    if j < |h| {
      KindsMean(h[j]);
      TaskAtLast(h, j);
      DetailsMean(h[j]);
    }
  }

  /** A result whose start is not retained: its own line, as long as it says itself. */
  lemma LoneResult(h: seq<Record>, j: nat)
    requires j < |h| && (Succeeds(h[j].event.kind) || Fails(h[j].event.kind)) && Creates(h[..j + 1], j)
    ensures var line := LineAt(h, j);
      && BeganAt(line, h[j]) && line.at == h[j].receivedAt && NamedLast(h, j, line.task)
      && line.outcome == (if Succeeds(h[j].event.kind) then Succeeded else Failed)
      && line.tool == ToolIn(h[j]) && line.target == TargetIn(h[j])
      && line.duration == Duration(h[j]) && line.exitCode == ExitCode(h[j])
  {
    hide RunTask, NamedLast, Claimed;
    KindsMean(h[j]);
    TaskAtLast(h, j);
    DetailsMean(h[j]);
  }

  /** A note has a text and the task of its run, and nothing of an operation. */
  lemma NoteLine(h: seq<Record>, i: nat)
    requires i < |h| && h[i].event.kind in {SessionStarted, SessionFinished, TurnFinished, Waiting, Stopped, MailSent, MailReceived}
    ensures Creates(h[..i + 1], i)
    ensures var line := LineAt(h, i);
      && line.outcome.Note? && line.action.None? && line.tool.None? && line.target.None? && line.duration.None?
      && line.exitCode.None? && line.operation.None? && line.run == h[i].event.run
      && line.at == line.started == h[i].receivedAt && NamedLast(h, i, line.task)
      && (line.outcome.text == "waiting for input" <==> h[i].event.kind in {TurnFinished, Waiting})
      && (line.outcome.text == "session started" <==> h[i].event.kind.SessionStarted?)
      && (line.outcome.text == "session ended" <==> h[i].event.kind.SessionFinished?)
      && (line.outcome.text == "stopped" <==> h[i].event.kind.Stopped?)
      && (line.outcome.text == "sent mail" <==> h[i].event.kind.MailSent?)
      && (line.outcome.text == "received mail" <==> h[i].event.kind.MailReceived?)
  {
    hide RunTask, NamedLast;
    TaskAtLast(h, i);
    TextsDiffer();
  }

  lemma TextsDiffer()
    ensures |"waiting for input"| == 17 && |"session started"| == 15 && |"session ended"| == 13 && |"stopped"| == 7
    ensures |"sent mail"| == 9 && |"received mail"| == 13 && "session ended"[0] != "received mail"[0]
  {
  }
}
