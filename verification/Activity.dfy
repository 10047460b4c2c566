/** Activity records of a seat, and the state they put it in. */
module Activity {
  import opened Wrappers

  datatype Kind =
    | MailSent | MailReceived
    | Waiting | TurnStarted | TurnFinished | SessionStarted | SessionFinished | Stopped | Working
    | ToolStarted | ToolFinished | ToolFailed
    | CommandStarted | CommandFinished | CommandFailed
    | EditStarted | EditFinished | EditFailed
    | TestStarted | TestPassed | TestFailed

  datatype Source = Hooks | Notify | Runtime

  datatype Detail = Detail(task: Option<string>, tool: Option<string>, file: Option<string>, command: Option<string>,
                           operation: Option<string>, exitCode: Option<int>, duration: Option<nat>)

  datatype Event = Event(seat: string, kind: Kind, source: Source, run: string, detail: Option<Detail>)
  datatype Record = Record(sequence: nat, receivedAt: nat, event: Event)

  datatype SeatState = UnknownState | WorkingState | WaitingState | IdleState | StuckState | FailedState | StoppedState

  /** A seat's own records. */
  function OfSeat(records: seq<Record>, seat: string): seq<Record> {
    if records == [] then []
    else
      var rest, r := OfSeat(records[..|records| - 1], seat), records[|records| - 1];
      if r.event.seat == seat then rest + [r] else rest
  }

  lemma OfSeatNext(records: seq<Record>, r: Record, seat: string)
    ensures OfSeat(records + [r], seat) == if r.event.seat == seat then OfSeat(records, seat) + [r] else OfSeat(records, seat)
  {
    assert (records + [r])[..|records|] == records;
  }

  predicate Mail(kind: Kind) {
    kind.MailSent? || kind.MailReceived?
  }

  /** One step of a seat's state: mail leaves it alone, every other kind sets it. */
  function NextState(previous: SeatState, kind: Kind): SeatState {
    match kind
    case MailSent | MailReceived => previous
    case Waiting | TurnFinished | SessionStarted => WaitingState
    case Stopped | SessionFinished => StoppedState
    case ToolFailed | CommandFailed | EditFailed | TestFailed => FailedState
    case Working | TurnStarted | ToolStarted | ToolFinished | CommandStarted | CommandFinished
       | EditStarted | EditFinished | TestStarted | TestPassed => WorkingState
  }

  /** The state after a history of records. */
  function StateAfter(initial: SeatState, history: seq<Record>): SeatState {
    if history == [] then initial
    else NextState(StateAfter(initial, history[..|history| - 1]), history[|history| - 1].event.kind)
  }

  lemma StateAfterNext(initial: SeatState, history: seq<Record>, r: Record)
    ensures StateAfter(initial, history + [r]) == NextState(StateAfter(initial, history), r.event.kind)
  {
    assert (history + [r])[..|history|] == history;
  }

  /** Some record says more than that mail moved. */
  ghost predicate Meaningful(history: seq<Record>) {
    exists i :: 0 <= i < |history| && !Mail(history[i].event.kind)
  }

  /** Once a record is not about mail, nothing before the history matters. */
  lemma {:induction false} MeaningfulForgets(a: SeatState, b: SeatState, history: seq<Record>)
    requires Meaningful(history)
    ensures StateAfter(a, history) == StateAfter(b, history)
  {
    var last := |history| - 1;
    if Mail(history[last].event.kind) {
      var i :| 0 <= i < |history| && !Mail(history[i].event.kind);
      assert history[..last][i] == history[i];
      MeaningfulForgets(a, b, history[..last]);
    }
  }

  lemma {:induction false} OnlyMailKeeps(initial: SeatState, history: seq<Record>)
    requires !Meaningful(history)
    ensures StateAfter(initial, history) == initial
  {
    if history != [] {
      var last := |history| - 1;
      assert Mail(history[last].event.kind);
      assert forall i :: 0 <= i < last ==> history[..last][i] == history[i];
      OnlyMailKeeps(initial, history[..last]);
    }
  }
}
