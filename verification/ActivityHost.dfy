/** What a viewer keeps of one host's activity feed. */
module ActivityHost {
  import opened Wrappers
  import opened Activity

  const MAX_SEATS := 128
  const HISTORY := 256

  datatype SessionState = SessionIdle | SessionStuck | SessionStopped | SessionWorking | SessionWaiting

  datatype SeatInfo =
    SeatInfo(harness: Option<string>, model: Option<string>, quota: Option<string>, project: Option<string>)

  const NO_INFO := SeatInfo(None, None, None, None)

  /** observation is the record that stands for the session until it has a history. */
  datatype Session = Session(seat: string, id: string, state: SessionState, info: SeatInfo, observation: Record)

  datatype Sessions = Sessions(observedAt: nat, seats: seq<Session>)
  datatype Discovery = Discovery(session: string, observation: Record)

  datatype Seat = Seat(history: seq<Record>, state: SeatState, since: nat, changedAt: Option<nat>, info: SeatInfo,
                       discovery: Option<Discovery>)

  datatype Page = Page(epoch: string, reset: Option<string>, records: seq<Record>, cursor: nat, hasMore: bool,
                       sessions: Option<Sessions>)

  datatype Link = Connecting | Connected | Retrying(since: nat) | Disabled | Unsupported | PermissionDenied

  datatype State = State(link: Link, epoch: Option<string>, sequence: nat, more: bool, reset: Option<string>,
                         evicted: nat, seats: map<string, Seat>)

  /** A host that has heard nothing yet. */
  const BLANK := State(Connecting, None, 0, false, None, 0, map[])

  /** A place in a feed. */
  datatype Cursor = Cursor(epoch: string, sequence: nat)

  // ----- what every seat keeps -----

  ghost predicate Increasing(history: seq<Record>) {
    forall i, j :: 0 <= i < j < |history| ==> history[i].sequence < history[j].sequence
  }

  ghost predicate Owned(history: seq<Record>, id: string, top: nat) {
    forall i :: 0 <= i < |history| ==> history[i].event.seat == id && 0 < history[i].sequence <= top
  }

  ghost predicate SeatOk(seat: Seat, id: string, top: nat) {
    && (seat.history != [] || seat.discovery.Some?)
    && |seat.history| <= HISTORY && Increasing(seat.history) && Owned(seat.history, id, top)
  }

  function LastSequence(seat: Seat): nat
    requires seat.history != []
  {
    seat.history[|seat.history| - 1].sequence
  }

  /** Nothing is shown for a seat without a record of it, and no two seats share their last event. */
  ghost predicate SeatsOk(seats: map<string, Seat>, top: nat) {
    && (forall id :: id in seats ==> SeatOk(seats[id], id, top))
    && (forall a, b :: a in seats && b in seats && a != b && seats[a].history != [] && seats[b].history != [] ==>
          LastSequence(seats[a]) != LastSequence(seats[b]))
  }

  ghost predicate Valid(s: State) {
    SeatsOk(s.seats, s.sequence) && (s.epoch.None? ==> s.seats == map[] && s.evicted == 0)
  }

  /** The record a seat is shown by: the source marks the case where there is none as unreachable. */
  function Latest(seat: Seat): Record
    requires seat.history != [] || seat.discovery.Some?
  {
    if seat.history != [] then seat.history[|seat.history| - 1] else seat.discovery.value.observation
  }

  ghost predicate Shown(seats: map<string, Seat>) {
    forall id :: id in seats ==> Latest.requires(seats[id])
  }

  // ----- one record -----

  function Pushed(history: seq<Record>, r: Record): seq<Record> {
    (if |history| == HISTORY then history[1..] else history) + [r]
  }

  function Recorded(seat: Seat, r: Record, fade: Option<nat>): Seat {
    var state := NextState(seat.state, r.event.kind);
    var moved := state != seat.state;
    Seat(Pushed(seat.history, r), state,
         if moved then r.receivedAt else seat.since,
         if moved && seat.state != UnknownState then fade.Or(seat.changedAt) else seat.changedAt,
         seat.info, seat.discovery)
  }

  function NewSeat(at: nat): Seat {
    Seat([], UnknownState, at, None, NO_INFO, None)
  }

  predicate Evictable(seats: map<string, Seat>, id: string) {
    id in seats && seats[id].discovery.None? && seats[id].history != []
  }

  predicate IsOldest(seats: map<string, Seat>, id: string) {
    && Evictable(seats, id)
    && forall other :: other in seats && Evictable(seats, other) ==> LastSequence(seats[id]) <= LastSequence(seats[other])
  }

  ghost function Oldest(seats: map<string, Seat>): (r: Option<string>)
    ensures r.Some? ==> IsOldest(seats, r.value)
    ensures r.None? ==> forall id :: !IsOldest(seats, id)
  {
    if exists id :: IsOldest(seats, id) then
      var id :| IsOldest(seats, id);
      Some(id)
    else None
  }

  /** A record goes to the seat it names; for a seat not held, a full host gives up the one last heard of first. */
  ghost function Inserted(s: State, r: Record, fade: Option<nat>): State {
    var id := r.event.seat;
    if id in s.seats then s.(seats := s.seats[id := Recorded(s.seats[id], r, fade)])
    else if |s.seats| < MAX_SEATS then s.(seats := s.seats[id := Recorded(NewSeat(r.receivedAt), r, fade)])
    else
      match Oldest(s.seats)
      case Some(oldest) =>
        s.(seats := (s.seats - {oldest})[id := Recorded(NewSeat(r.receivedAt), r, fade)], evicted := s.evicted + 1)
      case None => s
  }

  /** A record is taken only when its sequence is new; then it is the host's sequence. */
  ghost function Taken(s: State, r: Record, fade: Option<nat>): State {
    if r.sequence <= s.sequence then s else Inserted(s.(sequence := r.sequence), r, fade)
  }

  ghost function TakenAll(s: State, records: seq<Record>, fade: Option<nat>): State {
    if records == [] then s
    else Taken(TakenAll(s, records[..|records| - 1], fade), records[|records| - 1], fade)
  }

  lemma TakenNext(s: State, records: seq<Record>, r: Record, fade: Option<nat>)
    ensures TakenAll(s, records + [r], fade) == Taken(TakenAll(s, records, fade), r, fade)
  {
    assert (records + [r])[..|records|] == records;
  }

  lemma NothingTaken(s: State, fade: Option<nat>)
    ensures TakenAll(s, [], fade) == s
  {}

  // ----- one snapshot of the sessions -----

  function SeatsOf(sessions: seq<Session>): set<string> {
    set i | 0 <= i < |sessions| :: sessions[i].seat
  }

  /** A seat whose session is gone is stopped, and dropped when it never had an event. */
  function Swept(seats: map<string, Seat>, current: set<string>, at: nat, fade: Option<nat>): map<string, Seat> {
    map id | id in seats && (id in current || seats[id].history != []) ::
      if id !in current && seats[id].discovery.Some?
      then seats[id].(discovery := None, state := StoppedState, since := at, changedAt := fade)
      else seats[id]
  }

  /** The last event of the agent's own, mail aside, does not say that it stopped. */
  function Hooked(history: seq<Record>): bool {
    if history == [] then false
    else
      var event := history[|history| - 1].event;
      if event.source == Runtime || Mail(event.kind) then Hooked(history[..|history| - 1])
      else !event.kind.Stopped? && !event.kind.SessionFinished?
  }

  function StateOf(state: SessionState): SeatState {
    match state
    case SessionIdle => IdleState
    case SessionStuck => StuckState
    case SessionStopped => StoppedState
    case SessionWorking => WorkingState
    case SessionWaiting => WaitingState
  }

  function Observed(seat: Seat, session: Session, at: nat, fade: Option<nat>): Seat {
    var replaced := seat.discovery.Some? && seat.discovery.value.session != session.id;
    var history := if replaced then [] else seat.history;
    var told := !Hooked(history) || session.state.SessionIdle? || session.state.SessionStuck? || session.state.SessionStopped?;
    var moved := told && StateOf(session.state) != seat.state;
    Seat(history, if moved then StateOf(session.state) else seat.state, if moved then at else seat.since,
         if moved && seat.state != UnknownState then fade else seat.changedAt,
         session.info, Some(Discovery(session.id, session.observation)))
  }

  function ObservedIn(seats: map<string, Seat>, session: Session, at: nat, fade: Option<nat>): map<string, Seat> {
    var seat := if session.seat in seats then seats[session.seat] else NewSeat(at);
    seats[session.seat := Observed(seat, session, at, fade)]
  }

  function ObservedAll(seats: map<string, Seat>, sessions: seq<Session>, at: nat, fade: Option<nat>): map<string, Seat> {
    if sessions == [] then seats
    else ObservedIn(ObservedAll(seats, sessions[..|sessions| - 1], at, fade), sessions[|sessions| - 1], at, fade)
  }

  function Discovered(seats: map<string, Seat>, sessions: Sessions, fade: Option<nat>): map<string, Seat> {
    ObservedAll(Swept(seats, SeatsOf(sessions.seats), sessions.observedAt, fade), sessions.seats, sessions.observedAt, fade)
  }

  // ----- one page -----

  predicate NewEpoch(s: State, page: Page) {
    s.epoch != Some(page.epoch)
  }

  /** Only a page that follows a caught-up page of the same lifetime is live change. */
  predicate Live(s: State, page: Page) {
    !NewEpoch(s, page) && page.reset.None? && !s.more
  }

  function Fade(s: State, page: Page, local: nat): Option<nat> {
    if Live(s, page) then Some(local) else None
  }

  /** The state a page finds: empty after a reset or in a new lifetime. */
  function Opened(s: State, page: Page): State {
    var cleared := page.reset.Some? || (NewEpoch(s, page) && s.epoch.Some?);
    State(Connected, Some(page.epoch), if page.reset.Some? || NewEpoch(s, page) then 0 else s.sequence, page.hasMore,
          if page.reset.Some? then page.reset else if cleared then Some("restarted") else s.reset,
          if cleared then 0 else s.evicted, if cleared then map[] else s.seats)
  }

  function Moved(s: State, cursor: nat): State {
    if s.sequence < cursor then s.(sequence := cursor) else s
  }

  ghost function Applied(s: State, page: Page, local: nat): State {
    var fade := Fade(s, page, local);
    var t := Moved(TakenAll(Opened(s, page), page.records, fade), page.cursor);
    if page.sessions.Some? then t.(seats := Discovered(t.seats, page.sessions.value, fade)) else t
  }

  // ----- what every step keeps -----

  lemma PushedOk(history: seq<Record>, r: Record, id: string, top: nat)
    requires |history| <= HISTORY && Increasing(history) && Owned(history, id, top)
    requires r.event.seat == id && top < r.sequence
    ensures |Pushed(history, r)| <= HISTORY && Increasing(Pushed(history, r)) && Owned(Pushed(history, r), id, r.sequence)
    ensures Pushed(history, r) != [] && Pushed(history, r)[|Pushed(history, r)| - 1] == r
  {}

  lemma InsertedOk(s: State, r: Record, fade: Option<nat>)
    requires SeatsOk(s.seats, s.sequence) && s.sequence < r.sequence
    ensures SeatsOk(Inserted(s, r, fade).seats, r.sequence)
  {
    hide Increasing, Owned, Pushed, Oldest, IsOldest;
    var t, id := Inserted(s, r, fade), r.event.seat;
    forall other | other in t.seats ensures SeatOk(t.seats[other], other, r.sequence) {
      if other == id && t.seats != s.seats {
        var seat := if id in s.seats then s.seats[id] else NewSeat(r.receivedAt);
        assert id in s.seats ==> SeatOk(s.seats[id], id, s.sequence);
        NothingOk(id, s.sequence);
        PushedOk(seat.history, r, id, s.sequence);
      } else {
        assert other in s.seats && t.seats[other] == s.seats[other];
        OwnedUp(s.seats[other].history, other, s.sequence, r.sequence);
      }
    }
    forall a, b | a in t.seats && b in t.seats && a != b && t.seats[a].history != [] && t.seats[b].history != []
      ensures LastSequence(t.seats[a]) != LastSequence(t.seats[b])
    {
      LastOk(s, r, fade, a);
      LastOk(s, r, fade, b);
    }
  }

  lemma NothingOk(id: string, top: nat)
    ensures Increasing([]) && Owned([], id, top)
  {}

  lemma OwnedUp(history: seq<Record>, id: string, low: nat, high: nat)
    requires Owned(history, id, low) && low <= high
    ensures Owned(history, id, high)
  {}

  lemma LastOk(s: State, r: Record, fade: Option<nat>, id: string)
    requires SeatsOk(s.seats, s.sequence) && s.sequence < r.sequence
    requires id in Inserted(s, r, fade).seats && Inserted(s, r, fade).seats[id].history != []
    ensures Inserted(s, r, fade).seats == s.seats
         || (id == r.event.seat && LastSequence(Inserted(s, r, fade).seats[id]) == r.sequence)
         || (id != r.event.seat && id in s.seats && Inserted(s, r, fade).seats[id] == s.seats[id]
             && LastSequence(s.seats[id]) <= s.sequence)
  {
    hide Increasing, Oldest, IsOldest, Recorded;
    RecordedLast(if r.event.seat in s.seats then s.seats[r.event.seat] else NewSeat(r.receivedAt), r, fade);
    if id in s.seats {
      assert SeatOk(s.seats[id], id, s.sequence);
    }
  }

  lemma RecordedLast(seat: Seat, r: Record, fade: Option<nat>)
    ensures Recorded(seat, r, fade).history != [] && LastSequence(Recorded(seat, r, fade)) == r.sequence
  {}

  lemma {:induction false} TakenAllOk(s: State, records: seq<Record>, fade: Option<nat>)
    requires SeatsOk(s.seats, s.sequence)
    ensures SeatsOk(TakenAll(s, records, fade).seats, TakenAll(s, records, fade).sequence)
    ensures s.sequence <= TakenAll(s, records, fade).sequence
    ensures TakenAll(s, records, fade).epoch == s.epoch
  {
    hide SeatsOk;
    if records != [] {
      var last := |records| - 1;
      TakenAllOk(s, records[..last], fade);
      TakenOk(TakenAll(s, records[..last], fade), records[last], fade);
    }
  }

  /** A record touches seats and evictions only, and looks at nothing else. */
  lemma InsertedElse(s: State, r: Record, fade: Option<nat>, top: nat)
    ensures Inserted(s, r, fade).sequence == s.sequence && Inserted(s, r, fade).epoch == s.epoch
    ensures Inserted(s.(sequence := top), r, fade) == Inserted(s, r, fade).(sequence := top)
  {
    hide Recorded, Oldest;
  }

  lemma TakenOk(s: State, r: Record, fade: Option<nat>)
    requires SeatsOk(s.seats, s.sequence)
    ensures SeatsOk(Taken(s, r, fade).seats, Taken(s, r, fade).sequence)
    ensures s.sequence <= Taken(s, r, fade).sequence && Taken(s, r, fade).epoch == s.epoch
  {
    hide SeatsOk, Inserted;
    if s.sequence < r.sequence {
      InsertedOk(s, r, fade);
      InsertedElse(s, r, fade, r.sequence);
    }
  }

  lemma SweptOk(seats: map<string, Seat>, current: set<string>, at: nat, fade: Option<nat>, top: nat)
    requires SeatsOk(seats, top)
    ensures SeatsOk(Swept(seats, current, at, fade), top)
  {
    hide Increasing, Owned;
    var t := Swept(seats, current, at, fade);
    forall id | id in t ensures SeatOk(t[id], id, top) {
      assert SeatOk(seats[id], id, top);
    }
  }

  lemma ObservedInOk(seats: map<string, Seat>, session: Session, at: nat, fade: Option<nat>, top: nat)
    requires SeatsOk(seats, top)
    ensures SeatsOk(ObservedIn(seats, session, at, fade), top)
  {
    hide Increasing, Owned, Hooked;
    var t := ObservedIn(seats, session, at, fade);
    NothingOk(session.seat, top);
    forall id | id in t ensures SeatOk(t[id], id, top) {
      if id in seats {
        assert SeatOk(seats[id], id, top);
      }
    }
    forall a, b | a in t && b in t && a != b && t[a].history != [] && t[b].history != []
      ensures LastSequence(t[a]) != LastSequence(t[b])
    {
      assert a in seats && t[a].history == seats[a].history;
      assert b in seats && t[b].history == seats[b].history;
    }
  }

  lemma {:induction false} ObservedAllOk(seats: map<string, Seat>, sessions: seq<Session>, at: nat, fade: Option<nat>, top: nat)
    requires SeatsOk(seats, top)
    ensures SeatsOk(ObservedAll(seats, sessions, at, fade), top)
  {
    hide SeatsOk;
    if sessions != [] {
      var last := |sessions| - 1;
      ObservedAllOk(seats, sessions[..last], at, fade, top);
      ObservedInOk(ObservedAll(seats, sessions[..last], at, fade), sessions[last], at, fade, top);
    }
  }

  lemma OpenedOk(s: State, page: Page)
    requires Valid(s)
    ensures SeatsOk(Opened(s, page).seats, Opened(s, page).sequence)
  {}

  /** Whatever the page says, every seat keeps a record to be shown by. */
  lemma AppliedValid(s: State, page: Page, local: nat)
    requires Valid(s)
    ensures Valid(Applied(s, page, local)) && Shown(Applied(s, page, local).seats)
  {
    hide SeatOk;
    var fade, start := Fade(s, page, local), Opened(s, page);
    OpenedOk(s, page);
    TakenAllOk(start, page.records, fade);
    var taken := TakenAll(start, page.records, fade);
    var t := Moved(taken, page.cursor);
    SeatsUp(taken.seats, taken.sequence, t.sequence);
    if page.sessions.Some? {
      var sessions := page.sessions.value;
      SweptOk(t.seats, SeatsOf(sessions.seats), sessions.observedAt, fade, t.sequence);
      ObservedAllOk(Swept(t.seats, SeatsOf(sessions.seats), sessions.observedAt, fade), sessions.seats, sessions.observedAt,
                    fade, t.sequence);
    }
    AllShown(Applied(s, page, local).seats, t.sequence);
  }

  lemma AllShown(seats: map<string, Seat>, top: nat)
    requires SeatsOk(seats, top)
    ensures Shown(seats)
  {
    hide Increasing, Owned;
    forall id | id in seats ensures Latest.requires(seats[id]) {
      assert SeatOk(seats[id], id, top);
    }
  }

  lemma SeatsUp(seats: map<string, Seat>, low: nat, high: nat)
    requires SeatsOk(seats, low) && low <= high
    ensures SeatsOk(seats, high)
  {
    hide Increasing, Owned;
    forall id | id in seats ensures SeatOk(seats[id], id, high) {
      assert SeatOk(seats[id], id, low);
      OwnedUp(seats[id].history, id, low, high);
    }
  }

  // ----- the host -----

  lemma OldestIs(seats: map<string, Seat>, top: nat, id: string)
    requires SeatsOk(seats, top) && IsOldest(seats, id)
    ensures Oldest(seats) == Some(id)
  {
    var found := Oldest(seats);
    assert found.Some?;
    assert LastSequence(seats[found.value]) == LastSequence(seats[id]);
  }

  lemma NoOldest(seats: map<string, Seat>)
    requires forall id :: id in seats ==> !Evictable(seats, id)
    ensures Oldest(seats).None?
  {
    assert Oldest(seats).Some? ==> Evictable(seats, Oldest(seats).value);
  }

  /** The seats of a host, and where it stands in the feed. */
  class Host {
    var link: Link
    var epoch: Option<string>
    var sequence: nat
    var more: bool
    var reset: Option<string>
    var evicted: nat
    var seats: map<string, Seat>

    constructor ()
      ensures Now() == BLANK && Valid(Now())
    {
      link, epoch, sequence, more, reset, evicted, seats := Connecting, None, 0, false, None, 0, map[];
    }

    function Now(): State
      reads this
    {
      State(link, epoch, sequence, more, reset, evicted, seats)
    }

    /** A page is applied record by record, then its sessions; every seat can still be shown. */
    method Apply(page: Page, local: nat)
      requires Valid(Now())
      modifies this
      ensures Now() == Applied(old(Now()), page, local)
      ensures Valid(Now()) && forall id :: id in seats ==> Latest.requires(seats[id])
    {
      hide Inserted, Swept, ObservedIn, ObservedAll, Valid, SeatsOk, Latest, TakenAll, StateAfter;
      AppliedValid(Now(), page, local);
      ghost var before := Now();
      OpenedOk(before, page);
      var newEpoch := epoch != Some(page.epoch);
      var live := !newEpoch && page.reset.None? && !more;
      var fade := if live then Some(local) else None;
      if page.reset.Some? {
        seats, evicted, reset := map[], 0, page.reset;
      } else if newEpoch && epoch.Some? {
        seats, evicted, reset := map[], 0, Some("restarted");
      }
      if newEpoch || page.reset.Some? {
        sequence := 0;
      }
      epoch, link, more := Some(page.epoch), Connected, page.hasMore;
      assert Now() == Opened(before, page);
      NothingTaken(Now(), fade);
      assert page.records[..0] == [];
      for i := 0 to |page.records|
        invariant Now() == TakenAll(Opened(before, page), page.records[..i], fade)
        invariant SeatsOk(seats, sequence)
      {
        var r := page.records[i];
        assert page.records[..i + 1] == page.records[..i] + [r];
        TakenNext(Opened(before, page), page.records[..i], r, fade);
        if r.sequence > sequence {
          TakenOk(Now(), r, fade);
          ghost var was := Now();
          sequence := r.sequence;
          SeatsUp(seats, was.sequence, sequence);
          Insert(r, fade);
        }
      }
      assert page.records[..|page.records|] == page.records;
      sequence := if sequence < page.cursor then page.cursor else sequence;
      if page.sessions.Some? {
        Discover(page.sessions.value, fade);
      }
    }

    method Insert(r: Record, fade: Option<nat>)
      requires SeatsOk(seats, sequence)
      modifies this
      ensures Now() == Inserted(old(Now()), r, fade)
    {
      hide Recorded, IsOldest, SeatsOk;
      var id := r.event.seat;
      if id !in seats && |seats| >= MAX_SEATS {
        var oldest := FindOldest();
        if oldest.None? {
          return;
        }
        seats := seats - {oldest.value};
        evicted := evicted + 1;
      }
      var seat := if id in seats then seats[id] else NewSeat(r.receivedAt);
      seats := seats[id := Recorded(seat, r, fade)];
    }

    /** The seat without a live session whose last event is oldest. */
    method FindOldest() returns (oldest: Option<string>)
      requires SeatsOk(seats, sequence)
      ensures oldest == Oldest(seats)
    {
      oldest := None;
      var left := seats.Keys;
      while left != {}
        invariant left <= seats.Keys
        invariant oldest.None? ==> forall id :: id in seats && id !in left ==> !Evictable(seats, id)
        invariant oldest.Some? ==> Evictable(seats, oldest.value) && oldest.value !in left
        invariant oldest.Some? ==> forall id :: id in seats && id !in left && Evictable(seats, id) ==>
                    LastSequence(seats[oldest.value]) <= LastSequence(seats[id])
        decreases left
      {
        var id :| id in left;
        left := left - {id};
        assert SeatOk(seats[id], id, sequence);
        if seats[id].discovery.None? && (oldest.None? || LastSequence(seats[id]) < LastSequence(seats[oldest.value])) {
          oldest := Some(id);
        }
      }
      if oldest.Some? {
        OldestIs(seats, sequence, oldest.value);
      } else {
        NoOldest(seats);
      }
    }

    method Discover(sessions: Sessions, fade: Option<nat>)
      modifies this
      ensures Now() == old(Now()).(seats := Discovered(old(seats), sessions, fade))
    {
      hide Swept, Observed;
      var current := SeatsOf(sessions.seats);
      ghost var swept := Swept(seats, current, sessions.observedAt, fade);
      seats := Swept(seats, current, sessions.observedAt, fade);
      for i := 0 to |sessions.seats|
        invariant Now() == old(Now()).(seats := ObservedAll(swept, sessions.seats[..i], sessions.observedAt, fade))
      {
        var session := sessions.seats[i];
        assert sessions.seats[..i + 1][..i] == sessions.seats[..i];
        var seat := if session.seat in seats then seats[session.seat] else NewSeat(sessions.observedAt);
        seats := seats[session.seat := Observed(seat, session, sessions.observedAt, fade)];
      }
      assert sessions.seats[..|sessions.seats|] == sessions.seats;
    }

    method Disconnect(now: nat)
      modifies this
      ensures Now() == old(Now()).(link := if old(link).Retrying? then old(link) else Retrying(now))
    {
      if !link.Retrying? {
        link := Retrying(now);
      }
    }
  }
}
