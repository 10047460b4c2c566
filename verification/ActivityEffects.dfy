/** What a record, and a page as a whole, change of a host. */
module ActivityEffects {
  import opened Wrappers
  import opened Activity
  import opened ActivityHost

  // ----- the state a kind of event puts a seat in -----

  predicate IsMail(kind: Kind) {
    kind in {MailSent, MailReceived}
  }

  /** Mail changes nothing; any other event puts the seat in one state whatever it was in, and never in an unknown one. */
  lemma KindStates(before: SeatState, kind: Kind)
    ensures IsMail(kind) ==> NextState(before, kind) == before
    ensures !IsMail(kind) ==>
      && (NextState(before, kind) == StoppedState <==> kind in {Stopped, SessionFinished})
      && (NextState(before, kind) == FailedState <==> kind in {ToolFailed, CommandFailed, EditFailed, TestFailed})
      && (NextState(before, kind) == WaitingState <==> kind in {Waiting, TurnFinished, SessionStarted})
      && NextState(before, kind) in {StoppedState, FailedState, WaitingState, WorkingState}
  {
  }

  // ----- one record -----

  /** The last 255 records that were there, and the new one. */
  predicate Appended(was: seq<Record>, now: seq<Record>, r: Record) {
    && now != [] && now[|now| - 1] == r && |now| == (if |was| < 256 then |was| + 1 else 256)
    && |now| - 1 <= |was| && now[..|now| - 1] == was[|was| - (|now| - 1)..]
  }

  /**
   A record's seat has it last, in the state that it leads to. A new state dates from the record; it fades from the given
   time on, if the seat had a known one before. Session and info are as they were.
   */
  ghost predicate TakesRecord(was: Seat, now: Seat, r: Record, fade: Option<nat>) {
    && Appended(was.history, now.history, r) && now.state == NextState(was.state, r.event.kind)
    && now.info == was.info && now.discovery == was.discovery
    && (now.state == was.state ==> now.since == was.since && now.changedAt == was.changedAt)
    && (now.state != was.state ==>
          && now.since == r.receivedAt
          && now.changedAt ==
               if was.state != UnknownState && fade.Some? then fade else was.changedAt)
  }

  lemma RecordedMeans(was: Seat, r: Record, fade: Option<nat>)
    requires |was.history| <= HISTORY
    ensures TakesRecord(was, Recorded(was, r, fade), r, fade)
  {
  }

  ghost predicate IsFresh(seat: Seat, at: nat) {
    && seat.history == [] && seat.state == UnknownState && seat.since == at && seat.changedAt.None? && seat.info == NO_INFO
    && seat.discovery.None?
  }

  /** Where a record finds its seat, or makes it. */
  function SeatFor(seats: map<string, Seat>, r: Record): Seat {
    if r.event.seat in seats then seats[r.event.seat] else NewSeat(r.receivedAt)
  }

  lemma SeatForMeans(seats: map<string, Seat>, r: Record)
    ensures r.event.seat in seats ==> SeatFor(seats, r) == seats[r.event.seat]
    ensures r.event.seat !in seats ==> IsFresh(SeatFor(seats, r), r.receivedAt)
  {
  }

  /** The seats that may go, in the order of their last events. */
  predicate LeastRecent(seats: map<string, Seat>, id: string) {
    && id in seats && seats[id].discovery.None? && seats[id].history != []
    && forall other :: other in seats && seats[other].discovery.None? && seats[other].history != [] ==>
         seats[id].history[|seats[id].history| - 1].sequence <= seats[other].history[|seats[other].history| - 1].sequence
  }

  /** All 128 seats are taken, and none is the record's. */
  predicate NoRoom(seats: map<string, Seat>, r: Record) {
    r.event.seat !in seats && |seats| >= 128
  }

  lemma InsertedCases(s: State, r: Record, fade: Option<nat>)
    ensures var seat := Recorded(SeatFor(s.seats, r), r, fade);
      && (!NoRoom(s.seats, r) ==> Inserted(s, r, fade) == s.(seats := s.seats[r.event.seat := seat]))
      && (NoRoom(s.seats, r) && Oldest(s.seats).None? ==> Inserted(s, r, fade) == s)
      && (NoRoom(s.seats, r) && Oldest(s.seats).Some? ==>
            Inserted(s, r, fade) ==
              s.(seats := (s.seats - {Oldest(s.seats).value})[r.event.seat := seat], evicted := s.evicted + 1))
  {
    hide Recorded, IsOldest;
  }

  /** A seat gone, and one put. */
  ghost predicate Replaces(before: map<string, Seat>, after: map<string, Seat>, gone: set<string>, id: string) {
    && after.Keys == before.Keys - gone + {id}
    && forall other :: other in after && other != id ==> after[other] == before[other]
  }

  /**
   A record changes its own seat, and takes at most one other away: when 128 are held and it has none, the one without a
   session whose last event is oldest, which is counted; and when there is no such one, the record is dropped.
   */
  lemma RecordMeans(s: State, r: Record, fade: Option<nat>)
    requires SeatsOk(s.seats, s.sequence)
    ensures var t := Inserted(s, r, fade);
      && (!NoRoom(s.seats, r) ==> t.evicted == s.evicted && Replaces(s.seats, t.seats, {}, r.event.seat))
      && (NoRoom(s.seats, r) && (forall other :: other in s.seats ==> s.seats[other].discovery.Some?) ==> t == s)
      && (NoRoom(s.seats, r) && (exists other :: other in s.seats && s.seats[other].discovery.None?) ==>
            t.evicted == s.evicted + 1 &&
            exists gone :: LeastRecent(s.seats, gone) && Replaces(s.seats, t.seats, {gone}, r.event.seat))
  {
    hide Recorded, LeastRecent, IsOldest, SeatsOk, Inserted, Oldest;
    InsertedCases(s, r, fade);
    if NoRoom(s.seats, r) {
      if other :| other in s.seats && s.seats[other].discovery.None? {
        SomeOldest(s.seats, s.sequence, other);
        assert Replaces(s.seats, Inserted(s, r, fade).seats, {Oldest(s.seats).value}, r.event.seat);
      } else {
        NoOldest(s.seats);
      }
    }
  }

  /** And its own seat takes it. */
  lemma OwnSeatTakes(s: State, r: Record, fade: Option<nat>)
    requires SeatsOk(s.seats, s.sequence) && r.event.seat in Inserted(s, r, fade).seats
    ensures TakesRecord(SeatFor(s.seats, r), Inserted(s, r, fade).seats[r.event.seat], r, fade)
    ensures if r.event.seat in s.seats then SeatFor(s.seats, r) == s.seats[r.event.seat]
            else IsFresh(SeatFor(s.seats, r), r.receivedAt)
  {
    hide Recorded, TakesRecord, IsOldest, Inserted, Increasing, Owned, Oldest;
    assert r.event.seat in s.seats ==> SeatOk(s.seats[r.event.seat], r.event.seat, s.sequence);
    InsertedCases(s, r, fade);
    RecordedMeans(SeatFor(s.seats, r), r, fade);
    SeatForMeans(s.seats, r);
  }

  lemma SomeOldest(seats: map<string, Seat>, top: nat, some: string)
    requires SeatsOk(seats, top) && some in seats && seats[some].discovery.None?
    ensures Oldest(seats).Some? && LeastRecent(seats, Oldest(seats).value)
  {
    hide Increasing, Owned;
    forall id | id in seats ensures SeatOk(seats[id], id, top) {}
    var least := LeastOf(seats, seats.Keys, some);
    assert IsOldest(seats, least);
    OldestIs(seats, top, least);
  }

  lemma {:induction false} LeastOf(seats: map<string, Seat>, ids: set<string>, some: string) returns (least: string)
    requires ids <= seats.Keys && some in ids && Evictable(seats, some)
    ensures least in ids && Evictable(seats, least)
    ensures forall id :: id in ids && Evictable(seats, id) ==> LastSequence(seats[least]) <= LastSequence(seats[id])
    decreases |ids|
  {
    var rest := ids - {some};
    assert ids == rest + {some};
    if other :| other in rest && Evictable(seats, other) {
      least := LeastOf(seats, rest, other);
      if LastSequence(seats[some]) < LastSequence(seats[least]) {
        least := some;
      }
    } else {
      least := some;
    }
  }

  // ----- one page -----

  /** A page of another lifetime, or one that says so, starts over. */
  predicate StartsOver(s: State, page: Page) {
    page.reset.Some? || s.epoch != Some(page.epoch)
  }

  lemma {:induction false} TakenRest(s: State, records: seq<Record>, fade: Option<nat>)
    ensures var t := TakenAll(s, records, fade);
      && t.link == s.link && t.epoch == s.epoch && t.more == s.more && t.reset == s.reset
      && t.sequence >= s.sequence && (forall i :: 0 <= i < |records| ==> t.sequence >= records[i].sequence)
      && (t.sequence == s.sequence || exists i :: 0 <= i < |records| && t.sequence == records[i].sequence)
      && (forall id :: id in t.seats ==> id in s.seats || exists i :: 0 <= i < |records| && records[i].event.seat == id)
  {
    hide Inserted;
    if records != [] {
      var last := |records| - 1;
      var init := records[..last];
      TakenRest(s, init, fade);
      assert forall i :: 0 <= i < last ==> init[i] == records[i];
      var before := TakenAll(s, init, fade);
      if before.sequence < records[last].sequence {
        InsertedRest(before.(sequence := records[last].sequence), records[last], fade);
      }
      assert records[last].event.seat == records[last].event.seat;
      forall id | id in before.seats && id !in s.seats ensures exists i :: 0 <= i < |records| && records[i].event.seat == id {
        var i :| 0 <= i < last && init[i].event.seat == id;
        assert records[i].event.seat == id;
      }
    }
  }

  lemma InsertedRest(s: State, r: Record, fade: Option<nat>)
    ensures var t := Inserted(s, r, fade);
      && t.link == s.link && t.epoch == s.epoch && t.more == s.more && t.reset == s.reset && t.sequence == s.sequence
      && forall id :: id in t.seats ==> id in s.seats || id == r.event.seat
  {
    hide Recorded, Oldest;
  }

  /**
   After a page the host is connected, in the page's lifetime, and as far as the furthest of its own place, the page's
   cursor and its records. A page that starts over leaves no seat that it does not name itself, and says why.
   */
  lemma PageMeans(s: State, page: Page, local: nat)
    ensures var t := Applied(s, page, local);
      var base := if StartsOver(s, page) then 0 else s.sequence;
      && t.link == Connected && t.epoch == Some(page.epoch) && t.more == page.hasMore
      && t.reset == (if page.reset.Some? then page.reset
                     else if s.epoch.Some? && s.epoch.value != page.epoch then Some("restarted") else s.reset)
      && t.sequence >= base && t.sequence >= page.cursor
      && (forall i :: 0 <= i < |page.records| ==> t.sequence >= page.records[i].sequence)
      && (t.sequence == base || t.sequence == page.cursor ||
          exists i :: 0 <= i < |page.records| && t.sequence == page.records[i].sequence)
  {
    hide TakenAll, Discovered;
    TakenRest(Opened(s, page), page.records, Fade(s, page, local));
  }

  lemma RestartForgets(s: State, page: Page, local: nat)
    requires StartsOver(s, page) && (s.epoch.None? ==> s.seats == map[]) && page.sessions.None?
    ensures forall id :: id in Applied(s, page, local).seats ==>
      exists i :: 0 <= i < |page.records| && page.records[i].event.seat == id
  {
    hide TakenAll;
    TakenRest(Opened(s, page), page.records, Fade(s, page, local));
  }
}
