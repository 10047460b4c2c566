/** What a snapshot of the running sessions leaves a host with. */
module ActivitySessions {
  import opened Wrappers
  import opened Activity
  import opened ActivityHost

  /** Where a seat is listed, and not again after. */
  ghost predicate LastAt(sessions: seq<Session>, i: nat) {
    i < |sessions| && forall j :: i < j < |sessions| ==> sessions[j].seat != sessions[i].seat
  }

  ghost predicate OnceAt(sessions: seq<Session>, i: nat) {
    LastAt(sessions, i) && forall j :: 0 <= j < i ==> sessions[j].seat != sessions[i].seat
  }

  function Found(seats: map<string, Seat>, id: string, at: nat): Seat {
    if id in seats then seats[id] else NewSeat(at)
  }

  lemma SeatsOfNext(sessions: seq<Session>)
    requires sessions != []
    ensures SeatsOf(sessions) == SeatsOf(sessions[..|sessions| - 1]) + {sessions[|sessions| - 1].seat}
  {
    var last := |sessions| - 1;
    assert forall i :: 0 <= i < last ==> sessions[..last][i] == sessions[i];
    forall id | id in SeatsOf(sessions) ensures id in SeatsOf(sessions[..last]) + {sessions[last].seat} {
      var i :| 0 <= i < |sessions| && sessions[i].seat == id;
      assert i < last ==> sessions[..last][i].seat == id;
    }
    forall id | id in SeatsOf(sessions[..last]) ensures id in SeatsOf(sessions) {
      var i :| 0 <= i < last && sessions[..last][i].seat == id;
      assert sessions[i].seat == id;
    }
  }

  /** Sessions add the seats they list and touch no other. */
  lemma {:induction false} ObservedKeys(seats: map<string, Seat>, sessions: seq<Session>, at: nat, fade: Option<nat>)
    ensures ObservedAll(seats, sessions, at, fade).Keys == seats.Keys + SeatsOf(sessions)
    ensures forall id :: id in seats && id !in SeatsOf(sessions) ==> ObservedAll(seats, sessions, at, fade)[id] == seats[id]
  {
    hide Observed, SeatsOf;
    if sessions == [] {
      NothingListed();
    } else {
      var last := |sessions| - 1;
      SeatsOfNext(sessions);
      ObservedKeys(seats, sessions[..last], at, fade);
    }
  }

  lemma NothingListed()
    ensures SeatsOf([]) == {}
  {}

  /** What a seat is seen as is what its last session says of it, after those before. */
  lemma {:induction false} ObservedLast(seats: map<string, Seat>, sessions: seq<Session>, at: nat, fade: Option<nat>, i: nat)
    requires LastAt(sessions, i)
    ensures var id, all := sessions[i].seat, ObservedAll(seats, sessions, at, fade);
      id in all && all[id] == Observed(Found(ObservedAll(seats, sessions[..i], at, fade), id, at), sessions[i], at, fade)
  {
    hide Observed, SeatsOf;
    var last := |sessions| - 1;
    if i < last {
      assert sessions[..last][..i] == sessions[..i];
      assert sessions[..last][i] == sessions[i];
      ObservedLast(seats, sessions[..last], at, fade, i);
    }
  }

  /** A seat listed once is seen as its session says, whatever else is listed. */
  lemma ObservedOnce(seats: map<string, Seat>, sessions: seq<Session>, at: nat, fade: Option<nat>, i: nat)
    requires OnceAt(sessions, i)
    ensures var id, all := sessions[i].seat, ObservedAll(seats, sessions, at, fade);
      id in all && all[id] == Observed(Found(seats, id, at), sessions[i], at, fade)
  {
    hide Observed;
    ObservedLast(seats, sessions, at, fade, i);
    ObservedKeys(seats, sessions[..i], at, fade);
    assert sessions[i].seat !in SeatsOf(sessions[..i]);
  }

  /** A seat shows a session: its info, and the record that stands for it. */
  ghost predicate ShowsSession(seat: Seat, session: Session) {
    seat.info == session.info && seat.discovery == Some(Discovery(session.id, session.observation))
  }

  /** A seat that is not listed keeps its past; a session it had is over. */
  ghost predicate Unlisted(was: Seat, seat: Seat, at: nat, fade: Option<nat>) {
    seat == if was.discovery.Some? then was.(discovery := None, state := StoppedState, since := at, changedAt := fade) else was
  }

  /**
   * After a snapshot the seats are those it lists and those with a history; a seat has a discovery if and only if it is
   * listed, and then its last session's; every other one is as before but for the end of its session.
   */
  lemma SnapshotMeans(seats: map<string, Seat>, sessions: Sessions, fade: Option<nat>)
    ensures var after, listed := Discovered(seats, sessions, fade), SeatsOf(sessions.seats);
      && after.Keys == listed + (set id | id in seats && seats[id].history != [])
      && (forall id :: id in after ==> (after[id].discovery.Some? <==> id in listed))
      && (forall i: nat :: LastAt(sessions.seats, i) ==>
            sessions.seats[i].seat in after && ShowsSession(after[sessions.seats[i].seat], sessions.seats[i]))
      && (forall id :: id in after && id !in listed ==> Unlisted(seats[id], after[id], sessions.observedAt, fade))
  {
    hide ObservedAll, SeatsOf, Hooked;
    var listed, at := SeatsOf(sessions.seats), sessions.observedAt;
    var swept := Swept(seats, listed, at, fade);
    var after := Discovered(seats, sessions, fade);
    ObservedKeys(swept, sessions.seats, at, fade);
    forall i: nat | LastAt(sessions.seats, i)
      ensures sessions.seats[i].seat in after && ShowsSession(after[sessions.seats[i].seat], sessions.seats[i])
    {
      ObservedLast(swept, sessions.seats, at, fade, i);
    }
    forall id | id in after ensures after[id].discovery.Some? <==> id in listed {
      if id in listed {
        var i := LastListed(sessions.seats, id);
        assert ShowsSession(after[id], sessions.seats[i]);
      }
    }
  }

  lemma {:induction false} LastListed(sessions: seq<Session>, id: string) returns (i: nat)
    requires id in SeatsOf(sessions)
    ensures LastAt(sessions, i) && sessions[i].seat == id
  {
    var last := |sessions| - 1;
    if sessions[last].seat == id {
      i := last;
    } else {
      SeatsOfNext(sessions);
      i := LastListed(sessions[..last], id);
    }
  }

  /** A listed seat with the session it had keeps its history; with another, it starts over. */
  lemma SessionChangeForgets(seats: map<string, Seat>, sessions: Sessions, fade: Option<nat>, i: nat)
    requires OnceAt(sessions.seats, i)
    ensures var session, after := sessions.seats[i], Discovered(seats, sessions, fade);
      var was := Found(seats, session.seat, sessions.observedAt);
      && session.seat in after
      && after[session.seat].history
           == (if was.discovery.Some? && was.discovery.value.session != session.id then [] else was.history)
  {
    hide Hooked, ObservedAll;
    var listed, at, id := SeatsOf(sessions.seats), sessions.observedAt, sessions.seats[i].seat;
    var swept := Swept(seats, listed, at, fade);
    assert id in listed;
    ObservedOnce(swept, sessions.seats, at, fade, i);
    assert Found(swept, id, at) == Found(seats, id, at);
  }

  // ----- the state of a listed seat -----

  /** An event the agent itself sent, mail aside. */
  predicate OwnEvent(r: Record) {
    r.event.source != Runtime && !r.event.kind.MailSent? && !r.event.kind.MailReceived?
  }

  /** The last such event does not say that the agent stopped. */
  ghost predicate SpeaksForItself(history: seq<Record>) {
    exists i :: 0 <= i < |history| && OwnEvent(history[i]) &&
                (forall j :: i < j < |history| ==> !OwnEvent(history[j])) &&
                history[i].event.kind != Stopped && history[i].event.kind != SessionFinished
  }

  lemma {:induction false} HookedMeans(history: seq<Record>)
    ensures Hooked(history) <==> SpeaksForItself(history)
  {
    if history != [] {
      var last := |history| - 1;
      var init := history[..last];
      HookedMeans(init);
      assert forall i :: 0 <= i < last ==> init[i] == history[i];
      if !OwnEvent(history[last]) {
        if SpeaksForItself(init) {
          var i :| 0 <= i < last && OwnEvent(init[i]) && (forall j :: i < j < last ==> !OwnEvent(init[j])) &&
                   init[i].event.kind != Stopped && init[i].event.kind != SessionFinished;
          assert OwnEvent(history[i]);
        }
        if SpeaksForItself(history) {
          var i :| 0 <= i < |history| && OwnEvent(history[i]) && (forall j :: i < j < |history| ==> !OwnEvent(history[j])) &&
                   history[i].event.kind != Stopped && history[i].event.kind != SessionFinished;
          assert OwnEvent(init[i]);
        }
      }
    }
  }

  predicate Reports(session: SessionState, state: SeatState) {
    || (session.SessionIdle? && state.IdleState?)
    || (session.SessionStuck? && state.StuckState?)
    || (session.SessionStopped? && state.StoppedState?)
    || (session.SessionWorking? && state.WorkingState?)
    || (session.SessionWaiting? && state.WaitingState?)
  }

  /**
   A session's state is taken unless the agent speaks for itself and the session would only be working or waiting. A state
   that is new dates from the snapshot, and fades if there was one before; else nothing of it changes.
   */
  ghost predicate StateTaken(was: Seat, history: seq<Record>, seat: Seat, session: Session, at: nat, fade: Option<nat>) {
    && seat.history == history
    && (SpeaksForItself(history) && session.state in {SessionWorking, SessionWaiting} ==> seat.state == was.state)
    && (!SpeaksForItself(history) || session.state in {SessionIdle, SessionStuck, SessionStopped} ==>
          Reports(session.state, seat.state))
    && (seat.state == was.state ==> seat.since == was.since && seat.changedAt == was.changedAt)
    && (seat.state != was.state ==>
          seat.since == at && seat.changedAt == if was.state == UnknownState then was.changedAt else fade)
  }

  /** A listed seat after a snapshot: its session's state or its own, with the history it keeps. */
  lemma ListedState(seats: map<string, Seat>, sessions: Sessions, fade: Option<nat>, i: nat)
    requires OnceAt(sessions.seats, i)
    ensures var session, after := sessions.seats[i], Discovered(seats, sessions, fade);
      var was := Found(seats, session.seat, sessions.observedAt);
      var history := if was.discovery.Some? && was.discovery.value.session != session.id then [] else was.history;
      && session.seat in after
      && StateTaken(was, history, after[session.seat], session, sessions.observedAt, fade)
      && ShowsSession(after[session.seat], session)
  {
    hide Hooked, ObservedAll, SpeaksForItself;
    var listed, at, id := SeatsOf(sessions.seats), sessions.observedAt, sessions.seats[i].seat;
    var swept := Swept(seats, listed, at, fade);
    assert id in listed;
    ObservedOnce(swept, sessions.seats, at, fade, i);
    var was := Found(seats, id, at);
    assert Found(swept, id, at) == was;
    HookedMeans(was.history);
    HookedMeans([]);
  }

  // ----- live seats, and the bound of 128 -----

  lemma TakenKeepsLive(s: State, r: Record, fade: Option<nat>)
    ensures forall id :: id in s.seats && s.seats[id].discovery.Some? ==>
              id in Taken(s, r, fade).seats && Taken(s, r, fade).seats[id].discovery == s.seats[id].discovery
  {
    hide Pushed;
    var open := s.(sequence := r.sequence);
    assert Oldest(open.seats).Some? ==> open.seats[Oldest(open.seats).value].discovery.None?;
  }

  lemma {:induction false} TakenAllKeepsLive(s: State, records: seq<Record>, fade: Option<nat>)
    ensures forall id :: id in s.seats && s.seats[id].discovery.Some? ==>
              && id in TakenAll(s, records, fade).seats
              && TakenAll(s, records, fade).seats[id].discovery == s.seats[id].discovery
  {
    hide Taken;
    if records != [] {
      var last := |records| - 1;
      TakenAllKeepsLive(s, records[..last], fade);
      TakenKeepsLive(TakenAll(s, records[..last], fade), records[last], fade);
    }
  }

  /** No record evicts a seat with a running session: only a snapshot that leaves it out, or a new lifetime, ends it. */
  lemma LiveSeatsStay(s: State, page: Page, local: nat, id: string)
    requires s.epoch == Some(page.epoch) && page.reset.None? && id in s.seats && s.seats[id].discovery.Some?
    ensures page.sessions.None? || id in SeatsOf(page.sessions.value.seats) ==>
              id in Applied(s, page, local).seats && Applied(s, page, local).seats[id].discovery.Some?
  {
    hide TakenAll, Discovered, SeatsOf;
    var fade := Fade(s, page, local);
    TakenAllKeepsLive(Opened(s, page), page.records, fade);
    if page.sessions.Some? {
      var t := Moved(TakenAll(Opened(s, page), page.records, fade), page.cursor);
      SnapshotMeans(t.seats, page.sessions.value, fade);
    }
  }

  /** A host with 128 running sessions or more takes no record of another seat: only its sequence moves. */
  lemma FullOfLive(s: State, r: Record, fade: Option<nat>)
    requires |s.seats| >= MAX_SEATS && forall id :: id in s.seats ==> s.seats[id].discovery.Some?
    requires r.event.seat !in s.seats
    ensures Taken(s, r, fade) == if r.sequence <= s.sequence then s else s.(sequence := r.sequence)
  {
    NoOldest(s.seats);
  }

  ghost predicate AllLive(seats: map<string, Seat>) {
    forall id :: id in seats ==> seats[id].discovery.Some?
  }

  lemma TakenOfHeld(s: State, r: Record, fade: Option<nat>)
    requires AllLive(s.seats) && r.event.seat in s.seats
    ensures Taken(s, r, fade).seats.Keys == s.seats.Keys && Taken(s, r, fade).evicted == s.evicted
    ensures AllLive(Taken(s, r, fade).seats)
  {
    hide Pushed;
  }

  /** While a host holds 128 running sessions or more, no record changes which seats it holds. */
  lemma {:induction false} FullOfLiveStays(s: State, records: seq<Record>, fade: Option<nat>)
    requires |s.seats| >= MAX_SEATS && AllLive(s.seats)
    ensures var t := TakenAll(s, records, fade);
      t.seats.Keys == s.seats.Keys && t.evicted == s.evicted && AllLive(t.seats)
  {
    hide Taken;
    if records != [] {
      var init, r := records[..|records| - 1], records[|records| - 1];
      FullOfLiveStays(s, init, fade);
      var t := TakenAll(s, init, fade);
      assert |t.seats| == |t.seats.Keys| == |s.seats.Keys| == |s.seats|;
      if r.event.seat in t.seats {
        TakenOfHeld(t, r, fade);
      } else {
        FullOfLive(t, r, fade);
      }
    }
  }

  /** The limit of 128 does not bind a snapshot: every seat it lists is held. */
  lemma SnapshotExceeds(s: State, page: Page, local: nat)
    requires page.sessions.Some?
    ensures SeatsOf(page.sessions.value.seats) <= Applied(s, page, local).seats.Keys
    ensures (forall i :: 0 <= i < |page.sessions.value.seats| ==> OnceAt(page.sessions.value.seats, i)) ==>
              |page.sessions.value.seats| <= |Applied(s, page, local).seats|
  {
    hide TakenAll, Discovered, SeatsOf;
    var sessions, fade := page.sessions.value, Fade(s, page, local);
    var t := Moved(TakenAll(Opened(s, page), page.records, fade), page.cursor);
    SnapshotMeans(t.seats, sessions, fade);
    var keys := Applied(s, page, local).seats.Keys;
    var rest := keys - SeatsOf(sessions.seats);
    assert keys == SeatsOf(sessions.seats) + rest && |keys| == |Applied(s, page, local).seats|;
    if forall i :: 0 <= i < |sessions.seats| ==> OnceAt(sessions.seats, i) {
      ListedSize(sessions.seats, |sessions.seats|);
      assert sessions.seats[..|sessions.seats|] == sessions.seats;
    }
  }

  lemma {:induction false} ListedSize(sessions: seq<Session>, n: nat)
    requires n <= |sessions| && forall i :: 0 <= i < |sessions| ==> OnceAt(sessions, i)
    ensures |SeatsOf(sessions[..n])| == n
  {
    if n == 0 {
      assert SeatsOf(sessions[..0]) == {};
    } else {
      ListedSize(sessions, n - 1);
      SeatsOfNext(sessions[..n]);
      assert sessions[..n][..n - 1] == sessions[..n - 1];
      assert OnceAt(sessions, n - 1);
      assert sessions[n - 1].seat !in SeatsOf(sessions[..n - 1]);
    }
  }
}
