/** Polling gets through a feed: every visit goes on where the one before it stopped. */
module PollerCatchUp {
  import opened Wrappers
  import opened Activity
  import opened ActivityHost
  import opened ActivityPaging
  import opened Poller

  const PAGE_RECORDS := 256

  // ----- a feed that pages a log -----

  /** How many records of a log come up to a sequence. */
  function PlaceOf(log: seq<Record>, sequence: nat): (n: nat)
    ensures n <= |log|
  {
    if log == [] then 0
    else if log[|log| - 1].sequence <= sequence then |log|
    else PlaceOf(log[..|log| - 1], sequence)
  }

  lemma {:induction false} PlaceIs(log: seq<Record>, sequence: nat, n: nat)
    requires Log(log) && n <= |log|
    requires (n > 0 ==> log[n - 1].sequence <= sequence) && (n < |log| ==> sequence < log[n].sequence)
    ensures PlaceOf(log, sequence) == n
  {
    if n < |log| {
      PlaceIs(log[..|log| - 1], sequence, n);
    }
  }

  /** A cursor of this lifetime says where to go on; without one, or with one of another, the feed starts over. */
  function AskedFrom(epoch: string, cursor: Option<Cursor>): nat {
    if cursor.Some? && cursor.value.epoch == epoch then cursor.value.sequence else 0
  }

  function Next256(a: nat, n: nat): nat {
    if a + PAGE_RECORDS <= n then a + PAGE_RECORDS else n
  }

  /** The next 256 records after the cursor, and a cursor at the last of them. */
  ghost predicate NextPage(page: Page, epoch: string, log: seq<Record>, cursor: Option<Cursor>) {
    var a := PlaceOf(log, AskedFrom(epoch, cursor));
    var b := Next256(a, |log|);
    && page.epoch == epoch && page.records == log[a..b] && page.hasMore == (b < |log|)
    && page.cursor == (if a < b then log[b - 1].sequence else AskedFrom(epoch, cursor))
    && (page.reset.Some? <==> cursor.Some? && cursor.value.epoch != epoch)
  }

  ghost predicate Serves(answer: Feed, handle: nat, epoch: string, log: seq<Record>) {
    forall k, cursor :: answer(k, handle, cursor).Polled? && NextPage(answer(k, handle, cursor).page, epoch, log, cursor)
  }

  // ----- where a host stands -----

  /** A host of this lifetime that has taken the first n records, or one that has heard nothing of it. */
  ghost predicate StandsAt(s: State, epoch: string, log: seq<Record>, n: nat) {
    && n <= |log|
    && if s.epoch == Some(epoch) then
         (n > 0 ==> log[n - 1].sequence <= s.sequence) && (n < |log| ==> s.sequence < log[n].sequence)
       else n == 0
  }

  /** Sequences only grow within a page, up to its last record and its cursor. */
  lemma {:induction false} TakenSequenceAll(s: State, records: seq<Record>, fade: Option<nat>)
    requires Increasing(records)
    ensures TakenAll(s, records, fade).sequence ==
      if records == [] || records[|records| - 1].sequence <= s.sequence then s.sequence else records[|records| - 1].sequence
  {
    hide Inserted;
    if records != [] {
      var last := |records| - 1;
      TakenSequenceAll(s, records[..last], fade);
      TakenSequence(TakenAll(s, records[..last], fade), records[last], fade);
    }
  }

  lemma AppliedSequence(s: State, page: Page, local: nat)
    requires Increasing(page.records)
    ensures var t, base := Applied(s, page, local), Opened(s, page).sequence;
      && t.epoch == Some(page.epoch) && t.more == page.hasMore
      && t.sequence >= base && t.sequence >= page.cursor
      && (page.records != [] ==> t.sequence >= page.records[|page.records| - 1].sequence)
      && (t.sequence == base || t.sequence == page.cursor ||
          (page.records != [] && t.sequence == page.records[|page.records| - 1].sequence))
  {
    hide Discovered, TakenAll, Increasing;
    TakenSequenceAll(Opened(s, page), page.records, Fade(s, page, local));
    TakenElse(Opened(s, page), page.records, Fade(s, page, local));
  }

  lemma {:induction false} TakenElse(s: State, records: seq<Record>, fade: Option<nat>)
    ensures TakenAll(s, records, fade).epoch == s.epoch && TakenAll(s, records, fade).more == s.more
  {
    hide Inserted;
    if records != [] {
      var last := |records| - 1;
      TakenElse(s, records[..last], fade);
      InsertedMore(TakenAll(s, records[..last], fade).(sequence := records[last].sequence), records[last], fade);
    }
  }

  lemma InsertedMore(s: State, r: Record, fade: Option<nat>)
    ensures Inserted(s, r, fade).epoch == s.epoch && Inserted(s, r, fade).more == s.more
  {
    hide Recorded, Oldest;
  }

  /** One poll takes the next 256 records, whatever the sessions of its page are. */
  lemma PollAdvances(s: State, epoch: string, log: seq<Record>, n: nat, page: Page, local: nat)
    requires Log(log) && StandsAt(s, epoch, log, n) && NextPage(page, epoch, log, CursorOf(s))
    ensures var t := Applied(s, page, local);
      StandsAt(t, epoch, log, Next256(n, |log|)) && t.epoch == Some(epoch) && t.more == (Next256(n, |log|) < |log|)
  {
    hide Applied, PlaceOf;
    var base := AskedFrom(epoch, CursorOf(s));
    StartsThere(s, epoch, log, n);
    var b := Next256(n, |log|);
    assert page.records == log[n..b];
    AppliedSequence(s, page, local);
    assert page.records != [] ==> page.records[|page.records| - 1] == log[b - 1];
  }

  lemma StartsThere(s: State, epoch: string, log: seq<Record>, n: nat)
    requires Log(log) && StandsAt(s, epoch, log, n)
    ensures PlaceOf(log, AskedFrom(epoch, CursorOf(s))) == n
  {
    PlaceIs(log, AskedFrom(epoch, CursorOf(s)), n);
  }

  /** With pages that have no sessions, the seats are those of the records taken so far. */
  lemma PollTracks(s: State, epoch: string, log: seq<Record>, n: nat, page: Page, local: nat)
    requires Log(log) && Valid(s) && StandsAt(s, epoch, log, n) && NextPage(page, epoch, log, CursorOf(s))
    requires s.epoch == Some(epoch) ==> Tracks(s, log, n)
    requires page.sessions.None?
    ensures Tracks(Applied(s, page, local), log, Next256(n, |log|))
  {
    hide Applied, PlaceOf, Tracks, Valid, Log;
    StartsThere(s, epoch, log, n);
    var b := Next256(n, |log|);
    if s.epoch == Some(epoch) {
      OpenedSame(s, page, log, n);
    } else {
      OpenedEmpty(s, page, log);
    }
    CursorShort(s, epoch, log, n, page);
    PageTracks(s, log, n, page, n, b, local);
  }

  lemma CursorShort(s: State, epoch: string, log: seq<Record>, n: nat, page: Page)
    requires Log(log) && StandsAt(s, epoch, log, n) && NextPage(page, epoch, log, CursorOf(s))
    requires PlaceOf(log, AskedFrom(epoch, CursorOf(s))) == n && page.sessions.None?
    ensures PageOf(page, epoch, log, n, Next256(n, |log|), n)
  {
    hide PlaceOf;
  }

  // ----- visits -----

  /** Where two pages get. */
  function Next512(n: nat, size: nat): nat {
    Next256(Next256(n, size), size)
  }

  /** A visit with two calls left takes the next 512 records; one with a single call 256. */
  lemma VisitAdvances(s: State, epoch: string, log: seq<Record>, n: nat, clock: Clock, handle: nat, remaining: nat,
                      answer: Feed) returns (m: nat)
    requires Log(log) && StandsAt(s, epoch, log, n) && Serves(answer, handle, epoch, log) && 0 < remaining <= POLLS
    ensures m == (if remaining > 1 then Next512(n, |log|) else Next256(n, |log|))
    ensures var t := Visited(s, clock, handle, remaining, answer);
      StandsAt(t, epoch, log, m) && t.epoch == Some(epoch) && t.more == (m < |log|)
  {
    hide Applied, NextPage, Log, StandsAt;
    var k := POLLS - remaining;
    var first := answer(k, handle, CursorOf(s));
    PollAdvances(s, epoch, log, n, first.page, clock.monotonic);
    m := Next256(n, |log|);
    PageMore(first.page, epoch, log, s, n);
    if first.page.hasMore && remaining > 1 {
      var t := Heard(s, clock, first);
      var second := answer(k + 1, handle, CursorOf(t));
      PollAdvances(t, epoch, log, m, second.page, clock.monotonic);
      m := Next256(m, |log|);
    }
  }

  lemma PageMore(page: Page, epoch: string, log: seq<Record>, s: State, n: nat)
    requires Log(log) && StandsAt(s, epoch, log, n) && NextPage(page, epoch, log, CursorOf(s))
    ensures page.hasMore == (Next256(n, |log|) < |log|)
  {
    StartsThere(s, epoch, log, n);
  }

  /** A ring of 512 records is read whole in one visit with two calls. */
  lemma OneVisitReadsTheRing(s: State, epoch: string, log: seq<Record>, clock: Clock, handle: nat, remaining: nat, answer: Feed)
    requires Log(log) && |log| <= 512 && s.epoch != Some(epoch)
    requires Serves(answer, handle, epoch, log) && 1 < remaining <= POLLS
    ensures var t := Visited(s, clock, handle, remaining, answer);
      StandsAt(t, epoch, log, |log|) && t.epoch == Some(epoch) && !t.more
  {
    hide Visited, Serves, Log;
    var m := VisitAdvances(s, epoch, log, 0, clock, handle, remaining, answer);
  }

  // ----- ticks -----

  /** How often a host was visited. */
  function TimesVisited(visits: seq<seq<nat>>, i: nat): nat {
    if visits == [] then 0
    else TimesVisited(visits[..|visits| - 1], i) + if i in visits[|visits| - 1] then 1 else 0
  }

  function Taken256(times: nat, size: nat): nat {
    if times * PAGE_RECORDS <= size then times * PAGE_RECORDS else size
  }

  /** At least so many records. */
  ghost predicate PastAt(s: State, epoch: string, log: seq<Record>, least: nat) {
    exists n :: least <= n && StandsAt(s, epoch, log, n)
  }

  lemma MissedStands(s: State, clock: Clock, epoch: string, log: seq<Record>, least: nat)
    requires PastAt(s, epoch, log, least)
    ensures PastAt(Missed(s, clock, OtherError), epoch, log, least)
  {
    var n :| least <= n && StandsAt(s, epoch, log, n);
    assert StandsAt(Missed(s, clock, OtherError), epoch, log, n);
  }

  lemma VisitedStands(s: State, t: State, clock: Clock, handle: nat, answer: Feed, epoch: string, log: seq<Record>, times: nat)
    requires Log(log) && Serves(answer, handle, epoch, log) && WasVisited(s, t, clock, handle, answer)
    requires PastAt(s, epoch, log, Taken256(times, |log|))
    ensures PastAt(t, epoch, log, Taken256(times + 1, |log|))
  {
    hide Visited, Serves, Log, StandsAt;
    var remaining :| 0 < remaining <= POLLS && t == Visited(s, clock, handle, remaining, answer);
    var n :| Taken256(times, |log|) <= n && StandsAt(s, epoch, log, n);
    StandsWithin(s, epoch, log, n);
    var m := VisitAdvances(s, epoch, log, n, clock, handle, remaining, answer);
    assert Taken256(times + 1, |log|) <= m;
  }

  lemma StandsWithin(s: State, epoch: string, log: seq<Record>, n: nat)
    requires StandsAt(s, epoch, log, n)
    ensures n <= |log|
  {
  }

  lemma TickStands(readable: bool, handles: seq<nat>, before: Trace, tick: Tick, i: nat, epoch: string, log: seq<Record>)
    requires SnapOk(before.snap, |handles|) && i < |handles|
    requires Log(log) && Serves(tick.answer, handles[i], epoch, log)
    requires PastAt(before.snap.states[i], epoch, log, Taken256(TimesVisited(before.visits, i), |log|))
    ensures var r := TickNext(readable, handles, before, tick);
      && |r.snap.states| == |before.snap.states|
      && PastAt(r.snap.states[i], epoch, log, Taken256(TimesVisited(r.visits, i), |log|))
  {
    hide Serves, Log, PastAt, Taken256, Served, WasVisited, NextStart, DueAt;
    var snap := before.snap;
    if !DueAt(readable, snap.lastPoll, tick.clock) {
      VisitsNext(before.visits, [], i);
    } else if tick.listing.Err? {
      VisitsNext(before.visits, [], i);
      MissedStands(snap.states[i], tick.clock, epoch, log, Taken256(TimesVisited(before.visits, i), |log|));
    } else {
      var p := Served(snap.states, handles, snap.next, tick.clock, tick.answer);
      ServedMeans(snap.states, handles, snap.next, tick.clock, tick.answer);
      VisitsNext(before.visits, p.visited, i);
      if i in p.visited {
        VisitedStands(snap.states[i], p.states[i], tick.clock, handles[i], tick.answer, epoch, log,
                      TimesVisited(before.visits, i));
      }
    }
  }

  lemma VisitsNext(visits: seq<seq<nat>>, visited: seq<nat>, i: nat)
    ensures TimesVisited(visits + [visited], i) == TimesVisited(visits, i) + if i in visited then 1 else 0
  {
    assert (visits + [visited])[..|visits|] == visits;
  }

  lemma {:induction false} TicksAdvance(readable: bool, handles: seq<nat>, start: Snap, ticks: seq<Tick>, i: nat,
                                        epoch: string, log: seq<Record>)
    requires SnapOk(start, |handles|) && i < |handles| && Log(log) && start.states[i].epoch != Some(epoch)
    requires forall t :: 0 <= t < |ticks| ==> Serves(ticks[t].answer, handles[i], epoch, log)
    ensures var r := Ticked(readable, handles, start, ticks);
      && |r.snap.states| == |start.states|
      && PastAt(r.snap.states[i], epoch, log, Taken256(TimesVisited(r.visits, i), |log|))
  {
    hide Serves, Log, PastAt, TickNext;
    if ticks == [] {
      StartsAtNothing(start.states[i], epoch, log);
    } else {
      var last := |ticks| - 1;
      TicksAdvance(readable, handles, start, ticks[..last], i, epoch, log);
      TickStands(readable, handles, Ticked(readable, handles, start, ticks[..last]), ticks[last], i, epoch, log);
    }
  }

  lemma StartsAtNothing(s: State, epoch: string, log: seq<Record>)
    requires s.epoch != Some(epoch)
    ensures PastAt(s, epoch, log, Taken256(0, |log|))
  {
    assert StandsAt(s, epoch, log, 0);
  }

  /**
   Over any ticks of unchanged endpoints, with misses and rate limits elsewhere, a host whose feed pages a log has taken all
   of it after one visit for each 256 records.
   */
  lemma VisitsCatchUp(readable: bool, handles: seq<nat>, start: Snap, ticks: seq<Tick>, i: nat, epoch: string, log: seq<Record>)
    requires SnapOk(start, |handles|) && i < |handles| && Log(log) && start.states[i].epoch != Some(epoch)
    requires forall t :: 0 <= t < |ticks| ==> Serves(ticks[t].answer, handles[i], epoch, log)
    requires log != [] && TimesVisited(Ticked(readable, handles, start, ticks).visits, i) * PAGE_RECORDS >= |log|
    ensures var r := Ticked(readable, handles, start, ticks);
      && |r.snap.states| == |start.states| && r.snap.states[i].epoch == Some(epoch)
      && r.snap.states[i].sequence >= log[|log| - 1].sequence
  {
    hide Serves, Log, Ticked, TimesVisited;
    TicksAdvance(readable, handles, start, ticks, i, epoch, log);
  }

  // ----- reads -----

  function Unread(calls: seq<Call>): nat {
    if calls == [] then 0 else Unread(calls[..|calls| - 1]) + if calls[|calls| - 1].answer.NoPage? then 1 else 0
  }

  /** A call is two host reads, one for the page and one for the sessions, or one when there was no page. */
  lemma {:induction false} ReadsAre(calls: seq<Call>)
    ensures SumReads(calls) + Unread(calls) == 2 * |calls|
  {
    if calls != [] {
      ReadsAre(calls[..|calls| - 1]);
    }
  }

  // ----- when a tick polls, and what a host hears -----

  /**
   A tick polls when the view may read, 250 ms have gone by since the last try, and the endpoints can be listed; when they
   cannot, every host is retrying, since then or since before.
   */
  lemma TickPollsIff(readable: bool, handles: seq<nat>, before: Trace, tick: Tick)
    requires SnapOk(before.snap, |handles|)
    ensures var r := TickNext(readable, handles, before, tick);
      var due := readable && (before.snap.lastPoll.None? || before.snap.lastPoll.value + 250 <= tick.clock.monotonic);
      && (r.polls == before.polls + 1 <==> due && tick.listing.Ok?) && before.polls <= r.polls
      && (due ==> r.snap.lastPoll == Some(tick.clock.monotonic))
      && (!due ==> r.snap == before.snap)
      && (due && tick.listing.Err? ==>
            && |r.snap.states| == |before.snap.states| && r.snap.next == before.snap.next
            && forall i :: 0 <= i < |r.snap.states| ==>
                 var was := before.snap.states[i];
                 r.snap.states[i] == was.(link := if was.link.Retrying? then was.link else Retrying(tick.clock.wall)))
  {
  }

  /** A poll without an answer sets the link by the error, and nothing else; a rate limit not even that. */
  lemma MissedMeans(s: State, clock: Clock, error: ReadError)
    ensures var t := Missed(s, clock, error);
      && t == s.(link := t.link)
      && (error == RateLimited ==> t.link == s.link)
      && (error == StillConnecting ==> t.link == Connecting)
      && (error == FeedDisabled ==> t.link == Disabled)
      && (error in {Denied, Revoked} ==> t.link == PermissionDenied)
      && (error == IncompatibleSchema ==> t.link == Unsupported)
      && (error == OtherError ==> t.link == if s.link.Retrying? then s.link else Retrying(clock.wall))
  {
  }

  /** A selected seat stays selected while its endpoint is listed, wherever that is now, and else no longer. */
  lemma SelectionFollows(selected: Selection, were: seq<nat>, now: seq<nat>)
    requires selected.host < |were|
    ensures were[selected.host] !in now ==> Reselected(Some(selected), were, now) == None
    ensures forall k :: 0 <= k < |now| && now[k] == were[selected.host] && now[k] !in now[..k] ==>
      Reselected(Some(selected), were, now) == Some(Selection(k, selected.seat))
  {
    forall k | 0 <= k < |now| && now[k] == were[selected.host] && now[k] !in now[..k]
      ensures FirstAt(now, were[selected.host]) == Some(k)
    {
      FirstIs(now, were[selected.host], k);
    }
  }

  lemma {:induction false} FirstIs(now: seq<nat>, handle: nat, k: nat)
    requires k < |now| && now[k] == handle && handle !in now[..k]
    ensures FirstAt(now, handle) == Some(k)
  {
    if k > 0 {
      assert now[0] in now[..k] && now[1..][..k - 1] == now[..k][1..];
      FirstIs(now[1..], handle, k - 1);
    }
  }
}
