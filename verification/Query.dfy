/** Bounded queries over the retained history of a feed. */
module Query {
  import opened Wrappers
  import opened Activity
  import opened ActivityHost

  const MAX_RETAINED := 512
  const MAX_QUERY_PAGES := 2

  datatype FeedPage = FeedPage(epoch: string, oldest: nat, current: nat, records: seq<Record>, cursor: Cursor,
                               hasMore: bool, reset: Option<string>, sessions: Option<Sessions>)

  /** Retained history up to the watermark of the first page. */
  datatype History = History(epoch: string, oldest: nat, cursor: Cursor, records: seq<Record>, sessions: Option<Sessions>)

  datatype QueryError =
    | ReadFailed(error: string) | FeedChanged | CursorStuck | TooManyRecords | EndedEarly | TooManyPages

  /** The records after one sequence and up to another. */
  function Between(records: seq<Record>, after: nat, through: nat): seq<Record> {
    if records == [] then []
    else
      var rest, r := Between(records[..|records| - 1], after, through), records[|records| - 1];
      if after < r.sequence <= through then rest + [r] else rest
  }

  function UpTo(records: seq<Record>, through: nat): seq<Record> {
    if records == [] then []
    else
      var rest, r := UpTo(records[..|records| - 1], through), records[|records| - 1];
      if r.sequence <= through then rest + [r] else rest
  }

  // ----- retained -----

  /** A page of the feed's first answer is whole, or the second one completes it. */
  predicate Completes(first: FeedPage, second: FeedPage) {
    && second.epoch == first.epoch && second.reset.None?
    && first.cursor.sequence < second.cursor.sequence && first.current <= second.cursor.sequence
    && |UpTo(first.records, first.current) + UpTo(second.records, first.current)| <= 512
  }

  predicate Succeeds(first: Result<FeedPage, string>, second: Cursor -> Result<FeedPage, string>) {
    && first.Ok? && first.value.reset.None? && |UpTo(first.value.records, first.value.current)| <= 512
    && (first.value.current <= first.value.cursor.sequence ||
        (first.value.hasMore && second(first.value.cursor).Ok? && Completes(first.value, second(first.value.cursor).value)))
  }

  function LastPage(first: FeedPage, second: Cursor -> Result<FeedPage, string>): FeedPage
    requires Succeeds(Ok(first), second)
  {
    if first.current <= first.cursor.sequence then first else second(first.cursor).value
  }

  function Drained(first: FeedPage, second: Cursor -> Result<FeedPage, string>): seq<Record>
    requires Succeeds(Ok(first), second)
  {
    if first.current <= first.cursor.sequence then UpTo(first.records, first.current)
    else UpTo(first.records, first.current) + UpTo(second(first.cursor).value.records, first.current)
  }

  /** The first page leaves something to ask for, and says that there is more. */
  predicate Continues(first: Result<FeedPage, string>) {
    && first.Ok? && first.value.reset.None? && |UpTo(first.value.records, first.value.current)| <= 512
    && first.value.cursor.sequence < first.value.current && first.value.hasMore
  }

  /** Where the feed is asked from: its start, and then the cursor of its first page. */
  function Asked(first: Result<FeedPage, string>): seq<Option<Cursor>> {
    if Continues(first) then [None, Some(first.value.cursor)] else [None]
  }

  predicate Changes(first: FeedPage, page: FeedPage) {
    page.epoch != first.epoch || page.reset.Some?
  }

  /** What was wrong with the answers when a query fails. */
  predicate Explains(e: QueryError, first: Result<FeedPage, string>, second: Cursor -> Result<FeedPage, string>) {
    if !Continues(first) then
      match e
      case ReadFailed(error) => first == Err(error)
      case FeedChanged => first.Ok? && first.value.reset.Some?
      case TooManyRecords => first.Ok? && |UpTo(first.value.records, first.value.current)| > 512
      case EndedEarly => first.Ok? && first.value.cursor.sequence < first.value.current && !first.value.hasMore
      case _ => false
    else
      var page := second(first.value.cursor);
      match e
      case ReadFailed(error) => page == Err(error)
      case FeedChanged => page.Ok? && Changes(first.value, page.value)
      case CursorStuck => page.Ok? && page.value.cursor.sequence <= first.value.cursor.sequence
      case TooManyRecords =>
        page.Ok? &&
        |UpTo(first.value.records, first.value.current) + UpTo(page.value.records, first.value.current)| > 512
      case EndedEarly => page.Ok? && page.value.cursor.sequence < first.value.current && !page.value.hasMore
      case TooManyPages => page.Ok? && page.value.cursor.sequence < first.value.current && page.value.hasMore
  }

  method Filtered(records: seq<Record>, through: nat) returns (r: seq<Record>)
    ensures r == UpTo(records, through)
  {
    r := [];
    assert records[..0] == [];
    for i := 0 to |records|
      invariant r == UpTo(records[..i], through)
    {
      assert records[..i + 1][..i] == records[..i];
      if records[i].sequence <= through {
        r := r + [records[i]];
      }
    }
    assert records[..|records|] == records;
  }

  /** Drains at most two pages, and gives up rather than mix two histories or run past the first page's watermark. */
  method Retained(first: Result<FeedPage, string>, second: Cursor -> Result<FeedPage, string>)
    returns (r: Result<History, QueryError>, asked: seq<Option<Cursor>>)
    ensures asked == Asked(first) && |asked| <= MAX_QUERY_PAGES && (r.Ok? ==> |r.value.records| <= 512)
    ensures r.Ok? <==> Succeeds(first, second)
    ensures r.Err? ==> Explains(r.error, first, second)
    ensures r.Ok? ==>
      && r.value.epoch == first.value.epoch && r.value.oldest == first.value.oldest
      && r.value.cursor == Cursor(first.value.epoch, first.value.current)
      && r.value.records == Drained(first.value, second)
      && r.value.sessions == LastPage(first.value, second).sessions
  {
    hide UpTo;
    asked := [None];
    if first.Err? {
      return Err(ReadFailed(first.error)), asked;
    }
    var page := first.value;
    var epoch, watermark := page.epoch, page.current;
    var records: seq<Record>, prior: Option<nat> := [], None;
    for index := 0 to MAX_QUERY_PAGES
      invariant index == 0 ==> page == first.value && records == [] && prior.None? && asked == [None]
      invariant index == 1 ==>
        && first.value.reset.None? && first.value.cursor.sequence < watermark && first.value.hasMore
        && records == UpTo(first.value.records, watermark) && |records| <= MAX_RETAINED
        && prior == Some(first.value.cursor.sequence)
        && second(first.value.cursor).Ok? && page == second(first.value.cursor).value
        && asked == [None, Some(first.value.cursor)]
      invariant index < MAX_QUERY_PAGES
    {
      if page.epoch != epoch || page.reset.Some? {
        return Err(FeedChanged), asked;
      }
      if prior.Some? && page.cursor.sequence <= prior.value {
        return Err(CursorStuck), asked;
      }
      var news := Filtered(page.records, watermark);
      records := if index == 0 then news else records + news;
      if |records| > MAX_RETAINED {
        return Err(TooManyRecords), asked;
      }
      if page.cursor.sequence >= watermark {
        return Ok(History(epoch, first.value.oldest, Cursor(epoch, watermark), records, page.sessions)), asked;
      }
      if !page.hasMore {
        return Err(EndedEarly), asked;
      }
      if index + 1 == MAX_QUERY_PAGES {
        return Err(TooManyPages), asked;
      }
      prior := Some(page.cursor.sequence);
      var next := second(page.cursor);
      asked := asked + [Some(page.cursor)];
      if next.Err? {
        return Err(ReadFailed(next.error)), asked;
      }
      page := next.value;
    }
  }

  /** A page in sequence order of what a feed retains: everything after a sequence up to the page's own cursor. */
  ghost predicate PageOf(page: FeedPage, log: seq<Record>, after: nat) {
    && Increasing(log) && page.records == Between(log, after, page.cursor.sequence)
    && after <= page.cursor.sequence
    && (forall i :: 0 <= i < |log| ==> 0 < log[i].sequence <= page.current)
  }

  lemma {:induction false} UpToBetween(log: seq<Record>, after: nat, through: nat, mark: nat)
    ensures UpTo(Between(log, after, through), mark) == Between(log, after, if through < mark then through else mark)
  {
    if log != [] {
      var last := |log| - 1;
      UpToBetween(log[..last], after, through, mark);
      if after < log[last].sequence <= through {
        var rest := Between(log[..last], after, through);
        assert (rest + [log[last]])[..|rest|] == rest;
      }
    }
  }

  lemma {:induction false} BetweenSplits(log: seq<Record>, after: nat, middle: nat, through: nat)
    requires Increasing(log) && after <= middle <= through
    ensures Between(log, after, through) == Between(log, after, middle) + Between(log, middle, through)
  {
    if log != [] {
      var last := |log| - 1;
      assert Increasing(log[..last]);
      BetweenSplits(log[..last], after, middle, through);
      if after < log[last].sequence <= middle {
        NoneAfter(log[..last], middle, through);
      }
    }
  }

  lemma {:induction false} NoneAfter(log: seq<Record>, after: nat, through: nat)
    requires forall i :: 0 <= i < |log| ==> log[i].sequence <= after
    ensures Between(log, after, through) == []
  {
    if log != [] {
      assert forall i :: 0 <= i < |log| - 1 ==> log[..|log| - 1][i] == log[i];
      NoneAfter(log[..|log| - 1], after, through);
    }
  }

  lemma {:induction false} AllBetween(log: seq<Record>, through: nat)
    requires forall i :: 0 <= i < |log| ==> 0 < log[i].sequence <= through
    ensures Between(log, 0, through) == log
  {
    if log != [] {
      assert forall i :: 0 <= i < |log| - 1 ==> log[..|log| - 1][i] == log[i];
      AllBetween(log[..|log| - 1], through);
    }
  }

  /**
   * Against a feed that pages in sequence order, and keeps what is behind the cursor it was asked from unless it says so,
   * a query that succeeds returns exactly what was retained when its first page was read: no gap and no repeat, however
   * many records are written meanwhile.
   */
  lemma RetainedIsTheLog(first: FeedPage, second: Cursor -> Result<FeedPage, string>, log: seq<Record>, later: seq<Record>)
    requires Succeeds(Ok(first), second) && PageOf(first, log, 0)
    requires first.cursor.sequence < first.current ==>
      && PageOf(second(first.cursor).value, later, first.cursor.sequence)
      && Between(later, first.cursor.sequence, first.current) == Between(log, first.cursor.sequence, first.current)
    ensures Drained(first, second) == log
  {
    var middle, mark := first.cursor.sequence, first.current;
    UpToBetween(log, 0, middle, mark);
    AllBetween(log, mark);
    if middle < mark {
      var page := second(first.cursor).value;
      UpToBetween(later, middle, page.cursor.sequence, mark);
      BetweenSplits(log, 0, middle, mark);
    }
  }

  // ----- since_time -----

  function Matching(records: seq<Record>, since: nat): seq<Record> {
    if records == [] then []
    else
      var rest, r := Matching(records[..|records| - 1], since), records[|records| - 1];
      if r.receivedAt >= since then rest + [r] else rest
  }

  /** The first records at or after a time, and a cursor past them, or past everything when there are none. */
  function SinceTime(history: History, since: nat, limit: nat): (page: FeedPage)
    ensures |page.records| <= |Matching(history.records, since)| && |page.records| <= limit
    ensures page.records == Matching(history.records, since)[..|page.records|]
    ensures |page.records| < limit ==> page.records == Matching(history.records, since)
  {
    var matching := Matching(history.records, since);
    var records := if |matching| <= limit then matching else matching[..limit];
    var sequence := if records == [] then history.cursor.sequence else records[|records| - 1].sequence;
    FeedPage(history.epoch, history.oldest, history.cursor.sequence, records, Cursor(history.epoch, sequence),
             sequence < history.cursor.sequence,
             if history.records != [] && since < history.records[0].receivedAt then Some("retention_gap") else None,
             history.sessions)
  }

  ghost predicate Ordered(history: History) {
    Increasing(history.records) && forall i :: 0 <= i < |history.records| ==> history.records[i].sequence <= history.cursor.sequence
  }

  /** What a reader that resumes from a cursor still gets of the matching records. */
  function Rest(history: History, since: nat, cursor: nat): seq<Record> {
    Between(Matching(history.records, since), cursor, history.cursor.sequence)
  }

  function Resumed(history: History, since: nat, limit: nat): seq<Record> {
    var page := SinceTime(history, since, limit);
    page.records + Rest(history, since, page.cursor.sequence)
  }

  lemma {:induction false} MatchingIn(records: seq<Record>, since: nat, top: nat)
    requires Increasing(records) && forall i :: 0 <= i < |records| ==> records[i].sequence <= top
    ensures Increasing(Matching(records, since))
    ensures forall i :: 0 <= i < |Matching(records, since)| ==> Matching(records, since)[i].sequence <= top
  {
    if records != [] {
      var last := |records| - 1;
      assert Increasing(records[..last]);
      forall i | 0 <= i < last ensures records[..last][i].sequence < records[last].sequence {}
      if last > 0 {
        assert records[0].sequence < records[last].sequence;
        MatchingIn(records[..last], since, records[last].sequence - 1);
      }
    }
  }

  lemma {:induction false} AfterPrefix(all: seq<Record>, k: nat, top: nat)
    requires Increasing(all) && k < |all| && forall i :: 0 <= i < |all| ==> all[i].sequence <= top
    ensures Between(all, all[k].sequence, top) == all[k + 1..]
    decreases |all|
  {
    var last := |all| - 1;
    var rest := all[..last];
    assert Increasing(rest);
    if k < last {
      AfterPrefix(rest, k, top);
      assert all[k].sequence < all[last].sequence;
    } else {
      forall i | 0 <= i < last ensures rest[i].sequence <= all[k].sequence {}
      NoneAfter(rest, all[k].sequence, top);
    }
  }

  /**
   * Resuming from the page's cursor neither loses nor repeats a matching record if and only if the limit is at least one
   * or nothing matches: a limit of zero moves the cursor past everything.
   */
  lemma SinceResumes(history: History, since: nat, limit: nat)
    requires Ordered(history)
    ensures Resumed(history, since, limit) == Matching(history.records, since) <==>
            limit >= 1 || Matching(history.records, since) == []
  {
    var page, all := SinceTime(history, since, limit), Matching(history.records, since);
    MatchingIn(history.records, since, history.cursor.sequence);
    if page.records == [] {
      NoneAfter(all, history.cursor.sequence, history.cursor.sequence);
    } else {
      AfterPrefix(all, |page.records| - 1, history.cursor.sequence);
      assert all[..|page.records|] + all[|page.records|..] == all;
    }
  }

  /** With a limit of zero the one record that matches is never delivered. */
  lemma ZeroLimitLoses(r: Record)
    requires r.sequence > 0
    ensures var history := History("e", r.sequence, Cursor("e", r.sequence), [r], None);
            Ordered(history) && Matching(history.records, 0) == [r] && Resumed(history, 0, 0) == []
  {
    var history := History("e", r.sequence, Cursor("e", r.sequence), [r], None);
    assert [r][..0] == [];
    assert Matching([], 0) == [];
    SinceResumes(history, 0, 0);
    NoneAfter([r], r.sequence, r.sequence);
  }

  /** A page that says there is no more leaves nothing behind. */
  lemma NoMoreIsAll(history: History, since: nat, limit: nat)
    requires Ordered(history) && (limit >= 1 || Matching(history.records, since) == [])
    requires !SinceTime(history, since, limit).hasMore
    ensures SinceTime(history, since, limit).records == Matching(history.records, since)
  {
    SinceResumes(history, since, limit);
    MatchingIn(history.records, since, history.cursor.sequence);
    var page, all := SinceTime(history, since, limit), Matching(history.records, since);
    NoneAfter(all, history.cursor.sequence, history.cursor.sequence);
  }

  lemma PrefixFirst(all: seq<Record>, k: nat)
    requires Increasing(all) && k <= |all|
    ensures Increasing(all[..k]) && (forall i :: 0 <= i < k ==> all[i] in all[..k])
    ensures forall p, i :: p in all[..k] && k <= i < |all| ==> p.sequence < all[i].sequence
  {
  }

  lemma {:induction false} MatchingAre(records: seq<Record>, since: nat)
    ensures forall r :: r in Matching(records, since) <==> r in records && r.receivedAt >= since
  {
    if records != [] {
      var last := |records| - 1;
      MatchingAre(records[..last], since);
      assert records == records[..last] + [records[last]];
    }
  }

  /**
   A page of a query by time: the first records from that time on, up to the limit. Its cursor is at the last of them, or
   past everything when there is none; there is more exactly when that is short of the watermark; and it warns of a gap
   exactly when the time is before everything that is retained.
   */
  lemma SinceMeans(history: History, since: nat, limit: nat)
    requires Ordered(history)
    ensures var page := SinceTime(history, since, limit);
      && |page.records| <= limit && Increasing(page.records)
      && (forall r :: r in page.records ==> r in history.records && r.receivedAt >= since)
      && (forall r :: r in history.records && r.receivedAt >= since && r !in page.records ==>
            |page.records| == limit && forall p :: p in page.records ==> p.sequence < r.sequence)
      && page.cursor.sequence ==
           (if page.records == [] then history.cursor.sequence else page.records[|page.records| - 1].sequence)
      && (page.hasMore <==> page.cursor.sequence < history.cursor.sequence)
      && (page.reset.Some? <==> history.records != [] && since < history.records[0].receivedAt)
      && page.epoch == page.cursor.epoch == history.epoch && page.current == history.cursor.sequence
      && page.oldest == history.oldest && page.sessions == history.sessions
  {
    hide Matching, Increasing;
    var all, page := Matching(history.records, since), SinceTime(history, since, limit);
    MatchingAre(history.records, since);
    MatchingIn(history.records, since, history.cursor.sequence);
    assert page.records == all[..|page.records|];
    PrefixFirst(all, |page.records|);
    forall r | r in history.records && r.receivedAt >= since && r !in page.records
      ensures |page.records| == limit && forall p :: p in page.records ==> p.sequence < r.sequence
    {
      assert r in all;
      var i :| 0 <= i < |all| && all[i] == r;
    }
  }

  // ----- observed_seats -----

  datatype ObservedSeat =
    ObservedSeat(first: nat, last: nat, receivedAt: nat, source: Source, kind: Kind, events: nat)

  /** A seat is seen by its own records, or else by the last session of its own. */
  ghost predicate SeenAs(entry: ObservedSeat, seat: string, observations: seq<Record>, records: seq<Record>) {
    var own := OfSeat(records, seat);
    if own != [] then
      var last := own[|own| - 1];
      entry == ObservedSeat(own[0].sequence, last.sequence, last.receivedAt, last.event.source, last.event.kind, |own|)
    else
      var told := OfSeat(observations, seat);
      told != [] &&
      var last := told[|told| - 1];
      entry == ObservedSeat(0, 0, last.receivedAt, last.event.source, last.event.kind, 0)
  }

  ghost predicate SeatsSeen(seats: map<string, ObservedSeat>, observations: seq<Record>, records: seq<Record>) {
    && (forall seat :: seat in seats <==> OfSeat(observations, seat) != [] || OfSeat(records, seat) != [])
    && (forall seat :: seat in seats ==> SeenAs(seats[seat], seat, observations, records))
  }

  lemma ObservationSeen(seats: map<string, ObservedSeat>, observations: seq<Record>, r: Record)
    requires SeatsSeen(seats, observations, [])
    ensures SeatsSeen(seats[r.event.seat := ObservedSeat(0, 0, r.receivedAt, r.event.source, r.event.kind, 0)],
                      observations + [r], [])
  {
    var next := seats[r.event.seat := ObservedSeat(0, 0, r.receivedAt, r.event.source, r.event.kind, 0)];
    forall seat ensures seat in next <==> OfSeat(observations + [r], seat) != []
                ensures seat in next ==> SeenAs(next[seat], seat, observations + [r], [])
    {
      OfSeatNext(observations, r, seat);
      assert seat in seats ==> SeenAs(seats[seat], seat, observations, []);
    }
  }

  function Seen(entry: Option<ObservedSeat>, r: Record): ObservedSeat {
    var had := if entry.Some? then entry.value.events else 0;
    ObservedSeat(if had == 0 then r.sequence else entry.value.first, r.sequence, r.receivedAt, r.event.source,
                 r.event.kind, had + 1)
  }

  function Find(seats: map<string, ObservedSeat>, seat: string): Option<ObservedSeat> {
    if seat in seats then Some(seats[seat]) else None
  }

  lemma OwnSeen(entry: Option<ObservedSeat>, observations: seq<Record>, records: seq<Record>, r: Record)
    requires entry.Some? ==> SeenAs(entry.value, r.event.seat, observations, records)
    requires entry.None? ==> OfSeat(records, r.event.seat) == []
    ensures SeenAs(Seen(entry, r), r.event.seat, observations, records + [r])
  {
    OfSeatNext(records, r, r.event.seat);
  }

  lemma RecordSeen(seats: map<string, ObservedSeat>, observations: seq<Record>, records: seq<Record>, r: Record)
    requires SeatsSeen(seats, observations, records)
    ensures SeatsSeen(seats[r.event.seat := Seen(Find(seats, r.event.seat), r)], observations, records + [r])
  {
    hide OfSeat, Seen;
    var next := seats[r.event.seat := Seen(Find(seats, r.event.seat), r)];
    forall seat ensures seat in next <==> OfSeat(observations, seat) != [] || OfSeat(records + [r], seat) != []
                ensures seat in next ==> SeenAs(next[seat], seat, observations, records + [r])
    {
      OfSeatNext(records, r, seat);
      if seat == r.event.seat {
        OwnSeen(Find(seats, seat), observations, records, r);
      } else if seat in seats {
        assert SeenAs(seats[seat], seat, observations, records);
      }
    }
  }

  /** Every seat with a session or a retained record, with the first, the last and the number of its own records. */
  method ObservedSeats(observations: seq<Record>, records: seq<Record>) returns (seats: map<string, ObservedSeat>)
    ensures SeatsSeen(seats, observations, records)
  {
    hide SeatsSeen, OfSeat;
    seats := map[];
    NothingSeen();
    assert observations[..0] == [] && records[..0] == [];
    for i := 0 to |observations|
      invariant SeatsSeen(seats, observations[..i], [])
    {
      var r := observations[i];
      ObservationSeen(seats, observations[..i], r);
      assert observations[..i + 1] == observations[..i] + [r];
      seats := seats[r.event.seat := ObservedSeat(0, 0, r.receivedAt, r.event.source, r.event.kind, 0)];
    }
    assert observations[..|observations|] == observations;
    for i := 0 to |records|
      invariant SeatsSeen(seats, observations, records[..i])
    {
      var r := records[i];
      RecordSeen(seats, observations, records[..i], r);
      assert records[..i + 1] == records[..i] + [r];
      var entry := if r.event.seat in seats then seats[r.event.seat]
                   else ObservedSeat(r.sequence, r.sequence, r.receivedAt, r.event.source, r.event.kind, 0);
      if entry.events == 0 {
        entry := entry.(first := r.sequence);
      }
      entry := entry.(last := r.sequence, receivedAt := r.receivedAt, source := r.event.source, kind := r.event.kind,
                      events := entry.events + 1);
      seats := seats[r.event.seat := entry];
    }
    assert records[..|records|] == records;
  }

  lemma NothingSeen()
    ensures SeatsSeen(map[], [], [])
  {}

  // ----- cursors as text -----

  const MAX_SEQUENCE := 0x1_0000_0000_0000_0000

  datatype CursorError = NoColon | BadEpoch | BadSequence

  predicate Digit(c: char) {
    '0' <= c <= '9'
  }

  predicate HexDigit(c: char) {
    Digit(c) || 'a' <= c <= 'f' || 'A' <= c <= 'F'
  }

  predicate EpochText(s: string) {
    0 < |s| <= 64 && forall i :: 0 <= i < |s| ==> HexDigit(s[i])
  }

  function Decimal(n: nat): (s: string)
    ensures s != [] && forall i :: 0 <= i < |s| ==> Digit(s[i])
  {
    var last := [('0' as int + n % 10) as char];
    if n < 10 then last else Decimal(n / 10) + last
  }

  /** The value of decimal digits; none when there is another character. */
  function Digits(s: string): Option<nat> {
    if s == [] then Some(0)
    else
      var rest, c := Digits(s[..|s| - 1]), s[|s| - 1];
      if rest.None? || !Digit(c) then None else Some(rest.value * 10 + (c as int - '0' as int))
  }

  /** An unsigned 64-bit integer: a plus sign, leading zeros, and no overflow. */
  function ParseSequence(s: string): Option<nat> {
    var digits := if s != [] && s[0] == '+' then s[1..] else s;
    var value := Digits(digits);
    if digits == [] || value.None? || value.value >= MAX_SEQUENCE then None else value
  }

  /** Where the last colon is. */
  function LastColon(s: string): (r: Option<nat>)
    ensures r.Some? ==> r.value < |s| && s[r.value] == ':' && forall i :: r.value < i < |s| ==> s[i] != ':'
    ensures r.None? ==> forall i :: 0 <= i < |s| ==> s[i] != ':'
  {
    if s == [] then None
    else if s[|s| - 1] == ':' then Some(|s| - 1)
    else LastColon(s[..|s| - 1])
  }

  function ParseCursor(text: string): Result<Cursor, CursorError> {
    var at := LastColon(text);
    if at.None? then Err(NoColon)
    else if !EpochText(text[..at.value]) then Err(BadEpoch)
    else
      var sequence := ParseSequence(text[at.value + 1..]);
      if sequence.None? then Err(BadSequence) else Ok(Cursor(text[..at.value], sequence.value))
  }

  function FormatCursor(cursor: Cursor): string {
    cursor.epoch + ":" + Decimal(cursor.sequence)
  }

  lemma {:induction false} DigitsDecimal(n: nat)
    ensures Digits(Decimal(n)) == Some(n)
  {
    if n >= 10 {
      DigitsDecimal(n / 10);
      var rest, last := Decimal(n / 10), [('0' as int + n % 10) as char];
      assert (rest + last)[..|rest|] == rest;
    } else {
      assert Decimal(n)[..0] == [];
    }
  }

  /** A cursor comes back from its text if and only if its epoch is 1 to 64 hex digits and its sequence has 64 bits. */
  lemma CursorRoundTrip(cursor: Cursor)
    ensures ParseCursor(FormatCursor(cursor)) == Ok(cursor) <==>
            EpochText(cursor.epoch) && cursor.sequence < MAX_SEQUENCE
  {
    var text, digits := FormatCursor(cursor), Decimal(cursor.sequence);
    var at := |cursor.epoch|;
    assert text[at] == ':' && text[..at] == cursor.epoch && text[at + 1..] == digits;
    assert forall i :: at < i < |text| ==> text[i] == digits[i - at - 1] && text[i] != ':';
    assert LastColon(text) == Some(at);
    DigitsDecimal(cursor.sequence);
    assert digits[0] != '+';
  }

  /** The same in characters and numbers. */
  lemma CursorTextIff(cursor: Cursor)
    ensures ParseCursor(FormatCursor(cursor)) == Ok(cursor) <==>
      && 1 <= |cursor.epoch| <= 64 && cursor.sequence <= 18446744073709551615
      && forall i :: 0 <= i < |cursor.epoch| ==>
           '0' <= cursor.epoch[i] <= '9' || 'a' <= cursor.epoch[i] <= 'f' || 'A' <= cursor.epoch[i] <= 'F'
  {
    hide ParseCursor, FormatCursor;
    CursorRoundTrip(cursor);
  }

  /** What is accepted names a cursor that is printed and read back as itself. */
  lemma ParsedIsCanonical(text: string)
    requires ParseCursor(text).Ok?
    ensures ParseCursor(FormatCursor(ParseCursor(text).value)) == ParseCursor(text)
  {
    CursorRoundTrip(ParseCursor(text).value);
  }
}
