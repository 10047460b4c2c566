/** Pages of one lifetime, without sessions: however a log is cut into pages, a host ends with the same seats. */
module ActivityPaging {
  import opened Wrappers
  import opened Activity
  import opened ActivityHost

  /** What a host holds after a log is applied record by record. */
  ghost function Run(log: seq<Record>): State {
    TakenAll(BLANK, log, None)
  }

  ghost predicate Log(log: seq<Record>) {
    Increasing(log) && forall i :: 0 <= i < |log| ==> 0 < log[i].sequence
  }

  // ----- which seats are kept -----

  function Seen(log: seq<Record>): set<string> {
    set i | 0 <= i < |log| :: log[i].event.seat
  }

  /** The sequence of a seat's last event, or 0. */
  function LastOf(log: seq<Record>, id: string): nat {
    if log == [] then 0
    else if log[|log| - 1].event.seat == id then log[|log| - 1].sequence
    else LastOf(log[..|log| - 1], id)
  }

  /** At most 128 seats, and every one that was seen and is not kept was last seen before every one that is. */
  ghost predicate Newest(kept: set<string>, log: seq<Record>) {
    && kept <= Seen(log)
    && |kept| == (if |Seen(log)| <= MAX_SEATS then |Seen(log)| else MAX_SEATS)
    && (forall k, d :: k in kept && d in Seen(log) && d !in kept ==> LastOf(log, d) < LastOf(log, k))
  }

  ghost predicate Suffix(history: seq<Record>, all: seq<Record>) {
    |history| <= |all| && history == all[|all| - |history|..]
  }

  /** The seat is one of those that are newest. */
  ghost predicate Held(log: seq<Record>, id: string) {
    exists kept :: Newest(kept, log) && id in kept
  }

  /** A seat's own records since it was last let in: the first to come when it is not held starts over. */
  ghost function Since(log: seq<Record>, id: string): seq<Record> {
    if log == [] then []
    else
      var rest, r := log[..|log| - 1], log[|log| - 1];
      if r.event.seat != id then Since(rest, id)
      else if Held(rest, id) then Since(rest, id) + [r]
      else [r]
  }

  /** The last 256, or all of them. */
  function Tail(records: seq<Record>): seq<Record> {
    if |records| <= HISTORY then records else records[|records| - HISTORY..]
  }

  /** A seat retains the last 256 of its records since it was let in, and the state that all of those put it in. */
  ghost predicate SeatFollows(seat: Seat, log: seq<Record>, id: string) {
    && seat.discovery.None? && seat.history != [] && LastSequence(seat) == LastOf(log, id)
    && seat.history == Tail(Since(log, id))
    && seat.state == StateAfter(UnknownState, Since(log, id))
    && Since(log, id) != [] && seat.since == LastChange(Since(log, id))
  }

  /** When the state last changed; of the first record, when the seat was let in. */
  function LastChange(records: seq<Record>): nat
    requires records != []
  {
    var init, r := records[..|records| - 1], records[|records| - 1];
    if init == [] || StateAfter(UnknownState, records) != StateAfter(UnknownState, init) then r.receivedAt
    else LastChange(init)
  }

  /** How often a seat that was not held had a record. */
  ghost function Admissions(log: seq<Record>): nat {
    if log == [] then 0
    else
      var rest := log[..|log| - 1];
      Admissions(rest) + if Held(rest, log[|log| - 1].event.seat) then 0 else 1
  }

  ghost predicate Follows(s: State, log: seq<Record>) {
    && SeatsOk(s.seats, s.sequence) && Newest(s.seats.Keys, log) && s.evicted + |s.seats| == Admissions(log)
    && (forall id :: id in s.seats ==> SeatFollows(s.seats[id], log, id))
  }

  lemma SeenNext(log: seq<Record>, r: Record)
    ensures Seen(log + [r]) == Seen(log) + {r.event.seat}
  {
    var next := log + [r];
    forall id | id in Seen(log) + {r.event.seat} ensures id in Seen(next) {
      if id in Seen(log) {
        var i :| 0 <= i < |log| && log[i].event.seat == id;
        assert next[i] == log[i];
      } else {
        assert next[|log|] == r;
      }
    }
    forall id | id in Seen(next) ensures id in Seen(log) + {r.event.seat} {
      var i :| 0 <= i < |next| && next[i].event.seat == id;
      if i < |log| {
        assert log[i].event.seat == id;
      }
    }
  }

  lemma LastNext(log: seq<Record>, r: Record, id: string)
    ensures LastOf(log + [r], id) == (if id == r.event.seat then r.sequence else LastOf(log, id))
    ensures OfSeat(log + [r], id) == (if id == r.event.seat then OfSeat(log, id) + [r] else OfSeat(log, id))
  {
    var next := log + [r];
    assert next[..|log|] == log && next[|log|] == r;
  }

  lemma {:induction false} LastBound(log: seq<Record>, id: string, top: nat)
    requires forall i :: 0 <= i < |log| ==> log[i].sequence <= top
    ensures LastOf(log, id) <= top
  {
    if log != [] {
      assert forall i :: 0 <= i < |log| - 1 ==> log[..|log| - 1][i] == log[i];
      LastBound(log[..|log| - 1], id, top);
    }
  }

  /** What is kept of the seats seen is determined. */
  lemma NewestUnique(a: set<string>, b: set<string>, log: seq<Record>)
    requires Newest(a, log) && Newest(b, log)
    ensures a == b
  {
    hide Seen, LastOf;
    if a <= b {
      Sizes(a, b);
    } else {
      var x :| x in a && x !in b;
      assert forall y :: y in b && y !in a ==> LastOf(log, x) < LastOf(log, y);
      assert b <= a;
      Sizes(b, a);
    }
  }

  lemma HeldIs(kept: set<string>, log: seq<Record>, id: string)
    requires Newest(kept, log)
    ensures Held(log, id) <==> id in kept
  {
    hide Newest;
    if Held(log, id) {
      var other :| Newest(other, log) && id in other;
      NewestUnique(kept, other, log);
    }
  }

  lemma SinceNext(log: seq<Record>, r: Record, id: string)
    ensures Since(log + [r], id) ==
              if r.event.seat != id then Since(log, id) else if Held(log, id) then Since(log, id) + [r] else [r]
  {
    hide Held;
    assert (log + [r])[..|log|] == log;
  }

  /** They are the last of the seat's records in the log, and the last one is there. */
  lemma {:induction false} SinceIsLast(log: seq<Record>, id: string)
    ensures Suffix(Since(log, id), OfSeat(log, id))
    ensures Since(log, id) != [] <==> id in Seen(log)
  {
    hide Held, Seen;
    if log == [] {
      NoneSeen();
    } else {
      var rest, r := log[..|log| - 1], log[|log| - 1];
      assert log == rest + [r];
      SeenNext(rest, r);
      SinceIsLast(rest, id);
    }
  }

  /** A seat's record extends what the seat follows. */
  lemma SeatNext(seat: Seat, log: seq<Record>, r: Record, fade: Option<nat>)
    requires if Held(log, r.event.seat) then SeatFollows(seat, log, r.event.seat) else seat == NewSeat(r.receivedAt)
    ensures SeatFollows(Recorded(seat, r, fade), log + [r], r.event.seat)
  {
    hide Held, StateAfter, LastOf, Since, Tail, Pushed, OfSeat, NextState, LastChange;
    LastNext(log, r, r.event.seat);
    SinceNext(log, r, r.event.seat);
    StartsUnknown();
    var old_ := if Held(log, r.event.seat) then Since(log, r.event.seat) else [];
    assert seat.history == Tail(old_) && seat.state == StateAfter(UnknownState, old_);
    assert old_ + [r] == Since(log + [r], r.event.seat);
    StateAfterNext(UnknownState, old_, r);
    TailNext(old_, r);
    ChangeNext(old_, r);
  }

  lemma ChangeNext(records: seq<Record>, r: Record)
    ensures LastChange(records + [r]) ==
      if records == [] || NextState(StateAfter(UnknownState, records), r.event.kind) != StateAfter(UnknownState, records)
      then r.receivedAt else LastChange(records)
  {
    assert (records + [r])[..|records|] == records;
    StateAfterNext(UnknownState, records, r);
  }

  lemma StartsUnknown()
    ensures StateAfter(UnknownState, []) == UnknownState && Tail([]) == []
  {}

  lemma TailNext(records: seq<Record>, r: Record)
    ensures Pushed(Tail(records), r) == Tail(records + [r]) != []
    ensures Tail(records + [r])[|Tail(records + [r])| - 1] == r
  {}

  lemma {:induction false} StateOfSplit(initial: SeatState, history: seq<Record>, k: nat)
    requires k <= |history|
    ensures StateAfter(initial, history) == StateAfter(StateAfter(initial, history[..k]), history[k..])
  {
    if k == |history| {
      assert history[..k] == history;
    } else {
      var last := |history| - 1;
      StateOfSplit(initial, history[..last], k);
      assert history[..last][..k] == history[..k] && history[..last][k..] == history[k..][..last - k];
    }
  }

  predicate Full(seats: map<string, Seat>, id: string) {
    id !in seats && |seats| >= MAX_SEATS
  }

  function Before(seats: map<string, Seat>, r: Record): Seat {
    if r.event.seat in seats then seats[r.event.seat] else NewSeat(r.receivedAt)
  }

  /** The seats a record makes room in. */
  ghost function Room(seats: map<string, Seat>, id: string): set<string> {
    if Full(seats, id) && Oldest(seats).Some? then {Oldest(seats).value} else {}
  }

  lemma InsertedIs(s: State, r: Record, fade: Option<nat>)
    ensures Full(s.seats, r.event.seat) && Oldest(s.seats).None? ==> Inserted(s, r, fade) == s
    ensures !(Full(s.seats, r.event.seat) && Oldest(s.seats).None?) ==>
      && Inserted(s, r, fade).seats
           == (s.seats - Room(s.seats, r.event.seat))[r.event.seat := Recorded(Before(s.seats, r), r, fade)]
      && Inserted(s, r, fade).evicted == s.evicted + |Room(s.seats, r.event.seat)|
  {
    hide Recorded, IsOldest;
    assert s.seats - {} == s.seats;
  }

  // ----- one record, and the seats that are newest -----

  lemma Sizes(a: set<string>, b: set<string>)
    requires a <= b
    ensures |a| <= |b| && (|a| == |b| ==> a == b)
  {
    var rest := b - a;
    assert b == a + rest && |b| == |a| + |rest|;
  }

  ghost predicate Above(log: seq<Record>, r: Record) {
    0 < r.sequence && forall i :: 0 <= i < |log| ==> log[i].sequence < r.sequence
  }

  lemma NewestKnown(kept: set<string>, log: seq<Record>, r: Record)
    requires Newest(kept, log) && r.event.seat in kept && Above(log, r)
    ensures Newest(kept, log + [r])
  {
    hide Seen, LastOf;
    var id := r.event.seat;
    SeenNext(log, r);
    assert Seen(log + [r]) == Seen(log);
    forall k, d | k in kept && d in Seen(log) && d !in kept ensures LastOf(log + [r], d) < LastOf(log + [r], k) {
      LastNext(log, r, k);
      LastNext(log, r, d);
      LastBound(log, d, r.sequence - 1);
    }
  }

  lemma NewestRoom(kept: set<string>, log: seq<Record>, r: Record)
    requires Newest(kept, log) && r.event.seat !in kept && |kept| < MAX_SEATS
    ensures Newest(kept + {r.event.seat}, log + [r])
  {
    hide Seen, LastOf;
    SeenNext(log, r);
    Sizes(kept, Seen(log));
    assert kept == Seen(log);
  }

  lemma NewestEvicts(kept: set<string>, log: seq<Record>, r: Record, oldest: string)
    requires Newest(kept, log) && r.event.seat !in kept && |kept| == MAX_SEATS && oldest in kept && Above(log, r)
    requires forall k :: k in kept && k != oldest ==> LastOf(log, oldest) < LastOf(log, k)
    ensures Newest(kept - {oldest} + {r.event.seat}, log + [r])
  {
    hide Seen, LastOf, Above;
    SeenNext(log, r);
    var id, next := r.event.seat, kept - {oldest} + {r.event.seat};
    var seen := Seen(log + [r]);
    Sizes(kept, Seen(log));
    Sizes(Seen(log), seen);
    assert |kept - {oldest}| == MAX_SEATS - 1;
    assert |next| == MAX_SEATS;
    forall k, d | k in next && d in seen && d !in next ensures LastOf(log + [r], d) < LastOf(log + [r], k) {
      assert d != id && d in Seen(log);
      LastNext(log, r, k);
      LastNext(log, r, d);
      if k == id {
        AboveLast(log, d, r);
      }
    }
  }

  lemma AboveLast(log: seq<Record>, id: string, r: Record)
    requires Above(log, r)
    ensures LastOf(log, id) < r.sequence
  {
    LastBound(log, id, r.sequence - 1);
  }

  lemma FollowsNext(s: State, log: seq<Record>, r: Record, fade: Option<nat>)
    requires Follows(s, log) && s.sequence < r.sequence && Above(log, r)
    ensures Follows(Taken(s, r, fade), log + [r])
  {
    hide SeatFollows, Newest, Held, Recorded, SeatsOk, IsOldest, Oldest, Above, Admissions;
    var id, t := r.event.seat, Taken(s, r, fade);
    TakenOk(s, r, fade);
    KeysFollow(s, log, r, fade);
    EvictionsFollow(s, log, r, fade);
    HeldIs(s.seats.Keys, log, id);
    forall other | other in t.seats ensures SeatFollows(t.seats[other], log + [r], other) {
      if other != id {
        assert t.seats[other] == s.seats[other];
        OtherFollows(s.seats[other], log, r, other);
      } else if id in s.seats {
        SeatNext(s.seats[id], log, r, fade);
      } else {
        RoomFor(s, log);
        SeatNext(NewSeat(r.receivedAt), log, r, fade);
      }
    }
  }

  /** A record is never turned away: a full host has a seat to evict. */
  lemma RoomFor(s: State, log: seq<Record>)
    requires Follows(s, log)
    ensures |s.seats| >= MAX_SEATS ==> Oldest(s.seats).Some?
  {
    if |s.seats| >= MAX_SEATS {
      var oldest := FullHasOldest(s, log);
    }
  }

  lemma PutKeys(seats: map<string, Seat>, gone: set<string>, id: string, seat: Seat)
    ensures (seats - gone)[id := seat].Keys == seats.Keys - gone + {id}
  {}

  lemma TakenKeys(s: State, r: Record, fade: Option<nat>)
    requires s.sequence < r.sequence && !(Full(s.seats, r.event.seat) && Oldest(s.seats).None?)
    ensures Taken(s, r, fade).seats.Keys == s.seats.Keys - Room(s.seats, r.event.seat) + {r.event.seat}
  {
    hide Recorded, Oldest, Inserted, Room, Full, Before;
    InsertedElse(s, r, fade, r.sequence);
    InsertedIs(s, r, fade);
    PutKeys(s.seats, Room(s.seats, r.event.seat), r.event.seat, Recorded(Before(s.seats, r), r, fade));
  }

  lemma AdmissionsNext(log: seq<Record>, r: Record)
    ensures Admissions(log + [r]) == Admissions(log) + if Held(log, r.event.seat) then 0 else 1
  {
    hide Held;
    assert (log + [r])[..|log|] == log;
  }

  lemma TakenEvicts(s: State, r: Record, fade: Option<nat>)
    requires s.sequence < r.sequence && !(Full(s.seats, r.event.seat) && Oldest(s.seats).None?)
    ensures Taken(s, r, fade).evicted == s.evicted + |Room(s.seats, r.event.seat)|
    ensures Room(s.seats, r.event.seat) <= s.seats.Keys && |Room(s.seats, r.event.seat)| <= 1
  {
    hide Recorded, Inserted, Full, Before;
    InsertedElse(s, r, fade, r.sequence);
    InsertedIs(s, r, fade);
  }

  lemma KeysSize(keys: set<string>, gone: set<string>, id: string)
    requires gone <= keys && id !in gone
    ensures |keys - gone + {id}| + |gone| == |keys| + if id in keys then 0 else 1
  {
    assert keys == keys - gone + gone && |keys| == |keys - gone| + |gone|;
    if id in keys {
      assert keys - gone + {id} == keys - gone;
    }
  }

  /** Every seat let in is held or was evicted since. */
  lemma EvictionsFollow(s: State, log: seq<Record>, r: Record, fade: Option<nat>)
    requires Follows(s, log) && s.sequence < r.sequence
    ensures Taken(s, r, fade).evicted + |Taken(s, r, fade).seats| == Admissions(log + [r])
  {
    hide SeatFollows, Newest, Taken, SeatsOk, Oldest, Held, Admissions;
    var id, kept, gone := r.event.seat, s.seats.Keys, Room(s.seats, r.event.seat);
    RoomFor(s, log);
    TakenKeys(s, r, fade);
    TakenEvicts(s, r, fade);
    AdmissionsNext(log, r);
    HeldIs(kept, log, id);
    KeysSize(kept, gone, id);
    assert |Taken(s, r, fade).seats| == |Taken(s, r, fade).seats.Keys| && |s.seats| == |kept|;
  }

  lemma KeysFollow(s: State, log: seq<Record>, r: Record, fade: Option<nat>)
    requires Follows(s, log) && s.sequence < r.sequence && Above(log, r)
    ensures Newest(Taken(s, r, fade).seats.Keys, log + [r])
  {
    hide SeatFollows, Newest, Taken, SeatsOk, Oldest, Above;
    var id, kept := r.event.seat, s.seats.Keys;
    RoomFor(s, log);
    TakenKeys(s, r, fade);
    assert |kept| == |s.seats|;
    if id in kept {
      NewestKnown(kept, log, r);
      assert kept - {} + {id} == kept;
    } else if |kept| < MAX_SEATS {
      NewestRoom(kept, log, r);
      assert kept - {} + {id} == kept + {id};
    } else {
      var oldest := FullHasOldest(s, log);
      NewestEvicts(kept, log, r, oldest);
    }
  }

  lemma OtherFollows(seat: Seat, log: seq<Record>, r: Record, id: string)
    requires SeatFollows(seat, log, id) && id != r.event.seat
    ensures SeatFollows(seat, log + [r], id)
  {
    hide Held, StateAfter;
    LastNext(log, r, id);
    SinceNext(log, r, id);
  }

  /** A full host without sessions always finds a seat to evict, the one last seen first. */
  lemma FullHasOldest(s: State, log: seq<Record>) returns (oldest: string)
    requires Follows(s, log) && |s.seats| >= MAX_SEATS
    ensures |s.seats.Keys| == MAX_SEATS && oldest in s.seats && Oldest(s.seats) == Some(oldest)
    ensures forall k :: k in s.seats && k != oldest ==> LastOf(log, oldest) < LastOf(log, k)
  {
    hide Seen, LastOf, StateAfter, Since, Tail, SeatOk;
    assert |s.seats.Keys| == |s.seats|;
    oldest := Least(s.seats, s.seats.Keys, log);
    forall id | id in s.seats ensures Evictable(s.seats, id) && LastSequence(s.seats[id]) == LastOf(log, id) {
      assert SeatFollows(s.seats[id], log, id);
    }
    assert IsOldest(s.seats, oldest);
    OldestIs(s.seats, s.sequence, oldest);
  }

  lemma {:induction false} Least(seats: map<string, Seat>, ids: set<string>, log: seq<Record>) returns (least: string)
    requires ids != {} && ids <= seats.Keys
    requires forall id :: id in seats ==> SeatFollows(seats[id], log, id)
    ensures least in ids
    ensures forall id :: id in ids ==> seats[id].history != []
    ensures forall id :: id in ids ==> LastSequence(seats[least]) <= LastSequence(seats[id])
    decreases |ids|
  {
    var id :| id in ids;
    assert SeatFollows(seats[id], log, id);
    var rest := ids - {id};
    if rest == {} {
      assert ids == {id};
      least := id;
    } else {
      var other := Least(seats, rest, log);
      least := if LastSequence(seats[other]) <= LastSequence(seats[id]) then other else id;
      assert ids == rest + {id};
    }
  }

  lemma LogPrefix(log: seq<Record>, n: nat)
    requires Log(log) && n <= |log|
    ensures Log(log[..n])
    ensures n > 0 ==> log[..n][n - 1] == log[n - 1]
    ensures n < |log| ==> Above(log[..n], log[n]) && log[..n + 1] == log[..n] + [log[n]]
    ensures n < |log| && n > 0 ==> log[n - 1].sequence < log[n].sequence
    ensures log[..|log|] == log
    ensures n < |log| ==> 0 < log[n].sequence
  {}

  /**
   * After any log the kept seats are exactly the 128 whose last event is newest, each with its last 256 records since it
   * was let in and the state of them all.
   */
  lemma {:induction false} RunFollows(log: seq<Record>)
    requires Log(log)
    ensures Follows(Run(log), log)
    ensures Run(log).sequence == if log == [] then 0 else log[|log| - 1].sequence
  {
    hide Follows, Taken, Log, Above;
    if log == [] {
      BlankFollows();
    } else {
      var last := |log| - 1;
      var rest, r := log[..last], log[last];
      LogPrefix(log, last);
      RunFollows(rest);
      FollowsNext(Run(rest), rest, r, None);
      TakenSequence(Run(rest), r, None);
    }
  }

  lemma NoneSeen()
    ensures Seen([]) == {}
  {}

  lemma BlankFollows()
    ensures Follows(BLANK, [])
  {
    NoneSeen();
  }

  lemma TakenSequence(s: State, r: Record, fade: Option<nat>)
    ensures Taken(s, r, fade).sequence == if r.sequence <= s.sequence then s.sequence else r.sequence
  {}

  // ----- pages -----

  /** Seats that differ at most in the time of their fade. */
  ghost predicate SameSeats(a: map<string, Seat>, b: map<string, Seat>) {
    a.Keys == b.Keys && forall id :: id in a ==> SameSeat(a[id], b[id])
  }

  predicate SameSeat(a: Seat, b: Seat) {
    a.(changedAt := None) == b.(changedAt := None)
  }

  lemma OldestSame(s: State, t: State)
    requires SeatsOk(s.seats, s.sequence) && SeatsOk(t.seats, t.sequence) && SameSeats(s.seats, t.seats)
    ensures Oldest(s.seats) == Oldest(t.seats)
  {
    hide SeatsOk;
    var a, b := Oldest(s.seats), Oldest(t.seats);
    if a.Some? {
      assert IsOldest(t.seats, a.value);
      OldestIs(t.seats, t.sequence, a.value);
    } else if b.Some? {
      assert IsOldest(s.seats, b.value);
      OldestIs(s.seats, s.sequence, b.value);
    }
  }

  lemma RecordedSame(a: Seat, b: Seat, r: Record, fade: Option<nat>, other: Option<nat>)
    requires SameSeat(a, b)
    ensures SameSeat(Recorded(a, r, fade), Recorded(b, r, other))
  {}

  lemma PutSame(a: map<string, Seat>, b: map<string, Seat>, id: string, x: Seat, y: Seat, gone: set<string>)
    requires SameSeats(a, b) && SameSeat(x, y)
    ensures SameSeats((a - gone)[id := x], (b - gone)[id := y])
  {
    hide SameSeat;
  }

  lemma InsertedSame(s: State, t: State, r: Record, fade: Option<nat>, other: Option<nat>)
    requires SeatsOk(s.seats, s.sequence) && SeatsOk(t.seats, t.sequence)
    requires SameSeats(s.seats, t.seats) && s.evicted == t.evicted
    ensures SameSeats(Inserted(s, r, fade).seats, Inserted(t, r, other).seats)
    ensures Inserted(s, r, fade).evicted == Inserted(t, r, other).evicted
  {
    hide SeatsOk, Oldest, Recorded, SameSeat, Inserted;
    OldestSame(s, t);
    assert |s.seats.Keys| == |s.seats| && |t.seats.Keys| == |t.seats|;
    InsertedIs(s, r, fade);
    InsertedIs(t, r, other);
    NewSame(r.receivedAt);
    var x, y := Before(s.seats, r), Before(t.seats, r);
    RecordedSame(x, y, r, fade, other);
    PutSame(s.seats, t.seats, r.event.seat, Recorded(x, r, fade), Recorded(y, r, other), Room(s.seats, r.event.seat));
  }

  lemma NewSame(at: nat)
    ensures SameSeat(NewSeat(at), NewSeat(at))
  {}

  /** A host whose seats are those of the first n records of a log, and that will take the rest. */
  ghost predicate Tracks(s: State, log: seq<Record>, n: nat)
    requires n <= |log|
  {
    && SeatsOk(s.seats, s.sequence) && SameSeats(s.seats, Run(log[..n]).seats) && s.evicted == Run(log[..n]).evicted
    && (n > 0 ==> log[n - 1].sequence <= s.sequence) && (n < |log| ==> s.sequence < log[n].sequence)
  }

  function Max(a: nat, b: nat): nat {
    if a <= b then b else a
  }

  lemma TracksNew(s: State, log: seq<Record>, n: nat, fade: Option<nat>)
    requires Log(log) && n < |log| && Tracks(s, log, n)
    ensures Tracks(Taken(s, log[n], fade), log, n + 1)
  {
    hide Inserted, SeatsOk, SameSeats;
    var rest, r := log[..n], log[n];
    assert log[..n + 1] == rest + [r];
    TakenNext(BLANK, rest, r, None);
    LogPrefix(log, n);
    RunFollows(rest);
    assert Run(rest).sequence < r.sequence;
    TakenOk(s, r, fade);
    SeatsUp(s.seats, s.sequence, r.sequence);
    SeatsUp(Run(rest).seats, Run(rest).sequence, r.sequence);
    InsertedSame(s.(sequence := r.sequence), Run(rest).(sequence := r.sequence), r, fade, None);
    InsertedSequence(s.(sequence := r.sequence), r, fade);
  }

  lemma InsertedSequence(s: State, r: Record, fade: Option<nat>)
    ensures Inserted(s, r, fade).sequence == s.sequence
  {}

  /** A slice that starts at or before the first unapplied record: its replays change nothing, its news are taken. */
  lemma {:induction false} SliceTracks(s: State, log: seq<Record>, n: nat, a: nat, b: nat, fade: Option<nat>)
    requires Log(log) && n <= |log| && Tracks(s, log, n) && a <= n && a <= b <= |log|
    ensures Tracks(TakenAll(s, log[a..b], fade), log, Max(n, b))
    decreases b
  {
    hide Tracks, Taken;
    if a == b {
      assert log[a..b] == [];
    } else {
      var last := b - 1;
      assert log[a..b] == log[a..last] + [log[last]];
      SliceTracks(s, log, n, a, last, fade);
      var t := TakenAll(s, log[a..last], fade);
      TakenNext(s, log[a..last], log[last], fade);
      if last < n {
        Replayed(t, log, n, last, fade);
      } else {
        TracksNew(t, log, last, fade);
      }
    }
  }

  lemma Replayed(s: State, log: seq<Record>, n: nat, i: nat, fade: Option<nat>)
    requires Log(log) && i < n <= |log| && Tracks(s, log, n)
    ensures Taken(s, log[i], fade) == s
  {
    assert log[i].sequence <= log[n - 1].sequence;
  }

  /** A page of a log: records [a, b), and a cursor short of the first record it leaves. */
  ghost predicate PageOf(page: Page, epoch: string, log: seq<Record>, a: nat, b: nat, n: nat) {
    && page.epoch == epoch && page.sessions.None?
    && a <= n <= |log| && a <= b <= |log| && page.records == log[a..b]
    && (Max(n, b) < |log| ==> page.cursor < log[Max(n, b)].sequence)
  }

  datatype Cut = Cut(from: nat, to: nat)

  function Reached(cuts: seq<Cut>): nat {
    if cuts == [] then 0 else Max(Reached(cuts[..|cuts| - 1]), cuts[|cuts| - 1].to)
  }

  /** Pages that cut a log anywhere, each starting at or before the first record not yet sent; only the first may reset. */
  ghost predicate Pages(pages: seq<Page>, cuts: seq<Cut>, epoch: string, log: seq<Record>) {
    && |pages| == |cuts|
    && (forall i :: 0 < i < |pages| ==> pages[i].reset.None?)
    && (forall i :: 0 <= i < |pages| ==> PageOf(pages[i], epoch, log, cuts[i].from, cuts[i].to, Reached(cuts[..i])))
  }

  ghost function AppliedAll(s: State, pages: seq<Page>, local: seq<nat>): State
    requires |pages| == |local|
  {
    if pages == [] then s
    else
      var last := |pages| - 1;
      Applied(AppliedAll(s, pages[..last], local[..last]), pages[last], local[last])
  }

  lemma PageTracks(s: State, log: seq<Record>, n: nat, page: Page, a: nat, b: nat, local: nat)
    requires Log(log) && PageOf(page, page.epoch, log, a, b, n) && Tracks(Opened(s, page), log, n)
    ensures Tracks(Applied(s, page, local), log, Max(n, b)) && Applied(s, page, local).epoch == Some(page.epoch)
  {
    hide SeatsOk, SameSeats, TakenAll;
    SliceTracks(Opened(s, page), log, n, a, b, Fade(s, page, local));
    var taken := TakenAll(Opened(s, page), page.records, Fade(s, page, local));
    var t := Moved(taken, page.cursor);
    assert Opened(s, page).epoch == Some(page.epoch);
    TakenAllOk(Opened(s, page), page.records, Fade(s, page, local));
    SeatsUp(taken.seats, taken.sequence, t.sequence);
  }

  lemma OpenedEmpty(s: State, page: Page, log: seq<Record>)
    requires Valid(s) && Log(log) && (NewEpoch(s, page) || page.reset.Some?)
    ensures Tracks(Opened(s, page), log, 0)
  {
    assert log[..0] == [];
    assert Opened(s, page).seats == map[];
  }

  lemma OpenedSame(s: State, page: Page, log: seq<Record>, n: nat)
    requires n <= |log| && Tracks(s, log, n) && s.epoch == Some(page.epoch) && page.reset.None?
    ensures Tracks(Opened(s, page), log, n)
  {}

  lemma {:induction false} PagesTrack(s: State, pages: seq<Page>, cuts: seq<Cut>, epoch: string, log: seq<Record>, local: seq<nat>)
    requires Valid(s) && Log(log) && Pages(pages, cuts, epoch, log) && pages != [] && |local| == |pages|
    requires s.epoch != Some(epoch) || pages[0].reset.Some?
    ensures Reached(cuts) <= |log| && Tracks(AppliedAll(s, pages, local), log, Reached(cuts))
    ensures AppliedAll(s, pages, local).epoch == Some(epoch)
    decreases |pages|
  {
    hide Tracks, Applied, Opened, Valid;
    var last := |pages| - 1;
    var before := AppliedAll(s, pages[..last], local[..last]);
    assert PageOf(pages[last], epoch, log, cuts[last].from, cuts[last].to, Reached(cuts[..last]));
    if last == 0 {
      assert pages[..0] == [] && cuts[..0] == [];
      OpenedEmpty(s, pages[0], log);
    } else {
      PagesPrefix(pages, cuts, epoch, log);
      PagesTrack(s, pages[..last], cuts[..last], epoch, log, local[..last]);
      OpenedSame(before, pages[last], log, Reached(cuts[..last]));
    }
    PageTracks(before, log, Reached(cuts[..last]), pages[last], cuts[last].from, cuts[last].to, local[last]);
  }

  lemma PagesPrefix(pages: seq<Page>, cuts: seq<Cut>, epoch: string, log: seq<Record>)
    requires Pages(pages, cuts, epoch, log) && pages != []
    ensures Pages(pages[..|pages| - 1], cuts[..|cuts| - 1], epoch, log)
  {
    hide PageOf, Reached;
    var last := |pages| - 1;
    forall i | 0 <= i < last
      ensures PageOf(pages[..last][i], epoch, log, cuts[..last][i].from, cuts[..last][i].to, Reached(cuts[..last][..i]))
    {
      assert cuts[..last][..i] == cuts[..i];
      assert PageOf(pages[i], epoch, log, cuts[i].from, cuts[i].to, Reached(cuts[..i]));
    }
  }

  /**
   * Two hosts in any state that read one lifetime's log, each in its own pages with its own replays, end with the same
   * seats, histories and states, fade times aside, and the same count of evictions.
   */
  lemma PagingIsInvisible(s: State, pages: seq<Page>, cuts: seq<Cut>, local: seq<nat>,
                          t: State, others: seq<Page>, marks: seq<Cut>, times: seq<nat>, epoch: string, log: seq<Record>)
    requires Valid(s) && Valid(t) && Log(log)
    requires Pages(pages, cuts, epoch, log) && pages != [] && |local| == |pages|
    requires Pages(others, marks, epoch, log) && others != [] && |times| == |others|
    requires s.epoch != Some(epoch) || pages[0].reset.Some?
    requires t.epoch != Some(epoch) || others[0].reset.Some?
    requires Reached(cuts) == Reached(marks)
    ensures SameSeats(AppliedAll(s, pages, local).seats, AppliedAll(t, others, times).seats)
    ensures AppliedAll(s, pages, local).evicted == AppliedAll(t, others, times).evicted
  {
    PagesTrack(s, pages, cuts, epoch, log, local);
    PagesTrack(t, others, marks, epoch, log, times);
  }

  /** In pages or at once, the host keeps those seats, each with those records and that state. */
  lemma PagesFollow(s: State, pages: seq<Page>, cuts: seq<Cut>, epoch: string, log: seq<Record>, local: seq<nat>)
    requires Valid(s) && Log(log) && Pages(pages, cuts, epoch, log) && pages != [] && |local| == |pages|
    requires s.epoch != Some(epoch) || pages[0].reset.Some?
    ensures Reached(cuts) <= |log| && Follows(AppliedAll(s, pages, local), log[..Reached(cuts)])
  {
    hide Newest, SeatsOk, AppliedAll, Pages, Since, LastOf, StateAfter;
    PagesTrack(s, pages, cuts, epoch, log, local);
    var n := Reached(cuts);
    var end, run := AppliedAll(s, pages, local), Run(log[..n]);
    LogPrefix(log, n);
    RunFollows(log[..n]);
    forall id | id in end.seats ensures SeatFollows(end.seats[id], log[..n], id) {
      assert SeatFollows(run.seats[id], log[..n], id);
      assert SameSeat(end.seats[id], run.seats[id]);
    }
  }

  // ----- fades -----

  /** Every fade was there before or is the given time. */
  ghost predicate Faded(before: map<string, Seat>, after: map<string, Seat>, fade: Option<nat>) {
    forall id :: id in after && after[id].changedAt.Some? ==>
      after[id].changedAt == fade || (id in before && after[id].changedAt == before[id].changedAt)
  }

  lemma TakenFades(before: map<string, Seat>, s: State, r: Record, fade: Option<nat>)
    requires Faded(before, s.seats, fade)
    ensures Faded(before, Taken(s, r, fade).seats, fade)
  {
    hide Oldest, Pushed;
  }

  lemma {:induction false} TakenAllFades(before: map<string, Seat>, s: State, records: seq<Record>, fade: Option<nat>)
    requires Faded(before, s.seats, fade)
    ensures Faded(before, TakenAll(s, records, fade).seats, fade)
  {
    hide Faded, Taken;
    if records != [] {
      var last := |records| - 1;
      TakenAllFades(before, s, records[..last], fade);
      TakenFades(before, TakenAll(s, records[..last], fade), records[last], fade);
    }
  }

  lemma SweptFades(before: map<string, Seat>, seats: map<string, Seat>, current: set<string>, at: nat, fade: Option<nat>)
    requires Faded(before, seats, fade)
    ensures Faded(before, Swept(seats, current, at, fade), fade)
  {}

  lemma {:induction false} ObservedAllFades(before: map<string, Seat>, seats: map<string, Seat>, sessions: seq<Session>,
                                            at: nat, fade: Option<nat>)
    requires Faded(before, seats, fade)
    ensures Faded(before, ObservedAll(seats, sessions, at, fade), fade)
  {
    hide Hooked;
    if sessions != [] {
      var last := |sessions| - 1;
      ObservedAllFades(before, seats, sessions[..last], at, fade);
    }
  }

  /** Only a page that follows a caught-up page of the same lifetime starts a fade, and then at its own time. */
  lemma FadesOnlyWhenLive(s: State, page: Page, local: nat)
    ensures Faded(s.seats, Applied(s, page, local).seats, Fade(s, page, local))
    ensures Fade(s, page, local) ==
      if s.epoch == Some(page.epoch) && page.reset.None? && !s.more then Some(local) else None
  {
    hide Faded, TakenAll, Swept, ObservedAll;
    var fade, start := Fade(s, page, local), Opened(s, page);
    FadedStart(s, page, fade);
    TakenAllFades(s.seats, start, page.records, fade);
    var seats := TakenAll(start, page.records, fade).seats;
    if page.sessions.Some? {
      var all := page.sessions.value;
      SweptFades(s.seats, seats, SeatsOf(all.seats), all.observedAt, fade);
      ObservedAllFades(s.seats, Swept(seats, SeatsOf(all.seats), all.observedAt, fade), all.seats, all.observedAt, fade);
    }
  }

  lemma FadedStart(s: State, page: Page, fade: Option<nat>)
    ensures Faded(s.seats, Opened(s, page).seats, fade)
  {}
}
