/** The lane of a seat: how many of its retained events fall in each bin of time, and its state after each. */
module ActivityLane {
  import opened Wrappers
  import opened Activity
  import opened ActivityHost
  import opened ActivityPaging

  datatype Bin = Bin(events: nat, state: Option<SeatState>)

  /** Bins of span milliseconds from start; the last one takes what is left. */
  datatype Grid = Grid(start: nat, span: nat, bins: nat)

  predicate Ready(g: Grid) {
    g.span > 0 && g.bins > 0
  }

  function GridOf(now: nat, window: nat, bins: nat): (g: Grid)
    requires bins > 0
    ensures Ready(g)
  {
    Grid(if now < window then 0 else now - window, if window / bins == 0 then 1 else window / bins, bins)
  }

  function BinOf(g: Grid, at: nat): (i: nat)
    requires Ready(g)
    ensures i < g.bins
  {
    var i: nat := if at < g.start then 0 else (at - g.start) / g.span;
    if i < g.bins then i else g.bins - 1
  }

  lemma Quotient(n: nat, span: nat, i: nat)
    requires span > 0
    ensures i <= n / span <==> i * span <= n
  {
    var q := n / span;
    assert q * span <= n < q * span + span;
    if i <= q {
      assert i * span <= q * span;
    } else {
      assert i * span >= (q + 1) * span;
    }
  }

  /** A time in the window is in the bin whose stretch of the window it is in. */
  lemma BinCovers(g: Grid, at: nat, i: nat)
    requires Ready(g) && g.start <= at && i < g.bins
    ensures BinOf(g, at) == i <==>
      g.start + i * g.span <= at && (i == g.bins - 1 || at < g.start + (i + 1) * g.span)
  {
    Quotient(at - g.start, g.span, i);
    Quotient(at - g.start, g.span, i + 1);
  }

  lemma BinUp(g: Grid, low: nat, high: nat)
    requires Ready(g) && low <= high
    ensures BinOf(g, low) <= BinOf(g, high)
  {
    if g.start <= low {
      var n, m := low - g.start, high - g.start;
      Quotient(n, g.span, n / g.span);
      Quotient(m, g.span, n / g.span);
    }
  }

  // ----- what a lane means -----

  predicate InBin(g: Grid, r: Record, i: nat)
    requires Ready(g)
  {
    g.start <= r.receivedAt && BinOf(g, r.receivedAt) == i
  }

  /** Received before the end of a bin. */
  predicate Before(g: Grid, r: Record, i: nat)
    requires Ready(g)
  {
    r.receivedAt < g.start || BinOf(g, r.receivedAt) <= i
  }

  function Count(g: Grid, history: seq<Record>, i: nat): nat
    requires Ready(g)
  {
    if history == [] then 0
    else Count(g, history[..|history| - 1], i) + if InBin(g, history[|history| - 1], i) then 1 else 0
  }

  function UpTo(g: Grid, history: seq<Record>, i: nat): seq<Record>
    requires Ready(g)
  {
    if history == [] then []
    else
      var rest, r := UpTo(g, history[..|history| - 1], i), history[|history| - 1];
      if Before(g, r, i) then rest + [r] else rest
  }

  /** The state after everything up to the bin; none when that is nothing. */
  function StateAt(g: Grid, history: seq<Record>, i: nat): Option<SeatState>
    requires Ready(g)
  {
    if UpTo(g, history, i) == [] then None else Some(StateAfter(UnknownState, UpTo(g, history, i)))
  }

  ghost predicate Ordered(history: seq<Record>) {
    forall i, j :: 0 <= i < j < |history| ==> history[i].receivedAt <= history[j].receivedAt
  }

  ghost predicate Means(out: seq<Bin>, g: Grid, history: seq<Record>)
    requires Ready(g)
  {
    && |out| == g.bins
    && (forall i :: 0 <= i < g.bins ==> out[i].events == Count(g, history, i))
    && (Ordered(history) ==> forall i :: 0 <= i < g.bins ==> out[i].state == StateAt(g, history, i))
  }

  lemma CountNext(g: Grid, history: seq<Record>, r: Record, i: nat)
    requires Ready(g)
    ensures Count(g, history + [r], i) == Count(g, history, i) + if InBin(g, r, i) then 1 else 0
    ensures UpTo(g, history + [r], i) == if Before(g, r, i) then UpTo(g, history, i) + [r] else UpTo(g, history, i)
  {
    assert (history + [r])[..|history|] == history;
  }

  lemma {:induction false} AllBefore(g: Grid, history: seq<Record>, i: nat)
    requires Ready(g) && forall k :: 0 <= k < |history| ==> Before(g, history[k], i)
    ensures UpTo(g, history, i) == history
  {
    if history != [] {
      var last := |history| - 1;
      assert forall k :: 0 <= k < last ==> history[..last][k] == history[k];
      AllBefore(g, history[..last], i);
    }
  }

  // ----- the pass over the history -----

  /** After part of an ordered history, with the cursor at the bin of its last record in the window. */
  ghost predicate Passed(out: seq<Bin>, g: Grid, done: seq<Record>, cursor: nat)
    requires Ready(g)
  {
    && |out| == g.bins && cursor < g.bins
    && (forall k :: 0 <= k < |done| ==> Before(g, done[k], cursor))
    && (forall i :: 0 <= i < cursor ==> out[i].state == StateAt(g, done, i))
    && (out[cursor].events > 0 ==> out[cursor].state == StateAt(g, done, cursor))
    && (forall i :: cursor < i < g.bins ==> out[i].events == 0)
    && (cursor > 0 || out[0].events > 0 ==> exists k :: 0 <= k < |done| && InBin(g, done[k], cursor))
  }

  function Known(done: seq<Record>): Option<SeatState> {
    if done == [] then None else Some(StateAfter(UnknownState, done))
  }

  lemma KnownAt(g: Grid, done: seq<Record>, cursor: nat, i: nat)
    requires Ready(g) && cursor <= i && forall k :: 0 <= k < |done| ==> Before(g, done[k], cursor)
    ensures StateAt(g, done, i) == Known(done)
  {
    AllBefore(g, done, i);
  }

  /** A record outside the window comes before everything in it. */
  lemma EarlyPassed(out: seq<Bin>, g: Grid, done: seq<Record>, r: Record, cursor: nat)
    requires Ready(g) && Passed(out, g, done, cursor) && r.receivedAt < g.start && cursor == 0
    requires out[0].events == 0
    ensures Passed(out, g, done + [r], 0)
  {
    forall k | 0 <= k < |done + [r]| ensures Before(g, (done + [r])[k], 0) {
      if k < |done| {
        assert Before(g, done[k], cursor);
      }
    }
  }

  lemma LatePassed(old_: seq<Bin>, out: seq<Bin>, g: Grid, done: seq<Record>, r: Record, cursor: nat)
    requires Ready(g) && Passed(old_, g, done, cursor) && g.start <= r.receivedAt && cursor <= BinOf(g, r.receivedAt)
    requires |out| == g.bins
    requires forall i :: 0 <= i < g.bins && i < cursor ==> out[i] == old_[i]
    requires forall i :: cursor <= i < BinOf(g, r.receivedAt) ==> out[i].state == Known(done)
    requires out[BinOf(g, r.receivedAt)].state == Known(done + [r])
    requires forall i :: BinOf(g, r.receivedAt) < i < g.bins ==> out[i].events == old_[i].events
    ensures Passed(out, g, done + [r], BinOf(g, r.receivedAt))
  {
    hide StateAt;
    var index, next := BinOf(g, r.receivedAt), done + [r];
    forall k | 0 <= k < |next| ensures Before(g, next[k], index) {
      if k < |done| {
        assert Before(g, done[k], cursor);
      }
    }
    assert InBin(g, next[|done|], index);
    KnownAt(g, next, index, index);
    forall i | 0 <= i < index ensures out[i].state == StateAt(g, next, i) {
      LaterKeeps(g, done, r, i);
      if cursor <= i {
        KnownAt(g, done, cursor, i);
      }
    }
  }

  lemma LaterKeeps(g: Grid, done: seq<Record>, r: Record, i: nat)
    requires Ready(g) && g.start <= r.receivedAt && i < BinOf(g, r.receivedAt)
    ensures StateAt(g, done + [r], i) == StateAt(g, done, i)
  {
    CountNext(g, done, r, i);
  }

  /** Writes a state over a stretch of bins, leaves their counts, and returns where the stretch ends. */
  method Carry(bin: array<Bin>, from: nat, index: nat, state: Option<SeatState>) returns (cursor: nat)
    requires index <= bin.Length
    modifies bin
    ensures cursor == if from < index then index else from
    ensures forall i :: 0 <= i < bin.Length ==>
              bin[i] == if from <= i < index then Bin(old(bin[i].events), state) else old(bin[i])
  {
    cursor := from;
    while cursor < index
      invariant from <= cursor && (cursor <= index || cursor == from)
      invariant forall i :: 0 <= i < bin.Length ==>
                  bin[i] == if from <= i < cursor then Bin(old(bin[i].events), state) else old(bin[i])
    {
      bin[cursor] := Bin(bin[cursor].events, state);
      cursor := cursor + 1;
    }
  }

  /** Writes a state over the empty bins from some bin on. */
  method CarryRest(bin: array<Bin>, from: nat, state: Option<SeatState>)
    modifies bin
    ensures forall i :: 0 <= i < bin.Length ==>
              bin[i] == if from <= i && old(bin[i].events) == 0 then Bin(0, state) else old(bin[i])
  {
    var cursor := from;
    while cursor < bin.Length
      invariant from <= cursor
      invariant forall i :: 0 <= i < bin.Length ==>
                  bin[i] == if from <= i < cursor && old(bin[i].events) == 0 then Bin(0, state) else old(bin[i])
    {
      if bin[cursor].events == 0 {
        bin[cursor] := Bin(bin[cursor].events, state);
      }
      cursor := cursor + 1;
    }
  }

  /** Each bin counts its own records and, when they were received in order, has the state after everything up to it. */
  method Lane(history: seq<Record>, now: nat, window: nat, bins: nat) returns (out: seq<Bin>)
    ensures |out| == bins
    ensures bins > 0 && window > 0 ==>
      exists span :: IsSpan(span, window, bins) && ShowsWindow(out, history, StartOf(now, window), span)
    ensures bins > 0 && window > 0 ==> Events(out) == Received(history, StartOf(now, window), None)
    ensures bins > 0 && window > 0 ==> Means(out, GridOf(now, window, bins), history)
    ensures window == 0 ==> forall i :: 0 <= i < bins ==> out[i] == Bin(0, None)
  {
    hide Passed, Count, UpTo, StateAt, Ordered, InBin, BinOf, ShowsWindow, Received, Events, IsSpan;
    var bin := new Bin[bins](_ => Bin(0, None));
    if bins == 0 || window == 0 {
      return bin[..];
    }
    var g := GridOf(now, window, bins);
    var state, known := UnknownState, false;
    var cursor: nat := 0;
    NothingPassed(g, bin[..]);
    assert history[..0] == [];
    for n := 0 to |history|
      invariant state == StateAfter(UnknownState, history[..n]) && known == (n > 0)
      invariant Counted(bin[..], g, history[..n])
      invariant cursor < bins
      invariant Ordered(history) ==> Passed(bin[..], g, history[..n], cursor)
    {
      hide Counted;
      var r := history[n];
      ghost var done, was, from := history[..n], bin[..], cursor;
      assert history[..n + 1] == done + [r];
      StateAfterNext(UnknownState, done, r);
      if r.receivedAt >= g.start {
        var index := BinOf(g, r.receivedAt);
        if Ordered(history) {
          CursorBehind(was, g, history, n, cursor);
        }
        cursor := Carry(bin, cursor, index, if known then Some(state) else None);
        state := NextState(state, r.event.kind);
        known := true;
        bin[index] := Bin(bin[index].events + 1, Some(state));
        CountedIn(was, bin[..], g, done, r);
        if Ordered(history) {
          LatePassed(was, bin[..], g, done, r, from);
        }
      } else {
        state := NextState(state, r.event.kind);
        known := true;
        CountedOut(was, g, done, r);
        if Ordered(history) {
          StillEarly(was, g, history, n, cursor);
          EarlyPassed(was, g, done, r, cursor);
        }
      }
    }
    assert history[..|history|] == history;
    ghost var from, was := cursor, bin[..];
    CarryRest(bin, cursor, if known then Some(state) else None);
    if Ordered(history) {
      Finished(was, bin[..], g, history, from);
    }
    out := bin[..];
    WindowShown(out, now, window, bins, history);
  }

  ghost predicate Counted(out: seq<Bin>, g: Grid, done: seq<Record>)
    requires Ready(g)
  {
    |out| == g.bins && forall i :: 0 <= i < g.bins ==> out[i].events == Count(g, done, i)
  }

  lemma CountedIn(was: seq<Bin>, out: seq<Bin>, g: Grid, done: seq<Record>, r: Record)
    requires Ready(g) && Counted(was, g, done) && g.start <= r.receivedAt && |out| == g.bins
    requires forall i :: 0 <= i < g.bins ==>
               out[i].events == was[i].events + if i == BinOf(g, r.receivedAt) then 1 else 0
    ensures Counted(out, g, done + [r])
  {
    forall i | 0 <= i < g.bins ensures out[i].events == Count(g, done + [r], i) {
      CountNext(g, done, r, i);
    }
  }

  lemma CountedOut(out: seq<Bin>, g: Grid, done: seq<Record>, r: Record)
    requires Ready(g) && Counted(out, g, done) && r.receivedAt < g.start
    ensures Counted(out, g, done + [r])
  {
    forall i | 0 <= i < g.bins ensures out[i].events == Count(g, done + [r], i) {
      CountNext(g, done, r, i);
    }
  }

  lemma NothingPassed(g: Grid, out: seq<Bin>)
    requires Ready(g) && |out| == g.bins && forall i :: 0 <= i < g.bins ==> out[i] == Bin(0, None)
    ensures Passed(out, g, [], 0) && Counted(out, g, [])
  {}

  /** In order, the next record in the window is in the cursor's bin or a later one. */
  lemma CursorBehind(out: seq<Bin>, g: Grid, history: seq<Record>, n: nat, cursor: nat)
    requires Ready(g) && n < |history| && Ordered(history) && Passed(out, g, history[..n], cursor)
    requires g.start <= history[n].receivedAt
    ensures cursor <= BinOf(g, history[n].receivedAt)
  {
    if cursor > 0 {
      var k :| 0 <= k < n && InBin(g, history[..n][k], cursor);
      BinUp(g, history[k].receivedAt, history[n].receivedAt);
    }
  }

  lemma StillEarly(out: seq<Bin>, g: Grid, history: seq<Record>, n: nat, cursor: nat)
    requires Ready(g) && n < |history| && Ordered(history) && Passed(out, g, history[..n], cursor)
    requires history[n].receivedAt < g.start
    ensures cursor == 0 && out[0].events == 0
  {
    forall k | 0 <= k < n ensures !InBin(g, history[..n][k], cursor) {
      assert history[k].receivedAt <= history[n].receivedAt;
    }
  }

  lemma Finished(was: seq<Bin>, out: seq<Bin>, g: Grid, history: seq<Record>, cursor: nat)
    requires Ready(g) && Passed(was, g, history, cursor) && |out| == g.bins
    requires forall i :: 0 <= i < g.bins ==> out[i].events == was[i].events
    requires forall i :: 0 <= i < cursor ==> out[i] == was[i]
    requires forall i :: cursor <= i < g.bins ==>
               out[i].state == if out[i].events == 0 then Known(history) else was[i].state
    ensures forall i :: 0 <= i < g.bins ==> out[i].state == StateAt(g, history, i)
  {
    hide StateAt;
    forall i | 0 <= i < g.bins ensures out[i].state == StateAt(g, history, i) {
      if cursor <= i {
        KnownAt(g, history, cursor, i);
      }
    }
  }

  // ----- what a lane says as a whole -----

  function Events(out: seq<Bin>): nat {
    if out == [] then 0 else Events(out[..|out| - 1]) + out[|out| - 1].events
  }

  function InWindow(g: Grid, history: seq<Record>): nat {
    if history == [] then 0
    else InWindow(g, history[..|history| - 1]) + if g.start <= history[|history| - 1].receivedAt then 1 else 0
  }

  function Counts(g: Grid, history: seq<Record>, k: nat): nat
    requires Ready(g)
  {
    if k == 0 then 0 else Counts(g, history, k - 1) + Count(g, history, k - 1)
  }

  lemma {:induction false} CountsNext(g: Grid, history: seq<Record>, r: Record, k: nat)
    requires Ready(g) && k <= g.bins
    ensures Counts(g, history + [r], k) == Counts(g, history, k) +
              if g.start <= r.receivedAt && BinOf(g, r.receivedAt) < k then 1 else 0
  {
    if k > 0 {
      CountsNext(g, history, r, k - 1);
      CountNext(g, history, r, k - 1);
    }
  }

  lemma {:induction false} NoCounts(g: Grid, k: nat)
    requires Ready(g)
    ensures Counts(g, [], k) == 0
  {
    if k > 0 {
      NoCounts(g, k - 1);
    }
  }

  lemma {:induction false} CountsAll(g: Grid, history: seq<Record>)
    requires Ready(g)
    ensures Counts(g, history, g.bins) == InWindow(g, history)
  {
    if history == [] {
      NoCounts(g, g.bins);
    } else {
      var last := |history| - 1;
      CountsAll(g, history[..last]);
      assert history == history[..last] + [history[last]];
      CountsNext(g, history[..last], history[last], g.bins);
    }
  }

  lemma {:induction false} EventsAre(out: seq<Bin>, g: Grid, history: seq<Record>, k: nat)
    requires Ready(g) && k <= |out| == g.bins && forall i :: 0 <= i < g.bins ==> out[i].events == Count(g, history, i)
    ensures Events(out[..k]) == Counts(g, history, k)
  {
    if k > 0 {
      EventsAre(out, g, history, k - 1);
      assert out[..k][..k - 1] == out[..k - 1];
    }
  }

  /** In any order of receipt, every record in the window is counted in one bin. */
  lemma LaneCountsAll(out: seq<Bin>, g: Grid, history: seq<Record>)
    requires Ready(g) && Means(out, g, history)
    ensures Events(out) == InWindow(g, history)
  {
    EventsAre(out, g, history, g.bins);
    assert out[..g.bins] == out;
    CountsAll(g, history);
  }

  /**
   * The last bin of a seat that pages filled agrees with the seat's state if and only if a record that is not about mail
   * is retained, or the seat has no state yet.
   */
  lemma LastBinAgrees(out: seq<Bin>, g: Grid, seat: Seat, log: seq<Record>, id: string)
    requires Ready(g) && SeatFollows(seat, log, id)
    requires Ordered(seat.history) && Means(out, g, seat.history)
    ensures out[g.bins - 1].state == Some(seat.state) <==> Meaningful(seat.history) || seat.state == UnknownState
  {
    hide Since, Tail, StateAfter, Meaningful, LastOf, InBin, Count;
    var h := seat.history;
    AllBefore(g, h, g.bins - 1);
    assert out[g.bins - 1].state == Some(StateAfter(UnknownState, h));
    TailState(Since(log, id));
  }

  /** What is retained says the state, unless all of it is about mail. */
  lemma TailState(records: seq<Record>)
    ensures Meaningful(Tail(records)) ==> StateAfter(UnknownState, Tail(records)) == StateAfter(UnknownState, records)
    ensures !Meaningful(Tail(records)) ==> StateAfter(UnknownState, Tail(records)) == UnknownState
  {
    hide StateAfter;
    var h := Tail(records);
    if Meaningful(h) {
      var cut := |records| - |h|;
      assert records[cut..] == h;
      StateOfSplit(UnknownState, records, cut);
      MeaningfulForgets(UnknownState, StateAfter(UnknownState, records[..cut]), h);
    } else {
      OnlyMailKeeps(UnknownState, h);
    }
  }

  // ----- a lane in now, window and bins -----

  function StartOf(now: nat, window: nat): nat {
    if window <= now then now - window else 0
  }

  /** The window in equal parts of whole milliseconds, or of one when it is too short for that. */
  predicate IsSpan(span: nat, window: nat, bins: nat) {
    if window < bins then span == 1 else span * bins <= window < (span + 1) * bins
  }

  /** Where a bin ends; the last one does not. */
  function EndOf(start: nat, span: nat, bins: nat, i: nat): Option<nat> {
    if i + 1 == bins then None else Some(start + (i + 1) * span)
  }

  predicate Early(r: Record, end: Option<nat>) {
    end.Some? ==> r.receivedAt < end.value
  }

  function Received(history: seq<Record>, start: nat, end: Option<nat>): nat {
    if history == [] then 0
    else
      var r := history[|history| - 1];
      Received(history[..|history| - 1], start, end) + if start <= r.receivedAt && Early(r, end) then 1 else 0
  }

  function Until(history: seq<Record>, end: Option<nat>): seq<Record> {
    if history == [] then []
    else
      var rest, r := Until(history[..|history| - 1], end), history[|history| - 1];
      if Early(r, end) then rest + [r] else rest
  }

  /** Bin by bin: the records received in its stretch of the window, and the state that all until its end put the seat in. */
  ghost predicate ShowsWindow(out: seq<Bin>, history: seq<Record>, start: nat, span: nat) {
    forall i :: 0 <= i < |out| ==>
      var end := EndOf(start, span, |out|, i);
      && out[i].events == Received(history, start + i * span, end)
      && (Ordered(history) ==>
            out[i].state ==
              if Until(history, end) == [] then None else Some(StateAfter(UnknownState, Until(history, end))))
  }

  lemma InStretch(g: Grid, r: Record, i: nat)
    requires Ready(g) && i < g.bins
    ensures InBin(g, r, i) <==> g.start + i * g.span <= r.receivedAt && Early(r, EndOf(g.start, g.span, g.bins, i))
    ensures Before(g, r, i) <==> Early(r, EndOf(g.start, g.span, g.bins, i))
  {
    Product(i, g.span);
    Product(i + 1, g.span);
    if g.start <= r.receivedAt {
      BinCovers(g, r.receivedAt, i);
      Quotient(r.receivedAt - g.start, g.span, i + 1);
    }
  }

  lemma Product(a: nat, b: nat)
    ensures a * b >= 0
  {
  }

  lemma {:induction false} CountReceived(g: Grid, history: seq<Record>, i: nat)
    requires Ready(g) && i < g.bins
    ensures Count(g, history, i) == Received(history, g.start + i * g.span, EndOf(g.start, g.span, g.bins, i))
    ensures UpTo(g, history, i) == Until(history, EndOf(g.start, g.span, g.bins, i))
  {
    hide InBin, Before, EndOf, Early;
    if history != [] {
      CountReceived(g, history[..|history| - 1], i);
      InStretch(g, history[|history| - 1], i);
    }
  }

  lemma {:induction false} WindowReceived(g: Grid, history: seq<Record>)
    ensures InWindow(g, history) == Received(history, g.start, None)
  {
    if history != [] {
      WindowReceived(g, history[..|history| - 1]);
    }
  }

  lemma SpanIs(window: nat, bins: nat)
    requires bins > 0
    ensures IsSpan(if window / bins == 0 then 1 else window / bins, window, bins)
  {
    Quotient(window, bins, 1);
    Quotient(window, bins, window / bins);
    Quotient(window, bins, window / bins + 1);
  }

  lemma WindowShown(out: seq<Bin>, now: nat, window: nat, bins: nat, history: seq<Record>)
    requires bins > 0 && Means(out, GridOf(now, window, bins), history)
    ensures IsSpan(GridOf(now, window, bins).span, window, bins)
    ensures ShowsWindow(out, history, StartOf(now, window), GridOf(now, window, bins).span)
    ensures Events(out) == Received(history, StartOf(now, window), None)
  {
    hide Count, UpTo, Received, Until, EndOf, InWindow, Events;
    var g := GridOf(now, window, bins);
    SpanIs(window, bins);
    LaneCountsAll(out, g, history);
    WindowReceived(g, history);
    forall i | 0 <= i < bins
      ensures Count(g, history, i) == Received(history, g.start + i * g.span, EndOf(g.start, g.span, bins, i))
      ensures UpTo(g, history, i) == Until(history, EndOf(g.start, g.span, bins, i))
    {
      CountReceived(g, history, i);
    }
  }
}
