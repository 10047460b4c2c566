/** The monitor's poll of its endpoints: round robin, under a budget of host reads. */
module Poller {
  import opened Wrappers
  import opened ActivityHost

  const POLL_INTERVAL_MS := 250
  const MAX_ACTIVITY_READS_PER_SECOND := 64
  const MAX_HOST_IMPORTS_PER_CALL := 64

  const READ_BUDGET := MAX_ACTIVITY_READS_PER_SECOND / (1000 / POLL_INTERVAL_MS) - 1
  const POLLS := (if READ_BUDGET < MAX_HOST_IMPORTS_PER_CALL - 1 then READ_BUDGET else MAX_HOST_IMPORTS_PER_CALL - 1) / 2

  datatype ReadError =
    RateLimited | StillConnecting | FeedDisabled | Denied | Revoked | IncompatibleSchema | OtherError

  datatype Clock = Clock(wall: nat, monotonic: nat)
  datatype Selection = Selection(host: nat, seat: string)

  /** One poll reads a page and then the sessions: what came of it, and after how many reads. */
  datatype Answer = NoPage(error: ReadError) | NoSessions(error: ReadError) | Polled(page: Page)

  function Reads(answer: Answer): nat {
    if answer.NoPage? then 1 else 2
  }

  function Least(a: nat, b: nat): nat {
    if a < b then a else b
  }

  function FirstAt(handles: seq<nat>, handle: nat): (r: Option<nat>)
    ensures r.Some? ==> r.value < |handles| && handles[r.value] == handle && handle !in handles[..r.value]
    ensures r.None? <==> handle !in handles
  {
    if handles == [] then None
    else if handles[0] == handle then Some(0)
    else
      var rest := FirstAt(handles[1..], handle);
      assert rest.Some? ==> handles[..rest.value + 1] == [handles[0]] + handles[1..][..rest.value];
      if rest.Some? then Some(rest.value + 1) else None
  }

  class View {
    const readable: bool
    var lastPoll: Option<nat>
    var now: nat
    var handles: seq<nat>
    var hosts: seq<Host>
    var selected: Option<Selection>
    var nextHost: nat

    ghost predicate Valid()
      reads this, hosts
    {
      && (|handles| == |hosts| || handles == []) && (nextHost < |handles| || nextHost == 0)
      && Distinct(hosts) && forall i :: 0 <= i < |hosts| ==> ActivityHost.Valid(hosts[i].Now())
    }

    predicate Due(clock: Clock)
      reads this
    {
      DueAt(readable, lastPoll, clock)
    }

    ghost function Taken(): Snap
      reads this, hosts
    {
      Snap(lastPoll, nextHost, States(hosts))
    }

    /** Hosts that are still listed keep their state, and the selection its host. */
    method Remap(endpoints: seq<nat>)
      requires Valid()
      modifies this`handles, this`hosts, this`selected, this`nextHost
      ensures Valid() && handles == endpoints && nextHost == 0 && |hosts| == |handles|
      ensures forall i :: 0 <= i < |hosts| ==> fresh(hosts[i]) || hosts[i] in old(hosts)
      ensures exists place ::
                && IsPlace(place, old(handles)) && Rebuilt(hosts, handles, place, old(hosts))
                && Remapped(States(hosts), handles, place, old(States(hosts)))
      ensures selected == Reselected(old(selected), old(handles), handles)
      ensures Survive(hosts, handles, old(handles), old(hosts))
    {
      hide IsPlace, Rebuilt, Remapped, FirstAt, Distinct, ActivityHost.Valid, Survive;
      nextHost := 0;
      var chosen := if selected.Some? && selected.value.host < |handles|
                    then Some((handles[selected.value.host], selected.value.seat)) else None;
      var place := Places(handles);
      ghost var states := States(hosts);
      var built := Rebuild(endpoints, place);
      AllSurvive(built, endpoints, place, handles, hosts);
      RebuiltDistinct(built, endpoints, place, hosts);
      handles, hosts := endpoints, built;
      selected := None;
      if chosen.Some? {
        var at := FirstAt(handles, chosen.value.0);
        if at.Some? {
          selected := Some(Selection(at.value, chosen.value.1));
        }
      }
    }

    /** The hosts for a new listing: the old one of each handle still listed, once, and new ones for the rest. */
    method Rebuild(endpoints: seq<nat>, place: map<nat, nat>) returns (built: seq<Host>)
      requires Valid() && IsPlace(place, handles)
      ensures Rebuilt(built, endpoints, place, hosts) && Remapped(States(built), endpoints, place, States(hosts))
      ensures forall i :: 0 <= i < |built| ==> ActivityHost.Valid(built[i].Now())
      ensures forall i :: 0 <= i < |built| ==> fresh(built[i]) || built[i] in hosts
    {
      hide IsPlace, Rebuilt, Remapped, Distinct, ActivityHost.Valid, Kept;
      PlaceIn(place, handles);
      ghost var states := States(hosts);
      built := [];
      NothingRebuilt(place, hosts);
      NothingRemapped(place, states);
      assert endpoints[..0] == [];
      for i := 0 to |endpoints|
        invariant |built| == i && Rebuilt(built, endpoints[..i], place, hosts)
        invariant Remapped(States(built), endpoints[..i], place, states)
        invariant forall m :: 0 <= m < i ==> ActivityHost.Valid(built[m].Now())
        invariant forall m :: 0 <= m < i ==> fresh(built[m]) || built[m] in hosts
      {
        var handle := endpoints[i];
        var host;
        ghost var before := States(built);
        if handle in place && handle !in endpoints[..i] {
          host := hosts[place[handle]];
        } else {
          host := new Host();
          assert host !in built && host !in hosts;
        }
        RebuiltNext(built, endpoints[..i], handle, host, place, handles, hosts);
        RemappedNext(before, endpoints[..i], handle, host.Now(), place, states);
        assert States(built + [host]) == before + [host.Now()];
        built := built + [host];
        assert endpoints[..i + 1] == endpoints[..i] + [handle];
      }
      assert endpoints[..|endpoints|] == endpoints;
    }

    /** A host is read until it has no more, twice at most, and no further once a read fails. */
    method Visit(clock: Clock, index: nat, remaining: nat, answer: Feed) returns (calls: seq<Call>)
      requires Valid() && index < |handles| && 0 < remaining <= POLLS
      modifies hosts[index]
      ensures Valid()
      ensures States(hosts) == old(States(hosts))[index :=
                Visited(old(States(hosts))[index], clock, handles[index], remaining, answer)]
      ensures calls == VisitCalls(old(States(hosts))[index], clock, handles[index], remaining, answer)
    {
      hide Applied, ActivityHost.Valid;
      var host, handle := hosts[index], handles[index];
      var left := remaining - 1;
      var cursor := CursorOf(host.Now());
      var result := answer(POLLS - remaining, handle, cursor);
      calls := [Call(handle, cursor, result)];
      Hear(host, clock, result);
      if result.Polled? && result.page.hasMore && left > 0 {
        left := left - 1;
        cursor := CursorOf(host.Now());
        result := answer(POLLS - remaining + 1, handle, cursor);
        calls := calls + [Call(handle, cursor, result)];
        Hear(host, clock, result);
      }
      assert forall i :: 0 <= i < |hosts| && i != index ==> hosts[i].Now() == old(hosts[i].Now());
    }

    static method Hear(host: Host, clock: Clock, result: Answer)
      requires ActivityHost.Valid(host.Now())
      modifies host
      ensures ActivityHost.Valid(host.Now()) && host.Now() == Heard(old(host.Now()), clock, result)
    {
      hide Applied;
      match result
      case Polled(page) => host.Apply(page, clock.monotonic);
      case NoPage(error) => Miss(host, clock, error);
      case NoSessions(error) => Miss(host, clock, error);
    }

    static method Miss(host: Host, clock: Clock, error: ReadError)
      requires ActivityHost.Valid(host.Now())
      modifies host
      ensures ActivityHost.Valid(host.Now()) && host.Now() == Missed(old(host.Now()), clock, error)
    {
      match error
      case RateLimited =>
      case StillConnecting => host.link := Connecting;
      case FeedDisabled => host.link := Disabled;
      case Denied | Revoked => host.link := PermissionDenied;
      case IncompatibleSchema => host.link := Unsupported;
      case OtherError => host.Disconnect(clock.wall);
    }

    /**
     * One tick: a listing, then polls from where the last tick stopped. calls is every poll with its answer, and used the
     * host reads of all of it; mid is the hosts' states once the listing was taken in.
     */
    method Poll(clock: Clock, listing: Result<seq<nat>, ReadError>, answer: Feed)
      returns (polled: bool, visited: seq<nat>, calls: seq<Call>, used: nat, ghost mid: seq<State>)
      requires Valid()
      modifies this`now, this`lastPoll, this`handles, this`hosts, this`selected, this`nextHost, hosts
      ensures Valid() && now == clock.wall && polled == (old(Due(clock)) && listing.Ok?)
      ensures lastPoll == if old(Due(clock)) then Some(clock.monotonic) else old(lastPoll)
      ensures used == (if old(Due(clock)) then 1 else 0) + SumReads(calls)
      ensures used <= READ_BUDGET && |calls| <= POLLS
      ensures !polled ==>
        && visited == [] && calls == [] && handles == old(handles) && hosts == old(hosts) && nextHost == old(nextHost)
        && selected == old(selected) && |mid| == |hosts|
        && States(hosts) == if old(Due(clock)) then AllMissed(old(States(hosts)), clock) else old(States(hosts))
      ensures polled ==>
        && handles == listing.value && |handles| <= |mid| && (handles != [] ==> nextHost < |handles|)
        && var start := Begin(old(handles), handles, old(nextHost));
           Progress(States(hosts), visited, calls) == Served(mid, handles, start, clock, answer)
           && nextHost == NextStart(start, visited, |handles|)
      ensures polled && handles == old(handles) ==>
        hosts == old(hosts) && selected == old(selected) && mid == old(States(hosts))
      ensures polled && handles != old(handles) ==>
        && selected == Reselected(old(selected), old(handles), handles)
        && Relisted(mid, handles, old(handles), old(States(hosts)))
    {
      hide Served, NextStart, Relisted, Distinct, ActivityHost.Valid, Reselected, Missed;
      now, visited, calls, used, mid := clock.wall, [], [], 0, States(hosts);
      if !Due(clock) {
        return false, [], [], 0, mid;
      }
      lastPoll := Some(clock.monotonic);
      used := 1;
      if listing.Err? {
        DisconnectAll(clock);
        return false, [], [], used, mid;
      }
      visited, calls, mid := PollListed(clock, listing.value, answer);
      used := used + SumReads(calls);
      return true, visited, calls, used, mid;
    }

    /** The part of a tick after a listing. */
    method PollListed(clock: Clock, endpoints: seq<nat>, answer: Feed)
      returns (visited: seq<nat>, calls: seq<Call>, ghost mid: seq<State>)
      requires Valid()
      modifies this`handles, this`hosts, this`selected, this`nextHost, hosts
      ensures Valid() && handles == endpoints && |handles| <= |mid| && (handles != [] ==> nextHost < |handles|)
      ensures var start := Begin(old(handles), handles, old(nextHost));
        && (handles != [] ==> start < |handles|)
        && Progress(States(hosts), visited, calls) == Served(mid, handles, start, clock, answer)
        && nextHost == NextStart(start, visited, |handles|)
      ensures 1 + SumReads(calls) <= READ_BUDGET && |calls| <= POLLS
      ensures handles == old(handles) ==> hosts == old(hosts) && selected == old(selected) && mid == old(States(hosts))
      ensures handles != old(handles) ==>
        && selected == Reselected(old(selected), old(handles), handles)
        && Relisted(mid, handles, old(handles), old(States(hosts)))
    {
      hide Serve, NextStart, Relisted, Distinct, ActivityHost.Valid, Reselected, Fair;
      TakeListing(endpoints);
      mid := States(hosts);
      ServedMeans(mid, handles, nextHost, clock, answer);
      visited, calls := PollHosts(clock, answer);
    }

    /** Hosts change only with the handles. */
    method TakeListing(endpoints: seq<nat>)
      requires Valid()
      modifies this`handles, this`hosts, this`selected, this`nextHost
      ensures Valid() && handles == endpoints && nextHost == Begin(old(handles), handles, old(nextHost))
      ensures handles != [] ==> |hosts| == |handles|
      ensures handles == old(handles) ==> hosts == old(hosts) && selected == old(selected)
      ensures forall i :: 0 <= i < |hosts| ==> fresh(hosts[i]) || hosts[i] in old(hosts)
      ensures handles != old(handles) ==> selected == Reselected(old(selected), old(handles), handles)
      ensures handles != old(handles) ==> Relisted(States(hosts), handles, old(handles), old(States(hosts)))
    {
      hide IsPlace, Rebuilt, Remapped, Distinct, ActivityHost.Valid, Reselected;
      if endpoints != handles {
        Remap(endpoints);
      }
    }

    method DisconnectAll(clock: Clock)
      requires Valid()
      modifies hosts
      ensures Valid() && States(hosts) == AllMissed(old(States(hosts)), clock)
    {
      for i := 0 to |hosts|
        invariant Valid()
        invariant forall k :: 0 <= k < |hosts| ==>
                    hosts[k].Now() == if k < i then Missed(old(hosts[k].Now()), clock, OtherError) else old(hosts[k].Now())
      {
        hosts[i].Disconnect(clock.wall);
      }
    }

    /** The round robin, as long as there are polls left and hosts not visited. */
    method PollHosts(clock: Clock, answer: Feed) returns (visited: seq<nat>, calls: seq<Call>)
      requires Valid() && (handles == [] || |hosts| == |handles|)
      modifies this`nextHost, hosts
      ensures Valid() && (handles != [] ==> nextHost < |handles|)
      ensures Progress(States(hosts), visited, calls) == Served(old(States(hosts)), handles, old(nextHost), clock, answer)
      ensures nextHost == NextStart(old(nextHost), visited, |handles|)
    {
      hide ActivityHost.Valid, Distinct, ServeNext, Slot, NextStart;
      visited, calls := [], [];
      var remaining := POLLS;
      ghost var start, before := nextHost, States(hosts);
      StartAt(start, |handles|);
      for turn := 0 to |handles|
        invariant Valid() && |visited| == turn && 0 <= remaining && |calls| + remaining == POLLS
        invariant nextHost == NextStart(start, visited, |handles|)
        invariant Serve(Progress(States(hosts), visited, calls), start, clock, handles, answer) ==
                  Served(before, handles, start, clock, answer)
      {
        if remaining == 0 {
          break;
        }
        ghost var p := Progress(States(hosts), visited, calls);
        var index, more := TakeTurn(clock, answer, visited, calls, start);
        remaining := remaining - |more|;
        visited, calls := visited + [index], calls + more;
        assert Progress(States(hosts), visited, calls) == ServeNext(p, start, clock, handles, answer);
      }
    }

    /** The next host in turn is visited. */
    method TakeTurn(clock: Clock, answer: Feed, visited: seq<nat>, calls: seq<Call>, ghost start: nat)
      returns (index: nat, more: seq<Call>)
      requires Valid() && |hosts| == |handles| && |calls| < POLLS && |visited| < |handles|
      requires start < |handles| && nextHost == NextStart(start, visited, |handles|)
      modifies this`nextHost, hosts
      ensures Valid() && |more| <= POLLS - |calls|
      ensures nextHost == NextStart(start, visited + [index], |handles|)
      ensures Progress(States(hosts), visited + [index], calls + more) ==
              ServeNext(Progress(old(States(hosts)), visited, calls), start, clock, handles, answer)
    {
      hide Visited, VisitCalls, ActivityHost.Valid, Distinct, Slot;
      index := nextHost;
      ghost var was := States(hosts);
      SlotIn(start, |visited|, |handles|);
      VisitCallsFit(was[index], clock, handles[index], POLLS - |calls|, answer);
      nextHost := After(index, |handles|);
      NextSlot(start, |visited|, |handles|);
      assert States(hosts) == was;
      more := Visit(clock, index, POLLS - |calls|, answer);
    }
  }

  ghost function States(hosts: seq<Host>): (s: seq<State>)
    reads hosts
    ensures |s| == |hosts| && forall i :: 0 <= i < |hosts| ==> s[i] == hosts[i].Now()
  {
    seq(|hosts|, i requires 0 <= i < |hosts| reads hosts => hosts[i].Now())
  }

  // ----- the calls of a tick -----

  /** A poll of a handle from a cursor, and what it answered. */
  datatype Call = Call(handle: nat, cursor: Option<Cursor>, answer: Answer)

  function SumReads(calls: seq<Call>): nat {
    if calls == [] then 0 else SumReads(calls[..|calls| - 1]) + Reads(calls[|calls| - 1].answer)
  }

  lemma {:induction false} SumReadsBound(calls: seq<Call>)
    ensures SumReads(calls) <= 2 * |calls|
  {
    if calls != [] {
      SumReadsBound(calls[..|calls| - 1]);
    }
  }

  /** The hosts while a tick polls them: those visited so far, and the calls made. */
  datatype Progress = Progress(states: seq<State>, visited: seq<nat>, calls: seq<Call>)

  ghost function ServeNext(p: Progress, start: nat, clock: Clock, handles: seq<nat>, answer: Feed): (q: Progress)
    requires |handles| <= |p.states| && |p.visited| < |handles| && start < |handles| && |p.calls| < POLLS
    ensures |q.states| == |p.states| && |q.visited| == |p.visited| + 1 && |p.calls| < |q.calls| <= POLLS
    ensures |q.calls| <= |p.calls| + 2
  {
    SlotIn(start, |p.visited|, |handles|);
    var i, remaining := Slot(start, |p.visited|, |handles|), POLLS - |p.calls|;
    VisitCallsFit(p.states[i], clock, handles[i], remaining, answer);
    Progress(p.states[i := Visited(p.states[i], clock, handles[i], remaining, answer)], p.visited + [i],
             p.calls + VisitCalls(p.states[i], clock, handles[i], remaining, answer))
  }

  ghost function Serve(p: Progress, start: nat, clock: Clock, handles: seq<nat>, answer: Feed): Progress
    requires |handles| <= |p.states| && |p.visited| <= |handles| && |p.calls| <= POLLS && (handles != [] ==> start < |handles|)
    decreases |handles| - |p.visited|
  {
    if |p.visited| == |handles| || |p.calls| == POLLS then p
    else Serve(ServeNext(p, start, clock, handles, answer), start, clock, handles, answer)
  }

  /** A tick's polls, in turn from a start, seven at most. */
  ghost function Served(states: seq<State>, handles: seq<nat>, start: nat, clock: Clock, answer: Feed): Progress
    requires |handles| <= |states| && (handles != [] ==> start < |handles|)
  {
    Serve(Progress(states, [], []), start, clock, handles, answer)
  }

  /** Every call got its answer at its place in the tick. */
  ghost predicate Truthful(calls: seq<Call>, answer: Feed) {
    forall k :: 0 <= k < |calls| ==> calls[k].answer == answer(k, calls[k].handle, calls[k].cursor)
  }

  /** Polls so far: hosts in turn, at most two calls each, every visited host heard its answers and no other changed. */
  ghost predicate Fair(states: seq<State>, p: Progress, start: nat, clock: Clock, handles: seq<nat>, answer: Feed) {
    && InTurn(p.visited, start, |handles|) && |p.visited| <= |p.calls| <= 2 * |p.visited| && Truthful(p.calls, answer)
    && |p.states| == |states| && |handles| <= |states|
    && forall i :: 0 <= i < |states| ==>
         if i in p.visited then i < |handles| && WasVisited(states[i], p.states[i], clock, handles[i], answer)
         else p.states[i] == states[i]
  }

  lemma FairNext(states: seq<State>, p: Progress, start: nat, clock: Clock, handles: seq<nat>, answer: Feed)
    requires Fair(states, p, start, clock, handles, answer)
    requires |p.visited| < |handles| && start < |handles| && |p.calls| < POLLS
    ensures Fair(states, ServeNext(p, start, clock, handles, answer), start, clock, handles, answer)
  {
    hide Visited, InTurn, WasVisited, Slot;
    var q, i, remaining := ServeNext(p, start, clock, handles, answer), Slot(start, |p.visited|, |handles|), POLLS - |p.calls|;
    TurnNext(p.visited, start, |handles|);
    VisitCallsFit(p.states[i], clock, handles[i], remaining, answer);
    VisitedOnce(states[i], clock, handles[i], remaining, answer);
    assert forall k :: 0 <= k < |p.calls| ==> q.calls[k] == p.calls[k];
  }

  lemma VisitedOnce(s: State, clock: Clock, handle: nat, remaining: nat, answer: Feed)
    requires 0 < remaining <= POLLS
    ensures WasVisited(s, Visited(s, clock, handle, remaining, answer), clock, handle, answer)
  {}

  lemma {:induction false} ServeFair(states: seq<State>, p: Progress, start: nat, clock: Clock, handles: seq<nat>, answer: Feed)
    requires Fair(states, p, start, clock, handles, answer) && |p.visited| <= |handles| && |p.calls| <= POLLS
    requires |handles| <= |p.states| && (handles != [] ==> start < |handles|)
    ensures var q := Serve(p, start, clock, handles, answer);
      && Fair(states, q, start, clock, handles, answer) && |q.calls| <= POLLS
      && (|q.visited| == |handles| || |q.calls| == POLLS)
    decreases |handles| - |p.visited|
  {
    hide Fair, ServeNext;
    if |p.visited| != |handles| && |p.calls| != POLLS {
      FairNext(states, p, start, clock, handles, answer);
      ServeFair(states, ServeNext(p, start, clock, handles, answer), start, clock, handles, answer);
    }
  }

  /**
   * A tick's polls: at most seven, with the listing at most fifteen host reads; at least four hosts or all of them are
   * visited, in turn, each once and polled at most twice; every visited host heard its answers, and no other changed.
   */
  lemma ServedMeans(states: seq<State>, handles: seq<nat>, start: nat, clock: Clock, answer: Feed)
    requires |handles| <= |states| && (start < |handles| || (handles == [] && start == 0))
    ensures var p := Served(states, handles, start, clock, answer);
      && Fair(states, p, start, clock, handles, answer) && |p.calls| <= POLLS && 1 + SumReads(p.calls) <= READ_BUDGET
      && Least(|handles|, 4) <= |p.visited| <= POLLS
  {
    hide Serve, Fair;
    NobodyServed(states, handles, start, clock, answer);
    ServeFair(states, Progress(states, [], []), start, clock, handles, answer);
    SumReadsBound(Served(states, handles, start, clock, answer).calls);
    FairCounts(states, Served(states, handles, start, clock, answer), start, clock, handles, answer);
  }

  lemma NobodyServed(states: seq<State>, handles: seq<nat>, start: nat, clock: Clock, answer: Feed)
    requires |handles| <= |states| && (start < |handles| || (handles == [] && start == 0))
    ensures Fair(states, Progress(states, [], []), start, clock, handles, answer)
  {}

  lemma FairCounts(states: seq<State>, p: Progress, start: nat, clock: Clock, handles: seq<nat>, answer: Feed)
    requires Fair(states, p, start, clock, handles, answer)
    ensures |p.visited| <= |handles| && |p.visited| <= |p.calls| <= 2 * |p.visited|
  {}

  /** What the nth poll of a tick answers for a handle and a cursor. */
  type Feed = (nat, nat, Option<Cursor>) -> Answer

  function CursorOf(s: State): Option<Cursor> {
    if s.epoch.None? then None else Some(Cursor(s.epoch.value, s.sequence))
  }

  function Missed(s: State, clock: Clock, error: ReadError): State {
    match error
    case RateLimited => s
    case StillConnecting => s.(link := Connecting)
    case FeedDisabled => s.(link := Disabled)
    case Denied | Revoked => s.(link := PermissionDenied)
    case IncompatibleSchema => s.(link := Unsupported)
    case OtherError => s.(link := if s.link.Retrying? then s.link else Retrying(clock.wall))
  }

  function AllMissed(states: seq<State>, clock: Clock): seq<State> {
    seq(|states|, i requires 0 <= i < |states| => Missed(states[i], clock, OtherError))
  }

  ghost function Heard(s: State, clock: Clock, result: Answer): State {
    if result.Polled? then Applied(s, result.page, clock.monotonic) else Missed(s, clock, result.error)
  }

  ghost function Visited(s: State, clock: Clock, handle: nat, remaining: nat, answer: Feed): State
    requires 0 < remaining <= POLLS
  {
    var first := answer(POLLS - remaining, handle, CursorOf(s));
    var t := Heard(s, clock, first);
    if first.Polled? && first.page.hasMore && remaining > 1
    then Heard(t, clock, answer(POLLS - remaining + 1, handle, CursorOf(t))) else t
  }

  /** The one or two calls of a visit. */
  ghost function VisitCalls(s: State, clock: Clock, handle: nat, remaining: nat, answer: Feed): seq<Call>
    requires 0 < remaining <= POLLS
  {
    var first := answer(POLLS - remaining, handle, CursorOf(s));
    var t := Heard(s, clock, first);
    if first.Polled? && first.page.hasMore && remaining > 1
    then [Call(handle, CursorOf(s), first), Call(handle, CursorOf(t), answer(POLLS - remaining + 1, handle, CursorOf(t)))]
    else [Call(handle, CursorOf(s), first)]
  }

  lemma VisitCallsFit(s: State, clock: Clock, handle: nat, remaining: nat, answer: Feed)
    requires 0 < remaining <= POLLS
    ensures var calls := VisitCalls(s, clock, handle, remaining, answer);
      && 1 <= |calls| <= 2 && |calls| <= remaining
      && forall k :: 0 <= k < |calls| ==>
           calls[k].handle == handle && calls[k].answer == answer(POLLS - remaining + k, handle, calls[k].cursor)
  {}

  ghost predicate WasVisited(s: State, t: State, clock: Clock, handle: nat, answer: Feed) {
    exists remaining :: 0 < remaining <= POLLS && t == Visited(s, clock, handle, remaining, answer)
  }

  // ----- turns -----

  function Begin(old_: seq<nat>, now: seq<nat>, next: nat): nat {
    if old_ == now then next else 0
  }

  /** Where the next tick starts. */
  function NextStart(start: nat, visited: seq<nat>, n: nat): nat {
    if start < n && |visited| <= n then Slot(start, |visited|, n) else start
  }

  lemma SlotIn(start: nat, k: nat, n: nat)
    requires start < n && k <= n
    ensures Slot(start, k, n) < n
  {}

  function After(index: nat, n: nat): nat
    requires n > 0
  {
    (index + 1) % n
  }

  /** The host k turns after a start. */
  function Slot(start: nat, k: nat, n: nat): nat
    requires start < n && k <= n
  {
    if start + k < n then start + k else start + k - n
  }

  ghost predicate InTurn(visited: seq<nat>, start: nat, n: nat) {
    && |visited| <= n && (n > 0 ==> start < n)
    && forall k :: 0 <= k < |visited| ==> visited[k] == Slot(start, k, n)
  }

  lemma StartAt(start: nat, n: nat)
    requires start < n || start == 0
    ensures InTurn([], start, n) && NextStart(start, [], n) == start
  {}

  lemma TurnNext(visited: seq<nat>, start: nat, n: nat)
    requires InTurn(visited, start, n) && |visited| < n
    ensures start < n && Slot(start, |visited|, n) < n && Slot(start, |visited|, n) !in visited
    ensures InTurn(visited + [Slot(start, |visited|, n)], start, n)
    ensures After(Slot(start, |visited|, n), n) == Slot(start, |visited| + 1, n)
  {
    NextSlot(start, |visited|, n);
  }

  lemma NextSlot(start: nat, k: nat, n: nat)
    requires start < n && k < n
    ensures After(Slot(start, k, n), n) == Slot(start, k + 1, n)
  {
    var at := Slot(start, k, n) + 1;
    if at == n {
      assert n % n == 0;
    } else {
      Small(at, n);
    }
  }

  lemma Small(a: nat, n: nat)
    requires a < n
    ensures a % n == a
  {}

  /** The selection stays on its endpoint, and goes with it. */
  function Reselected(selected: Option<Selection>, old_: seq<nat>, now: seq<nat>): Option<Selection> {
    if selected.None? || selected.value.host >= |old_| then None
    else
      var at := FirstAt(now, old_[selected.value.host]);
      if at.None? then None else Some(Selection(at.value, selected.value.seat))
  }

  /** Where each handle was listed last, among the handles that have a host. */
  ghost predicate IsPlace(place: map<nat, nat>, handles: seq<nat>) {
    && (forall h :: h in place <==> h in handles)
    && (forall h :: h in place ==> place[h] < |handles| && handles[place[h]] == h && h !in handles[place[h] + 1..])
  }

  method Places(handles: seq<nat>) returns (place: map<nat, nat>)
    ensures IsPlace(place, handles)
  {
    place := map[];
    assert handles[..0] == [];
    for k := 0 to |handles|
      invariant IsPlace(place, handles[..k])
    {
      PlaceNext(place, handles[..k], handles[k]);
      assert handles[..k + 1] == handles[..k] + [handles[k]];
      place := place[handles[k] := k];
    }
    assert handles[..|handles|] == handles;
  }

  lemma PlaceNext(place: map<nat, nat>, handles: seq<nat>, handle: nat)
    requires IsPlace(place, handles)
    ensures IsPlace(place[handle := |handles|], handles + [handle])
  {
    var now, next := handles + [handle], place[handle := |handles|];
    forall h | h in next ensures next[h] < |now| && now[next[h]] == h && h !in now[next[h] + 1..] {
      if h != handle {
        assert now[place[h] + 1..] == handles[place[h] + 1..] + [handle];
      }
    }
  }

  lemma PlaceIn(place: map<nat, nat>, handles: seq<nat>)
    requires IsPlace(place, handles)
    ensures forall h :: h in place ==> place[h] < |handles|
    ensures forall a, b :: a in place && b in place && place[a] == place[b] ==> a == b
  {}

  predicate Kept(place: map<nat, nat>, now: seq<nat>, i: nat)
    requires i < |now|
  {
    now[i] in place && now[i] !in now[..i]
  }

  /** The first entry of a handle that was listed has the host it had; every other entry a host of its own. */
  ghost predicate Rebuilt(built: seq<Host>, now: seq<nat>, place: map<nat, nat>, had: seq<Host>) {
    && |built| == |now| && Distinct(built)
    && (forall i :: 0 <= i < |now| && Kept(place, now, i) ==>
          place[now[i]] < |had| && built[i] == had[place[now[i]]])
    && (forall i :: 0 <= i < |now| && !Kept(place, now, i) ==> built[i] !in had)
  }

  /** The states of rebuilt hosts: what they were, or new. */
  ghost predicate Remapped(states: seq<State>, now: seq<nat>, place: map<nat, nat>, had: seq<State>) {
    && |states| == |now|
    && forall i :: 0 <= i < |now| ==>
         if Kept(place, now, i) then place[now[i]] < |had| && states[i] == had[place[now[i]]] else states[i] == BLANK
  }

  /** The states for a new listing: each handle still listed keeps its state, once, and the rest are new. */
  ghost predicate Relisted(states: seq<State>, now: seq<nat>, were: seq<nat>, had: seq<State>) {
    exists place :: IsPlace(place, were) && Remapped(states, now, place, had)
  }

  lemma NothingRemapped(place: map<nat, nat>, had: seq<State>)
    ensures Remapped([], [], place, had)
  {}

  lemma RemappedNext(states: seq<State>, now: seq<nat>, handle: nat, state: State, place: map<nat, nat>, had: seq<State>)
    requires Remapped(states, now, place, had)
    requires handle in place && handle !in now ==> place[handle] < |had| && state == had[place[handle]]
    requires !(handle in place && handle !in now) ==> state == BLANK
    ensures Remapped(states + [state], now + [handle], place, had)
  {
    var next := now + [handle];
    assert forall i :: 0 <= i < |now| ==> next[..i] == now[..i] && (Kept(place, next, i) <==> Kept(place, now, i));
    assert next[..|now|] == now;
  }

  lemma NothingRebuilt(place: map<nat, nat>, had: seq<Host>)
    ensures Rebuilt([], [], place, had)
  {}

  lemma RebuiltDistinct(built: seq<Host>, now: seq<nat>, place: map<nat, nat>, had: seq<Host>)
    requires Rebuilt(built, now, place, had)
    ensures Distinct(built) && |built| == |now|
  {}

  lemma RebuiltNext(built: seq<Host>, now: seq<nat>, handle: nat, host: Host, place: map<nat, nat>, were: seq<nat>,
                    had: seq<Host>)
    requires Rebuilt(built, now, place, had) && Distinct(had) && IsPlace(place, were) && |were| <= |had|
    requires handle in place && handle !in now ==> host == had[place[handle]]
    requires !(handle in place && handle !in now) ==> host !in had && host !in built
    ensures Rebuilt(built + [host], now + [handle], place, had)
  {
    hide Distinct;
    var next := now + [handle];
    assert forall i :: 0 <= i < |now| ==> next[..i] == now[..i] && (Kept(place, next, i) <==> Kept(place, now, i));
    assert next[..|now|] == now;
    if handle in place && handle !in now {
      NotBuilt(built, now, handle, place, were, had);
    }
    DistinctNext(built, host);
  }

  lemma NotBuilt(built: seq<Host>, now: seq<nat>, handle: nat, place: map<nat, nat>, were: seq<nat>, had: seq<Host>)
    requires Rebuilt(built, now, place, had) && Distinct(had) && IsPlace(place, were) && |were| <= |had|
    requires handle in place && handle !in now
    ensures had[place[handle]] !in built
  {
    PlaceIn(place, were);
    forall i | 0 <= i < |built| ensures built[i] != had[place[handle]] {
      assert had[place[handle]] in had;
      assert now[i] in now;
      assert Kept(place, now, i) ==> place[now[i]] != place[handle];
    }
  }

  lemma DistinctNext<T>(s: seq<T>, x: T)
    requires Distinct(s) && x !in s
    ensures Distinct(s + [x])
  {}

  /** When handles are listed once each, a host that is still listed is the one it was, wherever it is now. */
  lemma ListedHostsSurvive(hosts: seq<Host>, now: seq<nat>, place: map<nat, nat>, were: seq<nat>, had: seq<Host>,
                           i: nat, k: nat)
    requires IsPlace(place, were) && Rebuilt(hosts, now, place, had) && |were| <= |had|
    requires Distinct(were) && Distinct(now) && i < |now| && k < |were| && now[i] == were[k]
    ensures hosts[i] == had[k]
  {
    assert now[i] !in now[..i];
    assert Kept(place, now, i);
  }

  /** Of handles listed once each, the host of one still listed is the one it was. */
  ghost predicate Survive(hosts: seq<Host>, now: seq<nat>, were: seq<nat>, had: seq<Host>)
    requires |hosts| == |now| && |were| <= |had|
  {
    Distinct(were) && Distinct(now) ==>
      forall i, k :: 0 <= i < |now| && 0 <= k < |were| && now[i] == were[k] ==> hosts[i] == had[k]
  }

  lemma AllSurvive(hosts: seq<Host>, now: seq<nat>, place: map<nat, nat>, were: seq<nat>, had: seq<Host>)
    requires IsPlace(place, were) && Rebuilt(hosts, now, place, had) && |were| <= |had|
    ensures |hosts| == |now| && Survive(hosts, now, were, had)
  {
    hide IsPlace, Distinct;
    if Distinct(were) && Distinct(now) {
      forall i, k | 0 <= i < |now| && 0 <= k < |were| && now[i] == were[k] ensures hosts[i] == had[k] {
        ListedHostsSurvive(hosts, now, place, were, had, i, k);
      }
    }
  }

  // ----- any run of ticks over the same endpoints -----

  datatype Tick = Tick(clock: Clock, listing: Result<seq<nat>, ReadError>, answer: Feed)

  /** The visits of a run, all in turn from its start. */
  ghost predicate Turns(visits: seq<seq<nat>>, start: nat, n: nat, next: nat)
    requires n > 0
  {
    if visits == [] then next == start && start < n
    else
      var last := |visits| - 1;
      exists at :: Turns(visits[..last], start, n, at) && InTurn(visits[last], at, n) && next == Slot(at, |visits[last]|, n)
  }

  function Total(visits: seq<seq<nat>>): nat {
    if visits == [] then 0 else Total(visits[..|visits| - 1]) + |visits[|visits| - 1]|
  }

  ghost predicate Covers(visits: seq<seq<nat>>, i: nat) {
    exists t :: 0 <= t < |visits| && i in visits[t]
  }

  /** How many turns after a start a host comes. */
  function Distance(start: nat, i: nat, n: nat): (d: nat)
    requires start < n && i < n
    ensures d < n && Slot(start, d, n) == i
  {
    if start <= i then i - start else i + n - start
  }

  /** A host is visited once as many turns were taken as it is away. */
  lemma {:induction false} TurnsCover(visits: seq<seq<nat>>, start: nat, n: nat, next: nat, i: nat)
    requires n > 0 && Turns(visits, start, n, next) && start < n && i < n
    ensures next < n
    ensures Covers(visits, i) || Distance(next, i, n) == Distance(start, i, n) - Total(visits)
  {
    if visits != [] {
      var last := |visits| - 1;
      var at :| Turns(visits[..last], start, n, at) && InTurn(visits[last], at, n) && next == Slot(at, |visits[last]|, n);
      TurnsCover(visits[..last], start, n, at, i);
      if Covers(visits[..last], i) {
        var t :| 0 <= t < last && i in visits[..last][t];
        assert i in visits[t];
      } else if Distance(at, i, n) < |visits[last]| {
        assert visits[last][Distance(at, i, n)] == i;
      }
    }
  }

  // ----- what a run of ticks is -----

  /** What the next tick depends on. */
  datatype Snap = Snap(lastPoll: Option<nat>, next: nat, states: seq<State>)

  /** A run so far: where it stands, and for each tick its visits and its calls. */
  datatype Trace = Trace(snap: Snap, visits: seq<seq<nat>>, calls: seq<seq<Call>>, polls: nat)

  predicate DueAt(readable: bool, last: Option<nat>, clock: Clock) {
    readable && (last.Some? ==> clock.monotonic >= last.value + POLL_INTERVAL_MS)
  }

  predicate SnapOk(snap: Snap, n: nat) {
    n <= |snap.states| && (snap.next < n || (n == 0 && snap.next == 0))
  }

  /** One tick more: nothing when it is not due, disconnects when it cannot list, else the polls in turn. */
  ghost function TickNext(readable: bool, handles: seq<nat>, trace: Trace, tick: Tick): (r: Trace)
    requires SnapOk(trace.snap, |handles|)
    ensures SnapOk(r.snap, |handles|)
  {
    var snap := trace.snap;
    if !DueAt(readable, snap.lastPoll, tick.clock) then trace.(visits := trace.visits + [[]], calls := trace.calls + [[]])
    else if tick.listing.Err? then
      Trace(Snap(Some(tick.clock.monotonic), snap.next, AllMissed(snap.states, tick.clock)), trace.visits + [[]],
            trace.calls + [[]], trace.polls)
    else
      var p := Served(snap.states, handles, snap.next, tick.clock, tick.answer);
      ServedMeans(snap.states, handles, snap.next, tick.clock, tick.answer);
      NextIn(snap.next, p.visited, |handles|);
      Trace(Snap(Some(tick.clock.monotonic), NextStart(snap.next, p.visited, |handles|), p.states), trace.visits + [p.visited],
            trace.calls + [p.calls], trace.polls + 1)
  }

  lemma NextIn(start: nat, visited: seq<nat>, n: nat)
    requires start < n || (n == 0 && start == 0)
    ensures NextStart(start, visited, n) < n || (n == 0 && NextStart(start, visited, n) == 0)
  {}

  ghost function Ticked(readable: bool, handles: seq<nat>, start: Snap, ticks: seq<Tick>): (r: Trace)
    requires SnapOk(start, |handles|)
    ensures SnapOk(r.snap, |handles|)
  {
    if ticks == [] then Trace(start, [], [], 0)
    else TickNext(readable, handles, Ticked(readable, handles, start, ticks[..|ticks| - 1]), ticks[|ticks| - 1])
  }

  // ----- over any run of ticks -----

  /** One tick: its reads within the budget, its visits in turn, and at least four or all of them when it polled. */
  lemma TickMeans(readable: bool, handles: seq<nat>, before: Trace, tick: Tick)
    requires SnapOk(before.snap, |handles|)
    ensures var r := TickNext(readable, handles, before, tick);
      && |r.visits| == |before.visits| + 1 && r.visits[..|before.visits|] == before.visits
      && |r.calls| == |before.calls| + 1 && r.calls[..|before.calls|] == before.calls
      && var visited, calls := r.visits[|before.visits|], r.calls[|before.calls|];
         && InTurn(visited, before.snap.next, |handles|)
         && r.snap.next == NextStart(before.snap.next, visited, |handles|)
         && 1 + SumReads(calls) <= READ_BUDGET && |calls| <= POLLS
         && (r.polls == before.polls || (r.polls == before.polls + 1 && |visited| >= Least(|handles|, 4)))
  {
    hide Served, InTurn, WasVisited, Truthful, NextStart;
    ServedMeans(before.snap.states, handles, before.snap.next, tick.clock, tick.answer);
    StartAt(before.snap.next, |handles|);
  }

  /** No tick makes more than fifteen host reads, the listing included. */
  lemma {:induction false} ReadsBounded(readable: bool, handles: seq<nat>, start: Snap, ticks: seq<Tick>)
    requires SnapOk(start, |handles|)
    ensures var trace := Ticked(readable, handles, start, ticks);
      && |trace.visits| == |trace.calls| == |ticks| && trace.polls <= |ticks|
      && forall t :: 0 <= t < |ticks| ==> 1 + SumReads(trace.calls[t]) <= READ_BUDGET && |trace.calls[t]| <= POLLS
  {
    hide TickNext, SumReads, InTurn;
    if ticks != [] {
      var rest := ticks[..|ticks| - 1];
      ReadsBounded(readable, handles, start, rest);
      var before := Ticked(readable, handles, start, rest);
      TickMeans(readable, handles, before, ticks[|ticks| - 1]);
      var trace := Ticked(readable, handles, start, ticks);
      assert forall t :: 0 <= t < |rest| ==> trace.calls[t] == trace.calls[..|rest|][t];
    }
  }

  lemma {:induction false} TicksInTurn(readable: bool, handles: seq<nat>, start: Snap, ticks: seq<Tick>)
    requires SnapOk(start, |handles|) && handles != []
    ensures var trace := Ticked(readable, handles, start, ticks);
      && Turns(trace.visits, start.next, |handles|, trace.snap.next)
      && Total(trace.visits) >= Least(|handles|, 4) * trace.polls
  {
    hide TickNext, InTurn, Least, Turns;
    if ticks == [] {
      NoTurns(start.next, |handles|);
    } else {
      var n, rest, tick := |handles|, ticks[..|ticks| - 1], ticks[|ticks| - 1];
      TicksInTurn(readable, handles, start, rest);
      var before := Ticked(readable, handles, start, rest);
      var trace := TickNext(readable, handles, before, tick);
      TickMeans(readable, handles, before, tick);
      assert trace.visits == before.visits + [trace.visits[|before.visits|]];
      Scaled(Least(n, 4), before.polls);
      TurnsNext(before.visits, start.next, n, before.snap.next, trace.visits[|before.visits|]);
    }
  }

  lemma NoTurns(start: nat, n: nat)
    requires start < n
    ensures Turns([], start, n, start)
  {}

  lemma Scaled(a: nat, k: nat)
    ensures a * (k + 1) == a * k + a
  {}

  lemma TurnsNext(visits: seq<seq<nat>>, start: nat, n: nat, next: nat, visited: seq<nat>)
    requires n > 0 && Turns(visits, start, n, next) && InTurn(visited, next, n)
    ensures Turns(visits + [visited], start, n, NextStart(next, visited, n))
  {
    assert (visits + [visited])[..|visits|] == visits;
  }

  /** Once a quarter of n ticks polled, rounded up, every one of the n endpoints was polled, whatever the polls answer. */
  lemma TicksCover(readable: bool, handles: seq<nat>, start: Snap, ticks: seq<Tick>, i: nat)
    requires SnapOk(start, |handles|) && i < |handles|
    requires 4 * Ticked(readable, handles, start, ticks).polls >= |handles|
    ensures Covers(Ticked(readable, handles, start, ticks).visits, i)
  {
    hide Ticked, Covers, Turns;
    var trace := Ticked(readable, handles, start, ticks);
    TicksInTurn(readable, handles, start, ticks);
    TurnsCover(trace.visits, start.next, |handles|, trace.snap.next, i);
    Enough(|handles|, trace.polls);
  }

  /** Ticks that list, none sooner than 250 ms after the last that did. */
  ghost predicate Spaced(ticks: seq<Tick>, last: Option<nat>) {
    && (forall t :: 0 <= t < |ticks| ==> ticks[t].listing.Ok?)
    && (ticks != [] && last.Some? ==> ticks[0].clock.monotonic >= last.value + POLL_INTERVAL_MS)
    && (forall t :: 0 < t < |ticks| ==> ticks[t].clock.monotonic >= ticks[t - 1].clock.monotonic + POLL_INTERVAL_MS)
  }

  /** Spaced ticks of a view that may read all poll. */
  lemma {:induction false} SpacedTicksPoll(handles: seq<nat>, start: Snap, ticks: seq<Tick>)
    requires SnapOk(start, |handles|) && Spaced(ticks, start.lastPoll)
    ensures Ticked(true, handles, start, ticks).polls == |ticks|
    ensures ticks != [] ==>
              Ticked(true, handles, start, ticks).snap.lastPoll == Some(ticks[|ticks| - 1].clock.monotonic)
    ensures ticks == [] ==> Ticked(true, handles, start, ticks).snap.lastPoll == start.lastPoll
  {
    hide Served;
    if ticks != [] {
      var rest := ticks[..|ticks| - 1];
      assert forall t :: 0 <= t < |rest| ==> rest[t] == ticks[t];
      SpacedTicksPoll(handles, start, rest);
    }
  }

  lemma Enough(n: nat, polls: nat)
    requires 0 < n <= 4 * polls
    ensures Least(n, 4) * polls >= n
  {
    if n < 4 {
      assert n * polls >= n;
    }
  }

  /**
   * Any run of ticks that list the same n hosts. Its trace is that of the ticks; so no tick makes more than fifteen reads,
   * and once a quarter of n ticks polled, rounded up, every host was polled.
   */
  method Run(view: View, ticks: seq<Tick>) returns (visits: seq<seq<nat>>, calls: seq<seq<Call>>, polls: nat)
    requires view.Valid() && (view.handles == [] || |view.hosts| == |view.handles|)
    requires forall t :: 0 <= t < |ticks| ==> ticks[t].listing.Ok? ==> ticks[t].listing.value == view.handles
    modifies view`now, view`lastPoll, view`handles, view`hosts, view`selected, view`nextHost, view.hosts
    ensures view.Valid() && view.handles == old(view.handles) && view.hosts == old(view.hosts)
    ensures SnapOk(old(view.Taken()), |view.handles|)
    ensures Trace(view.Taken(), visits, calls, polls) ==
            Ticked(view.readable, view.handles, old(view.Taken()), ticks)
    ensures forall t :: 0 <= t < |calls| ==> 1 + SumReads(calls[t]) <= READ_BUDGET
    ensures 4 * polls >= |view.handles| ==> forall i :: 0 <= i < |view.handles| ==> Covers(visits, i)
    ensures view.readable && Spaced(ticks, old(view.lastPoll)) ==> polls == |ticks|
  {
    hide Served, Covers, ActivityHost.Valid, Distinct;
    visits, calls, polls := [], [], 0;
    ghost var handles, start := view.handles, view.Taken();
    assert ticks[..0] == [];
    for t := 0 to |ticks|
      invariant view.Valid() && view.handles == handles && view.hosts == old(view.hosts)
      invariant SnapOk(view.Taken(), |handles|)
      invariant Trace(view.Taken(), visits, calls, polls) == Ticked(view.readable, handles, start, ticks[..t])
    {
      ghost var before := Trace(view.Taken(), visits, calls, polls);
      assert ticks[..t + 1][..t] == ticks[..t];
      var polled, visited, made, used, mid := view.Poll(ticks[t].clock, ticks[t].listing, ticks[t].answer);
      visits, calls, polls := visits + [visited], calls + [made], polls + if polled then 1 else 0;
      assert Trace(view.Taken(), visits, calls, polls) == TickNext(view.readable, handles, before, ticks[t]);
    }
    assert ticks[..|ticks|] == ticks;
    ReadsBounded(view.readable, handles, start, ticks);
    if 4 * polls >= |handles| {
      forall i | 0 <= i < |handles| ensures Covers(visits, i) {
        TicksCover(view.readable, handles, start, ticks, i);
      }
    }
    if view.readable && Spaced(ticks, start.lastPoll) {
      SpacedTicksPoll(handles, start, ticks);
    }
  }
}
