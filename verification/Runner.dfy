/** One routed run: fast phases, packed shards, full-suite fallback, merge. */
module Runner {
  import opened Wrappers
  import opened DiffLines
  import opened Mutants
  import opened Shards
  import opened Components
  import opened Packing
  import opened Outcomes
  import opened Routing

  datatype Route = Route(file: string, functions: Option<set<string>>)

  predicate Matches(route: Route, m: Mutant) {
    && m.file == route.file
    && (route.functions.None? || (m.function_name.Some? && m.function_name.value in route.functions.value))
  }

  /** The first route of the table that takes the mutant. */
  function FastSelector(routes: seq<Route>, m: Mutant, from: nat := 0): Option<nat>
    decreases |routes| - from
  {
    if from >= |routes| then None
    else if Matches(routes[from], m) then Some(from)
    else FastSelector(routes, m, from + 1)
  }

  function TakenBy(routes: seq<Route>, route: nat): Mutant -> bool {
    m => FastSelector(routes, m) == Some(route)
  }

  datatype Label = Fast(index: nat) | ShardRun(index: nat) | FullRun

  /**
   What cargo answers. Any answer is possible: listings are checked against the
   expected mutants, and reports are validated.
   */
  datatype Cargo = Cargo(
    universe: seq<Mutant>,
    fastTests: nat -> bool,
    discover: Label -> seq<Mutant>,
    baselineStatus: int,
    report: Label -> Report,
    status: Label -> int)

  // ----- what cargo is asked, and what it answered -----

  /** A phase: the diff cargo is handed and the mutants it must list and run. */
  datatype Request = Request(phase: Label, text: seq<DiffLine>, expected: seq<Mutant>)
  datatype Ran = Ran(request: Request, entries: map<Mutant, Summary>)

  /** Only the fast phases run selected tests; every other phase runs the full suite. */
  function ScopeOf(phase: Label): Scope {
    if phase.Fast? then Focused else Full
  }

  predicate Listed(cargo: Cargo, q: Request) {
    ExactSet(cargo.discover(q.phase), q.expected)
  }

  predicate Answered(cargo: Cargo, q: Request) {
    ValidReport(cargo.report(q.phase), q.expected, cargo.status(q.phase), ScopeOf(q.phase) == Focused)
  }

  /** A phase that ran: cargo listed its mutants, reported on them validly, and the entries are those of the report. */
  ghost predicate Validated(cargo: Cargo, ran: Ran) {
    && Listed(cargo, ran.request) && Answered(cargo, ran.request)
    && Records(cargo.report(ran.request.phase).outcomes, ran.entries)
    && ran.entries.Keys == Elements(ran.request.expected)
  }

  /**
   A phase that ran, in its report: the baseline's outcome is there in a fast phase and in no other, and each requested mutant
   has one outcome, whose summary is its entry.
   */
  lemma ValidatedMeans(cargo: Cargo, ran: Ran)
    requires Validated(cargo, ran)
    ensures var outcomes := cargo.report(ran.request.phase).outcomes;
      && |BaselinesAt(outcomes)| == (if ran.request.phase.Fast? then 1 else 0)
      && OneOutcomeEach(outcomes, ran.request.expected)
      && (forall m :: m in ran.entries <==> m in ran.request.expected)
      && forall i :: 0 <= i < |outcomes| && outcomes[i].scenario.Mutated? ==>
           var m := outcomes[i].scenario.mutant; m in ran.entries && ran.entries[m] == outcomes[i].summary
  {
    hide ValidReport, OneOutcomeEach, Listed;
    var q, outcomes := ran.request, cargo.report(ran.request.phase).outcomes;
    ReportIff(cargo.report(q.phase), q.expected, cargo.status(q.phase), ScopeOf(q.phase) == Focused);
    forall m ensures m in q.expected <==> m in Elements(q.expected) {}
    forall i | 0 <= i < |outcomes| && outcomes[i].scenario.Mutated?
      ensures var m := outcomes[i].scenario.mutant; m in ran.entries && ran.entries[m] == outcomes[i].summary
    {
      assert outcomes[i] in outcomes;
    }
  }

  function EntriesOf(ran: Ran): Entries {
    WithScope(ran.entries, ScopeOf(ran.request.phase))
  }

  /** Every mutant with the result of the last phase that ran it. */
  function Folded(history: seq<Ran>): Entries {
    if history == [] then map[] else Folded(history[..|history| - 1]) + EntriesOf(history[|history| - 1])
  }

  lemma FoldedNext(history: seq<Ran>, ran: Ran)
    ensures Folded(history + [ran]) == Folded(history) + EntriesOf(ran)
  {
    assert (history + [ran])[..|history|] == history;
  }

  /** The result kept for a mutant is that of one outcome in the report of the last phase that ran it. */
  lemma {:induction false} FoldedFromReport(cargo: Cargo, history: seq<Ran>, m: Mutant) returns (k: nat, o: Outcome)
    requires m in Folded(history) && forall ran :: ran in history ==> Validated(cargo, ran)
    ensures k < |history| && m in history[k].entries
    ensures forall j :: k < j < |history| ==> m !in history[j].entries
    ensures o in cargo.report(history[k].request.phase).outcomes && o.scenario == Mutated(m) && ValidSteps(o)
    ensures Folded(history)[m] == Entry(m, o.summary, ScopeOf(history[k].request.phase))
  {
    hide Validated, ValidSteps;
    var last := |history| - 1;
    if m in history[last].entries {
      k := last;
      o := EntryFromReport(cargo, history[last], m);
    } else {
      k, o := FoldedFromReport(cargo, history[..last], m);
    }
  }

  lemma EntryFromReport(cargo: Cargo, ran: Ran, m: Mutant) returns (o: Outcome)
    requires Validated(cargo, ran) && m in ran.entries
    ensures o in cargo.report(ran.request.phase).outcomes && o.scenario == Mutated(m) && ValidSteps(o)
    ensures ran.entries[m] == o.summary
  {
    hide Listed, ValidSteps;
    o := OutcomeOf(cargo.report(ran.request.phase).outcomes, m);
  }

  lemma {:induction false} OutcomeOf(outcomes: seq<Outcome>, m: Mutant) returns (o: Outcome)
    requires m in Tested(outcomes)
    ensures o in outcomes && o.scenario == Mutated(m)
  {
    var last := outcomes[|outcomes| - 1];
    if last.scenario == Mutated(m) {
      o := last;
    } else {
      o := OutcomeOf(outcomes[..|outcomes| - 1], m);
    }
  }

  /** A result that no later phase may replace. */
  predicate Finished(ran: Ran, m: Mutant) {
    m in ran.entries && IsTerminal(EntriesOf(ran)[m])
  }

  ghost predicate NeverRerun(history: seq<Ran>) {
    forall i, j, m :: 0 <= i < j < |history| && Finished(history[i], m) ==> m !in history[j].entries
  }

  ghost predicate Keeps(planned: Entries, history: seq<Ran>) {
    forall ran, m :: ran in history && Finished(ran, m) ==> m in planned && planned[m] == EntriesOf(ran)[m]
  }

  function WithScope(entries: map<Mutant, Summary>, scope: Scope): Entries {
    map m | m in entries :: Entry(m, entries[m], scope)
  }

  lemma HistoryNext(planned: Entries, history: seq<Ran>, ran: Ran)
    requires NeverRerun(history) && Keeps(planned, history)
    requires ran.entries.Keys !! Terminal(planned).Keys
    ensures NeverRerun(history + [ran])
    ensures Keeps(planned + EntriesOf(ran), history + [ran])
  {
    var longer := history + [ran];
    forall i, j, m | 0 <= i < j < |longer| && Finished(longer[i], m) ensures m !in longer[j].entries {
      if j == |history| {
        assert longer[i] in history;
        assert m in Terminal(planned);
      }
    }
    forall old_, m | old_ in longer && Finished(old_, m)
      ensures m in planned + EntriesOf(ran) && (planned + EntriesOf(ran))[m] == EntriesOf(old_)[m]
    {
      if old_ in history {
        assert m in Terminal(planned);
      }
    }
  }

  /** planned is what the phases so far reported, each result kept from the last, none finished run again. */
  ghost predicate Consistent(cargo: Cargo, changed: LineMap, planned: Entries, history: seq<Ran>) {
    && NeverRerun(history) && Keeps(planned, history) && planned == Folded(history)
    && (forall ran :: ran in history ==> Validated(cargo, ran))
    && forall m :: m in planned ==>
         m in cargo.universe && planned[m].mutant == m && planned[m].summary != Success && Touched(changed, m)
  }

  /** The phase replaced the entries of exactly its own mutants. */
  ghost predicate AddsPhase(before: Entries, after: Entries, ran: set<Mutant>, scope: Scope) {
    && after.Keys == before.Keys + ran
    && (forall m :: m in ran ==> after[m].scope == scope)
    && (forall m :: m in before && m !in ran ==> after[m] == before[m])
  }

  lemma ResolvedIsTerminal(planned: Entries)
    ensures Resolved(planned).Keys <= Terminal(planned).Keys
    ensures forall m :: m in Resolved(planned) ==> IsResolved(Resolved(planned)[m])
  {
  }

  lemma AddPhase(planned: Entries, ran: Ran)
    ensures AddsPhase(planned, planned + EntriesOf(ran), ran.entries.Keys, ScopeOf(ran.request.phase))
  {
  }

  lemma RecordPhase(cargo: Cargo, changed: LineMap, planned: Entries, history: seq<Ran>, ran: Ran)
    requires Consistent(cargo, changed, planned, history) && Validated(cargo, ran) && RealSummaries(ran.entries)
    requires forall m :: m in ran.request.expected ==> m in cargo.universe && Touched(changed, m)
    requires Elements(ran.request.expected) !! Terminal(planned).Keys
    ensures Consistent(cargo, changed, planned + EntriesOf(ran), history + [ran])
  {
    hide Validated, NeverRerun, Keeps, Terminal, Touched;
    KeysOf(cargo, ran);
    HistoryNext(planned, history, ran);
    FoldedNext(history, ran);
    OwnNext(cargo.universe, changed, planned, ran);
    forall done | done in history + [ran] ensures Validated(cargo, done) {}
  }

  /** A phase adds real results of touched mutants, each under its own identity. */
  lemma OwnNext(universe: seq<Mutant>, changed: LineMap, planned: Entries, ran: Ran)
    requires RealSummaries(ran.entries)
    requires forall m :: m in planned ==>
               m in universe && planned[m].mutant == m && planned[m].summary != Success && Touched(changed, m)
    requires forall m :: m in ran.entries ==> m in universe && Touched(changed, m)
    ensures var now := planned + EntriesOf(ran);
      forall m :: m in now ==> m in universe && now[m].mutant == m && now[m].summary != Success && Touched(changed, m)
  {
    hide Touched;
  }

  lemma KeysOf(cargo: Cargo, ran: Ran)
    requires Validated(cargo, ran)
    ensures ran.entries.Keys == Elements(ran.request.expected)
  {
  }

  datatype FastPhase = FastPhase(route: nat, selection: Selection)

  /** The routes that can select a mutant of their own. */
  function FastRoutes(universe: seq<Mutant>, changed: LineMap, routes: seq<Route>, n: nat): seq<nat>
    requires n <= |routes|
  {
    if n == 0 then []
    else
      var before := FastRoutes(universe, changed, routes, n - 1);
      if Expected(changed, universe, TakenBy(routes, n - 1), universe) == [] then before else before + [n - 1]
  }

  function RoutesOf(phases: seq<FastPhase>): seq<nat> {
    seq(|phases|, i requires 0 <= i < |phases| => phases[i].route)
  }

  /** One phase for each such route in table order, each with a diff that selects its mutants. */
  ghost predicate FastPhases(repo: Repo, universe: seq<Mutant>, changed: LineMap, routes: seq<Route>, n: nat,
                             phases: seq<FastPhase>)
    requires n <= |routes|
  {
    && RoutesOf(phases) == FastRoutes(universe, changed, routes, n)
    && (forall i, j :: 0 <= i < j < |phases| ==> phases[i].route < phases[j].route)
    && forall p :: p in phases ==>
         && p.route < n && p.selection.expected == Expected(changed, universe, TakenBy(routes, p.route), universe)
         && IsSelection(repo, changed, universe, TakenBy(routes, p.route), p.selection)
  }

  lemma FastPhaseNext(repo: Repo, universe: seq<Mutant>, changed: LineMap, routes: seq<Route>, route: nat,
                      phases: seq<FastPhase>, selection: Selection)
    requires route < |routes| && FastPhases(repo, universe, changed, routes, route, phases)
    requires IsSelection(repo, changed, universe, TakenBy(routes, route), selection)
    ensures FastPhases(repo, universe, changed, routes, route + 1,
                       if selection.expected == [] then phases else phases + [FastPhase(route, selection)])
  {
    hide Expected, TakenBy, IsSelection;
    SelectionExpects(repo, universe, changed, TakenBy(routes, route), selection);
    assert RoutesOf(phases + [FastPhase(route, selection)]) == RoutesOf(phases) + [route];
  }

  lemma SelectionExpects(repo: Repo, universe: seq<Mutant>, changed: LineMap, pred: Mutant -> bool, selection: Selection)
    requires IsSelection(repo, changed, universe, pred, selection)
    ensures selection.expected == Expected(changed, universe, pred, universe)
  {
  }

  ghost predicate TakenEarlier(routes: seq<Route>, phases: seq<FastPhase>, m: Mutant) {
    exists p :: p in phases && TakenBy(routes, p.route)(m)
  }

  /** A fast phase selects mutants of its own route only, so fast phases never overlap. */
  lemma FastPhaseMembers(repo: Repo, universe: seq<Mutant>, changed: LineMap, routes: seq<Route>, phases: seq<FastPhase>,
                         i: nat)
    requires FastPhases(repo, universe, changed, routes, |routes|, phases) && i < |phases|
    ensures forall m :: m in phases[i].selection.expected ==>
      && m in universe && Touched(changed, m) && TakenBy(routes, phases[i].route)(m)
      && !TakenEarlier(routes, phases[..i], m)
  {
    var pred := TakenBy(routes, phases[i].route);
    assert phases[i] in phases;
    ExpectedMembers(changed, universe, pred, universe);
    forall m | m in phases[i].selection.expected
      ensures TakenBy(routes, phases[i].route)(m) && !TakenEarlier(routes, phases[..i], m)
    {
      SelectedSatisfies(changed, universe, pred, m);
      forall p | p in phases[..i] ensures p.route != phases[i].route {
        var k :| 0 <= k < i && phases[k] == p;
      }
    }
  }

  /** The route names the mutant's file, and its function if it names any, and no route before it does. */
  ghost predicate FirstRoute(routes: seq<Route>, m: Mutant, r: nat) {
    && r < |routes| && Names(routes[r], m) && forall k :: 0 <= k < r ==> !Names(routes[k], m)
  }

  predicate Names(route: Route, m: Mutant) {
    route.file == m.file &&
    match route.functions
    case None => true
    case Some(functions) => m.function_name.Some? && m.function_name.value in functions
  }

  lemma {:induction false} SelectorIsFirst(routes: seq<Route>, m: Mutant, from: nat, r: nat)
    requires forall k :: 0 <= k < from && k < |routes| ==> !Names(routes[k], m)
    ensures FastSelector(routes, m, from) == Some(r) && from <= r <==> FirstRoute(routes, m, r) && from <= r
    decreases |routes| - from
  {
    if from < |routes| && !Matches(routes[from], m) {
      SelectorIsFirst(routes, m, from + 1, r);
      SelectorFrom(routes, m, from + 1);
    }
  }

  lemma {:induction false} SelectorFrom(routes: seq<Route>, m: Mutant, from: nat)
    ensures FastSelector(routes, m, from).Some? ==> from <= FastSelector(routes, m, from).value < |routes|
    decreases |routes| - from
  {
    if from < |routes| {
      SelectorFrom(routes, m, from + 1);
    }
  }

  /** The mutant is on an affected line of which every mutant has this first route. */
  ghost predicate OwnLine(changed: LineMap, universe: seq<Mutant>, routes: seq<Route>, m: Mutant, r: nat) {
    exists line :: m.file in changed && line in changed[m.file] && m.start <= line <= m.end &&
                   forall x :: x in universe && x.file == m.file && x.start <= line <= x.end ==> FirstRoute(routes, x, r)
  }

  lemma OwnLineSelects(changed: LineMap, universe: seq<Mutant>, routes: seq<Route>, m: Mutant, r: nat)
    ensures OwnLine(changed, universe, routes, m, r) <==> Selects(changed, universe, TakenBy(routes, r), m)
  {
    hide FirstRoute, FastSelector;
    forall x ensures TakenBy(routes, r)(x) <==> FirstRoute(routes, x, r) {
      SelectorIsFirst(routes, x, 0, r);
    }
    if OwnLine(changed, universe, routes, m, r) {
      var line: nat :| m.file in changed && line in changed[m.file] && m.start <= line <= m.end &&
        forall x :: x in universe && x.file == m.file && x.start <= line <= x.end ==> FirstRoute(routes, x, r);
      assert line in Lines(changed, m.file) && Overlaps(m, line);
      forall x | x in universe && On(x, m.file, line) ensures TakenBy(routes, r)(x) {}
    }
    if Selects(changed, universe, TakenBy(routes, r), m) {
      var line: nat :| line in Lines(changed, m.file) && Overlaps(m, line)
                       && forall x :: x in universe && On(x, m.file, line) ==> TakenBy(routes, r)(x);
      forall x | x in universe && x.file == m.file && x.start <= line <= x.end ensures FirstRoute(routes, x, r) {
        assert On(x, m.file, line);
      }
    }
  }

  lemma {:induction false} FastRoutesAre(universe: seq<Mutant>, changed: LineMap, routes: seq<Route>, n: nat)
    requires n <= |routes|
    ensures forall r: nat :: r in FastRoutes(universe, changed, routes, n) <==>
              r < n && Expected(changed, universe, TakenBy(routes, r), universe) != []
  {
    hide Expected;
    if n > 0 {
      FastRoutesAre(universe, changed, routes, n - 1);
    }
  }

  /** There is a fast phase for each route with a mutant on a line of its own, and its mutants are those. */
  lemma FastPhasesMean(repo: Repo, universe: seq<Mutant>, changed: LineMap, routes: seq<Route>, phases: seq<FastPhase>, m: Mutant)
    requires FastPhases(repo, universe, changed, routes, |routes|, phases)
    ensures forall p :: p in phases ==>
      (m in p.selection.expected <==> m in universe && OwnLine(changed, universe, routes, m, p.route))
    ensures forall r: nat :: r < |routes| && m in universe && OwnLine(changed, universe, routes, m, r) ==>
      exists p :: p in phases && p.route == r
  {
    hide OwnLine, Selects, Expected, TakenBy, IsSelection, FastRoutes;
    forall p | p in phases
      ensures m in p.selection.expected <==> m in universe && OwnLine(changed, universe, routes, m, p.route)
    {
      ExpectedMembers(changed, universe, TakenBy(routes, p.route), universe);
      OwnLineSelects(changed, universe, routes, m, p.route);
    }
    FastRoutesAre(universe, changed, routes, |routes|);
    forall r: nat | r < |routes| && m in universe && OwnLine(changed, universe, routes, m, r)
      ensures exists p :: p in phases && p.route == r
    {
      ExpectedMembers(changed, universe, TakenBy(routes, r), universe);
      OwnLineSelects(changed, universe, routes, m, r);
      assert r in RoutesOf(phases);
      var i :| 0 <= i < |phases| && RoutesOf(phases)[i] == r;
      assert phases[i] in phases;
    }
  }

  lemma TakenNext(routes: seq<Route>, phases: seq<FastPhase>, i: nat)
    requires i < |phases|
    ensures forall m :: TakenEarlier(routes, phases[..i], m) ==> TakenEarlier(routes, phases[..i + 1], m)
    ensures forall m :: TakenBy(routes, phases[i].route)(m) ==> TakenEarlier(routes, phases[..i + 1], m)
  {
    assert phases[..i + 1] == phases[..i] + [phases[i]];
  }

  lemma ShardMembers(repo: Repo, changed: LineMap, universe: seq<Mutant>, shard: Shard)
    requires IsShard(repo, changed, universe, shard)
    ensures forall m :: m in shard.group ==> m in universe && Touched(changed, m)
  {
    var pred := In(Elements(shard.group));
    ExpectedMembers(changed, universe, pred, universe);
    forall m | m in shard.group ensures m in universe && Touched(changed, m) {
      assert m in Elements(Expected(changed, universe, pred, universe));
    }
  }

  /** Mutants that no phase since before has run are no more finished than they were. */
  lemma StillOpen(before: Entries, now: Entries, ran: set<Mutant>, group: set<Mutant>)
    requires AddsPhase(before, now, ran, Full) && ran !! group && group !! Terminal(before).Keys
    ensures group !! Terminal(now).Keys
  {
  }

  lemma AddsTwice(a: Entries, b: Entries, c: Entries, first: set<Mutant>, second: set<Mutant>)
    requires AddsPhase(a, b, first, Full) && AddsPhase(b, c, second, Full)
    ensures AddsPhase(a, c, first + second, Full)
  {
  }

  /** A full-suite result for exactly the mutants the planned phases left unfinished. */
  ghost predicate Completes(universe: seq<Mutant>, planned: Entries, full: Entries) {
    && full.Keys == Elements(universe) - Terminal(planned).Keys
    && forall m :: m in full ==> full[m].mutant == m && full[m].scope == Full && full[m].summary != Success
  }

  lemma FullCompletes(changed: LineMap, universe: seq<Mutant>, planned: Entries, fallback: Fallback,
                      entries: map<Mutant, Summary>)
    requires IsFallback(changed, universe, planned, fallback) && OwnEntries(planned)
    requires entries.Keys == Elements(fallback.expected) && forall m :: m in entries ==> entries[m] != Success
    ensures Completes(universe, planned, fallback.retained + WithScope(entries, Full))
  {
    forall m ensures m in fallback.retained || m in entries <==> Unfinished(universe, planned, m) {
      assert m in entries <==> m in fallback.expected;
    }
  }

  /** Every mutant once, under its own identity; misses and timeouts come from full-suite runs. */
  ghost predicate Scores(universe: seq<Mutant>, merged: Entries) {
    && merged.Keys == Elements(universe)
    && forall m :: m in merged ==>
         && merged[m].mutant == m && merged[m].summary != Success
         && (merged[m].summary in {MissedMutant, Timeout} ==> merged[m].scope == Full)
  }

  lemma MergedScores(universe: seq<Mutant>, planned: Entries, full: Entries)
    requires Completes(universe, planned, full)
    requires forall m :: m in planned ==> m in universe && planned[m].mutant == m && planned[m].summary != Success
    ensures Scores(universe, Terminal(planned) + full)
  {
  }

  /** Packed shards hold only mutants that the fast phases did not resolve. */
  lemma PackedOpen(repo: Repo, changed: LineMap, universe: seq<Mutant>, remainder: seq<Mutant>, size: int,
                   fast: Entries, p: Pack)
    requires IsPacking(repo, changed, universe, remainder, size, p)
    requires forall m :: m in remainder <==> m in universe && m !in Resolved(fast)
    requires forall m :: m in fast ==> fast[m].scope == Focused
    ensures Distinct(Flat(Groups(p.shards)))
    ensures forall m :: m in Flat(Groups(p.shards)) ==> m in universe && m in remainder && m !in Terminal(fast)
  {
    DistinctParts(Flat(Groups(p.shards)), p.leftover);
    forall m | m in Flat(Groups(p.shards)) ensures m in remainder {
      assert m in Elements(Flat(Groups(p.shards)) + p.leftover);
    }
  }

  /** Because components are never split, an unfinished neighbour of a shard ran with it. */
  lemma PhasesLeave(repo: Repo, changed: LineMap, universe: seq<Mutant>, remainder: seq<Mutant>, size: int,
                    fast: Entries, planned: Entries, p: Pack)
    requires IsPacking(repo, changed, universe, remainder, size, p)
    requires forall m :: m in remainder <==> m in universe && m !in Resolved(fast)
    requires forall m :: m in fast ==> fast[m].scope == Focused
    requires AddsPhase(fast, planned, Elements(Flat(Groups(p.shards))), Full)
    requires forall m :: m in planned ==>
      m in universe && planned[m].mutant == m && planned[m].summary != Success && Touched(changed, m)
    ensures AfterPhases(changed, universe, planned)
  {
    PackedOpen(repo, changed, universe, remainder, size, fast, p);
    FlatMembers(Groups(p.shards));
    forall a, b | a in planned && planned[a].scope == Full && Unfinished(universe, planned, b) && Shares(changed, a, b)
      ensures b in planned && planned[b].scope == Full
    {
      var g :| g in Groups(p.shards) && a in g;
      assert a in Elements(g);
      if b in remainder {
        assert b in Elements(remainder);
        assert b in Elements(g);
        assert b in Flat(Groups(p.shards));
      }
    }
  }

  // ----- the plan of a run -----

  /** What a run computes on its way: its fast phases, its shards once packed, and its fallback once selected. */
  datatype Plan = Plan(phases: seq<FastPhase>, pack: Option<Pack>, fallback: Option<Fallback>)

  function FastRequests(phases: seq<FastPhase>): seq<Request> {
    seq(|phases|, i requires 0 <= i < |phases| =>
      Request(Fast(i), phases[i].selection.text, phases[i].selection.expected))
  }

  function ShardRequests(shards: seq<Shard>): seq<Request> {
    seq(|shards|, i requires 0 <= i < |shards| => Request(ShardRun(i), shards[i].text, shards[i].group))
  }

  function FullRequests(f: Fallback): seq<Request> {
    if f.expected == [] then [] else [Request(FullRun, f.text, f.expected)]
  }

  function PlannedRequests(plan: Plan): seq<Request> {
    FastRequests(plan.phases) + if plan.pack.Some? then ShardRequests(plan.pack.value.shards) else []
  }

  /** The phases cargo is asked to run, in order, as far as they are known. */
  function Requests(plan: Plan): seq<Request> {
    PlannedRequests(plan) + if plan.fallback.Some? then FullRequests(plan.fallback.value) else []
  }

  /** The phases that ran are the first of the plan. */
  ghost predicate Follows(history: seq<Ran>, requests: seq<Request>) {
    |history| <= |requests| && forall i :: 0 <= i < |history| ==> history[i].request == requests[i]
  }

  /**
   The plan is the one the results call for: a fast phase for each route, a packing of what the fast phases left
   unresolved, and a fallback for what the shards left unfinished.
   */
  ghost predicate PlanOk(repo: Repo, changed: LineMap, universe: seq<Mutant>, routes: seq<Route>, size: int, plan: Plan,
                         history: seq<Ran>) {
    && FastPhases(repo, universe, changed, routes, |routes|, plan.phases)
    && Follows(history, Requests(plan))
    && (plan.pack.Some? ==>
          && |plan.phases| <= |history|
          && IsPacking(repo, changed, universe, Without(universe, Resolved(Folded(history[..|plan.phases|]))), size,
                       plan.pack.value))
    && (plan.fallback.Some? ==>
          && plan.pack.Some? && |PlannedRequests(plan)| <= |history|
          && IsFallback(changed, universe, Folded(history[..|PlannedRequests(plan)|]), plan.fallback.value)
          && SelectsApart(repo, changed, universe, Folded(history[..|PlannedRequests(plan)|]), plan.fallback.value.text))
  }

  /** Why a run stops: its input, or the one answer of cargo that it could not use. */
  ghost predicate Caused(e: RouteError, repo: Repo, changed: LineMap, size: int, cargo: Cargo, plan: Option<Plan>,
                         history: seq<Ran>) {
    match e
    case Pack(SourceMismatch) => !InSource(repo, changed)
    case Pack(BadSize) => size < 1
    case BadUniverse => !Indexable(cargo.universe)
    case SelectorFailed => plan.Some? && exists p :: p in plan.value.phases && !cargo.fastTests(p.route)
    case DiscoveryMismatch => plan.Some? && exists q :: q in Requests(plan.value) && !Listed(cargo, q)
    case BaselineFailed => cargo.baselineStatus != 0
    case BadPhase =>
      plan.Some? && |history| < |Requests(plan.value)| && !Answered(cargo, Requests(plan.value)[|history|])
    case FallbackOmitted => exists m :: m in cargo.universe && !Touched(changed, m)
    case _ => false
  }

  /** Every question of the plan has the answer it needs. */
  ghost predicate Cooperates(cargo: Cargo, plan: Plan) {
    && cargo.baselineStatus == 0 && (forall p :: p in plan.phases ==> cargo.fastTests(p.route))
    && forall q :: q in Requests(plan) ==> Listed(cargo, q) && Answered(cargo, q)
  }

  /** Inputs that the router takes, with every mutant on an affected line, and every answer the plan needs. */
  ghost predicate InOrder(repo: Repo, changed: LineMap, size: int, cargo: Cargo, plan: Option<Plan>) {
    && Indexable(cargo.universe) && InSource(repo, changed) && size >= 1
    && (forall m :: m in cargo.universe ==> Touched(changed, m))
    && cargo.baselineStatus == 0 && (plan.Some? ==> Cooperates(cargo, plan.value))
  }

  /** The mutants of a diff as cargo-mutants lists them: those on its affected lines, but for those it is told to skip. */
  ghost predicate ListsDiff(cargo: Cargo, q: Request, skipped: Entries) {
    var listed := cargo.discover(q.phase);
    && Indexable(listed)
    && forall m :: m in listed <==> m in cargo.universe && Touched(Affected(q.text), m) && m !in skipped
  }

  /** The fallback's listing skips what the planned phases resolved. */
  function Skipped(plan: Plan, history: seq<Ran>, phase: Label): Entries {
    if phase.FullRun? && |PlannedRequests(plan)| <= |history| then Resolved(Folded(history[..|PlannedRequests(plan)|]))
    else map[]
  }

  /** As in order, with source lines none of which looks like a header, and listings that only need be true to the diffs. */
  ghost predicate WellListed(repo: Repo, changed: LineMap, size: int, cargo: Cargo, plan: Option<Plan>, history: seq<Ran>) {
    && Indexable(cargo.universe) && InSource(repo, changed) && !HeaderLike(repo, changed) && size >= 1
    && (forall m :: m in cargo.universe ==> Touched(changed, m))
    && cargo.baselineStatus == 0
    && (plan.Some? ==>
          && (forall p :: p in plan.value.phases ==> cargo.fastTests(p.route))
          && forall q :: q in Requests(plan.value) ==>
               ListsDiff(cargo, q, Skipped(plan.value, history, q.phase)) && Answered(cargo, q))
  }

  /** A listing true to a selection's diff has the mutants the selection expects, less the skipped. */
  lemma ListedBySelection(repo: Repo, changed: LineMap, cargo: Cargo, pred: Mutant -> bool, s: Selection, q: Request,
                          skipped: Entries)
    requires InSource(repo, changed) && !HeaderLike(repo, changed)
    requires IsSelection(repo, changed, cargo.universe, pred, s) && q.text == s.text
    requires ListsDiff(cargo, q, skipped) && Indexable(q.expected)
    requires forall m :: m in q.expected <==> m in s.expected && m !in skipped
    ensures Listed(cargo, q)
  {
    hide Affected, Touched, Chosen, Indexable, HeaderLike, InSource, Selects;
    ChosenHeaders(repo, changed, cargo.universe, pred);
    ExpectedMembers(changed, cargo.universe, pred, cargo.universe);
    forall m ensures m in cargo.discover(q.phase) <==> m in q.expected {
      if m in cargo.universe {
        SelectionTouches(repo, changed, cargo.universe, pred, s, m);
      }
    }
  }

  lemma ExpectedIndexable(changed: LineMap, universe: seq<Mutant>, pred: Mutant -> bool)
    requires Indexable(universe)
    ensures Indexable(Expected(changed, universe, pred, universe))
  {
    ExpectedMembers(changed, universe, pred, universe);
  }

  lemma FastListed(repo: Repo, changed: LineMap, cargo: Cargo, routes: seq<Route>, phases: seq<FastPhase>, i: nat)
    requires Indexable(cargo.universe) && InSource(repo, changed) && !HeaderLike(repo, changed)
    requires FastPhases(repo, cargo.universe, changed, routes, |routes|, phases) && i < |phases|
    requires ListsDiff(cargo, FastRequests(phases)[i], map[])
    ensures Listed(cargo, FastRequests(phases)[i])
  {
    hide ListsDiff, Listed, Indexable, IsSelection, InSource, HeaderLike, Expected;
    var p := phases[i];
    assert p in phases;
    ExpectedIndexable(changed, cargo.universe, TakenBy(routes, p.route));
    ListedBySelection(repo, changed, cargo, TakenBy(routes, p.route), p.selection, FastRequests(phases)[i], map[]);
  }

  lemma ShardListed(repo: Repo, changed: LineMap, cargo: Cargo, remainder: seq<Mutant>, size: int, p: Pack, i: nat)
    requires Indexable(cargo.universe) && InSource(repo, changed) && !HeaderLike(repo, changed)
    requires IsPacking(repo, changed, cargo.universe, remainder, size, p) && i < |p.shards|
    requires forall m :: m in remainder ==> m in cargo.universe
    requires ListsDiff(cargo, ShardRequests(p.shards)[i], map[])
    ensures Listed(cargo, ShardRequests(p.shards)[i])
  {
    hide ListsDiff, Listed, IsSelection, InSource, HeaderLike, Expected, Splits, Flat, Indexable, Closed, FitsOrSingle;
    var shard := p.shards[i];
    assert shard in p.shards && Groups(p.shards)[i] == shard.group;
    var pred := In(Elements(shard.group));
    var expected := Expected(changed, cargo.universe, pred, cargo.universe);
    DistinctParts(Flat(Groups(p.shards)), p.leftover);
    NextBucket(Groups(p.shards), i);
    ExpectedMembers(changed, cargo.universe, pred, cargo.universe);
    forall m ensures m in shard.group <==> m in expected {
      assert m in Elements(shard.group) <==> m in Elements(expected);
    }
    SubsetNames(cargo.universe, shard.group);
    ListedBySelection(repo, changed, cargo, pred, Selection(shard.text, expected), ShardRequests(p.shards)[i], map[]);
  }

  lemma FullListed(repo: Repo, changed: LineMap, cargo: Cargo, planned: Entries, f: Fallback)
    requires Indexable(cargo.universe) && InSource(repo, changed) && !HeaderLike(repo, changed)
    requires IsFallback(changed, cargo.universe, planned, f) && f.expected != []
    requires SelectsApart(repo, changed, cargo.universe, planned, f.text)
    requires ListsDiff(cargo, FullRequests(f)[0], Resolved(planned))
    ensures Listed(cargo, FullRequests(f)[0])
  {
    hide ListsDiff, Listed, IsSelection, InSource, HeaderLike, Expected, Indexable, Selects;
    var keep := NotIn(Excluded(planned));
    var expected := Expected(changed, cargo.universe, keep, cargo.universe);
    ExpectedMembers(changed, cargo.universe, keep, cargo.universe);
    forall m ensures m in f.expected <==> m in expected && m !in Resolved(planned) {
      if m in expected {
        SelectedSatisfies(changed, cargo.universe, keep, m);
      }
    }
    ListedBySelection(repo, changed, cargo, keep, Selection(f.text, expected), FullRequests(f)[0], Resolved(planned));
  }

  /** A run is in order when every listing is true to its diff: no agreement with the router's own selection is assumed. */
  lemma WellListedInOrder(repo: Repo, changed: LineMap, cargo: Cargo, routes: seq<Route>, size: int, plan: Option<Plan>,
                          history: seq<Ran>)
    requires plan.Some? ==> PlanOk(repo, changed, cargo.universe, routes, size, plan.value, history)
    requires WellListed(repo, changed, size, cargo, plan, history)
    ensures InOrder(repo, changed, size, cargo, plan)
  {
    hide ListsDiff, Listed, Answered, InSource, HeaderLike, Indexable, FastPhases, IsPacking, IsFallback, SelectsApart, Touched;
    if plan.Some? {
      forall q | q in Requests(plan.value) ensures Listed(cargo, q) {
        RequestListed(repo, changed, cargo, routes, size, plan.value, history, q);
      }
    }
  }

  lemma RequestListed(repo: Repo, changed: LineMap, cargo: Cargo, routes: seq<Route>, size: int, plan: Plan,
                      history: seq<Ran>, q: Request)
    requires PlanOk(repo, changed, cargo.universe, routes, size, plan, history) && q in Requests(plan)
    requires Indexable(cargo.universe) && InSource(repo, changed) && !HeaderLike(repo, changed)
    requires ListsDiff(cargo, q, Skipped(plan, history, q.phase))
    ensures Listed(cargo, q)
  {
    hide ListsDiff, Listed, InSource, HeaderLike, Indexable, FastPhases, IsPacking, IsFallback, SelectsApart, Follows, Folded,
      Resolved;
    if q in FastRequests(plan.phases) {
      var i :| 0 <= i < |plan.phases| && FastRequests(plan.phases)[i] == q;
      FastListed(repo, changed, cargo, routes, plan.phases, i);
    } else if plan.pack.Some? && q in ShardRequests(plan.pack.value.shards) {
      var pack := plan.pack.value;
      var i :| 0 <= i < |pack.shards| && ShardRequests(pack.shards)[i] == q;
      var resolved := Resolved(Folded(history[..|plan.phases|]));
      WithoutMembers(cargo.universe, resolved);
      ShardListed(repo, changed, cargo, Without(cargo.universe, resolved), size, pack, i);
    } else {
      FullListed(repo, changed, cargo, Folded(history[..|PlannedRequests(plan)|]), plan.fallback.value);
    }
  }

  /** A whole plan whose every phase ran, and the score that its reports give. */
  ghost predicate Completed(cargo: Cargo, plan: Plan, history: seq<Ran>, merged: Entries) {
    && plan.pack.Some? && plan.fallback.Some? && |history| == |Requests(plan)|
    && Cooperates(cargo, plan) && merged == Folded(history)
  }

  /** The phases before the fallback. */
  function BeforeFull(history: seq<Ran>): seq<Ran> {
    if history != [] && history[|history| - 1].request.phase == FullRun then history[..|history| - 1] else history
  }

  /** What the fallback reported; nothing when it did not run. */
  function FullPart(history: seq<Ran>): map<Mutant, Summary> {
    if BeforeFull(history) == history then map[] else history[|history| - 1].entries
  }

  /**
   A mutant keeps what the planned phases found if it was caught, unviable or missed by the full suite, or if it timed out in
   the full suite and shares every affected line it is on with such a miss; else it gets what the full phase found.
   */
  ghost predicate Settles(changed: LineMap, universe: seq<Mutant>, planned: Entries, full: map<Mutant, Summary>,
                          merged: Entries) {
    && (forall m :: m in universe && !NotDone(universe, planned, m) ==>
          m in planned && m in merged && merged[m] == planned[m])
    && (forall m :: m in universe && NotDone(universe, planned, m) && !Retriable(changed, universe, planned, m) ==>
          && m in planned && planned[m].scope == Full && planned[m].summary == Timeout
          && m in merged && merged[m] == planned[m])
    && forall m :: m in universe && NotDone(universe, planned, m) && Retriable(changed, universe, planned, m) ==>
         m in full && m in merged && merged[m] == Entry(m, full[m], Full)
  }

  /** What a run scores, in the results of its phases alone. */
  ghost predicate SettledBy(changed: LineMap, universe: seq<Mutant>, history: seq<Ran>, merged: Entries) {
    Settles(changed, universe, Folded(BeforeFull(history)), FullPart(history), merged)
  }

  lemma SettleAll(changed: LineMap, universe: seq<Mutant>, planned: Entries, f: Fallback, full: map<Mutant, Summary>)
    requires RunsAgain(changed, universe, planned, f) && full.Keys == Elements(f.expected)
    ensures Settles(changed, universe, planned, full, planned + WithScope(full, Full))
  {
    hide Retriable;
    assert forall m :: m in full <==> m in f.expected;
  }

  /** Where the planned phases end in a completed run. */
  lemma PlannedPart(plan: Plan, history: seq<Ran>)
    requires plan.fallback.Some? && Follows(history, Requests(plan)) && |history| == |Requests(plan)|
    ensures BeforeFull(history) == history[..|PlannedRequests(plan)|]
    ensures plan.fallback.value.expected != [] ==>
      && |history| == |PlannedRequests(plan)| + 1 && history[|history| - 1].request.phase == FullRun
      && history[|history| - 1].request.expected == plan.fallback.value.expected
    ensures plan.fallback.value.expected == [] ==> |history| == |PlannedRequests(plan)|
  {
    if plan.fallback.value.expected == [] && history != [] {
      assert history[|history| - 1].request == PlannedRequests(plan)[|history| - 1];
    }
  }

  lemma CompletedSettles(repo: Repo, changed: LineMap, cargo: Cargo, routes: seq<Route>, size: int, plan: Plan,
                         history: seq<Ran>, merged: Entries)
    requires PlanOk(repo, changed, cargo.universe, routes, size, plan, history)
    requires Completed(cargo, plan, history, merged) && forall ran :: ran in history ==> Validated(cargo, ran)
    ensures SettledBy(changed, cargo.universe, history, merged)
  {
    hide Settles, RunsAgain, Validated, FastPhases, IsPacking, SelectsApart, Cooperates, PlannedRequests, IsFallback, Folded;
    var f, n := plan.fallback.value, |PlannedRequests(plan)|;
    var planned := Folded(history[..n]);
    FallbackMeans(changed, cargo.universe, planned, f);
    PlannedPart(plan, history);
    if f.expected == [] {
      assert history[..n] == history;
      assert planned + WithScope(map[], Full) == planned;
      assert Elements<Mutant>([]) == {};
    } else {
      var last := history[n];
      assert history == history[..n] + [last];
      FoldedNext(history[..n], last);
      KeysOf(cargo, last);
    }
    SettleAll(changed, cargo.universe, planned, f, FullPart(history));
  }

  lemma FollowsNext(history: seq<Ran>, requests: seq<Request>, ran: Ran)
    requires Follows(history, requests) && |history| < |requests| && ran.request == requests[|history|]
    ensures Follows(history + [ran], requests)
  {
  }

  /** A run whose plan is completed had every answer it needed. */
  lemma CompletedCooperates(cargo: Cargo, plan: Plan, history: seq<Ran>)
    requires Follows(history, Requests(plan)) && |history| == |Requests(plan)|
    requires forall ran :: ran in history ==> Validated(cargo, ran)
    requires cargo.baselineStatus == 0 && forall p :: p in plan.phases ==> cargo.fastTests(p.route)
    ensures Cooperates(cargo, plan)
  {
    hide Listed, Answered, Requests;
    forall q | q in Requests(plan) ensures Listed(cargo, q) && Answered(cargo, q) {
      var i :| 0 <= i < |history| && Requests(plan)[i] == q;
      assert Validated(cargo, history[i]);
    }
  }

  /** What is merged is what the last phase of each mutant reported. */
  lemma MergedIsFolded(changed: LineMap, universe: seq<Mutant>, planned: Entries, fallback: Fallback, entries: Entries)
    requires IsFallback(changed, universe, planned, fallback) && planned.Keys <= Elements(universe)
    requires entries.Keys == Elements(fallback.expected)
    ensures Terminal(planned) + (fallback.retained + entries) == planned + entries
  {
    var merged, all := Terminal(planned) + (fallback.retained + entries), planned + entries;
    forall m ensures m in merged <==> m in all {
      assert m in entries <==> m in fallback.expected;
      assert m in planned ==> m in Terminal(planned) || Unfinished(universe, planned, m);
    }
  }

  lemma NoFastPhases(repo: Repo, universe: seq<Mutant>, changed: LineMap, routes: seq<Route>)
    ensures FastPhases(repo, universe, changed, routes, 0, [])
  {
  }

  lemma GroupsUpTo(shards: seq<Shard>, i: nat)
    requires i < |shards|
    ensures |Groups(shards)| == |shards| && Groups(shards)[i] == shards[i].group
    ensures Groups(shards)[..i] == Groups(shards[..i]) && Groups(shards)[..i + 1] == Groups(shards[..i + 1])
  {
  }

  /** Some phases more, the first of a list of requests. */
  ghost predicate RanMore(before: seq<Ran>, now: seq<Ran>, requests: seq<Request>) {
    && |before| <= |now| <= |before| + |requests| && now[..|before|] == before
    && forall i :: |before| <= i < |now| ==> now[i].request == requests[i - |before|]
  }

  lemma RanOne(before: seq<Ran>, mid: seq<Ran>, now: seq<Ran>, requests: seq<Request>)
    requires RanMore(before, mid, requests) && |mid| < |before| + |requests|
    requires |now| == |mid| + 1 && now[..|mid|] == mid && now[|mid|].request == requests[|mid| - |before|]
    ensures RanMore(before, now, requests)
  {
    assert now[..|before|] == mid[..|before|];
    assert forall i :: 0 <= i < |mid| ==> now[i] == mid[i];
  }

  /** The plan before anything ran. */
  lemma PlanStarts(repo: Repo, changed: LineMap, universe: seq<Mutant>, routes: seq<Route>, size: int,
                   phases: seq<FastPhase>, history: seq<Ran>)
    requires FastPhases(repo, universe, changed, routes, |routes|, phases) && Follows(history, FastRequests(phases))
    ensures PlanOk(repo, changed, universe, routes, size, Plan(phases, None, None), history)
    ensures Requests(Plan(phases, None, None)) == FastRequests(phases)
  {
  }

  /** The plan with a packing, once the fast phases ran and while the shards do. */
  lemma {:induction false} PlanPacks(repo: Repo, changed: LineMap, universe: seq<Mutant>, routes: seq<Route>, size: int,
                  phases: seq<FastPhase>, pack: Pack, fast: seq<Ran>, history: seq<Ran>)
    requires FastPhases(repo, universe, changed, routes, |routes|, phases)
    requires Follows(fast, FastRequests(phases)) && |fast| == |phases|
    requires IsPacking(repo, changed, universe, Without(universe, Resolved(Folded(fast))), size, pack)
    requires RanMore(fast, history, ShardRequests(pack.shards))
    ensures PlanOk(repo, changed, universe, routes, size, Plan(phases, Some(pack), None), history)
    ensures Requests(Plan(phases, Some(pack), None)) == FastRequests(phases) + ShardRequests(pack.shards)
  {
    hide FastPhases, IsPacking;
    var requests := FastRequests(phases) + ShardRequests(pack.shards);
    assert forall i :: 0 <= i < |fast| ==> history[i] == history[..|fast|][i];
    assert Follows(history, requests);
  }

  /** The plan with a fallback, once every planned phase ran. */
  lemma {:induction false} PlanFallsBack(repo: Repo, changed: LineMap, universe: seq<Mutant>, routes: seq<Route>, size: int,
                      plan: Plan, fallback: Fallback, history: seq<Ran>, more: seq<Ran>)
    requires PlanOk(repo, changed, universe, routes, size, plan, history)
    requires plan.pack.Some? && plan.fallback.None? && |history| == |Requests(plan)|
    requires IsFallback(changed, universe, Folded(history), fallback)
    requires SelectsApart(repo, changed, universe, Folded(history), fallback.text)
    requires RanMore(history, more, FullRequests(fallback))
    ensures PlanOk(repo, changed, universe, routes, size, plan.(fallback := Some(fallback)), more)
    ensures Requests(plan.(fallback := Some(fallback))) == Requests(plan) + FullRequests(fallback)
    ensures Follows(more, Requests(plan.(fallback := Some(fallback))))
  {
    hide FastPhases, IsPacking, IsFallback, SelectsApart, FullRequests;
    var requests := Requests(plan) + FullRequests(fallback);
    assert PlannedRequests(plan) == Requests(plan);
    assert more[..|history|] == history;
    assert more[..|plan.phases|] == history[..|plan.phases|];
    assert forall i :: 0 <= i < |history| ==> more[i] == more[..|history|][i];
    assert Follows(more, requests);
  }

  lemma NothingFull(changed: LineMap, universe: seq<Mutant>, planned: Entries, fallback: Fallback)
    requires IsFallback(changed, universe, planned, fallback) && OwnEntries(planned) && fallback.expected == []
    requires planned.Keys <= Elements(universe)
    ensures Completes(universe, planned, fallback.retained) && Terminal(planned) + fallback.retained == planned
  {
    MergedIsFolded(changed, universe, planned, fallback, map[]);
    FullCompletes(changed, universe, planned, fallback, map[]);
    assert fallback.retained + WithScope(map[], Full) == fallback.retained;
    assert fallback.retained + map[] == fallback.retained && planned + map[] == planned;
  }

  lemma FallbackOpen(changed: LineMap, universe: seq<Mutant>, planned: Entries, fallback: Fallback)
    requires IsFallback(changed, universe, planned, fallback)
    ensures Elements(fallback.expected) !! Terminal(planned).Keys
  {
  }

  /** The fallback is planned; when there is nothing to run, the plan is already completed. */
  lemma FullStarts(repo: Repo, changed: LineMap, cargo: Cargo, routes: seq<Route>, size: int, plan: Plan,
                   fallback: Fallback, history: seq<Ran>, planned: Entries)
    requires Consistent(cargo, changed, planned, history) && PlanOk(repo, changed, cargo.universe, routes, size, plan, history)
    requires plan.pack.Some? && plan.fallback.None? && |history| == |Requests(plan)| && cargo.baselineStatus == 0
    requires forall p :: p in plan.phases ==> cargo.fastTests(p.route)
    requires IsFallback(changed, cargo.universe, planned, fallback)
    requires SelectsApart(repo, changed, cargo.universe, planned, fallback.text)
    ensures PlanOk(repo, changed, cargo.universe, routes, size, plan.(fallback := Some(fallback)), history)
    ensures fallback.expected == [] ==>
      && Completes(cargo.universe, planned, fallback.retained)
      && Completed(cargo, plan.(fallback := Some(fallback)), history, Terminal(planned) + fallback.retained)
  {
    hide IsFallback, SelectsApart, Requests, PlanOk, Validated, NeverRerun, Keeps, Touched, Cooperates, Completes;
    PlanFallsBack(repo, changed, cargo.universe, routes, size, plan, fallback, history, history);
    if fallback.expected == [] {
      NothingFull(changed, cargo.universe, planned, fallback);
      CompletedCooperates(cargo, plan.(fallback := Some(fallback)), history);
    }
  }

  /** What stops the fallback is the last request of the plan. */
  lemma FullStops(repo: Repo, changed: LineMap, size: int, cargo: Cargo, plan: Plan, fallback: Fallback, history: seq<Ran>)
    requires plan.fallback.None? && |history| == |Requests(plan)| && fallback.expected != []
    ensures var q := Request(FullRun, fallback.text, fallback.expected);
            var next := Some(plan.(fallback := Some(fallback)));
      && (!Listed(cargo, q) ==> Caused(DiscoveryMismatch, repo, changed, size, cargo, next, history))
      && (!Answered(cargo, q) ==> Caused(BadPhase, repo, changed, size, cargo, next, history))
  {
    var q, next := Request(FullRun, fallback.text, fallback.expected), plan.(fallback := Some(fallback));
    assert Requests(next) == Requests(plan) + [q];
    assert Requests(next)[|history|] == q && q in Requests(next);
  }

  /** Once the fallback ran, the plan is completed and merges what the last phases reported. */
  lemma FullRan(repo: Repo, changed: LineMap, cargo: Cargo, routes: seq<Route>, size: int, plan: Plan,
                fallback: Fallback, history: seq<Ran>, planned: Entries, ran: Ran)
    requires Consistent(cargo, changed, planned, history) && PlanOk(repo, changed, cargo.universe, routes, size, plan, history)
    requires plan.pack.Some? && plan.fallback.None? && |history| == |Requests(plan)| && cargo.baselineStatus == 0
    requires forall p :: p in plan.phases ==> cargo.fastTests(p.route)
    requires IsFallback(changed, cargo.universe, planned, fallback)
    requires SelectsApart(repo, changed, cargo.universe, planned, fallback.text) && fallback.expected != []
    requires ran.request == Request(FullRun, fallback.text, fallback.expected)
    requires Validated(cargo, ran) && RealSummaries(ran.entries)
    ensures var more, next := history + [ran], plan.(fallback := Some(fallback));
            var full := fallback.retained + EntriesOf(ran);
      && NeverRerun(more) && (forall done :: done in more ==> Validated(cargo, done))
      && PlanOk(repo, changed, cargo.universe, routes, size, next, more)
      && Completes(cargo.universe, planned, full) && Completed(cargo, next, more, Terminal(planned) + full)
  {
    hide IsFallback, SelectsApart, Requests, PlanOk, Validated, NeverRerun, Keeps, Touched, Cooperates, Completes;
    var more, next := history + [ran], plan.(fallback := Some(fallback));
    KeysOf(cargo, ran);
    FallbackOpen(changed, cargo.universe, planned, fallback);
    HistoryNext(planned, history, ran);
    FoldedNext(history, ran);
    assert more[..|history|] == history && more[|history|] == ran;
    assert RanMore(history, more, FullRequests(fallback));
    PlanFallsBack(repo, changed, cargo.universe, routes, size, plan, fallback, history, more);
    assert forall done :: done in more ==> done in history || done == ran;
    CompletedCooperates(cargo, next, more);
    MergedIsFolded(changed, cargo.universe, planned, fallback, EntriesOf(ran));
    FullCompletes(changed, cargo.universe, planned, fallback, ran.entries);
  }

  class Runner {
    const repo: Repo
    const diff: seq<DiffLine>
    const routes: seq<Route>
    const size: int
    const cargo: Cargo
    var planned: Entries
    var plannedDirs: seq<Label>
    ghost var history: seq<Ran>
    ghost var plan: Option<Plan>

    constructor (repo: Repo, diff: seq<DiffLine>, routes: seq<Route>, size: int, cargo: Cargo)
      ensures this.repo == repo && this.diff == diff && this.routes == routes && this.size == size
      ensures this.cargo == cargo
      ensures planned == map[] && plannedDirs == [] && history == [] && plan == None
    {
      this.repo, this.diff, this.routes, this.size, this.cargo := repo, diff, routes, size, cargo;
      planned, plannedDirs, history, plan := map[], [], [], None;
    }

    ghost predicate Valid()
      reads this
    {
      Indexable(cargo.universe) && Consistent(cargo, Affected(diff), planned, history)
    }

    ghost predicate PlanValid()
      reads this
    {
      plan.Some? ==> PlanOk(repo, Affected(diff), cargo.universe, routes, size, plan.value, history)
    }

    ghost predicate Why(e: RouteError)
      reads this
    {
      Caused(e, repo, Affected(diff), size, cargo, plan, history)
    }

    /** The names handed to cargo-mutants for skipping are exactly the resolved ones, without repeats. */
    lemma ResolvedNames()
      requires Valid()
      ensures OneNamePer(Resolved(planned))
    {
      forall a, b | a in Resolved(planned) && b in Resolved(planned) && a != b ensures a.name != b.name {
        if a.name == b.name {
          NamesTellApart(cargo.universe, a, b);
        }
      }
    }

    lemma InOrderIfListed()
      requires PlanValid()
      ensures WellListed(repo, Affected(diff), size, cargo, plan, history) ==>
                InOrder(repo, Affected(diff), size, cargo, plan)
    {
      hide WellListed, InOrder, PlanOk;
      if WellListed(repo, Affected(diff), size, cargo, plan, history) {
        WellListedInOrder(repo, Affected(diff), cargo, routes, size, plan, history);
      }
    }

    /** A phase fails only over an invalid report; else its entries are those of the report. */
    method RunPhase(q: Request) returns (r: Result<map<Mutant, Summary>, RouteError>)
      ensures r.Ok? <==> Answered(cargo, q)
      ensures r.Err? ==> r.error == BadPhase
      ensures r.Ok? ==> Listed(cargo, q) ==> Validated(cargo, Ran(q, r.value))
      ensures r.Ok? ==> r.value.Keys == Elements(q.expected) && RealSummaries(r.value)
    {
      var entries := ValidatePhase(cargo.report(q.phase), q.expected, cargo.status(q.phase), ScopeOf(q.phase) == Focused);
      if entries.Err? {
        return Err(BadPhase);
      }
      r := Ok(entries.value);
    }

    /** The router's own checks never stop a planned phase; it runs, and is recorded, or its report is invalid. */
    method RunPlannedPhase(q: Request, resolved: Entries) returns (r: Result<Entries, RouteError>)
      requires Valid() && resolved == Resolved(planned) && Listed(cargo, q)
      requires forall m :: m in q.expected ==> m in cargo.universe && Touched(Affected(diff), m)
      requires Elements(q.expected) !! Terminal(planned).Keys
      requires ScopeOf(q.phase) == Focused ==> Elements(q.expected) !! planned.Keys
      modifies this`planned, this`plannedDirs, this`history
      ensures Valid()
      ensures r.Ok? <==> Answered(cargo, q)
      ensures r.Err? ==> r.error == BadPhase && history == old(history) && planned == old(planned)
      ensures r.Ok? ==> |history| == |old(history)| + 1 && history[..|old(history)|] == old(history)
      ensures r.Ok? ==> history[|old(history)|].request == q
      ensures r.Ok? ==> planned == old(planned) + EntriesOf(history[|old(history)|])
      ensures r.Ok? ==> AddsPhase(old(planned), planned, Elements(q.expected), ScopeOf(q.phase))
      ensures r.Ok? ==> r.value == Resolved(planned)
    {
      hide Consistent, Validated, Listed, Answered;
      if ScopeOf(q.phase) == Focused && planned.Keys * Elements(q.expected) != {} {
        return Err(FastOverlap);
      }
      ResolvedIsTerminal(planned);
      if resolved.Keys * Elements(q.expected) != {} {
        return Err(RepeatsResolved);
      }
      if plannedDirs != [] {
        ResolvedNames();
        var seed := IterateSeed(resolved);
        if seed.Err? {
          return Err(BadSeed);
        }
      }
      var entries := RunPhase(q);
      if entries.Err? {
        return Err(entries.error);
      }
      ghost var ran, before := Ran(q, entries.value), history;
      RecordPhase(cargo, Affected(diff), planned, history, ran);
      history := history + [ran];
      assert history[..|before|] == before;
      AddPhase(planned, ran);
      planned := planned + WithScope(entries.value, ScopeOf(q.phase));
      plannedDirs := plannedDirs + [q.phase];
      r := Ok(Resolved(planned));
    }

    /** The fast phases: one per route that can select mutants of its own. */
    method SelectFast() returns (r: Result<seq<FastPhase>, RouteError>)
      ensures r.Err? ==> r.error == RouteError.Pack(SourceMismatch) && !InSource(repo, Affected(diff))
      ensures r.Ok? ==> FastPhases(repo, cargo.universe, Affected(diff), routes, |routes|, r.value)
    {
      hide FastPhases, IsSelection, InSource, Chosen, Affected;
      var phases: seq<FastPhase> := [];
      NoFastPhases(repo, cargo.universe, Affected(diff), routes);
      for route := 0 to |routes|
        invariant FastPhases(repo, cargo.universe, Affected(diff), routes, route, phases)
      {
        var selection := SelectDiff(repo, diff, cargo.universe, TakenBy(routes, route));
        if selection.Err? {
          NotInSource(repo, Affected(diff), cargo.universe, TakenBy(routes, route));
          return Err(RouteError.Pack(selection.error));
        }
        FastPhaseNext(repo, cargo.universe, Affected(diff), routes, route, phases, selection.value);
        if selection.value.expected != [] {
          phases := phases + [FastPhase(route, selection.value)];
        }
      }
      r := Ok(phases);
    }

    /** The selector of every fast phase names tests, and cargo lists its mutants. */
    method CheckFast(phases: seq<FastPhase>) returns (r: Result<(), RouteError>)
      ensures r == Err(SelectorFailed) ==> exists p :: p in phases && !cargo.fastTests(p.route)
      ensures r == Err(DiscoveryMismatch) ==> exists q :: q in FastRequests(phases) && !Listed(cargo, q)
      ensures r.Err? ==> r.error in {SelectorFailed, DiscoveryMismatch}
      ensures r.Ok? ==> forall p :: p in phases ==> cargo.fastTests(p.route)
      ensures r.Ok? ==> forall q :: q in FastRequests(phases) ==> Listed(cargo, q)
    {
      for i := 0 to |phases|
        invariant forall k :: 0 <= k < i ==> cargo.fastTests(phases[k].route) && Listed(cargo, FastRequests(phases)[k])
      {
        assert FastRequests(phases)[i] in FastRequests(phases);
        if !cargo.fastTests(phases[i].route) {
          return Err(SelectorFailed);
        }
        if !ExactSet(cargo.discover(Fast(i)), phases[i].selection.expected) {
          return Err(DiscoveryMismatch);
        }
      }
      r := Ok(());
    }

    /** Runs the fast phases in order, each over exactly its mutants, until a report is invalid. */
    method RunFast(phases: seq<FastPhase>) returns (r: Result<Entries, RouteError>)
      requires Valid() && planned == map[] && history == []
      requires FastPhases(repo, cargo.universe, Affected(diff), routes, |routes|, phases)
      requires forall q :: q in FastRequests(phases) ==> Listed(cargo, q)
      modifies this`planned, this`plannedDirs, this`history
      ensures Valid() && Follows(history, FastRequests(phases))
      ensures r.Err? ==> r.error == BadPhase && |history| < |phases| && !Answered(cargo, FastRequests(phases)[|history|])
      ensures r.Ok? ==> |history| == |phases| && r.value == Resolved(planned)
      ensures r.Ok? ==> forall m :: m in planned ==> planned[m].scope == Focused
    {
      hide Listed, Answered, Consistent, FastPhases, TakenEarlier;
      var resolved: Entries := map[];
      for i := 0 to |phases|
        invariant Valid() && resolved == Resolved(planned)
        invariant |history| == i && Follows(history, FastRequests(phases))
        invariant forall m :: m in planned ==> planned[m].scope == Focused && TakenEarlier(routes, phases[..i], m)
      {
        var phase := phases[i];
        FastPhaseMembers(repo, cargo.universe, Affected(diff), routes, phases, i);
        assert Terminal(planned).Keys <= planned.Keys;
        var q := Request(Fast(i), phase.selection.text, phase.selection.expected);
        assert FastRequests(phases)[i] == q;
        ghost var before := history;
        var next := RunPlannedPhase(q, resolved);
        if next.Err? {
          return Err(next.error);
        }
        FollowsNext(before, FastRequests(phases), history[i]);
        assert history == before + [history[i]];
        TakenNext(routes, phases, i);
        resolved := next.value;
      }
      r := Ok(resolved);
    }

    /** Runs every shard in order; afterwards exactly the shard members have full-suite results. */
    method RunShards(shards: seq<Shard>, resolved0: Entries) returns (r: Result<Entries, RouteError>)
      requires Valid() && resolved0 == Resolved(planned)
      requires Distinct(Flat(Groups(shards)))
      requires forall m :: m in Flat(Groups(shards)) ==> m in cargo.universe && m !in Terminal(planned)
      requires forall s :: s in shards ==> IsShard(repo, Affected(diff), cargo.universe, s)
      modifies this`planned, this`plannedDirs, this`history
      ensures Valid() && RanMore(old(history), history, ShardRequests(shards))
      ensures r.Err? ==> r.error in {BadPhase, DiscoveryMismatch} && |history| < |old(history)| + |shards|
      ensures r == Err(BadPhase) ==> !Answered(cargo, ShardRequests(shards)[|history| - |old(history)|])
      ensures r == Err(DiscoveryMismatch) ==> !Listed(cargo, ShardRequests(shards)[|history| - |old(history)|])
      ensures r.Ok? ==> |history| == |old(history)| + |shards|
      ensures r.Ok? ==> AddsPhase(old(planned), planned, Elements(Flat(Groups(shards))), Full)
      ensures r.Ok? ==> r.value == Resolved(planned)
    {
      hide Answered, Consistent, IsShard, Distinct, Touched;
      var resolved := resolved0;
      ghost var before := planned;
      for i := 0 to |shards|
        invariant Valid() && resolved == Resolved(planned)
        invariant |history| == |old(history)| + i && RanMore(old(history), history, ShardRequests(shards))
        invariant AddsPhase(before, planned, Elements(Flat(Groups(shards[..i]))), Full)
      {
        var group := shards[i].group;
        GroupsUpTo(shards, i);
        NextBucket(Groups(shards), i);
        var q := Request(ShardRun(i), shards[i].text, group);
        assert ShardRequests(shards)[i] == q;
        if !ExactSet(cargo.discover(ShardRun(i)), group) {
          return Err(DiscoveryMismatch);
        }
        ShardMembers(repo, Affected(diff), cargo.universe, shards[i]);
        StillOpen(before, planned, Elements(Flat(Groups(shards[..i]))), Elements(group));
        ghost var mid, ran := planned, history;
        var next := RunPlannedPhase(q, resolved);
        if next.Err? {
          return Err(next.error);
        }
        RanOne(old(history), ran, history, ShardRequests(shards));
        AddsTwice(before, mid, planned, Elements(Flat(Groups(shards[..i]))), Elements(group));
        resolved := next.value;
      }
      assert shards[..|shards|] == shards;
      r := Ok(resolved);
    }

    /** Selects and runs the fallback; gives a full-suite result to every unfinished mutant. */
    method RunFallback() returns (r: Result<Entries, RouteError>)
      requires Valid() && AfterPhases(Affected(diff), cargo.universe, planned)
      requires PlanValid() && plan.Some? && plan.value.pack.Some? && plan.value.fallback.None?
      requires |history| == |Requests(plan.value)| && cargo.baselineStatus == 0
      requires forall p :: p in plan.value.phases ==> cargo.fastTests(p.route)
      modifies this`history, this`plan
      ensures NeverRerun(history) && PlanValid() && forall ran :: ran in history ==> Validated(cargo, ran)
      ensures r.Err? ==> Why(r.error)
      ensures r.Ok? ==> forall m :: m in cargo.universe ==> Touched(Affected(diff), m)
      ensures r.Ok? ==> Completes(cargo.universe, planned, r.value) && plan.Some?
      ensures r.Ok? ==> Completed(cargo, plan.value, history, Terminal(planned) + r.value)
    {
      hide IsFallback, AfterPhases, Consistent, Requests, IsPacking, Listed, Answered, FastPhases;
      HistoryOk(cargo, Affected(diff), planned, history);
      OmittedIff(Affected(diff), cargo.universe, planned);
      var fallback := FallbackSelection(repo, diff, cargo.universe, planned);
      if fallback.Err? {
        return Err(fallback.error);
      }
      r := RunFull(fallback.value);
    }

    method RunFull(fallback: Fallback) returns (r: Result<Entries, RouteError>)
      requires Valid() && IsFallback(Affected(diff), cargo.universe, planned, fallback)
      requires SelectsApart(repo, Affected(diff), cargo.universe, planned, fallback.text)
      requires PlanValid() && plan.Some? && plan.value.pack.Some? && plan.value.fallback.None?
      requires |history| == |Requests(plan.value)| && cargo.baselineStatus == 0
      requires forall p :: p in plan.value.phases ==> cargo.fastTests(p.route)
      modifies this`history, this`plan
      ensures NeverRerun(history) && PlanValid() && forall ran :: ran in history ==> Validated(cargo, ran)
      ensures r.Err? ==> r.error in {DiscoveryMismatch, BadPhase} && Why(r.error)
      ensures r.Ok? ==> Completes(cargo.universe, planned, r.value) && plan.Some?
      ensures r.Ok? ==> Completed(cargo, plan.value, history, Terminal(planned) + r.value)
    {
      hide Consistent, Completes, Completed, IsFallback, SelectsApart, Requests, IsPacking, Answered, FastPhases, PlanOk,
        Folded, Touched, Validated, Caused, NeverRerun, OneNamePer;
      HistoryOk(cargo, Affected(diff), planned, history);
      ghost var before, old_ := history, plan.value;
      plan := Some(old_.(fallback := Some(fallback)));
      FullStarts(repo, Affected(diff), cargo, routes, size, old_, fallback, before, planned);
      if fallback.expected == [] {
        return Ok(fallback.retained);
      }
      if plannedDirs != [] {
        ResolvedNames();
        ResolvedIsTerminal(planned);
        var seed := IterateSeed(Resolved(planned));
        if seed.Err? {
          return Err(BadSeed);
        }
      }
      var q := Request(FullRun, fallback.text, fallback.expected);
      FullStops(repo, Affected(diff), size, cargo, old_, fallback, before);
      if !ExactSet(cargo.discover(FullRun), fallback.expected) {
        return Err(DiscoveryMismatch);
      }
      var entries := RunPhase(q);
      if entries.Err? {
        return Err(entries.error);
      }
      ghost var ran := Ran(q, entries.value);
      FullRan(repo, Affected(diff), cargo, routes, size, old_, fallback, before, planned, ran);
      history := history + [ran];
      r := Ok(fallback.retained + WithScope(entries.value, Full));
    }

    /**
     A whole run. Whatever cargo answers, the router's own consistency errors are unreachable and every error has its
     cause: an input the router cannot take, or the answer to one question of its plan. What ran is the first of the plan,
     each phase with a listing and a report that were checked, nothing finished run again. A run that succeeds completed
     the plan, and merges for every mutant the outcome that the last phase to run it reported, with misses and timeouts
     from full-suite phases.
     */
    method Run() returns (r: Result<Entries, RouteError>)
      requires planned == map[] && plannedDirs == [] && history == [] && plan == None
      modifies this
      ensures NeverRerun(history) && PlanValid() && forall ran :: ran in history ==> Validated(cargo, ran)
      ensures r.Err? ==> Why(r.error)
      ensures r.Ok? && diff != [] && cargo.universe != [] ==>
        && Indexable(cargo.universe) && plan.Some? && Completed(cargo, plan.value, history, r.value)
        && Scores(cargo.universe, r.value) && (forall m :: m in cargo.universe ==> Touched(Affected(diff), m))
        && SettledBy(Affected(diff), cargo.universe, history, r.value)
      ensures diff == [] || cargo.universe == [] ==> r == Ok(map[])
      ensures InOrder(repo, Affected(diff), size, cargo, plan) ==> r.Ok?
      ensures WellListed(repo, Affected(diff), size, cargo, plan, history) ==> r.Ok?
    {
      hide Consistent, Validated, PlanOk, Cooperates, Requests, InSource, Touched, Scores, Completed, Caused, InOrder,
        WellListed, SettledBy;
      if diff == [] {
        return Ok(map[]);
      }
      if !Indexable(cargo.universe) {
        BadUniverseCauses(repo, Affected(diff), size, cargo);
        CausedIsDisorder(BadUniverse, repo, Affected(diff), size, cargo, None, []);
        InOrderIfListed();
        return Err(BadUniverse);
      }
      if cargo.universe == [] {
        return Ok(map[]);
      }
      NothingRan(cargo, Affected(diff));
      var phased := RunPlanned();
      HistoryOk(cargo, Affected(diff), planned, history);
      if phased.Err? {
        CausedIsDisorder(phased.error, repo, Affected(diff), size, cargo, plan, history);
        InOrderIfListed();
        return Err(phased.error);
      }
      var full := RunFallback();
      if full.Err? {
        CausedIsDisorder(full.error, repo, Affected(diff), size, cargo, plan, history);
        InOrderIfListed();
        return Err(full.error);
      }
      MergedScores(cargo.universe, planned, full.value);
      r := MergeOutcomes(cargo.universe, planned, full.value, cargo.baselineStatus);
      CompletedSettles(repo, Affected(diff), cargo, routes, size, plan.value, history, r.value);
    }

    /** Fast phases, then shards of the remainder. */
    method RunPlanned() returns (r: Result<(), RouteError>)
      requires Valid() && planned == map[] && history == [] && plan == None
      modifies this
      ensures Valid() && PlanValid()
      ensures r.Err? ==> Why(r.error)
      ensures r.Ok? ==> AfterPhases(Affected(diff), cargo.universe, planned) && cargo.baselineStatus == 0
      ensures r.Ok? ==>
        && plan.Some? && plan.value.pack.Some? && plan.value.fallback.None? && |history| == |Requests(plan.value)|
        && forall p :: p in plan.value.phases ==> cargo.fastTests(p.route)
    {
      hide Consistent, FastPhases, PlanOk, Listed, Answered, InSource, Requests;
      var phases := SelectFast();
      if phases.Err? {
        return Err(phases.error);
      }
      plan := Some(Plan(phases.value, None, None));
      PlanStarts(repo, Affected(diff), cargo.universe, routes, size, phases.value, history);
      var checked := CheckFast(phases.value);
      if checked.Err? {
        return Err(checked.error);
      }
      if cargo.baselineStatus != 0 {
        return Err(BaselineFailed);
      }
      var resolved := RunFast(phases.value);
      PlanStarts(repo, Affected(diff), cargo.universe, routes, size, phases.value, history);
      if resolved.Err? {
        return Err(resolved.error);
      }
      r := RunRemainder(resolved.value, phases.value);
    }

    method RunRemainder(resolved: Entries, ghost phases: seq<FastPhase>) returns (r: Result<(), RouteError>)
      requires Valid() && resolved == Resolved(planned)
      requires forall m :: m in planned ==> planned[m].scope == Focused
      requires plan == Some(Plan(phases, None, None)) && PlanValid()
      requires FastPhases(repo, cargo.universe, Affected(diff), routes, |routes|, phases)
      requires Follows(history, FastRequests(phases)) && |history| == |phases|
      modifies this
      ensures Valid() && PlanValid()
      ensures r.Err? ==> Why(r.error)
      ensures r.Ok? ==> AfterPhases(Affected(diff), cargo.universe, planned)
      ensures r.Ok? ==>
        && plan.Some? && plan.value.phases == phases && plan.value.pack.Some? && plan.value.fallback.None?
        && |history| == |Requests(plan.value)|
    {
      hide FastPhases, PlanOk, Listed, Answered, InSource, Requests, IsPacking, Touched, Follows;
      ghost var fast, ran := planned, history;
      var remainder := Without(cargo.universe, resolved);
      WithoutMembers(cargo.universe, resolved);
      var packed := PackShards(repo, diff, cargo.universe, remainder, size);
      if packed.Err? {
        return Err(RouteError.Pack(packed.error));
      }
      PackedOpen(repo, Affected(diff), cargo.universe, remainder, size, fast, packed.value);
      var shards := packed.value.shards;
      PackedShards(repo, Affected(diff), cargo.universe, remainder, size, packed.value);
      plan := Some(Plan(phases, Some(packed.value), None));
      var last := RunShards(shards, resolved);
      PlanPacks(repo, Affected(diff), cargo.universe, routes, size, phases, packed.value, ran, history);
      if last.Err? {
        StuckAt(plan.value, phases, shards, |ran|, |history|);
        return Err(last.error);
      }
      PhasesLeave(repo, Affected(diff), cargo.universe, remainder, size, fast, planned, packed.value);
      r := Ok(());
    }
  }

  lemma HistoryOk(cargo: Cargo, changed: LineMap, planned: Entries, history: seq<Ran>)
    requires Consistent(cargo, changed, planned, history)
    ensures NeverRerun(history) && forall ran :: ran in history ==> Validated(cargo, ran)
    ensures planned == Folded(history) && planned.Keys <= Elements(cargo.universe)
    ensures forall m :: m in planned ==> m in cargo.universe && planned[m].mutant == m && planned[m].summary != Success
  {
  }

  /** Nothing stops a run in order. */
  lemma CausedIsDisorder(e: RouteError, repo: Repo, changed: LineMap, size: int, cargo: Cargo, plan: Option<Plan>,
                         history: seq<Ran>)
    requires Caused(e, repo, changed, size, cargo, plan, history)
    ensures !InOrder(repo, changed, size, cargo, plan)
  {
  }

  lemma BadUniverseCauses(repo: Repo, changed: LineMap, size: int, cargo: Cargo)
    requires !Indexable(cargo.universe)
    ensures Caused(BadUniverse, repo, changed, size, cargo, None, [])
  {
  }

  lemma NothingRan(cargo: Cargo, changed: LineMap)
    ensures Consistent(cargo, changed, map[], [])
  {
  }

  lemma PackedShards(repo: Repo, changed: LineMap, universe: seq<Mutant>, remainder: seq<Mutant>, size: int, p: Pack)
    requires IsPacking(repo, changed, universe, remainder, size, p)
    ensures forall s :: s in p.shards ==> IsShard(repo, changed, universe, s)
  {
  }

  /** The shard that stopped the run is the next request of the plan. */
  lemma StuckAt(plan: Plan, phases: seq<FastPhase>, shards: seq<Shard>, fast: nat, ran: nat)
    requires Requests(plan) == FastRequests(phases) + ShardRequests(shards)
    requires fast == |phases| <= ran < fast + |shards|
    ensures ran < |Requests(plan)| && Requests(plan)[ran] == ShardRequests(shards)[ran - fast]
    ensures Requests(plan)[ran] in Requests(plan)
  {
  }


}
