/** The phases of one routed run, its full-suite fallback and the merged result. */
module Routing {
  import opened Wrappers
  import opened DiffLines
  import opened Mutants
  import opened Shards
  import opened Components
  import opened Packing
  import opened Outcomes

  datatype RouteError =
    | Pack(pack: PackError)
    | BadUniverse
    | SelectorFailed
    | DiscoveryMismatch
    | BaselineFailed
    | BadPhase
    | FastOverlap
    | RepeatsResolved
    | BadSeed
    | FallbackOmitted
    | FullOmitted
    | MergedMismatch

  // ----- terminal_outcomes and fallback_selection -----

  predicate IsTerminal(e: Entry) {
    IsResolved(e) || (e.summary == MissedMutant && e.scope == Full)
  }

  function Terminal(planned: Entries): Entries {
    map m | m in planned && IsTerminal(planned[m]) :: planned[m]
  }

  function Resolved(planned: Entries): Entries {
    map m | m in planned && IsResolved(planned[m]) :: planned[m]
  }

  /** The completed full-suite misses, whose lines the fallback must not select. */
  function Excluded(planned: Entries): set<Mutant> {
    set m | m in planned && IsTerminal(planned[m]) && planned[m].summary == MissedMutant
  }

  function NotIn(excluded: set<Mutant>): Mutant -> bool {
    m => m !in excluded
  }

  function Without(ms: seq<Mutant>, terminal: Entries): seq<Mutant> {
    if ms == [] then []
    else
      Without(ms[..|ms| - 1], terminal) + if ms[|ms| - 1] in terminal then [] else [ms[|ms| - 1]]
  }

  lemma {:induction false} WithoutMembers(ms: seq<Mutant>, terminal: Entries)
    ensures forall m :: m in Without(ms, terminal) <==> m in ms && m !in terminal
    ensures Indexable(ms) ==> Indexable(Without(ms, terminal))
  {
    if ms != [] {
      var init, last := ms[..|ms| - 1], ms[|ms| - 1];
      WithoutMembers(init, terminal);
      assert ms == init + [last];
      if Indexable(ms) {
        forall m | m in init ensures m.name != last.name {
          var i :| 0 <= i < |init| && init[i] == m;
          assert ms[i].name != ms[|init|].name;
        }
      }
    }
  }

  predicate FullTimeout(planned: Entries, m: Mutant) {
    m in planned && planned[m].scope == Full && planned[m].summary == Timeout
  }

  /** The mutant is neither finished, nor selected for the fallback, nor a full-suite timeout. */
  predicate Omitted(changed: LineMap, universe: seq<Mutant>, planned: Entries, m: Mutant) {
    && m in universe && m !in Terminal(planned)
    && !Selects(changed, universe, NotIn(Excluded(planned)), m)
    && !FullTimeout(planned, m)
  }

  datatype Fallback = Fallback(text: seq<DiffLine>, expected: seq<Mutant>, retained: Entries)

  /** Unfinished mutants are re-run if they can be selected apart from finished misses, else retained. */
  ghost predicate IsFallback(changed: LineMap, universe: seq<Mutant>, planned: Entries, f: Fallback) {
    var keep := NotIn(Excluded(planned));
    && Indexable(f.expected)
    && (forall m :: m in f.expected <==> Unfinished(universe, planned, m) && Selects(changed, universe, keep, m))
    && (forall m :: m in f.retained <==> Unfinished(universe, planned, m) && !Selects(changed, universe, keep, m))
    && (forall m :: m in f.retained ==> FullTimeout(planned, m) && f.retained[m] == planned[m])
  }

  /** The fallback's diff is a selection of everything apart from the finished misses. */
  ghost predicate SelectsApart(repo: Repo, changed: LineMap, universe: seq<Mutant>, planned: Entries, text: seq<DiffLine>) {
    var keep := NotIn(Excluded(planned));
    IsSelection(repo, changed, universe, keep, Selection(text, Expected(changed, universe, keep, universe)))
  }

  predicate Unfinished(universe: seq<Mutant>, planned: Entries, m: Mutant) {
    m in universe && m !in Terminal(planned)
  }

  // ----- the fallback, in summaries and scopes -----

  predicate FullMiss(planned: Entries, m: Mutant) {
    m in planned && planned[m].scope == Full && planned[m].summary == MissedMutant
  }

  /** Neither caught, nor unviable, nor missed by the full suite. */
  predicate NotDone(universe: seq<Mutant>, planned: Entries, m: Mutant) {
    && m in universe
    && !(m in planned && planned[m].summary in {CaughtMutant, Unviable}) && !FullMiss(planned, m)
  }

  /** An affected line of the mutant on which there is no full-suite miss. */
  ghost predicate FreeLine(changed: LineMap, universe: seq<Mutant>, planned: Entries, m: Mutant, line: nat) {
    && m.file in changed && line in changed[m.file] && m.start <= line <= m.end
    && forall x :: x in universe && x.file == m.file && x.start <= line <= x.end ==> !FullMiss(planned, x)
  }

  ghost predicate Retriable(changed: LineMap, universe: seq<Mutant>, planned: Entries, m: Mutant) {
    exists line :: FreeLine(changed, universe, planned, m, line)
  }

  /** What is open runs again if it has a free line; else it is a full-suite timeout, and that is kept. */
  ghost predicate RunsAgain(changed: LineMap, universe: seq<Mutant>, planned: Entries, f: Fallback) {
    && (forall m :: m in f.expected <==> NotDone(universe, planned, m) && Retriable(changed, universe, planned, m))
    && (forall m :: m in f.retained <==> NotDone(universe, planned, m) && !Retriable(changed, universe, planned, m))
    && forall m :: m in f.retained ==>
         m in planned && planned[m].scope == Full && planned[m].summary == Timeout && f.retained[m] == planned[m]
  }

  /** Some mutant is not done, has no free line, and no full-suite timeout either. */
  ghost predicate LeavesOut(changed: LineMap, universe: seq<Mutant>, planned: Entries) {
    exists m :: LeftOut(changed, universe, planned, m)
  }

  ghost predicate LeftOut(changed: LineMap, universe: seq<Mutant>, planned: Entries, m: Mutant) {
    && NotDone(universe, planned, m) && !Retriable(changed, universe, planned, m)
    && !(m in planned && planned[m].scope == Full && planned[m].summary == Timeout)
  }

  lemma OmittedLeavesOut(changed: LineMap, universe: seq<Mutant>, planned: Entries)
    ensures LeavesOut(changed, universe, planned) <==> exists m :: Omitted(changed, universe, planned, m)
  {
    hide LeftOut, Omitted;
    forall m ensures LeftOut(changed, universe, planned, m) <==> Omitted(changed, universe, planned, m) {
      OmittedIsLeftOut(changed, universe, planned, m);
    }
  }

  lemma OmittedIsLeftOut(changed: LineMap, universe: seq<Mutant>, planned: Entries, m: Mutant)
    ensures LeftOut(changed, universe, planned, m) <==> Omitted(changed, universe, planned, m)
  {
    hide Retriable, Selects, NotDone, Terminal, Excluded;
    RetriableSelects(changed, universe, planned, m);
    OpenIsUnfinished(universe, planned, m);
  }

  lemma OpenIsUnfinished(universe: seq<Mutant>, planned: Entries, m: Mutant)
    ensures NotDone(universe, planned, m) <==> Unfinished(universe, planned, m)
    ensures m in Excluded(planned) <==> FullMiss(planned, m)
  {
  }

  lemma RetriableSelects(changed: LineMap, universe: seq<Mutant>, planned: Entries, m: Mutant)
    ensures Retriable(changed, universe, planned, m) <==> Selects(changed, universe, NotIn(Excluded(planned)), m)
  {
    forall x ensures NotIn(Excluded(planned))(x) <==> !FullMiss(planned, x) {
      OpenIsUnfinished(universe, planned, x);
    }
    hide FullMiss, Excluded;
    if Retriable(changed, universe, planned, m) {
      var line: nat :| FreeLine(changed, universe, planned, m, line);
      assert line in Lines(changed, m.file) && Overlaps(m, line);
      forall x | x in universe && On(x, m.file, line) ensures NotIn(Excluded(planned))(x) {}
    }
    if Selects(changed, universe, NotIn(Excluded(planned)), m) {
      var line: nat :| line in Lines(changed, m.file) && Overlaps(m, line)
                       && forall x :: x in universe && On(x, m.file, line) ==> NotIn(Excluded(planned))(x);
      forall x | x in universe && x.file == m.file && x.start <= line <= x.end ensures !FullMiss(planned, x) {
        assert On(x, m.file, line);
      }
      assert FreeLine(changed, universe, planned, m, line);
    }
  }

  lemma FallbackMeans(changed: LineMap, universe: seq<Mutant>, planned: Entries, f: Fallback)
    requires IsFallback(changed, universe, planned, f)
    ensures RunsAgain(changed, universe, planned, f)
  {
    hide Retriable, Selects, NotDone, Unfinished, Excluded;
    forall m
      ensures Retriable(changed, universe, planned, m) <==> Selects(changed, universe, NotIn(Excluded(planned)), m)
      ensures NotDone(universe, planned, m) <==> Unfinished(universe, planned, m)
    {
      RetriableSelects(changed, universe, planned, m);
      OpenIsUnfinished(universe, planned, m);
    }
  }

  method FallbackSelection(repo: Repo, diff: seq<DiffLine>, universe: seq<Mutant>, planned: Entries)
    returns (r: Result<Fallback, RouteError>)
    requires Indexable(universe)
    ensures r.Err? ==> r.error in {RouteError.Pack(SourceMismatch), FallbackOmitted}
    ensures r == Err(FallbackOmitted) ==> exists m :: Omitted(Affected(diff), universe, planned, m)
    ensures r == Err(FallbackOmitted) ==> LeavesOut(Affected(diff), universe, planned)
    ensures r.Ok? ==> !LeavesOut(Affected(diff), universe, planned)
    ensures r == Err(RouteError.Pack(SourceMismatch)) ==> !InSource(repo, Affected(diff))
    ensures r.Ok? ==> forall m :: !Omitted(Affected(diff), universe, planned, m)
    ensures r.Ok? ==> IsFallback(Affected(diff), universe, planned, r.value)
    ensures r.Ok? ==> SelectsApart(repo, Affected(diff), universe, planned, r.value.text)
    ensures r.Ok? ==> RunsAgain(Affected(diff), universe, planned, r.value)
  {
    hide RunsAgain, LeavesOut, Selects, Affected, InSource, Chosen, HeaderLike, Indexable, IsFallback;
    var terminal := Terminal(planned);
    var excluded := Excluded(planned);
    ghost var changed := Affected(diff);
    OmittedLeavesOut(changed, universe, planned);
    var selection := SelectDiff(repo, diff, universe, NotIn(excluded));
    if selection.Err? {
      NotInSource(repo, changed, universe, NotIn(excluded));
      return Err(RouteError.Pack(selection.error));
    }
    var selected := selection.value.expected;
    ExpectedMembers(changed, universe, NotIn(excluded), universe);
    var expected := Without(selected, terminal);
    WithoutMembers(selected, terminal);
    var keys := Elements(universe) - terminal.Keys - Elements(expected);
    var retained := Retain(planned, keys);
    if retained.None? {
      assert exists m :: m in keys && Omitted(changed, universe, planned, m);
      return Err(FallbackOmitted);
    }
    r := Ok(Fallback(selection.value.text, expected, retained.value));
    FallbackBuilt(changed, universe, planned, selected, r.value);
  }

  lemma FallbackBuilt(changed: LineMap, universe: seq<Mutant>, planned: Entries, selected: seq<Mutant>, f: Fallback)
    requires Indexable(universe) && selected == Expected(changed, universe, NotIn(Excluded(planned)), universe)
    requires f.expected == Without(selected, Terminal(planned))
    requires f.retained.Keys == Elements(universe) - Terminal(planned).Keys - Elements(f.expected)
    requires forall m :: m in f.retained ==> FullTimeout(planned, m) && f.retained[m] == planned[m]
    ensures IsFallback(changed, universe, planned, f) && RunsAgain(changed, universe, planned, f)
  {
    hide Selects, Expected, Terminal, Excluded, Without;
    ExpectedMembers(changed, universe, NotIn(Excluded(planned)), universe);
    WithoutMembers(selected, Terminal(planned));
    FallbackMeans(changed, universe, planned, f);
  }

  /** Full-suite timeouts are retained; anything else has no full-suite result. */
  method Retain(planned: Entries, keys: set<Mutant>) returns (r: Option<Entries>)
    ensures r.Some? <==> forall m :: m in keys ==> FullTimeout(planned, m)
    ensures r.Some? ==> r.value.Keys == keys && forall m :: m in keys ==> r.value[m] == planned[m]
  {
    var retained: Entries := map[];
    var rest := keys;
    while rest != {}
      invariant rest <= keys && retained.Keys == keys - rest
      invariant forall m :: m in retained ==> FullTimeout(planned, m) && retained[m] == planned[m]
    {
      var m :| m in rest;
      if m !in planned || planned[m].scope != Full || planned[m].summary != Timeout {
        return None;
      }
      retained, rest := retained[m := planned[m]], rest - {m};
    }
    return Some(retained);
  }

  /** What the planned phases leave behind. */
  ghost predicate AfterPhases(changed: LineMap, universe: seq<Mutant>, planned: Entries) {
    && (forall m :: m in planned ==>
          && m in universe && planned[m].mutant == m && Touched(changed, m)
          && planned[m].summary != Success)
    // An unfinished neighbour of a full-suite result has a full-suite result.
    && (forall a, b ::
          a in planned && planned[a].scope == Full && Unfinished(universe, planned, b) && Shares(changed, a, b) ==>
          b in planned && planned[b].scope == Full)
  }

  /** Fallback selection omits something if and only if some mutant covers no affected line. */
  lemma OmittedIff(changed: LineMap, universe: seq<Mutant>, planned: Entries)
    requires AfterPhases(changed, universe, planned)
    ensures (exists m :: Omitted(changed, universe, planned, m)) <==>
            exists m :: m in universe && !Touched(changed, m)
  {
    forall m | Omitted(changed, universe, planned, m) ensures !Touched(changed, m) {
      if line: nat :| line in Lines(changed, m.file) && Overlaps(m, line) {
        var x :| x in universe && On(x, m.file, line) && x in Excluded(planned);
        assert Shares(changed, x, m);
      }
    }
    forall m | m in universe && !Touched(changed, m) ensures Omitted(changed, universe, planned, m) {
      assert m !in planned;
    }
  }

  // ----- merge_outcomes -----

  function MutantsOf(entries: Entries): set<Mutant> {
    set m | m in entries :: entries[m].mutant
  }

  ghost predicate OwnEntries(entries: Entries) {
    forall m :: m in entries ==> entries[m].mutant == m
  }

  lemma OwnMutants(entries: Entries)
    requires OwnEntries(entries)
    ensures MutantsOf(entries) == entries.Keys
  {
    forall m | m in entries ensures m in MutantsOf(entries) {
      assert entries[m].mutant == m;
    }
  }

  method MergeOutcomes(universe: seq<Mutant>, planned: Entries, full: Entries, baselineStatus: int)
    returns (r: Result<Entries, RouteError>)
    requires OwnEntries(planned) && OwnEntries(full) && planned.Keys <= Elements(universe)
    ensures r == if baselineStatus != 0 then Err(BaselineFailed)
                 else if !Indexable(universe) then Err(BadUniverse)
                 else if full.Keys != Elements(universe) - Terminal(planned).Keys then Err(FullOmitted)
                 else Ok(Terminal(planned) + full)
    ensures r.Ok? ==> r.value.Keys == Elements(universe) && OwnEntries(r.value)
  {
    if baselineStatus != 0 {
      return Err(BaselineFailed);
    }
    if !Indexable(universe) {
      return Err(BadUniverse);
    }
    var resolved := Terminal(planned);
    if full.Keys != Elements(universe) - resolved.Keys {
      return Err(FullOmitted);
    }
    var combined := resolved + full;
    assert combined.Keys == Elements(universe);
    assert OwnEntries(combined);
    OwnMutants(combined);
    if MutantsOf(combined) != Elements(universe) || |MutantsOf(combined)| != |combined.Keys| {
      return Err(MergedMismatch);
    }
    r := Ok(combined);
  }
}
