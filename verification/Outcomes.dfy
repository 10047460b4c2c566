/** Validation of one cargo-mutants run, and the names a later run may skip. */
module Outcomes {
  import opened Wrappers
  import opened Mutants
  import opened Components

  datatype Summary = Success | CaughtMutant | MissedMutant | Timeout | Unviable
  datatype ProcessStatus = Succeeded | TimedOut | Failure(code: int) | OtherStatus
  datatype PhaseName = Build | Test | OtherPhase
  datatype Step = Step(phase: PhaseName, status: ProcessStatus)
  datatype Scenario = Baseline | Mutated(mutant: Mutant)
  datatype Outcome = Outcome(scenario: Scenario, summary: Summary, steps: seq<Step>)
  datatype Report = Report(
    pinnedVersion: bool,
    outcomes: seq<Outcome>,
    caught: int, missed: int, timeout: int, unviable: int,
    total: int, success: int)

  datatype PhaseError = BadReport

  // ----- validate_steps -----

  predicate Failed(status: ProcessStatus) {
    status.Failure? && status.code > 0
  }

  /** What the build and test processes of one outcome amount to. */
  function StepsSummary(steps: seq<Step>): Option<Summary> {
    var phases := seq(|steps|, i requires 0 <= i < |steps| => steps[i].phase);
    if phases != [Build] && phases != [Build, Test] then None
    else
      var build, last := steps[0].status, steps[|steps| - 1].status;
      if build == TimedOut then Some(Timeout)
      else if Failed(build) then Some(Unviable)
      else if build == Succeeded && |steps| == 2 then
        if last == Succeeded then Some(MissedMutant)
        else if last == TimedOut then Some(Timeout)
        else if Failed(last) then Some(CaughtMutant)
        else None
      else None
  }

  predicate ValidSteps(o: Outcome) {
    match o.scenario
    case Baseline => StepsSummary(o.steps) == Some(MissedMutant) && o.summary == Success
    case Mutated(_) => StepsSummary(o.steps) == Some(o.summary)
  }

  /** The four results a mutant can have, and what each says of its processes. */
  lemma StepsMean(o: Outcome)
    requires ValidSteps(o) && o.scenario.Mutated?
    ensures o.summary in {CaughtMutant, MissedMutant, Timeout, Unviable}
    ensures o.summary == Unviable <==> Failed(o.steps[0].status)
    ensures o.summary in {CaughtMutant, MissedMutant} ==> o.steps[0].status == Succeeded && |o.steps| == 2
    ensures o.summary == MissedMutant ==> o.steps[1].status == Succeeded
    ensures o.summary == CaughtMutant ==> Failed(o.steps[1].status)
    ensures o.summary == Timeout ==> o.steps[0].status == TimedOut || o.steps[|o.steps| - 1].status == TimedOut
  {
  }

  predicate ExitedBadly(status: ProcessStatus) {
    match status
    case Failure(code) => code > 0
    case _ => false
  }

  /** Just a build, or a build and the tests. */
  predicate BuildsAndTests(steps: seq<Step>) {
    && 1 <= |steps| <= 2 && steps[0].phase == Build && (|steps| == 2 ==> steps[1].phase == Test)
  }

  /** Exactly which outcomes are valid: the baseline passed, and a mutant's result is what its processes did. */
  lemma StepsIff(o: Outcome)
    ensures ValidSteps(o) <==>
      && BuildsAndTests(o.steps)
      && var built := o.steps[0].status == Succeeded;
         var tested := built && |o.steps| == 2;
         match o.scenario
         case Baseline => o.summary == Success && tested && o.steps[1].status == Succeeded
         case Mutated(_) =>
           match o.summary
           case Success => false
           case MissedMutant => tested && o.steps[1].status == Succeeded
           case CaughtMutant => tested && ExitedBadly(o.steps[1].status)
           case Timeout => o.steps[0].status == TimedOut || (tested && o.steps[1].status == TimedOut)
           case Unviable => ExitedBadly(o.steps[0].status)
  {
    var phases := seq(|o.steps|, i requires 0 <= i < |o.steps| => o.steps[i].phase);
    if BuildsAndTests(o.steps) {
      assert if |o.steps| == 1 then phases == [Build] else phases == [Build, Test];
    }
    if |o.steps| > 0 && (phases == [Build] || phases == [Build, Test]) {
      assert phases[0] == Build && (|phases| == 2 ==> phases[1] == Test);
    }
  }

  // ----- validate_phase -----

  function Count(outcomes: seq<Outcome>, summary: Summary): nat {
    if outcomes == [] then 0
    else
      var last := outcomes[|outcomes| - 1];
      Count(outcomes[..|outcomes| - 1], summary) + if last.scenario.Mutated? && last.summary == summary then 1 else 0
  }

  function Baselines(outcomes: seq<Outcome>): nat {
    if outcomes == [] then 0
    else
      Baselines(outcomes[..|outcomes| - 1]) + if outcomes[|outcomes| - 1].scenario.Baseline? then 1 else 0
  }

  /** The mutants of the outcomes, in order. */
  function Tested(outcomes: seq<Outcome>): seq<Mutant> {
    if outcomes == [] then []
    else
      var last := outcomes[|outcomes| - 1];
      Tested(outcomes[..|outcomes| - 1]) + if last.scenario.Mutated? then [last.scenario.mutant] else []
  }

  /** Same identities on both sides, and both lists well formed. */
  predicate ExactSet(actual: seq<Mutant>, expected: seq<Mutant>) {
    Indexable(actual) && Indexable(expected) && Elements(actual) == Elements(expected)
  }

  function ExitStatus(outcomes: seq<Outcome>): int {
    if Count(outcomes, Timeout) > 0 then 3 else if Count(outcomes, MissedMutant) > 0 then 2 else 0
  }

  /** The outcomes of mutants with a summary. */
  function With(outcomes: seq<Outcome>, summary: Summary): set<nat> {
    set i | 0 <= i < |outcomes| && outcomes[i].scenario.Mutated? && outcomes[i].summary == summary
  }

  lemma WithNext(outcomes: seq<Outcome>, o: Outcome, summary: Summary)
    ensures With(outcomes + [o], summary) ==
            With(outcomes, summary) + if o.scenario.Mutated? && o.summary == summary then {|outcomes|} else {}
    ensures |outcomes| !in With(outcomes, summary)
  {
    var all := outcomes + [o];
    assert all[|outcomes|] == o && forall i :: 0 <= i < |outcomes| ==> all[i] == outcomes[i];
  }

  lemma {:induction false} CountIs(outcomes: seq<Outcome>, summary: Summary)
    ensures Count(outcomes, summary) == |With(outcomes, summary)|
  {
    if outcomes == [] {
      assert With(outcomes, summary) == {};
    } else {
      hide With;
      var init, last := outcomes[..|outcomes| - 1], outcomes[|outcomes| - 1];
      CountIs(init, summary);
      WithNext(init, last, summary);
      assert outcomes == init + [last];
    }
  }

  function BaselinesAt(outcomes: seq<Outcome>): set<nat> {
    set i | 0 <= i < |outcomes| && outcomes[i].scenario.Baseline?
  }

  lemma {:induction false} BaselinesAre(outcomes: seq<Outcome>)
    ensures Baselines(outcomes) == |BaselinesAt(outcomes)|
  {
    if outcomes == [] {
      assert BaselinesAt(outcomes) == {};
    } else {
      var init, last := outcomes[..|outcomes| - 1], outcomes[|outcomes| - 1];
      BaselinesAre(init);
      BaselinesNext(init, last);
      assert outcomes == init + [last];
    }
  }

  lemma BaselinesNext(outcomes: seq<Outcome>, o: Outcome)
    ensures BaselinesAt(outcomes + [o]) == BaselinesAt(outcomes) + if o.scenario.Baseline? then {|outcomes|} else {}
    ensures |outcomes| !in BaselinesAt(outcomes)
    ensures |BaselinesAt(outcomes + [o])| == |BaselinesAt(outcomes)| + if o.scenario.Baseline? then 1 else 0
  {
    var all := outcomes + [o];
    assert all[|outcomes|] == o && forall i :: 0 <= i < |outcomes| ==> all[i] == outcomes[i];
    assert BaselinesAt(all) == BaselinesAt(outcomes) + if o.scenario.Baseline? then {|outcomes|} else {};
  }

  /** Each mutant tested, and no mutant twice. */
  ghost predicate OneOutcomeEach(outcomes: seq<Outcome>, expected: seq<Mutant>) {
    && (forall m :: m in expected <==> exists i :: 0 <= i < |outcomes| && outcomes[i].scenario == Mutated(m))
    && NoneTwice(outcomes)
  }

  ghost predicate NoneTwice(outcomes: seq<Outcome>) {
    forall i, j :: 0 <= i < j < |outcomes| && outcomes[i].scenario.Mutated? ==> outcomes[i].scenario != outcomes[j].scenario
  }

  lemma NoneTwiceNext(outcomes: seq<Outcome>, o: Outcome)
    ensures NoneTwice(outcomes + [o]) <==>
      NoneTwice(outcomes) && forall i :: 0 <= i < |outcomes| && outcomes[i].scenario.Mutated? ==> outcomes[i].scenario != o.scenario
  {
    var all := outcomes + [o];
    assert all[|outcomes|] == o && forall i :: 0 <= i < |outcomes| ==> all[i] == outcomes[i];
  }

  lemma {:induction false} TestedOnce(outcomes: seq<Outcome>)
    ensures Distinct(Tested(outcomes)) <==> NoneTwice(outcomes)
  {
    hide NoneTwice, Distinct, Tested;
    if outcomes == [] {
      NothingTested();
    } else {
      var init, last := outcomes[..|outcomes| - 1], outcomes[|outcomes| - 1];
      TestedOnce(init);
      TestedAre(init);
      assert outcomes == init + [last];
      NoneTwiceNext(init, last);
      TestedNext(init, last);
      if last.scenario.Mutated? {
        var m := last.scenario.mutant;
        OnceMore(Tested(init), m);
        assert m !in Tested(init) <==>
               forall i :: 0 <= i < |init| && init[i].scenario.Mutated? ==> init[i].scenario != last.scenario;
      } else {
        assert Tested(init) + [] == Tested(init);
      }
    }
  }

  lemma NothingTested()
    ensures Tested([]) == [] && Distinct<Mutant>([]) && NoneTwice([])
  {
  }

  lemma OnceMore(ms: seq<Mutant>, m: Mutant)
    ensures Distinct(ms + [m]) <==> Distinct(ms) && m !in ms
  {
    var all := ms + [m];
    assert all[|ms|] == m && forall i :: 0 <= i < |ms| ==> all[i] == ms[i];
  }

  /** A list of the same mutants is as well formed as the other if none of them is there twice. */
  lemma SameListed(ms: seq<Mutant>, expected: seq<Mutant>)
    requires Indexable(expected) && forall m :: m in ms <==> m in expected
    ensures Indexable(ms) <==> Distinct(ms)
  {
    if Distinct(ms) {
      SubsetNames(expected, ms);
    }
  }

  /**
   Exactly which reports are accepted: of the pinned version, with valid outcomes, one for each expected mutant and the
   baseline's if there is one; with true counts; and with the exit status of a timeout, or else of a miss, or else of neither.
   */
  lemma ReportIff(data: Report, expected: seq<Mutant>, status: int, baseline: bool)
    ensures ValidReport(data, expected, status, baseline) <==>
      && data.pinnedVersion && (forall o :: o in data.outcomes ==> ValidSteps(o))
      && |BaselinesAt(data.outcomes)| == (if baseline then 1 else 0)
      && Indexable(expected) && OneOutcomeEach(data.outcomes, expected)
      && data.caught == |With(data.outcomes, CaughtMutant)| && data.missed == |With(data.outcomes, MissedMutant)|
      && data.timeout == |With(data.outcomes, Timeout)| && data.unviable == |With(data.outcomes, Unviable)|
      && data.total == |expected| && data.success == 0
      && status == (if With(data.outcomes, Timeout) != {} then 3
                    else if With(data.outcomes, MissedMutant) != {} then 2 else 0)
  {
    hide Count, With, Indexable, Tested, ValidSteps, BaselinesAt, Baselines, Distinct, NoneTwice;
    CountIs(data.outcomes, CaughtMutant);
    CountIs(data.outcomes, MissedMutant);
    CountIs(data.outcomes, Timeout);
    CountIs(data.outcomes, Unviable);
    BaselinesAre(data.outcomes);
    TestedAre(data.outcomes);
    TestedOnce(data.outcomes);
    var tested := Tested(data.outcomes);
    assert (Elements(tested) == Elements(expected)) <==> (forall m :: m in tested <==> m in expected) by {
      forall m ensures (m in tested <==> m in Elements(tested)) && (m in expected <==> m in Elements(expected)) {}
    }
    if Indexable(expected) && forall m :: m in tested <==> m in expected {
      SameListed(tested, expected);
    }
  }

  lemma {:induction false} TestedAre(outcomes: seq<Outcome>)
    ensures forall m :: m in Tested(outcomes) <==> exists i :: 0 <= i < |outcomes| && outcomes[i].scenario == Mutated(m)
  {
    if outcomes != [] {
      var last := |outcomes| - 1;
      TestedAre(outcomes[..last]);
      assert forall i :: 0 <= i < last ==> outcomes[..last][i] == outcomes[i];
      forall m | m in Tested(outcomes) ensures exists i :: 0 <= i < |outcomes| && outcomes[i].scenario == Mutated(m) {
        if m in Tested(outcomes[..last]) {
          var i :| 0 <= i < last && outcomes[..last][i].scenario == Mutated(m);
          assert outcomes[i].scenario == Mutated(m);
        }
      }
      forall i, m | 0 <= i < |outcomes| && outcomes[i].scenario == Mutated(m) ensures m in Tested(outcomes) {
        if i < last {
          assert outcomes[..last][i].scenario == Mutated(m);
        }
      }
    }
  }

  /** A complete and consistent account of running exactly the expected mutants. */
  predicate ValidReport(data: Report, expected: seq<Mutant>, status: int, baseline: bool) {
    && data.pinnedVersion
    && (forall o :: o in data.outcomes ==> ValidSteps(o))
    && Baselines(data.outcomes) == (if baseline then 1 else 0)
    && ExactSet(Tested(data.outcomes), expected)
    && data.caught == Count(data.outcomes, CaughtMutant)
    && data.missed == Count(data.outcomes, MissedMutant)
    && data.timeout == Count(data.outcomes, Timeout)
    && data.unviable == Count(data.outcomes, Unviable)
    && data.total == |expected| && data.success == 0
    && status == ExitStatus(data.outcomes)
  }

  /** Each expected mutant's summary, as its outcome gives it. */
  ghost predicate Records(outcomes: seq<Outcome>, entries: map<Mutant, Summary>) {
    && (forall m :: m in entries <==> m in Tested(outcomes))
    && (forall o :: o in outcomes && o.scenario.Mutated? ==>
          o.scenario.mutant in entries && entries[o.scenario.mutant] == o.summary)
  }

  lemma TestedNext(outcomes: seq<Outcome>, o: Outcome)
    ensures Tested(outcomes + [o]) == Tested(outcomes) + if o.scenario.Mutated? then [o.scenario.mutant] else []
    ensures Baselines(outcomes + [o]) == Baselines(outcomes) + if o.scenario.Baseline? then 1 else 0
    ensures forall s :: Count(outcomes + [o], s) ==
                        Count(outcomes, s) + if o.scenario.Mutated? && o.summary == s then 1 else 0
  {
    assert (outcomes + [o])[..|outcomes|] == outcomes;
  }

  lemma {:induction false} TestedPrefix(outcomes: seq<Outcome>, i: nat)
    requires i <= |outcomes|
    ensures Tested(outcomes[..i]) <= Tested(outcomes)
  {
    if i < |outcomes| {
      var init := outcomes[..|outcomes| - 1];
      assert init[..i] == outcomes[..i];
      TestedPrefix(init, i);
    } else {
      assert outcomes[..i] == outcomes;
    }
  }

  /** A mutant seen twice makes the list of tested mutants repeat a name. */
  lemma SeenTwice(outcomes: seq<Outcome>, i: nat)
    requires i < |outcomes| && outcomes[i].scenario.Mutated?
    requires outcomes[i].scenario.mutant in Tested(outcomes[..i])
    ensures !Indexable(Tested(outcomes))
  {
    var m := outcomes[i].scenario.mutant;
    assert outcomes[..i + 1] == outcomes[..i] + [outcomes[i]];
    TestedNext(outcomes[..i], outcomes[i]);
    TestedPrefix(outcomes, i + 1);
    var tested := Tested(outcomes[..i]);
    var j :| 0 <= j < |tested| && tested[j] == m;
    assert Tested(outcomes)[j] == m && Tested(outcomes)[|tested|] == m;
  }

  lemma SameSize(a: seq<Mutant>, b: seq<Mutant>)
    requires Distinct(a) && Distinct(b) && Elements(a) == Elements(b)
    ensures |a| == |b|
  {
    DistinctSize(a);
    DistinctSize(b);
  }

  datatype Counts = Counts(baselines: nat, caught: nat, missed: nat, timeout: nat, unviable: nat)

  function Counted(outcomes: seq<Outcome>): Counts {
    Counts(Baselines(outcomes), Count(outcomes, CaughtMutant), Count(outcomes, MissedMutant),
           Count(outcomes, Timeout), Count(outcomes, Unviable))
  }

  ghost predicate RealSummaries(entries: map<Mutant, Summary>) {
    forall m :: m in entries ==> entries[m] in {CaughtMutant, MissedMutant, Timeout, Unviable}
  }

  lemma CountedNext(outcomes: seq<Outcome>, o: Outcome)
    requires ValidSteps(o)
    ensures var c := Counted(outcomes);
            Counted(outcomes + [o]) ==
            if o.scenario.Baseline? then c.(baselines := c.baselines + 1)
            else match o.summary
                 case CaughtMutant => c.(caught := c.caught + 1)
                 case MissedMutant => c.(missed := c.missed + 1)
                 case Timeout => c.(timeout := c.timeout + 1)
                 case Unviable => c.(unviable := c.unviable + 1)
                 case Success => c
  {
    TestedNext(outcomes, o);
  }

  lemma NothingCollected()
    ensures Tested([]) == [] && Distinct<Mutant>([]) && Counted([]) == Counts(0, 0, 0, 0, 0) && Records([], map[])
  {
  }

  lemma OldRecords(outcomes: seq<Outcome>, o: Outcome, entries: map<Mutant, Summary>)
    requires Records(outcomes, entries) && o.scenario.Baseline?
    ensures Records(outcomes + [o], entries)
  {
    hide Tested;
    TestedNext(outcomes, o);
    assert Tested(outcomes) + [] == Tested(outcomes);
  }

  lemma RecordedTested(outcomes: seq<Outcome>, entries: map<Mutant, Summary>, m: Mutant)
    requires Records(outcomes, entries)
    ensures m in entries <==> m in Tested(outcomes)
  {
  }

  method CollectOutcomes(outcomes: seq<Outcome>) returns (r: Result<(map<Mutant, Summary>, seq<Mutant>, Counts), PhaseError>)
    ensures r.Ok? ==>
      && (forall o :: o in outcomes ==> ValidSteps(o))
      && Records(outcomes, r.value.0) && RealSummaries(r.value.0)
      && r.value.1 == Tested(outcomes) && Distinct(r.value.1) && r.value.2 == Counted(outcomes)
    ensures r.Err? ==> (exists o :: o in outcomes && !ValidSteps(o)) || !Indexable(Tested(outcomes))
  {
    hide StepsSummary, ValidSteps, Tested, Records, Counted, Distinct, Indexable;
    var entries: map<Mutant, Summary> := map[];
    NothingCollected();
    assert outcomes[..0] == [];
    var tested: seq<Mutant> := [];
    var counts := Counts(0, 0, 0, 0, 0);
    for i := 0 to |outcomes|
      invariant forall o :: o in outcomes[..i] ==> ValidSteps(o)
      invariant tested == Tested(outcomes[..i]) && Distinct(tested)
      invariant counts == Counted(outcomes[..i])
      invariant Records(outcomes[..i], entries) && RealSummaries(entries)
    {
      var o := outcomes[i];
      assert outcomes[..i + 1] == outcomes[..i] + [o];
      TestedNext(outcomes[..i], o);
      if !ValidSteps(o) {
        return Err(BadReport);
      }
      CountedNext(outcomes[..i], o);
      if o.scenario.Baseline? {
        OldRecords(outcomes[..i], o, entries);
        assert tested + [] == tested;
        counts := counts.(baselines := counts.baselines + 1);
      } else {
        var mutant := o.scenario.mutant;
        RecordedTested(outcomes[..i], entries, mutant);
        if mutant in entries {
          SeenTwice(outcomes, i);
          return Err(BadReport);
        }
        StepsMean(o);
        NewRecord(outcomes[..i], o, entries);
        OnceMore(tested, mutant);
        entries, tested := entries[mutant := o.summary], tested + [mutant];
        counts := match o.summary
          case CaughtMutant => counts.(caught := counts.caught + 1)
          case MissedMutant => counts.(missed := counts.missed + 1)
          case Timeout => counts.(timeout := counts.timeout + 1)
          case Unviable => counts.(unviable := counts.unviable + 1)
          case Success => counts;
      }
    }
    assert outcomes[..|outcomes|] == outcomes;
    r := Ok((entries, tested, counts));
  }

  method ValidatePhase(data: Report, expected: seq<Mutant>, status: int, baseline: bool)
    returns (r: Result<map<Mutant, Summary>, PhaseError>)
    ensures r.Ok? <==> ValidReport(data, expected, status, baseline)
    ensures r.Ok? ==> Records(data.outcomes, r.value) && r.value.Keys == Elements(expected)
    ensures r.Ok? ==> RealSummaries(r.value)
  {
    hide ValidSteps, Indexable;
    if !data.pinnedVersion {
      return Err(BadReport);
    }
    var collected := CollectOutcomes(data.outcomes);
    if collected.Err? {
      return Err(BadReport);
    }
    var (entries, tested, counts) := collected.value;
    if counts.baselines != (if baseline then 1 else 0) || !ExactSet(tested, expected) {
      return Err(BadReport);
    }
    IndexableDistinct(expected);
    SameSize(tested, expected);
    if data.caught != counts.caught || data.missed != counts.missed ||
       data.timeout != counts.timeout || data.unviable != counts.unviable {
      return Err(BadReport);
    }
    if data.total != |tested| || data.success != 0 {
      return Err(BadReport);
    }
    if status != (if counts.timeout > 0 then 3 else if counts.missed > 0 then 2 else 0) {
      return Err(BadReport);
    }
    assert entries.Keys == Elements(tested);
    r := Ok(entries);
  }

  lemma IndexableDistinct(ms: seq<Mutant>)
    requires Indexable(ms)
    ensures Distinct(ms)
  {
  }

  lemma NewRecord(outcomes: seq<Outcome>, o: Outcome, entries: map<Mutant, Summary>)
    requires Records(outcomes, entries) && o.scenario.Mutated? && o.scenario.mutant !in entries
    ensures Records(outcomes + [o], entries[o.scenario.mutant := o.summary])
  {
    TestedNext(outcomes, o);
  }

  // ----- iterate_seed_from_resolved -----

  datatype Scope = Focused | Full
  datatype Entry = Entry(mutant: Mutant, summary: Summary, scope: Scope)

  type Entries = map<Mutant, Entry>

  predicate IsResolved(e: Entry) {
    e.summary == CaughtMutant || e.summary == Unviable
  }

  datatype Seed = Seed(caught: seq<string>, unviable: seq<string>, previouslyCaught: seq<string>)

  ghost predicate OneNamePer(entries: Entries) {
    forall a, b :: a in entries && b in entries && a != b ==> entries[a].mutant.name != entries[b].mutant.name
  }

  /** The result of done that bears this name, if one does. */
  ghost predicate Bears(entries: Entries, done: set<Mutant>, name: string, summary: Summary) {
    exists m :: m in done && m in entries && entries[m].mutant.name == name && entries[m].summary == summary
  }

  /** Every name once, in the list its real result belongs to, and none invented. */
  ghost predicate IsSeed(entries: Entries, done: set<Mutant>, seed: Seed) {
    && Distinct(seed.caught + seed.unviable) && seed.previouslyCaught == []
    && (forall name :: name in seed.caught <==> Bears(entries, done, name, CaughtMutant))
    && (forall name :: name in seed.unviable <==> Bears(entries, done, name, Unviable))
  }

  lemma SeedNext(entries: Entries, done: set<Mutant>, m: Mutant, seed: Seed)
    requires m in entries && m !in done && done <= entries.Keys && IsResolved(entries[m])
    requires IsSeed(entries, done, seed)
    requires entries[m].mutant.name !in seed.caught + seed.unviable
    ensures var name := entries[m].mutant.name;
            IsSeed(entries, done + {m},
                   if entries[m].summary == CaughtMutant then seed.(caught := seed.caught + [name])
                   else seed.(unviable := seed.unviable + [name]))
  {
    var name := entries[m].mutant.name;
    var next := if entries[m].summary == CaughtMutant then seed.(caught := seed.caught + [name])
                else seed.(unviable := seed.unviable + [name]);
    forall n, s ensures Bears(entries, done + {m}, n, s) <==>
                        Bears(entries, done, n, s) || (n == name && s == entries[m].summary) {
    }
    var names := seed.caught + seed.unviable;
    assert names[..|seed.caught|] == seed.caught && names[|seed.caught|..] == seed.unviable;
    InsertDistinct(seed.caught, seed.unviable, name);
  }

  lemma InsertDistinct(a: seq<string>, b: seq<string>, name: string)
    requires Distinct(a + b) && name !in a + b
    ensures Distinct(a + [name] + b) && Distinct(a + (b + [name]))
  {
    var before, middle := a + b, a + [name] + b;
    forall i, j | 0 <= i < j < |middle| ensures middle[i] != middle[j] {
      assert forall k :: 0 <= k < |middle| && k != |a| ==> middle[k] == before[if k < |a| then k else k - 1];
    }
    assert a + (b + [name]) == before + [name];
  }

  ghost predicate Seeding(resolved: Entries, done: set<Mutant>, seed: Seed, names: seq<string>) {
    && done <= resolved.Keys && IsSeed(resolved, done, seed)
    && multiset(seed.caught) + multiset(seed.unviable) == multiset(names)
    && (forall m :: m in done ==> IsResolved(resolved[m]))
    && (forall a, b :: a in done && b in done && a != b ==> resolved[a].mutant.name != resolved[b].mutant.name)
  }

  function SeedWith(seed: Seed, e: Entry): Seed {
    if e.summary == CaughtMutant then seed.(caught := seed.caught + [e.mutant.name])
    else seed.(unviable := seed.unviable + [e.mutant.name])
  }

  lemma SeedStep(resolved: Entries, done: set<Mutant>, seed: Seed, names: seq<string>, m: Mutant)
    requires Seeding(resolved, done, seed, names)
    requires m in resolved && m !in done && IsResolved(resolved[m])
    requires resolved[m].mutant.name !in seed.caught + seed.unviable
    ensures Seeding(resolved, done + {m}, SeedWith(seed, resolved[m]), names + [resolved[m].mutant.name])
  {
    SeedNext(resolved, done, m, seed);
    forall a | a in done ensures resolved[a].mutant.name != resolved[m].mutant.name {
      assert Bears(resolved, done, resolved[a].mutant.name, resolved[a].summary);
    }
  }

  /** A name met before belongs to another resolved entry. */
  lemma SeedRepeat(resolved: Entries, done: set<Mutant>, seed: Seed, m: Mutant)
    requires IsSeed(resolved, done, seed) && done <= resolved.Keys && m in resolved && m !in done
    requires resolved[m].mutant.name in seed.caught + seed.unviable
    ensures !OneNamePer(resolved)
  {
    var name := resolved[m].mutant.name;
    var summary := if name in seed.caught then CaughtMutant else Unviable;
    assert Bears(resolved, done, name, summary);
    var other :| other in done && other in resolved && resolved[other].mutant.name == name;
    assert other != m;
  }

  method IterateSeed(resolved: Entries) returns (r: Result<Seed, PhaseError>)
    ensures r.Ok? <==> OneNamePer(resolved) && forall m :: m in resolved ==> IsResolved(resolved[m])
    ensures r.Ok? ==> IsSeed(resolved, resolved.Keys, r.value)
  {
    var seed := Seed([], [], []);
    var names: seq<string> := [];
    var rest := resolved.Keys;
    while rest != {}
      invariant rest <= resolved.Keys
      invariant Seeding(resolved, resolved.Keys - rest, seed, names)
    {
      var m :| m in rest;
      var name := resolved[m].mutant.name;
      if name in seed.caught + seed.unviable {
        SeedRepeat(resolved, resolved.Keys - rest, seed, m);
        return Err(BadReport);
      }
      if !IsResolved(resolved[m]) {
        return Err(BadReport);
      }
      SeedStep(resolved, resolved.Keys - rest, seed, names, m);
      assert resolved.Keys - (rest - {m}) == resolved.Keys - rest + {m};
      seed, names, rest := SeedWith(seed, resolved[m]), names + [name], rest - {m};
    }
    assert resolved.Keys - rest == resolved.Keys;
    if multiset(seed.caught) + multiset(seed.unviable) + multiset(seed.previouslyCaught) != multiset(names) {
      return Err(BadReport);
    }
    r := Ok(seed);
  }
}
