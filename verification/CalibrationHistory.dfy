/** Which runs a calibration history keeps, and which records its curve is fitted to. */
module CalibrationHistory {
  import opened Wrappers
  import opened Isotonic
  import opened Calibration

  // ----- the scored records of a model, without the bins -----

  predicate IsScored(r: Record, model: string) {
    r.raw.Some? && r.outcome in {CaughtMutant, MissedMutant} && r.modelVersion == Some(model)
  }

  function ScoredCount(records: seq<Record>, model: string): nat {
    if records == [] then 0
    else ScoredCount(records[..|records| - 1], model) + if IsScored(records[|records| - 1], model) then 1 else 0
  }

  predicate InStretch(r: Record, model: string, bin: nat) {
    IsScored(r, model) && InBin(r.raw.value, bin)
  }

  function StretchCount(records: seq<Record>, model: string, bin: nat): nat {
    if records == [] then 0
    else StretchCount(records[..|records| - 1], model, bin) + if InStretch(records[|records| - 1], model, bin) then 1 else 0
  }

  function StretchMissed(records: seq<Record>, model: string, bin: nat): nat {
    if records == [] then 0
    else
      var last := records[|records| - 1];
      StretchMissed(records[..|records| - 1], model, bin) +
      if InStretch(last, model, bin) && last.outcome == MissedMutant then 1 else 0
  }

  function StretchSum(records: seq<Record>, model: string, bin: nat): real {
    if records == [] then 0.0
    else
      var last := records[|records| - 1];
      StretchSum(records[..|records| - 1], model, bin) + if InStretch(last, model, bin) then last.raw.value else 0.0
  }

  lemma KeepNext(records: seq<Record>, r: Record, model: Option<string>)
    ensures Keep(records + [r], model) ==
            Keep(records, model) + if Scored(r) && (model.None? || r.modelVersion == model) then [r] else []
  {
    assert (records + [r])[..|records|] == records;
  }

  lemma SourceNext(source: seq<Record>, r: Record, bin: nat)
    ensures CountIn(source + [r], bin) == CountIn(source, bin) + if Lands(r, bin) then 1 else 0
    ensures MissedIn(source + [r], bin) ==
            MissedIn(source, bin) + if Lands(r, bin) && r.outcome == MissedMutant then 1 else 0
    ensures ScoresIn(source + [r], bin) == ScoresIn(source, bin) + if Lands(r, bin) then r.raw.value else 0.0
  {
    assert (source + [r])[..|source|] == source;
  }

  lemma LandsIs(r: Record, model: string, bin: nat)
    requires bin < BINS && Scored(r) && r.modelVersion == Some(model)
    ensures Lands(r, bin) <==> InStretch(r, model, bin)
  {
    BinHolds(r.raw.value);
  }

  lemma ScoredIs(r: Record, model: string)
    ensures Scored(r) && r.modelVersion == Some(model) <==> IsScored(r, model)
  {
  }

  /** A row of a run counts the records of its model and its stretch of scores, whatever else was recorded. */
  lemma {:induction false} RowCounts(records: seq<Record>, model: string, bin: nat)
    requires bin < BINS
    ensures var source := Keep(records, Some(model));
      && CountIn(source, bin) == StretchCount(records, model, bin)
      && MissedIn(source, bin) == StretchMissed(records, model, bin)
      && ScoresIn(source, bin) == StretchSum(records, model, bin)
      && |source| == ScoredCount(records, model)
  {
    hide Scored, Lands, InStretch, IsScored;
    if records != [] {
      var init, last := records[..|records| - 1], records[|records| - 1];
      RowCounts(init, model, bin);
      assert records == init + [last];
      KeepNext(init, last, Some(model));
      ScoredIs(last, model);
      if IsScored(last, model) {
        SourceNext(Keep(init, Some(model)), last, bin);
        LandsIs(last, model, bin);
      } else {
        NotInStretch(last, model, bin);
        assert Keep(init, Some(model)) + [] == Keep(init, Some(model));
      }
    }
  }

  lemma NotInStretch(r: Record, model: string, bin: nat)
    requires !IsScored(r, model)
    ensures !InStretch(r, model, bin)
  {
  }

  // ----- the model a set of records counts for -----

  /** The commonest model, if it has enough scores. */
  function ModelOf(records: seq<Record>): Option<string> {
    var scored := Keep(records, None);
    if scored == [] then None
    else
      KeepScored(records, None);
      var model := scored[Leader(scored, |scored|)].modelVersion;
      assert scored[Leader(scored, |scored|)] in scored;
      if |Keep(records, model)| < MIN_SCORES then None else model
  }

  lemma {:induction false} TallyIs(records: seq<Record>, model: string)
    ensures Tally(Keep(records, None), Some(model)) == ScoredCount(records, model)
  {
    hide Keep, Tally, Scored, IsScored;
    if records == [] {
      NothingKept(model);
    } else {
      var init, last := records[..|records| - 1], records[|records| - 1];
      TallyIs(init, model);
      assert records == init + [last];
      KeepNext(init, last, None);
      ScoredIs(last, model);
      TallyNext(Keep(init, None), last, Some(model));
      assert Keep(init, None) + [] == Keep(init, None);
    }
  }

  lemma NothingKept(model: string)
    ensures Tally(Keep([], None), Some(model)) == 0
  {
  }

  lemma TallyNext(records: seq<Record>, r: Record, model: Option<string>)
    ensures Tally(records + [r], model) == Tally(records, model) + if r.modelVersion == model then 1 else 0
  {
    assert (records + [r])[..|records|] == records;
  }

  lemma {:induction false} ScoredHas(records: seq<Record>, model: string)
    ensures ScoredCount(records, model) > 0 <==> exists r :: r in Keep(records, None) && r.modelVersion == Some(model)
  {
    if records != [] {
      var init, last := records[..|records| - 1], records[|records| - 1];
      ScoredHas(init, model);
      ScoredIs(last, model);
    }
  }

  /** It is a model with at least a hundred scores that no other has more of; and there is one if any has a hundred. */
  lemma ModelOfMeans(records: seq<Record>)
    ensures ModelOf(records).Some? ==>
      && ScoredCount(records, ModelOf(records).value) >= 100
      && forall other :: ScoredCount(records, other) <= ScoredCount(records, ModelOf(records).value)
    ensures ModelOf(records).None? ==> forall other :: ScoredCount(records, other) < 100
  {
    hide Keep, ScoredCount, Tally;
    var scored := Keep(records, None);
    KeepScored(records, None);
    if scored == [] {
      forall other ensures ScoredCount(records, other) < 100 {
        ScoredHas(records, other);
      }
    } else {
      var best := Leader(scored, |scored|);
      assert scored[best] in scored;
      var model := scored[best].modelVersion.value;
      TallyIs(records, model);
      RowCounts(records, model, 0);
      forall other ensures ScoredCount(records, other) <= ScoredCount(records, model) {
        TallyIs(records, other);
        ScoredHas(records, other);
        if ScoredCount(records, other) > 0 {
          var r :| r in scored && r.modelVersion == Some(other);
          var i :| 0 <= i < |scored| && scored[i] == r;
          assert Tally(scored, scored[i].modelVersion) <= Tally(scored, scored[best].modelVersion);
        }
      }
    }
  }

  /** The run that a set of records adds. */
  function RunAt(b: Batch): Run
    requires ModelOf(b.records).Some?
  {
    RunOf(Keep(b.records, ModelOf(b.records)), ModelOf(b.records), b.runId)
  }

  lemma NextIs(previous: State, b: Batch)
    ensures NextState(previous, b.records, b.runId) ==
      if ModelOf(b.records).None? then previous
      else Newest(Matching(previous, ModelOf(b.records), b.runId), HISTORY_RUNS - 1) + [RunAt(b)]
  {
    hide Keep, Matching, Newest, RunOf, Leader;
    var scored := Keep(b.records, None);
    KeepScored(b.records, None);
    if scored != [] {
      assert scored[Leader(scored, |scored|)] in scored;
    }
  }

  // ----- the runs that are current -----

  /** The set of records added a run, and no later one is of another model or of its own id. */
  ghost predicate Current(batches: seq<Batch>, i: nat) {
    && i < |batches| && ModelOf(batches[i].records).Some?
    && forall j :: i < j < |batches| && ModelOf(batches[j].records).Some? ==>
         ModelOf(batches[j].records) == ModelOf(batches[i].records) && batches[j].runId != batches[i].runId
  }

  ghost function CurrentBelow(batches: seq<Batch>, n: nat): seq<nat> {
    if n == 0 then []
    else CurrentBelow(batches, n - 1) + if Current(batches, n - 1) then [n - 1] else []
  }

  lemma {:induction false} CurrentAre(batches: seq<Batch>, n: nat)
    ensures forall i: nat :: i in CurrentBelow(batches, n) <==> i < n && Current(batches, i)
    ensures forall s, t :: 0 <= s < t < |CurrentBelow(batches, n)| ==>
              CurrentBelow(batches, n)[s] < CurrentBelow(batches, n)[t]
  {
    hide Current;
    if n > 0 {
      CurrentAre(batches, n - 1);
      var c := CurrentBelow(batches, n - 1);
      assert forall t :: 0 <= t < |c| ==> c[t] in c;
    }
  }

  ghost function RunsBelow(batches: seq<Batch>, n: nat): State {
    if n == 0 then []
    else RunsBelow(batches, n - 1) + if Current(batches, n - 1) then [RunAt(batches[n - 1])] else []
  }

  lemma CurrentNext(batches: seq<Batch>, b: Batch, i: nat)
    requires i < |batches|
    ensures Current(batches + [b], i) <==>
      && Current(batches, i)
      && (ModelOf(b.records).Some? ==>
            ModelOf(b.records) == ModelOf(batches[i].records) && b.runId != batches[i].runId)
  {
    hide ModelOf;
    var all := batches + [b];
    assert all[|batches|] == b && forall j :: 0 <= j < |batches| ==> all[j] == batches[j];
  }

  lemma CurrentLast(batches: seq<Batch>, b: Batch)
    ensures Current(batches + [b], |batches|) <==> ModelOf(b.records).Some?
  {
    hide ModelOf;
  }

  lemma MatchingNext(runs: State, run: Run, model: Option<string>, runId: string)
    ensures Matching(runs + [run], model, runId) ==
            Matching(runs, model, runId) + if Continues(run, model, runId) then [run] else []
  {
    assert (runs + [run])[..|runs|] == runs;
  }

  lemma RunAtMatches(b: Batch, model: Option<string>, runId: string)
    requires ModelOf(b.records).Some?
    ensures Continues(RunAt(b), model, runId) <==> ModelOf(b.records) == model && b.runId != runId
  {
    hide ModelOf, Keep, RowOf;
  }

  /** Another set of records leaves the current runs that match it. */
  lemma {:induction false} RunsMatch(batches: seq<Batch>, b: Batch, n: nat)
    requires n <= |batches|
    ensures ModelOf(b.records).Some? ==>
      RunsBelow(batches + [b], n) == Matching(RunsBelow(batches, n), ModelOf(b.records), b.runId)
    ensures ModelOf(b.records).None? ==> RunsBelow(batches + [b], n) == RunsBelow(batches, n)
  {
    hide Current, ModelOf, RunAt, Continues, Matching;
    if n == 0 {
      NothingMatches(ModelOf(b.records), b.runId);
    } else {
      RunsMatch(batches, b, n - 1);
      CurrentNext(batches, b, n - 1);
      var before := RunsBelow(batches, n - 1);
      assert (batches + [b])[n - 1] == batches[n - 1];
      assert before + [] == before && RunsBelow(batches + [b], n - 1) + [] == RunsBelow(batches + [b], n - 1);
      if Current(batches, n - 1) {
        CurrentHasModel(batches, n - 1);
        if ModelOf(b.records).Some? {
          MatchingNext(before, RunAt(batches[n - 1]), ModelOf(b.records), b.runId);
          RunAtMatches(batches[n - 1], ModelOf(b.records), b.runId);
          assert Matching(before, ModelOf(b.records), b.runId) + [] == Matching(before, ModelOf(b.records), b.runId);
        }
      }
    }
  }

  lemma CurrentHasModel(batches: seq<Batch>, i: nat)
    requires Current(batches, i)
    ensures i < |batches| && ModelOf(batches[i].records).Some?
  {
  }

  lemma RunsNext(batches: seq<Batch>, b: Batch)
    ensures RunsBelow(batches + [b], |batches| + 1) ==
      if ModelOf(b.records).None? then RunsBelow(batches, |batches|)
      else Matching(RunsBelow(batches, |batches|), ModelOf(b.records), b.runId) + [RunAt(b)]
  {
    hide Current, ModelOf, RunAt, Matching;
    RunsMatch(batches, b, |batches|);
    CurrentLast(batches, b);
    assert (batches + [b])[|batches|] == b;
  }

  /** Runs of one model and the current prompt, with distinct ids. */
  ghost predicate Alike(runs: State) {
    && DistinctIds(runs)
    && (forall i :: 0 <= i < |runs| ==> runs[i].promptVersion == Some(PROMPT_VERSION))
    && forall i, j :: 0 <= i < |runs| && 0 <= j < |runs| ==> runs[i].modelVersion == runs[j].modelVersion
  }

  lemma MatchAlike(runs: State, run: Run, model: Option<string>, runId: string)
    requires Alike(runs)
    requires run.modelVersion == model && run.promptVersion == Some(PROMPT_VERSION) && run.runId == runId
    ensures Alike(Matching(runs, model, runId) + [run])
  {
    hide Matching;
    MatchingKeeps(runs, model, runId);
    var kept := Matching(runs, model, runId);
    forall i | 0 <= i < |kept| ensures Continues(kept[i], model, runId) {
      assert kept[i] in kept;
    }
  }

  lemma {:induction false} RunsAlike(batches: seq<Batch>)
    ensures Alike(RunsBelow(batches, |batches|))
  {
    hide RunsBelow, Alike, Matching, ModelOf, Keep, RowOf;
    if batches == [] {
      NoneBelow(batches);
      NoneAlike();
    } else {
      var init, last := batches[..|batches| - 1], batches[|batches| - 1];
      assert batches == init + [last];
      RunsAlike(init);
      RunsNext(init, last);
      if ModelOf(last.records).Some? {
        MatchAlike(RunsBelow(init, |init|), RunAt(last), ModelOf(last.records), last.runId);
      }
    }
  }

  lemma NoneAlike()
    ensures Alike([])
  {
  }

  /** Cutting a list to its last three before a filter that drops one at most, or all, loses none of the last two after. */
  lemma CutFirst(runs: State, model: Option<string>, runId: string)
    requires Alike(runs)
    ensures var cut := if |runs| <= 3 then runs else runs[|runs| - 3..];
      Newest(Matching(cut, model, runId), 2) == Newest(Matching(runs, model, runId), 2)
  {
    hide Matching, Alike, Continues, Newest;
    if |runs| > 3 {
      var n := |runs|;
      var a, b, c := runs[n - 3], runs[n - 2], runs[n - 1];
      var early := Matching(runs[..n - 3], model, runId);
      var last := Picked(a, model, runId) + Picked(b, model, runId) + Picked(c, model, runId);
      ThreeMatch(runs[..n - 3], a, b, c, model, runId);
      ThreeMatch([], a, b, c, model, runId);
      NothingMatches(model, runId);
      assert runs == runs[..n - 3] + [a, b, c] && runs[n - 3..] == [] + [a, b, c];
      assert [] + last == last;
      OneGone(runs, model, runId);
      if Matching(runs, model, runId) == [] {
        assert last == [];
      } else {
        assert |last| >= 2;
        LastTwo(early, last);
      }
    }
  }

  function Picked(run: Run, model: Option<string>, runId: string): State {
    if Continues(run, model, runId) then [run] else []
  }

  lemma ThreeMatch(runs: State, a: Run, b: Run, c: Run, model: Option<string>, runId: string)
    ensures Matching(runs + [a, b, c], model, runId) ==
      Matching(runs, model, runId) + (Picked(a, model, runId) + Picked(b, model, runId) + Picked(c, model, runId))
  {
    hide Matching, Continues;
    assert runs + [a, b, c] == runs + [a] + [b] + [c];
    MatchingNext(runs, a, model, runId);
    MatchingNext(runs + [a], b, model, runId);
    MatchingNext(runs + [a] + [b], c, model, runId);
  }

  lemma LastTwo(early: State, last: State)
    requires |last| >= 2
    ensures Newest(early + last, 2) == Newest(last, 2)
  {
  }

  lemma NothingMatches(model: Option<string>, runId: string)
    ensures Matching([], model, runId) == []
  {
  }

  /** Of the last three runs a filter drops one at most, or it drops all runs. */
  lemma OneGone(runs: State, model: Option<string>, runId: string)
    requires Alike(runs) && |runs| > 3
    ensures var n := |runs|; var a, b, c := runs[n - 3], runs[n - 2], runs[n - 1];
      || (Continues(a, model, runId) && Continues(b, model, runId))
      || (Continues(a, model, runId) && Continues(c, model, runId))
      || (Continues(b, model, runId) && Continues(c, model, runId))
      || Matching(runs, model, runId) == []
  {
    if runs[0].modelVersion != model {
      AllGone(runs, model, runId);
    }
  }

  lemma {:induction false} AllGone(runs: State, model: Option<string>, runId: string)
    requires forall i :: 0 <= i < |runs| ==> runs[i].modelVersion != model
    ensures Matching(runs, model, runId) == []
  {
    if runs != [] {
      AllGone(runs[..|runs| - 1], model, runId);
    }
  }

  /** The history, cut to three at every step, is the last three of all the runs that are current. */
  lemma {:induction false} BuiltIsCurrent(batches: seq<Batch>)
    ensures var runs := RunsBelow(batches, |batches|);
      Built(batches) == if |runs| <= 3 then runs else runs[|runs| - 3..]
  {
    hide Matching, RunsBelow, Alike, ModelOf, NextState, RunAt;
    if batches == [] {
      NoneBelow(batches);
    } else {
      var init, last := batches[..|batches| - 1], batches[|batches| - 1];
      assert batches == init + [last];
      BuiltIsCurrent(init);
      RunsNext(init, last);
      NextIs(Built(init), last);
      RunsAlike(init);
      if ModelOf(last.records).Some? {
        var runs := RunsBelow(init, |init|);
        CutFirst(runs, ModelOf(last.records), last.runId);
      }
    }
  }

  lemma NoneBelow(batches: seq<Batch>)
    ensures RunsBelow(batches, 0) == []
  {
  }

  lemma {:induction false} RunsAreCurrent(batches: seq<Batch>, n: nat)
    ensures var c := CurrentBelow(batches, n);
      && |RunsBelow(batches, n)| == |c|
      && forall t :: 0 <= t < |c| ==> Current(batches, c[t]) && RunsBelow(batches, n)[t] == RunAt(batches[c[t]])
  {
    hide Current, ModelOf, RunAt;
    if n > 0 {
      RunsAreCurrent(batches, n - 1);
      if Current(batches, n - 1) {
        CurrentHasModel(batches, n - 1);
      }
    }
  }

  /** Where the kept runs come from: the last three sets of records whose runs are current. */
  ghost function KeptFrom(batches: seq<Batch>): seq<nat> {
    var c := CurrentBelow(batches, |batches|);
    if |c| <= 3 then c else c[|c| - 3..]
  }

  lemma KeptRuns(batches: seq<Batch>)
    ensures |Built(batches)| == |KeptFrom(batches)| <= HISTORY_RUNS
    ensures forall t :: 0 <= t < |KeptFrom(batches)| ==>
      && Current(batches, KeptFrom(batches)[t]) && Built(batches)[t] == RunAt(batches[KeptFrom(batches)[t]])
  {
    hide Current, ModelOf, RunAt, Built, RunsBelow, CurrentBelow;
    BuiltIsCurrent(batches);
    RunsAreCurrent(batches, |batches|);
  }

  // ----- the curve, from the records -----

  type Sets = seq<seq<Record>>

  function PoolCount(sets: Sets, model: string, bin: nat): nat {
    if sets == [] then 0 else PoolCount(sets[..|sets| - 1], model, bin) + StretchCount(sets[|sets| - 1], model, bin)
  }

  function PoolMissed(sets: Sets, model: string, bin: nat): nat {
    if sets == [] then 0 else PoolMissed(sets[..|sets| - 1], model, bin) + StretchMissed(sets[|sets| - 1], model, bin)
  }

  function PoolSum(sets: Sets, model: string, bin: nat): real {
    if sets == [] then 0.0 else PoolSum(sets[..|sets| - 1], model, bin) + StretchSum(sets[|sets| - 1], model, bin)
  }

  function PoolSize(sets: Sets, model: string): nat {
    PoolCount(sets, model, 0) + PoolCount(sets, model, 1) + PoolCount(sets, model, 2) + PoolCount(sets, model, 3) +
    PoolCount(sets, model, 4)
  }

  function PoolMisses(sets: Sets, model: string): nat {
    PoolMissed(sets, model, 0) + PoolMissed(sets, model, 1) + PoolMissed(sets, model, 2) + PoolMissed(sets, model, 3) +
    PoolMissed(sets, model, 4)
  }

  /** The misses of a stretch, with twenty more records at the overall rate. */
  function PoolRate(sets: Sets, model: string, bin: nat): real
    requires PoolSize(sets, model) > 0
  {
    (PoolMissed(sets, model, bin) as real + 20.0 * (PoolMisses(sets, model) as real / PoolSize(sets, model) as real)) /
    (PoolCount(sets, model, bin) as real + 20.0)
  }

  function PoolRates(sets: Sets, model: string): seq<real>
    requires PoolSize(sets, model) > 0
  {
    [PoolRate(sets, model, 0), PoolRate(sets, model, 1), PoolRate(sets, model, 2), PoolRate(sets, model, 3),
     PoolRate(sets, model, 4)]
  }

  function PoolWeight(sets: Sets, model: string, bin: nat): real {
    PoolCount(sets, model, bin) as real + 20.0
  }

  function PoolWeights(sets: Sets, model: string): seq<real> {
    [PoolWeight(sets, model, 0), PoolWeight(sets, model, 1), PoolWeight(sets, model, 2), PoolWeight(sets, model, 3),
     PoolWeight(sets, model, 4)]
  }

  /** The point of a stretch: how many scores, and their average if there are any, else its middle. */
  ghost predicate PointOf(sets: Sets, model: string, bin: nat, point: Point) {
    var count := PoolCount(sets, model, bin);
    && point.count == count
    && (count > 0 ==> point.mean * count as real == PoolSum(sets, model, bin))
    && (count == 0 ==> point.mean * 10.0 == (2 * bin + 1) as real)
  }

  /** The curve is the best non-decreasing fit of these rates, weighed by the scores and twenty more. */
  ghost predicate FittedTo(sets: Sets, model: string, points: seq<Point>) {
    && PoolSize(sets, model) > 0 && |points| == 5
    && (forall bin: nat :: bin < 5 ==> PointOf(sets, model, bin, points[bin]))
    && Fits(PoolRates(sets, model), PoolWeights(sets, model), Calibrated(points))
  }

  lemma RunAtCounts(b: Batch, model: string, bin: nat)
    requires ModelOf(b.records) == Some(model) && bin < BINS
    ensures RowCount(RunAt(b), bin) == StretchCount(b.records, model, bin)
    ensures RowMissed(RunAt(b), bin) == StretchMissed(b.records, model, bin)
    ensures RowScores(RunAt(b), bin) == StretchSum(b.records, model, bin)
  {
    hide ModelOf, Keep, CountIn, MissedIn, ScoresIn, StretchCount, StretchMissed, StretchSum;
    RowCounts(b.records, model, bin);
    var source := Keep(b.records, Some(model));
    assert RunAt(b).rows[bin] == RowOf(source, bin);
    RowHolds(source, RunAt(b), bin);
  }

  lemma RowHolds(source: seq<Record>, run: Run, bin: nat)
    requires bin < BINS && bin < |run.rows| && run.rows[bin] == RowOf(source, bin)
    ensures RowCount(run, bin) == CountIn(source, bin) && RowMissed(run, bin) == MissedIn(source, bin)
    ensures RowScores(run, bin) == ScoresIn(source, bin)
  {
    hide CountIn, MissedIn, ScoresIn;
    ScoresStayInBin(source, bin);
    MissedFew(source, bin);
    if CountIn(source, bin) > 0 {
      Whole(ScoresIn(source, bin), CountIn(source, bin));
    }
  }

  lemma MissedFew(source: seq<Record>, bin: nat)
    ensures MissedIn(source, bin) <= CountIn(source, bin)
  {
    var missed := MissedIn(source, bin);
  }

  lemma Whole(sum: real, n: nat)
    requires n > 0
    ensures sum / n as real * n as real == sum
  {
  }

  /** A history of runs, and the sets of records they were made from. */
  ghost predicate MadeFrom(runs: State, kept: seq<Batch>, model: string) {
    && |runs| == |kept|
    && forall t :: 0 <= t < |kept| ==> ModelOf(kept[t].records) == Some(model) && runs[t] == RunAt(kept[t])
  }

  function RecordsOf(kept: seq<Batch>): Sets {
    seq(|kept|, t requires 0 <= t < |kept| => kept[t].records)
  }

  lemma {:induction false} PoolIs(kept: seq<Batch>, runs: State, model: string, bin: nat)
    requires bin < BINS && MadeFrom(runs, kept, model)
    ensures BinCount(runs, bin) == PoolCount(RecordsOf(kept), model, bin)
    ensures BinMissed(runs, bin) == PoolMissed(RecordsOf(kept), model, bin)
    ensures BinScores(runs, bin) == PoolSum(RecordsOf(kept), model, bin)
  {
    hide ModelOf, RunAt, RowCount, RowMissed, RowScores, StretchCount, StretchMissed, StretchSum;
    if kept != [] {
      var last := |kept| - 1;
      PoolIs(kept[..last], runs[..last], model, bin);
      assert RecordsOf(kept)[..last] == RecordsOf(kept[..last]);
      RunAtCounts(kept[last], model, bin);
    }
  }

  /** The sets of records that the history is made from. */
  ghost function KeptBatches(batches: seq<Batch>): seq<Batch>
    requires forall t :: 0 <= t < |KeptFrom(batches)| ==> KeptFrom(batches)[t] < |batches|
  {
    seq(|KeptFrom(batches)|, t requires 0 <= t < |KeptFrom(batches)| => batches[KeptFrom(batches)[t]])
  }

  /**
   The curve of a history is fitted to the records themselves: those of its model in the last three sets whose runs are
   current, each stretch with its own count, misses and average score.
   */
  lemma CurveFitsRecords(batches: seq<Batch>, points: seq<Point>) returns (model: string)
    requires Built(batches) != [] && IsFitOf(Built(batches), points)
    ensures |KeptFrom(batches)| == |Built(batches)|
    ensures forall t :: 0 <= t < |KeptFrom(batches)| ==>
      KeptFrom(batches)[t] < |batches| && ModelOf(batches[KeptFrom(batches)[t]].records) == Some(model)
    ensures FittedTo(RecordsOf(KeptBatches(batches)), model, points)
  {
    hide Current, ModelOf, RunAt, Built, KeptFrom, FittedTo, IsFitOf, RecordsOf;
    KeptRuns(batches);
    var from, runs := KeptFrom(batches), Built(batches);
    forall t | 0 <= t < |from| ensures from[t] < |batches| && ModelOf(batches[from[t]].records).Some? {
      CurrentHasModel(batches, from[t]);
    }
    model := ModelOf(batches[from[0]].records).value;
    forall t | 0 <= t < |from| ensures ModelOf(batches[from[t]].records) == Some(model) {
      SameModel(batches, from[t], from[0]);
    }
    assert MadeFrom(runs, KeptBatches(batches), model);
    FitsPool(KeptBatches(batches), runs, model, points);
  }

  lemma SameModel(batches: seq<Batch>, i: nat, j: nat)
    requires Current(batches, i) && Current(batches, j)
    ensures ModelOf(batches[i].records) == ModelOf(batches[j].records)
  {
    hide ModelOf;
  }

  lemma FitsPool(kept: seq<Batch>, runs: State, model: string, points: seq<Point>)
    requires MadeFrom(runs, kept, model) && IsFitOf(runs, points)
    ensures FittedTo(RecordsOf(kept), model, points)
  {
    hide MadeFrom, BinCount, BinMissed, BinScores, PoolCount, PoolMissed, PoolSum, Fits, RecordsOf, BinMean, PointOf;
    var sets := RecordsOf(kept);
    PoolIs(kept, runs, model, 0);
    PoolIs(kept, runs, model, 1);
    PoolIs(kept, runs, model, 2);
    PoolIs(kept, runs, model, 3);
    PoolIs(kept, runs, model, 4);
    assert Total(runs) == PoolSize(sets, model) && TotalMissed(runs) == PoolMisses(sets, model);
    assert Rates(runs) == PoolRates(sets, model) && Weights(runs) == PoolWeights(sets, model);
    forall bin: nat | bin < 5 ensures PointOf(sets, model, bin, points[bin]) {
      PoolIs(kept, runs, model, bin);
      PointIs(runs, sets, model, bin, points[bin]);
    }
  }

  lemma PointIs(runs: State, sets: Sets, model: string, bin: nat, point: Point)
    requires bin < BINS && point.mean == BinMean(runs, bin) && point.count == BinCount(runs, bin)
    requires BinCount(runs, bin) == PoolCount(sets, model, bin) && BinScores(runs, bin) == PoolSum(sets, model, bin)
    ensures PointOf(sets, model, bin, point)
  {
    hide BinCount, BinScores, PoolCount, PoolSum;
    if BinCount(runs, bin) > 0 {
      Whole(BinScores(runs, bin), BinCount(runs, bin));
    }
  }

  // ----- which runs a curve is made from -----

  /** The latest prompt is the largest that any run has. */
  lemma {:induction false} LatestIsLargest(runs: seq<Run>)
    ensures LatestPrompt(runs).None? <==> forall i :: 0 <= i < |runs| ==> runs[i].promptVersion.None?
    ensures LatestPrompt(runs).Some? ==>
      && (exists i :: 0 <= i < |runs| && runs[i].promptVersion == LatestPrompt(runs))
      && forall i :: 0 <= i < |runs| && runs[i].promptVersion.Some? ==>
           runs[i].promptVersion.value <= LatestPrompt(runs).value
  {
    if runs != [] {
      var init := runs[..|runs| - 1];
      LatestIsLargest(init);
      assert forall i :: 0 <= i < |init| ==> init[i] == runs[i];
    }
  }

  /** The runs of a model, or of a prompt, each as often as it is there, and no other. */
  lemma {:induction false} OwnRuns(runs: seq<Run>, model: string, prompt: int)
    ensures forall run :: multiset(ForModel(runs, model))[run] ==
              if run.modelVersion == Some(model) then multiset(runs)[run] else 0
    ensures forall run :: multiset(ForPrompt(runs, prompt))[run] ==
              if run.promptVersion == Some(prompt) then multiset(runs)[run] else 0
  {
    if runs != [] {
      var init, last := runs[..|runs| - 1], runs[|runs| - 1];
      OwnRuns(init, model, prompt);
      assert runs == init + [last];
    }
  }
}
