/** The nightly rotation: plan a batch of shards, merge its results, advance the persisted state. */
module Nightly {
  import opened Wrappers

  const MAX_SHARDS := 256
  const BATCH_SIZE := 16
  const TARGET_SHARD_SECONDS := 14400
  const SHARD_SETUP_SECONDS := 300

  datatype PackageCount = PackageCount(package: string, count: nat)

  /** Mutants per package, in package order. */
  type Listing = seq<PackageCount>

  datatype Samples = Samples(buildSamples: nat, buildSeconds: real, testSamples: nat, testSeconds: real)
  type Metrics = map<string, Samples>

  datatype State = State(
    cycleSha: string,
    nextShard: nat,
    shardCount: nat,
    listing: Listing,
    metrics: Metrics,
    lastMainSha: string)

  datatype Plan = Plan(
    persist: bool,
    headSha: string,
    cycleSha: string,
    nextShard: nat,
    batchEnd: nat,
    shardCount: nat,
    selected: seq<nat>,
    listing: Listing,
    metrics: Metrics)

  datatype PlanError = ListingChanged | StartOutOfRange

  // ----- estimated_shards -----

  function BootstrapBuild(package: string): real {
    if package == "prismattyc-host" then 6.5 else if package == "prismattyc-mux" then 7.6 else 8.0
  }

  function BootstrapTest(package: string): real {
    if package == "prismattyc-host" then 99.0
    else if package == "prismattyc-mux" then 70.7
    else if package == "prismattyc-core" then 1.0
    else 5.0
  }

  /** Seconds per mutant: measured where there are samples, else the bootstrap estimate. */
  function PackageCost(package: string, metrics: Metrics): real {
    var s := if package in metrics then metrics[package] else Samples(0, 0.0, 0, 0.0);
    (if s.buildSamples > 0 then s.buildSeconds / s.buildSamples as real else BootstrapBuild(package)) +
    (if s.testSamples > 0 then s.testSeconds / s.testSamples as real else BootstrapTest(package))
  }

  function TotalSeconds(listing: Listing, metrics: Metrics): real {
    if listing == [] then 0.0
    else
      var last := listing[|listing| - 1];
      TotalSeconds(listing[..|listing| - 1], metrics) + last.count as real * PackageCost(last.package, metrics)
  }

  function Ceil(x: real): int {
    -((-x).Floor)
  }

  const BUDGET: real := (TARGET_SHARD_SECONDS - SHARD_SETUP_SECONDS) as real

  function EstimatedShards(listing: Listing, metrics: Metrics): nat {
    var wanted := Ceil(TotalSeconds(listing, metrics) * 1.25 / BUDGET);
    var least := if wanted > 1 then wanted else 1;
    if least < MAX_SHARDS then least else MAX_SHARDS
  }

  lemma CeilBounds(x: real)
    ensures Ceil(x) as real - 1.0 < x <= Ceil(x) as real
  {
  }

  /**
   The shards hold the estimated work with a quarter to spare, if and only if
   256 shards could; and one shard fewer would not.
   */
  lemma HeadroomKept(listing: Listing, metrics: Metrics)
    ensures var total, count := TotalSeconds(listing, metrics), EstimatedShards(listing, metrics);
            && (total * 1.25 <= count as real * BUDGET <==> total * 1.25 <= MAX_SHARDS as real * BUDGET)
            && 1 <= count <= MAX_SHARDS
            && (count > 1 ==> total * 1.25 > (count - 1) as real * BUDGET)
  {
    var total := TotalSeconds(listing, metrics);
    var x := total * 1.25 / BUDGET;
    CeilBounds(x);
    assert x * BUDGET == total * 1.25;
  }

  /** What a mutant costs: the averages of a package once it is sampled, and the guesses before. */
  lemma CostMeans(package: string, metrics: Metrics)
    ensures package in metrics && metrics[package].buildSamples > 0 && metrics[package].testSamples > 0 ==>
      var s := metrics[package];
      PackageCost(package, metrics) * (s.buildSamples as real * s.testSamples as real) ==
        s.buildSeconds * s.testSamples as real + s.testSeconds * s.buildSamples as real
    ensures package !in metrics ==>
      PackageCost(package, metrics) ==
        if package == "prismattyc-host" then 105.5 else if package == "prismattyc-mux" then 78.3
        else if package == "prismattyc-core" then 9.0 else 13.0
  {
    if package in metrics && metrics[package].buildSamples > 0 && metrics[package].testSamples > 0 {
      var s := metrics[package];
      var b, t := s.buildSamples as real, s.testSamples as real;
      var build, test := s.buildSeconds / b, s.testSeconds / t;
      assert build * b == s.buildSeconds && test * t == s.testSeconds;
      assert (build + test) * (b * t) == (build * b) * t + (test * t) * b;
    }
  }

  lemma TotalNext(listing: Listing, more: PackageCount, metrics: Metrics)
    ensures TotalSeconds(listing + [more], metrics) ==
            TotalSeconds(listing, metrics) + more.count as real * PackageCost(more.package, metrics)
    ensures TotalSeconds([], metrics) == 0.0
  {
    hide PackageCost;
    assert (listing + [more])[..|listing|] == listing;
  }

  /** Listings add up, package by package. */
  lemma {:induction false} TotalAdds(a: Listing, b: Listing, metrics: Metrics)
    ensures TotalSeconds(a + b, metrics) == TotalSeconds(a, metrics) + TotalSeconds(b, metrics)
    ensures forall p :: TotalSeconds([p], metrics) == p.count as real * PackageCost(p.package, metrics)
  {
    hide TotalSeconds, PackageCost;
    forall p ensures TotalSeconds([p], metrics) == p.count as real * PackageCost(p.package, metrics) {
      TotalNext([], p, metrics);
      assert [] + [p] == [p];
    }
    if b == [] {
      TotalNext([], PackageCount("", 0), metrics);
      assert a + b == a;
    } else {
      var init, last := b[..|b| - 1], b[|b| - 1];
      TotalAdds(a, init, metrics);
      TotalNext(a + init, last, metrics);
      TotalNext(init, last, metrics);
      assert a + b == a + init + [last] && b == init + [last];
    }
  }

  /** In seconds: four hours a shard less five minutes, and at most 256 shards. */
  lemma HeadroomInSeconds(listing: Listing, metrics: Metrics)
    ensures var total, count := TotalSeconds(listing, metrics), EstimatedShards(listing, metrics);
            && (total * 1.25 <= count as real * 14100.0 <==> total * 1.25 <= 256.0 * 14100.0)
            && 1 <= count <= 256 && (count > 1 ==> total * 1.25 > (count - 1) as real * 14100.0)
  {
    HeadroomKept(listing, metrics);
  }

  // ----- plan -----

  function Range(from: nat, to: nat): seq<nat>
    requires from <= to
  {
    seq(to - from, i requires 0 <= i => from + i)
  }

  function Min(a: nat, b: nat): nat {
    if a < b then a else b
  }

  /** scheduled: a scheduled run on main, the only kind that reads or writes the state. */
  function MakePlan(state: Option<State>, scheduled: bool, currentSha: string, listing: Listing, startShard: nat)
    : Result<Plan, PlanError>
  {
    var restored := scheduled && state.Some?;
    if restored && state.value.listing != [] && state.value.listing != listing then Err(ListingChanged)
    else
      var cycleSha := if restored then state.value.cycleSha else currentSha;
      var metrics: Metrics := if restored then state.value.metrics else map[];
      var saved := if restored then state.value.shardCount else 0;
      var shardCount := if saved > 0 then saved else EstimatedShards(listing, metrics);
      var nextShard := if !scheduled then startShard else if saved > 0 then state.value.nextShard else 0;
      if nextShard >= shardCount then Err(StartOutOfRange)
      else
        var batchEnd := Min(nextShard + BATCH_SIZE, shardCount);
        Ok(Plan(scheduled, currentSha, cycleSha, nextShard, batchEnd, shardCount, Range(nextShard, batchEnd),
                listing, metrics))
  }

  // ----- merge -----

  datatype Counts = Counts(caught: nat, missed: nat, timeout: nat, unviable: nat)
  datatype Summary = Caught | Missed | Timeout | Unviable | Unknown

  /** One outcome of a shard: malformed, the baseline, or a mutant. */
  datatype Entry = Malformed | Baseline | Mutant(identity: string, summary: Summary)

  datatype ShardData = ShardData(
    pinnedVersion: bool,
    entries: seq<Entry>,
    total: Option<int>,
    ended: bool,
    caught: int, missed: int, timeout: int, unviable: int)

  /** A report file: the shard its path names, if any, and its content, if readable. */
  datatype Report = Report(shard: Option<nat>, data: Option<ShardData>)

  function Rows(entries: seq<Entry>): nat {
    if entries == [] then 0 else Rows(entries[..|entries| - 1]) + if entries[|entries| - 1].Mutant? then 1 else 0
  }

  function Tally(entries: seq<Entry>, summary: Summary): nat {
    if entries == [] then 0
    else
      var last := entries[|entries| - 1];
      Tally(entries[..|entries| - 1], summary) + if last.Mutant? && last.summary == summary then 1 else 0
  }

  function Identities(entries: seq<Entry>): seq<string> {
    if entries == [] then []
    else
      var last := entries[|entries| - 1];
      Identities(entries[..|entries| - 1]) + if last.Mutant? then [last.identity] else []
  }

  /** A finished report whose own counts agree with its outcomes. */
  predicate SoundShard(data: ShardData) {
    && data.pinnedVersion && data.ended
    && (forall e :: e in data.entries ==> !e.Malformed? && (e.Mutant? ==> e.summary != Unknown))
    && data.total == Some(Rows(data.entries))
    && data.caught == Tally(data.entries, Caught) && data.missed == Tally(data.entries, Missed)
    && data.timeout == Tally(data.entries, Timeout) && data.unviable == Tally(data.entries, Unviable)
  }

  lemma EntryNext(entries: seq<Entry>, e: Entry)
    ensures Rows(entries + [e]) == Rows(entries) + if e.Mutant? then 1 else 0
    ensures forall s :: Tally(entries + [e], s) == Tally(entries, s) + if e.Mutant? && e.summary == s then 1 else 0
    ensures Identities(entries + [e]) ==
            if e.Mutant? then Identities(entries) + [e.identity] else Identities(entries)
  {
    assert (entries + [e])[..|entries|] == entries;
  }

  /** One report for each selected shard and no other, each sound, no mutant twice. */
  predicate CompleteBatch(selected: seq<nat>, found: map<nat, Option<ShardData>>, stray: bool) {
    && !stray
    && (forall shard :: shard in found ==> shard in selected)
    && (forall shard :: shard in selected ==> shard in found && found[shard].Some? && SoundShard(found[shard].value))
    && Distinct(AllIdentities(selected, found))
  }

  function AllIdentities(shards: seq<nat>, found: map<nat, Option<ShardData>>): seq<string> {
    if shards == [] then []
    else
      var last := shards[|shards| - 1];
      AllIdentities(shards[..|shards| - 1], found) +
      if last in found && found[last].Some? && found[last].value.pinnedVersion
      then Identities(found[last].value.entries) else []
  }

  /** Files by shard; stray is set by a nameless report or a second one for a shard. */
  function Sort(reports: seq<Report>): (map<nat, Option<ShardData>>, bool) {
    if reports == [] then (map[], false)
    else
      var (found, stray) := Sort(reports[..|reports| - 1]);
      var last := reports[|reports| - 1];
      if last.shard.None? || last.shard.value in found then (found, true)
      else (found[last.shard.value := last.data], stray)
  }

  ghost predicate GoodEntries(entries: seq<Entry>) {
    forall e :: e in entries ==> !e.Malformed? && (e.Mutant? ==> e.summary != Unknown)
  }

  /** New identities, each once. */
  ghost predicate FreshIds(ids: seq<string>, seen: set<string>) {
    Distinct(ids) && forall id :: id in ids ==> id !in seen
  }

  function IdSet(ids: seq<string>): set<string> {
    set id | id in ids
  }

  lemma FreshNext(ids: seq<string>, id: string, seen: set<string>)
    ensures FreshIds(ids + [id], seen) <==> FreshIds(ids, seen) && id !in seen + IdSet(ids)
    ensures IdSet(ids + [id]) == IdSet(ids) + {id}
  {
    var longer := ids + [id];
    assert longer[|ids|] == id && longer[..|ids|] == ids;
    if FreshIds(longer, seen) {
      forall i, j | 0 <= i < j < |ids| ensures ids[i] != ids[j] {
        assert longer[i] != longer[j];
      }
      forall x | x in ids ensures x != id && x !in seen {
        var i :| 0 <= i < |ids| && ids[i] == x;
        assert longer[i] != longer[|ids|] && longer[i] in longer;
      }
      assert id in longer;
    }
  }

  lemma NoEntries(seen: set<string>)
    ensures Rows([]) == 0 && Identities([]) == [] && IdSet([]) == {} && GoodEntries([]) && FreshIds([], seen)
    ensures Counted([]) == Counts(0, 0, 0, 0)
  {
  }

  lemma GoodNext(entries: seq<Entry>, e: Entry)
    ensures GoodEntries(entries + [e]) <==>
            GoodEntries(entries) && !e.Malformed? && (e.Mutant? ==> e.summary != Unknown)
  {
    assert e in entries + [e] && forall x :: x in entries ==> x in entries + [e];
  }

  lemma SoundMeans(data: ShardData)
    ensures SoundShard(data) <==>
      && data.pinnedVersion && data.ended && GoodEntries(data.entries) && data.total == Some(Rows(data.entries))
      && data.caught == Tally(data.entries, Caught) && data.missed == Tally(data.entries, Missed)
      && data.timeout == Tally(data.entries, Timeout) && data.unviable == Tally(data.entries, Unviable)
  {
  }

  function Counted(entries: seq<Entry>): Counts {
    Counts(Tally(entries, Caught), Tally(entries, Missed), Tally(entries, Timeout), Tally(entries, Unviable))
  }

  function CountOne(c: Counts, summary: Summary): Counts {
    match summary
    case Caught => c.(caught := c.caught + 1)
    case Missed => c.(missed := c.missed + 1)
    case Timeout => c.(timeout := c.timeout + 1)
    case Unviable => c.(unviable := c.unviable + 1)
    case Unknown => c
  }

  lemma CountedNext(entries: seq<Entry>, e: Entry)
    ensures Counted(entries + [e]) == if e.Mutant? then CountOne(Counted(entries), e.summary) else Counted(entries)
  {
    EntryNext(entries, e);
  }

  method ScanEntries(entries: seq<Entry>, seen0: set<string>)
    returns (errors: nat, rows: nat, counts: Counts, seen: set<string>)
    ensures rows == Rows(entries) && counts == Counted(entries)
    ensures seen == seen0 + IdSet(Identities(entries))
    ensures errors == 0 <==> GoodEntries(entries) && FreshIds(Identities(entries), seen0)
  {
    hide Rows, Tally, Identities, FreshIds, GoodEntries, IdSet, Counted, CountOne;
    errors, rows, counts, seen := 0, 0, Counts(0, 0, 0, 0), seen0;
    NoEntries(seen0);
    assert entries[..0] == [];
    for i := 0 to |entries|
      invariant rows == Rows(entries[..i]) && counts == Counted(entries[..i])
      invariant seen == seen0 + IdSet(Identities(entries[..i]))
      invariant errors == 0 <==> GoodEntries(entries[..i]) && FreshIds(Identities(entries[..i]), seen0)
    {
      var e := entries[i];
      assert entries[..i + 1] == entries[..i] + [e];
      EntryNext(entries[..i], e);
      GoodNext(entries[..i], e);
      CountedNext(entries[..i], e);
      if e.Malformed? {
        errors := errors + 1;
      } else if e.Mutant? {
        FreshNext(Identities(entries[..i]), e.identity, seen0);
        rows := rows + 1;
        if e.identity in seen {
          errors := errors + 1;
        }
        seen := seen + {e.identity};
        if e.summary == Unknown {
          errors := errors + 1;
        }
        counts := CountOne(counts, e.summary);
      }
    }
    assert entries[..|entries|] == entries;
  }

  /** Checks one shard's outcomes; returns whether they are sound and add no identity seen before. */
  method CheckShard(data: ShardData, seen0: set<string>) returns (ok: bool, seen: set<string>)
    ensures seen == if data.pinnedVersion then seen0 + IdSet(Identities(data.entries)) else seen0
    ensures ok <==> SoundShard(data) && FreshIds(Identities(data.entries), seen0)
  {
    if !data.pinnedVersion {
      return false, seen0;
    }
    SoundMeans(data);
    hide SoundShard, GoodEntries, FreshIds, Rows, Tally;
    var errors, rows, counts;
    errors, rows, counts, seen := ScanEntries(data.entries, seen0);
    ok := errors == 0 && data.total == Some(rows) && data.ended
          && data.caught == counts.caught && data.missed == counts.missed
          && data.timeout == counts.timeout && data.unviable == counts.unviable;
  }

  lemma FreshAppend(a: seq<string>, b: seq<string>)
    ensures Distinct(a + b) <==> Distinct(a) && FreshIds(b, IdSet(a))
    ensures IdSet(a + b) == IdSet(a) + IdSet(b)
  {
    var both := a + b;
    assert both[..|a|] == a && both[|a|..] == b;
    if Distinct(both) {
      forall i, j | 0 <= i < j < |a| ensures a[i] != a[j] {
        assert both[i] != both[j];
      }
      forall i, j | 0 <= i < j < |b| ensures b[i] != b[j] {
        assert both[|a| + i] != both[|a| + j];
      }
      forall x, y | x in a && y in b ensures x != y {
        var i :| 0 <= i < |a| && a[i] == x;
        var j :| 0 <= j < |b| && b[j] == y;
        assert both[i] != both[|a| + j];
      }
    }
    if Distinct(a) && FreshIds(b, IdSet(a)) {
      forall i, j | 0 <= i < j < |both| ensures both[i] != both[j] {
        assert i < |a| <= j ==> both[i] in a && both[j] in b;
      }
    }
  }

  method SortReports(reports: seq<Report>) returns (found: map<nat, Option<ShardData>>, stray: bool)
    ensures (found, stray) == Sort(reports)
  {
    found, stray := map[], false;
    for i := 0 to |reports|
      invariant (found, stray) == Sort(reports[..i])
    {
      assert reports[..i + 1][..i] == reports[..i];
      var report := reports[i];
      if report.shard.None? || report.shard.value in found {
        stray := true;
      } else {
        found := found[report.shard.value := report.data];
      }
    }
    assert reports[..|reports|] == reports;
  }

  /** Each of these shards has one sound report, and no mutant appears twice in them. */
  ghost predicate AllSound(shards: seq<nat>, found: map<nat, Option<ShardData>>) {
    && (forall shard :: shard in shards ==> shard in found && found[shard].Some? && SoundShard(found[shard].value))
    && Distinct(AllIdentities(shards, found))
  }

  lemma ShardNext(shards: seq<nat>, shard: nat, found: map<nat, Option<ShardData>>)
    ensures AllSound(shards + [shard], found) <==>
      && AllSound(shards, found) && shard in found && found[shard].Some? && SoundShard(found[shard].value)
      && FreshIds(Identities(found[shard].value.entries), IdSet(AllIdentities(shards, found)))
    ensures IdSet(AllIdentities(shards + [shard], found)) ==
            if shard in found && found[shard].Some? && found[shard].value.pinnedVersion
            then IdSet(AllIdentities(shards, found)) + IdSet(Identities(found[shard].value.entries))
            else IdSet(AllIdentities(shards, found))
  {
    var longer := shards + [shard];
    assert longer[..|shards|] == shards && shard in longer && forall x :: x in shards ==> x in longer;
    if shard in found && found[shard].Some? && found[shard].value.pinnedVersion {
      FreshAppend(AllIdentities(shards, found), Identities(found[shard].value.entries));
    }
  }

  /** Whether every selected shard has exactly one sound report and nothing else was uploaded. */
  method MergeReports(selected: seq<nat>, reports: seq<Report>) returns (complete: bool)
    ensures complete <==> CompleteBatch(selected, Sort(reports).0, Sort(reports).1)
    ensures Distinct(selected) ==> (complete <==> OneEach(selected, reports))
  {
    if Distinct(selected) {
      CompleteMeans(selected, reports);
    }
    hide SoundShard, Identities, AllIdentities, FreshIds, IdSet, AllSound, OneEach, CompleteBatch, Distinct;
    var found, stray := SortReports(reports);
    var errors, incomplete, completeShards := stray, false, 0;
    if exists shard :: shard in found && shard !in selected {
      errors := true;
    }
    var seen: set<string> := {};
    NoShardsYet(found);
    assert selected[..0] == [];
    for i := 0 to |selected|
      invariant completeShards <= i
      invariant seen == IdSet(AllIdentities(selected[..i], found))
      invariant incomplete ==> completeShards < i
      invariant completeShards == i <==> AllSound(selected[..i], found)
    {
      var shard := selected[i];
      assert selected[..i + 1] == selected[..i] + [shard];
      ShardNext(selected[..i], shard, found);
      if shard !in found {
        incomplete := true;
      } else if found[shard].Some? {
        SoundMeans(found[shard].value);
        var ok;
        ok, seen := CheckShard(found[shard].value, seen);
        if ok {
          completeShards := completeShards + 1;
        }
      }
    }
    assert selected[..|selected|] == selected;
    AllSoundMeans(selected, found);
    complete := completeShards == |selected| && !incomplete && !errors;
  }

  lemma NoShardsYet(found: map<nat, Option<ShardData>>)
    ensures AllSound([], found) && IdSet(AllIdentities([], found)) == {}
  {
  }

  lemma AllSoundMeans(selected: seq<nat>, found: map<nat, Option<ShardData>>)
    ensures CompleteBatch(selected, found, false) <==>
            (forall shard :: shard in found ==> shard in selected) && AllSound(selected, found)
    ensures !CompleteBatch(selected, found, true)
  {
  }

  // ----- a complete batch, in its reports -----

  /** One readable and sound report for each selected shard, no other, and no mutant reported twice. */
  ghost predicate OneEach(selected: seq<nat>, reports: seq<Report>) {
    && (forall i :: 0 <= i < |reports| ==> reports[i].shard.Some? && reports[i].shard.value in selected)
    && (forall i, j :: 0 <= i < j < |reports| ==> reports[i].shard != reports[j].shard)
    && (forall shard :: shard in selected ==> exists i :: 0 <= i < |reports| && reports[i].shard == Some(shard))
    && (forall i :: 0 <= i < |reports| ==> reports[i].data.Some? && SoundShard(reports[i].data.value))
    && (forall i :: 0 <= i < |reports| && reports[i].data.Some? ==> Distinct(Identities(reports[i].data.value.entries)))
    && (forall i, j, id :: 0 <= i < |reports| && 0 <= j < |reports| && i != j ==> !ReportedTwice(reports[i], reports[j], id))
  }

  predicate ReportedTwice(a: Report, b: Report, id: string) {
    && a.data.Some? && id in Identities(a.data.value.entries)
    && b.data.Some? && id in Identities(b.data.value.entries)
  }

  ghost predicate EachNamed(reports: seq<Report>) {
    && (forall i :: 0 <= i < |reports| ==> reports[i].shard.Some?)
    && forall i, j :: 0 <= i < j < |reports| ==> reports[i].shard != reports[j].shard
  }

  ghost predicate Names(reports: seq<Report>, shard: nat) {
    exists i :: 0 <= i < |reports| && reports[i].shard == Some(shard)
  }

  lemma NamesNext(reports: seq<Report>, shard: nat)
    requires reports != []
    ensures Names(reports, shard) <==>
      Names(reports[..|reports| - 1], shard) || reports[|reports| - 1].shard == Some(shard)
  {
    var last := |reports| - 1;
    assert forall i :: 0 <= i < last ==> reports[..last][i] == reports[i];
    if Names(reports[..last], shard) {
      var i :| 0 <= i < last && reports[..last][i].shard == Some(shard);
      assert reports[i].shard == Some(shard);
    }
  }

  /** Every report is found under its shard. */
  ghost predicate Filed(reports: seq<Report>, found: map<nat, Option<ShardData>>) {
    forall i :: 0 <= i < |reports| ==>
      reports[i].shard.Some? && reports[i].shard.value in found && found[reports[i].shard.value] == reports[i].data
  }

  lemma FiledNext(reports: seq<Report>, found: map<nat, Option<ShardData>>)
    requires reports != [] && Filed(reports[..|reports| - 1], found)
    requires reports[|reports| - 1].shard.Some? && reports[|reports| - 1].shard.value !in found
    ensures Filed(reports, found[reports[|reports| - 1].shard.value := reports[|reports| - 1].data])
  {
    var last := |reports| - 1;
    assert forall i :: 0 <= i < last ==> reports[..last][i] == reports[i];
  }

  lemma NothingFiled()
    ensures EachNamed([]) && Filed([], map[]) && forall shard :: !Names([], shard)
  {
  }

  lemma {:induction false} SortMeans(reports: seq<Report>)
    ensures var (found, stray) := Sort(reports);
      && (forall shard :: shard in found <==> Names(reports, shard))
      && (!stray <==> EachNamed(reports)) && (!stray ==> Filed(reports, found))
  {
    hide Names, EachNamed, Filed;
    if reports == [] {
      NothingFiled();
    } else {
      var init, last := reports[..|reports| - 1], reports[|reports| - 1];
      SortMeans(init);
      NamedNext(reports);
      forall shard: nat ensures Names(reports, shard) <==> Names(init, shard) || last.shard == Some(shard) {
        NamesNext(reports, shard);
      }
      if !Sort(reports).1 {
        FiledNext(reports, Sort(init).0);
      }
    }
  }

  lemma NamedNext(reports: seq<Report>)
    requires reports != []
    ensures var init, last := reports[..|reports| - 1], reports[|reports| - 1];
      EachNamed(reports) <==> EachNamed(init) && last.shard.Some? && !Names(init, last.shard.value)
  {
    var last := |reports| - 1;
    assert forall i :: 0 <= i < last ==> reports[..last][i] == reports[i];
  }

  function IdsOf(found: map<nat, Option<ShardData>>, shard: nat): seq<string> {
    if shard in found && found[shard].Some? && found[shard].value.pinnedVersion
    then Identities(found[shard].value.entries) else []
  }

  /** No identity in two of the shards, or twice in one. */
  ghost predicate Separate(shards: seq<nat>, found: map<nat, Option<ShardData>>) {
    && (forall a :: a in shards ==> Distinct(IdsOf(found, a)))
    && forall a, b, id :: a in shards && b in shards && a != b && id in IdsOf(found, a) ==> id !in IdsOf(found, b)
  }

  lemma {:induction false} AllAre(shards: seq<nat>, found: map<nat, Option<ShardData>>)
    requires Distinct(shards)
    ensures forall id :: id in AllIdentities(shards, found) <==> exists a :: a in shards && id in IdsOf(found, a)
    ensures Distinct(AllIdentities(shards, found)) <==> Separate(shards, found)
  {
    hide Identities, Distinct;
    if shards == [] {
      NoShardsYet(found);
      NoneDistinct();
    } else {
      var init, last := shards[..|shards| - 1], shards[|shards| - 1];
      DistinctInit(shards);
      AllAre(init, found);
      FreshAppend(AllIdentities(init, found), IdsOf(found, last));
      assert shards == init + [last];
      SeparateNext(init, last, found);
    }
  }

  lemma NoneDistinct()
    ensures Distinct<string>([])
  {
  }

  lemma DistinctInit(shards: seq<nat>)
    requires shards != [] && Distinct(shards)
    ensures Distinct(shards[..|shards| - 1]) && shards[|shards| - 1] !in shards[..|shards| - 1]
  {
  }

  lemma SeparateNext(shards: seq<nat>, last: nat, found: map<nat, Option<ShardData>>)
    requires last !in shards
    ensures Separate(shards + [last], found) <==>
      && Separate(shards, found) && Distinct(IdsOf(found, last))
      && forall id :: id in IdsOf(found, last) ==> forall a :: a in shards ==> id !in IdsOf(found, a)
  {
    hide Distinct, IdsOf;
    var all := shards + [last];
    assert last in all && forall a :: a in all <==> a in shards || a == last;
  }

  /** What the merge calls a complete batch is this of the reports themselves. */
  lemma CompleteMeans(selected: seq<nat>, reports: seq<Report>)
    requires Distinct(selected)
    ensures CompleteBatch(selected, Sort(reports).0, Sort(reports).1) <==> OneEach(selected, reports)
  {
    hide SoundShard, Identities, AllIdentities, Sort;
    SortMeans(reports);
    AllAre(selected, Sort(reports).0);
    if CompleteBatch(selected, Sort(reports).0, Sort(reports).1) {
      BatchIsOneEach(selected, reports);
    }
    if OneEach(selected, reports) {
      OneEachIsBatch(selected, reports);
    }
  }

  lemma SoundIsPinned(data: ShardData)
    requires SoundShard(data)
    ensures data.pinnedVersion
  {
  }

  lemma BatchIsOneEach(selected: seq<nat>, reports: seq<Report>)
    requires Distinct(selected) && CompleteBatch(selected, Sort(reports).0, Sort(reports).1)
    ensures OneEach(selected, reports)
  {
    hide SoundShard, Identities, AllIdentities, Sort, Distinct;
    SortMeans(reports);
    var found := Sort(reports).0;
    AllAre(selected, found);
    forall i | 0 <= i < |reports|
      ensures reports[i].shard.Some? && reports[i].shard.value in selected && reports[i].data.Some?
      ensures SoundShard(reports[i].data.value)
      ensures IdsOf(found, reports[i].shard.value) == Identities(reports[i].data.value.entries)
    {
      SoundIsPinned(reports[i].data.value);
    }
  }

  lemma OneEachIsBatch(selected: seq<nat>, reports: seq<Report>)
    requires Distinct(selected) && OneEach(selected, reports)
    ensures CompleteBatch(selected, Sort(reports).0, Sort(reports).1)
  {
    hide SoundShard, Identities, AllIdentities, Sort, Distinct;
    SortMeans(reports);
    var found := Sort(reports).0;
    AllAre(selected, found);
    forall i | 0 <= i < |reports|
      ensures IdsOf(found, reports[i].shard.value) == Identities(reports[i].data.value.entries)
    {
      SoundIsPinned(reports[i].data.value);
    }
    forall shard | shard in selected ensures shard in found && found[shard].Some? && SoundShard(found[shard].value)
                                     ensures Distinct(IdsOf(found, shard))
    {
      var i :| 0 <= i < |reports| && reports[i].shard == Some(shard);
    }
    forall a, b, id | a in selected && b in selected && a != b && id in IdsOf(found, a) ensures id !in IdsOf(found, b) {
      var i :| 0 <= i < |reports| && reports[i].shard == Some(a);
      var j :| 0 <= j < |reports| && reports[j].shard == Some(b);
      assert !ReportedTwice(reports[i], reports[j], id);
    }
  }

  /** The state after a merge; None when it is not advanced. */
  function Advance(plan: Plan, complete: bool, metrics: Metrics): Option<State> {
    if !complete || !plan.persist then None
    else if plan.batchEnd >= plan.shardCount then Some(State(plan.headSha, 0, 0, [], metrics, plan.headSha))
    else Some(State(plan.cycleSha, plan.batchEnd, plan.shardCount, plan.listing, metrics, plan.headSha))
  }

  // ----- nights -----

  /** One nightly run: what main is, what the pinned commit lists, what was uploaded. */
  datatype Night = Night(
    scheduled: bool,
    currentSha: string,
    listing: Listing,
    startShard: nat,
    reports: seq<Report>,
    metrics: Metrics)

  /** One merged batch: the commit its night was planned at, and its shards. */
  datatype Batch = Batch(sha: string, shards: seq<nat>)

  /** One rotation: what its first night pinned, and the batches merged so far, oldest first. */
  datatype Rotation = Rotation(sha: string, shardCount: nat, batches: seq<Batch>)

  datatype History = History(state: Option<State>, finished: seq<Rotation>, current: Rotation)

  const NO_ROTATION := Rotation("", 0, [])
  const NEVER_RUN := History(None, [], NO_ROTATION)

  function RunNight(h: History, n: Night): History {
    var plan := MakePlan(h.state, n.scheduled, n.currentSha, n.listing, n.startShard);
    if plan.Err? then h
    else
      var p := plan.value;
      var (found, stray) := Sort(n.reports);
      var next := Advance(p, CompleteBatch(p.selected, found, stray), n.metrics);
      if next.None? then h
      else
        var current := WithBatch(h.current, p.cycleSha, p.shardCount, p.selected);
        if p.batchEnd >= p.shardCount then History(next, h.finished + [current], NO_ROTATION)
        else History(next, h.finished, current)
  }

  // ----- what a run of nights keeps -----

  function Joined(batches: seq<Batch>): seq<nat> {
    if batches == [] then [] else Joined(batches[..|batches| - 1]) + batches[|batches| - 1].shards
  }

  /** Every batch was planned at the commit its rotation pinned. */
  ghost predicate Pinned(r: Rotation) {
    forall i :: 0 <= i < |r.batches| ==> r.batches[i].sha == r.sha
  }

  /** How many batches cover this many shards. */
  function BatchesFor(shards: nat): nat {
    (shards + BATCH_SIZE - 1) / BATCH_SIZE
  }

  /** Every shard once, in order, in as few batches as possible, all of one commit. */
  ghost predicate Covered(r: Rotation) {
    && 1 <= r.shardCount && Joined(r.batches) == Range(0, r.shardCount) && |r.batches| == BatchesFor(r.shardCount)
    && Pinned(r)
  }

  /** The saved position is what the merged batches of the current rotation add up to. */
  ghost predicate Rotating(h: History) {
    && (forall r :: r in h.finished ==> Covered(r))
    && match h.state
       case None => h.current == NO_ROTATION && h.finished == []
       case Some(s) =>
         if s.shardCount == 0 then s.nextShard == 0 && s.listing == [] && h.current == NO_ROTATION
         else
           && h.current.sha == s.cycleSha && h.current.shardCount == s.shardCount
           && 0 < s.nextShard < s.shardCount && s.nextShard == BATCH_SIZE * |h.current.batches|
           && Joined(h.current.batches) == Range(0, s.nextShard) && Pinned(h.current)
  }

  lemma JoinedNext(batches: seq<Batch>, batch: Batch)
    ensures Joined(batches + [batch]) == Joined(batches) + batch.shards
  {
    assert (batches + [batch])[..|batches|] == batches;
  }

  lemma RangeSplit(a: nat, b: nat)
    requires a <= b
    ensures Range(0, a) + Range(a, b) == Range(0, b)
  {
  }

  /** A scheduled plan starts where the merged batches end. */
  lemma PlanResumes(h: History, n: Night)
    requires Rotating(h) && n.scheduled
    ensures MakePlan(h.state, true, n.currentSha, n.listing, n.startShard) != Err(StartOutOfRange)
    ensures var plan := MakePlan(h.state, true, n.currentSha, n.listing, n.startShard);
            plan.Ok? ==>
              var p := plan.value;
              && p.nextShard == BATCH_SIZE * |h.current.batches| && Joined(h.current.batches) == Range(0, p.nextShard)
              && p.nextShard < p.shardCount && p.batchEnd == Min(p.nextShard + BATCH_SIZE, p.shardCount)
              && p.selected == Range(p.nextShard, p.batchEnd)
              && (h.state.Some? ==> p.cycleSha == h.state.value.cycleSha)
              && (h.current.batches != [] ==> p.shardCount == h.current.shardCount && p.cycleSha == h.current.sha)
  {
    HeadroomKept(n.listing, if h.state.Some? then h.state.value.metrics else map[]);
    assert Range(0, 0) == [];
  }

  /** A rotation with the batch that follows those it has. */
  function WithBatch(r: Rotation, sha: string, count: nat, shards: seq<nat>): Rotation {
    if r.batches == [] then Rotation(sha, count, [Batch(sha, shards)])
    else r.(batches := r.batches + [Batch(sha, shards)])
  }

  lemma BatchJoins(r: Rotation, sha: string, count: nat, from: nat, to: nat)
    requires Joined(r.batches) == Range(0, from) && from == BATCH_SIZE * |r.batches| < count
    requires to == Min(from + BATCH_SIZE, count)
    requires r.batches != [] ==> r.sha == sha && r.shardCount == count && Pinned(r)
    ensures var next := WithBatch(r, sha, count, Range(from, to));
      && next.sha == sha && next.shardCount == count && next.batches == r.batches + [Batch(sha, Range(from, to))]
      && Joined(next.batches) == Range(0, to) && Pinned(next)
      && (to < count ==> to == BATCH_SIZE * |next.batches|) && (to >= count ==> Covered(next))
  {
    hide Range, Joined;
    var next := WithBatch(r, sha, count, Range(from, to));
    JoinedNext(r.batches, Batch(sha, Range(from, to)));
    RangeSplit(from, to);
    assert next.batches == r.batches + [Batch(sha, Range(from, to))];
  }

  lemma NightKeepsRotating(h: History, n: Night)
    requires Rotating(h)
    ensures Rotating(RunNight(h, n))
  {
    hide CompleteBatch, Sort, EstimatedShards, Joined, Range, Covered, Pinned;
    var plan := MakePlan(h.state, n.scheduled, n.currentSha, n.listing, n.startShard);
    if n.scheduled && plan.Ok? {
      PlanResumes(h, n);
      var p := plan.value;
      PinnedSoFar(h);
      BatchJoins(h.current, p.cycleSha, p.shardCount, p.nextShard, p.batchEnd);
    }
  }

  lemma PinnedSoFar(h: History)
    requires Rotating(h)
    ensures h.current.batches != [] ==> Pinned(h.current)
  {
  }

  function RunNights(nights: seq<Night>): History {
    if nights == [] then NEVER_RUN else RunNight(RunNights(nights[..|nights| - 1]), nights[|nights| - 1])
  }

  /**
   Over any nights, scheduled or not, complete or not: each finished rotation
   merged every shard exactly once, in order, in ceil(count / 16) batches,
   and every batch was planned at the commit its first night pinned.
   */
  lemma {:induction false} EveryRotationCovered(nights: seq<Night>)
    ensures Rotating(RunNights(nights))
    ensures forall r :: r in RunNights(nights).finished ==> Covered(r)
  {
    if nights != [] {
      EveryRotationCovered(nights[..|nights| - 1]);
      NightKeepsRotating(RunNights(nights[..|nights| - 1]), nights[|nights| - 1]);
    }
  }

  /** The pinned commit moves only when the last batch of its rotation completes, and then to that night's main. */
  lemma PinMovesAtTheEnd(h: History, n: Night)
    requires Rotating(h) && h.state.Some?
    ensures RunNight(h, n).state.Some?
    ensures RunNight(h, n).state.value.cycleSha != h.state.value.cycleSha ==>
              && |RunNight(h, n).finished| == |h.finished| + 1
              && RunNight(h, n).state.value.cycleSha == n.currentSha
  {
  }

  /** A night whose batch is not complete changes nothing, and the same listing then gets the same batch. */
  lemma IncompleteIsRetried(h: History, n: Night, again: Night)
    requires Rotating(h) && h.state.Some? && n.scheduled && again.scheduled && again.listing == n.listing
    requires MakePlan(h.state, true, n.currentSha, n.listing, n.startShard).Ok?
    requires var p := MakePlan(h.state, true, n.currentSha, n.listing, n.startShard).value;
             !CompleteBatch(p.selected, Sort(n.reports).0, Sort(n.reports).1)
    ensures RunNight(h, n) == h
    ensures var first := MakePlan(h.state, true, n.currentSha, n.listing, n.startShard);
            var second := MakePlan(RunNight(h, n).state, true, again.currentSha, again.listing, again.startShard);
            second == Ok(first.value.(headSha := again.currentSha))
  {
  }

  /** A run that is not the scheduled one on main leaves the rotation alone. */
  lemma ManualRunsDoNotCount(h: History, n: Night)
    requires !n.scheduled
    ensures RunNight(h, n) == h
  {
  }

  function Scheduled(nights: seq<Night>): seq<Night> {
    if nights == [] then []
    else
      var rest, last := Scheduled(nights[..|nights| - 1]), nights[|nights| - 1];
      if last.scheduled then rest + [last] else rest
  }

  /** Any history is that of its scheduled nights alone. */
  lemma {:induction false} OnlyScheduledCount(nights: seq<Night>)
    ensures RunNights(nights) == RunNights(Scheduled(nights))
  {
    if nights != [] {
      var init, last := nights[..|nights| - 1], nights[|nights| - 1];
      OnlyScheduledCount(init);
      if last.scheduled {
        assert (Scheduled(init) + [last])[..|Scheduled(init)|] == Scheduled(init);
      } else {
        ManualRunsDoNotCount(RunNights(init), last);
      }
    }
  }

  // ----- progress -----

  /** No batch of a rotation has been merged yet. */
  ghost predicate AtStart(h: History) {
    h.current.batches == []
  }

  /** How many shards the rotation has: fixed by its first night, else what that night's listing is estimated at. */
  function ShardsFor(h: History, n: Night): nat {
    if h.current.batches != [] then h.current.shardCount
    else EstimatedShards(n.listing, if h.state.Some? then h.state.value.metrics else map[])
  }

  /** The next sixteen shards, or those that are left. */
  function NextShards(h: History, n: Night): seq<nat> {
    var from := 16 * |h.current.batches|;
    var to := Min(from + 16, ShardsFor(h, n));
    if from <= to then Range(from, to) else []
  }

  /** The pinned commit: that of the first night, which a state at the end of a rotation has set already. */
  function PinFor(h: History, n: Night): string {
    if h.state.Some? then h.state.value.cycleSha else n.currentSha
  }

  /** The saved listing, if there is one, is the one the night finds. */
  predicate SameListing(h: History, n: Night) {
    h.state.Some? && h.state.value.listing != [] ==> h.state.value.listing == n.listing
  }

  /** A scheduled night that finds the same listing and has a sound report for each shard of its batch, and no other. */
  ghost predicate Completes(h: History, n: Night) {
    n.scheduled && SameListing(h, n) && OneEach(NextShards(h, n), n.reports)
  }

  /** A scheduled plan fails only over a changed listing. */
  lemma PlanOkIff(h: History, n: Night)
    requires Rotating(h) && n.scheduled
    ensures MakePlan(h.state, true, n.currentSha, n.listing, n.startShard).Ok? <==> SameListing(h, n)
    ensures SameListing(h, n) ==>
      var p := MakePlan(h.state, true, n.currentSha, n.listing, n.startShard).value;
      && p.shardCount == ShardsFor(h, n) && p.cycleSha == PinFor(h, n) && p.selected == NextShards(h, n)
      && p.nextShard == 16 * |h.current.batches| < p.shardCount
  {
    HeadroomKept(n.listing, if h.state.Some? then h.state.value.metrics else map[]);
  }

  /** A manual plan fails only over a start past the estimated shards, and pins nothing. */
  lemma ManualPlanIff(h: History, n: Night)
    ensures MakePlan(h.state, false, n.currentSha, n.listing, n.startShard).Ok? <==>
            n.startShard < EstimatedShards(n.listing, map[])
    ensures n.startShard < EstimatedShards(n.listing, map[]) ==>
      MakePlan(h.state, false, n.currentSha, n.listing, n.startShard).value.selected ==
        Range(n.startShard, Min(n.startShard + BATCH_SIZE, EstimatedShards(n.listing, map[])))
  {
  }

  /**
   A night that counts appends its batch. Short of the last shard, the position, the count, the listing and the pin are
   saved; with the last one the rotation is finished, and the next one is pinned to that night's main.
   */
  lemma NightAdvances(h: History, n: Night)
    requires Rotating(h) && Completes(h, n)
    ensures var after, count, end := RunNight(h, n), ShardsFor(h, n), 16 * (|h.current.batches| + 1);
      var batches := h.current.batches + [Batch(PinFor(h, n), NextShards(h, n))];
      if end < count then
        && after.finished == h.finished
        && after.current.batches == batches && after.current.shardCount == count
        && after.state == Some(State(PinFor(h, n), end, count, n.listing, n.metrics, n.currentSha))
      else
        && |after.finished| == |h.finished| + 1 && after.finished[..|h.finished|] == h.finished
        && after.finished[|h.finished|].batches == batches && after.finished[|h.finished|].shardCount == count
        && AtStart(after)
        && after.state == Some(State(n.currentSha, 0, 0, [], n.metrics, n.currentSha))
  {
    hide OneEach, CompleteBatch;
    PlanOkIff(h, n);
    CompleteMeans(NextShards(h, n), n.reports);
  }

  /** Every other night changes nothing. */
  lemma OtherNightKeeps(h: History, n: Night)
    requires Rotating(h) && !Completes(h, n)
    ensures RunNight(h, n) == h
  {
    hide OneEach, CompleteBatch;
    if n.scheduled {
      PlanOkIff(h, n);
      CompleteMeans(NextShards(h, n), n.reports);
    }
  }

  function RunFrom(h: History, nights: seq<Night>): History {
    if nights == [] then h else RunNight(RunFrom(h, nights[..|nights| - 1]), nights[|nights| - 1])
  }

  ghost function CompleteNights(h: History, nights: seq<Night>): nat {
    if nights == [] then 0
    else
      CompleteNights(h, nights[..|nights| - 1]) +
      if Completes(RunFrom(h, nights[..|nights| - 1]), nights[|nights| - 1]) then 1 else 0
  }

  lemma {:induction false} RunKeepsRotating(h: History, nights: seq<Night>)
    requires Rotating(h)
    ensures Rotating(RunFrom(h, nights))
  {
    if nights != [] {
      RunKeepsRotating(h, nights[..|nights| - 1]);
      NightKeepsRotating(RunFrom(h, nights[..|nights| - 1]), nights[|nights| - 1]);
    }
  }

  lemma {:induction false} RunNightsFrom(nights: seq<Night>, more: seq<Night>)
    ensures RunNights(nights + more) == RunFrom(RunNights(nights), more)
  {
    if more == [] {
      assert nights + more == nights;
    } else {
      RunNightsFrom(nights, more[..|more| - 1]);
      assert (nights + more)[..|nights + more| - 1] == nights + more[..|more| - 1];
    }
  }

  /** The first night that completes its batch. */
  ghost predicate FirstComplete(start: History, nights: seq<Night>, i: nat)
    requires i < |nights|
  {
    CompleteNights(start, nights[..i]) == 0 && Completes(RunFrom(start, nights[..i]), nights[i])
  }

  /** The shards of the rotation under way, by its first night that counts. */
  ghost predicate Underway(start: History, h: History, counted: nat) {
    && Rotating(h) && h.finished == start.finished
    && |h.current.batches| == counted && (counted == 0 ==> h == start)
    && (counted > 0 ==> counted < BatchesFor(h.current.shardCount))
  }

  lemma BatchesLeft(count: nat, k: nat)
    ensures BATCH_SIZE * k < count <==> k < BatchesFor(count)
  {
  }

  /**
   From the start of a rotation, nights that count less often than its batches leave it under way, and the night that makes
   them as many finishes it; nights that do not count do not matter. shards is what the first one that counts finds.
   */
  lemma {:induction false} RotationFinishes(start: History, nights: seq<Night>, shards: nat)
    requires Rotating(start) && AtStart(start)
    requires forall i :: 0 <= i < |nights| && FirstComplete(start, nights, i) ==> ShardsFor(start, nights[i]) == shards
    ensures CompleteNights(start, nights) < BatchesFor(shards) || CompleteNights(start, nights) == 0 ==>
      && Underway(start, RunFrom(start, nights), CompleteNights(start, nights))
      && (CompleteNights(start, nights) > 0 ==> RunFrom(start, nights).current.shardCount == shards)
    ensures nights != [] && CompleteNights(start, nights) == BatchesFor(shards) &&
            CompleteNights(start, nights[..|nights| - 1]) < BatchesFor(shards) ==>
      && |RunFrom(start, nights).finished| == |start.finished| + 1 && AtStart(RunFrom(start, nights))
      && Covered(RunFrom(start, nights).finished[|start.finished|])
      && RunFrom(start, nights).finished[|start.finished|].shardCount == shards
  {
    hide Completes, RunNight, Rotating, Covered;
    if nights != [] {
      var init, n := nights[..|nights| - 1], nights[|nights| - 1];
      forall i | 0 <= i < |init| && FirstComplete(start, init, i) ensures ShardsFor(start, init[i]) == shards {
        assert nights[..i] == init[..i] && FirstComplete(start, nights, i);
      }
      assert nights[..|init|] == init;
      RotationFinishes(start, init, shards);
      var h := RunFrom(start, init);
      RunKeepsRotating(start, init);
      RunKeepsRotating(start, nights);
      if !Completes(h, n) {
        OtherNightKeeps(h, n);
      } else if CompleteNights(start, init) < BatchesFor(shards) || CompleteNights(start, init) == 0 {
        NightAdvances(h, n);
        BatchesLeft(shards, CompleteNights(start, init) + 1);
        FinishedCovered(RunFrom(start, nights));
      }
    }
  }

  lemma FinishedCovered(h: History)
    requires Rotating(h)
    ensures forall i :: 0 <= i < |h.finished| ==> Covered(h.finished[i])
  {
  }

  /** After any nights that end between two rotations: the same of the nights that follow. */
  lemma NextRotationFinishes(nights: seq<Night>, more: seq<Night>, shards: nat)
    requires AtStart(RunNights(nights)) && more != []
    requires forall i :: 0 <= i < |more| && FirstComplete(RunNights(nights), more, i) ==>
               ShardsFor(RunNights(nights), more[i]) == shards
    requires CompleteNights(RunNights(nights), more) == BatchesFor(shards)
    requires CompleteNights(RunNights(nights), more[..|more| - 1]) < BatchesFor(shards)
    ensures |RunNights(nights + more).finished| == |RunNights(nights).finished| + 1 && AtStart(RunNights(nights + more))
    ensures RunNights(nights + more).finished[|RunNights(nights).finished|].shardCount == shards
  {
    hide Rotating, FirstComplete, CompleteNights, AtStart, RunNight;
    EveryRotationCovered(nights);
    RunNightsFrom(nights, more);
    RotationFinishes(RunNights(nights), more, shards);
  }
}
