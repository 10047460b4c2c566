/** Packing the remainder into shards that full-suite runs can select exactly. */
module Packing {
  import opened Wrappers
  import opened DiffLines
  import opened Mutants
  import opened Shards
  import opened Components

  datatype Shard = Shard(text: seq<DiffLine>, group: seq<Mutant>)
  datatype Pack = Pack(shards: seq<Shard>, leftover: seq<Mutant>)

  /** The predicate by which shard_diff selects a group. */
  function In(group: set<Mutant>): Mutant -> bool {
    m => m in group
  }

  function Groups(shards: seq<Shard>): seq<seq<Mutant>> {
    seq(|shards|, i requires 0 <= i < |shards| => shards[i].group)
  }

  ghost predicate SingleComponent(changed: LineMap, pool: set<Mutant>, group: seq<Mutant>) {
    exists m :: m in group && IsComponent(changed, pool, m, Elements(group))
  }

  ghost predicate FitsOrSingle(changed: LineMap, pool: set<Mutant>, size: int, group: seq<Mutant>) {
    |group| <= size || SingleComponent(changed, pool, group)
  }

  /** The mutant covers an affected line that no mutant outside the pool covers. */
  predicate Isolatable(changed: LineMap, universe: seq<Mutant>, pool: set<Mutant>, m: Mutant) {
    Selects(changed, universe, In(pool), m)
  }

  /** The shard's diff selects the shard and nothing else. */
  ghost predicate IsShard(repo: Repo, changed: LineMap, universe: seq<Mutant>, shard: Shard) {
    var expected := Expected(changed, universe, In(Elements(shard.group)), universe);
    && Elements(expected) == Elements(shard.group)
    && IsSelection(repo, changed, universe, In(Elements(shard.group)), Selection(shard.text, expected))
  }

  ghost predicate IsPacking(repo: Repo, changed: LineMap, universe: seq<Mutant>, remainder: seq<Mutant>, size: int, p: Pack) {
    var pool := Elements(remainder);
    var groups := Groups(p.shards);
    && Distinct(Flat(groups) + p.leftover)
    && Elements(Flat(groups) + p.leftover) == pool
    && (forall g :: g in groups ==> Closed(changed, pool, Elements(g)) && FitsOrSingle(changed, pool, size, g))
    && (forall s :: s in p.shards ==> IsShard(repo, changed, universe, s))
    && (exists buckets :: Splits(changed, universe, pool, size, p, buckets))
  }

  ghost predicate AllIsolatable(changed: LineMap, universe: seq<Mutant>, pool: set<Mutant>, ms: set<Mutant>) {
    forall m :: m in ms ==> Isolatable(changed, universe, pool, m)
  }

  /** No bucket is empty, and no two in a row would fit one shard. */
  ghost predicate Filled(buckets: seq<seq<Mutant>>, size: int) {
    && (forall b :: b in buckets ==> b != [])
    && forall i :: 0 < i < |buckets| ==> |buckets[i - 1]| + |buckets[i]| > size
  }

  /** The buckets all of whose mutants can be isolated, or the others, in order. */
  ghost function Split(changed: LineMap, universe: seq<Mutant>, pool: set<Mutant>, buckets: seq<seq<Mutant>>, whole: bool)
    : seq<seq<Mutant>>
  {
    if buckets == [] then []
    else
      var rest, b := Split(changed, universe, pool, buckets[..|buckets| - 1], whole), buckets[|buckets| - 1];
      if AllIsolatable(changed, universe, pool, Elements(b)) == whole then rest + [b] else rest
  }

  /** The pool in buckets of whole components; a bucket is left over when it holds a mutant that cannot be isolated. */
  ghost predicate Splits(changed: LineMap, universe: seq<Mutant>, pool: set<Mutant>, size: int, p: Pack,
                         buckets: seq<seq<Mutant>>) {
    && (forall b :: b in buckets ==> GoodBucket(changed, pool, size, b)) && Filled(buckets, size)
    && Distinct(Flat(buckets)) && Elements(Flat(buckets)) == pool
    && Groups(p.shards) == Split(changed, universe, pool, buckets, true)
    && p.leftover == Flat(Split(changed, universe, pool, buckets, false))
  }

  ghost predicate AreComponents(changed: LineMap, pool: set<Mutant>, components: seq<seq<Mutant>>) {
    forall c :: c in components ==> SingleComponent(changed, pool, c)
  }

  lemma ComponentClosed(changed: LineMap, pool: set<Mutant>, group: seq<Mutant>)
    requires SingleComponent(changed, pool, group)
    ensures Closed(changed, pool, Elements(group))
  {
    var start :| start in group && IsComponent(changed, pool, start, Elements(group));
    forall a, b | a in Elements(group) && b in pool && Shares(changed, a, b) ensures b in Elements(group) {
      ConnectedNext(changed, pool, start, a, b);
    }
  }

  lemma NothingClosed(changed: LineMap, pool: set<Mutant>)
    ensures Closed(changed, pool, {})
  {
  }

  lemma ClosedSets(changed: LineMap, pool: set<Mutant>, a: set<Mutant>, b: set<Mutant>)
    requires Closed(changed, pool, a) && Closed(changed, pool, b)
    ensures Closed(changed, pool, a + b)
  {
  }

  lemma ClosedUnion(changed: LineMap, pool: set<Mutant>, a: seq<Mutant>, b: seq<Mutant>)
    requires Closed(changed, pool, Elements(a)) && Closed(changed, pool, Elements(b))
    ensures Closed(changed, pool, Elements(a + b))
  {
    assert Elements(a + b) == Elements(a) + Elements(b);
  }

  lemma DistinctConcat(a: seq<Mutant>, b: seq<Mutant>)
    requires Distinct(a) && Distinct(b) && Elements(a) !! Elements(b)
    ensures Distinct(a + b)
  {
    forall i, j | 0 <= i < j < |a + b| ensures (a + b)[i] != (a + b)[j] {
      assert i < |a| <= j ==> (a + b)[i] in Elements(a) && (a + b)[j] in Elements(b);
    }
  }

  method FindComponents(diff: seq<DiffLine>, universe: seq<Mutant>, remainder: seq<Mutant>)
    returns (r: Result<seq<seq<Mutant>>, PackError>)
    requires forall m :: m in remainder ==> m in universe
    ensures r.Ok? ==> AreComponents(Affected(diff), Elements(remainder), r.value)
    ensures r.Ok? ==> Distinct(Flat(r.value)) && Elements(Flat(r.value)) == Elements(remainder)
    ensures r.Ok? <==> remainder == [] || Indexable(remainder)
    ensures r.Err? ==> r.error == BadList
  {
    hide Affected, Connected, Shares, IsComponent, Closed, SingleComponent;
    ghost var changed, pool := Affected(diff), Elements(remainder);
    assert Elements(remainder) * Elements(universe) == pool;
    NothingClosed(changed, pool);
    var components: seq<seq<Mutant>> := [];
    var used: set<Mutant> := {};
    for i := 0 to |remainder|
      invariant AreComponents(changed, pool, components)
      invariant Distinct(Flat(components)) && Elements(Flat(components)) == used
      invariant Closed(changed, pool, used) && used <= pool
      invariant forall m :: m in remainder[..i] ==> m in used
      invariant used != {} ==> Indexable(remainder)
    {
      var start := remainder[i];
      assert remainder[..i + 1] == remainder[..i] + [start];
      if start !in used {
        var group := LineComponent(diff, universe, start, remainder);
        if group.Err? {
          return Err(group.error);
        }
        NewComponent(changed, pool, start, group.value, used);
        ComponentClosed(changed, pool, group.value);
        ClosedSets(changed, pool, used, Elements(group.value));
        DistinctConcat(Flat(components), group.value);
        FlatNext(components, group.value);
        assert Elements(Flat(components + [group.value])) == used + Elements(group.value);
        components, used := components + [group.value], used + Elements(group.value);
      }
    }
    assert remainder[..|remainder|] == remainder;
    assert remainder != [] ==> remainder[0] in used;
    r := Ok(components);
  }

  lemma NewComponent(changed: LineMap, pool: set<Mutant>, start: Mutant, group: seq<Mutant>, used: set<Mutant>)
    requires start in pool && start !in used && Closed(changed, pool, used)
    requires IsComponent(changed, pool, start, Elements(group))
    ensures SingleComponent(changed, pool, group) && start in Elements(group)
    ensures Elements(group) !! used && Elements(group) <= pool
  {
    ConnectedSelf(changed, pool, start);
    assert start in Elements(group);
    forall m | m in Elements(group) ensures m !in used && m in pool {
      if m in used {
        ConnectedBack(changed, pool, start, m);
        ClosedHoldsConnected(changed, pool, used, m, start);
      }
      var chain :| IsChain(changed, pool, chain) && chain[0] == start && chain[|chain| - 1] == m;
    }
  }

  ghost predicate GoodBucket(changed: LineMap, pool: set<Mutant>, size: int, bucket: seq<Mutant>) {
    Closed(changed, pool, Elements(bucket)) && FitsOrSingle(changed, pool, size, bucket)
  }

  lemma FittingBucket(changed: LineMap, pool: set<Mutant>, size: int, current: seq<Mutant>)
    requires Closed(changed, pool, Elements(current)) && |current| <= size
    ensures GoodBucket(changed, pool, size, current)
  {
  }

  lemma SingleBucket(changed: LineMap, pool: set<Mutant>, size: int, group: seq<Mutant>)
    requires SingleComponent(changed, pool, group)
    ensures GoodBucket(changed, pool, size, group) && Closed(changed, pool, Elements(group)) && group != []
  {
    ComponentClosed(changed, pool, group);
  }

  lemma NothingFlat()
    ensures Flat<Mutant>([]) == []
  {
  }

  lemma NothingFilled(size: int)
    ensures Filled([], size)
  {
  }

  lemma FilledNext(buckets: seq<seq<Mutant>>, b: seq<Mutant>, size: int)
    requires Filled(buckets, size)
    ensures b != [] && (buckets != [] ==> |buckets[|buckets| - 1]| + |b| > size) ==> Filled(buckets + [b], size)
  {
  }

  method FillBuckets(components: seq<seq<Mutant>>, size: int, ghost changed: LineMap, ghost pool: set<Mutant>)
    returns (buckets: seq<seq<Mutant>>)
    requires size >= 1 && AreComponents(changed, pool, components)
    ensures Flat(buckets) == Flat(components)
    ensures forall b :: b in buckets ==> GoodBucket(changed, pool, size, b)
    ensures Filled(buckets, size)
  {
    hide Closed, SingleComponent, GoodBucket, Flat, Filled;
    buckets := [];
    NothingFilled(size);
    assert components[..0] == [] && Flat<Mutant>([]) == [] by {
      NothingFlat();
    }
    var current: seq<Mutant> := [];
    NothingClosed(changed, pool);
    assert Elements(current) == {};
    for i := 0 to |components|
      invariant Flat(buckets) + current == Flat(components[..i])
      invariant |current| <= size && Closed(changed, pool, Elements(current))
      invariant forall b :: b in buckets ==> GoodBucket(changed, pool, size, b)
      invariant Filled(buckets, size)
      invariant buckets != [] ==> |buckets[|buckets| - 1]| + |current| > size
    {
      var group := components[i];
      FlatNext(components[..i], group);
      assert components[..i + 1] == components[..i] + [group];
      SingleBucket(changed, pool, size, group);
      FittingBucket(changed, pool, size, current);
      FlatNext(buckets, current);
      FilledNext(buckets, current, size);
      if current != [] && (|group| > size || |current| + |group| > size) {
        buckets, current := buckets + [current], [];
        assert Elements(current) == {};
      }
      if |group| > size {
        FlatNext(buckets, group);
        FilledNext(buckets, group, size);
        buckets := buckets + [group];
      } else {
        ClosedUnion(changed, pool, current, group);
        assert Flat(buckets) + (current + group) == (Flat(buckets) + current) + group;
        current := current + group;
      }
    }
    assert components[..|components|] == components;
    if current != [] {
      FittingBucket(changed, pool, size, current);
      FlatNext(buckets, current);
      FilledNext(buckets, current, size);
      buckets := buckets + [current];
    }
  }

  /** In a closed group, what the group's diff selects is what the whole pool's diff selects. */
  lemma ClosedSelects(changed: LineMap, universe: seq<Mutant>, pool: set<Mutant>, group: set<Mutant>, m: Mutant)
    requires Closed(changed, pool, group) && m in group && group <= pool
    ensures Selects(changed, universe, In(group), m) <==> Isolatable(changed, universe, pool, m)
  {
    if Isolatable(changed, universe, pool, m) {
      var line: nat :| line in Lines(changed, m.file) && Overlaps(m, line)
                  && forall x :: x in universe && On(x, m.file, line) ==> In(pool)(x);
      forall x | x in universe && On(x, m.file, line) ensures In(group)(x) {
        assert Shares(changed, m, x);
      }
    }
  }

  /** A bucket becomes a shard exactly when each of its mutants can be isolated. */
  lemma ExactSelection(changed: LineMap, universe: seq<Mutant>, pool: set<Mutant>, group: set<Mutant>)
    requires Closed(changed, pool, group) && group <= pool && group <= Elements(universe)
    ensures Elements(Expected(changed, universe, In(group), universe)) == group <==>
            forall m :: m in group ==> Isolatable(changed, universe, pool, m)
  {
    ExpectedMembers(changed, universe, In(group), universe);
    forall m | m in group
      ensures m in Expected(changed, universe, In(group), universe) <==> Isolatable(changed, universe, pool, m)
    {
      ClosedSelects(changed, universe, pool, group, m);
    }
    forall m | m in Expected(changed, universe, In(group), universe) ensures m in group {
      SelectedSatisfies(changed, universe, In(group), m);
    }
  }

  method PackShards(repo: Repo, diff: seq<DiffLine>, universe: seq<Mutant>, remainder: seq<Mutant>, size: int)
    returns (r: Result<Pack, PackError>)
    requires forall m :: m in remainder ==> m in universe
    ensures r.Ok? ==> IsPacking(repo, Affected(diff), universe, remainder, size, r.value)
    ensures r.Ok? ==> size >= 1 && Indexable(remainder)
    ensures r.Err? ==> r.error in {BadSize, BadList, SourceMismatch}
    ensures r == Err(BadSize) <==> size < 1
    ensures r == Err(BadList) <==> size >= 1 && !Indexable(remainder)
    ensures r == Err(SourceMismatch) ==> !InSource(repo, Affected(diff))
  {
    if size < 1 {
      return Err(BadSize);
    }
    ghost var changed, pool := Affected(diff), Elements(remainder);
    var components := FindComponents(diff, universe, remainder);
    if components.Err? {
      return Err(components.error);
    }
    var buckets := FillBuckets(components.value, size, changed, pool);
    r := ShardBuckets(repo, diff, universe, remainder, size, buckets);
  }

  function Names(ms: set<Mutant>): set<string> {
    set m | m in ms :: m.name
  }

  lemma GroupNames(remainder: seq<Mutant>, group: seq<Mutant>, seen: set<Mutant>)
    requires Indexable(remainder) && Distinct(group) && Elements(group) !! seen
    requires Elements(group) + seen <= Elements(remainder)
    ensures DistinctNames(group) && Names(Elements(group)) !! Names(seen)
  {
    assert forall m :: m in group ==> m in Elements(group);
    SubsetNames(remainder, group);
    forall a, b | a in group && b in seen ensures a.name != b.name {
      if a.name == b.name {
        NamesTellApart(remainder, a, b);
      }
    }
  }

  lemma {:induction false} FlatPrefix(groups: seq<seq<Mutant>>, i: nat)
    requires i <= |groups|
    ensures Flat(groups[..i]) <= Flat(groups)
  {
    if i < |groups| {
      var init := groups[..|groups| - 1];
      assert init[..i] == groups[..i];
      FlatPrefix(init, i);
    } else {
      assert groups[..i] == groups;
    }
  }

  /** The next bucket of a repetition-free list shares nothing with the buckets before it. */
  lemma NextBucket(buckets: seq<seq<Mutant>>, i: nat)
    requires i < |buckets| && Distinct(Flat(buckets))
    ensures var done, group := Flat(buckets[..i]), buckets[i];
            && Distinct(group) && Elements(done) !! Elements(group)
            && Elements(Flat(buckets[..i + 1])) == Elements(done) + Elements(group)
            && Elements(done) + Elements(group) <= Elements(Flat(buckets))
  {
    hide Flat, Distinct;
    var done, group := Flat(buckets[..i]), buckets[i];
    assert buckets[..i + 1] == buckets[..i] + [group];
    FlatNext(buckets[..i], group);
    FlatPrefix(buckets, i + 1);
    Prefix(Flat(buckets), |done + group|);
    DistinctParts(done, group);
    ElementsJoin(done, group);
  }

  lemma Prefix(s: seq<Mutant>, k: nat)
    requires k <= |s|
    ensures Elements(s[..k]) <= Elements(s) && (Distinct(s) ==> Distinct(s[..k]))
  {
  }

  lemma ElementsJoin(a: seq<Mutant>, b: seq<Mutant>)
    ensures Elements(a + b) == Elements(a) + Elements(b)
  {
  }

  lemma DistinctParts(a: seq<Mutant>, b: seq<Mutant>)
    requires Distinct(a + b)
    ensures Distinct(a) && Distinct(b) && Elements(a) !! Elements(b)
  {
    var both := a + b;
    assert forall i :: 0 <= i < |a| ==> both[i] == a[i];
    assert forall i :: |a| <= i < |both| ==> both[i] == b[i - |a|];
    forall i, j | 0 <= i < j < |b| ensures b[i] != b[j] {
      assert both[|a| + i] != both[|a| + j];
    }
    forall x, y | x in a && y in b ensures x != y {
      var p :| 0 <= p < |a| && a[p] == x;
      var q :| 0 <= q < |b| && b[q] == y;
      assert both[p] != both[|a| + q];
    }
  }

  lemma DistinctInsert(a: seq<Mutant>, b: seq<Mutant>, group: seq<Mutant>)
    requires Distinct(a + b) && Distinct(group) && Elements(a + b) !! Elements(group)
    ensures Distinct(a + group + b) && Elements(a + group + b) == Elements(a + b) + Elements(group)
    ensures Distinct(a + (b + group)) && Elements(a + (b + group)) == Elements(a + b) + Elements(group)
  {
    assert (a + b)[..|a|] == a && (a + b)[|a|..] == b;
    assert forall x :: x in a || x in b ==> x in Elements(a + b);
    DistinctParts(a, b);
    DistinctConcat(a, group);
    DistinctConcat(b, group);
    assert Elements(a + group) == Elements(a) + Elements(group);
    assert Elements(b + group) == Elements(b) + Elements(group);
    DistinctConcat(a + group, b);
    DistinctConcat(a, b + group);
  }

  lemma GroupsNext(shards: seq<Shard>, shard: Shard)
    ensures Flat(Groups(shards + [shard])) == Flat(Groups(shards)) + shard.group
    ensures Groups(shards + [shard]) == Groups(shards) + [shard.group]
  {
    assert Groups(shards + [shard]) == Groups(shards) + [shard.group];
    FlatNext(Groups(shards), shard.group);
  }

  ghost predicate GoodShards(repo: Repo, changed: LineMap, universe: seq<Mutant>, pool: set<Mutant>, size: int, shards: seq<Shard>) {
    forall s :: s in shards ==>
      && IsShard(repo, changed, universe, s)
      && Closed(changed, pool, Elements(s.group)) && FitsOrSingle(changed, pool, size, s.group)
  }

  lemma SplitNext(changed: LineMap, universe: seq<Mutant>, pool: set<Mutant>, buckets: seq<seq<Mutant>>, b: seq<Mutant>,
                  whole: bool)
    ensures var before := Split(changed, universe, pool, buckets, whole);
      Split(changed, universe, pool, buckets + [b], whole)
        == if AllIsolatable(changed, universe, pool, Elements(b)) == whole then before + [b] else before
  {
    hide AllIsolatable;
    assert (buckets + [b])[..|buckets|] == buckets;
  }

  lemma {:induction false} SplitMembers(changed: LineMap, universe: seq<Mutant>, pool: set<Mutant>,
                                        buckets: seq<seq<Mutant>>, whole: bool)
    ensures forall b :: b in Split(changed, universe, pool, buckets, whole) <==>
      b in buckets && AllIsolatable(changed, universe, pool, Elements(b)) == whole
  {
    hide AllIsolatable;
    if buckets != [] {
      SplitMembers(changed, universe, pool, buckets[..|buckets| - 1], whole);
      assert buckets == buckets[..|buckets| - 1] + [buckets[|buckets| - 1]];
    }
  }

  /** The buckets handled so far, done, are spread without repetition over shards and leftover. */
  ghost predicate Sorted(shards: seq<Shard>, leftover: seq<Mutant>, done: set<Mutant>, seen: set<Mutant>, seenNames: set<string>) {
    && Distinct(Flat(Groups(shards)) + leftover)
    && Elements(Flat(Groups(shards)) + leftover) == done
    && seen == Elements(Flat(Groups(shards))) && seen <= done
    && seenNames == Names(seen)
  }

  lemma Defer(shards: seq<Shard>, leftover: seq<Mutant>, done: set<Mutant>, seen: set<Mutant>, seenNames: set<string>,
              group: seq<Mutant>)
    requires Sorted(shards, leftover, done, seen, seenNames) && Distinct(group) && done !! Elements(group)
    ensures Sorted(shards, leftover + group, done + Elements(group), seen, seenNames)
  {
    DistinctInsert(Flat(Groups(shards)), leftover, group);
  }

  lemma Accept(shards: seq<Shard>, leftover: seq<Mutant>, done: set<Mutant>, seen: set<Mutant>, seenNames: set<string>,
               shard: Shard)
    requires Sorted(shards, leftover, done, seen, seenNames) && Distinct(shard.group) && done !! Elements(shard.group)
    ensures Sorted(shards + [shard], leftover, done + Elements(shard.group), seen + Elements(shard.group),
                   seenNames + Names(Elements(shard.group)))
  {
    DistinctInsert(Flat(Groups(shards)), leftover, shard.group);
    GroupsNext(shards, shard);
    assert Elements(Flat(Groups(shards)) + shard.group) == seen + Elements(shard.group);
    assert Names(seen + Elements(shard.group)) == Names(seen) + Names(Elements(shard.group));
  }

  lemma NothingSorted()
    ensures Sorted([], [], {}, {}, {})
  {
    assert Groups([]) == [];
  }

  /** The next bucket repeats no identity and no name of the shards taken so far. */
  lemma NothingRepeats(remainder: seq<Mutant>, buckets: seq<seq<Mutant>>, i: nat, shards: seq<Shard>,
                       leftover: seq<Mutant>, seen: set<Mutant>, seenNames: set<string>)
    requires Indexable(remainder) && i < |buckets|
    requires Distinct(Flat(buckets)) && Elements(Flat(buckets)) == Elements(remainder)
    requires Sorted(shards, leftover, Elements(Flat(buckets[..i])), seen, seenNames)
    ensures Distinct(buckets[i]) && Elements(buckets[i]) * seen == {}
    ensures DistinctNames(buckets[i]) && Names(Elements(buckets[i])) * seenNames == {}
    ensures Elements(Flat(buckets[..i])) !! Elements(buckets[i]) && Elements(buckets[i]) <= Elements(remainder)
    ensures Elements(Flat(buckets[..i + 1])) == Elements(Flat(buckets[..i])) + Elements(buckets[i])
  {
    NextBucket(buckets, i);
    GroupNames(remainder, buckets[i], seen);
  }

  lemma AcceptGood(repo: Repo, changed: LineMap, universe: seq<Mutant>, pool: set<Mutant>, size: int,
                   shards: seq<Shard>, shard: Shard)
    requires GoodShards(repo, changed, universe, pool, size, shards)
    requires IsShard(repo, changed, universe, shard) && GoodBucket(changed, pool, size, shard.group)
    ensures GoodShards(repo, changed, universe, pool, size, shards + [shard])
  {
  }

  lemma PackingDone(repo: Repo, changed: LineMap, universe: seq<Mutant>, remainder: seq<Mutant>, size: int, p: Pack,
                    seen: set<Mutant>, seenNames: set<string>)
    requires Sorted(p.shards, p.leftover, Elements(remainder), seen, seenNames)
    requires GoodShards(repo, changed, universe, Elements(remainder), size, p.shards)
    requires exists buckets :: Splits(changed, universe, Elements(remainder), size, p, buckets)
    ensures IsPacking(repo, changed, universe, remainder, size, p)
  {
    hide Splits;
    var pool := Elements(remainder);
    forall g | g in Groups(p.shards)
      ensures Closed(changed, pool, Elements(g)) && FitsOrSingle(changed, pool, size, g)
    {
      var i :| 0 <= i < |p.shards| && Groups(p.shards)[i] == g;
      assert p.shards[i] in p.shards;
    }
  }

  method ShardBuckets(repo: Repo, diff: seq<DiffLine>, universe: seq<Mutant>, ghost remainder: seq<Mutant>,
                      ghost size: int, buckets: seq<seq<Mutant>>)
    returns (r: Result<Pack, PackError>)
    requires Indexable(remainder) && forall m :: m in remainder ==> m in universe
    requires Distinct(Flat(buckets)) && Elements(Flat(buckets)) == Elements(remainder)
    requires forall b :: b in buckets ==> GoodBucket(Affected(diff), Elements(remainder), size, b)
    requires Filled(buckets, size)
    ensures r.Ok? ==> IsPacking(repo, Affected(diff), universe, remainder, size, r.value)
    ensures r.Err? ==> r.error == SourceMismatch && !InSource(repo, Affected(diff))
  {
    hide Affected, Closed, FitsOrSingle, AllIsolatable, IsSelection, Indexable, Sorted, GoodShards, IsPacking, InSource, Chosen,
      Filled, Split, Groups, Flat;
    ghost var changed, pool := Affected(diff), Elements(remainder);
    var shards: seq<Shard> := [];
    var leftover: seq<Mutant> := [];
    var seen: set<Mutant> := {};
    var seenNames: set<string> := {};
    NothingSorted();
    NoShards(repo, changed, universe, pool, size);
    assert buckets[..0] == [] && Elements(Flat(buckets[..0])) == {};
    for i := 0 to |buckets|
      invariant Sorted(shards, leftover, Elements(Flat(buckets[..i])), seen, seenNames)
      invariant GoodShards(repo, changed, universe, pool, size, shards)
      invariant Groups(shards) == Split(changed, universe, pool, buckets[..i], true)
      invariant leftover == Flat(Split(changed, universe, pool, buckets[..i], false))
    {
      var group := buckets[i];
      assert GoodBucket(changed, pool, size, group);
      NothingRepeats(remainder, buckets, i, shards, leftover, seen, seenNames);
      if !Distinct(group) || Elements(group) * seen != {} ||
         !DistinctNames(group) || Names(Elements(group)) * seenNames != {} {
        return Err(Duplicate);
      }
      var selection := SelectDiff(repo, diff, universe, In(Elements(group)));
      if selection.Err? {
        NotInSource(repo, changed, universe, In(Elements(group)));
        return Err(selection.error);
      }
      assert buckets[..i + 1] == buckets[..i] + [group];
      SplitNext(changed, universe, pool, buckets[..i], group, true);
      SplitNext(changed, universe, pool, buckets[..i], group, false);
      ghost var done := Elements(Flat(buckets[..i]));
      var exact := Elements(selection.value.expected) == Elements(group);
      TakenIff(repo, changed, universe, pool, size, group, selection.value);
      if !exact {
        Defer(shards, leftover, done, seen, seenNames, group);
        FlatNext(Split(changed, universe, pool, buckets[..i], false), group);
        leftover := leftover + group;
      } else {
        var shard := Shard(selection.value.text, group);
        Accept(shards, leftover, done, seen, seenNames, shard);
        AcceptGood(repo, changed, universe, pool, size, shards, shard);
        GroupsNext(shards, shard);
        seen, seenNames := seen + Elements(group), seenNames + Names(Elements(group));
        shards := shards + [shard];
      }
    }
    assert buckets[..|buckets|] == buckets;
    r := Ok(Pack(shards, leftover));
    assert Splits(changed, universe, pool, size, r.value, buckets);
    PackingDone(repo, changed, universe, remainder, size, r.value, seen, seenNames);
  }

  lemma NoShards(repo: Repo, changed: LineMap, universe: seq<Mutant>, pool: set<Mutant>, size: int)
    ensures GoodShards(repo, changed, universe, pool, size, [])
    ensures Groups([]) == Split(changed, universe, pool, [], true)
    ensures Flat(Split(changed, universe, pool, [], false)) == [] && Flat<Mutant>([]) == []
  {
  }

  /** What decides whether a bucket becomes a shard. */
  lemma TakenIff(repo: Repo, changed: LineMap, universe: seq<Mutant>, pool: set<Mutant>, size: int,
                 group: seq<Mutant>, selection: Selection)
    requires GoodBucket(changed, pool, size, group) && Elements(group) <= pool <= Elements(universe)
    requires IsSelection(repo, changed, universe, In(Elements(group)), selection)
    ensures Elements(selection.expected) == Elements(group) <==> AllIsolatable(changed, universe, pool, Elements(group))
    ensures Elements(selection.expected) == Elements(group) ==>
              IsShard(repo, changed, universe, Shard(selection.text, group))
  {
    ExactSelection(changed, universe, pool, Elements(group));
  }

  // ----- what is left over -----

  lemma SameBucket(buckets: seq<seq<Mutant>>, a: seq<Mutant>, b: seq<Mutant>, m: Mutant)
    requires Distinct(Flat(buckets)) && a in buckets && b in buckets && m in a && m in b
    ensures a == b
  {
    var i :| 0 <= i < |buckets| && buckets[i] == a;
    var j :| 0 <= j < |buckets| && buckets[j] == b;
    if i < j {
      BucketOnce(buckets, i, j, m);
    } else if j < i {
      BucketOnce(buckets, j, i, m);
    }
  }

  lemma BucketOnce(buckets: seq<seq<Mutant>>, i: nat, j: nat, m: Mutant)
    requires Distinct(Flat(buckets)) && i < j < |buckets| && m in buckets[i]
    ensures m !in buckets[j]
  {
    hide Flat, Distinct;
    NextBucket(buckets, j);
    FlatMembers(buckets[..j]);
    assert buckets[..j][i] == buckets[i];
    var done := Elements(Flat(buckets[..j]));
    assert m in done && done !! Elements(buckets[j]);
    InElements(buckets[j], m);
  }

  lemma InElements(s: seq<Mutant>, m: Mutant)
    ensures m in Elements(s) <==> m in s
  {
  }

  /** A mutant is left over if and only if its bucket holds one that cannot be isolated, itself or another. */
  lemma LeftoverIff(changed: LineMap, universe: seq<Mutant>, pool: set<Mutant>, size: int, p: Pack,
                    buckets: seq<seq<Mutant>>, b: seq<Mutant>, m: Mutant)
    requires Splits(changed, universe, pool, size, p, buckets) && b in buckets && m in b
    ensures m in p.leftover <==> !AllIsolatable(changed, universe, pool, Elements(b))
  {
    hide AllIsolatable, GoodBucket, Filled, Flat, Distinct, Split;
    var left := Split(changed, universe, pool, buckets, false);
    SplitMembers(changed, universe, pool, buckets, false);
    FlatMembers(left);
    if m in p.leftover {
      var g :| g in left && m in g;
      SameBucket(buckets, g, b, m);
    }
  }

  /** Every mutant of the pool is in some bucket. */
  lemma BucketOf(buckets: seq<seq<Mutant>>, pool: set<Mutant>, m: Mutant) returns (b: seq<Mutant>)
    requires Elements(Flat(buckets)) == pool && m in pool
    ensures b in buckets && m in b
  {
    FlatMembers(buckets);
    assert m in Flat(buckets);
    b :| b in buckets && m in b;
  }

  /** Some mutant of its component is on an affected line together with one that is not in the pool. */
  ghost predicate MeetsOutside(changed: LineMap, universe: seq<Mutant>, pool: set<Mutant>, m: Mutant) {
    exists a, x :: Connected(changed, pool, m, a) && x in universe && x !in pool && Shares(changed, a, x)
  }

  /** What the packer says of its leftover. */
  ghost predicate LeftoverMeets(changed: LineMap, universe: seq<Mutant>, pool: set<Mutant>, p: Pack) {
    forall m :: m in p.leftover ==> MeetsOutside(changed, universe, pool, m)
  }

  ghost predicate AllMeet(changed: LineMap, universe: seq<Mutant>, pool: set<Mutant>, ms: set<Mutant>) {
    forall m :: m in ms ==> MeetsOutside(changed, universe, pool, m)
  }

  /** A mutant that cannot be isolated meets the outside itself, when it is on an affected line at all. */
  lemma StuckMeets(changed: LineMap, universe: seq<Mutant>, pool: set<Mutant>, m: Mutant, line: nat)
    requires m in pool && !Isolatable(changed, universe, pool, m)
    requires line in Lines(changed, m.file) && Overlaps(m, line)
    ensures MeetsOutside(changed, universe, pool, m)
  {
    var x :| x in universe && On(x, m.file, line) && !In(pool)(x);
    ConnectedSelf(changed, pool, m);
    assert Shares(changed, m, x);
  }

  /** The packer is right about its leftover if and only if no bucket it leaves over holds a component apart from the outside. */
  lemma LeftoverMeetsIff(changed: LineMap, universe: seq<Mutant>, pool: set<Mutant>, size: int, p: Pack,
                         buckets: seq<seq<Mutant>>)
    requires Splits(changed, universe, pool, size, p, buckets)
    ensures LeftoverMeets(changed, universe, pool, p) <==>
      forall b :: b in buckets ==>
        AllIsolatable(changed, universe, pool, Elements(b)) || AllMeet(changed, universe, pool, Elements(b))
  {
    hide MeetsOutside, AllIsolatable, Split;
    forall b, m | b in buckets && m in b
      ensures m in p.leftover <==> !AllIsolatable(changed, universe, pool, Elements(b))
    {
      LeftoverIff(changed, universe, pool, size, p, buckets, b, m);
    }
    SplitMembers(changed, universe, pool, buckets, false);
    FlatMembers(Split(changed, universe, pool, buckets, false));
    if LeftoverMeets(changed, universe, pool, p) {
      forall b | b in buckets && !AllIsolatable(changed, universe, pool, Elements(b))
        ensures AllMeet(changed, universe, pool, Elements(b))
      {
        forall m | m in Elements(b) ensures MeetsOutside(changed, universe, pool, m) {
          assert m in b && m in p.leftover;
        }
      }
    } else {
      var m :| m in p.leftover && !MeetsOutside(changed, universe, pool, m);
      var b :| b in Split(changed, universe, pool, buckets, false) && m in b;
      assert m in Elements(b);
    }
  }

  /**
   Whatever the size, the packer is right about its leftover when every mutant can be isolated or every component meets the
   outside; at a size that one bucket suffices for, only then.
   */
  lemma LeftoverRight(repo: Repo, changed: LineMap, universe: seq<Mutant>, remainder: seq<Mutant>, size: int, p: Pack)
    requires IsPacking(repo, changed, universe, remainder, size, p)
    ensures var pool := Elements(remainder);
            var condition := AllIsolatable(changed, universe, pool, pool) || AllMeet(changed, universe, pool, pool);
      && (condition ==> LeftoverMeets(changed, universe, pool, p))
      && (|pool| <= size && LeftoverMeets(changed, universe, pool, p) ==> condition)
  {
    hide AllIsolatable, AllMeet, LeftoverMeets, Splits, MeetsOutside;
    var pool := Elements(remainder);
    var buckets :| Splits(changed, universe, pool, size, p, buckets);
    LeftoverMeetsIff(changed, universe, pool, size, p, buckets);
    BucketsMean(changed, universe, pool, size, p, buckets);
    if pool == {} {
      NoneStuck(changed, universe);
    } else if |pool| <= size {
      OneBucket(changed, universe, pool, size, p, buckets);
    }
  }

  lemma NoneStuck(changed: LineMap, universe: seq<Mutant>)
    ensures AllIsolatable(changed, universe, {}, {})
  {
  }

  lemma MeetsToo(changed: LineMap, universe: seq<Mutant>, pool: set<Mutant>, start: Mutant, a: Mutant, b: Mutant)
    requires start in pool && Connected(changed, pool, start, a) && Connected(changed, pool, start, b)
    requires MeetsOutside(changed, universe, pool, a)
    ensures MeetsOutside(changed, universe, pool, b)
  {
    hide Connected, Shares;
    ConnectedBack(changed, pool, start, b);
    ConnectedJoin(changed, pool, b, start, a);
    var c, x :| Connected(changed, pool, a, c) && x in universe && x !in pool && Shares(changed, c, x);
    ConnectedJoin(changed, pool, b, a, c);
  }

  /** At size one the packer is always right about a remainder of mutants on affected lines: no bucket mixes components. */
  lemma SingleLeftoverRight(repo: Repo, changed: LineMap, universe: seq<Mutant>, remainder: seq<Mutant>, p: Pack)
    requires IsPacking(repo, changed, universe, remainder, 1, p)
    requires forall m :: m in remainder ==> Touched(changed, m)
    ensures LeftoverMeets(changed, universe, Elements(remainder), p)
  {
    hide MeetsOutside, Splits, Isolatable, Touched, LeftoverMeets, FitsOrSingle;
    var pool := Elements(remainder);
    var buckets :| Splits(changed, universe, pool, 1, p, buckets);
    LeftoverMeetsIff(changed, universe, pool, 1, p, buckets);
    BucketsMean(changed, universe, pool, 1, p, buckets);
    forall b | b in buckets && !AllIsolatable(changed, universe, pool, Elements(b))
      ensures AllMeet(changed, universe, pool, Elements(b))
    {
      GoodOf(changed, universe, pool, 1, p, buckets, b);
      var m :| m in Elements(b) && !Isolatable(changed, universe, pool, m);
      SingleMeets(changed, universe, pool, b, m);
    }
  }

  lemma GoodOf(changed: LineMap, universe: seq<Mutant>, pool: set<Mutant>, size: int, p: Pack,
               buckets: seq<seq<Mutant>>, b: seq<Mutant>)
    requires Splits(changed, universe, pool, size, p, buckets) && b in buckets
    ensures FitsOrSingle(changed, pool, size, b)
  {
  }

  lemma SingleMeets(changed: LineMap, universe: seq<Mutant>, pool: set<Mutant>, b: seq<Mutant>, m: Mutant)
    requires FitsOrSingle(changed, pool, 1, b) && Elements(b) <= pool && m in b
    requires Touched(changed, m) && !Isolatable(changed, universe, pool, m)
    ensures AllMeet(changed, universe, pool, Elements(b))
  {
    hide Isolatable, MeetsOutside, Connected;
    var line: nat :| line in Lines(changed, m.file) && Overlaps(m, line);
    assert m in Elements(b);
    StuckMeets(changed, universe, pool, m, line);
    if |b| > 1 {
      var start :| start in b && IsComponent(changed, pool, start, Elements(b));
      assert start in Elements(b);
      forall x | x in Elements(b) ensures MeetsOutside(changed, universe, pool, x) {
        MeetsToo(changed, universe, pool, start, m, x);
      }
    } else {
      assert b == [m];
    }
  }

  /** What holds of the whole pool holds of each bucket. */
  lemma BucketsMean(changed: LineMap, universe: seq<Mutant>, pool: set<Mutant>, size: int, p: Pack,
                    buckets: seq<seq<Mutant>>)
    requires Splits(changed, universe, pool, size, p, buckets)
    ensures forall b :: b in buckets ==> Elements(b) <= pool
    ensures forall b :: b in buckets && AllIsolatable(changed, universe, pool, pool) ==>
              AllIsolatable(changed, universe, pool, Elements(b))
    ensures forall b :: b in buckets && AllMeet(changed, universe, pool, pool) ==>
              AllMeet(changed, universe, pool, Elements(b))
  {
    hide MeetsOutside, Isolatable, Flat, Split, Distinct;
    FlatMembers(buckets);
    forall b, m | b in buckets && m in b ensures m in pool {
      assert m in Flat(buckets);
    }
  }

  /** A pool that fits one shard is one bucket. */
  lemma OneBucket(changed: LineMap, universe: seq<Mutant>, pool: set<Mutant>, size: int, p: Pack,
                  buckets: seq<seq<Mutant>>)
    requires Splits(changed, universe, pool, size, p, buckets) && |pool| <= size && pool != {}
    ensures exists b :: b in buckets && Elements(b) == pool
  {
    hide Split, GoodBucket, Flat;
    DistinctSize(Flat(buckets));
    if |buckets| > 1 {
      FlatSize(buckets, 2);
    } else if |buckets| == 1 {
      FlatNext([], buckets[0]);
      NothingFlat();
      assert buckets == [] + [buckets[0]] && [] + buckets[0] == buckets[0];
      assert buckets[0] in buckets;
    } else {
      NothingFlat();
      assert false;
    }
  }

  lemma {:induction false} FlatSize(buckets: seq<seq<Mutant>>, n: nat)
    requires 2 <= n <= |buckets|
    ensures |buckets[0]| + |buckets[1]| <= |Flat(buckets)|
    decreases |buckets|
  {
    var last := |buckets| - 1;
    if last > 1 {
      FlatSize(buckets[..last], 2);
    } else {
      assert buckets == [] + [buckets[0]] + [buckets[1]];
      FlatNext([], buckets[0]);
      FlatNext([] + [buckets[0]], buckets[1]);
    }
  }

  /** Nothing is left over if and only if every mutant can be isolated. */
  lemma NothingLeftOver(repo: Repo, changed: LineMap, universe: seq<Mutant>, remainder: seq<Mutant>, size: int, p: Pack)
    requires IsPacking(repo, changed, universe, remainder, size, p)
    ensures p.leftover == [] <==> AllIsolatable(changed, universe, Elements(remainder), Elements(remainder))
  {
    hide Isolatable, Splits, IsShard, Closed, FitsOrSingle, Flat, Distinct;
    var pool := Elements(remainder);
    var buckets :| Splits(changed, universe, pool, size, p, buckets);
    if m :| m in pool && !Isolatable(changed, universe, pool, m) {
      SplitsCover(changed, universe, pool, size, p, buckets);
      var b := BucketOf(buckets, pool, m);
      assert m in Elements(b);
      LeftoverIff(changed, universe, pool, size, p, buckets, b, m);
    } else if p.leftover != [] {
      var m := p.leftover[0];
      assert m in Elements(Flat(Groups(p.shards)) + p.leftover);
      SplitsCover(changed, universe, pool, size, p, buckets);
      var b := BucketOf(buckets, pool, m);
      LeftoverIff(changed, universe, pool, size, p, buckets, b, m);
      BucketsMean(changed, universe, pool, size, p, buckets);
    }
  }

  lemma SplitsCover(changed: LineMap, universe: seq<Mutant>, pool: set<Mutant>, size: int, p: Pack,
                    buckets: seq<seq<Mutant>>)
    requires Splits(changed, universe, pool, size, p, buckets)
    ensures Elements(Flat(buckets)) == pool
  {
  }

  /** One mutant on line 1, and two on line 2 of which one is not in the remainder. */
  predicate OneStuck(a: Mutant, b: Mutant, c: Mutant) {
    && a.file == b.file == c.file && a.start == a.end == 1 && b.start == b.end == c.start == c.end == 2
    && b.name != c.name
  }

  /** A mutant that could be isolated, and shares no line with any other, is left over with its bucket. */
  lemma IsolatableLeftOver(repo: Repo, a: Mutant, b: Mutant, c: Mutant, size: int, p: Pack)
    requires OneStuck(a, b, c) && size >= 2
    requires IsPacking(repo, map[a.file := {1, 2}], [a, b, c], [a, b], size, p)
    ensures a in p.leftover && Isolatable(map[a.file := {1, 2}], [a, b, c], {a, b}, a)
    ensures !MeetsOutside(map[a.file := {1, 2}], [a, b, c], {a, b}, a)
  {
    var changed: LineMap, universe, remainder := map[a.file := {1, 2}], [a, b, c], [a, b];
    var pool := {a, b};
    assert Elements(remainder) == pool;
    StuckApart(a, b, c);
    var buckets :| Splits(changed, universe, pool, size, p, buckets);
    OneBucket(changed, universe, pool, size, p, buckets);
    var bucket :| bucket in buckets && Elements(bucket) == pool;
    assert a in Elements(bucket);
    LeftoverIff(changed, universe, pool, size, p, buckets, bucket, a);
  }

  lemma StuckApart(a: Mutant, b: Mutant, c: Mutant)
    requires OneStuck(a, b, c)
    ensures var changed, universe, pool := map[a.file := {1, 2}], [a, b, c], {a, b};
      && Isolatable(changed, universe, pool, a) && !AllIsolatable(changed, universe, pool, pool)
      && !MeetsOutside(changed, universe, pool, a)
  {
    var changed: LineMap, universe, pool := map[a.file := {1, 2}], [a, b, c], {a, b};
    assert 1 in Lines(changed, a.file) && Overlaps(a, 1);
    assert c in universe && c !in pool && On(c, b.file, 2);
    assert b in pool && !Isolatable(changed, universe, pool, b);
    assert Closed(changed, pool, {a});
    forall m | Connected(changed, pool, a, m) ensures m == a {
      ClosedHoldsConnected(changed, pool, {a}, a, m);
    }
  }
}
