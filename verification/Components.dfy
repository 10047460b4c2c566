/** Mutants that must travel together because they share affected lines. */
module Components {
  import opened Wrappers
  import opened DiffLines
  import opened Mutants
  import opened Shards

  /** Some affected line is covered by both. */
  ghost predicate Shares(changed: LineMap, a: Mutant, b: Mutant) {
    a.file == b.file && exists line: nat :: line in Lines(changed, a.file) && Overlaps(a, line) && Overlaps(b, line)
  }

  /** A chain of mutants of the pool, each sharing a line with the one before it. */
  ghost predicate IsChain(changed: LineMap, pool: set<Mutant>, chain: seq<Mutant>) {
    && chain != []
    && forall i :: 0 < i < |chain| ==> chain[i] in pool && Shares(changed, chain[i - 1], chain[i])
  }

  ghost predicate Connected(changed: LineMap, pool: set<Mutant>, a: Mutant, b: Mutant) {
    exists chain :: IsChain(changed, pool, chain) && chain[0] == a && chain[|chain| - 1] == b
  }

  lemma ConnectedSelf(changed: LineMap, pool: set<Mutant>, a: Mutant)
    ensures Connected(changed, pool, a, a)
  {
    assert IsChain(changed, pool, [a]) && [a][|[a]| - 1] == a;
  }

  lemma ConnectedNext(changed: LineMap, pool: set<Mutant>, a: Mutant, b: Mutant, c: Mutant)
    requires Connected(changed, pool, a, b) && c in pool && Shares(changed, b, c)
    ensures Connected(changed, pool, a, c)
  {
    var chain :| IsChain(changed, pool, chain) && chain[0] == a && chain[|chain| - 1] == b;
    var longer := chain + [c];
    assert IsChain(changed, pool, longer) && longer[0] == a && longer[|longer| - 1] == c;
  }

  lemma ConnectedJoin(changed: LineMap, pool: set<Mutant>, a: Mutant, b: Mutant, c: Mutant)
    requires Connected(changed, pool, a, b) && Connected(changed, pool, b, c)
    ensures Connected(changed, pool, a, c)
  {
    var chain :| IsChain(changed, pool, chain) && chain[0] == b && chain[|chain| - 1] == c;
    ConnectedAlong(changed, pool, a, chain, |chain| - 1);
  }

  lemma {:induction false} ConnectedAlong(changed: LineMap, pool: set<Mutant>, a: Mutant, chain: seq<Mutant>, i: nat)
    requires IsChain(changed, pool, chain) && i < |chain| && Connected(changed, pool, a, chain[0])
    ensures Connected(changed, pool, a, chain[i])
  {
    hide Connected, Shares;
    if i > 0 {
      ConnectedAlong(changed, pool, a, chain, i - 1);
      ConnectedNext(changed, pool, a, chain[i - 1], chain[i]);
    }
  }

  lemma ConnectedBack(changed: LineMap, pool: set<Mutant>, a: Mutant, b: Mutant)
    requires a in pool && Connected(changed, pool, a, b)
    ensures Connected(changed, pool, b, a)
  {
    var chain :| IsChain(changed, pool, chain) && chain[0] == a && chain[|chain| - 1] == b;
    var n := |chain|;
    var back := seq(n, i requires 0 <= i < n => chain[n - 1 - i]);
    forall i | 0 < i < n ensures back[i] in pool && Shares(changed, back[i - 1], back[i]) {
      assert Shares(changed, chain[n - 1 - i], chain[n - i]);
      assert n - 1 - i == 0 || chain[n - 1 - i] in pool;
    }
    assert IsChain(changed, pool, back) && back[0] == b && back[n - 1] == a;
  }

  /** Everything in the pool that shares a line with a member is a member. */
  ghost predicate Closed(changed: LineMap, pool: set<Mutant>, group: set<Mutant>) {
    forall a, b :: a in group && b in pool && Shares(changed, a, b) ==> b in group
  }

  lemma ClosedHoldsConnected(changed: LineMap, pool: set<Mutant>, group: set<Mutant>, a: Mutant, b: Mutant)
    requires Closed(changed, pool, group) && a in group && Connected(changed, pool, a, b)
    ensures b in group
  {
    var chain :| IsChain(changed, pool, chain) && chain[0] == a && chain[|chain| - 1] == b;
    ClosedHoldsChain(changed, pool, group, chain, |chain| - 1);
  }

  lemma {:induction false} ClosedHoldsChain(changed: LineMap, pool: set<Mutant>, group: set<Mutant>, chain: seq<Mutant>, i: nat)
    requires Closed(changed, pool, group) && IsChain(changed, pool, chain) && chain[0] in group && i < |chain|
    ensures chain[i] in group
  {
    if i > 0 {
      ClosedHoldsChain(changed, pool, group, chain, i - 1);
    }
  }

  /** Exactly the mutants of the pool that line sharing connects to start. */
  ghost predicate IsComponent(changed: LineMap, pool: set<Mutant>, start: Mutant, group: set<Mutant>) {
    forall m :: m in group <==> Connected(changed, pool, start, m)
  }

  function Elements<T>(s: seq<T>): set<T> {
    set x | x in s
  }

  lemma {:induction false} DistinctSize(a: seq<Mutant>)
    requires Distinct(a)
    ensures |Elements(a)| == |a|
  {
    if a != [] {
      var init, last := a[..|a| - 1], a[|a| - 1];
      DistinctSize(init);
      assert a == init + [last];
      assert Elements(a) == Elements(init) + {last};
      assert last !in init;
    }
  }

  ghost predicate Reached(changed: LineMap, nodes: set<Mutant>, start: Mutant, seen: set<Mutant>) {
    start in seen && forall m :: m in seen ==> m in nodes + {start} && Connected(changed, nodes, start, m)
  }

  /** Members whose neighbours may not all have been visited yet are pending. */
  ghost predicate ClosedBut(changed: LineMap, nodes: set<Mutant>, seen: set<Mutant>, pending: seq<Mutant>) {
    forall a, b :: a in seen && b in nodes && Shares(changed, a, b) && b !in seen ==> a in pending
  }

  method LineComponent(diff: seq<DiffLine>, universe: seq<Mutant>, start: Mutant, pool: seq<Mutant>)
    returns (r: Result<seq<Mutant>, PackError>)
    ensures r.Ok? <==> Indexable(pool) && start in pool
    ensures r.Ok? ==> Distinct(r.value)
    ensures r.Ok? ==> IsComponent(Affected(diff), Elements(pool) * Elements(universe), start, Elements(r.value))
    ensures r.Err? ==> r.error == BadList
  {
    hide Indexable, Connected, Shares, Affected, Reached, ClosedBut;
    if !Indexable(pool) || start !in pool {
      return Err(BadList);
    }
    var changed := AffectedLines(diff);
    ghost var nodes := Elements(pool) * Elements(universe);
    var pending, seen := [start], {start};
    StartReached(changed, nodes, start);
    while pending != []
      invariant Reached(changed, nodes, start, seen)
      invariant ClosedBut(changed, nodes, seen, pending)
      invariant forall m :: m in pending ==> m in seen
      invariant seen <= nodes + {start}
      decreases nodes + {start} - seen, |pending|
    {
      var current := pending[|pending| - 1];
      assert pending == pending[..|pending| - 1] + [current];
      seen, pending := Visit(changed, universe, pool, nodes, start, current, seen, pending[..|pending| - 1]);
      ReachedWithin(changed, nodes, start, seen);
    }
    AllVisited(changed, nodes, start, seen);
    var group := ListOf(seen);
    r := Ok(group);
  }

  lemma StartReached(changed: LineMap, nodes: set<Mutant>, start: Mutant)
    ensures Reached(changed, nodes, start, {start}) && ClosedBut(changed, nodes, {start}, [start])
  {
    ConnectedSelf(changed, nodes, start);
  }

  lemma ReachedWithin(changed: LineMap, nodes: set<Mutant>, start: Mutant, seen: set<Mutant>)
    requires Reached(changed, nodes, start, seen)
    ensures seen <= nodes + {start}
  {
  }

  lemma AllVisited(changed: LineMap, nodes: set<Mutant>, start: Mutant, seen: set<Mutant>)
    requires Reached(changed, nodes, start, seen) && ClosedBut(changed, nodes, seen, [])
    ensures IsComponent(changed, nodes, start, seen)
  {
    hide Connected, Shares;
    forall m ensures m in seen <==> Connected(changed, nodes, start, m) {
      if Connected(changed, nodes, start, m) {
        ClosedHoldsConnected(changed, nodes, seen, start, m);
      }
    }
  }

  method ListOf(ms: set<Mutant>) returns (group: seq<Mutant>)
    ensures Distinct(group) && Elements(group) == ms
  {
    group := [];
    var rest := ms;
    while rest != {}
      invariant rest <= ms && Distinct(group) && Elements(group) == ms - rest
    {
      var m :| m in rest;
      assert m !in Elements(group);
      assert Elements(group + [m]) == Elements(group) + {m};
      group, rest := group + [m], rest - {m};
    }
  }

  /** Adds to seen and pending every mutant of the pool that shares a line with current. */
  method Visit(changed: LineMap, universe: seq<Mutant>, pool: seq<Mutant>, ghost nodes: set<Mutant>,
               ghost start: Mutant, current: Mutant, seen0: set<Mutant>, pending0: seq<Mutant>)
    returns (seen: set<Mutant>, pending: seq<Mutant>)
    requires nodes == Elements(pool) * Elements(universe)
    requires Reached(changed, nodes, start, seen0) && current in seen0
    requires ClosedBut(changed, nodes, seen0, pending0 + [current])
    requires forall m :: m in pending0 ==> m in seen0
    ensures Reached(changed, nodes, start, seen)
    ensures ClosedBut(changed, nodes, seen, pending)
    ensures forall m :: m in pending ==> m in seen
    ensures seen0 <= seen && (seen == seen0 ==> pending == pending0)
  {
    hide Reached, ClosedBut, Shares, Connected;
    seen, pending := seen0, pending0;
    ghost var all := Lines(changed, current.file);
    var lines := Lines(changed, current.file);
    while lines != {}
      invariant lines <= all
      invariant Reached(changed, nodes, start, seen)
      invariant ClosedBut(changed, nodes, seen, pending + [current])
      invariant forall m :: m in pending ==> m in seen
      invariant forall line: nat, m ::
        line in all - lines && Overlaps(current, line) && m in nodes && On(m, current.file, line) ==> m in seen
      invariant seen0 <= seen && (seen == seen0 ==> pending == pending0)
    {
      var line :| line in lines;
      if Overlaps(current, line) {
        seen, pending := VisitLine(changed, universe, pool, nodes, start, current, line, seen, pending);
      }
      lines := lines - {line};
    }
    VisitedAll(changed, nodes, current, seen, pending);
  }

  lemma VisitedAll(changed: LineMap, nodes: set<Mutant>, current: Mutant, seen: set<Mutant>, pending: seq<Mutant>)
    requires ClosedBut(changed, nodes, seen, pending + [current])
    requires forall line: nat, m ::
               line in Lines(changed, current.file) && Overlaps(current, line) && m in nodes && On(m, current.file, line) ==>
                 m in seen
    ensures ClosedBut(changed, nodes, seen, pending)
  {
    forall b | b in nodes && Shares(changed, current, b) ensures b in seen {
      var line: nat :| line in Lines(changed, current.file) && Overlaps(current, line) && Overlaps(b, line);
      assert On(b, current.file, line);
    }
  }

  lemma VisitOne(changed: LineMap, nodes: set<Mutant>, start: Mutant, current: Mutant, line: nat, m: Mutant,
                 seen: set<Mutant>, pending: seq<Mutant>)
    requires Reached(changed, nodes, start, seen) && ClosedBut(changed, nodes, seen, pending + [current])
    requires current in seen && m in nodes
    requires line in Lines(changed, current.file) && Overlaps(current, line) && On(m, current.file, line)
    ensures Reached(changed, nodes, start, seen + {m})
    ensures ClosedBut(changed, nodes, seen + {m}, pending + [m] + [current])
  {
    hide Connected;
    assert Shares(changed, current, m);
    ConnectedNext(changed, nodes, start, current, m);
  }

  /** Adds to seen and pending every mutant of the pool on one line of current. */
  method VisitLine(changed: LineMap, universe: seq<Mutant>, pool: seq<Mutant>, ghost nodes: set<Mutant>,
                   ghost start: Mutant, current: Mutant, line: nat, seen0: set<Mutant>, pending0: seq<Mutant>)
    returns (seen: set<Mutant>, pending: seq<Mutant>)
    requires nodes == Elements(pool) * Elements(universe)
    requires Reached(changed, nodes, start, seen0) && current in seen0
    requires line in Lines(changed, current.file) && Overlaps(current, line)
    requires ClosedBut(changed, nodes, seen0, pending0 + [current])
    requires forall m :: m in pending0 ==> m in seen0
    ensures Reached(changed, nodes, start, seen)
    ensures ClosedBut(changed, nodes, seen, pending + [current])
    ensures forall m :: m in pending ==> m in seen
    ensures forall m :: m in nodes && On(m, current.file, line) ==> m in seen
    ensures seen0 <= seen && (seen == seen0 ==> pending == pending0)
  {
    hide Reached, ClosedBut, Shares, Connected;
    seen, pending := seen0, pending0;
    for i := 0 to |universe|
      invariant Reached(changed, nodes, start, seen)
      invariant ClosedBut(changed, nodes, seen, pending + [current])
      invariant forall m :: m in pending ==> m in seen
      invariant forall m :: m in universe[..i] && m in pool && On(m, current.file, line) ==> m in seen
      invariant seen0 <= seen && (seen == seen0 ==> pending == pending0)
    {
      var m := universe[i];
      assert universe[..i + 1] == universe[..i] + [m];
      if m !in seen && m in pool {
        if On(m, current.file, line) {
          VisitOne(changed, nodes, start, current, line, m, seen, pending);
          seen, pending := seen + {m}, pending + [m];
        }
      }
    }
    assert universe[..|universe|] == universe;
  }
}
