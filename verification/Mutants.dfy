/** Mutants as cargo-mutants lists them, and lists of them. */
module Mutants {
  import opened Wrappers

  /**
   A mutant is the data its identity covers. The list-only diff text, which the
   identity leaves out, is not kept.
   */
  datatype Mutant = Mutant(
    name: string,
    package: string,
    file: string,
    function_name: Option<string>,
    start: int,
    end: int,
    replacement: string,
    genre: string)

  predicate Overlaps(m: Mutant, line: nat) {
    m.start <= line <= m.end
  }

  /** The mutant covers this line of this file. */
  predicate On(m: Mutant, path: string, line: nat) {
    m.file == path && Overlaps(m, line)
  }

  predicate CleanName(name: string) {
    '\n' !in name && '\r' !in name
  }

  predicate DistinctNames(ms: seq<Mutant>) {
    forall i, j :: 0 <= i < j < |ms| ==> ms[i].name != ms[j].name
  }

  /** The lists that indexing by identity accepts. */
  predicate Indexable(ms: seq<Mutant>) {
    DistinctNames(ms) && forall m :: m in ms ==> CleanName(m.name)
  }

  /** No line break in any name, and no name twice. */
  lemma IndexableIff(ms: seq<Mutant>)
    ensures Indexable(ms) <==>
      && (forall i, k :: 0 <= i < |ms| && 0 <= k < |ms[i].name| ==> ms[i].name[k] != '\n' && ms[i].name[k] != '\r')
      && forall i, j :: 0 <= i < |ms| && 0 <= j < |ms| && ms[i].name == ms[j].name ==> i == j
  {
    if Indexable(ms) {
      forall i | 0 <= i < |ms| ensures CleanName(ms[i].name) {
        assert ms[i] in ms;
      }
    }
  }

  function Flat<T>(groups: seq<seq<T>>): seq<T> {
    if groups == [] then [] else Flat(groups[..|groups| - 1]) + groups[|groups| - 1]
  }

  lemma FlatNext<T>(groups: seq<seq<T>>, group: seq<T>)
    ensures Flat(groups + [group]) == Flat(groups) + group
  {
    assert (groups + [group])[..|groups|] == groups;
  }

  lemma {:induction false} FlatMembers<T>(groups: seq<seq<T>>)
    ensures forall x :: x in Flat(groups) <==> exists g :: g in groups && x in g
  {
    if groups != [] {
      var init, last := groups[..|groups| - 1], groups[|groups| - 1];
      FlatMembers(init);
      assert groups == init + [last];
    }
  }

  lemma NamesTellApart(ms: seq<Mutant>, a: Mutant, b: Mutant)
    requires DistinctNames(ms) && a in ms && b in ms && a.name == b.name
    ensures a == b
  {
  }

  /** Distinct mutants of an indexable list have distinct names. */
  lemma SubsetNames(ms: seq<Mutant>, some: seq<Mutant>)
    requires Indexable(ms) && Distinct(some) && forall m :: m in some ==> m in ms
    ensures Indexable(some)
  {
    forall i, j | 0 <= i < j < |some| ensures some[i].name != some[j].name {
      if some[i].name == some[j].name {
        NamesTellApart(ms, some[i], some[j]);
      }
    }
  }
}
