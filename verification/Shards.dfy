/** Selecting mutants by lines, line components and shard packing of the mutation router. */
module Shards {
  import opened Wrappers
  import opened DiffLines
  import opened Mutants

  type Repo = map<string, seq<string>>

  datatype PackError = BadSize | BadList | SourceMismatch | Duplicate

  // ----- select_diff -----

  /** A line is selected when some mutant covers it and all that do may run. */
  predicate ChosenLine(universe: seq<Mutant>, pred: Mutant -> bool, path: string, line: nat) {
    && (exists m :: m in universe && On(m, path, line))
    && (forall m :: m in universe && On(m, path, line) ==> pred(m))
  }

  function Chosen(changed: LineMap, universe: seq<Mutant>, pred: Mutant -> bool): LineMap {
    map path | path in changed && exists line :: line in changed[path] && ChosenLine(universe, pred, path, line)
      :: set line | line in changed[path] && ChosenLine(universe, pred, path, line)
  }

  /** A line is chosen if it is affected, some mutant is on it, and the predicate holds of all that are. */
  lemma ChosenMeans(changed: LineMap, universe: seq<Mutant>, pred: Mutant -> bool, path: string, line: nat)
    ensures path in Chosen(changed, universe, pred) && line in Chosen(changed, universe, pred)[path] <==>
      && path in changed && line in changed[path]
      && (exists m :: m in universe && m.file == path && m.start <= line <= m.end)
      && forall m :: m in universe && m.file == path && m.start <= line <= m.end ==> pred(m)
    ensures path in Chosen(changed, universe, pred) ==> Chosen(changed, universe, pred)[path] != {}
  {
    if m :| m in universe && m.file == path && m.start <= line <= m.end {
      assert On(m, path, line);
    }
    forall m | m in universe && On(m, path, line) ensures m.file == path && m.start <= line <= m.end {}
    if path in Chosen(changed, universe, pred) {
      var some :| some in changed[path] && ChosenLine(universe, pred, path, some);
      assert some in Chosen(changed, universe, pred)[path];
    }
  }

  /** The mutant covers an affected line that only mutants satisfying pred cover. */
  predicate Selects(changed: LineMap, universe: seq<Mutant>, pred: Mutant -> bool, m: Mutant) {
    exists line :: line in Lines(changed, m.file) && Overlaps(m, line)
                   && forall x :: x in universe && On(x, m.file, line) ==> pred(x)
  }

  function Expected(changed: LineMap, universe: seq<Mutant>, pred: Mutant -> bool, ms: seq<Mutant>): seq<Mutant> {
    if ms == [] then []
    else
      var init, last := ms[..|ms| - 1], ms[|ms| - 1];
      Expected(changed, universe, pred, init) + if Selects(changed, universe, pred, last) then [last] else []
  }

  lemma {:induction false} ExpectedMembers(changed: LineMap, universe: seq<Mutant>, pred: Mutant -> bool, ms: seq<Mutant>)
    ensures forall m :: m in Expected(changed, universe, pred, ms) <==> m in ms && Selects(changed, universe, pred, m)
    ensures DistinctNames(ms) ==> DistinctNames(Expected(changed, universe, pred, ms))
  {
    hide Selects, DistinctNames;
    if ms == [] {
      NoNames();
    } else {
      var init, last := ms[..|ms| - 1], ms[|ms| - 1];
      ExpectedMembers(changed, universe, pred, init);
      assert ms == init + [last];
      NameNext(init, last, Expected(changed, universe, pred, init));
      assert Expected(changed, universe, pred, init) + [] == Expected(changed, universe, pred, init);
    }
  }

  lemma NoNames()
    ensures DistinctNames([])
  {}

  lemma NameNext(ms: seq<Mutant>, m: Mutant, some: seq<Mutant>)
    requires forall x :: x in some ==> x in ms
    ensures DistinctNames(ms + [m]) ==> DistinctNames(ms) && (DistinctNames(some) ==> DistinctNames(some + [m]))
  {
    var all := ms + [m];
    if DistinctNames(all) {
      forall i, j | 0 <= i < j < |ms| ensures ms[i].name != ms[j].name {
        assert all[i].name != all[j].name;
      }
      forall x | x in some ensures x.name != m.name {
        var i :| 0 <= i < |ms| && ms[i] == x;
        assert all[i].name != all[|ms|].name;
      }
    }
  }

  /** Every selected mutant satisfies the predicate. */
  lemma SelectedSatisfies(changed: LineMap, universe: seq<Mutant>, pred: Mutant -> bool, m: Mutant)
    requires m in universe && Selects(changed, universe, pred, m)
    ensures pred(m)
  {
  }

  predicate InSource(repo: Repo, lines: LineMap) {
    forall path :: path in lines ==>
      path in repo && forall line :: line in lines[path] ==> 1 <= line <= |repo[path]|
  }

  lemma NotInSource(repo: Repo, changed: LineMap, universe: seq<Mutant>, pred: Mutant -> bool)
    requires !InSource(repo, Chosen(changed, universe, pred))
    ensures !InSource(repo, changed)
  {
    if InSource(repo, changed) {
      ChosenInSource(repo, changed, universe, pred);
    }
  }

  /** Every line that can be selected is an affected line. */
  lemma ChosenInSource(repo: Repo, changed: LineMap, universe: seq<Mutant>, pred: Mutant -> bool)
    requires InSource(repo, changed)
    ensures InSource(repo, Chosen(changed, universe, pred))
  {
  }

  /** A selected source line that, behind its "+", reads as a file header. */
  predicate HeaderLike(repo: Repo, lines: LineMap)
    requires InSource(repo, lines)
  {
    exists path :: path in lines && exists line :: line in lines[path] && "++ " <= repo[path][line - 1]
  }

  /** The mutant covers at least one affected line. */
  predicate Touched(changed: LineMap, m: Mutant) {
    exists line :: line in Lines(changed, m.file) && Overlaps(m, line)
  }

  datatype Selection = Selection(text: seq<DiffLine>, expected: seq<Mutant>)

  /** What select_diff promises of a selection. */
  ghost predicate IsSelection(repo: Repo, changed: LineMap, universe: seq<Mutant>, pred: Mutant -> bool, s: Selection) {
    var chosen := Chosen(changed, universe, pred);
    && s.expected == Expected(changed, universe, pred, universe)
    && InSource(repo, chosen)
    && (Affected(s.text) == chosen <==> !HeaderLike(repo, chosen))
  }

  /** The expected mutants are those on the lines that the selection's text is read back as. */
  lemma SelectionTouches(repo: Repo, changed: LineMap, universe: seq<Mutant>, pred: Mutant -> bool, s: Selection, m: Mutant)
    requires IsSelection(repo, changed, universe, pred, s) && !HeaderLike(repo, Chosen(changed, universe, pred))
    requires m in universe
    ensures m in s.expected <==> Touched(Affected(s.text), m)
  {
    hide Affected;
    var chosen := Chosen(changed, universe, pred);
    ExpectedMembers(changed, universe, pred, universe);
    if Selects(changed, universe, pred, m) {
      var line: nat :| line in Lines(changed, m.file) && Overlaps(m, line)
                       && forall x :: x in universe && On(x, m.file, line) ==> pred(x);
      assert On(m, m.file, line) && ChosenLine(universe, pred, m.file, line);
      assert line in Lines(chosen, m.file);
    }
    if Touched(chosen, m) {
      var line: nat :| line in Lines(chosen, m.file) && Overlaps(m, line);
      assert line in Lines(changed, m.file) && ChosenLine(universe, pred, m.file, line);
    }
  }

  /** No chosen line looks like a header when no affected line does. */
  lemma ChosenHeaders(repo: Repo, changed: LineMap, universe: seq<Mutant>, pred: Mutant -> bool)
    requires InSource(repo, changed) && !HeaderLike(repo, changed)
    ensures InSource(repo, Chosen(changed, universe, pred)) && !HeaderLike(repo, Chosen(changed, universe, pred))
  {
    hide ChosenLine;
    ChosenInSource(repo, changed, universe, pred);
    var chosen := Chosen(changed, universe, pred);
    forall path, line | path in chosen && line in chosen[path] ensures !("++ " <= repo[path][line - 1]) {
      assert path in changed && line in changed[path];
    }
  }

  predicate IsLeast(line: nat, lines: set<nat>) {
    line in lines && forall other: nat :: other in lines ==> line <= other
  }

  lemma {:induction false} Least(lines: set<nat>)
    requires lines != {}
    ensures exists line: nat :: IsLeast(line, lines)
  {
    var some :| some in lines;
    if lines == {some} {
      assert IsLeast(some, lines);
    } else {
      var rest := lines - {some};
      assert lines == rest + {some};
      Least(rest);
      var line: nat :| IsLeast(line, rest);
      assert IsLeast(if line < some then line else some, lines);
    }
  }

  method SortedLines(lines: set<nat>) returns (sorted: seq<nat>)
    ensures forall i, j :: 0 <= i < j < |sorted| ==> sorted[i] < sorted[j]
    ensures forall line: nat :: line in sorted <==> line in lines
  {
    sorted := [];
    var rest := lines;
    while rest != {}
      invariant rest <= lines
      invariant forall i, j :: 0 <= i < j < |sorted| ==> sorted[i] < sorted[j]
      invariant forall i, line: nat :: 0 <= i < |sorted| && line in rest ==> sorted[i] < line
      invariant forall line: nat :: line in sorted <==> line in lines - rest
    {
      Least(rest);
      var least: nat :| least in rest && IsLeast(least, rest);
      sorted := sorted + [least];
      rest := rest - {least};
    }
  }

  method SelectLines(changed: LineMap, universe: seq<Mutant>, pred: Mutant -> bool)
    returns (selected: map<string, seq<nat>>)
    ensures Orders(selected, Chosen(changed, universe, pred))
  {
    selected := map[];
    ghost var chosen := Chosen(changed, universe, pred);
    var paths := changed.Keys;
    while paths != {}
      invariant paths <= changed.Keys
      invariant selected.Keys == chosen.Keys - paths
      invariant forall path :: path in selected ==>
        && Distinct(selected[path]) && selected[path] != []
        && forall line :: line in selected[path] <==> line in chosen[path]
    {
      var path :| path in paths;
      var lines := SortedLines(changed[path]);
      var hits: seq<nat> := [];
      for i := 0 to |lines|
        invariant Distinct(hits)
        invariant forall line :: line in hits <==> line in lines[..i] && ChosenLine(universe, pred, path, line)
      {
        assert lines[..i + 1] == lines[..i] + [lines[i]];
        if ChosenLine(universe, pred, path, lines[i]) {
          assert lines[i] !in hits;
          hits := hits + [lines[i]];
        }
      }
      assert lines[..|lines|] == lines;
      paths := paths - {path};
      if hits != [] {
        assert hits[0] in changed[path] && ChosenLine(universe, pred, path, hits[0]);
        selected := selected[path := hits];
      } else {
        assert path !in chosen;
      }
    }
  }

  /** The chosen lines, as lists. */
  ghost predicate Orders(selected: map<string, seq<nat>>, chosen: LineMap) {
    && selected.Keys == chosen.Keys
    && forall path :: path in selected ==>
         && Distinct(selected[path]) && selected[path] != []
         && forall line :: line in selected[path] <==> line in chosen[path]
  }

  /** Each line number of a file with its source text as added text. */
  ghost predicate Quotes(source: seq<string>, lines: seq<nat>, news: seq<NewLine>) {
    && |news| == |lines|
    && forall i :: 0 <= i < |lines| ==>
         1 <= lines[i] <= |source| && news[i] == NewLine(lines[i], "+" + source[lines[i] - 1])
  }

  ghost predicate QuotesAll(repo: Repo, selected: map<string, seq<nat>>, added: map<string, seq<NewLine>>) {
    && selected.Keys == added.Keys
    && forall path :: path in added ==> path in repo && Quotes(repo[path], selected[path], added[path])
  }

  ghost predicate SourceHas(repo: Repo, path: string, lines: seq<nat>) {
    path in repo && forall line :: line in lines ==> 1 <= line <= |repo[path]|
  }

  method QuoteFile(source: seq<string>, lines: seq<nat>) returns (r: Result<seq<NewLine>, PackError>)
    ensures r.Ok? ==> Quotes(source, lines, r.value)
    ensures r.Err? ==> r.error == SourceMismatch && !forall line :: line in lines ==> 1 <= line <= |source|
  {
    var news: seq<NewLine> := [];
    for i := 0 to |lines|
      invariant Quotes(source, lines[..i], news)
    {
      if !(1 <= lines[i] <= |source|) {
        assert lines[i] in lines;
        return Err(SourceMismatch);
      }
      news := news + [NewLine(lines[i], "+" + source[lines[i] - 1])];
    }
    assert lines[..|lines|] == lines;
    r := Ok(news);
  }

  method QuoteLines(repo: Repo, selected: map<string, seq<nat>>)
    returns (r: Result<map<string, seq<NewLine>>, PackError>)
    ensures r.Ok? ==> QuotesAll(repo, selected, r.value)
    ensures r.Err? ==> r.error == SourceMismatch
    ensures r.Err? ==> exists path :: path in selected && !SourceHas(repo, path, selected[path])
  {
    var added: map<string, seq<NewLine>> := map[];
    var paths := selected.Keys;
    while paths != {}
      invariant paths <= selected.Keys
      invariant added.Keys == selected.Keys - paths
      invariant forall path :: path in added ==> path in repo && Quotes(repo[path], selected[path], added[path])
    {
      var path :| path in paths;
      if path !in repo {
        return Err(SourceMismatch);
      }
      var news := QuoteFile(repo[path], selected[path]);
      if news.Err? {
        return Err(news.error);
      }
      added := added[path := news.value];
      paths := paths - {path};
    }
    r := Ok(added);
  }

  method SelectDiff(repo: Repo, diff: seq<DiffLine>, universe: seq<Mutant>, pred: Mutant -> bool)
    returns (r: Result<Selection, PackError>)
    ensures r.Ok? <==> InSource(repo, Chosen(Affected(diff), universe, pred))
    ensures r.Ok? ==> IsSelection(repo, Affected(diff), universe, pred, r.value)
    ensures r.Err? ==> r.error == SourceMismatch
  {
    var changed := AffectedLines(diff);
    ghost var chosen := Chosen(changed, universe, pred);
    var selected := SelectLines(changed, universe, pred);
    var added := QuoteLines(repo, selected);
    if added.Err? {
      return Err(added.error);
    }
    var files := SortFiles(added.value);
    var text := WriteDiff(files);
    QuotedInSource(repo, chosen, selected, added.value);
    SelectionReads(repo, chosen, selected, added.value, files);
    r := Ok(Selection(text, Expected(changed, universe, pred, universe)));
  }

  const HEADER_REPO: Repo := map["a" := ["++ b/x"]]
  const HEADER_DIFF := [Text("+++ b/a"), Hunk(1), Text("-old"), Text(" ++ b/x")]

  lemma HeaderDiffAffects()
    ensures Affected(HEADER_DIFF) == map["a" := {1}]
  {
    var d := HEADER_DIFF;
    assert d[..1] == [] + [d[0]] && d[..2] == d[..1] + [d[1]] && d[..3] == d[..2] + [d[2]] && d == d[..3] + [d[3]];
    ReadNext([], d[0]);
    ReadNext(d[..1], d[1]);
    ReadNext(d[..2], d[2]);
    ReadNext(d[..3], d[3]);
    assert d[0].text[0] == '+' && d[0].text[..4] == "+++ " && d[0].text[4..] == "b/a" && StripNewSide("b/a") == "a";
    assert ReadAll([]) == START;
    assert ReadAll(d[..1]) == Reader(Some("a"), None, false, map[]);
    assert ReadAll(d[..2]) == Reader(Some("a"), Some(1), false, map[]);
    assert d[2].text[0] == '-';
    assert ReadAll(d[..3]) == Reader(Some("a"), Some(1), true, map["a" := {}]);
    assert d[3].text[0] == ' ' && " " <= d[3].text;
    assert !("-" <= d[3].text) by { assert "-"[0] == '-'; }
    assert !("+" <= d[3].text) && !("+++ " <= d[3].text) by { assert "+"[0] == "+++ "[0] == '+'; }
    assert !("diff --git " <= d[3].text) by { assert "diff --git "[0] == 'd'; }
    assert Read(ReadAll(d[..3]), d[3]).lines == map["a" := {} + {1}];
    assert {} + {1} == {1 as nat};
    assert ReadAll(d).lines["a"] == {1};
  }

  /** A line kept beside a deletion can be selected though it looks like a header; no selection then reads as chosen. */
  lemma HeaderLineSelected(m: Mutant, pred: Mutant -> bool)
    requires m.file == "a" && m.start <= 1 <= m.end && pred(m)
    ensures Chosen(Affected(HEADER_DIFF), [m], pred) == map["a" := {1}]
    ensures InSource(HEADER_REPO, map["a" := {1}])
    ensures forall s :: IsSelection(HEADER_REPO, Affected(HEADER_DIFF), [m], pred, s) ==>
              Affected(s.text) != map["a" := {1}]
  {
    HeaderDiffAffects();
    assert m in [m] && On(m, "a", 1);
    assert ChosenLine([m], pred, "a", 1);
    assert Chosen(map["a" := {1}], [m], pred)["a"] == {1};
    assert "++ " <= HEADER_REPO["a"][1 - 1];
    assert HeaderLike(HEADER_REPO, map["a" := {1}]);
  }

  lemma QuotedInSource(repo: Repo, chosen: LineMap, selected: map<string, seq<nat>>, added: map<string, seq<NewLine>>)
    requires Orders(selected, chosen) && QuotesAll(repo, selected, added)
    ensures InSource(repo, chosen)
  {
    forall path, line | path in chosen && line in chosen[path]
      ensures path in repo && 1 <= line <= |repo[path]|
    {
      assert Quotes(repo[path], selected[path], added[path]);
      var i :| 0 <= i < |selected[path]| && selected[path][i] == line;
    }
  }

  ghost predicate HasHeader(news: seq<NewLine>) {
    exists n :: n in news && "+++ " <= n.text
  }

  ghost predicate SourceHeader(source: seq<string>, lines: set<nat>) {
    exists line :: line in lines && 1 <= line <= |source| && "++ " <= source[line - 1]
  }

  lemma QuotedNumbers(source: seq<string>, lines: seq<nat>, news: seq<NewLine>, chosen: set<nat>)
    requires Quotes(source, lines, news) && Distinct(lines)
    requires forall line :: line in lines <==> line in chosen
    ensures InsertOnly(news) && DistinctNumbers(news)
    ensures Numbers(news) == chosen
  {
    forall line | line in chosen ensures line in Numbers(news) {
      var i :| 0 <= i < |lines| && lines[i] == line;
      assert news[i] in news;
    }
    forall n | n in news ensures n.number in chosen && n.number >= 1 && "+" <= n.text {
      var i :| 0 <= i < |news| && news[i] == n;
      assert lines[i] in lines;
    }
  }

  lemma QuotedHeader(source: seq<string>, lines: seq<nat>, news: seq<NewLine>, chosen: set<nat>)
    requires Quotes(source, lines, news)
    requires forall line :: line in lines <==> line in chosen
    ensures HasHeader(news) <==> SourceHeader(source, chosen)
  {
    if HasHeader(news) {
      var n :| n in news && "+++ " <= n.text;
      var i :| 0 <= i < |news| && news[i] == n;
      PlusHeader(source[lines[i] - 1]);
      assert lines[i] in chosen;
    }
    if SourceHeader(source, chosen) {
      var line :| line in chosen && 1 <= line <= |source| && "++ " <= source[line - 1];
      var i :| 0 <= i < |lines| && lines[i] == line;
      PlusHeader(source[lines[i] - 1]);
      assert news[i] in news;
    }
  }

  lemma QuotedFiles(repo: Repo, chosen: LineMap, selected: map<string, seq<nat>>, added: map<string, seq<NewLine>>)
    requires Orders(selected, chosen) && QuotesAll(repo, selected, added)
    ensures NumbersOf(added) == chosen
    ensures forall path :: path in added ==>
      && added[path] != [] && InsertOnly(added[path]) && DistinctNumbers(added[path])
      && path in repo && (HasHeader(added[path]) <==> SourceHeader(repo[path], chosen[path]))
  {
    forall path | path in added
      ensures added[path] != [] && InsertOnly(added[path]) && DistinctNumbers(added[path])
      ensures Numbers(added[path]) == chosen[path]
      ensures HasHeader(added[path]) <==> SourceHeader(repo[path], chosen[path])
    {
      assert Quotes(repo[path], selected[path], added[path]);
      QuotedNumbers(repo[path], selected[path], added[path], chosen[path]);
      QuotedHeader(repo[path], selected[path], added[path], chosen[path]);
    }
  }

  lemma SelectionReads(repo: Repo, chosen: LineMap, selected: map<string, seq<nat>>,
                       added: map<string, seq<NewLine>>, files: seq<NewFile>)
    requires Orders(selected, chosen) && QuotesAll(repo, selected, added) && InSource(repo, chosen)
    requires Lists(files, added)
    ensures Affected(Write(files)) == chosen <==> !HeaderLike(repo, chosen)
  {
    QuotedFiles(repo, chosen, selected, added);
    WantedLists(files, added);
    RoundTripIff(files);
    HeadersQuoted(repo, chosen, added, files);
  }

  lemma HeadersQuoted(repo: Repo, chosen: LineMap, added: map<string, seq<NewLine>>, files: seq<NewFile>)
    requires InSource(repo, chosen) && chosen.Keys == added.Keys && Lists(files, added)
    requires forall path :: path in added ==> (HasHeader(added[path]) <==> SourceHeader(repo[path], chosen[path]))
    ensures (forall f, n :: f in files && n in f.added ==> !("+++ " <= n.text)) <==> !HeaderLike(repo, chosen)
  {
    if HeaderLike(repo, chosen) {
      var path :| path in chosen && exists line :: line in chosen[path] && "++ " <= repo[path][line - 1];
      assert path in PathsOf(files);
      assert SourceHeader(repo[path], chosen[path]);
    }
    if f, n :| f in files && n in f.added && "+++ " <= n.text {
      assert HasHeader(added[f.path]);
    }
  }

  // ----- select_diff within the router -----

  /** The source has each added line that a diff collects, at its number. */
  ghost predicate FromSource(repo: Repo, diff: seq<DiffLine>) {
    var added := ChangeAll(diff).added;
    forall path, n :: path in added && n in added[path] ==>
      path in repo && 1 <= n.number <= |repo[path]| && n.text == "+" + repo[path][n.number - 1]
  }

  lemma AddedInSource(repo: Repo, diff: seq<DiffLine>, path: string, line: nat)
    requires FromSource(repo, diff) && path in Changed(diff) && line in Changed(diff)[path]
    ensures path in repo && 1 <= line <= |repo[path]| && !("++ " <= repo[path][line - 1])
  {
    hide ChangeAll;
    AddedText(diff);
    var n: NewLine :| n in ChangeAll(diff).added[path] && n.number == line;
    PlusHeader(repo[path][line - 1]);
  }

  lemma PathInSource(repo: Repo, diff: seq<DiffLine>, path: string)
    requires FromSource(repo, diff) && path in Changed(diff)
    ensures path in repo
  {
    hide ChangeAll;
    AddedText(diff);
    assert ChangeAll(diff).added[path][0] in ChangeAll(diff).added[path];
  }

  lemma AllInSource(repo: Repo, diff: seq<DiffLine>)
    requires FromSource(repo, diff)
    ensures InSource(repo, Changed(diff)) && !HeaderLike(repo, Changed(diff)) && FromOne(Changed(diff))
  {
    hide FromSource, Changed;
    forall path | path in Changed(diff) ensures path in repo {
      PathInSource(repo, diff, path);
    }
    forall path, line | path in Changed(diff) && line in Changed(diff)[path]
      ensures path in repo && 1 <= line <= |repo[path]| && !("++ " <= repo[path][line - 1])
    {
      AddedInSource(repo, diff, path, line);
    }
  }

  /** Of a diff of the source, the router's own diff has exactly the added lines, all in the source, and no header. */
  lemma RouterDiff(repo: Repo, diff: seq<DiffLine>, files: seq<NewFile>)
    requires FromSource(repo, diff) && Lists(files, ChangeAll(diff).added)
    ensures Affected(Write(files)) == Changed(diff)
    ensures InSource(repo, Changed(diff)) && !HeaderLike(repo, Changed(diff))
  {
    hide *;
    AllInSource(repo, diff);
    ChangedRoundTrip(diff, files);
  }

  /** So every selection the router makes of a diff of the source is read back as the lines it chose. */
  lemma RouterSelects(repo: Repo, diff: seq<DiffLine>, files: seq<NewFile>, universe: seq<Mutant>, pred: Mutant -> bool,
                      s: Selection)
    requires FromSource(repo, diff) && Lists(files, ChangeAll(diff).added)
    requires IsSelection(repo, Affected(Write(files)), universe, pred, s)
    ensures Affected(s.text) == Chosen(Changed(diff), universe, pred)
    ensures forall m :: m in universe ==> (m in s.expected <==> Touched(Affected(s.text), m))
  {
    hide Affected, Selects, Touched, Chosen;
    RouterDiff(repo, diff, files);
    ChosenHeaders(repo, Changed(diff), universe, pred);
    forall m | m in universe ensures m in s.expected <==> Touched(Affected(s.text), m) {
      SelectionTouches(repo, Changed(diff), universe, pred, s, m);
    }
  }
}
