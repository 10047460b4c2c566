/** What the readers find in a diff of files, hunks and edits. */
module DiffHunks {
  import opened Wrappers
  import opened DiffLines

  /** A line of a hunk: of both files, of the new or of the old one, or the mark of a missing newline. */
  datatype Edit = Kept(text: string) | Added(text: string) | Deleted(text: string) | NoNewline

  /** start is the new file's number of the first line that is kept or added. */
  datatype HunkBody = HunkBody(start: nat, edits: seq<Edit>)
  datatype Patch = Patch(path: string, hunks: seq<HunkBody>)

  function Rendered(e: Edit): string {
    match e
    case Kept(text) => " " + text
    case Added(text) => "+" + text
    case Deleted(text) => "-" + text
    case NoNewline => "\\ No newline at end of file"
  }

  function RenderedEdits(edits: seq<Edit>): seq<DiffLine> {
    seq(|edits|, i requires 0 <= i < |edits| => Text(Rendered(edits[i])))
  }

  function RenderedHunks(hunks: seq<HunkBody>): seq<DiffLine> {
    if hunks == [] then []
    else
      var last := hunks[|hunks| - 1];
      RenderedHunks(hunks[..|hunks| - 1]) + [Hunk(last.start)] + RenderedEdits(last.edits)
  }

  function Render(patches: seq<Patch>): seq<DiffLine> {
    if patches == [] then []
    else
      var last := patches[|patches| - 1];
      Render(patches[..|patches| - 1]) + FileHeader(last.path) + RenderedHunks(last.hunks)
  }

  // ----- what a diff means -----

  /** The new number of the line that an edit is, or comes before. */
  function NumberAt(h: HunkBody, i: nat): nat
    requires i <= |h.edits|
  {
    if i == 0 then h.start
    else NumberAt(h, i - 1) + if h.edits[i - 1].Kept? || h.edits[i - 1].Added? then 1 else 0
  }

  predicate AfterDeletion(h: HunkBody, i: nat)
    requires i <= |h.edits|
  {
    i > 0 && (h.edits[i - 1].Deleted? || (h.edits[i - 1].NoNewline? && AfterDeletion(h, i - 1)))
  }

  /** The line an edit marks: an added line, the line before a deletion, or the kept line after one. */
  function Mark(h: HunkBody, i: nat): Option<nat>
    requires i < |h.edits|
  {
    match h.edits[i]
    case Added(_) => Some(NumberAt(h, i))
    case Deleted(_) => if NumberAt(h, i) > 1 then Some(NumberAt(h, i) - 1) else None
    case Kept(_) => if AfterDeletion(h, i) then Some(NumberAt(h, i)) else None
    case NoNewline => None
  }

  /** What the first edits of a hunk mark. */
  function Marked(h: HunkBody, n: nat): set<nat>
    requires n <= |h.edits|
  {
    set i | 0 <= i < n && Mark(h, i).Some? :: Mark(h, i).value
  }

  function MarkedHunks(hunks: seq<HunkBody>): set<nat> {
    set k, line | 0 <= k < |hunks| && line in Marked(hunks[k], |hunks[k].edits|) :: line
  }

  function MarkedFile(patches: seq<Patch>, path: string): set<nat> {
    set k, line | 0 <= k < |patches| && patches[k].path == path && line in MarkedHunks(patches[k].hunks) :: line
  }

  /** The added text would read as a file header. */
  predicate Misread(e: Edit) {
    e.Added? && "++ " <= e.text
  }

  ghost predicate CleanEdits(edits: seq<Edit>) {
    forall i :: 0 <= i < |edits| ==> !Misread(edits[i])
  }

  ghost predicate CleanHunks(hunks: seq<HunkBody>) {
    forall k :: 0 <= k < |hunks| ==> CleanEdits(hunks[k].edits)
  }

  ghost predicate Clean(patches: seq<Patch>) {
    forall k :: 0 <= k < |patches| ==> CleanHunks(patches[k].hunks)
  }

  // ----- reading -----

  lemma FirstChar(e: Edit)
    requires !Misread(e)
    ensures Body(Rendered(e))
    ensures "+" <= Rendered(e) <==> e.Added?
    ensures "-" <= Rendered(e) <==> e.Deleted?
    ensures " " <= Rendered(e) <==> e.Kept?
  {
    var text := Rendered(e);
    assert "diff --git "[0] == 'd' && "+++ "[0] == '+' && "+"[0] == '+' && "-"[0] == '-' && " "[0] == ' ';
    assert text[0] == match e case Kept(_) => ' ' case Added(_) => '+' case Deleted(_) => '-' case NoNewline => '\\';
    assert text[..1] == [text[0]];
    if e.Added? {
      PlusHeader(e.text);
    }
  }

  /** Where the reader is within a hunk, and what it has found since its start. */
  ghost predicate At(r: Reader, before: LineMap, path: string, h: HunkBody, n: nat)
    requires n <= |h.edits|
  {
    && r.path == Some(path) && r.line == Some(NumberAt(h, n)) && r.removed == AfterDeletion(h, n)
    && Grown(before, r.lines, path, Marked(h, n))
  }

  /** One path has more lines. */
  ghost predicate Grown(before: LineMap, after: LineMap, path: string, more: set<nat>) {
    forall q :: Lines(after, q) == Lines(before, q) + if q == path then more else {}
  }

  lemma MarkedNext(h: HunkBody, n: nat)
    requires n < |h.edits|
    ensures Marked(h, n + 1) == Marked(h, n) + if Mark(h, n).Some? then {Mark(h, n).value} else {}
  {
  }

  lemma AddGrows(m: LineMap, path: string, more: set<nat>)
    ensures Grown(m, Add(m, path, more), path, more)
  {
  }

  lemma GrownTwice(a: LineMap, b: LineMap, c: LineMap, path: string, first: set<nat>, second: set<nat>)
    requires Grown(a, b, path, first) && Grown(b, c, path, second)
    ensures Grown(a, c, path, first + second)
  {
    hide Lines;
  }

  lemma ReadEdit(r: Reader, before: LineMap, path: string, h: HunkBody, n: nat)
    requires n < |h.edits| && !Misread(h.edits[n]) && At(r, before, path, h, n)
    ensures At(Read(r, Text(Rendered(h.edits[n]))), before, path, h, n + 1)
  {
    hide Read, Marked, Rendered, Body, Add, Grown;
    FirstChar(h.edits[n]);
    ReadBody(r, Rendered(h.edits[n]));
    MarkedNext(h, n);
    var more := if Mark(h, n).Some? then {Mark(h, n).value} else {};
    AddGrows(r.lines, path, more);
    GrownTwice(before, r.lines, Add(r.lines, path, more), path, Marked(h, n), more);
  }

  /** How many of the first edits come before one that is misread. */
  function ReadLength(h: HunkBody, n: nat): (m: nat)
    requires n <= |h.edits|
    ensures m <= n
  {
    if n == 0 then 0
    else if ReadLength(h, n - 1) == n - 1 && !Misread(h.edits[n - 1]) then n
    else ReadLength(h, n - 1)
  }

  /** Once a line is misread, the rest of its hunk is not read. */
  ghost predicate AtOrLost(r: Reader, before: LineMap, path: string, h: HunkBody, n: nat)
    requires n <= |h.edits|
  {
    if ReadLength(h, n) == n then At(r, before, path, h, n)
    else r.path.Some? && r.line.None? && Grown(before, r.lines, path, Marked(h, ReadLength(h, n)))
  }

  lemma ReadLost(r: Reader, e: Edit)
    requires r.path.Some? && (Misread(e) || r.line.None?)
    ensures var next := Read(r, Text(Rendered(e))); next.path.Some? && next.line.None? && next.lines == r.lines
  {
    if Misread(e) {
      PlusHeader(e.text);
      NotGit(e);
    } else {
      FirstChar(e);
    }
  }

  lemma NotGit(e: Edit)
    requires Misread(e)
    ensures "+++ " <= Rendered(e) && !("diff --git " <= Rendered(e))
  {
    PlusHeader(e.text);
    assert Rendered(e)[0] == '+' && "diff --git "[0] == 'd';
  }

  lemma ReadNextEdit(r: Reader, before: LineMap, path: string, h: HunkBody, n: nat)
    requires n < |h.edits| && AtOrLost(r, before, path, h, n)
    ensures AtOrLost(Read(r, Text(Rendered(h.edits[n]))), before, path, h, n + 1)
  {
    hide Read, Marked, Rendered, Grown, Misread;
    if ReadLength(h, n + 1) == n + 1 {
      ReadEdit(r, before, path, h, n);
    } else {
      ReadLost(r, h.edits[n]);
    }
  }

  lemma ReadHunk(r: Reader, start: nat)
    ensures Read(r, Hunk(start)) == r.(line := Some(start), removed := false)
  {
  }

  lemma StartAt(r: Reader, path: string, h: HunkBody)
    requires r.path == Some(path) && r.line == Some(h.start) && !r.removed
    ensures At(r, r.lines, path, h, 0)
  {
    assert Marked(h, 0) == {};
  }

  lemma {:induction false} ReadEdits(diff: seq<DiffLine>, path: string, h: HunkBody, n: nat)
    requires n <= |h.edits| && ReadAll(diff).path == Some(path)
    ensures AtOrLost(ReadAll(diff + [Hunk(h.start)] + RenderedEdits(h.edits[..n])), Affected(diff), path, h, n)
  {
    hide Read, At;
    var start := diff + [Hunk(h.start)];
    if n == 0 {
      ReadNext(diff, Hunk(h.start));
      ReadHunk(ReadAll(diff), h.start);
      assert start + RenderedEdits(h.edits[..0]) == start;
      StartAt(ReadAll(start), path, h);
    } else {
      hide AtOrLost;
      var e := h.edits[n - 1];
      ReadEdits(diff, path, h, n - 1);
      assert start + RenderedEdits(h.edits[..n]) == start + RenderedEdits(h.edits[..n - 1]) + [Text(Rendered(e))];
      ReadNext(start + RenderedEdits(h.edits[..n - 1]), Text(Rendered(e)));
      ReadNextEdit(ReadAll(start + RenderedEdits(h.edits[..n - 1])), Affected(diff), path, h, n - 1);
    }
  }

  /** A hunk is read, on the path that the reader has, up to its first misread line. */
  lemma ReadBodyOf(diff: seq<DiffLine>, path: string, h: HunkBody)
    requires ReadAll(diff).path == Some(path)
    ensures var all, m := diff + [Hunk(h.start)] + RenderedEdits(h.edits), ReadLength(h, |h.edits|);
      && ReadAll(all).path.Some? && Grown(Affected(diff), Affected(all), path, Marked(h, m))
      && (m == |h.edits| ==> ReadAll(all).path == Some(path))
  {
    hide Marked, Grown;
    ReadEdits(diff, path, h, |h.edits|);
    assert h.edits[..|h.edits|] == h.edits;
  }

  lemma {:induction false} CleanLength(h: HunkBody, n: nat)
    requires n <= |h.edits| && CleanEdits(h.edits)
    ensures ReadLength(h, n) == n
  {
    if n > 0 {
      CleanLength(h, n - 1);
    }
  }

  lemma {:induction false} ReadHunks(diff: seq<DiffLine>, path: string, hunks: seq<HunkBody>)
    requires CleanHunks(hunks) && ReadAll(diff).path == Some(path)
    ensures ReadAll(diff + RenderedHunks(hunks)).path == Some(path)
    ensures Grown(Affected(diff), Affected(diff + RenderedHunks(hunks)), path, MarkedHunks(hunks))
  {
    hide ReadAll, Marked, MarkedHunks, Lines, CleanEdits, Grown;
    if hunks == [] {
      assert diff + RenderedHunks(hunks) == diff;
      NoHunks(Affected(diff), path);
    } else {
      var init, h := hunks[..|hunks| - 1], hunks[|hunks| - 1];
      var before := diff + RenderedHunks(init);
      ReadHunks(diff, path, init);
      ReadBodyOf(before, path, h);
      CleanLength(h, |h.edits|);
      assert diff + RenderedHunks(hunks) == before + [Hunk(h.start)] + RenderedEdits(h.edits);
      GrownTwice(Affected(diff), Affected(before), Affected(diff + RenderedHunks(hunks)), path, MarkedHunks(init),
                 Marked(h, |h.edits|));
      MarkedHunksNext(init, h);
      assert hunks == init + [h];
    }
  }

  lemma NoHunks(lines: LineMap, path: string)
    ensures Grown(lines, lines, path, MarkedHunks([]))
  {
    assert MarkedHunks([]) == {};
  }

  lemma MarkedHunksNext(hunks: seq<HunkBody>, h: HunkBody)
    ensures MarkedHunks(hunks + [h]) == MarkedHunks(hunks) + Marked(h, |h.edits|)
  {
    hide Marked;
    var all := hunks + [h];
    forall line | line in MarkedHunks(hunks) + Marked(h, |h.edits|) ensures line in MarkedHunks(all) {
      if line in MarkedHunks(hunks) {
        var k :| 0 <= k < |hunks| && line in Marked(hunks[k], |hunks[k].edits|);
        assert all[k] == hunks[k];
      } else {
        assert all[|hunks|] == h;
      }
    }
  }

  lemma MarkedFileNext(patches: seq<Patch>, p: Patch, path: string)
    ensures MarkedFile(patches + [p], path) == MarkedFile(patches, path) + if path == p.path then MarkedHunks(p.hunks) else {}
  {
    hide MarkedHunks;
    var all := patches + [p];
    forall line | line in MarkedFile(patches, path) ensures line in MarkedFile(all, path) {
      var k :| 0 <= k < |patches| && patches[k].path == path && line in MarkedHunks(patches[k].hunks);
      assert all[k] == patches[k];
    }
    forall line | path == p.path && line in MarkedHunks(p.hunks) ensures line in MarkedFile(all, path) {
      assert all[|patches|] == p;
    }
  }

  /**
   The affected lines of a diff are its added lines, the line before each deleted one and the first line after it, unless an
   added line reads as a file header.
   */
  lemma {:induction false} AffectedMeans(patches: seq<Patch>)
    requires Clean(patches)
    ensures forall path :: Lines(Affected(Render(patches)), path) == MarkedFile(patches, path)
  {
    hide ReadAll, MarkedHunks, MarkedFile, Lines, CleanHunks, FileHeader;
    if patches == [] {
      NothingRead();
    } else {
      var init, p := patches[..|patches| - 1], patches[|patches| - 1];
      var before := Render(init) + FileHeader(p.path);
      AffectedMeans(init);
      ReadHeader(Render(init), p.path);
      ReadHunks(before, p.path, p.hunks);
      assert Render(patches) == before + RenderedHunks(p.hunks);
      assert Affected(before) == Affected(Render(init));
      forall path ensures Lines(Affected(Render(patches)), path) == MarkedFile(patches, path) {
        MarkedFileNext(init, p, path);
        assert patches == init + [p];
      }
    }
  }

  lemma NothingRead()
    ensures forall path :: Lines(Affected(Render([])), path) == MarkedFile([], path)
  {
  }

  // ----- exactly when that is so -----

  /** The line after the last one of a hunk. */
  function EndOf(h: HunkBody): nat {
    NumberAt(h, |h.edits|)
  }

  /** Hunks in order, with a line between any two. */
  ghost predicate Spaced(hunks: seq<HunkBody>) {
    forall k, l :: 0 <= k < l < |hunks| ==> EndOf(hunks[k]) < hunks[l].start
  }

  ghost predicate WellFormed(patches: seq<Patch>) {
    && (forall k, l :: 0 <= k < l < |patches| ==> patches[k].path != patches[l].path)
    && forall k :: 0 <= k < |patches| ==> Spaced(patches[k].hunks)
  }

  lemma {:induction false} NumbersRise(h: HunkBody, i: nat, n: nat)
    requires i <= n <= |h.edits|
    ensures h.start <= NumberAt(h, i) <= NumberAt(h, n)
    decreases n
  {
    if i < n {
      NumbersRise(h, i, n - 1);
    } else if n > 0 {
      NumbersRise(h, n - 1, n - 1);
    }
  }

  /** The marks of the first edits lie from the line before the hunk up to the next number. */
  lemma MarksWithin(h: HunkBody, n: nat)
    requires n <= |h.edits|
    ensures forall line :: line in Marked(h, n) ==> h.start <= line + 1 && line < NumberAt(h, n)
  {
    forall i | 0 <= i < n && Mark(h, i).Some?
      ensures h.start <= Mark(h, i).value + 1 && Mark(h, i).value < NumberAt(h, n)
    {
      NumbersRise(h, i, i + 1);
      NumbersRise(h, i + 1, n);
    }
  }

  lemma {:induction false} MisreadAt(h: HunkBody, n: nat)
    requires n <= |h.edits| && ReadLength(h, n) < n
    ensures Misread(h.edits[ReadLength(h, n)])
  {
    if ReadLength(h, n - 1) < n - 1 {
      MisreadAt(h, n - 1);
    }
  }

  /** A misread line loses at least its own mark. */
  lemma LostMark(h: HunkBody)
    ensures var all, read := Marked(h, |h.edits|), Marked(h, ReadLength(h, |h.edits|));
      |read| <= |all| && (ReadLength(h, |h.edits|) < |h.edits| ==> |read| < |all|)
  {
    var n := |h.edits|;
    var m := ReadLength(h, n);
    var all, read := Marked(h, n), Marked(h, m);
    assert all == read + (all - read) && |all| == |read| + |all - read|;
    if m < n {
      MisreadAt(h, n);
      MarksWithin(h, m);
      assert Mark(h, m) == Some(NumberAt(h, m));
      assert NumberAt(h, m) in all - read;
    }
  }

  function MarkCount(hunks: seq<HunkBody>): nat {
    if hunks == [] then 0
    else
      var h := hunks[|hunks| - 1];
      MarkCount(hunks[..|hunks| - 1]) + |Marked(h, |h.edits|)|
  }

  function ReadCount(hunks: seq<HunkBody>): nat {
    if hunks == [] then 0
    else
      var h := hunks[|hunks| - 1];
      ReadCount(hunks[..|hunks| - 1]) + |Marked(h, ReadLength(h, |h.edits|))|
  }

  lemma {:induction false} LostCount(hunks: seq<HunkBody>)
    ensures ReadCount(hunks) <= MarkCount(hunks)
    ensures !CleanHunks(hunks) ==> ReadCount(hunks) < MarkCount(hunks)
  {
    hide Marked;
    if hunks != [] {
      var init, h := hunks[..|hunks| - 1], hunks[|hunks| - 1];
      LostCount(init);
      LostMark(h);
      if ReadLength(h, |h.edits|) == |h.edits| {
        FullLength(h, |h.edits|);
        assert CleanHunks(init) ==> CleanHunks(init + [h]);
        assert hunks == init + [h];
      }
    }
  }

  lemma {:induction false} FullLength(h: HunkBody, n: nat)
    requires n <= |h.edits| && ReadLength(h, n) == n
    ensures CleanEdits(h.edits[..n])
    ensures n == |h.edits| ==> CleanEdits(h.edits)
  {
    if n > 0 {
      FullLength(h, n - 1);
      assert forall i :: 0 <= i < n - 1 ==> h.edits[..n - 1][i] == h.edits[i];
    }
  }

  lemma GrownCount(before: LineMap, after: LineMap, path: string, more: set<nat>)
    requires Grown(before, after, path, more)
    ensures |Pairs(after)| <= |Pairs(before)| + |more|
  {
    var added := set line: nat | line in more :: (path, line);
    forall pair | pair in Pairs(after) ensures pair in Pairs(before) + added {
      assert pair.1 in Lines(after, pair.0);
      assert pair.1 in Lines(before, pair.0) + if pair.0 == path then more else {};
      PairsMeanLines(before, pair.0, pair.1);
    }
    PairWith(path, more);
    SizeWithin(Pairs(after), Pairs(before) + added);
  }

  lemma SizeWithin(a: set<(string, nat)>, b: set<(string, nat)>)
    requires a <= b
    ensures |a| <= |b|
  {
    assert b == a + (b - a);
  }

  lemma {:induction false} CountHunks(diff: seq<DiffLine>, hunks: seq<HunkBody>)
    requires ReadAll(diff).path.Some?
    ensures ReadAll(diff + RenderedHunks(hunks)).path.Some?
    ensures |Pairs(Affected(diff + RenderedHunks(hunks)))| <= |Pairs(Affected(diff))| + ReadCount(hunks)
  {
    hide ReadAll, Marked, Pairs, Grown;
    if hunks == [] {
      assert diff + RenderedHunks(hunks) == diff;
    } else {
      var init, h := hunks[..|hunks| - 1], hunks[|hunks| - 1];
      var before := diff + RenderedHunks(init);
      CountHunks(diff, init);
      var path, m := ReadAll(before).path.value, ReadLength(h, |h.edits|);
      ReadBodyOf(before, path, h);
      var all := before + [Hunk(h.start)] + RenderedEdits(h.edits);
      GrownCount(Affected(before), Affected(all), path, Marked(h, m));
      assert diff + RenderedHunks(hunks) == all;
    }
  }

  function MarkTotal(patches: seq<Patch>): nat {
    if patches == [] then 0 else MarkTotal(patches[..|patches| - 1]) + MarkCount(patches[|patches| - 1].hunks)
  }

  function ReadTotal(patches: seq<Patch>): nat {
    if patches == [] then 0 else ReadTotal(patches[..|patches| - 1]) + ReadCount(patches[|patches| - 1].hunks)
  }

  lemma {:induction false} CountPatches(patches: seq<Patch>)
    ensures |Pairs(Affected(Render(patches)))| <= ReadTotal(patches)
  {
    hide ReadAll, Pairs, FileHeader;
    if patches == [] {
      NoPairs();
    } else {
      var init, p := patches[..|patches| - 1], patches[|patches| - 1];
      CountPatches(init);
      ReadHeader(Render(init), p.path);
      CountHunks(Render(init) + FileHeader(p.path), p.hunks);
      assert Render(patches) == Render(init) + FileHeader(p.path) + RenderedHunks(p.hunks);
    }
  }

  lemma NoPairs()
    ensures Pairs(Affected([])) == {} && Render([]) == []
  {
  }

  lemma {:induction false} LostTotal(patches: seq<Patch>)
    ensures ReadTotal(patches) <= MarkTotal(patches)
    ensures !Clean(patches) ==> ReadTotal(patches) < MarkTotal(patches)
  {
    hide CleanHunks;
    if patches != [] {
      var init, p := patches[..|patches| - 1], patches[|patches| - 1];
      LostTotal(init);
      LostCount(p.hunks);
      if CleanHunks(p.hunks) && Clean(init) {
        assert patches == init + [p];
        assert Clean(patches);
      }
    }
  }

  /** The pairs that a diff means to mark. */
  function Meant(patches: seq<Patch>): set<(string, nat)> {
    set k, line | 0 <= k < |patches| && line in MarkedHunks(patches[k].hunks) :: (patches[k].path, line)
  }

  lemma {:induction false} CountMarked(hunks: seq<HunkBody>, top: nat)
    requires Spaced(hunks) && EndsBy(hunks, top)
    ensures |MarkedHunks(hunks)| == MarkCount(hunks) && forall line :: line in MarkedHunks(hunks) ==> line < top
  {
    hide Marked, MarkedHunks, Spaced, EndsBy;
    if hunks == [] {
      NothingMarked();
    } else {
      var init, h := hunks[..|hunks| - 1], hunks[|hunks| - 1];
      var below: nat := if h.start == 0 then 0 else h.start - 1;
      SpacedInit(hunks, top, below);
      CountMarked(init, below);
      MarkedHunksNext(init, h);
      assert hunks == init + [h];
      MarksWithin(h, |h.edits|);
      assert MarkedHunks(init) !! Marked(h, |h.edits|);
      NumbersRise(h, 0, |h.edits|);
    }
  }

  ghost predicate EndsBy(hunks: seq<HunkBody>, top: nat) {
    forall k :: 0 <= k < |hunks| ==> EndOf(hunks[k]) <= top
  }

  lemma SpacedInit(hunks: seq<HunkBody>, top: nat, below: nat)
    requires hunks != [] && Spaced(hunks) && EndsBy(hunks, top)
    requires below == (if hunks[|hunks| - 1].start == 0 then 0 else hunks[|hunks| - 1].start - 1)
    ensures Spaced(hunks[..|hunks| - 1]) && EndsBy(hunks[..|hunks| - 1], below) && EndOf(hunks[|hunks| - 1]) <= top
  {
    hide NumberAt;
    var last := |hunks| - 1;
    assert forall k :: 0 <= k < last ==> hunks[..last][k] == hunks[k];
  }

  lemma NothingMarked()
    ensures MarkedHunks([]) == {}
  {
  }

  lemma {:induction false} CountMeant(patches: seq<Patch>)
    requires WellFormed(patches)
    ensures |Meant(patches)| == MarkTotal(patches)
  {
    hide MarkedHunks, Meant, WellFormed;
    if patches == [] {
      NothingMeant();
    } else {
      var init, p := patches[..|patches| - 1], patches[|patches| - 1];
      WellFormedInit(patches);
      CountMeant(init);
      CountFile(p.hunks);
      PairWith(p.path, MarkedHunks(p.hunks));
      MeantNext(init, p);
      assert patches == init + [p];
    }
  }

  lemma NothingMeant()
    ensures Meant([]) == {}
  {
  }

  lemma WellFormedInit(patches: seq<Patch>)
    requires patches != [] && WellFormed(patches)
    ensures var init, p := patches[..|patches| - 1], patches[|patches| - 1];
      && WellFormed(init) && Spaced(p.hunks)
      && forall pair :: pair in Meant(init) ==> pair.0 != p.path
  {
    hide Spaced, MarkedHunks;
    var last := |patches| - 1;
    assert forall k :: 0 <= k < last ==> patches[..last][k] == patches[k];
  }

  lemma MeantNext(patches: seq<Patch>, p: Patch)
    ensures Meant(patches + [p]) == Meant(patches) + set line: nat | line in MarkedHunks(p.hunks) :: (p.path, line)
  {
    hide MarkedHunks;
    var all := patches + [p];
    assert all[|patches|] == p && forall k :: 0 <= k < |patches| ==> all[k] == patches[k];
  }

  lemma CountFile(hunks: seq<HunkBody>)
    requires Spaced(hunks)
    ensures |MarkedHunks(hunks)| == MarkCount(hunks)
  {
    if hunks != [] {
      var last := hunks[|hunks| - 1];
      forall k | 0 <= k < |hunks| ensures EndOf(hunks[k]) <= EndOf(last) {
        NumbersRise(last, 0, |last.edits|);
      }
      assert EndsBy(hunks, EndOf(last));
      CountMarked(hunks, EndOf(last));
    }
  }

  /** A well-formed diff is read as it is meant if and only if none of its added lines reads as a file header. */
  lemma AffectedIff(patches: seq<Patch>)
    requires WellFormed(patches)
    ensures (forall path :: Lines(Affected(Render(patches)), path) == MarkedFile(patches, path)) <==> Clean(patches)
  {
    hide Affected, Lines, MarkedFile, Clean;
    if Clean(patches) {
      AffectedMeans(patches);
    } else {
      CountPatches(patches);
      LostTotal(patches);
      CountMeant(patches);
      if forall path :: Lines(Affected(Render(patches)), path) == MarkedFile(patches, path) {
        MeantIs(patches, Affected(Render(patches)));
      }
    }
  }

  lemma MeantIs(patches: seq<Patch>, lines: LineMap)
    requires forall path :: Lines(lines, path) == MarkedFile(patches, path)
    ensures Pairs(lines) == Meant(patches)
  {
    hide MarkedHunks;
    forall pair: (string, nat) ensures pair in Pairs(lines) <==> pair in Meant(patches) {
      PairsMeanLines(lines, pair.0, pair.1);
      assert Lines(lines, pair.0) == MarkedFile(patches, pair.0);
    }
  }

  // ----- changed lines -----

  function AddedBy(h: HunkBody, n: nat): set<nat>
    requires n <= |h.edits|
  {
    set i | 0 <= i < n && h.edits[i].Added? :: NumberAt(h, i)
  }

  function AddedHunks(hunks: seq<HunkBody>): set<nat> {
    set k, line | 0 <= k < |hunks| && line in AddedBy(hunks[k], |hunks[k].edits|) :: line
  }

  function AddedFile(patches: seq<Patch>, path: string): set<nat> {
    set k, line | 0 <= k < |patches| && patches[k].path == path && line in AddedHunks(patches[k].hunks) :: line
  }

  lemma PairsGrow(before: LineMap, after: LineMap, path: string, line: nat)
    requires Pairs(after) == Pairs(before) + {(path, line)}
    ensures Grown(before, after, path, {line})
  {
    forall q ensures Lines(after, q) == Lines(before, q) + if q == path then {line} else {} {
      forall l: nat ensures l in Lines(after, q) <==> l in Lines(before, q) + if q == path then {line} else {} {
        PairsMeanLines(after, q, l);
        PairsMeanLines(before, q, l);
      }
    }
  }

  lemma AddedNext(h: HunkBody, n: nat)
    requires n < |h.edits|
    ensures AddedBy(h, n + 1) == AddedBy(h, n) + if h.edits[n].Added? then {NumberAt(h, n)} else {}
  {
  }

  lemma SameGrows(before: LineMap, after: LineMap, path: string, more: set<nat>)
    requires Grown(before, after, path, more)
    ensures Grown(before, after, path, more + {})
  {
    assert more + {} == more;
  }

  lemma ChangeEdit(c: Changer, before: LineMap, path: string, h: HunkBody, n: nat)
    requires n < |h.edits| && !Misread(h.edits[n]) && c.path == Some(path) && c.line == Some(NumberAt(h, n))
    requires Grown(before, NumbersOf(c.added), path, AddedBy(h, n))
    ensures Grown(before, NumbersOf(Change(c, Text(Rendered(h.edits[n]))).added), path, AddedBy(h, n + 1))
  {
    hide Change, NumbersOf, AddedBy, Rendered, Body, Grown, NumberAt;
    var now, next := NumberAt(h, n), Change(c, Text(Rendered(h.edits[n])));
    FirstChar(h.edits[n]);
    ChangeBody(c, Rendered(h.edits[n]));
    AddedNext(h, n);
    if h.edits[n].Added? {
      PairsGrow(NumbersOf(c.added), NumbersOf(next.added), path, now);
      GrownTwice(before, NumbersOf(c.added), NumbersOf(next.added), path, AddedBy(h, n), {now});
    } else {
      SameGrows(before, NumbersOf(c.added), path, AddedBy(h, n));
    }
  }

  lemma {:induction false} ChangeEdits(diff: seq<DiffLine>, path: string, h: HunkBody, n: nat)
    requires n <= |h.edits| && CleanEdits(h.edits) && ReadAll(diff).path == Some(path)
    ensures Grown(Changed(diff), Changed(diff + [Hunk(h.start)] + RenderedEdits(h.edits[..n])), path, AddedBy(h, n))
  {
    hide Change, ReadAll, NumbersOf, Grown, AddedBy;
    var start := diff + [Hunk(h.start)];
    if n == 0 {
      ChangeNext(diff, Hunk(h.start));
      ChangeHunk(ChangeAll(diff), h.start);
      assert start + RenderedEdits(h.edits[..0]) == start;
      NothingAdded(Changed(diff), path, h);
    } else {
      var before, text := start + RenderedEdits(h.edits[..n - 1]), Text(Rendered(h.edits[n - 1]));
      ChangeEdits(diff, path, h, n - 1);
      assert start + RenderedEdits(h.edits[..n]) == before + [text];
      ChangeNext(before, text);
      ReadEdits(diff, path, h, n - 1);
      CleanLength(h, n - 1);
      ChangedIsAffected(before);
      ChangeEdit(ChangeAll(before), Changed(diff), path, h, n - 1);
    }
  }

  lemma ChangeHunk(c: Changer, start: nat)
    ensures Change(c, Hunk(start)).added == c.added
  {
  }

  lemma NothingAdded(lines: LineMap, path: string, h: HunkBody)
    ensures Grown(lines, lines, path, AddedBy(h, 0)) && Grown(lines, lines, path, AddedHunks([]))
  {
    assert AddedBy(h, 0) == {} && AddedHunks([]) == {};
  }

  lemma AddedHunksNext(hunks: seq<HunkBody>, h: HunkBody)
    ensures AddedHunks(hunks + [h]) == AddedHunks(hunks) + AddedBy(h, |h.edits|)
  {
    hide AddedBy;
    var all := hunks + [h];
    assert all[|hunks|] == h && forall k :: 0 <= k < |hunks| ==> all[k] == hunks[k];
    forall line | line in AddedHunks(hunks) ensures line in AddedHunks(all) {
      var k :| 0 <= k < |hunks| && line in AddedBy(hunks[k], |hunks[k].edits|);
      assert line in AddedBy(all[k], |all[k].edits|);
    }
  }

  lemma {:induction false} ChangeHunks(diff: seq<DiffLine>, path: string, hunks: seq<HunkBody>)
    requires CleanHunks(hunks) && ReadAll(diff).path == Some(path)
    ensures Grown(Changed(diff), Changed(diff + RenderedHunks(hunks)), path, AddedHunks(hunks))
  {
    hide ReadAll, Changed, AddedBy, AddedHunks, CleanEdits, Grown;
    if hunks == [] {
      assert diff + RenderedHunks(hunks) == diff;
      NothingAdded(Changed(diff), path, HunkBody(0, []));
    } else {
      var init, h := hunks[..|hunks| - 1], hunks[|hunks| - 1];
      var before := diff + RenderedHunks(init);
      ChangeHunks(diff, path, init);
      ReadHunks(diff, path, init);
      ChangeEdits(before, path, h, |h.edits|);
      assert h.edits[..|h.edits|] == h.edits;
      assert diff + RenderedHunks(hunks) == before + [Hunk(h.start)] + RenderedEdits(h.edits);
      GrownTwice(Changed(diff), Changed(before), Changed(diff + RenderedHunks(hunks)), path, AddedHunks(init),
                 AddedBy(h, |h.edits|));
      AddedHunksNext(init, h);
      assert hunks == init + [h];
    }
  }

  lemma ChangeHeader(before: seq<DiffLine>, path: string)
    ensures Changed(before + FileHeader(path)) == Changed(before)
  {
    hide Change;
    var h := FileHeader(path);
    assert before + h == before + [h[0]] + [h[1]] + [h[2]];
    ChangeNext(before, h[0]);
    ChangeNext(before + [h[0]], h[1]);
    ChangeNext(before + [h[0]] + [h[1]], h[2]);
    HeaderAdds(ChangeAll(before), path);
  }

  lemma HeaderAdds(c: Changer, path: string)
    ensures var h := FileHeader(path); Change(Change(Change(c, h[0]), h[1]), h[2]).added == c.added
  {
    var h := FileHeader(path);
    assert h[0].text[..11] == "diff --git " && h[1].text[0] == '-' && h[2].text[..4] == "+++ " && h[2].text[0] == '+';
    assert "diff --git "[0] == 'd' && "+++ "[0] == '+';
  }

  /** The changed lines of a diff are exactly its added lines, unless one of them reads as a file header. */
  lemma {:induction false} ChangedMeans(patches: seq<Patch>)
    requires Clean(patches)
    ensures forall path :: Lines(Changed(Render(patches)), path) == AddedFile(patches, path)
  {
    hide ReadAll, Changed, AddedHunks, AddedFile, Lines, CleanHunks, FileHeader;
    if patches == [] {
      NothingChanged();
    } else {
      var init, p := patches[..|patches| - 1], patches[|patches| - 1];
      var before := Render(init) + FileHeader(p.path);
      ChangedMeans(init);
      ReadHeader(Render(init), p.path);
      ChangeHeader(Render(init), p.path);
      ChangeHunks(before, p.path, p.hunks);
      assert Render(patches) == before + RenderedHunks(p.hunks);
      forall path ensures Lines(Changed(Render(patches)), path) == AddedFile(patches, path) {
        AddedFileNext(init, p, path);
        assert patches == init + [p];
      }
    }
  }

  lemma AddedFileNext(patches: seq<Patch>, p: Patch, path: string)
    ensures AddedFile(patches + [p], path) == AddedFile(patches, path) + if path == p.path then AddedHunks(p.hunks) else {}
  {
    hide AddedHunks;
    var all := patches + [p];
    assert all[|patches|] == p;
    forall line | line in AddedFile(patches, path) ensures line in AddedFile(all, path) {
      var k :| 0 <= k < |patches| && patches[k].path == path && line in AddedHunks(patches[k].hunks);
      assert all[k] == patches[k];
    }
  }

  lemma NothingChanged()
    ensures forall path :: Lines(Changed(Render([])), path) == AddedFile([], path)
  {
    NoNumbers();
  }
}
