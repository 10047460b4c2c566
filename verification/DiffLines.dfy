/**
 The unified-diff reader and the synthetic-diff writer of the mutation router.

 A diff is a sequence of lines. Prefixes are tested on the text of a line; of a
 line that the hunk pattern matches only the first new line number is kept.
 */
module DiffLines {
  import opened Wrappers

  datatype DiffLine = Hunk(start: nat) | Text(text: string)

  /** Line numbers per path. */
  type LineMap = map<string, set<nat>>

  function Lines(m: LineMap, path: string): set<nat> {
    if path in m then m[path] else {}
  }

  /** The (path, line) pairs of a line map. */
  function Pairs(m: LineMap): set<(string, nat)> {
    set path, line | path in m && line in m[path] :: (path, line)
  }

  lemma PairsMeanLines(m: LineMap, path: string, line: nat)
    ensures (path, line) in Pairs(m) <==> line in Lines(m, path)
  {
  }

  // ----- reading: affected_lines -----

  datatype Reader = Reader(path: Option<string>, line: Option<nat>, removed: bool, lines: LineMap)

  const START := Reader(None, None, false, map[])

  function StripNewSide(path: string): string {
    if "b/" <= path then path[2..] else path
  }

  function Read(r: Reader, d: DiffLine): Reader {
    match d
    case Hunk(start) => r.(line := Some(start), removed := false)
    case Text(text) =>
      if "diff --git " <= text then r.(path := None, line := None)
      else if "+++ " <= text then r.(path := Some(StripNewSide(text[4..])), line := None)
      else if r.path.None? || r.line.None? then r
      else
        var path, line := r.path.value, r.line.value;
        var had := Lines(r.lines, path);
        if "-" <= text then
          r.(removed := true, lines := r.lines[path := if line > 1 then had + {line - 1} else had])
        else if "+" <= text || " " <= text then
          r.(removed := false, line := Some(line + 1),
             lines := r.lines[path := if r.removed || "+" <= text then had + {line} else had])
        else
          r.(lines := r.lines[path := had])
  }

  function ReadAll(diff: seq<DiffLine>): Reader {
    if diff == [] then START else Read(ReadAll(diff[..|diff| - 1]), diff[|diff| - 1])
  }

  /** The lines of each file that mutants are selected by. */
  function Affected(diff: seq<DiffLine>): LineMap {
    ReadAll(diff).lines
  }

  lemma ReadNext(diff: seq<DiffLine>, d: DiffLine)
    ensures ReadAll(diff + [d]) == Read(ReadAll(diff), d)
  {
    assert (diff + [d])[..|diff|] == diff;
  }

  method AffectedLines(diff: seq<DiffLine>) returns (lines: LineMap)
    ensures lines == Affected(diff)
  {
    lines := map[];
    var path: Option<string>, line: Option<nat>, removed := None, None, false;
    for i := 0 to |diff|
      invariant Reader(path, line, removed, lines) == ReadAll(diff[..i])
    {
      assert diff[..i + 1] == diff[..i] + [diff[i]];
      ReadNext(diff[..i], diff[i]);
      match diff[i] {
        case Hunk(start) => line, removed := Some(start), false;
        case Text(text) =>
          if "diff --git " <= text {
            path, line := None, None;
          } else if "+++ " <= text {
            path, line := Some(StripNewSide(text[4..])), None;
          } else if path.Some? && line.Some? {
            var had := Lines(lines, path.value);
            if "-" <= text {
              removed := true;
              if line.value > 1 {
                had := had + {line.value - 1};
              }
            } else if "+" <= text || " " <= text {
              if removed || "+" <= text {
                had := had + {line.value};
              }
              removed := false;
              line := Some(line.value + 1);
            }
            lines := lines[path.value := had];
          }
      }
    }
    assert diff[..|diff|] == diff;
  }

  // ----- writing: one insert-only hunk per selected line -----

  datatype NewLine = NewLine(number: nat, text: string)
  datatype NewFile = NewFile(path: string, added: seq<NewLine>)

  /** A header for line 0 has a negative old start, which the hunk pattern does not match. */
  function HunkHeader(number: nat): DiffLine {
    if number >= 1 then Hunk(number) else Text("@@ --1,0 +0,1 @@")
  }

  function FileHeader(path: string): seq<DiffLine> {
    [Text("diff --git a/" + path + " b/" + path), Text("--- a/" + path), Text("+++ b/" + path)]
  }

  function WriteLines(added: seq<NewLine>): seq<DiffLine> {
    if added == [] then []
    else
      var last := added[|added| - 1];
      WriteLines(added[..|added| - 1]) + [HunkHeader(last.number), Text(last.text)]
  }

  function Write(files: seq<NewFile>): seq<DiffLine> {
    if files == [] then []
    else
      var last := files[|files| - 1];
      Write(files[..|files| - 1]) + FileHeader(last.path) + WriteLines(last.added)
  }

  function Numbers(added: seq<NewLine>): set<nat> {
    set n | n in added :: n.number
  }

  ghost predicate DistinctPaths(files: seq<NewFile>) {
    forall i, j :: 0 <= i < j < |files| ==> files[i].path != files[j].path
  }

  ghost predicate NonEmptyFiles(files: seq<NewFile>) {
    forall f :: f in files ==> f.added != []
  }

  ghost predicate DistinctNumbers(added: seq<NewLine>) {
    forall i, j :: 0 <= i < j < |added| ==> added[i].number != added[j].number
  }

  /** What a list of files asks for. */
  function Wanted(files: seq<NewFile>): LineMap {
    if files == [] then map[]
    else
      var last := files[|files| - 1];
      Wanted(files[..|files| - 1])[last.path := Numbers(last.added)]
  }

  /** A line that the reader recognises as an added line once its hunk has been read. */
  predicate Readable(n: NewLine) {
    n.number >= 1 && "+" <= n.text && !("+++ " <= n.text)
  }

  ghost predicate AllReadable(files: seq<NewFile>) {
    forall f, n :: f in files && n in f.added ==> Readable(n)
  }

  lemma ReadGitLine(r: Reader, path: string)
    ensures Read(r, FileHeader(path)[0]) == r.(path := None, line := None)
  {
    assert FileHeader(path)[0].text[..11] == "diff --git ";
  }

  lemma ReadOldLine(r: Reader, path: string)
    requires r.path.None?
    ensures Read(r, FileHeader(path)[1]) == r
  {
    var text := FileHeader(path)[1].text;
    assert text[0] == '-' && "diff --git "[0] == 'd' && "+++ "[0] == '+';
  }

  lemma ReadNewPath(r: Reader, path: string)
    ensures Read(r, FileHeader(path)[2]) == r.(path := Some(path), line := None)
  {
    var text := FileHeader(path)[2].text;
    assert text[0] == '+' && "diff --git "[0] == 'd';
    assert text[..4] == "+++ " && text[4..] == "b/" + path;
  }

  lemma ReadHeader(before: seq<DiffLine>, path: string)
    ensures ReadAll(before + FileHeader(path)) ==
            ReadAll(before).(path := Some(path), line := None)
  {
    hide Read;
    var h := FileHeader(path);
    var r := ReadAll(before);
    ReadNext(before, h[0]);
    ReadGitLine(r, path);
    ReadNext(before + [h[0]], h[1]);
    ReadOldLine(r.(path := None, line := None), path);
    ReadNext(before + [h[0]] + [h[1]], h[2]);
    ReadNewPath(r.(path := None, line := None), path);
    assert before + h == before + [h[0]] + [h[1]] + [h[2]];
  }

  lemma ReadNewLine(before: seq<DiffLine>, n: NewLine, path: string)
    requires ReadAll(before).path == Some(path)
    requires Readable(n)
    ensures var now := ReadAll(before + [HunkHeader(n.number), Text(n.text)]);
            now.path == Some(path) && now.lines == Add(Affected(before), path, {n.number})
  {
    var two := [HunkHeader(n.number), Text(n.text)];
    ReadNext(before, two[0]);
    ReadNext(before + [two[0]], two[1]);
    assert before + two == before + [two[0]] + [two[1]];
    assert n.text[0] == '+' && "diff --git "[0] == 'd';
  }

  lemma WriteLinesNext(before: seq<DiffLine>, added: seq<NewLine>)
    requires added != []
    ensures var init, last := added[..|added| - 1], added[|added| - 1];
            before + WriteLines(added) ==
            before + WriteLines(init) + [HunkHeader(last.number), Text(last.text)]
  {
  }

  lemma NumbersNext(added: seq<NewLine>)
    requires added != []
    ensures var init, last := added[..|added| - 1], added[|added| - 1];
            Numbers(added) == Numbers(init) + {last.number}
  {
    var init, last := added[..|added| - 1], added[|added| - 1];
    assert added == init + [last];
  }

  function Add(m: LineMap, path: string, numbers: set<nat>): LineMap {
    m[path := Lines(m, path) + numbers]
  }

  lemma AddTwice(m: LineMap, path: string, a: set<nat>, b: set<nat>)
    ensures Add(Add(m, path, a), path, b) == Add(m, path, a + b)
  {
    assert Lines(m, path) + a + b == Lines(m, path) + (a + b);
  }

  lemma {:induction false} ReadNewLines(before: seq<DiffLine>, added: seq<NewLine>, path: string)
    requires ReadAll(before).path == Some(path)
    requires forall n :: n in added ==> Readable(n)
    ensures ReadAll(before + WriteLines(added)).path == Some(path)
    ensures Affected(before + WriteLines(added)) ==
            if added == [] then Affected(before) else Add(Affected(before), path, Numbers(added))
  {
    if added == [] {
      assert before + WriteLines(added) == before;
    } else {
      var init, last := added[..|added| - 1], added[|added| - 1];
      assert last in added && forall n :: n in init ==> n in added;
      ReadNewLines(before, init, path);
      ReadNewLine(before + WriteLines(init), last, path);
      WriteLinesNext(before, added);
      NumbersNext(added);
      if init == [] {
        assert Numbers(added) == {last.number};
      } else {
        AddTwice(Affected(before), path, Numbers(init), {last.number});
      }
    }
  }

  lemma ReadFile(before: seq<DiffLine>, file: NewFile)
    requires file.added != [] && forall n :: n in file.added ==> Readable(n)
    ensures Affected(before + FileHeader(file.path) + WriteLines(file.added)) ==
            Add(Affected(before), file.path, Numbers(file.added))
  {
    ReadHeader(before, file.path);
    ReadNewLines(before + FileHeader(file.path), file.added, file.path);
  }

  function PathsOf(files: seq<NewFile>): set<string> {
    set f | f in files :: f.path
  }

  lemma {:induction false} WantedPaths(files: seq<NewFile>)
    ensures Wanted(files).Keys == PathsOf(files)
  {
    if files != [] {
      var init, last := files[..|files| - 1], files[|files| - 1];
      WantedPaths(init);
      assert files == init + [last];
    }
  }

  lemma WriteNext(files: seq<NewFile>)
    requires files != []
    ensures var init, last := files[..|files| - 1], files[|files| - 1];
            Write(files) == Write(init) + FileHeader(last.path) + WriteLines(last.added)
  {
  }

  lemma WantedNext(files: seq<NewFile>)
    requires files != []
    ensures var init, last := files[..|files| - 1], files[|files| - 1];
            Wanted(files) == Wanted(init)[last.path := Numbers(last.added)]
  {
  }

  /** Round trip: the reader gets back exactly what the writer was asked to select. */
  lemma {:induction false} ReadWrite(files: seq<NewFile>)
    requires DistinctPaths(files) && NonEmptyFiles(files) && AllReadable(files)
    ensures Affected(Write(files)) == Wanted(files)
  {
    if files != [] {
      var init, last := files[..|files| - 1], files[|files| - 1];
      assert last in files && forall f :: f in init ==> f in files;
      ReadWrite(init);
      ReadFile(Write(init), last);
      WriteNext(files);
      WantedNext(files);
      assert last.path !in Wanted(init) by {
        WantedPaths(init);
      }
      assert Lines(Wanted(init), last.path) + Numbers(last.added) == Numbers(last.added);
    }
  }

  // ----- and nothing else makes the round trip exact -----

  function ReadableCount(added: seq<NewLine>): nat {
    if added == [] then 0
    else ReadableCount(added[..|added| - 1]) + if Readable(added[|added| - 1]) then 1 else 0
  }

  function AllCount(files: seq<NewFile>): nat {
    if files == [] then 0 else AllCount(files[..|files| - 1]) + |files[|files| - 1].added|
  }

  function AllReadableCount(files: seq<NewFile>): nat {
    if files == [] then 0
    else AllReadableCount(files[..|files| - 1]) + ReadableCount(files[|files| - 1].added)
  }

  /** Insert-only text for lines numbered from 1. */
  ghost predicate InsertOnly(added: seq<NewLine>) {
    forall n :: n in added ==> n.number >= 1 && "+" <= n.text
  }

  lemma OneMorePair(m: LineMap, path: string, line: nat)
    ensures Pairs(Add(m, path, {line})) == Pairs(m) + {(path, line)}
    ensures |Pairs(Add(m, path, {line}))| <= |Pairs(m)| + 1
  {
    var now := Add(m, path, {line});
    forall p: string, l: nat
      ensures (p, l) in Pairs(now) <==> (p, l) in Pairs(m) + {(path, line)}
    {
      PairsMeanLines(now, p, l);
      PairsMeanLines(m, p, l);
    }
    assert Pairs(now) == Pairs(m) + {(path, line)};
  }

  lemma CountNewLine(before: seq<DiffLine>, n: NewLine)
    requires n.number >= 1 && "+" <= n.text
    ensures |Pairs(Affected(before + [HunkHeader(n.number), Text(n.text)]))| <=
            |Pairs(Affected(before))| + if Readable(n) then 1 else 0
  {
    var two := [HunkHeader(n.number), Text(n.text)];
    var r := ReadAll(before);
    ReadNext(before, two[0]);
    ReadNext(before + [two[0]], two[1]);
    assert before + two == before + [two[0]] + [two[1]];
    assert n.text[0] == '+' && "diff --git "[0] == 'd';
    if r.path.Some? && Readable(n) {
      ReadNewLine(before, n, r.path.value);
      OneMorePair(r.lines, r.path.value, n.number);
    }
  }

  lemma {:induction false} CountNewLines(before: seq<DiffLine>, added: seq<NewLine>)
    requires InsertOnly(added)
    ensures |Pairs(Affected(before + WriteLines(added)))| <= |Pairs(Affected(before))| + ReadableCount(added)
  {
    if added == [] {
      assert before + WriteLines(added) == before;
    } else {
      var init, last := added[..|added| - 1], added[|added| - 1];
      assert last in added && forall n :: n in init ==> n in added;
      CountNewLines(before, init);
      CountNewLine(before + WriteLines(init), last);
      WriteLinesNext(before, added);
    }
  }

  lemma {:induction false} CountRead(files: seq<NewFile>)
    requires forall f :: f in files ==> InsertOnly(f.added)
    ensures |Pairs(Affected(Write(files)))| <= AllReadableCount(files)
  {
    if files == [] {
      assert Pairs(Affected(Write(files))) == {};
    } else {
      var init, last := files[..|files| - 1], files[|files| - 1];
      assert last in files && forall f :: f in init ==> f in files;
      CountRead(init);
      ReadHeader(Write(init), last.path);
      CountNewLines(Write(init) + FileHeader(last.path), last.added);
      WriteNext(files);
    }
  }

  lemma {:induction false} CountNumbers(added: seq<NewLine>)
    requires DistinctNumbers(added)
    ensures |Numbers(added)| == |added|
  {
    if added != [] {
      var init, last := added[..|added| - 1], added[|added| - 1];
      CountNumbers(init);
      NumbersNext(added);
      assert last.number !in Numbers(init);
    }
  }

  lemma NewPathPairs(m: LineMap, path: string, numbers: set<nat>)
    requires path !in m
    ensures |Pairs(m[path := numbers])| == |Pairs(m)| + |numbers|
  {
    var added := set line: nat | line in numbers :: (path, line);
    assert Pairs(m[path := numbers]) == Pairs(m) + added;
    PairWith(path, numbers);
  }

  lemma {:induction false} PairWith(path: string, numbers: set<nat>)
    ensures |set line: nat | line in numbers :: (path, line)| == |numbers|
  {
    var pairs := set line: nat | line in numbers :: (path, line);
    if numbers != {} {
      var one :| one in numbers;
      PairWith(path, numbers - {one});
      assert pairs == (set line: nat | line in numbers - {one} :: (path, line)) + {(path, one)};
    } else {
      assert numbers == {} && pairs == {};
    }
  }

  lemma {:induction false} CountWanted(files: seq<NewFile>)
    requires DistinctPaths(files)
    requires forall f :: f in files ==> DistinctNumbers(f.added)
    ensures |Pairs(Wanted(files))| == AllCount(files)
  {
    if files == [] {
      assert Pairs(Wanted(files)) == {};
    } else {
      var init, last := files[..|files| - 1], files[|files| - 1];
      assert last in files && forall f :: f in init ==> f in files;
      CountWanted(init);
      CountNumbers(last.added);
      WantedNext(files);
      WantedPaths(init);
      NewPathPairs(Wanted(init), last.path, Numbers(last.added));
    }
  }

  lemma {:induction false} ReadableCountFull(added: seq<NewLine>)
    ensures ReadableCount(added) <= |added|
    ensures ReadableCount(added) == |added| ==> forall n :: n in added ==> Readable(n)
  {
    if added != [] {
      ReadableCountFull(added[..|added| - 1]);
      assert added == added[..|added| - 1] + [added[|added| - 1]];
    }
  }

  lemma {:induction false} AllReadableCountFull(files: seq<NewFile>)
    ensures AllReadableCount(files) <= AllCount(files)
    ensures AllReadableCount(files) == AllCount(files) ==> AllReadable(files)
  {
    if files != [] {
      var init, last := files[..|files| - 1], files[|files| - 1];
      AllReadableCountFull(init);
      ReadableCountFull(last.added);
      assert files == init + [last];
    }
  }

  /**
   A written diff is read back as exactly the selected lines if and only if no
   line of it looks like a file header.
   */
  lemma RoundTripIff(files: seq<NewFile>)
    requires DistinctPaths(files) && NonEmptyFiles(files)
    requires forall f :: f in files ==> InsertOnly(f.added) && DistinctNumbers(f.added)
    ensures Affected(Write(files)) == Wanted(files) <==>
            forall f, n :: f in files && n in f.added ==> !("+++ " <= n.text)
  {
    forall f, n | f in files && n in f.added
      ensures Readable(n) <==> !("+++ " <= n.text)
    {
      assert InsertOnly(f.added);
    }
    if AllReadable(files) {
      ReadWrite(files);
    } else {
      CountRead(files);
      CountWanted(files);
      AllReadableCountFull(files);
    }
  }

  /** A source line "++ b/x.rs" is taken for the header of another file. */
  lemma HeaderLineLost()
    ensures var files := [NewFile("a.md", [NewLine(1, "+++ b/x.rs")])]; Affected(Write(files)) != Wanted(files)
  {
    var n := NewLine(1, "+++ b/x.rs");
    var f := NewFile("a.md", [n]);
    assert n in f.added && f in [f] && "+++ " <= n.text;
    assert DistinctNumbers(f.added) && InsertOnly(f.added);
    RoundTripIff([f]);
  }

  lemma PlusHeader(source: string)
    ensures "+++ " <= "+" + source <==> "++ " <= source
  {
    var text := "+" + source;
    assert text[0] == '+' && text[1..] == source;
    if "+++ " <= text {
      assert source[..3] == text[1..4] == "+++ "[1..];
    }
    if "++ " <= source {
      assert text[..4] == "+" + source[..3];
    }
  }

  // ----- changed_lines_diff: the same reader, without deletion neighbours -----

  datatype Changer = Changer(path: Option<string>, line: Option<nat>, added: map<string, seq<NewLine>>)

  function NewLines(m: map<string, seq<NewLine>>, path: string): seq<NewLine> {
    if path in m then m[path] else []
  }

  function Change(c: Changer, d: DiffLine): Changer {
    match d
    case Hunk(start) => c.(line := Some(start))
    case Text(text) =>
      if "diff --git " <= text then c.(path := None, line := None)
      else if "+++ " <= text then c.(path := Some(StripNewSide(text[4..])), line := None)
      else if c.path.None? || c.line.None? then c
      else if "+" <= text then
        c.(added := c.added[c.path.value := NewLines(c.added, c.path.value) + [NewLine(c.line.value, text)]],
           line := Some(c.line.value + 1))
      else if " " <= text then c.(line := Some(c.line.value + 1))
      else c
  }

  function ChangeAll(diff: seq<DiffLine>): Changer {
    if diff == [] then Changer(None, None, map[])
    else Change(ChangeAll(diff[..|diff| - 1]), diff[|diff| - 1])
  }

  /** The lines a diff adds or replaces, per path, as a line map. */
  function Changed(diff: seq<DiffLine>): LineMap {
    NumbersOf(ChangeAll(diff).added)
  }

  function NumbersOf(added: map<string, seq<NewLine>>): LineMap {
    map path | path in added :: Numbers(added[path])
  }

  lemma ChangeNext(diff: seq<DiffLine>, d: DiffLine)
    ensures ChangeAll(diff + [d]) == Change(ChangeAll(diff), d)
  {
    assert (diff + [d])[..|diff|] == diff;
  }

  ghost predicate DeletesAt(diff: seq<DiffLine>, i: nat)
    requires i < |diff|
  {
    && diff[i].Text? && "-" <= diff[i].text
    && ReadAll(diff[..i]).path.Some? && ReadAll(diff[..i]).line.Some?
  }

  lemma NoNumbers()
    ensures Numbers([]) == {}
  {
  }

  lemma NumbersOfNext(added: map<string, seq<NewLine>>, path: string, n: NewLine)
    ensures Pairs(NumbersOf(added[path := NewLines(added, path) + [n]])) ==
            Pairs(NumbersOf(added)) + {(path, n.number)}
  {
    hide Numbers, Pairs;
    var now := added[path := NewLines(added, path) + [n]];
    NumbersNext(NewLines(added, path) + [n]);
    NoNumbers();
    assert (NewLines(added, path) + [n])[..|NewLines(added, path)|] == NewLines(added, path);
    assert Lines(NumbersOf(now), path) == Numbers(NewLines(added, path)) + {n.number};
    assert Numbers(NewLines(added, path)) == Lines(NumbersOf(added), path);
    assert NumbersOf(now) == Add(NumbersOf(added), path, {n.number});
    OneMorePair(NumbersOf(added), path, n.number);
  }

  lemma SamePairs(m: LineMap, path: string)
    ensures Pairs(Add(m, path, {})) == Pairs(m)
  {
    var now := Add(m, path, {});
    forall p: string, l: nat
      ensures (p, l) in Pairs(now) <==> (p, l) in Pairs(m)
    {
      PairsMeanLines(now, p, l);
      PairsMeanLines(m, p, l);
    }
  }

  predicate Body(text: string) {
    !("diff --git " <= text) && !("+++ " <= text)
  }

  lemma ReadBody(r: Reader, text: string)
    requires r.path.Some? && r.line.Some? && Body(text)
    ensures var path, line := r.path.value, r.line.value;
            Read(r, Text(text)) ==
            if "+" <= text then
              r.(removed := false, line := Some(line + 1), lines := Add(r.lines, path, {line}))
            else if "-" <= text then
              r.(removed := true, lines := Add(r.lines, path, if line > 1 then {line - 1} else {}))
            else if " " <= text then
              r.(removed := false, line := Some(line + 1),
                 lines := Add(r.lines, path, if r.removed then {line} else {}))
            else r.(lines := Add(r.lines, path, {}))
  {
    var had := Lines(r.lines, r.path.value);
    assert had + {} == had;
    assert "+" <= text ==> text[0] == '+';
    assert "-" <= text ==> text[0] == '-';
    assert " " <= text ==> text[0] == ' ';
  }

  lemma ChangeBody(c: Changer, text: string)
    requires c.path.Some? && c.line.Some? && Body(text)
    ensures var line := c.line.value;
            && (!("+" <= text) ==>
                  Change(c, Text(text)) == (if " " <= text then c.(line := Some(line + 1)) else c))
            && ("+" <= text ==>
                  && Change(c, Text(text)).path == c.path && Change(c, Text(text)).line == Some(line + 1)
                  && Pairs(NumbersOf(Change(c, Text(text)).added)) ==
                     Pairs(NumbersOf(c.added)) + {(c.path.value, line)})
  {
    NumbersOfNext(c.added, c.path.value, NewLine(c.line.value, text));
  }

  /** Both readers stay in step over a line, and only a deletion tells them apart. */
  ghost predicate InStep(c: Changer, r: Reader, d: DiffLine) {
    && Change(c, d).path == Read(r, d).path && Change(c, d).line == Read(r, d).line
    && (Pairs(NumbersOf(c.added)) <= Pairs(r.lines) ==>
          Pairs(NumbersOf(Change(c, d).added)) <= Pairs(Read(r, d).lines))
    && (Pairs(NumbersOf(c.added)) == Pairs(r.lines) && !r.removed
        && (d.Text? && "-" <= d.text ==> r.path.None? || r.line.None?) ==>
          Pairs(NumbersOf(Change(c, d).added)) == Pairs(Read(r, d).lines) && !Read(r, d).removed)
  }

  lemma BodyInStep(c: Changer, r: Reader, text: string)
    requires c.path == r.path && c.line == r.line && r.path.Some? && r.line.Some? && Body(text)
    ensures InStep(c, r, Text(text))
  {
    hide Read, Change, Pairs, NumbersOf, Add, Body;
    var path, line := r.path.value, r.line.value;
    assert "-" <= text ==> text[0] == '-';
    assert "+" <= text ==> text[0] == '+';
    assert " " <= text ==> text[0] == ' ';
    ReadBody(r, text);
    ChangeBody(c, text);
    SamePairs(r.lines, path);
    OneMorePair(r.lines, path, line);
    if line > 1 {
      OneMorePair(r.lines, path, line - 1);
    }
  }

  lemma ChangeReadStep(c: Changer, r: Reader, d: DiffLine)
    requires c.path == r.path && c.line == r.line
    ensures InStep(c, r, d)
  {
    if d.Text? && r.path.Some? && r.line.Some? && Body(d.text) {
      hide InStep;
      BodyInStep(c, r, d.text);
    } else {
      hide Pairs, NumbersOf;
    }
  }

  /** Both readers agree on where they are; the changed lines are affected lines. */
  lemma {:induction false} ChangedIsAffected(diff: seq<DiffLine>)
    ensures ChangeAll(diff).path == ReadAll(diff).path
    ensures ChangeAll(diff).line == ReadAll(diff).line
    ensures Pairs(Changed(diff)) <= Pairs(Affected(diff))
    ensures (forall i: nat :: i < |diff| ==> !DeletesAt(diff, i)) ==>
              !ReadAll(diff).removed && Pairs(Changed(diff)) == Pairs(Affected(diff))
  {
    if diff != [] {
      var init, last := diff[..|diff| - 1], diff[|diff| - 1];
      ChangedIsAffected(init);
      var c, r := ChangeAll(init), ReadAll(init);
      assert !DeletesAt(diff, |diff| - 1) ==> !(last.Text? && "-" <= last.text && r.path.Some? && r.line.Some?);
      assert forall i: nat :: i < |init| ==> DeletesAt(init, i) == DeletesAt(diff, i) by {
        forall i: nat | i < |init| ensures DeletesAt(init, i) == DeletesAt(diff, i) {
          assert init[..i] == diff[..i];
        }
      }
      ChangeReadStep(c, r, last);
    }
  }

  // ----- the order in which files are written -----

  predicate Before(a: string, b: string) {
    a == "" || (b != "" && (a[0] < b[0] || (a[0] == b[0] && Before(a[1..], b[1..]))))
  }

  lemma {:induction a, b} BeforeTotal(a: string, b: string)
    ensures Before(a, b) || Before(b, a)
  {
  }

  lemma {:induction a, b, c} BeforeTransitive(a: string, b: string, c: string)
    requires Before(a, b) && Before(b, c)
    ensures Before(a, c)
  {
  }

  predicate IsFirst(p: string, paths: set<string>) {
    p in paths && forall q :: q in paths ==> Before(p, q)
  }

  lemma StillFirst(p: string, some: string, paths: set<string>)
    requires some in paths && IsFirst(p, paths - {some})
    ensures IsFirst(if Before(p, some) then p else some, paths)
  {
    BeforeTotal(p, some);
    BeforeTotal(some, some);
    if !Before(p, some) {
      forall q | q in paths && q != some ensures Before(some, q) {
        BeforeTransitive(some, p, q);
      }
    }
  }

  lemma {:induction false} FirstPath(paths: set<string>)
    requires paths != {}
    ensures exists p :: IsFirst(p, paths)
  {
    var some :| some in paths;
    if paths == {some} {
      BeforeTotal(some, some);
      assert IsFirst(some, paths);
    } else {
      var rest := paths - {some};
      assert paths == rest + {some};
      FirstPath(rest);
      var p :| IsFirst(p, rest);
      StillFirst(p, some, paths);
    }
  }

  /** files holds each path of added once, in path order, with its lines. */
  ghost predicate Lists(files: seq<NewFile>, added: map<string, seq<NewLine>>) {
    && DistinctPaths(files)
    && (forall i, j :: 0 <= i < j < |files| ==> Before(files[i].path, files[j].path))
    && (forall f :: f in files ==> f.path in added && f.added == added[f.path])
    && PathsOf(files) == added.Keys
  }

  method SortFiles(added: map<string, seq<NewLine>>) returns (files: seq<NewFile>)
    ensures Lists(files, added)
  {
    files := [];
    var rest := added.Keys;
    while rest != {}
      invariant rest <= added.Keys
      invariant DistinctPaths(files)
      invariant forall i, j :: 0 <= i < j < |files| ==> Before(files[i].path, files[j].path)
      invariant forall f, q :: f in files && q in rest ==> f.path != q && Before(f.path, q)
      invariant forall f :: f in files ==> f.path in added && f.added == added[f.path]
      invariant PathsOf(files) == added.Keys - rest
    {
      FirstPath(rest);
      var path :| path in rest && IsFirst(path, rest);
      var file := NewFile(path, added[path]);
      assert forall f :: f in files + [file] <==> f in files || f == file;
      assert PathsOf(files + [file]) == PathsOf(files) + {path};
      files := files + [file];
      rest := rest - {path};
    }
  }

  method WriteDiff(files: seq<NewFile>) returns (diff: seq<DiffLine>)
    ensures diff == Write(files)
  {
    diff := [];
    for i := 0 to |files|
      invariant diff == Write(files[..i])
    {
      var file := files[i];
      var start := diff + FileHeader(file.path);
      diff := start;
      for j := 0 to |file.added|
        invariant diff == start + WriteLines(file.added[..j])
      {
        assert file.added[..j + 1][..j] == file.added[..j];
        WriteLinesNext(start, file.added[..j + 1]);
        diff := diff + [HunkHeader(file.added[j].number), Text(file.added[j].text)];
      }
      assert file.added[..|file.added|] == file.added;
      assert files[..i + 1][..i] == files[..i];
      WriteNext(files[..i + 1]);
    }
    assert files[..|files|] == files;
  }

  /** The added lines of a diff, as a diff that selects them and is read back as them. */
  method ChangedLinesDiff(diff: seq<DiffLine>) returns (changed: seq<DiffLine>)
    ensures exists files :: Lists(files, ChangeAll(diff).added) && changed == Write(files)
    ensures Affected(changed) == Changed(diff) <==> FromOne(Changed(diff))
  {
    var added: map<string, seq<NewLine>> := map[];
    var path: Option<string>, line: Option<nat> := None, None;
    for i := 0 to |diff|
      invariant Changer(path, line, added) == ChangeAll(diff[..i])
    {
      assert diff[..i + 1] == diff[..i] + [diff[i]];
      ChangeNext(diff[..i], diff[i]);
      match diff[i] {
        case Hunk(start) => line := Some(start);
        case Text(text) =>
          if "diff --git " <= text {
            path, line := None, None;
          } else if "+++ " <= text {
            path, line := Some(StripNewSide(text[4..])), None;
          } else if path.Some? && line.Some? {
            if "+" <= text {
              added := added[path.value := NewLines(added, path.value) + [NewLine(line.value, text)]];
              line := Some(line.value + 1);
            } else if " " <= text {
              line := Some(line.value + 1);
            }
          }
      }
    }
    assert diff[..|diff|] == diff;
    var sorted := SortFiles(added);
    changed := WriteDiff(sorted);
    ChangedRoundTrip(diff, sorted);
  }

  lemma {:induction false} WantedAt(files: seq<NewFile>, i: nat)
    requires DistinctPaths(files) && i < |files|
    ensures files[i].path in Wanted(files) && Wanted(files)[files[i].path] == Numbers(files[i].added)
  {
    WantedNext(files);
    if i < |files| - 1 {
      WantedAt(files[..|files| - 1], i);
    }
  }

  lemma WantedLists(files: seq<NewFile>, added: map<string, seq<NewLine>>)
    requires Lists(files, added)
    ensures Wanted(files) == NumbersOf(added)
  {
    WantedPaths(files);
    forall path | path in added ensures Wanted(files)[path] == Numbers(added[path]) {
      assert path in PathsOf(files);
      var i :| 0 <= i < |files| && files[i].path == path;
      assert files[i] in files;
      WantedAt(files, i);
    }
  }

  /** What changed_lines_diff collects: added text under its own line number, never a header. */
  ghost predicate Collected(added: map<string, seq<NewLine>>) {
    forall path :: path in added ==>
      added[path] != [] && forall n :: n in added[path] ==> "+" <= n.text && !("+++ " <= n.text)
  }

  lemma {:induction false} AddedText(diff: seq<DiffLine>)
    ensures Collected(ChangeAll(diff).added)
  {
    if diff != [] {
      var init, last := diff[..|diff| - 1], diff[|diff| - 1];
      AddedText(init);
      var c, c' := ChangeAll(init), ChangeAll(diff);
      if c'.added != c.added {
        var path := c.path.value;
        var n := NewLine(c.line.value, last.text);
        assert forall m :: m in NewLines(c.added, path) + [n] ==> m in NewLines(c.added, path) || m == n;
      }
    }
  }

  ghost predicate FromOne(m: LineMap) {
    forall path, line :: path in m && line in m[path] ==> line >= 1
  }

  lemma {:induction false} ReadFromOne(diff: seq<DiffLine>)
    requires forall d :: d in diff && d.Hunk? ==> d.start >= 1
    ensures ReadAll(diff).line.Some? ==> ReadAll(diff).line.value >= 1
    ensures FromOne(Affected(diff))
  {
    if diff != [] {
      var init, last := diff[..|diff| - 1], diff[|diff| - 1];
      assert last in diff && forall d :: d in init ==> d in diff;
      ReadFromOne(init);
    }
  }

  lemma {:induction false} WriteFromOne(files: seq<NewFile>)
    ensures forall d :: d in Write(files) && d.Hunk? ==> d.start >= 1
  {
    if files != [] {
      WriteFromOne(files[..|files| - 1]);
      WriteLinesFromOne(files[|files| - 1].added);
    }
  }

  lemma {:induction false} WriteLinesFromOne(added: seq<NewLine>)
    ensures forall d :: d in WriteLines(added) && d.Hunk? ==> d.start >= 1
  {
    if added != [] {
      WriteLinesFromOne(added[..|added| - 1]);
    }
  }

  /**
   The diff the router works with selects exactly the added lines of its input,
   if and only if the input numbers them from 1.
   */
  lemma ChangedRoundTrip(diff: seq<DiffLine>, files: seq<NewFile>)
    requires Lists(files, ChangeAll(diff).added)
    ensures Affected(Write(files)) == Changed(diff) <==> FromOne(Changed(diff))
  {
    var added := ChangeAll(diff).added;
    AddedText(diff);
    WantedLists(files, added);
    if FromOne(Changed(diff)) {
      forall f | f in files ensures f.added != [] && forall n :: n in f.added ==> Readable(n) {
        assert f.path in added;
        forall n | n in f.added ensures Readable(n) {
          assert n.number in Changed(diff)[f.path];
        }
      }
      ReadWrite(files);
    } else {
      WriteFromOne(files);
      ReadFromOne(Write(files));
    }
  }

  /** A hunk that numbers its new lines from 0, which the hunk pattern allows: its added line is not read back. */
  lemma LineZeroLost(files: seq<NewFile>)
    requires Lists(files, ChangeAll([Text("+++ b/a"), Hunk(0), Text("+x")]).added)
    ensures Changed([Text("+++ b/a"), Hunk(0), Text("+x")]) == map["a" := {0}]
    ensures Affected(Write(files)) != map["a" := {0}]
  {
    var head, hunk, last := Text("+++ b/a"), Hunk(0), Text("+x");
    var diff := [head, hunk, last];
    assert [head] == [] + [head] && [head, hunk] == [head] + [hunk] && diff == [head, hunk] + [last];
    ChangeNext([], head);
    ChangeNext([head], hunk);
    ChangeNext([head, hunk], last);
    assert head.text[0] == '+' && head.text[..4] == "+++ " && head.text[4..] == "b/a" && StripNewSide("b/a") == "a";
    assert ChangeAll([]) == Changer(None, None, map[]);
    assert ChangeAll([head]) == Changer(Some("a"), None, map[]);
    assert ChangeAll([head, hunk]) == Changer(Some("a"), Some(0), map[]);
    assert "+" <= last.text && !("+++ " <= last.text) && !("diff --git " <= last.text);
    assert NewLines(map[], "a") + [NewLine(0, "+x")] == [NewLine(0, "+x")];
    assert ChangeAll(diff).added == map["a" := [NewLine(0, "+x")]];
    assert [NewLine(0, "+x")][0] in [NewLine(0, "+x")] && Numbers([NewLine(0, "+x")]) == {0};
    assert Changed(diff)["a"] == {0};
    assert Changed(diff) == map["a" := {0}];
    ChangedRoundTrip(diff, files);
  }
}
