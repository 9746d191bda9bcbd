/**
 Counting the added and deleted lines of a unified diff (codex-rs/analytics/src/accepted_lines.rs).
 `Lines` is Rust's `str::lines`; the counting loop is proved against a fold over those lines, and
 the fold against diffs that are rendered from their parts.
 */
module DiffCounts {
  import opened Sequences

  function LineEnd(s: string): (n: nat)
    ensures n <= |s| && '\n' !in s[..n] && (n < |s| ==> s[n] == '\n')
  {
    if s == "" || s[0] == '\n' then 0 else 1 + LineEnd(s[1..])
  }

  // The carriage return of a "\r\n" line end goes too.
  function Chomp(s: string): string {
    if s != "" && s[|s| - 1] == '\r' then s[..|s| - 1] else s
  }

  function Lines(s: string): seq<string> {
    if s == "" then []
    else
      var n := LineEnd(s);
      if n == |s| then [s] else [Chomp(s[..n])] + Lines(s[n + 1..])
  }

  datatype Tally = Tally(inHunk: bool, added: nat, deleted: nat)

  predicate IsFileHeader(line: string) {
    "+++ " <= line || "--- " <= line
  }

  function Step(t: Tally, line: string): Tally {
    if "diff --git " <= line then t.(inHunk := false)
    else if "@@ " <= line then t.(inHunk := true)
    else if !t.inHunk && IsFileHeader(line) then t
    else if "+" <= line then t.(added := t.added + 1)
    else if "-" <= line then t.(deleted := t.deleted + 1)
    else t
  }

  function Fold(t: Tally, lines: seq<string>): Tally {
    if lines == [] then t else Step(Fold(t, lines[..|lines| - 1]), lines[|lines| - 1])
  }

  const START := Tally(false, 0, 0)

  function Counted(diff: string): Tally {
    Fold(START, Lines(diff))
  }

  method AcceptedLineCounts(diff: string) returns (added: nat, deleted: nat)
    ensures added == Counted(diff).added && deleted == Counted(diff).deleted
  {
    var inHunk := false;
    added, deleted := 0, 0;
    var lines := Lines(diff);
    for i := 0 to |lines|
      invariant Tally(inHunk, added, deleted) == Fold(START, lines[..i])
    {
      var line := lines[i];
      assert lines[..i + 1][..i] == lines[..i];
      if "diff --git " <= line {
        inHunk := false;
      } else if "@@ " <= line {
        inHunk := true;
      } else if !inHunk && ("+++ " <= line || "--- " <= line) {
      } else if "+" <= line {
        added := added + 1;
      } else if "-" <= line {
        deleted := deleted + 1;
      }
    }
    assert lines[..|lines|] == lines;
  }

  // ------------------------------------------------------------- lines

  lemma {:induction false} LineEndOf(l: string, rest: string)
    requires '\n' !in l && (rest == "" || rest[0] == '\n')
    ensures LineEnd(l + rest) == |l|
  {
    if l == "" {
      assert l + rest == rest;
    } else {
      assert (l + rest)[1..] == l[1..] + rest;
      LineEndOf(l[1..], rest);
    }
  }

  lemma LinesOpen(l: string)
    requires '\n' !in l && l != ""
    ensures Lines(l) == [l]
  {
    assert l + "" == l;
    LineEndOf(l, "");
  }

  lemma LinesClosed(l: string, rest: string)
    requires '\n' !in l
    ensures Lines(l + ("\n" + rest)) == [Chomp(l)] + Lines(rest)
  {
    var s := l + ("\n" + rest);
    LineEndOf(l, "\n" + rest);
    assert s[..|l|] == l && s[|l| + 1..] == rest;
  }

  predicate Closed(s: string) {
    s == "" || s[|s| - 1] == '\n'
  }

  // The first line of a text that has a line break, and what follows it.
  lemma FirstLine(s: string) returns (l: string, rest: string)
    requires '\n' in s
    ensures '\n' !in l && s == l + ("\n" + rest) && |rest| < |s|
    ensures Closed(s) == Closed(rest)
  {
    hide LineEnd;
    var n := LineEnd(s);
    l, rest := s[..n], s[n + 1..];
    assert "\n" + rest == s[n..];
    assert s == s[..n] + s[n..];
  }

  lemma NoLines()
    ensures Lines("") == []
  {
  }

  lemma {:induction false} LinesAppend(a: string, b: string)
    requires Closed(a)
    ensures Lines(a + b) == Lines(a) + Lines(b)
    decreases |a|
  {
    hide Lines, Chomp;
    if a == "" {
      assert a + b == b;
      NoLines();
    } else {
      var l, rest := FirstLine(a);
      LinesAppend(rest, b);
      LinesClosed(l, rest);
      LinesClosed(l, rest + b);
      Assoc("\n", rest, b);
      Assoc(l, "\n" + rest, b);
      Assoc([Chomp(l)], Lines(rest), Lines(b));
    }
  }

  // ------------------------------------------------------------- the fold

  lemma {:induction false} FoldAppend(t: Tally, a: seq<string>, b: seq<string>)
    ensures Fold(t, a + b) == Fold(Fold(t, a), b)
  {
    if b == [] {
      assert a + b == a;
    } else {
      assert (a + b)[..|a + b| - 1] == a + b[..|b| - 1];
      FoldAppend(t, a, b[..|b| - 1]);
    }
  }

  lemma FoldCons(t: Tally, line: string, rest: seq<string>)
    ensures Fold(t, [line] + rest) == Fold(Step(t, line), rest)
  {
    FoldAppend(t, [line], rest);
    assert [line][..0] == [];
  }

  function Plus(t: Tally, u: Tally): Tally {
    Tally(u.inHunk, t.added + u.added, t.deleted + u.deleted)
  }

  // Counts collected before do not influence what is counted next.
  lemma {:induction false} FoldShift(t: Tally, lines: seq<string>)
    ensures Fold(t, lines) == Plus(t, Fold(Tally(t.inHunk, 0, 0), lines))
  {
    hide Step;
    if lines != [] {
      FoldShift(t, lines[..|lines| - 1]);
      StepShift(t, Fold(Tally(t.inHunk, 0, 0), lines[..|lines| - 1]), lines[|lines| - 1]);
    }
  }

  lemma StepShift(t: Tally, u: Tally, line: string)
    ensures Step(Plus(t, u), line) == Plus(t, Step(u, line))
  {
  }

  lemma ChompIrrelevant(t: Tally, line: string)
    ensures Step(t, Chomp(line)) == Step(t, line)
  {
    ChompPrefix("diff --git ", line);
    ChompPrefix("@@ ", line);
    ChompPrefix("+++ ", line);
    ChompPrefix("--- ", line);
    ChompPrefix("+", line);
    ChompPrefix("-", line);
  }

  lemma ChompPrefix(p: string, line: string)
    requires '\r' !in p
    ensures p <= Chomp(line) <==> p <= line
  {
    if p <= line && |p| == |line| && p != "" {
      assert p[|p| - 1] in p;
    }
  }

  // A missing final line break changes nothing.
  lemma FinalNewlineIrrelevant(diff: string)
    requires !Closed(diff)
    ensures Counted(diff + "\n") == Counted(diff)
  {
    UnclosedTally(START, diff);
  }

  lemma {:induction false} UnclosedTally(t: Tally, diff: string)
    requires !Closed(diff)
    ensures Fold(t, Lines(diff + "\n")) == Fold(t, Lines(diff))
    decreases |diff|
  {
    hide Lines, Chomp, Step;
    if '\n' in diff {
      var l, rest := FirstLine(diff);
      Assoc("\n", rest, "\n");
      Assoc(l, "\n" + rest, "\n");
      LinesClosed(l, rest);
      LinesClosed(l, rest + "\n");
      FoldCons(t, Chomp(l), Lines(rest));
      FoldCons(t, Chomp(l), Lines(rest + "\n"));
      UnclosedTally(Step(t, Chomp(l)), rest);
    } else {
      NoLines();
      LinesOpen(diff);
      LinesClosed(diff, "");
      assert diff + ("\n" + "") == diff + "\n";
      FoldCons(t, diff, []);
      FoldCons(t, Chomp(diff), []);
      ChompIrrelevant(t, diff);
    }
  }

  // ------------------------------------------------------------- rendered diffs

  datatype BodyLine = Context(text: string) | Added(text: string) | Deleted(text: string) | NoNewline(text: string)
  datatype Hunk = Hunk(ranges: string, body: seq<BodyLine>)
  datatype FileDiff = FileDiff(paths: string, metadata: seq<string>, hunks: seq<Hunk>)

  predicate OneLine(s: string) {
    '\n' !in s
  }

  // Index, mode, rename, `---` and `+++` lines.
  predicate IsMetadata(line: string) {
    OneLine(line) && !("diff --git " <= line) && !("@@ " <= line)
    && ("+" <= line ==> "+++ " <= line) && ("-" <= line ==> "--- " <= line)
  }

  predicate ValidHunk(h: Hunk) {
    OneLine(h.ranges) && forall i :: 0 <= i < |h.body| ==> OneLine(h.body[i].text)
  }

  predicate ValidFile(f: FileDiff) {
    OneLine(f.paths) && (forall i :: 0 <= i < |f.metadata| ==> IsMetadata(f.metadata[i]))
    && (forall i :: 0 <= i < |f.hunks| ==> ValidHunk(f.hunks[i]))
  }

  function TagOf(b: BodyLine): char {
    match b
    case Context(_) => ' '
    case Added(_) => '+'
    case Deleted(_) => '-'
    case NoNewline(_) => '\\'
  }

  function BodyLines(body: seq<BodyLine>): seq<string> {
    if body == [] then [] else [[TagOf(body[0])] + body[0].text] + BodyLines(body[1..])
  }

  function HunkLines(hunks: seq<Hunk>): seq<string> {
    if hunks == [] then []
    else (["@@ " + hunks[0].ranges] + BodyLines(hunks[0].body)) + HunkLines(hunks[1..])
  }

  function FileLines(f: FileDiff): seq<string> {
    (["diff --git " + f.paths] + f.metadata) + HunkLines(f.hunks)
  }

  function DiffLines(files: seq<FileDiff>): seq<string> {
    if files == [] then [] else FileLines(files[0]) + DiffLines(files[1..])
  }

  function Text(lines: seq<string>): string {
    if lines == [] then "" else lines[0] + ("\n" + Text(lines[1..]))
  }

  // How many body lines of a diff carry a tag, counted on the parts and not on the text.
  function Tagged(c: char, body: seq<BodyLine>): nat {
    if body == [] then 0 else (if TagOf(body[0]) == c then 1 else 0) + Tagged(c, body[1..])
  }

  function TaggedInHunks(c: char, hunks: seq<Hunk>): nat {
    if hunks == [] then 0 else Tagged(c, hunks[0].body) + TaggedInHunks(c, hunks[1..])
  }

  function TaggedInDiff(c: char, files: seq<FileDiff>): nat {
    if files == [] then 0 else TaggedInHunks(c, files[0].hunks) + TaggedInDiff(c, files[1..])
  }

  lemma {:induction false} BodyCounts(t: Tally, body: seq<BodyLine>)
    requires t.inHunk
    ensures Fold(t, BodyLines(body)) == Tally(true, t.added + Tagged('+', body), t.deleted + Tagged('-', body))
    decreases |body|
  {
    if body != [] {
      var line := [TagOf(body[0])] + body[0].text;
      FoldCons(t, line, BodyLines(body[1..]));
      assert line[0] == TagOf(body[0]);
      BodyCounts(Step(t, line), body[1..]);
    }
  }

  lemma HunkStart(t: Tally, ranges: string)
    ensures Step(t, "@@ " + ranges) == t.(inHunk := true)
  {
    assert ("@@ " + ranges)[0] == '@';
  }

  lemma {:induction false} HunkCounts(t: Tally, hunks: seq<Hunk>)
    ensures var r := Fold(t, HunkLines(hunks));
      r.added == t.added + TaggedInHunks('+', hunks) && r.deleted == t.deleted + TaggedInHunks('-', hunks)
    decreases |hunks|
  {
    hide Step;
    if hunks != [] {
      var body := BodyLines(hunks[0].body);
      FoldAppend(t, ["@@ " + hunks[0].ranges] + body, HunkLines(hunks[1..]));
      FoldCons(t, "@@ " + hunks[0].ranges, body);
      HunkStart(t, hunks[0].ranges);
      BodyCounts(t.(inHunk := true), hunks[0].body);
      HunkCounts(Fold(t.(inHunk := true), body), hunks[1..]);
    }
  }

  lemma {:induction false} MetadataSkipped(t: Tally, metadata: seq<string>)
    requires !t.inHunk && forall i :: 0 <= i < |metadata| ==> IsMetadata(metadata[i])
    ensures Fold(t, metadata) == t
  {
    if metadata != [] {
      MetadataSkipped(t, metadata[..|metadata| - 1]);
    }
  }

  lemma FileCounts(t: Tally, f: FileDiff)
    requires ValidFile(f)
    ensures var r := Fold(t, FileLines(f));
      r.added == t.added + TaggedInHunks('+', f.hunks) && r.deleted == t.deleted + TaggedInHunks('-', f.hunks)
  {
    hide Fold;
    var head := "diff --git " + f.paths;
    var t' := t.(inHunk := false);
    assert Step(t, head) == t';
    FoldAppend(t, [head] + f.metadata, HunkLines(f.hunks));
    FoldCons(t, head, f.metadata);
    MetadataSkipped(t', f.metadata);
    HunkCounts(t', f.hunks);
  }

  lemma {:induction false} DiffLineCounts(t: Tally, files: seq<FileDiff>)
    requires forall i :: 0 <= i < |files| ==> ValidFile(files[i])
    ensures var r := Fold(t, DiffLines(files));
      r.added == t.added + TaggedInDiff('+', files) && r.deleted == t.deleted + TaggedInDiff('-', files)
    decreases |files|
  {
    hide ValidFile, Step;
    if files != [] {
      FoldAppend(t, FileLines(files[0]), DiffLines(files[1..]));
      FileCounts(t, files[0]);
      DiffLineCounts(Fold(t, FileLines(files[0])), files[1..]);
    }
  }

  predicate AllOneLine(lines: seq<string>) {
    forall i :: 0 <= i < |lines| ==> OneLine(lines[i])
  }

  lemma {:induction false} TextTally(t: Tally, lines: seq<string>)
    requires AllOneLine(lines)
    ensures Fold(t, Lines(Text(lines))) == Fold(t, lines)
    decreases |lines|
  {
    hide Step, Chomp, Lines;
    if lines == [] {
      NoLines();
    } else {
      var rest := Text(lines[1..]);
      LinesClosed(lines[0], rest);
      FoldCons(t, Chomp(lines[0]), Lines(rest));
      ChompIrrelevant(t, lines[0]);
      TextTally(Step(t, lines[0]), lines[1..]);
      FoldCons(t, lines[0], lines[1..]);
      assert [lines[0]] + lines[1..] == lines;
    }
  }

  lemma {:induction false} BodyOneLine(body: seq<BodyLine>)
    requires forall i :: 0 <= i < |body| ==> OneLine(body[i].text)
    ensures AllOneLine(BodyLines(body))
  {
    if body != [] {
      BodyOneLine(body[1..]);
    }
  }

  lemma {:induction false} HunksOneLine(hunks: seq<Hunk>)
    requires forall i :: 0 <= i < |hunks| ==> ValidHunk(hunks[i])
    ensures AllOneLine(HunkLines(hunks))
  {
    if hunks != [] {
      assert ValidHunk(hunks[0]);
      BodyOneLine(hunks[0].body);
      HunksOneLine(hunks[1..]);
    }
  }

  lemma {:induction false} DiffOneLine(files: seq<FileDiff>)
    requires forall i :: 0 <= i < |files| ==> ValidFile(files[i])
    ensures AllOneLine(DiffLines(files))
  {
    if files != [] {
      assert ValidFile(files[0]);
      HunksOneLine(files[0].hunks);
      DiffOneLine(files[1..]);
    }
  }

  // The counts of a rendered diff are the numbers of its added and deleted body lines,
  // whatever their content starts with.
  lemma CountsAreExact(files: seq<FileDiff>)
    requires forall i :: 0 <= i < |files| ==> ValidFile(files[i])
    ensures var r := Counted(Text(DiffLines(files)));
      r.added == TaggedInDiff('+', files) && r.deleted == TaggedInDiff('-', files)
  {
    DiffOneLine(files);
    TextTally(START, DiffLines(files));
    DiffLineCounts(START, files);
  }

  // ------------------------------------------------------------- two diffs in a row

  predicate Resets(line: string) {
    "diff --git " <= line || "@@ " <= line
  }

  // A `+++ ` or `--- ` line stands before the first line that opens a file or a hunk.
  predicate HeaderFirst(lines: seq<string>) {
    lines != [] && !Resets(lines[0]) && (IsFileHeader(lines[0]) || HeaderFirst(lines[1..]))
  }

  ghost predicate SameCounts(t: Tally, u: Tally) {
    t.added == u.added && t.deleted == u.deleted
  }

  // Starting inside a hunk instead of outside shows exactly in such a line, and never lowers a count.
  lemma {:induction false} StartMatters(t: Tally, lines: seq<string>)
    ensures var r, s := Fold(t.(inHunk := true), lines), Fold(t.(inHunk := false), lines);
      r.added >= s.added && r.deleted >= s.deleted && (SameCounts(r, s) <==> !HeaderFirst(lines))
    decreases |lines|
  {
    hide Fold;
    var p, q := t.(inHunk := true), t.(inHunk := false);
    if lines == [] {
      FoldEmpty(p);
      FoldEmpty(q);
    } else {
      var line, rest := lines[0], lines[1..];
      assert [line] + rest == lines;
      FoldCons(p, line, rest);
      FoldCons(q, line, rest);
      if !Resets(line) {
        var u, v := Step(p, line), Step(q, line);
        StartMatters(u, rest);
        if IsFileHeader(line) {
          FoldShift(u, rest);
          FoldShift(p, rest);
          StartMatters(t, rest);
        }
      }
    }
  }

  lemma FoldEmpty(t: Tally)
    ensures Fold(t, []) == t
  {
  }

  ghost predicate Additive(d1: string, d2: string) {
    Counted(d1 + d2).added == Counted(d1).added + Counted(d2).added
    && Counted(d1 + d2).deleted == Counted(d1).deleted + Counted(d2).deleted
  }

  lemma ContinuedCounts(t: Tally, lines: seq<string>)
    ensures var r, s := Fold(t, lines), Fold(START, lines);
      (r.added == t.added + s.added && r.deleted == t.deleted + s.deleted) <==> !(t.inHunk && HeaderFirst(lines))
  {
    hide Fold;
    FoldShift(t, lines);
    StartMatters(START, lines);
  }

  // After a diff that ends in a line break, any second diff adds up unless its first lines change their reading.
  lemma AdditiveAfterNewlineIff(d1: string, d2: string)
    requires Closed(d1)
    ensures Additive(d1, d2) <==> !Counted(d1).inHunk || !HeaderFirst(Lines(d2))
  {
    hide Lines, Fold;
    LinesAppend(d1, d2);
    FoldAppend(START, Lines(d1), Lines(d2));
    ContinuedCounts(Counted(d1), Lines(d2));
  }

  // A line keeps its reading when a `diff --git ` line is glued to it.
  lemma GluedLine(t: Tally, l: string, m: string)
    requires l != "" && "diff --git " <= m
    ensures Step(t, l + m) == Step(t, l)
  {
    GluedPrefix("diff --git ", l, m);
    GluedPrefix("@@ ", l, m);
    GluedPrefix("+++ ", l, m);
    GluedPrefix("--- ", l, m);
    GluedPrefix("+", l, m);
    GluedPrefix("-", l, m);
  }

  lemma GluedPrefix(p: string, l: string, m: string)
    requires p != "" && 'd' !in p[1..] && l != "" && m != "" && m[0] == 'd'
    ensures p <= l + m <==> p <= l
  {
    assert |l| < |p| ==> p[|l|] in p[1..];
  }

  // The first line of a second diff, glued or not, and the rest of its lines.
  lemma SecondDiff(d: string) returns (l: string, rest: string)
    requires "diff --git " <= d
    ensures "diff --git " <= l && '\n' !in l && (d == l || d == l + ("\n" + rest))
    ensures d == l ==> rest == ""
    ensures |Lines(d)| > 0 && Lines(d)[1..] == Lines(rest)
    ensures Fold(START, Lines(d)) == Fold(START, Lines(rest))
  {
    hide Chomp, Fold;
    if '\n' in d {
      l, rest := FirstLine(d);
      StartOf("diff --git ", l, "\n" + rest);
      LinesClosed(l, rest);
      FoldCons(START, Chomp(l), Lines(rest));
      ChompIrrelevant(START, l);
    } else {
      l, rest := d, "";
      LinesOpen(d);
      NoLines();
      FoldCons(START, d, []);
      assert [d] + [] == [d];
    }
  }

  lemma StartOf(p: string, l: string, rest: string)
    requires p <= l + rest && (rest == "" || rest[0] !in p)
    ensures p <= l
  {
    if p != "" {
      var k := if |l| < |p| then |l| else 0;
      assert p[k] in p && (l + rest)[k] == p[k];
    }
  }

  lemma {:induction false} GluedTally(t: Tally, d1: string, d2: string)
    requires !Closed(d1) && "diff --git " <= d2
    ensures |Lines(d2)| > 0
    ensures Fold(t, Lines(d1 + d2)) == Fold(Fold(t, Lines(d1)), Lines(d2)[1..])
    decreases |d1|
  {
    hide Lines, Chomp, Step, Fold;
    var m, tail := SecondDiff(d2);
    if '\n' in d1 {
      var l, rest := FirstLine(d1);
      Assoc("\n", rest, d2);
      Assoc(l, "\n" + rest, d2);
      LinesClosed(l, rest);
      LinesClosed(l, rest + d2);
      FoldCons(t, Chomp(l), Lines(rest));
      FoldCons(t, Chomp(l), Lines(rest + d2));
      GluedTally(Step(t, Chomp(l)), rest, d2);
    } else {
      LinesOpen(d1);
      FoldCons(t, d1, []);
      assert [d1] + [] == [d1];
      FoldEmpty(Step(t, d1));
      GluedLine(t, d1, m);
      if d2 == m {
        LinesOpen(d1 + d2);
        NoLines();
        FoldCons(t, d1 + d2, []);
        assert [d1 + d2] + [] == [d1 + d2];
      } else {
        Assoc(d1, m, "\n" + tail);
        LinesClosed(d1 + m, tail);
        FoldCons(t, Chomp(d1 + m), Lines(tail));
        ChompIrrelevant(t, d1 + m);
      }
    }
  }

  // When the second diff opens a file: exactly when the counts add up.
  lemma AdditiveIff(d1: string, d2: string)
    requires "diff --git " <= d2
    ensures |Lines(d2)| > 0
    ensures Additive(d1, d2) <==> Closed(d1) || !Counted(d1).inHunk || !HeaderFirst(Lines(d2)[1..])
  {
    hide Lines, Fold, Step;
    var m, tail := SecondDiff(d2);
    if Closed(d1) {
      AdditiveAfterNewlineIff(d1, d2);
      FirstResets(d2);
    } else {
      GluedTally(START, d1, d2);
      ContinuedCounts(Counted(d1), Lines(tail));
    }
  }

  lemma FirstResets(d: string)
    requires "diff --git " <= d
    ensures !HeaderFirst(Lines(d))
  {
    hide Lines, HeaderFirst;
    if '\n' in d {
      var l, rest := FirstLine(d);
      StartOf("diff --git ", l, "\n" + rest);
      LinesClosed(l, rest);
      ChompPrefix("diff --git ", l);
      ResetsFirst(Chomp(l), Lines(rest));
    } else {
      LinesOpen(d);
      ResetsFirst(d, []);
      assert [d] + [] == [d];
    }
  }

  lemma ResetsFirst(l: string, rest: seq<string>)
    requires Resets(l)
    ensures !HeaderFirst([l] + rest)
  {
  }

  // Without a line break between them the header of the second diff is counted as an added line.
  lemma GluedDiffMiscounts()
    ensures !Additive("@@ \n+a", "diff --git \n+++ b\n")
  {
    hide Lines, Fold, Chomp, Counted, HeaderFirst;
    HunkOpen();
    HeaderSecond();
    AdditiveIff("@@ \n+a", "diff --git \n+++ b\n");
  }

  lemma HunkOpen()
    ensures Counted("@@ \n+a").inHunk
  {
    hide Lines;
    LinesClosed("@@ ", "+a");
    LinesOpen("+a");
    assert "@@ " + ("\n" + "+a") == "@@ \n+a";
    FoldCons(START, "@@ ", ["+a"]);
    FoldCons(Step(START, "@@ "), "+a", []);
    assert ["+a"] + [] == ["+a"];
  }

  lemma HeaderSecond()
    ensures HeaderFirst(Lines("diff --git \n+++ b\n")[1..])
  {
    hide Lines;
    NoLines();
    LinesClosed("diff --git ", "+++ b\n");
    LinesClosed("+++ b", "");
    assert "diff --git " + ("\n" + "+++ b\n") == "diff --git \n+++ b\n";
    assert "+++ b" + ("\n" + "") == "+++ b\n";
    assert Lines("diff --git \n+++ b\n")[1..] == [Chomp("+++ b")];
    var line := "+++ b";
    assert line[0] == '+' && Chomp(line) == line && "+++ " <= line;
  }
}
