/** `FamilyTreeService`: renders an indented family list as a box-drawing tree. The depth
    of a line is its number of leading spaces; a line of depth 0 starts a new block under
    a rule, a deeper line gets one four-character segment per level, the last one a
    branch that tells whether the line is the last child of its parent. */
module FamilyTree {
  import opened Text

  /** The prefix of a depth-0 line: a rule between blank lines. */
  const Banner: string := "\n───────────────────────\n"
  const LastBranch: string := "└── "
  const MidBranch: string := "├── "
  const Pipe: string := "│   "
  const Gap: string := "    "

  predicate IsIndent(c: char) {
    c == ' '
  }

  /** `getDepth`: the length of the run of spaces `/^( *)/` matches. */
  function Depth(line: string): (d: nat)
    ensures d <= |line|
  {
    |LeadingRun(line, IsIndent)|
  }

  /** The depth counts the spaces before the first other character. */
  lemma DepthIsLeadingSpaces(line: string)
    ensures forall i :: 0 <= i < Depth(line) ==> line[i] == ' '
    ensures Depth(line) < |line| ==> line[Depth(line)] != ' '
  {
    var r := LeadingRun(line, IsIndent);
    assert forall i :: 0 <= i < |r| ==> line[i] == r[i];
  }

  // ---------------------------------------------------------------- last child

  /** The scan of `checkIsLastChild` from line `i` on: the first line not deeper than
      `depth` decides, a shallower one (or the end) meaning "last". */
  function LastFrom(lines: seq<string>, i: nat, depth: nat): bool
    decreases |lines| - i
  {
    if i >= |lines| then true
    else if Depth(lines[i]) < depth then true
    else if Depth(lines[i]) == depth then false
    else LastFrom(lines, i + 1, depth)
  }

  /** A line is the last child exactly when every later line of its depth has a
      shallower line before it. */
  lemma {:induction false} LastFromIff(lines: seq<string>, i: nat, depth: nat)
    ensures LastFrom(lines, i, depth)
        <==> forall j :: i <= j < |lines| && Depth(lines[j]) == depth ==>
               exists k :: i <= k < j && Depth(lines[k]) < depth
    decreases |lines| - i
  {
    if i < |lines| && Depth(lines[i]) > depth {
      LastFromIff(lines, i + 1, depth);
      if LastFrom(lines, i, depth) {
        forall j | i <= j < |lines| && Depth(lines[j]) == depth
          ensures exists k :: i <= k < j && Depth(lines[k]) < depth
        {
          var k :| i + 1 <= k < j && Depth(lines[k]) < depth;
        }
      } else {
        var j :| i + 1 <= j < |lines| && Depth(lines[j]) == depth
          && !(exists k :: i + 1 <= k < j && Depth(lines[k]) < depth);
        assert !(exists k :: i <= k < j && Depth(lines[k]) < depth);
      }
    }
  }

  /** `checkIsLastChild(index, currentDepth)` */
  method CheckIsLastChild(lines: seq<string>, index: nat, currentDepth: nat) returns (r: bool)
    ensures r == LastFrom(lines, index + 1, currentDepth)
  {
    var i := index + 1;
    while i < |lines|
      invariant i >= index + 1
      invariant LastFrom(lines, i, currentDepth) == LastFrom(lines, index + 1, currentDepth)
      decreases |lines| - i
    {
      var nextDepth := Depth(lines[i]);
      if nextDepth < currentDepth {
        return true;
      }
      if nextDepth == currentDepth {
        return false;
      }
      i := i + 1;
    }
    return true;
  }

  // ---------------------------------------------------------------- prefixes

  /** The `isLastChild` array after `k` lines: each line stores its status under
      `depth - 1` (a depth-0 line under -1, a key the prefixes never read). Keys never
      written are holes. */
  function Marks(lines: seq<string>, k: nat): map<int, bool>
    requires k <= |lines|
  {
    if k == 0 then map[]
    else
      var d := Depth(lines[k - 1]);
      Marks(lines, k - 1)[d - 1 := LastFrom(lines, k, d)]
  }

  /** Segment `i` of the prefix of a line of depth `depth`: the branch at the last level,
      elsewhere a pipe when that level's status is `false` and a gap otherwise (a hole
      is `!= false`). */
  function Segment(i: nat, depth: nat, isLast: bool, marks: map<int, bool>): string {
    if i == depth - 1 then (if isLast then LastBranch else MidBranch)
    else if i in marks && !marks[i] then Pipe
    else Gap
  }

  /** The first `n` segments. */
  function Segments(n: nat, depth: nat, isLast: bool, marks: map<int, bool>): (r: string)
    ensures |r| == 4 * n
  {
    if n == 0 then "" else Segments(n - 1, depth, isLast, marks) + Segment(n - 1, depth, isLast, marks)
  }

  /** Segment `i` sits at characters `4 * i` to `4 * i + 4`. */
  lemma {:induction false} SegmentsAt(n: nat, depth: nat, isLast: bool, marks: map<int, bool>, i: nat)
    requires i < n
    ensures Segments(n, depth, isLast, marks)[4 * i..4 * i + 4] == Segment(i, depth, isLast, marks)
  {
    var front := Segments(n - 1, depth, isLast, marks);
    var last := Segment(n - 1, depth, isLast, marks);
    SegmentLength(n - 1, depth, isLast, marks);
    assert Segments(n, depth, isLast, marks) == front + last;
    ChunkAt(front, last, n, i);
    if i < n - 1 {
      SegmentsAt(n - 1, depth, isLast, marks, i);
    }
  }

  lemma SegmentLength(i: nat, depth: nat, isLast: bool, marks: map<int, bool>)
    ensures |Segment(i, depth, isLast, marks)| == 4
  {
  }

  /** Chunk `i` of `front + last`, where `front` holds `n - 1` chunks of four and `last` one. */
  lemma ChunkAt(front: string, last: string, n: nat, i: nat)
    requires |front| == 4 * (n - 1) && |last| == 4 && i < n
    ensures i < n - 1 ==> (front + last)[4 * i..4 * i + 4] == front[4 * i..4 * i + 4]
    ensures i == n - 1 ==> (front + last)[4 * i..4 * i + 4] == last
  {
  }

  /** The prefix of a line. */
  function Prefix(depth: nat, isLast: bool, marks: map<int, bool>): string {
    if depth == 0 then Banner else Segments(depth, depth, isLast, marks)
  }

  /** A line of depth `d >= 1` gets `d` four-character segments: a branch last, `└── `
      exactly for a last child, and before it a pipe exactly at the levels whose
      recorded status is "not last". */
  lemma PrefixShape(depth: nat, isLast: bool, marks: map<int, bool>)
    requires depth >= 1
    ensures var p := Prefix(depth, isLast, marks);
      |p| == 4 * depth
      && (p[4 * depth - 4..] == LastBranch <==> isLast)
      && (p[4 * depth - 4..] == MidBranch <==> !isLast)
      && forall i :: 0 <= i < depth - 1 ==>
           (p[4 * i..4 * i + 4] == Pipe <==> i in marks && !marks[i])
  {
    var p := Prefix(depth, isLast, marks);
    SegmentsAt(depth, depth, isLast, marks, depth - 1);
    assert p[4 * depth - 4..] == p[4 * (depth - 1)..4 * (depth - 1) + 4];
    assert LastBranch != MidBranch by {
      assert LastBranch[0] != MidBranch[0];
    }
    assert Pipe != Gap by {
      assert Pipe[0] != Gap[0];
    }
    forall i | 0 <= i < depth - 1
      ensures p[4 * i..4 * i + 4] == Pipe <==> i in marks && !marks[i]
    {
      SegmentsAt(depth, depth, isLast, marks, i);
    }
  }

  /** The prefix loop of `parseAndRender`. */
  method BuildPrefix(depth: nat, isLast: bool, isLastChild: map<int, bool>) returns (prefix: string)
    ensures prefix == Prefix(depth, isLast, isLastChild)
  {
    prefix := "";
    var i := 0;
    while i < depth
      invariant 0 <= i <= depth
      invariant prefix == Segments(i, depth, isLast, isLastChild)
    {
      if i == depth - 1 {
        prefix := prefix + (if isLast then LastBranch else MidBranch);
      } else {
        var ancestorIsLast := !(i in isLastChild && !isLastChild[i]);
        prefix := prefix + (if ancestorIsLast then Gap else Pipe);
      }
      i := i + 1;
    }
    if depth == 0 {
      prefix := Banner;
    }
  }

  // ---------------------------------------------------------------- rendering

  /** `line.replaceAll('-', '').trimStart()` */
  function LineText(line: string): (t: string)
    ensures '-' !in t
    ensures forall x :: x in t ==> x in line
  {
    var s := RemoveAll(line, '-');
    TrimStartSuffix(s);
    RemoveAllKeepsOthers(line, '-');
    TrimStart(s)
  }

  /** The prefix of line `k`, drawn once its own status is recorded. */
  function LinePrefix(lines: seq<string>, k: nat): string
    requires k < |lines|
  {
    var d := Depth(lines[k]);
    Prefix(d, LastFrom(lines, k + 1, d), Marks(lines, k + 1))
  }

  /** The rendered form of line `j`: its prefix, its text and a newline. */
  function RenderedLine(lines: seq<string>, j: nat): string
    requires j < |lines|
  {
    LinePrefix(lines, j) + LineText(lines[j]) + "\n"
  }

  /** The rendered lines, one per line, in order. */
  function RenderedLines(lines: seq<string>): (r: seq<string>)
    ensures |r| == |lines|
    ensures forall j :: 0 <= j < |r| ==> r[j] == RenderedLine(lines, j)
  {
    seq(|lines|, j requires 0 <= j < |lines| => RenderedLine(lines, j))
  }

  /** `text.split('\n').filter(line => line.trim() !== '')` */
  function Lines(text: string): seq<string> {
    NonBlank(Split(text, '\n'))
  }

  /** The result of `parseAndRender(text)`. */
  function Render(text: string): (r: string)
    ensures IsBlank(text) ==> r == ""
  {
    if IsBlank(text) then "" else Concat(RenderedLines(Lines(text)))
  }

  /** `parseAndRender`: the blank check, then the pass over the non-blank lines. */
  method ParseAndRender(text: string) returns (result: string)
    ensures result == Render(text)
  {
    if IsBlank(text) {
      return "";
    }
    var lines := Lines(text);
    result := RenderLines(lines);
  }

  /** The `forEach` of `parseAndRender`: one pass over the lines, appending each line's
      prefix and text to `result` and recording its status in `isLastChild`. */
  method RenderLines(lines: seq<string>) returns (result: string)
    ensures result == Concat(RenderedLines(lines))
  {
    result := "";
    var isLastChild: map<int, bool> := map[];
    var k := 0;
    while k < |lines|
      invariant 0 <= k <= |lines|
      invariant result == Concat(RenderedLines(lines)[..k])
      invariant isLastChild == Marks(lines, k)
    {
      var piece;
      isLastChild, piece := VisitLine(lines, k, isLastChild);
      ConcatStep(RenderedLines(lines), k);
      result := result + piece;
      k := k + 1;
    }
    assert RenderedLines(lines)[..k] == RenderedLines(lines);
  }

  /** The body of the `forEach`: line `k` records its status in `isLastChild` and yields
      its prefix, its text and a newline. */
  method VisitLine(lines: seq<string>, k: nat, isLastChild: map<int, bool>)
    returns (marks: map<int, bool>, piece: string)
    requires k < |lines| && isLastChild == Marks(lines, k)
    ensures marks == Marks(lines, k + 1)
    ensures piece == RenderedLine(lines, k)
  {
    var line := lines[k];
    var depth := Depth(line);
    var t := LineText(line);
    var isLast := CheckIsLastChild(lines, k, depth);
    marks := isLastChild[depth as int - 1 := isLast];
    MarksStep(lines, k);
    var prefix := BuildPrefix(depth, isLast, marks);
    piece := prefix + t + "\n";
  }

  /** Line `k` records its status under `depth - 1`. */
  lemma MarksStep(lines: seq<string>, k: nat)
    requires k < |lines|
    ensures Marks(lines, k + 1)
      == Marks(lines, k)[Depth(lines[k]) as int - 1 := LastFrom(lines, k + 1, Depth(lines[k]))]
  {
  }

  /** `validate(text)` */
  function Validate(text: string): (ok: bool)
    ensures ok <==> exists i :: 0 <= i < |text| && !IsSpace(text[i])
  {
    BlankIffAllSpace(text);
    |Trim(text)| > 0
  }

  // ---------------------------------------------------------------- properties

  lemma {:induction false} SegmentsNoDash(n: nat, depth: nat, isLast: bool, marks: map<int, bool>)
    ensures '-' !in Segments(n, depth, isLast, marks)
  {
    if n > 0 {
      SegmentsNoDash(n - 1, depth, isLast, marks);
      assert '-' !in Segment(n - 1, depth, isLast, marks);
    }
  }

  lemma LineNoDash(lines: seq<string>, j: nat)
    requires j < |lines|
    ensures '-' !in RenderedLine(lines, j)
  {
    var d := Depth(lines[j]);
    if d > 0 {
      SegmentsNoDash(d, d, LastFrom(lines, j + 1, d), Marks(lines, j + 1));
    }
  }

  /** No `-` survives in the rendered tree: the text has them removed and the drawing
      characters are not `-`. */
  lemma NoDashes(text: string)
    ensures '-' !in Render(text)
  {
    if !IsBlank(text) {
      var lines := Lines(text);
      forall j | 0 <= j < |lines|
        ensures '-' !in RenderedLines(lines)[j]
      {
        LineNoDash(lines, j);
      }
      ConcatFree(RenderedLines(lines), '-');
    }
  }

  /** A text renders to something exactly when it validates. */
  lemma ValidateIffRenders(text: string)
    ensures Validate(text) <==> Render(text) != ""
  {
    BlankIffAllSpace(text);
    if !IsBlank(text) {
      NonBlankLinesOfText(text);
      var parts := RenderedLines(Lines(text));
      assert |parts[|parts| - 1]| > 0;
    }
  }

  /** The number of depth-0 lines among the first `k`. */
  function Roots(lines: seq<string>, k: nat): nat
    requires k <= |lines|
  {
    if k == 0 then 0 else Roots(lines, k - 1) + (if Depth(lines[k - 1]) == 0 then 1 else 0)
  }

  lemma {:induction false} SegmentsNoNewline(n: nat, depth: nat, isLast: bool, marks: map<int, bool>)
    ensures Count(Segments(n, depth, isLast, marks), '\n') == 0
  {
    if n > 0 {
      SegmentsNoNewline(n - 1, depth, isLast, marks);
      var seg := Segment(n - 1, depth, isLast, marks);
      CountAbsent(seg, '\n');
      CountAppend(Segments(n - 1, depth, isLast, marks), seg, '\n');
    }
  }

  lemma BannerNewlines()
    ensures Count(Banner, '\n') == 2
  {
    var middle := Banner[1..|Banner| - 1];
    assert Banner == "\n" + middle + "\n";
    CountAbsent(middle, '\n');
    CountAppend("\n" + middle, "\n", '\n');
    CountAppend("\n", middle, '\n');
  }

  /** A rendered line holds one line break, three under a rule. */
  lemma LineNewlines(lines: seq<string>, j: nat)
    requires j < |lines| && '\n' !in lines[j]
    ensures Count(RenderedLine(lines, j), '\n') == if Depth(lines[j]) == 0 then 3 else 1
  {
    var line := lines[j];
    var d := Depth(line);
    var p := LinePrefix(lines, j);
    var t := LineText(line);
    assert Count(p, '\n') == (if d == 0 then 2 else 0) by {
      if d == 0 {
        BannerNewlines();
      } else {
        SegmentsNoNewline(d, d, LastFrom(lines, j + 1, d), Marks(lines, j + 1));
      }
    }
    assert Count(t, '\n') == 0 by {
      RemoveAllKeepsOthers(line, '-');
      CountAbsent(t, '\n');
    }
    CountAppend(p, t, '\n');
    CountAppend(p + t, "\n", '\n');
  }

  lemma {:induction false} PrefixNewlines(lines: seq<string>, k: nat)
    requires k <= |lines|
    requires forall l :: l in lines ==> '\n' !in l
    ensures CountAll(RenderedLines(lines)[..k], '\n') == k + 2 * Roots(lines, k)
  {
    if k > 0 {
      var parts := RenderedLines(lines)[..k];
      assert parts[..k - 1] == RenderedLines(lines)[..k - 1];
      PrefixNewlines(lines, k - 1);
      LineNewlines(lines, k - 1);
    }
  }

  /** The lines of a text hold no line break. */
  lemma LinesHaveNoBreak(text: string)
    ensures forall l :: l in Lines(text) ==> '\n' !in l
  {
    forall l | l in Lines(text)
      ensures '\n' !in l
    {
      var k :| 0 <= k < |Split(text, '\n')| && Split(text, '\n')[k] == l;
    }
  }

  /** Each non-blank line renders as one line ending in a newline, and each depth-0 line
      adds the two line breaks around its rule. */
  lemma RenderNewlines(text: string)
    requires !IsBlank(text)
    ensures Count(Render(text), '\n') == |Lines(text)| + 2 * Roots(Lines(text), |Lines(text)|)
  {
    var lines := Lines(text);
    LinesHaveNoBreak(text);
    PrefixNewlines(lines, |lines|);
    assert RenderedLines(lines)[..|lines|] == RenderedLines(lines);
    ConcatCount(RenderedLines(lines), '\n');
  }
}
