/** Searching a review: which match a target selects, and how next and previous move through them. */
module ReviewSearch {
  import opened Options
  import opened Greedy

  /** UTF-16 code units of case-folded text. */
  type Folded = seq<nat>

  /** One source character: its code units, and the code units of its lower case. */
  datatype Glyph = Glyph(units: nat, folded: nat)

  /** A diff line: its folded text and its characters. */
  datatype Line = Line(folded: Folded, glyphs: seq<Glyph>)

  datatype Side = Additions | Deletions

  datatype Content =
    | Context(additionIndex: nat, lines: nat)
    | Change(deletionIndex: nat, deletions: nat, additionIndex: nat, additions: nat)

  datatype Hunk = Hunk(deletionStart: nat, additionStart: nat, contents: seq<Content>)

  datatype File = File(
    name: string, folded: Folded, foldedPrev: Option<Folded>,
    additionLines: seq<Line>, deletionLines: seq<Line>, hunks: seq<Hunk>)

  /** The diff's indices address its own lines, as the diff library guarantees. */
  predicate ContentIn(file: File, c: Content) {
    match c
    case Context(a, n) => a + n <= |file.additionLines|
    case Change(d, m, a, n) => d + m <= |file.deletionLines| && a + n <= |file.additionLines|
  }

  predicate HunkIn(file: File, hunk: Hunk) {
    forall c :: 0 <= c < |hunk.contents| ==> ContentIn(file, hunk.contents[c])
  }

  predicate WellFormed(file: File) { forall h :: 0 <= h < |file.hunks| ==> HunkIn(file, file.hunks[h]) }

  datatype Match =
    | PathMatch(item: string)
    | ContentMatch(item: string, side: Side, lineNumber: nat, start: nat, length: nat,
                   occurrenceIndex: int, occurrenceCount: nat)

  datatype Hit =
    | PathHit(item: string)
    | LineHit(item: string, side: Side, lineNumber: nat, line: Line)

  predicate Includes(text: Folded, needle: Folded) { Find(text, needle, 0).Some? }

  // ----- Every result, in order -----

  function LineHits(file: File, lines: seq<Line>, start: nat, n: nat, side: Side, number: nat, needle: Folded): seq<Hit>
    requires start + n <= |lines|
  {
    if n == 0 then [] else
      LineHits(file, lines, start, n - 1, side, number, needle)
      + if Includes(lines[start + n - 1].folded, needle)
        then [LineHit(file.name, side, number + n - 1, lines[start + n - 1])] else []
  }

  function ContentHits(file: File, c: Content, deletionLine: nat, additionLine: nat, needle: Folded): seq<Hit>
    requires ContentIn(file, c)
  {
    match c
    case Context(a, n) => LineHits(file, file.additionLines, a, n, Additions, additionLine, needle)
    case Change(d, m, a, n) =>
      LineHits(file, file.deletionLines, d, m, Deletions, deletionLine, needle)
      + LineHits(file, file.additionLines, a, n, Additions, additionLine, needle)
  }

  function DeletionLines(c: Content): nat { if c.Context? then c.lines else c.deletions }
  function AdditionLines(c: Content): nat { if c.Context? then c.lines else c.additions }

  function Advance(contents: seq<Content>, k: nat, deletionLine: nat, additionLine: nat): (nat, nat)
    requires k <= |contents|
  {
    if k == 0 then (deletionLine, additionLine) else
      var (d, a) := Advance(contents, k - 1, deletionLine, additionLine);
      (d + DeletionLines(contents[k - 1]), a + AdditionLines(contents[k - 1]))
  }

  /** The first `k` parts one after the other. */
  function Join(parts: seq<seq<Hit>>, k: nat): seq<Hit>
    requires k <= |parts|
  {
    if k == 0 then [] else Join(parts, k - 1) + parts[k - 1]
  }

  /** The results of content `c` of a hunk, whose lines are numbered past those before it. */
  function HunkPart(file: File, hunk: Hunk, c: nat, needle: Folded): seq<Hit>
    requires c < |hunk.contents| && HunkIn(file, hunk)
  {
    var (d, a) := Advance(hunk.contents, c, hunk.deletionStart, hunk.additionStart);
    ContentHits(file, hunk.contents[c], d, a, needle)
  }

  function HunkParts(file: File, hunk: Hunk, needle: Folded): (parts: seq<seq<Hit>>)
    requires HunkIn(file, hunk)
    ensures |parts| == |hunk.contents| && forall c :: 0 <= c < |parts| ==> parts[c] == HunkPart(file, hunk, c, needle)
  {
    seq(|hunk.contents|, c requires 0 <= c < |hunk.contents| => HunkPart(file, hunk, c, needle))
  }

  function PathHits(file: File, needle: Folded): seq<Hit> {
    if Includes(file.folded, needle) || (file.foldedPrev.Some? && Includes(file.foldedPrev.value, needle))
    then [PathHit(file.name)] else []
  }

  function FilePart(file: File, h: nat, needle: Folded): seq<Hit>
    requires WellFormed(file) && h < |file.hunks|
  {
    Join(HunkParts(file, file.hunks[h], needle), |file.hunks[h].contents|)
  }

  function FileParts(file: File, needle: Folded): (parts: seq<seq<Hit>>)
    requires WellFormed(file)
    ensures |parts| == |file.hunks| && forall h :: 0 <= h < |parts| ==> parts[h] == FilePart(file, h, needle)
  {
    seq(|file.hunks|, h requires 0 <= h < |file.hunks| => FilePart(file, h, needle))
  }

  /** A file's results: its path, then each hunk in order. */
  function FileHits(file: File, needle: Folded): seq<Hit>
    requires WellFormed(file)
  {
    PathHits(file, needle) + Join(FileParts(file, needle), |file.hunks|)
  }

  function ReviewParts(files: seq<File>, needle: Folded): (parts: seq<seq<Hit>>)
    requires forall i :: 0 <= i < |files| ==> WellFormed(files[i])
    ensures |parts| == |files| && forall i :: 0 <= i < |parts| ==> parts[i] == FileHits(files[i], needle)
  {
    seq(|files|, i requires 0 <= i < |files| => FileHits(files[i], needle))
  }

  /** The results of a search, file by file. */
  function Hits(files: seq<File>, needle: Folded): seq<Hit>
    requires forall i :: 0 <= i < |files| ==> WellFormed(files[i])
  {
    Join(ReviewParts(files, needle), |files|)
  }

  // ----- One occurrence in a line -----

  datatype Occurrence = Occurrence(start: nat, index: int, count: nat)

  /** The occurrence a target selects: clamped to the ones there are. */
  function Select(text: Folded, needle: Folded, target: int): Occurrence
    requires needle != []
  {
    var found := Matches(text, needle, 0);
    var wanted := Max(0, target);
    Occurrence(if found == [] then 0 else found[Min(wanted, |found| - 1)], Min(wanted, |found| - 1), |found|)
  }

  /** Match `count` is the next one found, and searching on from it finds the rest. */
  ghost predicate Ahead(text: Folded, needle: Folded, found: seq<nat>, count: nat, next: Option<nat>)
    requires needle != []
  {
    && count <= |found| && (next.Some? <==> count < |found|)
    && (next.Some? ==> next.value == found[count] && found[count + 1..] == Matches(text, needle, next.value + |needle|))
  }

  /** A search finds the head of what is left. */
  lemma HeadFound(text: Folded, needle: Folded, start: nat, found: seq<nat>, count: nat, rest: seq<nat>)
    requires needle != [] && count <= |found| && rest == found[count..] && rest == Matches(text, needle, start)
    ensures Ahead(text, needle, found, count, Find(text, needle, start))
  {
    if rest != [] {
      assert found[count] == rest[0];
      assert found[count + 1..] == rest[1..];
    }
  }

  method FindOccurrence(text: Folded, needle: Folded, target: int) returns (r: Occurrence)
    requires needle != []
    ensures r == Select(text, needle, target)
  {
    var count: nat, start: nat, selected: nat := 0, 0, 0;
    var occurrence := Max(0, target);
    ghost var found := Matches(text, needle, 0);
    HeadFound(text, needle, start, found, count, found);
    var next := Find(text, needle, start);
    while next.Some?
      invariant Ahead(text, needle, found, count, next)
      invariant count == 0 ==> selected == 0
      invariant 0 < count <= occurrence ==> selected == found[count - 1]
      invariant count > occurrence ==> selected == found[occurrence]
      decreases |found| - count
    {
      start := next.value;
      if count <= occurrence { selected := start; }
      count := count + 1;
      start := start + |needle|;
      HeadFound(text, needle, start, found, count, Matches(text, needle, start));
      next := Find(text, needle, start);
    }
    r := Occurrence(selected, Min(occurrence, count - 1), count);
  }

  // ----- Source ranges -----

  function Units(glyphs: seq<Glyph>, k: nat): nat
    requires k <= |glyphs|
  {
    if k == 0 then 0 else Units(glyphs, k - 1) + glyphs[k - 1].units
  }

  function FoldedUnits(glyphs: seq<Glyph>, k: nat): nat
    requires k <= |glyphs|
  {
    if k == 0 then 0 else FoldedUnits(glyphs, k - 1) + glyphs[k - 1].folded
  }

  /** Character `k` folds onto the range that contains folded offset `at`. */
  predicate Holds(glyphs: seq<Glyph>, k: nat, at: nat)
    requires k < |glyphs|
  {
    FoldedUnits(glyphs, k) <= at < FoldedUnits(glyphs, k + 1)
  }

  lemma {:induction false} FoldedMonotone(glyphs: seq<Glyph>, a: nat, b: nat)
    requires a <= b <= |glyphs|
    ensures FoldedUnits(glyphs, a) <= FoldedUnits(glyphs, b) && Units(glyphs, a) <= Units(glyphs, b)
    decreases b
  {
    if a < b { FoldedMonotone(glyphs, a, b - 1); }
  }

  lemma HoldsUnique(glyphs: seq<Glyph>, a: nat, b: nat, at: nat)
    requires a < |glyphs| && b < |glyphs| && Holds(glyphs, a, at) && Holds(glyphs, b, at)
    ensures a == b
  {
    if a < b { FoldedMonotone(glyphs, a + 1, b); }
    if b < a { FoldedMonotone(glyphs, b + 1, a); }
  }

  /** The character among the first `k` that holds a folded offset. */
  function CharAt(glyphs: seq<Glyph>, k: nat, at: nat): (c: nat)
    requires k <= |glyphs| && at < FoldedUnits(glyphs, k)
    ensures c < k && Holds(glyphs, c, at)
  {
    if at >= FoldedUnits(glyphs, k - 1) then k - 1 else CharAt(glyphs, k - 1, at)
  }

  /**
   The smallest run of whole source characters whose folding covers the folded match: from the
   character holding its first unit to the one holding its last.
   */
  function SourceSpan(glyphs: seq<Glyph>, start: nat, length: nat): (r: (nat, nat))
    requires length > 0
  {
    if start + length > FoldedUnits(glyphs, |glyphs|) then (start, length) else
      var first, last := CharAt(glyphs, |glyphs|, start), CharAt(glyphs, |glyphs|, start + length - 1);
      SpanOrdered(glyphs, first, last, start, start + length - 1);
      (Units(glyphs, first), Units(glyphs, last + 1) - Units(glyphs, first))
  }

  lemma SpanOrdered(glyphs: seq<Glyph>, a: nat, b: nat, start: nat, last: nat)
    requires a < |glyphs| && b < |glyphs| && start <= last && Holds(glyphs, a, start) && Holds(glyphs, b, last)
    ensures a <= b && Units(glyphs, a) <= Units(glyphs, b + 1)
  {
    if b < a { FoldedMonotone(glyphs, b + 1, a); }
    FoldedMonotone(glyphs, Min(a, b + 1), b + 1);
  }

  method SourceRange(glyphs: seq<Glyph>, start: nat, length: nat) returns (from: nat, size: nat)
    requires length > 0
    ensures (from, size) == SourceSpan(glyphs, start, length)
  {
    var sourceOffset, foldedOffset, sourceStart := 0, 0, 0;
    var foldedEnd := start + length;
    ghost var a := 0;
    for k := 0 to |glyphs|
      invariant sourceOffset == Units(glyphs, k) && foldedOffset == FoldedUnits(glyphs, k) && foldedOffset < foldedEnd
      invariant start < foldedOffset ==> 0 <= a < k && Holds(glyphs, a, start) && sourceStart == Units(glyphs, a)
    {
      var sourceEnd := sourceOffset + glyphs[k].units;
      var nextFoldedOffset := foldedOffset + glyphs[k].folded;
      if foldedOffset <= start && start < nextFoldedOffset {
        sourceStart := sourceOffset;
        a := k;
      }
      if foldedOffset < foldedEnd && foldedEnd <= nextFoldedOffset {
        FoldedMonotone(glyphs, k + 1, |glyphs|);
        assert Holds(glyphs, k, foldedEnd - 1) && Holds(glyphs, a, start);
        SpanOrdered(glyphs, a, k, start, foldedEnd - 1);
        HoldsUnique(glyphs, a, CharAt(glyphs, |glyphs|, start), start);
        HoldsUnique(glyphs, k, CharAt(glyphs, |glyphs|, foldedEnd - 1), foldedEnd - 1);
        return sourceStart, sourceEnd - sourceStart;
      }
      sourceOffset := sourceEnd;
      foldedOffset := nextFoldedOffset;
    }
    return start, length;
  }

  // ----- The search -----

  function Resolve(hit: Hit, needle: Folded, targetOccurrence: int): Match
    requires needle != []
  {
    match hit
    case PathHit(item) => PathMatch(item)
    case LineHit(item, side, number, line) =>
      var o := Select(line.folded, needle, targetOccurrence);
      var (start, length) := SourceSpan(line.glyphs, o.start, |needle|);
      ContentMatch(item, side, number, start, length, o.index, o.count)
  }

  /** A run of results stands at an offset of the whole list. */
  ghost predicate StandsAt(all: seq<Hit>, at: nat, part: seq<Hit>) { at + |part| <= |all| && all[at..at + |part|] == part }

  /** The running state of a search: how many results it has passed, and the one at the target if it has. */
  ghost predicate Searched(all: seq<Hit>, target: int, count: nat, found: Option<Hit>) {
    count <= |all| && found == if 0 <= target < count then Some(all[target]) else None
  }

  lemma SplitStands(all: seq<Hit>, at: nat, a: seq<Hit>, b: seq<Hit>)
    requires StandsAt(all, at, a + b)
    ensures StandsAt(all, at, a) && StandsAt(all, at + |a|, b)
  {
    var whole := all[at..at + |a + b|];
    assert whole[..|a|] == a && whole[|a|..] == b;
  }

  lemma {:induction false} JoinPrefix(parts: seq<seq<Hit>>, k: nat, n: nat) returns (rest: seq<Hit>)
    requires k <= n <= |parts|
    ensures Join(parts, n) == Join(parts, k) + rest
    decreases n
  {
    if k == n {
      rest := [];
    } else {
      var before := JoinPrefix(parts, k, n - 1);
      rest := before + parts[n - 1];
    }
  }

  /** Each part stands behind those before it. */
  lemma PartStands(all: seq<Hit>, at: nat, parts: seq<seq<Hit>>, k: nat, here: nat) returns (part: seq<Hit>)
    requires k < |parts| && StandsAt(all, at, Join(parts, |parts|)) && here == at + |Join(parts, k)|
    ensures part == parts[k] && StandsAt(all, here, part) && here + |part| == at + |Join(parts, k + 1)|
  {
    part := parts[k];
    var rest := JoinPrefix(parts, k + 1, |parts|);
    SplitStands(all, at, Join(parts, k + 1), rest);
    SplitStands(all, at, Join(parts, k), part);
  }

  /** A search has passed the first `k` parts of a run that stands at `base`. */
  ghost predicate Reached(all: seq<Hit>, base: nat, parts: seq<seq<Hit>>, k: nat, target: int, count: nat, found: Option<Hit>) {
    && k <= |parts| && StandsAt(all, base, Join(parts, |parts|))
    && count == base + |Join(parts, k)| && Searched(all, target, count, found)
  }

  /** Where the result at the target is highlighted: the original works this out when it meets it. */
  method ResolveHit(hit: Hit, needle: Folded, occurrence: int) returns (m: Match)
    requires needle != []
    ensures m == Resolve(hit, needle, occurrence)
  {
    match hit {
      case PathHit(item) => m := PathMatch(item);
      case LineHit(item, side, number, line) =>
        var o := FindOccurrence(line.folded, needle, occurrence);
        var start, size := SourceRange(line.glyphs, o.start, |needle|);
        m := ContentMatch(item, side, number, start, size, o.index, o.count);
    }
  }

  lemma {:induction false} LinesPrefix(file: File, lines: seq<Line>, start: nat, k: nat, n: nat, side: Side, number: nat, needle: Folded)
    returns (rest: seq<Hit>)
    requires k <= n && start + n <= |lines|
    ensures LineHits(file, lines, start, n, side, number, needle) == LineHits(file, lines, start, k, side, number, needle) + rest
    decreases n
  {
    if k == n {
      rest := [];
    } else {
      var before := LinesPrefix(file, lines, start, k, n - 1, side, number, needle);
      rest := before + if Includes(lines[start + n - 1].folded, needle) then [LineHit(file.name, side, number + n - 1, lines[start + n - 1])] else [];
    }
  }

  /** A line with the needle stands behind the results before it; one without adds nothing. */
  lemma LineStands(all: seq<Hit>, at: nat, file: File, lines: seq<Line>, start: nat, k: nat, n: nat, side: Side, number: nat, needle: Folded)
    requires k < n && start + n <= |lines| && StandsAt(all, at, LineHits(file, lines, start, n, side, number, needle))
    ensures var before, after := |LineHits(file, lines, start, k, side, number, needle)|, |LineHits(file, lines, start, k + 1, side, number, needle)|;
            if Includes(lines[start + k].folded, needle)
            then after == before + 1 && at + before < |all| && all[at + before] == LineHit(file.name, side, number + k, lines[start + k])
            else after == before
  {
    var hits := LineHits(file, lines, start, k + 1, side, number, needle);
    var rest := LinesPrefix(file, lines, start, k + 1, n, side, number, needle);
    SplitStands(all, at, hits, rest);
    if Includes(lines[start + k].folded, needle) {
      var hit := LineHit(file.name, side, number + k, lines[start + k]);
      SplitStands(all, at, LineHits(file, lines, start, k, side, number, needle), [hit]);
    }
  }

  /** Pass a run of lines: each with the needle is the next result. */
  method RecordLines(file: File, lines: seq<Line>, startIndex: nat, length: nat, side: Side, lineNumber: nat, needle: Folded, target: int,
                     ghost all: seq<Hit>, count0: nat, found0: Option<Hit>) returns (count: nat, found: Option<Hit>)
    requires startIndex + length <= |lines| && StandsAt(all, count0, LineHits(file, lines, startIndex, length, side, lineNumber, needle))
    requires Searched(all, target, count0, found0)
    ensures count == count0 + |LineHits(file, lines, startIndex, length, side, lineNumber, needle)| && Searched(all, target, count, found)
  {
    count, found := count0, found0;
    for index := 0 to length
      invariant count == count0 + |LineHits(file, lines, startIndex, index, side, lineNumber, needle)|
      invariant Searched(all, target, count, found)
    {
      LineStands(all, count0, file, lines, startIndex, index, length, side, lineNumber, needle);
      var line := lines[startIndex + index];
      if Includes(line.folded, needle) {
        if count == target { found := Some(LineHit(file.name, side, lineNumber + index, line)); }
        count := count + 1;
      }
    }
  }

  method SearchContent(file: File, c: Content, deletionLine: nat, additionLine: nat, needle: Folded, target: int,
                       ghost part: seq<Hit>, ghost all: seq<Hit>, count0: nat, found0: Option<Hit>) returns (count: nat, found: Option<Hit>)
    requires ContentIn(file, c) && part == ContentHits(file, c, deletionLine, additionLine, needle) && StandsAt(all, count0, part)
    requires Searched(all, target, count0, found0)
    ensures count == count0 + |part| && Searched(all, target, count, found)
  {
    if c.Context? {
      count, found := RecordLines(file, file.additionLines, c.additionIndex, c.lines, Additions, additionLine, needle, target, all, count0, found0);
    } else {
      SplitStands(all, count0, LineHits(file, file.deletionLines, c.deletionIndex, c.deletions, Deletions, deletionLine, needle),
                  LineHits(file, file.additionLines, c.additionIndex, c.additions, Additions, additionLine, needle));
      count, found := RecordLines(file, file.deletionLines, c.deletionIndex, c.deletions, Deletions, deletionLine, needle, target, all, count0, found0);
      count, found := RecordLines(file, file.additionLines, c.additionIndex, c.additions, Additions, additionLine, needle, target, all, count, found);
    }
  }

  /** The lines at which content `k` of a hunk starts. */
  predicate At(hunk: Hunk, k: nat, deletionLine: nat, additionLine: nat) {
    k <= |hunk.contents| && (deletionLine, additionLine) == Advance(hunk.contents, k, hunk.deletionStart, hunk.additionStart)
  }

  lemma HunkPartIs(file: File, hunk: Hunk, parts: seq<seq<Hit>>, k: nat, needle: Folded, deletionLine: nat, additionLine: nat)
    requires HunkIn(file, hunk) && parts == HunkParts(file, hunk, needle) && k < |hunk.contents|
    requires At(hunk, k, deletionLine, additionLine)
    ensures parts[k] == ContentHits(file, hunk.contents[k], deletionLine, additionLine, needle)
  {
    assert parts[k] == HunkPart(file, hunk, k, needle);
  }

  method SearchNextContent(file: File, hunk: Hunk, k: nat, deletionLine: nat, additionLine: nat, needle: Folded, target: int,
                           ghost parts: seq<seq<Hit>>, ghost all: seq<Hit>, ghost base: nat, count0: nat, found0: Option<Hit>)
    returns (count: nat, found: Option<Hit>)
    requires HunkIn(file, hunk) && parts == HunkParts(file, hunk, needle) && k < |hunk.contents|
    requires At(hunk, k, deletionLine, additionLine)
    requires Reached(all, base, parts, k, target, count0, found0)
    ensures Reached(all, base, parts, k + 1, target, count, found)
  {
    ghost var part := PartStands(all, base, parts, k, count0);
    HunkPartIs(file, hunk, parts, k, needle, deletionLine, additionLine);
    count, found := SearchContent(file, hunk.contents[k], deletionLine, additionLine, needle, target, part, all, count0, found0);
  }

  lemma AdvanceOne(hunk: Hunk, k: nat, deletionLine: nat, additionLine: nat)
    requires k < |hunk.contents| && At(hunk, k, deletionLine, additionLine)
    ensures At(hunk, k + 1, deletionLine + DeletionLines(hunk.contents[k]), additionLine + AdditionLines(hunk.contents[k]))
  {
  }

  method SearchHunk(file: File, hunk: Hunk, needle: Folded, target: int, ghost parts: seq<seq<Hit>>,
                    ghost all: seq<Hit>, count0: nat, found0: Option<Hit>) returns (count: nat, found: Option<Hit>)
    requires HunkIn(file, hunk) && parts == HunkParts(file, hunk, needle) && Reached(all, count0, parts, 0, target, count0, found0)
    ensures Reached(all, count0, parts, |parts|, target, count, found)
  {
    count, found := count0, found0;
    var deletionLine: nat, additionLine: nat := hunk.deletionStart, hunk.additionStart;
    for k := 0 to |hunk.contents|
      invariant At(hunk, k, deletionLine, additionLine)
      invariant Reached(all, count0, parts, k, target, count, found)
    {
      count, found := SearchNextContent(file, hunk, k, deletionLine, additionLine, needle, target, parts, all, count0, count, found);
      AdvanceOne(hunk, k, deletionLine, additionLine);
      deletionLine, additionLine := deletionLine + DeletionLines(hunk.contents[k]), additionLine + AdditionLines(hunk.contents[k]);
    }
  }

  method SearchPath(file: File, needle: Folded, target: int, ghost all: seq<Hit>, count0: nat, found0: Option<Hit>)
    returns (count: nat, found: Option<Hit>)
    requires StandsAt(all, count0, PathHits(file, needle)) && Searched(all, target, count0, found0)
    ensures count == count0 + |PathHits(file, needle)| && Searched(all, target, count, found)
  {
    count, found := count0, found0;
    if Includes(file.folded, needle) || (file.foldedPrev.Some? && Includes(file.foldedPrev.value, needle)) {
      assert all[count0] == all[count0..count0 + 1][0];
      if count == target { found := Some(PathHit(file.name)); }
      count := count + 1;
    }
  }

  lemma FilePartIs(file: File, parts: seq<seq<Hit>>, k: nat, needle: Folded) returns (inner: seq<seq<Hit>>)
    requires WellFormed(file) && parts == FileParts(file, needle) && k < |file.hunks|
    ensures inner == HunkParts(file, file.hunks[k], needle) && parts[k] == Join(inner, |inner|)
  {
    inner := HunkParts(file, file.hunks[k], needle);
    assert parts[k] == FilePart(file, k, needle);
  }

  method SearchNextHunk(file: File, k: nat, needle: Folded, target: int, ghost parts: seq<seq<Hit>>,
                        ghost all: seq<Hit>, ghost base: nat, count0: nat, found0: Option<Hit>) returns (count: nat, found: Option<Hit>)
    requires WellFormed(file) && parts == FileParts(file, needle) && k < |file.hunks|
    requires Reached(all, base, parts, k, target, count0, found0)
    ensures Reached(all, base, parts, k + 1, target, count, found)
  {
    ghost var part := PartStands(all, base, parts, k, count0);
    ghost var inner := FilePartIs(file, parts, k, needle);
    count, found := SearchHunk(file, file.hunks[k], needle, target, inner, all, count0, found0);
  }

  method SearchHunks(file: File, needle: Folded, target: int, ghost parts: seq<seq<Hit>>,
                     ghost all: seq<Hit>, count0: nat, found0: Option<Hit>) returns (count: nat, found: Option<Hit>)
    requires WellFormed(file) && parts == FileParts(file, needle) && Reached(all, count0, parts, 0, target, count0, found0)
    ensures Reached(all, count0, parts, |parts|, target, count, found)
  {
    count, found := count0, found0;
    for k := 0 to |file.hunks|
      invariant Reached(all, count0, parts, k, target, count, found)
    {
      count, found := SearchNextHunk(file, k, needle, target, parts, all, count0, count, found);
    }
  }

  method SearchFile(file: File, needle: Folded, target: int, ghost hits: seq<Hit>, ghost all: seq<Hit>, count0: nat, found0: Option<Hit>)
    returns (count: nat, found: Option<Hit>)
    requires WellFormed(file) && hits == FileHits(file, needle) && StandsAt(all, count0, hits) && Searched(all, target, count0, found0)
    ensures count == count0 + |hits| && Searched(all, target, count, found)
  {
    ghost var parts := FileParts(file, needle);
    SplitStands(all, count0, PathHits(file, needle), Join(parts, |parts|));
    count, found := SearchPath(file, needle, target, all, count0, found0);
    count, found := SearchHunks(file, needle, target, parts, all, count, found);
  }

  method SearchNextFile(files: seq<File>, k: nat, needle: Folded, target: int, ghost parts: seq<seq<Hit>>,
                        ghost all: seq<Hit>, count0: nat, found0: Option<Hit>) returns (count: nat, found: Option<Hit>)
    requires (forall i :: 0 <= i < |files| ==> WellFormed(files[i])) && parts == ReviewParts(files, needle) && k < |files|
    requires Reached(all, 0, parts, k, target, count0, found0)
    ensures Reached(all, 0, parts, k + 1, target, count, found)
  {
    ghost var part := PartStands(all, 0, parts, k, count0);
    count, found := SearchFile(files[k], needle, target, part, all, count0, found0);
  }

  /**
   `searchReview`: the count does not depend on the target, and a match exists exactly when the
   target is below the count; it is then the target's result at the clamped occurrence.
   */
  method SearchReview(files: seq<File>, blank: bool, needle: Folded, target: int, occurrence: int)
    returns (count: nat, found: Option<Match>)
    requires forall i :: 0 <= i < |files| ==> WellFormed(files[i])
    requires !blank ==> needle != []
    ensures count == if blank then 0 else |Hits(files, needle)|
    ensures found.Some? <==> 0 <= target < count
    ensures found.Some? ==> found.value == Resolve(Hits(files, needle)[target], needle, occurrence)
  {
    if blank { return 0, None; }
    var hit;
    count, hit := SearchFiles(files, needle, target);
    found := None;
    if hit.Some? {
      var m := ResolveHit(hit.value, needle, occurrence);
      found := Some(m);
    }
  }

  method SearchFiles(files: seq<File>, needle: Folded, target: int) returns (count: nat, found: Option<Hit>)
    requires forall i :: 0 <= i < |files| ==> WellFormed(files[i])
    ensures count == |Hits(files, needle)| && Searched(Hits(files, needle), target, count, found)
  {
    ghost var parts := ReviewParts(files, needle);
    ghost var all := WholeStands(parts, target);
    count, found := SearchEach(files, needle, target, parts, all);
  }

  lemma WholeStands(parts: seq<seq<Hit>>, target: int) returns (all: seq<Hit>)
    ensures all == Join(parts, |parts|) && Reached(all, 0, parts, 0, target, 0, None)
  {
    all := Join(parts, |parts|);
    assert all[0..|all|] == all;
  }

  method SearchEach(files: seq<File>, needle: Folded, target: int, ghost parts: seq<seq<Hit>>, ghost all: seq<Hit>)
    returns (count: nat, found: Option<Hit>)
    requires (forall i :: 0 <= i < |files| ==> WellFormed(files[i])) && parts == ReviewParts(files, needle)
    requires Reached(all, 0, parts, 0, target, 0, None)
    ensures Reached(all, 0, parts, |parts|, target, count, found)
  {
    count, found := 0, None;
    for k := 0 to |files|
      invariant Reached(all, 0, parts, k, target, count, found)
    {
      count, found := SearchNextFile(files, k, needle, target, parts, all, count, found);
    }
  }

  // ----- The results are exactly the matching paths and lines -----

  /** Line `j` from `start` has the needle, and the hit is that line under its number. */
  predicate IsLine(file: File, lines: seq<Line>, start: nat, j: nat, side: Side, number: nat, needle: Folded, hit: Hit)
    requires start + j < |lines|
  {
    Includes(lines[start + j].folded, needle) && hit == LineHit(file.name, side, number + j, lines[start + j])
  }

  /** One of `n` lines from `start`, with the needle, numbered from `number`. */
  ghost predicate InLines(file: File, lines: seq<Line>, start: nat, n: nat, side: Side, number: nat, needle: Folded, hit: Hit)
    requires start + n <= |lines|
  {
    exists j :: 0 <= j < n && IsLine(file, lines, start, j, side, number, needle, hit)
  }

  ghost predicate InContent(file: File, c: Content, deletionLine: nat, additionLine: nat, needle: Folded, hit: Hit)
    requires ContentIn(file, c)
  {
    match c
    case Context(a, n) => InLines(file, file.additionLines, a, n, Additions, additionLine, needle, hit)
    case Change(d, m, a, n) =>
      || InLines(file, file.deletionLines, d, m, Deletions, deletionLine, needle, hit)
      || InLines(file, file.additionLines, a, n, Additions, additionLine, needle, hit)
  }

  /** In content `c` of a hunk, whose lines are numbered past those before it. */
  ghost predicate InHunkAt(file: File, hunk: Hunk, c: nat, needle: Folded, hit: Hit)
    requires c < |hunk.contents| && HunkIn(file, hunk)
  {
    var (d, a) := Advance(hunk.contents, c, hunk.deletionStart, hunk.additionStart);
    InContent(file, hunk.contents[c], d, a, needle, hit)
  }

  ghost predicate InHunk(file: File, h: nat, needle: Folded, hit: Hit)
    requires WellFormed(file) && h < |file.hunks|
  {
    exists c :: 0 <= c < |file.hunks[h].contents| && InHunkAt(file, file.hunks[h], c, needle, hit)
  }

  predicate InPath(file: File, needle: Folded, hit: Hit) {
    hit == PathHit(file.name)
    && (Includes(file.folded, needle) || (file.foldedPrev.Some? && Includes(file.foldedPrev.value, needle)))
  }

  /** A match of the file: its path, now or before, or a line of one of its hunks. */
  ghost predicate IsMatch(file: File, needle: Folded, hit: Hit)
    requires WellFormed(file)
  {
    InPath(file, needle, hit) || exists h :: 0 <= h < |file.hunks| && InHunk(file, h, needle, hit)
  }

  lemma {:induction false} LineHitsIff(file: File, lines: seq<Line>, start: nat, n: nat, side: Side, number: nat, needle: Folded, hit: Hit)
    requires start + n <= |lines|
    ensures hit in LineHits(file, lines, start, n, side, number, needle) <==> InLines(file, lines, start, n, side, number, needle, hit)
    decreases n
  {
    if n > 0 {
      LineHitsIff(file, lines, start, n - 1, side, number, needle, hit);
      assert InLines(file, lines, start, n, side, number, needle, hit) <==>
             InLines(file, lines, start, n - 1, side, number, needle, hit) || IsLine(file, lines, start, n - 1, side, number, needle, hit);
    }
  }

  lemma ContentHitsIff(file: File, c: Content, d: nat, a: nat, needle: Folded, hit: Hit)
    requires ContentIn(file, c)
    ensures hit in ContentHits(file, c, d, a, needle) <==> InContent(file, c, d, a, needle, hit)
  {
    match c {
      case Context(start, n) => LineHitsIff(file, file.additionLines, start, n, Additions, a, needle, hit);
      case Change(from, m, start, n) =>
        LineHitsIff(file, file.deletionLines, from, m, Deletions, d, needle, hit);
        LineHitsIff(file, file.additionLines, start, n, Additions, a, needle, hit);
    }
  }

  lemma {:induction false} JoinIff(parts: seq<seq<Hit>>, k: nat, hit: Hit)
    requires k <= |parts|
    ensures hit in Join(parts, k) <==> exists i :: 0 <= i < k && hit in parts[i]
    decreases k
  {
    if k > 0 { JoinIff(parts, k - 1, hit); }
  }

  lemma HunkPartIff(file: File, hunk: Hunk, c: nat, needle: Folded, hit: Hit)
    requires c < |hunk.contents| && HunkIn(file, hunk)
    ensures hit in HunkPart(file, hunk, c, needle) <==> InHunkAt(file, hunk, c, needle, hit)
  {
    var (d, a) := Advance(hunk.contents, c, hunk.deletionStart, hunk.additionStart);
    ContentHitsIff(file, hunk.contents[c], d, a, needle, hit);
  }

  lemma FilePartIff(file: File, h: nat, needle: Folded, hit: Hit)
    requires WellFormed(file) && h < |file.hunks|
    ensures hit in FilePart(file, h, needle) <==> InHunk(file, h, needle, hit)
  {
    var hunk := file.hunks[h];
    var parts := HunkParts(file, hunk, needle);
    JoinIff(parts, |parts|, hit);
    forall c | 0 <= c < |parts| ensures hit in parts[c] <==> InHunkAt(file, hunk, c, needle, hit) { HunkPartIff(file, hunk, c, needle, hit); }
  }

  lemma FileHitsIff(file: File, needle: Folded, hit: Hit)
    requires WellFormed(file)
    ensures hit in FileHits(file, needle) <==> IsMatch(file, needle, hit)
  {
    var parts := FileParts(file, needle);
    JoinIff(parts, |parts|, hit);
    forall h | 0 <= h < |parts| ensures hit in parts[h] <==> InHunk(file, h, needle, hit) { FilePartIff(file, h, needle, hit); }
  }

  /** The results are exactly the matching paths and lines of the files: none missing, none made up. */
  lemma ResultsAreMatches(files: seq<File>, needle: Folded, hit: Hit)
    requires forall i :: 0 <= i < |files| ==> WellFormed(files[i])
    ensures hit in Hits(files, needle) <==> exists i :: 0 <= i < |files| && IsMatch(files[i], needle, hit)
  {
    var parts := ReviewParts(files, needle);
    JoinIff(parts, |parts|, hit);
    forall i | 0 <= i < |parts| ensures hit in parts[i] <==> IsMatch(files[i], needle, hit) { FileHitsIff(files[i], needle, hit); }
  }

  lemma ContentIsLine(file: File, c: Content, d: nat, a: nat, needle: Folded, hit: Hit)
    requires ContentIn(file, c) && InContent(file, c, d, a, needle, hit)
    ensures hit.LineHit? && Includes(hit.line.folded, needle) && (hit.line in file.additionLines || hit.line in file.deletionLines)
  {
  }

  /** A matching line has an occurrence and is one of its file's lines. */
  lemma MatchIsLine(file: File, needle: Folded, hit: Hit)
    requires WellFormed(file) && IsMatch(file, needle, hit) && hit.LineHit?
    ensures Includes(hit.line.folded, needle) && (hit.line in file.additionLines || hit.line in file.deletionLines)
  {
    var h :| 0 <= h < |file.hunks| && InHunk(file, h, needle, hit);
    var hunk := file.hunks[h];
    var c :| 0 <= c < |hunk.contents| && InHunkAt(file, hunk, c, needle, hit);
    var (d, a) := Advance(hunk.contents, c, hunk.deletionStart, hunk.additionStart);
    ContentIsLine(file, hunk.contents[c], d, a, needle, hit);
  }
}
