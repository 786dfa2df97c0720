/** Next and previous walk one cycle through every occurrence of every result. */
module ReviewNavigation {
  import opened Greedy
  import opened ReviewSearch

  const MAX_SAFE_INTEGER: nat := 0x1F_FFFF_FFFF_FFFF

  /** `moveSearchTarget`: the next target and the occurrence to ask for. */
  function Move(m: Match, index: nat, count: nat, direction: int): (nat, int)
    requires index < count && (direction == 1 || direction == -1)
  {
    if m.ContentMatch? && 0 <= m.occurrenceIndex + direction < m.occurrenceCount
    then (index, m.occurrenceIndex + direction)
    else ((index + direction + count) % count, if direction < 0 then MAX_SAFE_INTEGER else 0)
  }

  /** What is on screen: a result and the occurrence highlighted in it. */
  datatype Position = Position(index: nat, occurrence: nat)

  /** The results of a search, each at least one occurrence and of representable length. */
  ghost predicate Results(hits: seq<Hit>, needle: Folded) {
    needle != [] && hits != [] && forall i :: 0 <= i < |hits| ==> ResultOk(hits[i], needle)
  }

  predicate ResultOk(hit: Hit, needle: Folded) {
    hit.LineHit? ==> Includes(hit.line.folded, needle) && |hit.line.folded| <= MAX_SAFE_INTEGER
  }

  function Occurrences(hit: Hit, needle: Folded): nat
    requires needle != []
  {
    if hit.PathHit? then 1 else |Matches(hit.line.folded, needle, 0)|
  }

  ghost predicate OnScreen(hits: seq<Hit>, needle: Folded, p: Position)
    requires needle != []
  {
    p.index < |hits| && p.occurrence < Occurrences(hits[p.index], needle)
  }

  /** The position shown after asking the search for a target and an occurrence. */
  ghost function Show(hits: seq<Hit>, needle: Folded, index: nat, occurrence: int): Position
    requires Results(hits, needle) && index < |hits|
  {
    var m := Resolve(hits[index], needle, occurrence);
    Position(index, if m.ContentMatch? then m.occurrenceIndex else 0)
  }

  /** One press of next or previous: move from the match on screen, then search again. */
  ghost function Press(hits: seq<Hit>, needle: Folded, p: Position, direction: int): Position
    requires Results(hits, needle) && OnScreen(hits, needle, p) && (direction == 1 || direction == -1)
  {
    var (index, occurrence) := Move(Resolve(hits[p.index], needle, p.occurrence), p.index, |hits|, direction);
    Show(hits, needle, index, occurrence)
  }

  /** The same press on occurrence counts alone. */
  function Turn(counts: seq<nat>, p: Position, direction: int): Position
    requires p.index < |counts| && p.occurrence < counts[p.index] && (direction == 1 || direction == -1)
    requires forall i :: 0 <= i < |counts| ==> counts[i] > 0
  {
    if 0 <= p.occurrence + direction < counts[p.index] then Position(p.index, p.occurrence + direction)
    else
      var index := (p.index + direction + |counts|) % |counts|;
      Position(index, if direction < 0 then counts[index] - 1 else 0)
  }

  ghost function Counts(hits: seq<Hit>, needle: Folded): (r: seq<nat>)
    requires Results(hits, needle)
    ensures |r| == |hits| && forall i :: 0 <= i < |r| ==> r[i] == Occurrences(hits[i], needle) && r[i] > 0
  {
    assert forall i :: 0 <= i < |hits| ==> ResultOk(hits[i], needle);
    seq(|hits|, i requires 0 <= i < |hits| => Occurrences(hits[i], needle))
  }

  lemma PressIsTurn(hits: seq<Hit>, needle: Folded, p: Position, direction: int)
    requires Results(hits, needle) && OnScreen(hits, needle, p) && (direction == 1 || direction == -1)
    ensures Press(hits, needle, p, direction) == Turn(Counts(hits, needle), p, direction)
  {
    var counts := Counts(hits, needle);
    var (index, occurrence) := Move(Resolve(hits[p.index], needle, p.occurrence), p.index, |hits|, direction);
    if hits[index].LineHit? { MatchCount(hits[index].line.folded, needle, 0); }
  }

  // ----- Ranks -----

  function Sum(counts: seq<nat>, k: nat): nat
    requires k <= |counts|
  {
    if k == 0 then 0 else Sum(counts, k - 1) + counts[k - 1]
  }

  ghost predicate Within(counts: seq<nat>, p: Position) {
    counts != [] && (forall i :: 0 <= i < |counts| ==> counts[i] > 0) && p.index < |counts| && p.occurrence < counts[p.index]
  }

  /** How many occurrences come before a position. */
  ghost function Rank(counts: seq<nat>, p: Position): nat
    requires Within(counts, p)
  {
    Sum(counts, p.index) + p.occurrence
  }

  lemma {:induction false} SumMonotone(counts: seq<nat>, a: nat, b: nat)
    requires a <= b <= |counts|
    ensures Sum(counts, a) <= Sum(counts, b)
    decreases b
  {
    if a < b { SumMonotone(counts, a, b - 1); }
  }

  lemma RankBounded(counts: seq<nat>, p: Position)
    requires Within(counts, p)
    ensures Rank(counts, p) < Sum(counts, |counts|)
  {
    SumMonotone(counts, p.index + 1, |counts|);
  }

  lemma RankInjective(counts: seq<nat>, p: Position, q: Position)
    requires Within(counts, p) && Within(counts, q) && Rank(counts, p) == Rank(counts, q)
    ensures p == q
  {
    if p.index < q.index { SumMonotone(counts, p.index + 1, q.index); }
    if q.index < p.index { SumMonotone(counts, q.index + 1, p.index); }
  }

  lemma Wrap(x: nat, n: nat)
    requires 0 < n <= x <= 2 * n
    ensures x % n == if x < 2 * n then x - n else 0
  {
    if x == 2 * n { ModTwice(n); } else { ModOnce(x - n, n); }
  }

  lemma ModOnce(r: nat, n: nat)
    requires r < n
    ensures (r + n) % n == r
  {
  }

  lemma ModTwice(n: nat)
    requires n > 0
    ensures (2 * n) % n == 0
  {
  }

  /** Next goes to the following rank and wraps at the end. */
  lemma NextRank(counts: seq<nat>, p: Position)
    requires Within(counts, p)
    ensures var n := Turn(counts, p, 1);
            Within(counts, n)
            && Rank(counts, n) == if Rank(counts, p) + 1 < Sum(counts, |counts|) then Rank(counts, p) + 1 else 0
  {
    RankBounded(counts, p);
    var n := |counts|;
    if p.occurrence + 1 < counts[p.index] {
      SumMonotone(counts, p.index + 1, n);
    } else if p.index + 1 < n {
      Wrap(p.index + 1 + n, n);
      RankBounded(counts, Position(p.index + 1, 0));
    } else {
      Wrap(p.index + 1 + n, n);
    }
  }

  /** Previous goes to the preceding rank and wraps at the start. */
  lemma PreviousRank(counts: seq<nat>, p: Position)
    requires Within(counts, p)
    ensures var n := Turn(counts, p, -1);
            Within(counts, n)
            && Rank(counts, n) == if Rank(counts, p) > 0 then Rank(counts, p) - 1 else Sum(counts, |counts|) - 1
  {
    var n := |counts|;
    if p.occurrence == 0 && p.index > 0 {
      Wrap(p.index - 1 + n, n);
      assert Turn(counts, p, -1) == Position(p.index - 1, counts[p.index - 1] - 1);
    } else if p.occurrence == 0 {
      assert Turn(counts, p, -1) == Position(n - 1, counts[n - 1] - 1);
    }
  }

  ghost function After(counts: seq<nat>, p: Position, k: nat): (q: Position)
    requires Within(counts, p)
    ensures Within(counts, q)
  {
    if k == 0 then p else
      var before := After(counts, p, k - 1);
      NextRank(counts, before);
      Turn(counts, before, 1)
  }

  lemma {:induction false} AfterRank(counts: seq<nat>, p: Position, k: nat)
    requires Within(counts, p) && k <= Sum(counts, |counts|)
    ensures var r, n := Rank(counts, p) + k, Sum(counts, |counts|);
            Rank(counts, After(counts, p, k)) == if r < n then r else r - n
    decreases k
  {
    RankBounded(counts, p);
    if k > 0 {
      AfterRank(counts, p, k - 1);
      NextRank(counts, After(counts, p, k - 1));
    }
  }

  // ----- Navigation -----

  /** `k` presses of next. */
  ghost function Presses(hits: seq<Hit>, needle: Folded, p: Position, k: nat): (q: Position)
    requires Results(hits, needle) && OnScreen(hits, needle, p)
    ensures OnScreen(hits, needle, q)
    ensures q == After(Counts(hits, needle), p, k)
  {
    if k == 0 then p else
      var before := Presses(hits, needle, p, k - 1);
      PressIsTurn(hits, needle, before, 1);
      Press(hits, needle, before, 1)
  }

  /** Turning back returns to the same position. */
  lemma TurnBack(counts: seq<nat>, p: Position, direction: int)
    requires Within(counts, p) && (direction == 1 || direction == -1)
    ensures Within(counts, Turn(counts, p, direction)) && Turn(counts, Turn(counts, p, direction), -direction) == p
  {
    NextRank(counts, p);
    PreviousRank(counts, p);
    var q := Turn(counts, p, direction);
    NextRank(counts, q);
    PreviousRank(counts, q);
    RankBounded(counts, p);
    RankBounded(counts, q);
    RankInjective(counts, Turn(counts, q, -direction), p);
  }

  /** Next and previous undo each other on every position. */
  lemma NextAndPreviousAreInverse(hits: seq<Hit>, needle: Folded, p: Position, direction: int)
    requires Results(hits, needle) && OnScreen(hits, needle, p) && (direction == 1 || direction == -1)
    ensures OnScreen(hits, needle, Press(hits, needle, p, direction))
    ensures Press(hits, needle, Press(hits, needle, p, direction), -direction) == p
  {
    var counts := Counts(hits, needle);
    TurnBack(counts, p, direction);
    PressIsTurn(hits, needle, p, direction);
    PressIsTurn(hits, needle, Turn(counts, p, direction), -direction);
  }

  /**
   Repeating next is one cycle: every position is reached from every other by exactly one number of
   presses below the number of occurrences, and that many presses come back to the start.
   */
  lemma NextIsOneCycle(hits: seq<Hit>, needle: Folded, p: Position, q: Position) returns (k: nat)
    requires Results(hits, needle) && OnScreen(hits, needle, p) && OnScreen(hits, needle, q)
    ensures var total := Sum(Counts(hits, needle), |hits|);
            && k < total && Presses(hits, needle, p, k) == q
            && (forall j :: 0 <= j < total && Presses(hits, needle, p, j) == q ==> j == k)
            && Presses(hits, needle, p, total) == p
  {
    var counts := Counts(hits, needle);
    var total := Sum(counts, |counts|);
    RankBounded(counts, p);
    RankBounded(counts, q);
    var a, b := Rank(counts, p), Rank(counts, q);
    k := if a <= b then b - a else b + total - a;
    AfterRank(counts, p, k);
    RankInjective(counts, After(counts, p, k), q);
    AfterRank(counts, p, total);
    RankInjective(counts, After(counts, p, total), p);
    forall j | 0 <= j < total && Presses(hits, needle, p, j) == q ensures j == k {
      AfterRank(counts, p, j);
    }
  }

  // ----- Over the files of a review -----

  /** Every line is a string the browser can hold. */
  ghost predicate Bounded(file: File) {
    && (forall i :: 0 <= i < |file.additionLines| ==> |file.additionLines[i].folded| <= MAX_SAFE_INTEGER)
    && (forall i :: 0 <= i < |file.deletionLines| ==> |file.deletionLines[i].folded| <= MAX_SAFE_INTEGER)
  }

  ghost predicate Review(files: seq<File>) { forall i :: 0 <= i < |files| ==> WellFormed(files[i]) && Bounded(files[i]) }

  /** What a search of the files yields can be navigated. */
  lemma SearchYieldsResults(files: seq<File>, needle: Folded) returns (hits: seq<Hit>)
    requires Review(files) && needle != []
    ensures hits == Hits(files, needle) && (hits != [] ==> Results(hits, needle))
  {
    hits := Hits(files, needle);
    forall i | 0 <= i < |hits| ensures ResultOk(hits[i], needle) {
      ResultsAreMatches(files, needle, hits[i]);
      var f :| 0 <= f < |files| && IsMatch(files[f], needle, hits[i]);
      if hits[i].LineHit? { MatchIsLine(files[f], needle, hits[i]); }
    }
  }

  /** Every occurrence of every matching path or line of the files is a position. */
  lemma MatchHasPosition(files: seq<File>, needle: Folded, hits: seq<Hit>, f: nat, hit: Hit, occurrence: nat) returns (q: Position)
    requires Review(files) && needle != [] && hits == Hits(files, needle)
    requires f < |files| && IsMatch(files[f], needle, hit) && occurrence < Occurrences(hit, needle)
    ensures OnScreen(hits, needle, q) && hits[q.index] == hit && q.occurrence == occurrence
  {
    ResultsAreMatches(files, needle, hit);
    var index :| 0 <= index < |hits| && hits[index] == hit;
    q := Position(index, occurrence);
  }

  /**
   Searching the files of a review: from any position, pressing next reaches every occurrence of every
   matching path or line, at exactly one number of presses below the total, and then starts over.
   */
  lemma NextVisitsEveryMatch(files: seq<File>, needle: Folded, hits: seq<Hit>, p: Position, f: nat, hit: Hit, occurrence: nat)
    returns (q: Position, k: nat)
    requires Review(files) && needle != [] && hits == Hits(files, needle) && OnScreen(hits, needle, p)
    requires f < |files| && IsMatch(files[f], needle, hit) && occurrence < Occurrences(hit, needle)
    ensures Results(hits, needle) && OnScreen(hits, needle, q) && hits[q.index] == hit && q.occurrence == occurrence
    ensures var total := Sum(Counts(hits, needle), |hits|);
            && k < total && Presses(hits, needle, p, k) == q && Presses(hits, needle, p, total) == p
            && (forall j :: 0 <= j < total && Presses(hits, needle, p, j) == q ==> j == k)
  {
    var _ := SearchYieldsResults(files, needle);
    q := MatchHasPosition(files, needle, hits, f, hit, occurrence);
    k := NextIsOneCycle(hits, needle, p, q);
  }
}
