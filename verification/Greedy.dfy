/** Greedy non-overlapping occurrences of a needle, shared by paged reading and review search. */
module Greedy {
  import opened Options

  predicate OccursAt<T(==)>(text: seq<T>, needle: seq<T>, i: nat) {
    i + |needle| <= |text| && text[i..i + |needle|] == needle
  }

  /** The first occurrence at or after `from`. */
  function Find<T(==)>(text: seq<T>, needle: seq<T>, from: nat): (r: Option<nat>)
    ensures r.Some? ==> from <= r.value && r.value + |needle| <= |text|
    decreases |text| - from
  {
    if OccursAt(text, needle, from) then Some(from)
    else if from >= |text| then None
    else Find(text, needle, from + 1)
  }

  lemma {:induction false} FindIsFirst<T>(text: seq<T>, needle: seq<T>, from: nat)
    ensures var r := Find(text, needle, from);
            && (r.Some? ==> OccursAt(text, needle, r.value) && forall i :: from <= i < r.value ==> !OccursAt(text, needle, i))
            && (r.None? ==> forall i :: from <= i ==> !OccursAt(text, needle, i))
    decreases |text| - from
  {
    if !OccursAt(text, needle, from) && from < |text| { FindIsFirst(text, needle, from + 1); }
  }

  lemma FindAt<T>(text: seq<T>, needle: seq<T>, from: nat)
    requires Find(text, needle, from).Some?
    ensures var i := Find(text, needle, from).value; Find(text, needle, i) == Some(i)
  {
    FindIsFirst(text, needle, from);
  }

  /** Every occurrence found by searching on from the end of the one before. */
  function Matches<T(==)>(text: seq<T>, needle: seq<T>, from: nat): seq<nat>
    requires needle != []
    decreases if from <= |text| then |text| - from + 1 else 0
  {
    match Find(text, needle, from)
    case None => []
    case Some(i) => [i] + Matches(text, needle, i + |needle|)
  }

  /** Occurrences in order, none overlapping, and none skipped between them. */
  ghost predicate GreedyList<T>(text: seq<T>, needle: seq<T>, from: nat, found: seq<nat>) {
    forall k :: 0 <= k <= |found| ==> GapOk(text, needle, from, found, k)
  }

  /** Match `k` is an occurrence past the one before, and nothing occurs in between. */
  ghost predicate GapOk<T>(text: seq<T>, needle: seq<T>, from: nat, found: seq<nat>, k: nat)
    requires k <= |found|
  {
    && (k < |found| ==> OccursAt(text, needle, found[k]) && GapStart(needle, from, found, k) <= found[k])
    && NothingBetween(text, needle, GapStart(needle, from, found, k), if k < |found| then Some(found[k]) else None)
  }

  /** Where the search for match `k` begins: at `from`, or after the match before. */
  function GapStart<T>(needle: seq<T>, from: nat, found: seq<nat>, k: nat): nat
    requires k <= |found|
  {
    if k == 0 then from else found[k - 1] + |needle|
  }

  /** No occurrence starts from `low` on, before `high` if there is one. */
  ghost predicate NothingBetween<T>(text: seq<T>, needle: seq<T>, low: nat, high: Option<nat>) {
    forall i: nat :: low <= i && (high.Some? ==> i < high.value) ==> !OccursAt(text, needle, i)
  }

  lemma GapShift<T>(text: seq<T>, needle: seq<T>, from: nat, first: nat, rest: seq<nat>, found: seq<nat>, k: nat)
    requires found == [first] + rest && k <= |rest| && GapOk(text, needle, first + |needle|, rest, k)
    ensures GapOk(text, needle, from, found, k + 1)
  {
    assert k < |rest| ==> found[k + 1] == rest[k];
    assert GapStart(needle, from, found, k + 1) == GapStart(needle, first + |needle|, rest, k);
  }

  lemma GapFirst<T>(text: seq<T>, needle: seq<T>, from: nat, first: nat, found: seq<nat>)
    requires found != [] && found[0] == first && Find(text, needle, from) == Some(first)
    ensures GapOk(text, needle, from, found, 0)
  {
    FindIsFirst(text, needle, from);
  }

  lemma GapNone<T>(text: seq<T>, needle: seq<T>, from: nat)
    requires Find(text, needle, from) == None
    ensures GapOk(text, needle, from, [], 0)
  {
    FindIsFirst(text, needle, from);
  }

  lemma {:induction false} MatchesAreGreedy<T>(text: seq<T>, needle: seq<T>, from: nat) returns (found: seq<nat>)
    requires needle != []
    ensures found == Matches(text, needle, from) && GreedyList(text, needle, from, found)
    decreases if from <= |text| then |text| - from + 1 else 0
  {
    var first := Find(text, needle, from);
    if first.None? {
      found := [];
      GapNone(text, needle, from);
    } else {
      var rest := MatchesAreGreedy(text, needle, first.value + |needle|);
      found := [first.value] + rest;
      GapFirst(text, needle, from, first.value, found);
      forall k | 0 < k <= |found| ensures GapOk(text, needle, from, found, k) {
        GapShift(text, needle, from, first.value, rest, found, k - 1);
      }
    }
  }

  /** Searching again from a match yields exactly the rest of the list. */
  lemma {:induction false} ResumeAtMatch<T>(text: seq<T>, needle: seq<T>, from: nat, k: nat)
    requires needle != [] && k < |Matches(text, needle, from)|
    ensures var m := Matches(text, needle, from);
            from <= m[k] < |text| && Matches(text, needle, m[k]) == m[k..]
    ensures k > 0 ==> from < Matches(text, needle, from)[k]
    decreases k
  {
    var i := Find(text, needle, from).value;
    var m := Matches(text, needle, from);
    if k == 0 {
      FindAt(text, needle, from);
      assert m[0..] == m;
    } else {
      var next := i + |needle|;
      var rest := Matches(text, needle, next);
      ResumeAtMatch(text, needle, next, k - 1);
      assert m[k..] == rest[k - 1..];
    }
  }

  lemma {:induction false} MatchCount<T>(text: seq<T>, needle: seq<T>, from: nat)
    requires needle != [] && from <= |text|
    ensures |Matches(text, needle, from)| <= |text| - from
    decreases |text| - from
  {
    var first := Find(text, needle, from);
    if first.Some? { MatchCount(text, needle, first.value + |needle|); }
  }
}
