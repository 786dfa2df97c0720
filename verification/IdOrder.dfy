/** The order of a `BTreeSet<String>`: lexicographic by character. */
module IdOrder {
  predicate Before(a: string, b: string)
    decreases |a|
  {
    if b == [] then false
    else if a == [] then true
    else if a[0] != b[0] then a[0] < b[0]
    else Before(a[1..], b[1..])
  }

  lemma {:induction false} Total(a: string, b: string)
    ensures a == b || Before(a, b) || Before(b, a)
    decreases |a|
  {
    if a != [] && b != [] && a[0] == b[0] {
      Total(a[1..], b[1..]);
      assert a == [a[0]] + a[1..] && b == [b[0]] + b[1..];
    }
  }

  lemma {:induction false} Transitive(a: string, b: string, c: string)
    requires Before(a, b) && Before(b, c)
    ensures Before(a, c)
    decreases |a|
  {
    if a != [] && b != [] && c != [] && a[0] == b[0] == c[0] {
      Transitive(a[1..], b[1..], c[1..]);
    }
  }

  lemma {:induction false} Irreflexive(a: string)
    ensures !Before(a, a)
    decreases |a|
  {
    if a != [] { Irreflexive(a[1..]); }
  }

  predicate IsFirst(s: set<string>, x: string) {
    x in s && forall y :: y in s && y != x ==> Before(x, y)
  }

  /** Every non-empty set of strings has a first element. */
  lemma {:induction false} FirstExists(s: set<string>)
    requires s != {}
    ensures exists x :: IsFirst(s, x)
    decreases |s|
  {
    var x :| x in s;
    var rest := s - {x};
    assert forall y :: y in s && y != x ==> y in rest;
    if rest == {} {
      assert IsFirst(s, x);
    } else {
      FirstExists(rest);
      var y :| IsFirst(rest, y);
      Total(x, y);
      if Before(y, x) {
        assert IsFirst(s, y);
      } else {
        forall z | z in s && z != x ensures Before(x, z) {
          if z != y { Transitive(x, y, z); }
        }
        assert IsFirst(s, x);
      }
    }
  }

  ghost function First(s: set<string>): (x: string)
    requires s != {}
    ensures IsFirst(s, x)
  {
    FirstExists(s);
    var x :| IsFirst(s, x);
    x
  }

  /** The iteration order of the set. */
  ghost function Sorted(s: set<string>): (r: seq<string>)
    ensures |r| == |s|
    ensures forall x :: x in r <==> x in s
    ensures forall i, j :: 0 <= i < j < |r| ==> Before(r[i], r[j])
  {
    if s == {} then [] else
      var x := First(s);
      var rest := Sorted(s - {x});
      FirstInFront(s, x, rest);
      [x] + rest
  }

  lemma FirstInFront(s: set<string>, x: string, rest: seq<string>)
    requires IsFirst(s, x) && |rest| == |s - {x}| && forall y :: y in rest <==> y in s - {x}
    requires forall i, j :: 0 <= i < j < |rest| ==> Before(rest[i], rest[j])
    ensures |[x] + rest| == |s| && forall y :: y in [x] + rest <==> y in s
    ensures forall i, j :: 0 <= i < j < |[x] + rest| ==> Before(([x] + rest)[i], ([x] + rest)[j])
  {
    assert s == {x} + (s - {x});
    forall i | 0 <= i < |rest| ensures Before(x, rest[i]) { assert rest[i] in rest; }
  }

  lemma SortedDistinct(ids: seq<string>, s: set<string>)
    requires ids == Sorted(s)
    ensures forall i, j :: 0 <= i < j < |ids| ==> ids[i] != ids[j]
  {
    forall i, j | 0 <= i < j < |ids| ensures ids[i] != ids[j] { Irreflexive(ids[i]); }
  }

  lemma FirstUnique(s: set<string>, x: string)
    requires IsFirst(s, x)
    ensures x == First(s)
  {
    var y := First(s);
    if x != y {
      Transitive(x, y, x);
      Irreflexive(x);
    }
  }

  lemma SortedStep(s: set<string>, x: string)
    requires IsFirst(s, x)
    ensures Sorted(s) == [x] + Sorted(s - {x})
  {
    FirstUnique(s, x);
  }

  /** Take the next element of a set in iteration order. */
  method Next(s: set<string>) returns (x: string)
    requires s != {}
    ensures x in s && |s - {x}| < |s|
    ensures Sorted(s) == [x] + Sorted(s - {x})
  {
    FirstExists(s);
    x :| x in s && IsFirst(s, x);
    SortedStep(s, x);
  }
}
