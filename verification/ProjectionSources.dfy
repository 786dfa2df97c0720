/** No history item and no input position is lost or claimed twice by the segment manifest. */
module ProjectionSources {
  import opened Options
  import opened Projection
  import IdOrder

  /** How many of the first `k` items are journaled history. */
  function Sourced(items: seq<ProjectedItem>, k: nat): nat
    requires k <= |items|
  {
    if k == 0 then 0 else Sourced(items, k - 1) + if items[k - 1].source.Some? then 1 else 0
  }

  /** Items carry the history in order; everything else is a placeholder. */
  ghost predicate Ordered(items: seq<ProjectedItem>, history: seq<Value>) {
    forall i :: 0 <= i < |items| ==> OrderedAt(items, history, i)
  }

  predicate OrderedAt(items: seq<ProjectedItem>, history: seq<Value>, i: nat)
    requires i < |items|
  {
    match items[i].source
    case None => items[i].value.Placeholder?
    case Some(x) => x == Sourced(items, i) && x < |history| && items[i].value == history[x]
  }

  lemma {:induction false} SourcedFrame(a: seq<ProjectedItem>, b: seq<ProjectedItem>, k: nat)
    requires a <= b && k <= |a|
    ensures Sourced(a, k) == Sourced(b, k)
  {
    if k > 0 { SourcedFrame(a, b, k - 1); }
  }

  lemma {:induction false} SourcedMonotone(items: seq<ProjectedItem>, a: nat, b: nat)
    requires a <= b <= |items|
    ensures Sourced(items, a) <= Sourced(items, b)
    decreases b
  {
    if a < b { SourcedMonotone(items, a, b - 1); }
  }

  lemma PushOrdered(items: seq<ProjectedItem>, p: ProjectedItem, history: seq<Value>)
    requires Ordered(items, history)
    requires match p.source
             case None => p.value.Placeholder?
             case Some(x) => x == Sourced(items, |items|) && x < |history| && p.value == history[x]
    ensures Ordered(items + [p], history)
    ensures Sourced(items + [p], |items| + 1) == Sourced(items, |items|) + if p.source.Some? then 1 else 0
  {
    var all := items + [p];
    SourcedFrame(items, all, |items|);
    forall i | 0 <= i < |all| ensures OrderedAt(all, history, i) {
      if i < |items| { assert OrderedAt(items, history, i); }
      SourcedFrame(items, all, i);
    }
  }

  lemma {:induction false} PlaceholdersOrdered(items: seq<ProjectedItem>, ids: seq<CallId>, k: nat, stable: bool, history: seq<Value>)
    requires Ordered(items, history) && k <= |ids|
    ensures var all := items + Placeholders(ids, stable)[..k];
            Ordered(all, history) && Sourced(all, |items| + k) == Sourced(items, |items|)
    decreases k
  {
    var ps := Placeholders(ids, stable);
    if k == 0 {
      assert items + ps[..k] == items;
    } else {
      PlaceholdersOrdered(items, ids, k - 1, stable, history);
      PushOrdered(items + ps[..k - 1], ps[k - 1], history);
      assert items + ps[..k] == items + ps[..k - 1] + [ps[k - 1]];
    }
  }

  ghost predicate Carries(r: Repair, history: seq<Value>, n: nat) {
    r.Repair? ==> Ordered(r.items, history) && Sourced(r.items, |r.items|) == n
  }

  lemma PlaceholdersCarry(items: seq<ProjectedItem>, ids: seq<CallId>, stable: bool, history: seq<Value>, n: nat) returns (all: seq<ProjectedItem>)
    requires Ordered(items, history) && Sourced(items, |items|) == n
    ensures all == items + Placeholders(ids, stable) && Ordered(all, history) && Sourced(all, |all|) == n
  {
    PlaceholdersOrdered(items, ids, |ids|, stable, history);
    all := items + Placeholders(ids, stable);
    assert Placeholders(ids, stable)[..|ids|] == Placeholders(ids, stable);
  }

  lemma FlushCarries(s: Session, r: Repair, stable: bool, n: nat) returns (f: Repair)
    requires Carries(r, s.history, n)
    ensures f == Flush(s, r, stable) && Carries(f, s.history, n)
  {
    f := Flush(s, r, stable);
    if f.Repair? { var _ := PlaceholdersCarry(r.items, IdOrder.Sorted(r.pending), stable, s.history, n); }
  }

  lemma PushCarries(s: Session, r: Repair, k: nat) returns (after: Repair)
    requires k < |s.history| && Carries(r, s.history, k)
    ensures after == Push(s, r, k) && Carries(after, s.history, k + 1)
  {
    after := Push(s, r, k);
    if r.Repair? { PushOrdered(r.items, ProjectedItem(s.history[k], Some(k), k < Settled(s)), s.history); }
  }

  lemma {:induction false} RepairCarries(s: Session, k: nat) returns (r: Repair)
    requires k <= |s.history|
    ensures r == RepairUpTo(s, k) && Carries(r, s.history, k)
  {
    if k == 0 {
      r := RepairUpTo(s, 0);
    } else {
      r := RepairCarries(s, k - 1);
      if IsUser(s.history[k - 1]) { r := FlushCarries(s, r, k - 1 <= Settled(s), k - 1); }
      r := PushCarries(s, r, k - 1);
    }
  }

  /** Repair keeps the whole history, in order, and adds only placeholders. */
  lemma RepairedCarries(s: Session)
    ensures Carries(Repaired(s), s.history, |s.history|)
  {
    var r := RepairCarries(s, |s.history|);
    var _ := FlushCarries(s, r, Settled(s) == |s.history|, |s.history|);
  }

  // ----- Source ranges -----

  lemma {:induction false} SourceFreeIff(items: seq<ProjectedItem>, a: nat, b: nat)
    requires a <= b <= |items|
    ensures SourceFree(items, a, b) <==> Sourced(items, a) == Sourced(items, b)
    decreases b
  {
    if a < b {
      SourceFreeIff(items, a, b - 1);
      SourcedMonotone(items, a, b - 1);
      assert SourceFree(items, a, b) <==> SourceFree(items, a, b - 1) && items[b - 1].source == None;
    }
  }

  lemma {:induction false} SourceRange(items: seq<ProjectedItem>, history: seq<Value>, a: nat, b: nat, default: nat)
    requires a <= b <= |items| && Ordered(items, history)
    ensures SourceEnd(items, a, b, default) == if Sourced(items, a) == Sourced(items, b) then default else Sourced(items, b)
    ensures SourceStart(items, a, b, default) == if Sourced(items, a) == Sourced(items, b) then default else Sourced(items, a)
    decreases b
  {
    if a < b {
      SourceRange(items, history, a, b - 1, default);
      SourceFreeIff(items, a, b - 1);
      SourcedMonotone(items, a, b - 1);
      assert OrderedAt(items, history, b - 1);
    }
  }

  // ----- Coverage -----

  function Holds(r: Range, x: nat): nat { if r.start <= x < r.end then 1 else 0 }

  lemma HoldsJoin(a: nat, b: nat, c: nat, x: nat)
    requires a <= b <= c
    ensures Holds(Range(a, b), x) + Holds(Range(b, c), x) == Holds(Range(a, c), x)
  {
  }

  lemma JoinFour(a: nat, b: nat, c: nat, d: nat, e: nat, x: nat)
    requires a <= b <= c <= d <= e
    ensures Holds(Range(a, b), x) + Holds(Range(b, c), x) + Holds(Range(c, d), x) + Holds(Range(d, e), x) == Holds(Range(a, e), x)
  {
    HoldsJoin(a, b, c, x);
    HoldsJoin(a, c, d, x);
    HoldsJoin(a, d, e, x);
  }

  /** How many segments claim history item `x`. */
  function SourceClaims<R>(segments: seq<Segment<R>>, x: nat): nat {
    if segments == [] then 0
    else SourceClaims(segments[..|segments| - 1], x) + Holds(segments[|segments| - 1].range, x)
  }

  /** How many segments claim input position `p`. */
  function InputClaims<R>(segments: seq<Segment<R>>, p: nat): nat {
    if segments == [] then 0
    else InputClaims(segments[..|segments| - 1], p) + Holds(segments[|segments| - 1].inputRange, p)
  }

  lemma {:induction false} ClaimsConcat<R>(a: seq<Segment<R>>, b: seq<Segment<R>>, x: nat)
    ensures SourceClaims(a + b, x) == SourceClaims(a, x) + SourceClaims(b, x)
    ensures InputClaims(a + b, x) == InputClaims(a, x) + InputClaims(b, x)
    decreases |b|
  {
    if b == [] {
      assert a + b == a;
    } else {
      ClaimsConcat(a, b[..|b| - 1], x);
      assert (a + b)[..|a + b| - 1] == a + b[..|b| - 1];
    }
  }

  lemma ClaimsConcat4<R>(a: seq<Segment<R>>, b: seq<Segment<R>>, c: seq<Segment<R>>, d: seq<Segment<R>>, x: nat)
    ensures SourceClaims(a + b + c + d, x) == SourceClaims(a, x) + SourceClaims(b, x) + SourceClaims(c, x) + SourceClaims(d, x)
    ensures InputClaims(a + b + c + d, x) == InputClaims(a, x) + InputClaims(b, x) + InputClaims(c, x) + InputClaims(d, x)
  {
    ClaimsConcat(a, b, x);
    ClaimsConcat(a + b, c, x);
    ClaimsConcat(a + b + c, d, x);
  }

  lemma LastClaim<R>(segs: seq<Segment<R>>, seg: Segment<R>, x: nat)
    ensures SourceClaims(segs + [seg], x) == SourceClaims(segs, x) + Holds(seg.range, x)
    ensures InputClaims(segs + [seg], x) == InputClaims(segs, x) + Holds(seg.inputRange, x)
  {
    assert (segs + [seg])[..|segs|] == segs;
  }

  lemma StableRangeHolds(items: seq<ProjectedItem>, history: seq<Value>, c: Cuts, i: nat, x: nat)
    requires c.base <= i < c.epoch <= |items| && Ordered(items, history)
    ensures Holds(Range(Sourced(items, c.base), Sourced(items, i)), x) + Holds(StableRange(items, c, i), x)
            == Holds(Range(Sourced(items, c.base), Sourced(items, i + 1)), x)
  {
    assert OrderedAt(items, history, i);
    SourcedMonotone(items, c.base, i);
  }

  lemma StableSegmentsStep<R>(s: Session, items: seq<ProjectedItem>, c: Cuts, input: seq<Value>, k: nat, native: R, h: Hash) returns (last: Segment<R>)
    requires Laid(items, c, input) && 0 < k <= Kept(c)
    ensures StableSegments(s, items, c, input, k, native, h) == StableSegments(s, items, c, input, k - 1, native, h) + [last]
    ensures last.range == StableRange(items, c, c.base + k - 1) && last.inputRange == Range(k - 1, k)
    ensures last.role == StableHistory
  {
    last := MakeSegment(s, StableHistory, StableRange(items, c, c.base + k - 1), Range(k - 1, k), input, native, h);
  }

  lemma StableClaimsStep<R>(items: seq<ProjectedItem>, history: seq<Value>, c: Cuts, k: nat, segs: seq<Segment<R>>, last: Segment<R>, x: nat)
    requires c.base + k < c.epoch <= |items| && Ordered(items, history) && last.range == StableRange(items, c, c.base + k)
    requires SourceClaims(segs, x) == Holds(Range(Sourced(items, c.base), Sourced(items, c.base + k)), x)
    ensures SourceClaims(segs + [last], x) == Holds(Range(Sourced(items, c.base), Sourced(items, c.base + k + 1)), x)
  {
    StableRangeHolds(items, history, c, c.base + k, x);
    LastClaim(segs, last, x);
  }

  lemma {:induction false} StableClaims<R>(s: Session, items: seq<ProjectedItem>, c: Cuts, input: seq<Value>, k: nat, native: R, h: Hash, x: nat)
    returns (segs: seq<Segment<R>>)
    requires Laid(items, c, input) && k <= Kept(c) && Ordered(items, s.history)
    ensures segs == StableSegments(s, items, c, input, k, native, h)
    ensures SourceClaims(segs, x) == Holds(Range(Sourced(items, c.base), Sourced(items, c.base + k)), x)
    decreases k
  {
    if k == 0 {
      segs := [];
    } else {
      segs := StableClaims(s, items, c, input, k - 1, native, h, x);
      var last := StableSegmentsStep(s, items, c, input, k, native, h);
      StableClaimsStep(items, s.history, c, k - 1, segs, last, x);
      segs := segs + [last];
    }
  }

  lemma {:induction false} StableInputClaims<R>(s: Session, items: seq<ProjectedItem>, c: Cuts, input: seq<Value>, k: nat, native: R, h: Hash, x: nat)
    requires Laid(items, c, input) && k <= Kept(c)
    ensures InputClaims(StableSegments(s, items, c, input, k, native, h), x) == Holds(Range(0, k), x)
    decreases k
  {
    if k > 0 {
      StableInputClaims(s, items, c, input, k - 1, native, h, x);
      var last := StableSegmentsStep(s, items, c, input, k, native, h);
      LastClaim(StableSegments(s, items, c, input, k - 1, native, h), last, x);
    }
  }

  lemma SingleClaim<R>(seg: Segment<R>, x: nat)
    ensures SourceClaims([seg], x) == Holds(seg.range, x) && InputClaims([seg], x) == Holds(seg.inputRange, x)
  {
    assert [seg][..0] == [];
  }

  /** The source ranges the manifest records, in terms of the cuts alone. */
  lemma RangesAre(s: Session, items: seq<ProjectedItem>, c: Cuts)
    requires Ordered(items, s.history) && Sourced(items, |items|) == |s.history|
    requires c.base <= c.epoch <= c.live <= |items|
    ensures Sourced(items, c.base) <= Sourced(items, c.epoch) <= Sourced(items, c.live) <= |s.history|
    ensures SourceEnd(items, 0, c.base, 0) == Sourced(items, c.base)
    ensures EpochEnd(items, c) == Sourced(items, c.epoch)
    ensures SourceStart(items, c.epoch, c.live, EpochEnd(items, c)) == Sourced(items, c.epoch)
    ensures SourceEnd(items, c.epoch, c.live, Sourced(items, c.epoch)) == Sourced(items, c.live)
    ensures SourceStart(items, c.live, |items|, |s.history|) == Sourced(items, c.live)
  {
    SourcedMonotone(items, c.base, c.epoch);
    SourcedMonotone(items, c.epoch, c.live);
    SourcedMonotone(items, c.live, |items|);
    SourceRange(items, s.history, 0, c.base, 0);
    SourceRange(items, s.history, 0, c.epoch, 0);
    SourceRange(items, s.history, c.epoch, c.live, EpochEnd(items, c));
    SourceRange(items, s.history, c.epoch, c.live, Sourced(items, c.epoch));
    SourceRange(items, s.history, c.live, |items|, |s.history|);
  }

  /** The segments claim the given source and input ranges, each position once. */
  ghost predicate ClaimExactly<R>(segments: seq<Segment<R>>, source: Range, input: Range, x: nat) {
    SourceClaims(segments, x) == Holds(source, x) && InputClaims(segments, x) == Holds(input, x)
  }

  lemma OlderClaims<R>(s: Session, items: seq<ProjectedItem>, c: Cuts, input: seq<Value>, native: R, h: Hash, x: nat) returns (r: seq<Segment<R>>)
    requires Laid(items, c, input) && Ordered(items, s.history) && Sourced(items, |items|) == |s.history|
    ensures r == OlderSegments(s, items, c, input, native, h)
    ensures ClaimExactly(r, Range(0, Sourced(items, c.base)), Range(Kept(c), AfterOlder(c)), x)
  {
    RangesAre(s, items, c);
    r := OlderSegments(s, items, c, input, native, h);
    if r != [] { SingleClaim(r[0], x); }
  }

  lemma OmittedClaims<R>(s: Session, items: seq<ProjectedItem>, c: Cuts, input: seq<Value>, native: R, h: Hash, x: nat) returns (r: seq<Segment<R>>)
    requires Laid(items, c, input) && Ordered(items, s.history) && Sourced(items, |items|) == |s.history|
    ensures r == EpochSegments(s, items, c, input, native, h)
    ensures ClaimExactly(r, Range(Sourced(items, c.epoch), Sourced(items, c.live)), Range(AfterOlder(c), LiveStart(c)), x)
  {
    RangesAre(s, items, c);
    r := EpochSegments(s, items, c, input, native, h);
    if r != [] { SingleClaim(r[0], x); }
  }

  lemma TailClaims<R>(s: Session, items: seq<ProjectedItem>, c: Cuts, input: seq<Value>, native: R, h: Hash, x: nat) returns (r: seq<Segment<R>>)
    requires Laid(items, c, input) && Ordered(items, s.history) && Sourced(items, |items|) == |s.history|
    ensures r == TailSegments(s, items, c, input, native, h)
    ensures ClaimExactly(r, Range(Sourced(items, c.live), |s.history|), Range(LiveStart(c), |input|), x)
  {
    RangesAre(s, items, c);
    r := TailSegments(s, items, c, input, native, h);
    if r != [] { SingleClaim(r[0], x); }
  }

  lemma StableBoth<R>(s: Session, items: seq<ProjectedItem>, c: Cuts, input: seq<Value>, native: R, h: Hash, x: nat) returns (r: seq<Segment<R>>)
    requires Laid(items, c, input) && Ordered(items, s.history)
    ensures r == StableSegments(s, items, c, input, Kept(c), native, h)
    ensures ClaimExactly(r, Range(Sourced(items, c.base), Sourced(items, c.epoch)), Range(0, Kept(c)), x)
  {
    r := StableClaims(s, items, c, input, Kept(c), native, h, x);
    StableInputClaims(s, items, c, input, Kept(c), native, h, x);
  }

  /** Four runs of segments over adjoining ranges claim the whole. */
  lemma ClaimsJoin<R>(stable: seq<Segment<R>>, older: seq<Segment<R>>, omitted: seq<Segment<R>>, tail: seq<Segment<R>>,
                      b: nat, e: nat, l: nat, n: nat, i: nat, j: nat, k: nat, m: nat, x: nat)
    requires b <= e <= l <= n && i <= j <= k <= m
    requires ClaimExactly(stable, Range(b, e), Range(0, i), x) && ClaimExactly(older, Range(0, b), Range(i, j), x)
    requires ClaimExactly(omitted, Range(e, l), Range(j, k), x) && ClaimExactly(tail, Range(l, n), Range(k, m), x)
    ensures ClaimExactly(stable + older + omitted + tail, Range(0, n), Range(0, m), x)
  {
    ClaimsConcat4(stable, older, omitted, tail, x);
    JoinFour(0, b, e, l, n, x);
    JoinFour(0, i, j, k, m, x);
  }

  lemma SegmentClaims<R>(s: Session, items: seq<ProjectedItem>, c: Cuts, input: seq<Value>, native: R, h: Hash, x: nat)
    requires Laid(items, c, input) && Ordered(items, s.history) && Sourced(items, |items|) == |s.history|
    ensures ClaimExactly(SegmentsOf(s, items, c, input, native, h), Range(0, |s.history|), Range(0, |input|), x)
  {
    RangesAre(s, items, c);
    var stable := StableBoth(s, items, c, input, native, h, x);
    var older := OlderClaims(s, items, c, input, native, h, x);
    var omitted := OmittedClaims(s, items, c, input, native, h, x);
    var tail := TailClaims(s, items, c, input, native, h, x);
    ClaimsJoin(stable, older, omitted, tail, Sourced(items, c.base), Sourced(items, c.epoch), Sourced(items, c.live), |s.history|,
               Kept(c), AfterOlder(c), LiveStart(c), |input|, x);
  }

  // ----- Contents -----

  /** `shown` is `history` item by item, with placeholders and nothing else in between. */
  predicate Interleaved(history: seq<Value>, shown: seq<Value>)
    decreases |shown|
  {
    if shown == [] then
      history == []
    else
      || (history != [] && history[0] == shown[0] && Interleaved(history[1..], shown[1..]))
      || (shown[0].Placeholder? && Interleaved(history, shown[1..]))
  }

  /** The kept suffix still is its history, besides placeholders. */
  lemma {:induction false} TailCarries(s: Session, items: seq<ProjectedItem>, i: nat)
    requires Ordered(items, s.history) && Sourced(items, |items|) == |s.history| && i <= |items|
    ensures Sourced(items, i) <= |s.history|
    ensures Interleaved(s.history[Sourced(items, i)..], Values(items[i..]))
    decreases |items| - i
  {
    SourcedMonotone(items, i, |items|);
    if i < |items| {
      TailCarries(s, items, i + 1);
      assert OrderedAt(items, s.history, i);
      assert Values(items[i..])[1..] == Values(items[i + 1..]);
      var x := Sourced(items, i);
      if items[i].source.Some? {
        assert s.history[x..][1..] == s.history[x + 1..];
      }
    }
  }

  /** A retained stable segment is one input item: its own history item, or a placeholder. */
  ghost predicate HoldsItsSource<R>(s: Session, seg: Segment<R>, input: seq<Value>, i: nat) {
    && seg.role == StableHistory && seg.inputRange == Range(i, i + 1) && i < |input|
    && if seg.range.start == seg.range.end then input[i].Placeholder?
       else seg.range.end == seg.range.start + 1 <= |s.history| && s.history[seg.range.start] == input[i]
  }

  /** Every other segment's ranges lie in bounds, and a live tail is its whole history, besides placeholders. */
  ghost predicate TailHoldsItsSource<R>(s: Session, seg: Segment<R>, input: seq<Value>) {
    && seg.role != StableHistory
    && seg.range.start <= seg.range.end <= |s.history|
    && seg.inputRange.start <= seg.inputRange.end <= |input|
    && (seg.role == LiveTail ==>
          Interleaved(s.history[seg.range.start..seg.range.end], input[seg.inputRange.start..seg.inputRange.end]))
  }

  lemma {:induction false} StableContents<R>(s: Session, items: seq<ProjectedItem>, c: Cuts, input: seq<Value>, k: nat, native: R, h: Hash, i: nat)
    requires Laid(items, c, input) && Ordered(items, s.history)
    requires i < k <= Kept(c) && input[i] == items[c.base + i].value
    ensures HoldsItsSource(s, StableSegments(s, items, c, input, k, native, h)[i], input, i)
    decreases k
  {
    if i == k - 1 {
      assert OrderedAt(items, s.history, c.base + i);
    } else {
      StableContents(s, items, c, input, k - 1, native, h, i);
    }
  }

  lemma RestContents<R>(s: Session, items: seq<ProjectedItem>, c: Cuts, input: seq<Value>, native: R, h: Hash, seg: Segment<R>)
    requires Laid(items, c, input) && Ordered(items, s.history) && Sourced(items, |items|) == |s.history|
    requires input[LiveStart(c)..] == Values(items[c.live..])
    requires seg in OlderSegments(s, items, c, input, native, h) || seg in EpochSegments(s, items, c, input, native, h)
             || seg in TailSegments(s, items, c, input, native, h)
    ensures TailHoldsItsSource(s, seg, input)
  {
    RangesAre(s, items, c);
    TailCarries(s, items, c.live);
    var x := Sourced(items, c.live);
    assert s.history[x..] == s.history[x..|s.history|];
    assert input[LiveStart(c)..] == input[LiveStart(c)..|input|];
  }

  /** How many segments are omission notices. */
  function NoticeCount<R>(segments: seq<Segment<R>>): nat {
    if segments == [] then 0
    else NoticeCount(segments[..|segments| - 1]) + if segments[|segments| - 1].role == OmissionNotice then 1 else 0
  }

  lemma {:induction false} NoticeConcat<R>(a: seq<Segment<R>>, b: seq<Segment<R>>)
    ensures NoticeCount(a + b) == NoticeCount(a) + NoticeCount(b)
    decreases |b|
  {
    if b == [] {
      assert a + b == a;
    } else {
      NoticeConcat(a, b[..|b| - 1]);
      assert (a + b)[..|a + b| - 1] == a + b[..|b| - 1];
    }
  }

  lemma SingleNotice<R>(seg: Segment<R>)
    ensures NoticeCount([seg]) == if seg.role == OmissionNotice then 1 else 0
  {
    assert [seg][..0] == [];
  }

  lemma {:induction false} StableNotices<R>(s: Session, items: seq<ProjectedItem>, c: Cuts, input: seq<Value>, k: nat, native: R, h: Hash)
    requires Laid(items, c, input) && k <= Kept(c)
    ensures NoticeCount(StableSegments(s, items, c, input, k, native, h)) == 0
  {
    if k > 0 {
      StableNotices(s, items, c, input, k - 1, native, h);
      var last := StableSegmentsStep(s, items, c, input, k, native, h);
      NoticeConcat(StableSegments(s, items, c, input, k - 1, native, h), [last]);
      SingleNotice(last);
    }
  }

  lemma SegmentNotices<R>(s: Session, items: seq<ProjectedItem>, c: Cuts, input: seq<Value>, native: R, h: Hash)
    requires Laid(items, c, input)
    ensures NoticeCount(SegmentsOf(s, items, c, input, native, h)) == LiveStart(c) - Kept(c)
  {
    var stable := StableSegments(s, items, c, input, Kept(c), native, h);
    var older := OlderSegments(s, items, c, input, native, h);
    var omitted := EpochSegments(s, items, c, input, native, h);
    var tail := TailSegments(s, items, c, input, native, h);
    StableNotices(s, items, c, input, Kept(c), native, h);
    if older != [] { SingleNotice(older[0]); }
    if omitted != [] { SingleNotice(omitted[0]); }
    if tail != [] { SingleNotice(tail[0]); }
    NoticeConcat(stable, older);
    NoticeConcat(stable + older, omitted);
    NoticeConcat(stable + older + omitted, tail);
  }

  /** Every history item is claimed by exactly one segment, and so is every input position. */
  lemma ProvenancePartition<R>(s: Session, maxBytes: nat, native: R, h: Hash)
    requires Project(s, maxBytes, native, h).Ok?
    ensures var v := Project(s, maxBytes, native, h).value;
            && (forall x: nat :: SourceClaims(v.manifest.segments, x) == if x < |s.history| then 1 else 0)
            && (forall p: nat :: InputClaims(v.manifest.segments, p) == if p < |v.input| then 1 else 0)
  {
    var items := Repaired(s).items;
    RepairedCarries(s);
    var c := CutsOf(items, maxBytes);
    var input := InputOf(s, items, c, h);
    var segs := SegmentsOf(s, items, c, input, native, h);
    forall x: nat
      ensures SourceClaims(segs, x) == if x < |s.history| then 1 else 0
      ensures InputClaims(segs, x) == if x < |input| then 1 else 0
    {
      SegmentClaims(s, items, c, input, native, h, x);
    }
  }

  /** Retained plus omitted items equals the repaired item count. */
  lemma RetainedPlusOmitted<R>(s: Session, maxBytes: nat, native: R, h: Hash)
    requires Project(s, maxBytes, native, h).Ok?
    ensures var v := Project(s, maxBytes, native, h).value;
            (|v.input| - NoticeCount(v.manifest.segments)) + v.manifest.omittedItems == |Repaired(s).items|
  {
    var items := Repaired(s).items;
    var c := CutsOf(items, maxBytes);
    SegmentNotices(s, items, c, InputOf(s, items, c, h), native, h);
  }

  lemma AllContents<R>(s: Session, items: seq<ProjectedItem>, c: Cuts, input: seq<Value>, native: R, h: Hash, i: nat)
    requires Laid(items, c, input) && Ordered(items, s.history) && Sourced(items, |items|) == |s.history|
    requires input[..Kept(c)] == Values(items[c.base..c.epoch]) && input[LiveStart(c)..] == Values(items[c.live..])
    requires i < |SegmentsOf(s, items, c, input, native, h)|
    ensures var seg := SegmentsOf(s, items, c, input, native, h)[i];
            if i < Kept(c) then HoldsItsSource(s, seg, input, i) else TailHoldsItsSource(s, seg, input)
  {
    var segs := SegmentsOf(s, items, c, input, native, h);
    var stable := StableSegments(s, items, c, input, Kept(c), native, h);
    if i < Kept(c) {
      assert input[i] == input[..Kept(c)][i];
      StableContents(s, items, c, input, Kept(c), native, h, i);
      assert segs[i] == stable[i];
    } else {
      RestContents(s, items, c, input, native, h, segs[i]);
    }
  }

  /** A retained segment shows exactly the history it claims. */
  lemma SegmentsHoldTheirSource<R>(s: Session, maxBytes: nat, native: R, h: Hash, i: nat)
    requires Project(s, maxBytes, native, h).Ok?
    requires i < |Project(s, maxBytes, native, h).value.manifest.segments|
    ensures var v := Project(s, maxBytes, native, h).value;
            if i < v.manifest.stableInputItems then HoldsItsSource(s, v.manifest.segments[i], v.input, i)
            else TailHoldsItsSource(s, v.manifest.segments[i], v.input)
  {
    var items := Repaired(s).items;
    RepairedCarries(s);
    var c := CutsOf(items, maxBytes);
    var input := InputOf(s, items, c, h);
    InputPieces(s, items, c, h);
    AllContents(s, items, c, input, native, h, i);
  }

  lemma InputPieces(s: Session, items: seq<ProjectedItem>, c: Cuts, h: Hash)
    requires c.base <= c.epoch <= c.live <= |items|
    ensures var input := InputOf(s, items, c, h);
            && input[..Kept(c)] == Values(items[c.base..c.epoch])
            && input[Kept(c)..LiveStart(c)] == Notices(s, items, c, h)
            && input[LiveStart(c)..] == Values(items[c.live..])
  {
  }

  /** A kept item stands at its offset from the base. */
  lemma KeptAt(s: Session, items: seq<ProjectedItem>, c: Cuts, h: Hash, p: nat)
    requires c.base <= c.epoch <= c.live <= |items| && p < Kept(c)
    ensures p < |InputOf(s, items, c, h)| && InputOf(s, items, c, h)[p] == items[c.base + p].value
  {
    assert items[c.base..c.epoch][p] == items[c.base + p];
    assert InputOf(s, items, c, h)[p] == Values(items[c.base..c.epoch])[p];
  }

  /** A live item stands at its offset from the live cut, behind the notices. */
  lemma LiveAt(s: Session, items: seq<ProjectedItem>, c: Cuts, h: Hash, p: nat)
    requires c.base <= c.epoch <= c.live <= |items| && c.live + p < |items|
    ensures LiveStart(c) + p < |InputOf(s, items, c, h)| && InputOf(s, items, c, h)[LiveStart(c) + p] == items[c.live + p].value
  {
    InputPieces(s, items, c, h);
    assert InputOf(s, items, c, h)[LiveStart(c) + p] == InputOf(s, items, c, h)[LiveStart(c)..][p];
    assert items[c.live..][p] == items[c.live + p];
  }
}
