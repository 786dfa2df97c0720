/** Every projection fits its byte limit: the reserves make the final size check unreachable. */
module ProjectionBytes {
  import opened Options
  import opened Projection
  import Json

  /** Bytes of a list of items, each with its comma. */
  function Weight(vs: seq<Value>): nat {
    if vs == [] then 0 else Weight(vs[..|vs| - 1]) + Encoded(vs[|vs| - 1]) + 1
  }

  lemma {:induction false} WeightConcat(a: seq<Value>, b: seq<Value>)
    ensures Weight(a + b) == Weight(a) + Weight(b)
    decreases |b|
  {
    if b == [] {
      assert a + b == a;
    } else {
      var init := b[..|b| - 1];
      WeightConcat(a, init);
      assert (a + b)[..|a + b| - 1] == a + init;
    }
  }

  function Lengths(vs: seq<Value>): seq<nat> {
    seq(|vs|, i requires 0 <= i < |vs| => Encoded(vs[i]))
  }

  lemma {:induction false} SumIsWeight(vs: seq<Value>)
    ensures Json.Sum(Lengths(vs)) + |vs| == Weight(vs)
    decreases |vs|
  {
    if vs != [] {
      var init := vs[..|vs| - 1];
      SumIsWeight(init);
      assert Lengths(vs)[..|vs| - 1] == Lengths(init);
    }
  }

  /** The array's brackets and commas cost one byte more than one comma per item. */
  lemma InputBytesIs(vs: seq<Value>)
    ensures InputBytes(vs) == if vs == [] then 2 else Weight(vs) + 1
  {
    SumIsWeight(vs);
    assert Lengths(vs) == seq(|vs|, i requires 0 <= i < |vs| => Encoded(vs[i]));
  }

  lemma {:induction false} SizesMonotone(items: seq<ProjectedItem>, a: nat, b: nat)
    requires a <= b <= |items|
    ensures Sizes(items, a) + (b - a) <= Sizes(items, b)
    decreases b
  {
    if a < b { SizesMonotone(items, a, b - 1); }
  }

  lemma SpanSplits(items: seq<ProjectedItem>, a: nat, b: nat, c: nat)
    requires a <= b <= c <= |items|
    ensures Span(items, a, c) == Span(items, a, b) + Span(items, b, c)
    ensures Span(items, a, c) >= c - a
  {
    SizesMonotone(items, a, b);
    SizesMonotone(items, b, c);
    SizesMonotone(items, a, c);
  }

  lemma {:induction false} WeightIsSpan(items: seq<ProjectedItem>, a: nat, b: nat)
    requires a <= b <= |items|
    ensures Weight(Values(items[a..b])) == Span(items, a, b)
    decreases b
  {
    if a < b {
      WeightIsSpan(items, a, b - 1);
      SpanSplits(items, a, b - 1, b);
      assert Values(items[a..b])[..b - a - 1] == Values(items[a..b - 1]);
    }
  }

  /** What a suffix cut keeps fits its budget, even when nothing else would. */
  lemma {:induction false} SuffixFits(items: seq<ProjectedItem>, start: nat, end: nat, budget: nat, open: set<CallId>)
    requires start <= end <= |items|
    ensures Span(items, SuffixCut(items, start, end, budget, open), end) <= budget
    decreases end - start
  {
    if start < end && (Span(items, start, end) > budget || open != {}) {
      SuffixFits(items, start + 1, end, budget, Track(open, items[start].value));
    }
  }

  /** A vector never holds more than `isize::MAX` entries. */
  predicate Addressable(s: Session) {
    |s.history| < 0x4000_0000_0000_0000
  }

  /** Each history item adds itself and at most one placeholder. */
  lemma {:induction false} RepairGrowth(s: Session, k: nat)
    requires k <= |s.history|
    ensures var r := RepairUpTo(s, k);
            r.Repair? ==> |r.items| + |r.pending| <= 2 * k && |r.interrupted| + |r.pending| <= k
    decreases k
  {
    if k > 0 {
      RepairGrowth(s, k - 1);
      var item := s.history[k - 1];
      var before := RepairUpTo(s, k - 1);
      var after := RepairUpTo(s, k);
      if after.Repair? {
        var flushed := FlushBefore(s, before, k - 1);
        TrackGrowth(flushed.pending, item);
      }
    }
  }

  lemma TrackGrowth(open: set<CallId>, v: Value)
    ensures |Track(open, v)| <= |open| + 1
  {
    match v
    case Record(FunctionCall, Some(id), _, _, _) => AddOne(open, id);
    case Record(FunctionCallOutput, Some(id), _, _, _) => RemoveOne(open, id);
    case Placeholder(id) => RemoveOne(open, id);
    case _ =>
  }

  lemma AddOne(open: set<CallId>, id: CallId)
    ensures |open + {id}| <= |open| + 1
  {
    assert id in open ==> open + {id} == open;
  }

  lemma RemoveOne(open: set<CallId>, id: CallId)
    ensures |open - {id}| <= |open|
  {
    assert id !in open ==> open - {id} == open;
    assert id in open ==> open == (open - {id}) + {id};
  }

  lemma RepairedSize(s: Session)
    ensures Repaired(s).Repair? ==> |Repaired(s).items| <= 2 * |s.history|
  {
    RepairGrowth(s, |s.history|);
  }

  ghost predicate SourcesBelow(items: seq<ProjectedItem>, n: nat) {
    forall i :: 0 <= i < |items| && items[i].source.Some? ==> items[i].source.value < n
  }

  lemma FlushSources(s: Session, r: Repair, stable: bool, n: nat) returns (f: Repair)
    requires r.Repair? ==> SourcesBelow(r.items, n)
    ensures f == Flush(s, r, stable) && (f.Repair? ==> SourcesBelow(f.items, n))
  {
    f := Flush(s, r, stable);
    if f.Repair? {
      forall i | 0 <= i < |f.items| && f.items[i].source.Some? ensures f.items[i].source.value < n {
        assert i < |r.items| && f.items[i] == r.items[i];
      }
    }
  }

  lemma PushSources(s: Session, r: Repair, k: nat) returns (after: Repair)
    requires k < |s.history| && (r.Repair? ==> SourcesBelow(r.items, k))
    ensures after == Push(s, r, k) && (after.Repair? ==> SourcesBelow(after.items, k + 1))
  {
    after := Push(s, r, k);
  }

  /** Sources index the history, so a range end never passes it. */
  lemma {:induction false} SourcesInHistory(s: Session, k: nat) returns (r: Repair)
    requires k <= |s.history|
    ensures r == RepairUpTo(s, k) && (r.Repair? ==> SourcesBelow(r.items, k))
  {
    if k == 0 {
      r := RepairUpTo(s, 0);
    } else {
      r := SourcesInHistory(s, k - 1);
      if IsUser(s.history[k - 1]) { r := FlushSources(s, r, k - 1 <= Settled(s), k - 1); }
      r := PushSources(s, r, k - 1);
    }
  }

  lemma RepairedSources(s: Session) returns (r: Repair)
    ensures r == Repaired(s) && (r.Repair? ==> SourcesBelow(r.items, |s.history|))
  {
    r := SourcesInHistory(s, |s.history|);
    r := FlushSources(s, r, Settled(s) == |s.history|, |s.history|);
  }

  lemma {:induction false} SourceEndBounded(items: seq<ProjectedItem>, start: nat, end: nat, default: nat, bound: nat)
    requires start <= end <= |items| && default <= bound
    requires forall i :: 0 <= i < |items| && items[i].source.Some? ==> items[i].source.value < bound
    ensures SourceEnd(items, start, end, default) <= bound
    ensures SourceStart(items, start, end, default) <= bound
    decreases end
  {
    if start < end { SourceEndBounded(items, start, end - 1, default, bound); }
  }

  /** Each notice encodes to at most 2046 bytes, one comma below its reserve. */
  lemma NoticesFit(s: Session, items: seq<ProjectedItem>, c: Cuts, h: Hash)
    requires Addressable(s) && c.base <= c.epoch <= c.live <= |items| <= 2 * |s.history|
    requires forall i :: 0 <= i < |items| && items[i].source.Some? ==> items[i].source.value < |s.history|
    ensures forall v :: v in Notices(s, items, c, h) ==> Encoded(v) <= 2046
    ensures |Notices(s, items, c, h)| == (if c.base > 0 then 1 else 0) + (if c.live > c.epoch then 1 else 0)
  {
    var epochEnd := EpochEnd(items, c);
    SourceEndBounded(items, 0, c.epoch, 0, |s.history|);
    SourceEndBounded(items, 0, c.base, 0, |s.history|);
    SourceEndBounded(items, c.epoch, c.live, epochEnd, |s.history|);
    var from := SourceStart(items, c.epoch, c.live, epochEnd);
    SourceEndBounded(items, c.epoch, c.live, from, |s.history|);
    Json.WordDigits(c.base);
    Json.WordDigits(epochEnd);
    Json.WordDigits(SourceEnd(items, 0, c.base, 0));
    Json.WordDigits(c.live - c.epoch);
    Json.WordDigits(from);
    Json.WordDigits(SourceEnd(items, c.epoch, c.live, from));
  }

  lemma {:induction false} NoticeWeight(vs: seq<Value>)
    requires forall v :: v in vs ==> Encoded(v) <= 2046
    ensures Weight(vs) <= |vs| * 2047
    decreases |vs|
  {
    if vs != [] { NoticeWeight(vs[..|vs| - 1]); }
  }

  /** The reserve arithmetic, for any cuts the planner can return. */
  lemma CutsFit(items: seq<ProjectedItem>, maxBytes: nat)
    requires maxBytes >= MIN_BYTES
    ensures var c := CutsOf(items, maxBytes);
            Span(items, c.base, c.epoch) + Span(items, c.live, |items|)
            + ((if c.base > 0 then 1 else 0) + (if c.live > c.epoch then 1 else 0)) * 2047 + 1 <= maxBytes
  {
    var budget := AppendBudget(maxBytes);
    var c := CutsOf(items, maxBytes);
    var oversized := Span(items, c.epoch, |items|) > budget;
    if oversized {
      SuffixFits(items, c.epoch, |items|, SatSub(maxBytes, NOTICE_RESERVE * 2), {});
    }
    var reserved := if oversized then Span(items, c.live, |items|) else budget;
    var baseBudget := SatSub(SatSub(SatSub(maxBytes, reserved), NOTICE_RESERVE),
                             if c.live > c.epoch then NOTICE_RESERVE else 0);
    SuffixFits(items, 0, c.epoch, baseBudget, {});
  }

  lemma InputFits(s: Session, items: seq<ProjectedItem>, maxBytes: nat, h: Hash)
    requires Addressable(s) && maxBytes >= MIN_BYTES && |items| <= 2 * |s.history|
    requires forall i :: 0 <= i < |items| && items[i].source.Some? ==> items[i].source.value < |s.history|
    ensures InputBytes(InputOf(s, items, CutsOf(items, maxBytes), h)) <= maxBytes
  {
    var c := CutsOf(items, maxBytes);
    NoticesFit(s, items, c, h);
    CutsFit(items, maxBytes);
    NoticeWeight(Notices(s, items, c, h));
    InputWeight(s, items, c, h);
    InputBytesIs(InputOf(s, items, c, h));
  }

  lemma InputWeight(s: Session, items: seq<ProjectedItem>, c: Cuts, h: Hash)
    requires c.base <= c.epoch <= c.live <= |items|
    ensures Weight(InputOf(s, items, c, h))
            == Span(items, c.base, c.epoch) + Weight(Notices(s, items, c, h)) + Span(items, c.live, |items|)
  {
    var base, notices, live := Values(items[c.base..c.epoch]), Notices(s, items, c, h), Values(items[c.live..]);
    WeightConcat(base + notices, live);
    WeightConcat(base, notices);
    WeightIsSpan(items, c.base, c.epoch);
    WeightIsSpan(items, c.live, |items|);
    assert items[c.live..] == items[c.live..|items|];
  }

  /**
   The byte bound: for every history and every limit of at least 4096 bytes the encoded input fits,
   so the only failures are a limit below 4096 and a call the active request still owns.
   */
  lemma ProjectionFits<R>(s: Session, maxBytes: nat, native: R, h: Hash)
    requires Addressable(s)
    ensures Project(s, maxBytes, native, h) ==
            if maxBytes < MIN_BYTES then Err(Limit)
            else if Repaired(s).Blocked? then Err(PendingCall)
            else Ok(ViewOf(s, Repaired(s), maxBytes, native, h))
    ensures var p := Project(s, maxBytes, native, h);
            p.Ok? ==> InputBytes(p.value.input) <= maxBytes
  {
    var r := RepairedSources(s);
    if maxBytes >= MIN_BYTES && r.Repair? {
      RepairedSize(s);
      InputFits(s, r.items, maxBytes, h);
    }
  }

  /** Repair happens before every user item and at the end. */
  predicate FlushPoint(s: Session, k: nat)
    requires k <= |s.history|
  {
    k == |s.history| || IsUser(s.history[k])
  }

  /** At some repair point a call is open that the active request still owns. */
  ghost predicate OwnsOpenCall(s: Session, upTo: nat)
    requires upTo <= |s.history|
  {
    exists k, id :: 0 <= k < upTo && FlushPoint(s, k) && id in OpenCalls(s.history, k) && BelongsToActiveRequest(s, id)
  }

  lemma OwnsStep(s: Session, k: nat)
    requires 0 < k <= |s.history|
    ensures OwnsOpenCall(s, k) <==>
            OwnsOpenCall(s, k - 1)
            || (FlushPoint(s, k - 1) && exists id :: id in OpenCalls(s.history, k - 1) && BelongsToActiveRequest(s, id))
  {
    if OwnsOpenCall(s, k - 1) {
      var j, id :| 0 <= j < k - 1 && FlushPoint(s, j) && id in OpenCalls(s.history, j) && BelongsToActiveRequest(s, id);
      assert OwnsOpenCall(s, k);
    }
  }

  lemma {:induction false} RepairBlockedIff(s: Session, k: nat)
    requires k <= |s.history|
    ensures RepairUpTo(s, k).Blocked? <==> OwnsOpenCall(s, k)
    ensures RepairUpTo(s, k).Repair? ==> RepairUpTo(s, k).pending == OpenCalls(s.history, k)
  {
    if k > 0 {
      RepairBlockedIff(s, k - 1);
      OwnsStep(s, k);
    }
  }

  /** A projection is refused with `PendingCall` exactly when the active request owns an open call. */
  lemma PendingCallIff(s: Session)
    ensures Repaired(s).Blocked? <==>
            OwnsOpenCall(s, |s.history|)
            || exists id :: id in OpenCalls(s.history, |s.history|) && BelongsToActiveRequest(s, id)
  {
    RepairBlockedIff(s, |s.history|);
  }
}
