/** The projection as the harness runs it: loops over vectors and sets, proved against `Project`. */
module ProjectNative {
  import opened Options
  import opened Projection
  import IdOrder

  /** Drop items from the front, never inside a tool pair, until the rest fits. */
  method SuffixStart(items: seq<ProjectedItem>, sizes: seq<nat>, from: nat, end: nat, byteBudget: nat) returns (start: nat)
    requires from <= end <= |items| && |sizes| == |items| + 1
    requires forall i :: 0 <= i <= |items| ==> sizes[i] == Sizes(items, i)
    ensures start == SuffixCut(items, from, end, byteBudget, {})
  {
    var open: set<CallId> := {};
    start := from;
    while start < end && (SatSub(sizes[end], sizes[start]) > byteBudget || open != {})
      invariant from <= start <= end
      invariant SuffixCut(items, start, end, byteBudget, open) == SuffixCut(items, from, end, byteBudget, {})
    {
      open := Track(open, items[start].value);
      start := start + 1;
    }
  }

  /** Grow an epoch unit by unit; a unit that does not fit starts the next one. */
  method CacheEpochStart(items: seq<ProjectedItem>, sizes: seq<nat>, start: nat, end: nat, appendBudget: nat) returns (epochStart: nat)
    requires start <= end <= |items| && |sizes| == |items| + 1
    requires forall i :: 0 <= i <= |items| ==> sizes[i] == Sizes(items, i)
    ensures epochStart == EpochScan(items, start, end, appendBudget).start
  {
    epochStart := start;
    var epochBytes: nat, unitStart: nat := 0, start;
    var open: set<CallId> := {};
    for index := start to end
      invariant EpochScan(items, start, index, appendBudget) == Epoch(epochStart, epochBytes, unitStart, open)
    {
      open := Track(open, items[index].value);
      if open == {} {
        var unitEnd := index + 1;
        var unitBytes := SatSub(sizes[unitEnd], sizes[unitStart]);
        if epochBytes > 0 && epochBytes + unitBytes > appendBudget {
          epochStart := unitStart;
          epochBytes := unitBytes;
        } else {
          epochBytes := epochBytes + unitBytes;
        }
        unitStart := unitEnd;
      }
    }
  }

  /** Answer the pending calls in id order; stop at one the active request owns. */
  method RepairPending(s: Session, pending: set<CallId>, before: seq<CallId>, items: seq<ProjectedItem>, stable: bool)
    returns (ok: bool, interrupted: seq<CallId>, repaired: seq<ProjectedItem>)
    ensures ok <==> Flush(s, Repair(items, pending, before), stable).Repair?
    ensures ok ==> Flush(s, Repair(items, pending, before), stable) == Repair(repaired, {}, interrupted)
  {
    ok, interrupted, repaired := AnswerAll(s, pending, before, items, stable);
  }

  /** Answer the open calls in id order, unless the active request owns one. */
  method AnswerAll(s: Session, pending: set<CallId>, before: seq<CallId>, items: seq<ProjectedItem>, stable: bool)
    returns (ok: bool, interrupted: seq<CallId>, repaired: seq<ProjectedItem>)
    ensures ok <==> forall id :: id in pending ==> !BelongsToActiveRequest(s, id)
    ensures ok ==> interrupted == before + IdOrder.Sorted(pending) && repaired == items + Placeholders(IdOrder.Sorted(pending), stable)
  {
    ok, interrupted, repaired := true, before, items;
    ghost var ids := IdOrder.Sorted(pending);
    var rest := pending;
    while rest != {}
      invariant rest <= pending && Answered(interrupted, repaired, IdOrder.Sorted(rest), before, items, ids, stable)
      invariant forall id :: id in pending && id !in rest ==> !BelongsToActiveRequest(s, id)
      decreases |rest|
    {
      var id := IdOrder.Next(rest);
      if BelongsToActiveRequest(s, id) {
        ok := false;
        return;
      }
      TakeFirst(IdOrder.Sorted(rest), id, IdOrder.Sorted(rest - {id}), interrupted, repaired, stable);
      interrupted := interrupted + [id];
      repaired := repaired + [ProjectedItem(Placeholder(id), None, stable)];
      rest := rest - {id};
    }
  }

  /** The calls answered so far and those still to be make up the whole. */
  ghost predicate Answered(interrupted: seq<CallId>, repaired: seq<ProjectedItem>, left: seq<CallId>,
                           before: seq<CallId>, items: seq<ProjectedItem>, ids: seq<CallId>, stable: bool) {
    interrupted + left == before + ids && repaired + Placeholders(left, stable) == items + Placeholders(ids, stable)
  }

  lemma TakeFirst(ids: seq<CallId>, id: CallId, rest: seq<CallId>, interrupted: seq<CallId>, repaired: seq<ProjectedItem>, stable: bool)
    requires ids == [id] + rest
    ensures interrupted + ids == interrupted + [id] + rest
    ensures repaired + Placeholders(ids, stable)
            == repaired + [ProjectedItem(Placeholder(id), None, stable)] + Placeholders(rest, stable)
  {
  }

  /** Walk the history, repairing before every user item and at the end. */
  method RepairHistory(s: Session) returns (r: Repair)
    ensures r == Repaired(s)
  {
    var settled := Settled(s);
    var pending: set<CallId> := {};
    var ok: bool, items: seq<ProjectedItem>, interrupted: seq<CallId> := true, [], [];
    for index := 0 to |s.history|
      invariant RepairUpTo(s, index) == Repair(items, pending, interrupted)
    {
      var item := s.history[index];
      if IsUser(item) {
        ok, interrupted, items := RepairPending(s, pending, interrupted, items, index <= settled);
        if !ok {
          BlockedStays(s, index + 1, |s.history|);
          return Blocked;
        }
        pending := {};
      }
      pending := Track(pending, item);
      items := items + [ProjectedItem(item, Some(index), index < settled)];
    }
    ok, interrupted, items := RepairPending(s, pending, interrupted, items, settled == |s.history|);
    r := if ok then Repair(items, {}, interrupted) else Blocked;
  }

  lemma {:induction false} BlockedStays(s: Session, k: nat, n: nat)
    requires k <= n <= |s.history| && RepairUpTo(s, k).Blocked?
    ensures RepairUpTo(s, n).Blocked?
    decreases n
  {
    if k < n { BlockedStays(s, k, n - 1); }
  }

  method SizesOf(items: seq<ProjectedItem>) returns (sizes: seq<nat>)
    ensures |sizes| == |items| + 1
    ensures forall i :: 0 <= i <= |items| ==> sizes[i] == Sizes(items, i)
  {
    sizes := [0];
    for k := 0 to |items|
      invariant |sizes| == k + 1
      invariant forall i :: 0 <= i <= k ==> sizes[i] == Sizes(items, i)
    {
      sizes := sizes + [sizes[k] + Encoded(items[k].value) + 1];
    }
  }

  method PlanCuts(items: seq<ProjectedItem>, maxBytes: nat) returns (c: Cuts)
    ensures c == CutsOf(items, maxBytes)
  {
    var sizes := SizesOf(items);
    var n := |items|;
    var appendBudget := AppendBudget(maxBytes);
    var epochStart := CacheEpochStart(items, sizes, StablePrefix(items), n, appendBudget);
    var epochTailBytes := SatSub(sizes[n], sizes[epochStart]);
    var liveCut := epochStart;
    if epochTailBytes > appendBudget {
      liveCut := SuffixStart(items, sizes, epochStart, n, SatSub(maxBytes, NOTICE_RESERVE * 2));
    }
    var retainedLiveBytes := SatSub(sizes[n], sizes[liveCut]);
    var reservedTailBytes := if epochTailBytes > appendBudget then retainedLiveBytes else appendBudget;
    var baseBudget := SatSub(SatSub(SatSub(maxBytes, reservedTailBytes), NOTICE_RESERVE),
                             if liveCut > epochStart then NOTICE_RESERVE else 0);
    var baseStart := SuffixStart(items, sizes, 0, epochStart, baseBudget);
    c := Cuts(baseStart, epochStart, liveCut);
  }

  method BuildManifest<R>(s: Session, items: seq<ProjectedItem>, interrupted: seq<CallId>, c: Cuts, input: seq<Value>,
                         maxBytes: nat, native: R, h: Hash) returns (m: Manifest<R>)
    requires Laid(items, c, input)
    ensures m == Manifest(s.revision, h(s.history), maxBytes, c.base + (c.live - c.epoch), interrupted,
                          c.epoch - c.base, SegmentsOf(s, items, c, input, native, h), h(input))
  {
    var segments: seq<Segment<R>> := [];
    for k := 0 to Kept(c)
      invariant segments == StableSegments(s, items, c, input, k, native, h)
    {
      segments := segments
        + [MakeSegment(s, StableHistory, StableRange(items, c, c.base + k), Range(k, k + 1), input, native, h)];
    }
    segments := segments + OlderSegments(s, items, c, input, native, h);
    segments := segments + EpochSegments(s, items, c, input, native, h);
    segments := segments + TailSegments(s, items, c, input, native, h);
    m := Manifest(s.revision, h(s.history), maxBytes, c.base + (c.live - c.epoch), interrupted,
                  Kept(c), segments, h(input));
  }

  /** A view of the cut, its input and the manifest built for them. */
  lemma ViewIs<R>(s: Session, r: Repair, maxBytes: nat, native: R, h: Hash, c: Cuts, input: seq<Value>) returns (v: View<R>)
    requires r.Repair? && c == CutsOf(r.items, maxBytes) && input == InputOf(s, r.items, c, h)
    ensures Laid(r.items, c, input) && v == ViewOf(s, r, maxBytes, native, h) && v.input == input
    ensures v.manifest == Manifest(s.revision, h(s.history), maxBytes, c.base + (c.live - c.epoch), r.interrupted,
                                   c.epoch - c.base, SegmentsOf(s, r.items, c, input, native, h), h(input))
  {
    v := ViewOf(s, r, maxBytes, native, h);
  }

  method Assemble<R>(s: Session, r: Repair, maxBytes: nat, native: R, h: Hash) returns (view: Result<View<R>, ContextError>)
    requires r.Repair?
    ensures var v := ViewOf(s, r, maxBytes, native, h);
            view == if InputBytes(v.input) > maxBytes then Err(Limit) else Ok(v)
  {
    var c := PlanCuts(r.items, maxBytes);
    var input := InputOf(s, r.items, c, h);
    ghost var v := ViewIs(s, r, maxBytes, native, h, c, input);
    if InputBytes(input) > maxBytes { return Err(Limit); }
    var manifest := BuildManifest(s, r.items, r.interrupted, c, input, maxBytes, native, h);
    view := Ok(View(manifest, input));
  }

  /** `project_native`. */
  method Run<R>(s: Session, maxBytes: nat, native: R, h: Hash) returns (view: Result<View<R>, ContextError>)
    ensures view == Project(s, maxBytes, native, h)
  {
    if maxBytes < MIN_BYTES { return Err(Limit); }
    var r := RepairHistory(s);
    if r.Blocked? { return Err(PendingCall); }
    view := Assemble(s, r, maxBytes, native, h);
  }
}
