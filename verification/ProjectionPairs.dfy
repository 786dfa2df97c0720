/** A tool call and its output are kept or dropped together, and none is left dangling. */
module ProjectionPairs {
  import opened Options
  import opened Projection
  import opened ProjectionOpen
  import IdOrder
  import Sources = ProjectionSources
  import Cache = ProjectionCache

  /** Call ids are unique, and every output answers a call still open in its own turn. */
  ghost predicate WellFormed(h: seq<Value>) {
    && (forall i, j, id :: 0 <= i < j < |h| && IsCall(h[i], id) ==> !IsCall(h[j], id))
    && (forall j, id :: 0 <= j < |h| && IsOutput(h[j], id) ==> !IsUser(h[j]) && id in OpenCalls(h, j))
  }

  /** The settled boundary falls between turns: no call is open across it. */
  predicate SettledBetweenTurns(s: Session) {
    var k := Settled(s);
    k == |s.history| || IsUser(s.history[k]) || OpenCalls(s.history, k) == {}
  }

  // ----- The boundary is closed -----

  lemma {:induction false} SettledItemsStable(s: Session, k: nat)
    requires k <= Settled(s) && RepairUpTo(s, k).Repair?
    ensures forall i :: 0 <= i < |RepairUpTo(s, k).items| ==> RepairUpTo(s, k).items[i].stable
  {
    if k > 0 {
      RepairAppends(s, k - 1, k);
      SettledItemsStable(s, k - 1);
    }
  }

  /** A prefix of stable items, closed and followed by an unstable one, is the stable prefix. */
  lemma ClosedPrefix(part: seq<ProjectedItem>, items: seq<ProjectedItem>)
    requires part <= items && OpenItems(part, 0, |part|) == {}
    requires forall i :: 0 <= i < |part| ==> part[i].stable
    requires |part| < |items| ==> !items[|part|].stable
    ensures OpenItems(items, 0, StablePrefix(items)) == {}
  {
    StablePrefixIs(items, |part|);
    OpenFrame(part, items, 0, |part|);
  }

  lemma NextAfterUser(s: Session, k: nat, f: Repair, next: Repair)
    requires k == Settled(s) < |s.history| && IsUser(s.history[k]) && f == Flush(s, RepairUpTo(s, k), true)
    requires next == RepairUpTo(s, k + 1) && next.Repair?
    ensures f.Repair? && f.items <= next.items && |f.items| < |next.items| && !next.items[|f.items|].stable
  {
  }

  lemma FlushedAllStable(s: Session, r: Repair, f: Repair)
    requires f == Flush(s, r, true) && f.Repair? && forall i :: 0 <= i < |r.items| ==> r.items[i].stable
    ensures forall i :: 0 <= i < |f.items| ==> f.items[i].stable
  {
  }

  lemma BoundaryAtUser(s: Session)
    requires Repaired(s).Repair? && Settled(s) < |s.history| && IsUser(s.history[Settled(s)])
    ensures var items := Repaired(s).items; OpenItems(items, 0, StablePrefix(items)) == {}
  {
    var items, k := Repaired(s).items, Settled(s);
    RepairAppends(s, k + 1, |s.history|);
    RepairAppends(s, k, k + 1);
    var r := RepairUpTo(s, k);
    var f := Flush(s, r, true);
    SettledItemsStable(s, k);
    var _ := RepairTracked(s, k);
    FlushTracked(s, r, true);
    var next := RepairUpTo(s, k + 1);
    NextAfterUser(s, k, f, next);
    assert next.items <= items;
    FlushedAllStable(s, r, f);
    ClosedPrefix(f.items, items);
  }

  lemma BoundaryClosed(s: Session)
    requires Repaired(s).Repair? && SettledBetweenTurns(s)
    ensures var items := Repaired(s).items; OpenItems(items, 0, StablePrefix(items)) == {}
  {
    var items, k := Repaired(s).items, Settled(s);
    RepairAppends(s, k, |s.history|);
    var r := RepairUpTo(s, k);
    SettledItemsStable(s, k);
    if k == |s.history| {
      RepairedCloses(s);
      ClosedPrefix(items, items);
    } else if IsUser(s.history[k]) {
      BoundaryAtUser(s);
    } else {
      var _ := RepairTracked(s, k);
      PendingIsOpenCalls(s, k);
      Cache.RepairedUnstable(s, k);
      assert r.items <= items;
      ClosedPrefix(r.items, items);
    }
  }

  // ----- Every repaired output answers an open call -----

  ghost predicate Answering(items: seq<ProjectedItem>) {
    forall j, id :: 0 <= j < |items| && IsOutput(items[j].value, id) ==> id in OpenItems(items, 0, j)
  }

  lemma PushAnswering(items: seq<ProjectedItem>, p: ProjectedItem)
    requires Answering(items)
    requires forall id :: IsOutput(p.value, id) ==> id in OpenItems(items, 0, |items|)
    ensures Answering(items + [p])
  {
    var all := items + [p];
    forall j, id | 0 <= j < |all| && IsOutput(all[j].value, id) ensures id in OpenItems(all, 0, j) {
      OpenFrame(items, all, 0, j);
    }
  }

  lemma {:induction false} PlaceholdersAnswering(items: seq<ProjectedItem>, ids: seq<CallId>, k: nat, stable: bool)
    requires Answering(items) && k <= |ids|
    requires forall i :: 0 <= i < |ids| ==> ids[i] in OpenItems(items, 0, |items|)
    requires forall i, j :: 0 <= i < j < |ids| ==> IdOrder.Before(ids[i], ids[j])
    ensures Answering(items + Placeholders(ids, stable)[..k])
    decreases k
  {
    var ps := Placeholders(ids, stable);
    if k == 0 {
      assert items + ps[..k] == items;
    } else {
      PlaceholdersAnswering(items, ids, k - 1, stable);
      PlaceholdersClose(items, ids, k - 1, stable);
      var all := items + ps[..k - 1];
      OpenFrame(all, items + ps, 0, |all|);
      forall i | 0 <= i < k - 1 ensures ids[i] != ids[k - 1] { IdOrder.Irreflexive(ids[i]); }
      PushAnswering(all, ps[k - 1]);
      assert items + ps[..k] == all + [ps[k - 1]];
    }
  }

  /** The items answer only open calls, and the pending set is what they leave open. */
  ghost predicate Sound(r: Repair) { r.Repair? ==> Answering(r.items) && Tracked(r) }

  lemma FlushAnswering(s: Session, r: Repair, stable: bool) returns (f: Repair)
    requires Sound(r)
    ensures f == Flush(s, r, stable) && Sound(f)
  {
    f := Flush(s, r, stable);
    FlushTracked(s, r, stable);
    if f.Repair? {
      var ids := IdOrder.Sorted(r.pending);
      PlaceholdersAnswering(r.items, ids, |ids|, stable);
      assert Placeholders(ids, stable)[..|ids|] == Placeholders(ids, stable);
    }
  }

  lemma PushSound(s: Session, r: Repair, k: nat) returns (after: Repair)
    requires k < |s.history| && Sound(r)
    requires r.Repair? ==> forall id :: IsOutput(s.history[k], id) ==> id in r.pending
    ensures after == Push(s, r, k) && Sound(after)
  {
    after := PushTracked(s, r, k);
    if r.Repair? { PushAnswering(r.items, ProjectedItem(s.history[k], Some(k), k < Settled(s))); }
  }

  /** In a well-formed history an output's call is pending when the output comes. */
  lemma OutputsPending(s: Session, k: nat, r: Repair)
    requires k < |s.history| && WellFormed(s.history)
    requires r.Repair? ==> r.pending == OpenCalls(s.history, k)
    ensures var f := FlushBefore(s, r, k); f.Repair? ==> forall id :: IsOutput(s.history[k], id) ==> id in f.pending
  {
  }

  lemma {:induction false} RepairAnswering(s: Session, k: nat) returns (r: Repair)
    requires k <= |s.history| && WellFormed(s.history)
    ensures r == RepairUpTo(s, k) && Sound(r)
  {
    if k == 0 {
      r := RepairUpTo(s, 0);
    } else {
      r := RepairAnswering(s, k - 1);
      PendingIsOpenCalls(s, k - 1);
      OutputsPending(s, k - 1, r);
      if IsUser(s.history[k - 1]) { r := FlushAnswering(s, r, k - 1 <= Settled(s)); }
      r := PushSound(s, r, k - 1);
    }
  }

  ghost predicate CallsUnique(items: seq<ProjectedItem>) {
    forall i, j, id :: 0 <= i < j < |items| && IsCall(items[i].value, id) ==> !IsCall(items[j].value, id)
  }

  lemma RepairedCallsUnique(s: Session)
    requires Repaired(s).Repair? && WellFormed(s.history)
    ensures CallsUnique(Repaired(s).items)
  {
    var items := Repaired(s).items;
    Sources.RepairedCarries(s);
    forall i, j, id | 0 <= i < j < |items| && IsCall(items[i].value, id) ensures !IsCall(items[j].value, id) {
      CallOnce(items, s.history, i, j, id);
    }
  }

  lemma CallOnce(items: seq<ProjectedItem>, history: seq<Value>, i: nat, j: nat, id: CallId)
    requires Sources.Ordered(items, history) && i < j < |items| && IsCall(items[i].value, id)
    requires forall k, l :: 0 <= k < l < |history| && IsCall(history[k], id) ==> !IsCall(history[l], id)
    ensures !IsCall(items[j].value, id)
  {
    assert Sources.OrderedAt(items, history, i) && Sources.OrderedAt(items, history, j);
    Sources.SourcedMonotone(items, i + 1, j);
  }

  lemma RepairedAnswering(s: Session)
    requires Repaired(s).Repair? && WellFormed(s.history)
    ensures Answering(Repaired(s).items)
  {
    var r := RepairAnswering(s, |s.history|);
    var _ := FlushAnswering(s, r, Settled(s) == |s.history|);
  }

  // ----- Pairs do not straddle a closed cut -----

  /** An id is open exactly when some call of it has no output since. */
  lemma {:induction false} OpenIff(items: seq<ProjectedItem>, k: nat, id: CallId)
    requires k <= |items|
    ensures id in OpenItems(items, 0, k) <==>
            exists i :: 0 <= i < k && IsCall(items[i].value, id) && forall j :: i < j < k ==> !IsOutput(items[j].value, id)
    decreases k
  {
    if k > 0 {
      OpenIff(items, k - 1, id);
      var last := items[k - 1].value;
      if !IsCall(last, id) && id in OpenItems(items, 0, k) {
        var i :| 0 <= i < k - 1 && IsCall(items[i].value, id) && forall j :: i < j < k - 1 ==> !IsOutput(items[j].value, id);
        assert !IsOutput(last, id);
        assert forall j :: i < j < k ==> !IsOutput(items[j].value, id);
      }
    }
  }

  /** The one call an output answers. */
  lemma CallOf(items: seq<ProjectedItem>, j: nat, id: CallId) returns (i: nat)
    requires Answering(items) && j < |items| && IsOutput(items[j].value, id)
    ensures i < j && IsCall(items[i].value, id) && forall k :: i < k < j ==> !IsOutput(items[k].value, id)
  {
    OpenIff(items, j, id);
    i :| 0 <= i < j && IsCall(items[i].value, id) && forall k :: i < k < j ==> !IsOutput(items[k].value, id);
  }

  lemma OutputsUnique(items: seq<ProjectedItem>, j: nat, k: nat, id: CallId)
    requires Answering(items) && CallsUnique(items) && j < k < |items|
    requires IsOutput(items[j].value, id)
    ensures !IsOutput(items[k].value, id)
  {
    if IsOutput(items[k].value, id) {
      var a := CallOf(items, j, id);
      var b := CallOf(items, k, id);
    }
  }

  /** Below a closed cut every call has its output below the cut. */
  lemma OutputBelow(items: seq<ProjectedItem>, cut: nat, i: nat, id: CallId) returns (j: nat)
    requires i < cut <= |items| && OpenItems(items, 0, cut) == {} && IsCall(items[i].value, id)
    ensures i < j < cut && IsOutput(items[j].value, id)
  {
    OpenIff(items, cut, id);
    j :| i < j < cut && IsOutput(items[j].value, id);
  }

  /** A call and its output lie on the same side of a closed cut. */
  lemma SameSide(items: seq<ProjectedItem>, cut: nat, i: nat, j: nat, id: CallId)
    requires Answering(items) && CallsUnique(items) && cut <= |items| && OpenItems(items, 0, cut) == {}
    requires i < |items| && j < |items| && IsCall(items[i].value, id) && IsOutput(items[j].value, id)
    ensures i < j && (i < cut <==> j < cut)
  {
    var c := CallOf(items, j, id);
    assert c == i;
    if i < cut {
      var o := OutputBelow(items, cut, i, id);
    }
  }

  predicate Retained(c: Cuts, i: nat) { c.base <= i < c.epoch || c.live <= i }

  /** Everything the cuts need: unique calls, answered outputs, and nothing open at any cut. */
  ghost predicate Paired(items: seq<ProjectedItem>, c: Cuts) {
    && c.base <= c.epoch <= c.live <= |items|
    && Answering(items) && CallsUnique(items)
    && OpenItems(items, 0, c.base) == {} && OpenItems(items, 0, c.epoch) == {}
    && OpenItems(items, 0, c.live) == {} && OpenItems(items, 0, |items|) == {}
  }

  lemma ProjectionPaired(s: Session, maxBytes: nat)
    requires Repaired(s).Repair? && WellFormed(s.history) && SettledBetweenTurns(s)
    ensures Paired(Repaired(s).items, CutsOf(Repaired(s).items, maxBytes))
  {
    RepairedCallsUnique(s);
    RepairedAnswering(s);
    BoundaryClosed(s);
    RepairedCloses(s);
    CutsClosed(Repaired(s).items, maxBytes);
  }

  lemma KeptTogether(items: seq<ProjectedItem>, c: Cuts, i: nat, j: nat, id: CallId)
    requires Paired(items, c) && i < |items| && j < |items|
    requires IsCall(items[i].value, id) && IsOutput(items[j].value, id)
    ensures i < j && (Retained(c, i) <==> Retained(c, j))
    ensures i < c.epoch <==> j < c.epoch
  {
    SameSide(items, c.base, i, j, id);
    SameSide(items, c.epoch, i, j, id);
    SameSide(items, c.live, i, j, id);
  }

  // ----- Input positions -----

  function Position(c: Cuts, i: nat): nat
    requires c.base <= c.epoch <= c.live && Retained(c, i)
  {
    if i < c.epoch then i - c.base else LiveStart(c) + (i - c.live)
  }

  lemma PositionHolds(s: Session, items: seq<ProjectedItem>, c: Cuts, h: Hash, i: nat)
    requires c.base <= c.epoch <= c.live <= |items| && i < |items| && Retained(c, i)
    ensures Position(c, i) < |InputOf(s, items, c, h)| && InputOf(s, items, c, h)[Position(c, i)] == items[i].value
  {
    if i < c.epoch { Sources.KeptAt(s, items, c, h, i - c.base); } else { Sources.LiveAt(s, items, c, h, i - c.live); }
  }

  lemma ItemAt(s: Session, items: seq<ProjectedItem>, c: Cuts, h: Hash, p: nat) returns (i: nat)
    requires c.base <= c.epoch <= c.live <= |items| && p < |InputOf(s, items, c, h)|
    requires exists id :: IsCall(InputOf(s, items, c, h)[p], id) || IsOutput(InputOf(s, items, c, h)[p], id)
    ensures i < |items| && Retained(c, i) && Position(c, i) == p && items[i].value == InputOf(s, items, c, h)[p]
  {
    if p < Kept(c) {
      i := c.base + p;
      Sources.KeptAt(s, items, c, h, p);
    } else if p >= LiveStart(c) {
      i := c.live + (p - LiveStart(c));
      Sources.LiveAt(s, items, c, h, p - LiveStart(c));
    } else {
      NoticesArePlain(s, items, c, h, p);
      assert false;
    }
  }

  lemma NoticesArePlain(s: Session, items: seq<ProjectedItem>, c: Cuts, h: Hash, p: nat)
    requires c.base <= c.epoch <= c.live <= |items| && Kept(c) <= p < LiveStart(c)
    ensures forall id :: !IsCall(InputOf(s, items, c, h)[p], id) && !IsOutput(InputOf(s, items, c, h)[p], id)
  {
    Sources.InputPieces(s, items, c, h);
    var input := InputOf(s, items, c, h);
    assert input[p] == input[Kept(c)..LiveStart(c)][p - Kept(c)];
    assert input[p] in Notices(s, items, c, h);
  }

  /** Every call has exactly one output, after it, and every output exactly one call. */
  ghost predicate Whole(input: seq<Value>) {
    && (forall p, id :: 0 <= p < |input| && IsCall(input[p], id) ==>
          exists q :: p < q < |input| && IsOutput(input[q], id))
    && (forall q, id :: 0 <= q < |input| && IsOutput(input[q], id) ==>
          exists p :: 0 <= p < q && IsCall(input[p], id))
    && (forall p, q, id :: 0 <= p < q < |input| && IsCall(input[p], id) ==> !IsCall(input[q], id))
    && (forall p, q, id :: 0 <= p < q < |input| && IsOutput(input[p], id) ==> !IsOutput(input[q], id))
  }

  lemma CallKeepsOutput(s: Session, items: seq<ProjectedItem>, c: Cuts, h: Hash, p: nat, id: CallId) returns (q: nat)
    requires Paired(items, c) && p < |InputOf(s, items, c, h)| && IsCall(InputOf(s, items, c, h)[p], id)
    ensures p < q < |InputOf(s, items, c, h)| && IsOutput(InputOf(s, items, c, h)[q], id)
  {
    var i := ItemAt(s, items, c, h, p);
    var j := OutputBelow(items, |items|, i, id);
    KeptTogether(items, c, i, j, id);
    PositionHolds(s, items, c, h, j);
    q := Position(c, j);
  }

  lemma OutputKeepsCall(s: Session, items: seq<ProjectedItem>, c: Cuts, h: Hash, q: nat, id: CallId) returns (p: nat)
    requires Paired(items, c) && q < |InputOf(s, items, c, h)| && IsOutput(InputOf(s, items, c, h)[q], id)
    ensures p < q && IsCall(InputOf(s, items, c, h)[p], id)
  {
    var j := ItemAt(s, items, c, h, q);
    var i := CallOf(items, j, id);
    KeptTogether(items, c, i, j, id);
    PositionHolds(s, items, c, h, i);
    p := Position(c, i);
  }

  lemma InputUnique(s: Session, items: seq<ProjectedItem>, c: Cuts, h: Hash, p: nat, q: nat, id: CallId)
    requires Paired(items, c) && p < q < |InputOf(s, items, c, h)|
    ensures IsCall(InputOf(s, items, c, h)[p], id) ==> !IsCall(InputOf(s, items, c, h)[q], id)
    ensures IsOutput(InputOf(s, items, c, h)[p], id) ==> !IsOutput(InputOf(s, items, c, h)[q], id)
  {
    var input := InputOf(s, items, c, h);
    if (IsCall(input[p], id) && IsCall(input[q], id)) || (IsOutput(input[p], id) && IsOutput(input[q], id)) {
      var i := ItemAt(s, items, c, h, p);
      var j := ItemAt(s, items, c, h, q);
      assert i < j;
      if IsOutput(input[p], id) { OutputsUnique(items, i, j, id); }
    }
  }

  lemma InputWhole(s: Session, items: seq<ProjectedItem>, c: Cuts, h: Hash)
    requires Paired(items, c)
    ensures Whole(InputOf(s, items, c, h))
  {
    var input := InputOf(s, items, c, h);
    forall p, id | 0 <= p < |input| && IsCall(input[p], id) ensures exists q :: p < q < |input| && IsOutput(input[q], id) {
      var q := CallKeepsOutput(s, items, c, h, p, id);
    }
    forall q, id | 0 <= q < |input| && IsOutput(input[q], id) ensures exists p :: 0 <= p < q && IsCall(input[p], id) {
      var p := OutputKeepsCall(s, items, c, h, q, id);
    }
    forall p, q, id | 0 <= p < q < |input|
      ensures IsCall(input[p], id) ==> !IsCall(input[q], id)
      ensures IsOutput(input[p], id) ==> !IsOutput(input[q], id)
    {
      InputUnique(s, items, c, h, p, q, id);
    }
  }

  // ----- Interrupted calls -----

  ghost predicate Unanswered(h: seq<Value>, k: nat, id: CallId)
    requires k <= |h|
  {
    (exists i :: 0 <= i < k && IsCall(h[i], id)) && forall j :: 0 <= j < k ==> !IsOutput(h[j], id)
  }

  lemma {:induction false} OpenIsCalled(h: seq<Value>, k: nat, id: CallId)
    requires k <= |h| && id in OpenCalls(h, k)
    ensures exists i :: 0 <= i < k && IsCall(h[i], id)
    decreases k
  {
    if IsCall(h[k - 1], id) {
    } else {
      OpenIsCalled(h, k - 1, id);
    }
  }

  ghost predicate InterruptedAre(r: Repair, h: seq<Value>, k: nat)
    requires k <= |h|
  {
    r.Repair? ==>
      && (forall id :: (id in r.interrupted || id in r.pending) <==> Unanswered(h, k, id))
      && (forall id :: id in r.interrupted ==> id !in r.pending)
      && (forall i, j :: 0 <= i < j < |r.interrupted| ==> r.interrupted[i] != r.interrupted[j])
  }

  lemma FlushInterrupted(s: Session, r: Repair, stable: bool, k: nat)
    requires k <= |s.history| && InterruptedAre(r, s.history, k)
    ensures InterruptedAre(Flush(s, r, stable), s.history, k)
  {
    var f := Flush(s, r, stable);
    if f.Repair? {
      var ids := IdOrder.Sorted(r.pending);
      forall i, j | 0 <= i < j < |ids| ensures ids[i] != ids[j] { IdOrder.Irreflexive(ids[i]); }
      assert forall i :: 0 <= i < |ids| ==> ids[i] in r.pending;
    }
  }

  /** How one history item changes what is unanswered. */
  lemma UnansweredStep(h: seq<Value>, k: nat, id: CallId)
    requires 0 < k <= |h| && WellFormed(h)
    ensures Unanswered(h, k, id) <==>
            if IsCall(h[k - 1], id) then true
            else if IsOutput(h[k - 1], id) then false
            else Unanswered(h, k - 1, id)
  {
    if IsCall(h[k - 1], id) {
      forall j | 0 <= j < k ensures !IsOutput(h[j], id) {
        if IsOutput(h[j], id) { OpenIsCalled(h, j, id); }
      }
    } else if Unanswered(h, k - 1, id) && !IsOutput(h[k - 1], id) {
      var i :| 0 <= i < k - 1 && IsCall(h[i], id);
    }
  }

  lemma PushInterrupted(s: Session, r: Repair, k: nat) returns (after: Repair)
    requires k < |s.history| && WellFormed(s.history) && InterruptedAre(r, s.history, k)
    requires r.Repair? ==> forall id :: IsOutput(s.history[k], id) ==> id in r.pending
    ensures after == Push(s, r, k) && InterruptedAre(after, s.history, k + 1)
  {
    var h := s.history;
    after := Push(s, r, k);
    if r.Repair? {
      var pending := Track(r.pending, h[k]);
      forall id ensures (id in r.interrupted || id in pending) <==> Unanswered(h, k + 1, id) {
        UnansweredStep(h, k + 1, id);
      }
      forall id | id in r.interrupted ensures !IsCall(h[k], id) {
        assert Unanswered(h, k, id);
        var i :| 0 <= i < k && IsCall(h[i], id);
      }
    }
  }

  lemma FlushBeforeInterrupted(s: Session, r: Repair, k: nat) returns (f: Repair)
    requires k < |s.history| && WellFormed(s.history) && InterruptedAre(r, s.history, k)
    requires r.Repair? ==> r.pending == OpenCalls(s.history, k)
    ensures f == FlushBefore(s, r, k) && InterruptedAre(f, s.history, k)
    ensures f.Repair? ==> forall id :: IsOutput(s.history[k], id) ==> id in f.pending
  {
    f := FlushBefore(s, r, k);
    FlushInterrupted(s, r, k <= Settled(s), k);
  }

  lemma {:induction false} RepairInterrupted(s: Session, k: nat) returns (r: Repair)
    requires k <= |s.history| && WellFormed(s.history)
    ensures r == RepairUpTo(s, k) && InterruptedAre(r, s.history, k)
  {
    if k == 0 {
      r := RepairUpTo(s, 0);
    } else {
      r := RepairInterrupted(s, k - 1);
      PendingIsOpenCalls(s, k - 1);
      r := FlushBeforeInterrupted(s, r, k - 1);
      r := PushInterrupted(s, r, k - 1);
    }
  }

  /** The interrupted list names exactly the unanswered calls, each once. */
  lemma InterruptedExact(s: Session)
    requires WellFormed(s.history) && Repaired(s).Repair?
    ensures var interrupted := Repaired(s).interrupted;
            && (forall id :: id in interrupted <==> Unanswered(s.history, |s.history|, id))
            && (forall i, j :: 0 <= i < j < |interrupted| ==> interrupted[i] != interrupted[j])
  {
    var r := RepairInterrupted(s, |s.history|);
    FlushInterrupted(s, r, Settled(s) == |s.history|, |s.history|);
  }

  /** Each call is kept or dropped with its output. */
  lemma KeptOrDroppedTogether(s: Session, maxBytes: nat, i: nat, j: nat, id: CallId)
    requires WellFormed(s.history) && SettledBetweenTurns(s) && Repaired(s).Repair?
    requires i < |Repaired(s).items| && j < |Repaired(s).items|
    requires IsCall(Repaired(s).items[i].value, id) && IsOutput(Repaired(s).items[j].value, id)
    ensures var c := CutsOf(Repaired(s).items, maxBytes); i < j && (Retained(c, i) <==> Retained(c, j))
  {
    ProjectionPaired(s, maxBytes);
    KeptTogether(Repaired(s).items, CutsOf(Repaired(s).items, maxBytes), i, j, id);
  }

  /**
   Pair atomicity: the input of a successful projection of a well-formed history leaves no call
   unanswered and no output orphaned, and its manifest lists exactly the unanswered calls.
   */
  lemma PairAtomicity<R>(s: Session, maxBytes: nat, native: R, h: Hash)
    requires WellFormed(s.history) && SettledBetweenTurns(s)
    requires Project(s, maxBytes, native, h).Ok?
    ensures Whole(Project(s, maxBytes, native, h).value.input)
    ensures var interrupted := Project(s, maxBytes, native, h).value.manifest.interrupted;
            && (forall id :: id in interrupted <==> Unanswered(s.history, |s.history|, id))
            && (forall i, j :: 0 <= i < j < |interrupted| ==> interrupted[i] != interrupted[j])
  {
    InterruptedExact(s);
    ProjectionPaired(s, maxBytes);
    InputWhole(s, Repaired(s).items, CutsOf(Repaired(s).items, maxBytes), h);
  }
}
