/** The model input only grows within a cache epoch, and epochs are amortized over the live bytes. */
module ProjectionCache {
  import opened Options
  import opened Projection
  import opened ProjectionOpen
  import opened ProjectionBytes
  import opened Multiples
  import IdOrder

  /** `later` is `earlier` with items appended and the same settled boundary, nothing open in between. */
  ghost predicate Extends(earlier: Session, later: Session) {
    && earlier.id == later.id
    && earlier.history <= later.history
    && Settled(earlier) == Settled(later)
    && OpenCalls(earlier.history, |earlier.history|) == {}
  }

  // ----- The repaired items are a prefix -----

  lemma {:induction false} RepairAgrees(a: Session, b: Session, k: nat)
    requires a.history <= b.history && Settled(a) == Settled(b) && k <= |a.history|
    requires RepairUpTo(a, k).Repair? && RepairUpTo(b, k).Repair?
    ensures RepairUpTo(a, k) == RepairUpTo(b, k)
  {
    if k > 0 {
      RepairAppends(a, k - 1, k);
      RepairAppends(b, k - 1, k);
      RepairAgrees(a, b, k - 1);
      assert a.history[k - 1] == b.history[k - 1];
    }
  }

  lemma ItemsExtend(a: Session, b: Session)
    requires Extends(a, b) && Repaired(a).Repair? && Repaired(b).Repair?
    ensures RepairUpTo(b, |a.history|).Repair? && RepairUpTo(b, |a.history|).pending == {}
    ensures Repaired(a).items == RepairUpTo(b, |a.history|).items <= Repaired(b).items
  {
    RepairAppends(b, |a.history|, |b.history|);
    RepairAgrees(a, b, |a.history|);
    PendingIsOpenCalls(a, |a.history|);
    assert Repaired(a).items == RepairUpTo(a, |a.history|).items;
  }

  // ----- The stable boundary does not move -----

  /** From index `m` on nothing is stable. */
  ghost predicate UnstableFrom(items: seq<ProjectedItem>, m: nat) {
    m <= |items| && forall i :: m <= i < |items| ==> !items[i].stable
  }

  lemma FlushUnstable(s: Session, r: Repair, stable: bool, m: nat) returns (f: Repair)
    requires r.Repair? && UnstableFrom(r.items, m) && (stable ==> r.pending == {})
    ensures f == Flush(s, r, stable) && (f.Repair? ==> UnstableFrom(f.items, m))
  {
    f := Flush(s, r, stable);
    if f.Repair? {
      var added := Placeholders(IdOrder.Sorted(r.pending), stable);
      assert f.items == r.items + added;
      forall i | m <= i < |f.items| ensures !f.items[i].stable {
        if i >= |r.items| { assert f.items[i] == added[i - |r.items|]; }
      }
    }
  }

  lemma PushUnstable(s: Session, r: Repair, k: nat, m: nat) returns (after: Repair)
    requires r.Repair? && Settled(s) <= k < |s.history| && UnstableFrom(r.items, m)
    ensures after == Push(s, r, k) && UnstableFrom(after.items, m)
  {
    after := Push(s, r, k);
  }

  lemma StepUnstable(s: Session, r: Repair, n: nat, k: nat, m: nat) returns (after: Repair)
    requires r.Repair? && Settled(s) <= k <= n < |s.history| && UnstableFrom(r.items, m) && RepairStep(s, r, n).Repair?
    requires k == n ==> r.pending == {}
    ensures after == RepairStep(s, r, n) && UnstableFrom(after.items, m)
  {
    after := r;
    if IsUser(s.history[n]) { after := FlushUnstable(s, r, n <= Settled(s), m); }
    after := PushUnstable(s, after, n, m);
  }

  /** Items repaired after the boundary are not stable, once nothing is open there. */
  lemma {:induction false} AppendedUnstable(s: Session, k: nat, n: nat, base: Repair) returns (r: Repair)
    requires Settled(s) <= k <= n <= |s.history| && RepairUpTo(s, n).Repair?
    requires base == RepairUpTo(s, k) && base.Repair? && base.pending == {}
    ensures r == RepairUpTo(s, n) && UnstableFrom(r.items, |base.items|)
    ensures n == k ==> r == base
    decreases n
  {
    if k == n {
      r := base;
    } else {
      RepairAppends(s, n - 1, n);
      r := AppendedUnstable(s, k, n - 1, base);
      r := StepUnstable(s, r, n - 1, k, |base.items|);
    }
  }

  lemma RepairedUnstable(s: Session, k: nat)
    requires Settled(s) <= k <= |s.history|
    requires Repaired(s).Repair? && RepairUpTo(s, k).Repair? && RepairUpTo(s, k).pending == {}
    ensures |RepairUpTo(s, k).items| <= |Repaired(s).items|
    ensures forall i :: |RepairUpTo(s, k).items| <= i < |Repaired(s).items| ==> !Repaired(s).items[i].stable
  {
    var base := RepairUpTo(s, k);
    var r := AppendedUnstable(s, k, |s.history|, base);
    var _ := FlushUnstable(s, r, Settled(s) == |s.history|, |base.items|);
  }

  lemma {:induction false} StablePrefixFrame(a: seq<ProjectedItem>, b: seq<ProjectedItem>)
    requires a <= b && (|a| < |b| ==> !b[|a|].stable)
    ensures StablePrefix(a) == StablePrefix(b)
    decreases |a|
  {
    if a != [] { StablePrefixFrame(a[1..], b[1..]); }
  }

  // ----- Scans agree on a common prefix -----

  lemma {:induction false} SizesFrame(a: seq<ProjectedItem>, b: seq<ProjectedItem>, k: nat)
    requires a <= b && k <= |a|
    ensures Sizes(a, k) == Sizes(b, k)
  {
    if k > 0 { SizesFrame(a, b, k - 1); }
  }

  lemma {:induction false} EpochScanFrame(a: seq<ProjectedItem>, b: seq<ProjectedItem>, start: nat, end: nat, budget: nat)
    requires a <= b && start <= end <= |a|
    ensures EpochScan(a, start, end, budget) == EpochScan(b, start, end, budget)
    decreases end
  {
    if start < end {
      EpochScanFrame(a, b, start, end - 1, budget);
      var e := EpochScan(a, start, end - 1, budget);
      SizesFrame(a, b, e.unitStart);
      SizesFrame(a, b, end);
    }
  }

  lemma {:induction false} SuffixCutFrame(a: seq<ProjectedItem>, b: seq<ProjectedItem>, start: nat, end: nat, budget: nat, open: set<CallId>)
    requires a <= b && start <= end <= |a|
    ensures SuffixCut(a, start, end, budget, open) == SuffixCut(b, start, end, budget, open)
    decreases end - start
  {
    SizesFrame(a, b, start);
    SizesFrame(a, b, end);
    if start < end {
      SuffixCutFrame(a, b, start + 1, end, budget, Track(open, a[start].value));
    }
  }

  lemma {:induction false} SourceEndFrame(a: seq<ProjectedItem>, b: seq<ProjectedItem>, end: nat)
    requires a <= b && end <= |a|
    ensures SourceEnd(a, 0, end, 0) == SourceEnd(b, 0, end, 0)
    decreases end
  {
    if end > 0 {
      SourceEndFrame(a, b, end - 1);
      assert SourceFree(a, 0, end - 1) <==> SourceFree(b, 0, end - 1);
    }
  }

  // ----- The epoch scan -----

  /** The epoch start only moves forward as the scan goes on. */
  lemma {:induction false} EpochForward(items: seq<ProjectedItem>, start: nat, m: nat, n: nat, budget: nat)
    requires start <= m <= n <= |items|
    ensures EpochScan(items, start, m, budget).start <= EpochScan(items, start, n, budget).start
    decreases n
  {
    if m < n { EpochForward(items, start, m, n - 1, budget); }
  }

  /** The scan's byte count is the bytes of the epoch's complete units. */
  lemma {:induction false} EpochBytes(items: seq<ProjectedItem>, start: nat, end: nat, budget: nat)
    requires start <= end <= |items|
    ensures var e := EpochScan(items, start, end, budget); e.bytes == Span(items, e.start, e.unitStart)
    decreases end
  {
    if start < end {
      EpochBytes(items, start, end - 1, budget);
      var e := EpochScan(items, start, end - 1, budget);
      SpanSplits(items, e.start, e.unitStart, end);
    }
  }

  /** An epoch that already holds a unit and takes another without moving fits the budget. */
  lemma {:induction false} UnmovedFits(items: seq<ProjectedItem>, start: nat, m: nat, n: nat, budget: nat)
    requires start <= m <= n <= |items|
    requires var e := EpochScan(items, start, m, budget); e.bytes > 0 && e.unitStart == m
    requires EpochScan(items, start, m, budget).start == EpochScan(items, start, n, budget).start
    ensures var e := EpochScan(items, start, n, budget);
            e.bytes > 0 && m <= e.unitStart && (m < e.unitStart ==> e.bytes <= budget)
    decreases n
  {
    if m < n {
      EpochForward(items, start, m, n - 1, budget);
      EpochForward(items, start, n - 1, n, budget);
      UnmovedFits(items, start, m, n - 1, budget);
      var e := EpochScan(items, start, n - 1, budget);
      SpanSplits(items, e.unitStart, n, n);
    }
  }

  /** The scan state at the end of the repaired items: everything is closed and counted. */
  lemma ScanAtEnd(s: Session, maxBytes: nat)
    requires Repaired(s).Repair?
    ensures var items := Repaired(s).items;
            var e := EpochScan(items, StablePrefix(items), |items|, AppendBudget(maxBytes));
            e.open == {} && e.unitStart == |items| && e.bytes == Span(items, e.start, |items|)
            && e.start == CutsOf(items, maxBytes).epoch
  {
    var items := Repaired(s).items;
    var budget := AppendBudget(maxBytes);
    RepairedCloses(s);
    OpenShrinks(items, 0, StablePrefix(items), |items|);
    EpochScanOpen(items, StablePrefix(items), |items|, budget);
    EpochBytes(items, StablePrefix(items), |items|, budget);
  }

  // ----- Append-only input -----

  ghost function EpochOf(s: Session, maxBytes: nat): nat
    requires Repaired(s).Repair?
  {
    CutsOf(Repaired(s).items, maxBytes).epoch
  }

  ghost function TailBytes(s: Session, maxBytes: nat): nat
    requires Repaired(s).Repair?
  {
    Span(Repaired(s).items, EpochOf(s, maxBytes), |Repaired(s).items|)
  }

  /** How two projections of a growing session relate: same boundary, epoch only forward. */
  lemma EpochsRelate(a: Session, b: Session, maxBytes: nat)
    requires Extends(a, b) && Repaired(a).Repair? && Repaired(b).Repair?
    ensures Repaired(a).items <= Repaired(b).items
    ensures StablePrefix(Repaired(a).items) == StablePrefix(Repaired(b).items)
    ensures EpochOf(a, maxBytes) <= EpochOf(b, maxBytes)
    ensures var items := Repaired(b).items; var n := |Repaired(a).items|;
            n <= |items| && StablePrefix(items) <= n
            && EpochScan(items, StablePrefix(items), n, AppendBudget(maxBytes))
               == EpochScan(Repaired(a).items, StablePrefix(items), n, AppendBudget(maxBytes))
  {
    var x, y := Repaired(a).items, Repaired(b).items;
    ItemsExtend(a, b);
    RepairedUnstable(b, |a.history|);
    StablePrefixFrame(x, y);
    EpochScanFrame(x, y, StablePrefix(x), |x|, AppendBudget(maxBytes));
    EpochForward(y, StablePrefix(x), |x|, |y|, AppendBudget(maxBytes));
  }

  /**
   The cached prefix is append-only: while the epoch has not moved, the earlier input (base, notice
   and tail) is an exact prefix of the later one, if the tail was not empty before or fits the append
   budget after. `ProjectionRewrite.AppendOnlyIff` settles the remaining case.
   */
  lemma AppendOnly<R>(a: Session, b: Session, maxBytes: nat, native: R, h: Hash)
    requires Extends(a, b)
    requires Project(a, maxBytes, native, h).Ok? && Project(b, maxBytes, native, h).Ok?
    requires EpochOf(a, maxBytes) == EpochOf(b, maxBytes)
    requires |Repaired(a).items| == |Repaired(b).items|
             || TailBytes(a, maxBytes) > 0 || TailBytes(b, maxBytes) <= AppendBudget(maxBytes)
    ensures Project(a, maxBytes, native, h).value.input <= Project(b, maxBytes, native, h).value.input
  {
    InputAppends(a, b, maxBytes, h);
  }

  lemma InputAppends(a: Session, b: Session, maxBytes: nat, h: Hash)
    requires Extends(a, b) && Repaired(a).Repair? && Repaired(b).Repair?
    requires EpochOf(a, maxBytes) == EpochOf(b, maxBytes)
    requires |Repaired(a).items| == |Repaired(b).items|
             || TailBytes(a, maxBytes) > 0 || TailBytes(b, maxBytes) <= AppendBudget(maxBytes)
    ensures InputOf(a, Repaired(a).items, CutsOf(Repaired(a).items, maxBytes), h)
            <= InputOf(b, Repaired(b).items, CutsOf(Repaired(b).items, maxBytes), h)
  {
    var x, y := Repaired(a).items, Repaired(b).items;
    var budget := AppendBudget(maxBytes);
    EpochsRelate(a, b, maxBytes);
    ScanAtEnd(a, maxBytes);
    ScanAtEnd(b, maxBytes);
    var stable, epoch := StablePrefix(x), EpochOf(a, maxBytes);
    if |x| == |y| {
      assert x == y;
    } else {
      if TailBytes(a, maxBytes) > 0 {
        UnmovedFits(y, stable, |x|, |y|, budget);
      }
      SizesFrame(x, y, epoch);
      SizesFrame(x, y, |x|);
      SpanSplits(y, epoch, |x|, |y|);
      SuffixCutFrame(x, y, 0, epoch, SatSub(SatSub(maxBytes, budget), NOTICE_RESERVE), {});
    }
    SamePrefix(a, b, x, y, CutsOf(x, maxBytes), CutsOf(y, maxBytes), h);
  }

  /** With equal cuts and no live omission, the inputs differ only by what was appended. */
  lemma SamePrefix(a: Session, b: Session, x: seq<ProjectedItem>, y: seq<ProjectedItem>, c: Cuts, d: Cuts, h: Hash)
    requires a.id == b.id && a.history <= b.history && x <= y
    requires c == d && c.base <= c.epoch <= c.live <= |x| && (c.live == c.epoch || x == y)
    requires Repaired(a).Repair? && x == Repaired(a).items
    ensures InputOf(a, x, c, h) <= InputOf(b, y, d, h)
  {
    SameNotices(a, b, x, y, c, h);
    assert x[c.base..c.epoch] == y[c.base..c.epoch];
    assert Values(x[c.live..]) <= Values(y[c.live..]);
  }

  lemma SameNotices(a: Session, b: Session, x: seq<ProjectedItem>, y: seq<ProjectedItem>, c: Cuts, h: Hash)
    requires a.id == b.id && a.history <= b.history && x <= y
    requires c.base <= c.epoch <= c.live <= |x| && (c.live == c.epoch || x == y)
    requires Repaired(a).Repair? && x == Repaired(a).items
    ensures Notices(a, x, c, h) == Notices(b, y, c, h)
  {
    var _ := RepairedSources(a);
    SourceEndBounded(x, 0, c.epoch, 0, |a.history|);
    SourceEndFrame(x, y, c.epoch);
    SourceEndFrame(x, y, c.base);
    var end := EpochEnd(x, c);
    assert a.history[..end] == b.history[..end];
  }

  /** Inside the unit being scanned something is always open. */
  lemma {:induction false} UnitInside(items: seq<ProjectedItem>, start: nat, end: nat, budget: nat)
    requires start <= end <= |items|
    ensures forall k :: EpochScan(items, start, end, budget).unitStart < k <= end ==> OpenItems(items, start, k) != {}
    decreases end
  {
    if start < end {
      UnitInside(items, start, end - 1, budget);
      EpochScanOpen(items, start, end - 1, budget);
    }
  }

  /** An epoch exceeds the append budget only as one indivisible unit. */
  lemma {:induction false} OversizedIsOneUnit(items: seq<ProjectedItem>, start: nat, end: nat, budget: nat)
    requires start <= end <= |items|
    requires EpochScan(items, start, end, budget).bytes > budget
    ensures var e := EpochScan(items, start, end, budget);
            forall k :: e.start < k < e.unitStart ==> OpenItems(items, start, k) != {}
    decreases end
  {
    var before, e := EpochScan(items, start, end - 1, budget), EpochScan(items, start, end, budget);
    EpochBytes(items, start, end - 1, budget);
    if e == before.(open := e.open) {
      OversizedIsOneUnit(items, start, end - 1, budget);
    } else {
      UnitInside(items, start, end - 1, budget);
      SpanSplits(items, before.start, before.unitStart, before.unitStart);
      assert e.start == before.unitStart;
    }
  }

  // ----- Amortization -----

  /** How often the epoch start moves during the scan. */
  function Rebases(items: seq<ProjectedItem>, start: nat, end: nat, budget: nat): nat
    requires start <= end <= |items|
    decreases end
  {
    if start == end then 0
    else Rebases(items, start, end - 1, budget)
         + Moved(EpochScan(items, start, end - 1, budget), EpochScan(items, start, end, budget))
  }

  /** One if the epoch start differs. */
  function Moved(e: Epoch, n: Epoch): nat { if n.start != e.start then 1 else 0 }

  /** One step either stays in the epoch or starts a new one that would not have fitted. */
  lemma EpochMove(items: seq<ProjectedItem>, start: nat, end: nat, budget: nat)
    requires start < end <= |items|
    ensures var e, n := EpochScan(items, start, end - 1, budget), EpochScan(items, start, end, budget);
            if n.start == e.start then n.bytes >= e.bytes
            else n.start == e.unitStart && e.bytes + n.bytes > budget
  {
    var e := EpochScan(items, start, end - 1, budget);
    EpochBytes(items, start, end - 1, budget);
    SpanSplits(items, e.start, e.start, e.unitStart);
  }

  lemma RebasesStep(items: seq<ProjectedItem>, start: nat, end: nat, budget: nat)
    requires start < end <= |items|
    ensures Rebases(items, start, end, budget)
            == Rebases(items, start, end - 1, budget) + Moved(EpochScan(items, start, end - 1, budget), EpochScan(items, start, end, budget))
  {
  }

  lemma Payment(budget: nat, r: nat, closed: nat, bytes: nat, r': nat, closed': nat, bytes': nat, moved: bool)
    requires Times(r, budget) <= 2 * closed + bytes
    requires if moved then closed' == closed + bytes && bytes + bytes' > budget else closed' == closed && bytes' >= bytes
    requires r' == r + if moved then 1 else 0
    ensures Times(r', budget) <= 2 * closed' + bytes'
  {
  }

  lemma PaidStep(items: seq<ProjectedItem>, start: nat, end: nat, budget: nat, e: Epoch, n: Epoch, r: nat, r': nat)
    requires start < end <= |items|
    requires e == EpochScan(items, start, end - 1, budget) && n == EpochScan(items, start, end, budget)
    requires r == Rebases(items, start, end - 1, budget) && r' == Rebases(items, start, end, budget)
    requires Times(r, budget) <= 2 * Span(items, start, e.start) + e.bytes
    ensures Times(r', budget) <= 2 * Span(items, start, n.start) + n.bytes
  {
    EpochBytes(items, start, end - 1, budget);
    EpochMove(items, start, end, budget);
    RebasesStep(items, start, end, budget);
    SpanSplits(items, start, e.start, e.unitStart);
    var p, q, moved := Span(items, start, e.start), Span(items, start, n.start), n.start != e.start;
    assert r' == r + if moved then 1 else 0;
    assert if moved then q == p + e.bytes else q == p;
    Payment(budget, r, p, e.bytes, r', q, n.bytes, moved);
  }

  /** Two neighbouring epochs together always exceed the budget. */
  lemma {:induction false} RebasesBounded(items: seq<ProjectedItem>, start: nat, end: nat, budget: nat, e: Epoch, r: nat)
    requires start <= end <= |items|
    requires e == EpochScan(items, start, end, budget) && r == Rebases(items, start, end, budget)
    ensures Times(r, budget) <= 2 * Span(items, start, e.start) + e.bytes
    decreases end
  {
    if start < end {
      var e', r' := EpochScan(items, start, end - 1, budget), Rebases(items, start, end - 1, budget);
      RebasesBounded(items, start, end - 1, budget, e', r');
      PaidStep(items, start, end, budget, e', e, r', r);
    }
  }

  lemma {:induction false} RebasesSplit(items: seq<ProjectedItem>, start: nat, m: nat, n: nat, budget: nat, e: Epoch, e': Epoch)
    requires start <= m <= n <= |items| && e == EpochScan(items, start, m, budget) && e' == EpochScan(items, start, n, budget)
    ensures Rebases(items, start, n, budget) >= Rebases(items, start, m, budget) + Moved(e, e')
    decreases n
  {
    if m < n {
      RebasesSplit(items, start, m, n - 1, budget, e, EpochScan(items, start, n - 1, budget));
      RebasesStep(items, start, n, budget);
    }
  }

  lemma {:induction false} RebasesFrame(a: seq<ProjectedItem>, b: seq<ProjectedItem>, start: nat, end: nat, budget: nat)
    returns (r: nat, e: Epoch)
    requires a <= b && start <= end <= |a|
    ensures r == Rebases(a, start, end, budget) == Rebases(b, start, end, budget)
    ensures e == EpochScan(a, start, end, budget) == EpochScan(b, start, end, budget)
    decreases end
  {
    if start == end {
      r, e := 0, EpochScan(a, start, end, budget);
    } else {
      var r0, e0 := RebasesFrame(a, b, start, end - 1, budget);
      EpochScanFrame(a, b, start, end, budget);
      e := EpochScan(a, start, end, budget);
      r := r0 + Moved(e0, e);
      RebasesStep(a, start, end, budget);
      RebasesStep(b, start, end, budget);
    }
  }

  /** A state of a run can be projected and extends the one before it. */
  ghost predicate RunAt(run: seq<Session>, i: nat)
    requires i < |run|
  {
    Repaired(run[i]).Repair? && (i > 0 ==> Extends(run[i - 1], run[i]))
  }

  /** A run of one session, each state extending the one before, all of them projectable. */
  ghost predicate Run(run: seq<Session>) { forall i :: 0 <= i < |run| ==> RunAt(run, i) }

  ghost function Input(s: Session, maxBytes: nat, h: Hash): seq<Value>
    requires Repaired(s).Repair?
  {
    InputOf(s, Repaired(s).items, CutsOf(Repaired(s).items, maxBytes), h)
  }

  /** One if the later input does not extend the earlier one, so the provider cache misses. */
  ghost function Miss(a: Session, b: Session, maxBytes: nat, h: Hash): nat {
    if Repaired(a).Repair? && Repaired(b).Repair? && !(Input(a, maxBytes, h) <= Input(b, maxBytes, h)) then 1 else 0
  }

  /** The misses among the first `k` calls of a run. */
  ghost function Misses(run: seq<Session>, k: nat, miss: (Session, Session) -> nat): nat
    requires k <= |run|
  {
    if k <= 1 then 0 else Misses(run, k - 1, miss) + miss(run[k - 2], run[k - 1])
  }

  /** How many of the first `k` states do not carry on from the one before. */
  ghost function Breaks(run: seq<Session>, k: nat, joined: (Session, Session) -> bool): nat
    requires k <= |run|
  {
    if k <= 1 then 0 else Breaks(run, k - 1, joined) + if joined(run[k - 2], run[k - 1]) then 0 else 1
  }

  /** What `f` had reached at the end of each stretch closed by such a break, added up. */
  ghost function Closed(run: seq<Session>, k: nat, joined: (Session, Session) -> bool, f: Session -> nat): nat
    requires k <= |run|
  {
    if k <= 1 then 0 else Closed(run, k - 1, joined, f) + if joined(run[k - 2], run[k - 1]) then 0 else f(run[k - 2])
  }

  /** Within a stretch a miss is paid for by growth of the potential. */
  ghost predicate Paid(a: Session, b: Session, joined: (Session, Session) -> bool, miss: (Session, Session) -> nat,
                       potential: Session -> nat) {
    miss(a, b) <= 1 && (joined(a, b) ==> potential(a) + miss(a, b) <= potential(b))
  }

  /** Misses number at most what was paid in each stretch, and one for each break. */
  lemma {:induction false} MissesPaid(run: seq<Session>, k: nat, joined: (Session, Session) -> bool,
                                      miss: (Session, Session) -> nat, potential: Session -> nat)
    requires 0 < k <= |run| && forall a, b :: Paid(a, b, joined, miss, potential)
    ensures Misses(run, k, miss) <= Breaks(run, k, joined) + Closed(run, k, joined, potential) + potential(run[k - 1])
    decreases k
  {
    if k > 1 {
      MissesPaid(run, k - 1, joined, miss, potential);
      assert Paid(run[k - 2], run[k - 1], joined, miss, potential);
    }
  }

  /** A bound by one more at each state is a bound by one more for each stretch. */
  lemma {:induction false} ClosedAtMost(run: seq<Session>, k: nat, joined: (Session, Session) -> bool, f: Session -> nat, g: Session -> nat)
    requires k <= |run| && forall s :: f(s) <= g(s) + 1
    ensures Closed(run, k, joined, f) <= Closed(run, k, joined, g) + Breaks(run, k, joined)
    decreases k
  {
    if k > 1 { ClosedAtMost(run, k - 1, joined, f, g); }
  }

  lemma {:induction false} ClosedTimes(run: seq<Session>, k: nat, joined: (Session, Session) -> bool, f: Session -> nat,
                                       bytes: Session -> nat, unit: nat)
    requires k <= |run| && forall s :: Times(f(s), unit) <= 2 * bytes(s)
    ensures Times(Closed(run, k, joined, f), unit) <= 2 * Closed(run, k, joined, bytes)
    decreases k
  {
    if k > 1 {
      ClosedTimes(run, k - 1, joined, f, bytes, unit);
      TimesAdds(Closed(run, k - 1, joined, f), f(run[k - 2]), unit);
    }
  }

  /** Without a break nothing is closed. */
  lemma {:induction false} Unbroken(run: seq<Session>, k: nat, joined: (Session, Session) -> bool, f: Session -> nat)
    requires k <= |run| && forall i :: 0 < i < k ==> joined(run[i - 1], run[i])
    ensures Breaks(run, k, joined) == Closed(run, k, joined, f) == 0
    decreases k
  {
    if k > 1 {
      Unbroken(run, k - 1, joined, f);
      assert joined(run[(k - 1) - 1], run[k - 1]);
    }
  }

  /** How often the epoch has moved since the settled boundary. */
  ghost function RebasesOf(s: Session, maxBytes: nat): nat {
    if Repaired(s).Blocked? then 0
    else
      var items := Repaired(s).items;
      Rebases(items, StablePrefix(items), |items|, AppendBudget(maxBytes))
  }

  /** Within one epoch only the first live unit can rewrite the input. */
  lemma UnmovedAppends(a: Session, b: Session, maxBytes: nat, h: Hash)
    requires Extends(a, b) && Repaired(a).Repair? && Repaired(b).Repair?
    requires EpochOf(a, maxBytes) == EpochOf(b, maxBytes)
    requires |Repaired(a).items| == |Repaired(b).items| || StablePrefix(Repaired(a).items) < |Repaired(a).items|
    ensures Input(a, maxBytes, h) <= Input(b, maxBytes, h)
  {
    var x := Repaired(a).items;
    if StablePrefix(x) < |x| {
      EpochNotAtEnd(x, StablePrefix(x), |x|, AppendBudget(maxBytes));
      SpanSplits(x, EpochOf(a, maxBytes), EpochOf(a, maxBytes), |x|);
    }
    InputAppends(a, b, maxBytes, h);
  }

  lemma StepRebases(a: Session, b: Session, maxBytes: nat)
    requires Extends(a, b) && Repaired(a).Repair? && Repaired(b).Repair?
    ensures RebasesOf(b, maxBytes) >= RebasesOf(a, maxBytes)
            + if EpochOf(a, maxBytes) != EpochOf(b, maxBytes) then 1 else 0
  {
    var x, y := Repaired(a).items, Repaired(b).items;
    var start, budget := StablePrefix(x), AppendBudget(maxBytes);
    EpochsRelate(a, b, maxBytes);
    var _, _ := RebasesFrame(x, y, start, |x|, budget);
    RebasesSplit(y, start, |x|, |y|, budget, EpochScan(y, start, |x|, budget), EpochScan(y, start, |y|, budget));
  }

  /** Only an empty scan puts the epoch at the end. */
  lemma {:induction false} EpochNotAtEnd(items: seq<ProjectedItem>, start: nat, end: nat, budget: nat)
    requires start < end <= |items|
    ensures EpochScan(items, start, end, budget).start < end
  {
  }

  /** One once the session holds anything past its settled boundary. */
  ghost function Live(s: Session): nat {
    if Repaired(s).Repair? && StablePrefix(Repaired(s).items) < |Repaired(s).items| then 1 else 0
  }

  /** What has been paid towards misses. */
  ghost function Potential(s: Session, maxBytes: nat): nat { RebasesOf(s, maxBytes) + Live(s) }

  lemma LiveGrows(a: Session, b: Session)
    requires Extends(a, b) && Repaired(a).Repair? && Repaired(b).Repair?
    ensures Live(a) <= Live(b) && (Live(a) == 0 && |Repaired(a).items| < |Repaired(b).items| ==> Live(b) == 1)
  {
    EpochsRelate(a, b, 0);
  }

  /** Within an unmoved epoch only the first live unit misses. */
  lemma UnmovedMiss(a: Session, b: Session, maxBytes: nat, h: Hash)
    requires Extends(a, b) && Repaired(a).Repair? && Repaired(b).Repair?
    requires EpochOf(a, maxBytes) == EpochOf(b, maxBytes) && Miss(a, b, maxBytes, h) == 1
    ensures Live(a) == 0 && |Repaired(a).items| < |Repaired(b).items|
  {
    ItemsExtend(a, b);
    if |Repaired(a).items| == |Repaired(b).items| || Live(a) == 1 { UnmovedAppends(a, b, maxBytes, h); }
  }

  lemma PaidByMove(ra: nat, rb: nat, la: nat, lb: nat, miss: nat, moved: bool)
    requires rb >= ra + (if moved then 1 else 0) && la <= lb && miss <= 1
    requires !moved && miss == 1 ==> la == 0 && lb == 1
    ensures ra + la + miss <= rb + lb
  {
  }

  /** A miss is paid for by a rebase, or by the first live unit. */
  lemma StepMiss(a: Session, b: Session, maxBytes: nat, h: Hash)
    requires Extends(a, b) && Repaired(a).Repair? && Repaired(b).Repair?
    ensures Potential(a, maxBytes) + Miss(a, b, maxBytes, h) <= Potential(b, maxBytes)
  {
    var moved, miss := EpochOf(a, maxBytes) != EpochOf(b, maxBytes), Miss(a, b, maxBytes, h);
    StepRebases(a, b, maxBytes);
    LiveGrows(a, b);
    if !moved && miss == 1 { UnmovedMiss(a, b, maxBytes, h); }
    PaidByMove(RebasesOf(a, maxBytes), RebasesOf(b, maxBytes), Live(a), Live(b), miss, moved);
  }

  ghost function MissOf(maxBytes: nat, h: Hash): (Session, Session) -> nat { (a, b) => Miss(a, b, maxBytes, h) }

  ghost function PotentialOf(maxBytes: nat): Session -> nat { s => Potential(s, maxBytes) }

  ghost function RebasesAt(maxBytes: nat): Session -> nat { s => RebasesOf(s, maxBytes) }

  /** The later state only appends to the earlier one and both can be projected. */
  ghost predicate Follows(a: Session, b: Session) { Extends(a, b) && Repaired(a).Repair? && Repaired(b).Repair? }

  ghost function Joined(): (Session, Session) -> bool { (a, b) => Follows(a, b) }

  lemma EveryStepPaid(a: Session, b: Session, maxBytes: nat, h: Hash)
    ensures Paid(a, b, Joined(), MissOf(maxBytes, h), PotentialOf(maxBytes))
  {
    if Follows(a, b) { StepMiss(a, b, maxBytes, h); }
  }

  /** The functions a count of misses is about: what carries on, what misses, and what pays. */
  lemma Measures(maxBytes: nat, h: Hash)
    returns (joined: (Session, Session) -> bool, miss: (Session, Session) -> nat, rebases: Session -> nat, potential: Session -> nat)
    ensures joined == Joined() && miss == MissOf(maxBytes, h) && rebases == RebasesAt(maxBytes)
    ensures forall a, b :: Paid(a, b, joined, miss, potential)
    ensures forall s :: potential(s) <= rebases(s) + 1
  {
    joined, miss, rebases, potential := Joined(), MissOf(maxBytes, h), RebasesAt(maxBytes), PotentialOf(maxBytes);
    forall a, b ensures Paid(a, b, joined, miss, potential) { EveryStepPaid(a, b, maxBytes, h); }
  }

  /** Misses number at most the rebases of each stretch, one for its first unit and one for each break. */
  lemma CountMisses(run: seq<Session>, joined: (Session, Session) -> bool, miss: (Session, Session) -> nat,
                    rebases: Session -> nat, potential: Session -> nat)
    requires run != [] && (forall a, b :: Paid(a, b, joined, miss, potential)) && forall s :: potential(s) <= rebases(s) + 1
    ensures Misses(run, |run|, miss) <= 2 * Breaks(run, |run|, joined) + Closed(run, |run|, joined, rebases) + rebases(run[|run| - 1]) + 1
  {
    MissesPaid(run, |run|, joined, miss, potential);
    ClosedAtMost(run, |run|, joined, potential, rebases);
  }

  /** Bytes past the settled boundary. */
  ghost function LiveBytes(s: Session): nat {
    if Repaired(s).Blocked? then 0
    else Span(Repaired(s).items, StablePrefix(Repaired(s).items), |Repaired(s).items|)
  }

  /** Rebases are paid for by the live bytes. */
  lemma RebasesPaid(s: Session, maxBytes: nat)
    ensures Times(RebasesOf(s, maxBytes), AppendBudget(maxBytes)) <= 2 * LiveBytes(s)
  {
    if Repaired(s).Repair? {
      var items := Repaired(s).items;
      var budget, start := AppendBudget(maxBytes), StablePrefix(items);
      var e := EpochScan(items, start, |items|, budget);
      RebasesBounded(items, start, |items|, budget, e, RebasesOf(s, maxBytes));
      ScanAtEnd(s, maxBytes);
      SpanSplits(items, start, e.start, |items|);
    }
  }

  ghost function BytesAt(): Session -> nat { s => LiveBytes(s) }

  lemma AllRebasesPaid(maxBytes: nat) returns (rebases: Session -> nat, bytes: Session -> nat)
    ensures rebases == RebasesAt(maxBytes) && bytes == BytesAt()
    ensures forall s :: Times(rebases(s), AppendBudget(maxBytes)) <= 2 * bytes(s)
  {
    rebases, bytes := RebasesAt(maxBytes), BytesAt();
    forall s ensures Times(rebases(s), AppendBudget(maxBytes)) <= 2 * bytes(s) { RebasesPaid(s, maxBytes); }
  }

  /** What `f` reached at the end of every stretch, the last one included. */
  ghost function Total(run: seq<Session>, joined: (Session, Session) -> bool, f: Session -> nat): nat
    requires run != []
  {
    Closed(run, |run|, joined, f) + f(run[|run| - 1])
  }

  /** What all stretches cost is paid for by the bytes they reached. */
  lemma TotalTimes(run: seq<Session>, joined: (Session, Session) -> bool, f: Session -> nat, bytes: Session -> nat, unit: nat)
    requires run != [] && forall s :: Times(f(s), unit) <= 2 * bytes(s)
    ensures Times(Total(run, joined, f), unit) <= 2 * Total(run, joined, bytes)
  {
    ClosedTimes(run, |run|, joined, f, bytes, unit);
    TimesAdds(Closed(run, |run|, joined, f), f(run[|run| - 1]), unit);
  }

  /** Beside two for each move and one more, the misses cost at most twice the bytes. */
  ghost predicate Amortized(misses: nat, moves: nat, bytes: nat, unit: nat) {
    misses > 2 * moves ==> Times(misses - 2 * moves - 1, unit) <= 2 * bytes
  }

  lemma Amortize(run: seq<Session>, joined: (Session, Session) -> bool, miss: (Session, Session) -> nat, rebases: Session -> nat,
                 potential: Session -> nat, bytes: Session -> nat, unit: nat)
    returns (misses: nat, moves: nat, total: nat)
    requires run != [] && (forall a, b :: Paid(a, b, joined, miss, potential)) && forall s :: potential(s) <= rebases(s) + 1
    requires forall s :: Times(rebases(s), unit) <= 2 * bytes(s)
    ensures misses == Misses(run, |run|, miss) && moves == Breaks(run, |run|, joined) && total == Total(run, joined, bytes)
    ensures Amortized(misses, moves, total, unit)
  {
    misses, moves, total := Misses(run, |run|, miss), Breaks(run, |run|, joined), Total(run, joined, bytes);
    CountMisses(run, joined, miss, rebases, potential);
    TotalTimes(run, joined, rebases, bytes, unit);
    if misses > 2 * moves { TimesMonotone(misses - 2 * moves - 1, Total(run, joined, rebases), unit); }
  }

  /**
   Cache misses are amortized over every sequence of calls. It falls into stretches, each growing
   within one settled boundary; a new one starts when the boundary moves (or when the state before
   left a call open or could not be projected). Beside two for each new stretch and one for the
   first, rewritten inputs number at most twice the live bytes of all stretches per append budget.
   */
  lemma MissesOverMoves(run: seq<Session>, maxBytes: nat, h: Hash) returns (misses: nat, moves: nat, bytes: nat)
    requires run != []
    ensures misses == Misses(run, |run|, MissOf(maxBytes, h)) && moves == Breaks(run, |run|, Joined())
    ensures bytes == Total(run, Joined(), BytesAt())
    ensures Amortized(misses, moves, bytes, AppendBudget(maxBytes))
  {
    var joined, miss, rebases, potential := Measures(maxBytes, h);
    var _, bytesAt := AllRebasesPaid(maxBytes);
    misses, moves, bytes := Amortize(run, joined, miss, rebases, potential, bytesAt, AppendBudget(maxBytes));
  }

  lemma RunIsUnbroken(run: seq<Session>) returns (joined: (Session, Session) -> bool, bytes: Session -> nat)
    requires Run(run)
    ensures joined == Joined() && bytes == BytesAt() && forall i :: 0 < i < |run| ==> joined(run[i - 1], run[i])
  {
    joined, bytes := Joined(), BytesAt();
    forall i | 0 < i < |run| ensures joined(run[i - 1], run[i]) { assert RunAt(run, i - 1) && RunAt(run, i); }
  }

  lemma UnbrokenTotal(run: seq<Session>, joined: (Session, Session) -> bool, bytes: Session -> nat)
    requires run != [] && forall i :: 0 < i < |run| ==> joined(run[i - 1], run[i])
    ensures Breaks(run, |run|, joined) == 0 && Total(run, joined, bytes) == bytes(run[|run| - 1])
  {
    Unbroken(run, |run|, joined, bytes);
  }

  lemma BytesAtIs(s: Session)
    ensures BytesAt()(s) == LiveBytes(s)
  {
  }

  lemma RunTotal(run: seq<Session>, last: Session)
    requires Run(run) && run != [] && last == run[|run| - 1]
    ensures Breaks(run, |run|, Joined()) == 0 && Total(run, Joined(), BytesAt()) == BytesAt()(last)
  {
    var joined, bytes := RunIsUnbroken(run);
    UnbrokenTotal(run, joined, bytes);
  }

  /**
   In particular, however the history grows within one settled boundary, the number of rewritten
   inputs is at most one plus twice the live bytes per budget.
   */
  lemma MissesAmortized(run: seq<Session>, last: Session, maxBytes: nat, h: Hash) returns (misses: nat)
    requires Run(run) && run != [] && last == run[|run| - 1]
    ensures misses == Misses(run, |run|, MissOf(maxBytes, h)) && Amortized(misses, 0, LiveBytes(last), AppendBudget(maxBytes))
  {
    RunTotal(run, last);
    var moves, bytes;
    misses, moves, bytes := MissesOverMoves(run, maxBytes, h);
    BytesAtIs(last);
  }
}
