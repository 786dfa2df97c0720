/** Exactly when an unmoved cache epoch's input is rewritten instead of extended. */
module ProjectionRewrite {
  import opened Options
  import opened Projection
  import opened ProjectionOpen
  import opened ProjectionBytes
  import opened ProjectionCache
  import Sources = ProjectionSources
  import IdOrder

  // ----- The two base budgets -----

  /** What the base may hold while the tail fits the append budget. */
  function OrdinaryBudget(maxBytes: nat): nat { SatSub(SatSub(maxBytes, AppendBudget(maxBytes)), NOTICE_RESERVE) }

  /** What is kept of a tail over the append budget. */
  function OversizedLive(items: seq<ProjectedItem>, epoch: nat, maxBytes: nat): (live: nat)
    requires epoch <= |items|
    ensures epoch <= live <= |items|
  {
    SuffixCut(items, epoch, |items|, SatSub(maxBytes, NOTICE_RESERVE * 2), {})
  }

  /** What the base may hold beside it: more if the whole tail is dropped, else what the tail leaves. */
  function OversizedBudget(items: seq<ProjectedItem>, epoch: nat, maxBytes: nat): nat
    requires epoch <= |items|
  {
    var live := OversizedLive(items, epoch, maxBytes);
    SatSub(SatSub(SatSub(maxBytes, Span(items, live, |items|)), NOTICE_RESERVE), if live > epoch then NOTICE_RESERVE else 0)
  }

  /** The first live unit is over the append budget. */
  ghost predicate FirstOversized(a: Session, b: Session, maxBytes: nat)
    requires Repaired(a).Repair? && Repaired(b).Repair?
  {
    TailBytes(a, maxBytes) == 0 && TailBytes(b, maxBytes) > AppendBudget(maxBytes)
  }

  /** Both budgets cut the base at the same item. */
  predicate SameBase(items: seq<ProjectedItem>, epoch: nat, ordinary: nat, oversized: nat)
    requires epoch <= |items|
  {
    SuffixCut(items, 0, epoch, ordinary, {}) == SuffixCut(items, 0, epoch, oversized, {})
  }

  lemma OrdinaryCuts(items: seq<ProjectedItem>, epoch: nat, maxBytes: nat) returns (c: Cuts)
    requires epoch == CutsOf(items, maxBytes).epoch && Span(items, epoch, |items|) <= AppendBudget(maxBytes)
    ensures c == CutsOf(items, maxBytes) == Cuts(SuffixCut(items, 0, epoch, OrdinaryBudget(maxBytes), {}), epoch, epoch)
  {
    c := CutsOf(items, maxBytes);
  }

  lemma OversizedCuts(items: seq<ProjectedItem>, epoch: nat, maxBytes: nat) returns (d: Cuts)
    requires epoch == CutsOf(items, maxBytes).epoch && Span(items, epoch, |items|) > AppendBudget(maxBytes)
    ensures d == CutsOf(items, maxBytes)
    ensures d == Cuts(SuffixCut(items, 0, epoch, OversizedBudget(items, epoch, maxBytes), {}), epoch, OversizedLive(items, epoch, maxBytes))
  {
    d := CutsOf(items, maxBytes);
  }

  // ----- The same base: the input only grows -----

  lemma NoticesGrow(s: Session, items: seq<ProjectedItem>, base: nat, epoch: nat, live: nat, h: Hash)
    requires base <= epoch <= live <= |items|
    ensures Notices(s, items, Cuts(base, epoch, epoch), h) <= Notices(s, items, Cuts(base, epoch, live), h)
  {
  }

  lemma Concatenated(kept: seq<Value>, notices: seq<Value>, more: seq<Value>, tail: seq<Value>)
    requires notices <= more
    ensures kept + notices + [] <= kept + more + tail
  {
    assert (kept + more + tail)[..|kept| + |notices|] == kept + notices;
  }

  lemma SameBaseAppends(a: Session, b: Session, x: seq<ProjectedItem>, y: seq<ProjectedItem>, base: nat, live: nat, h: Hash)
    requires a.id == b.id && a.history <= b.history && x <= y && base <= |x| <= live <= |y|
    requires Repaired(a).Repair? && x == Repaired(a).items
    ensures InputOf(a, x, Cuts(base, |x|, |x|), h) <= InputOf(b, y, Cuts(base, |x|, live), h)
  {
    var c, d := Cuts(base, |x|, |x|), Cuts(base, |x|, live);
    SameNotices(a, b, x, y, c, h);
    NoticesGrow(b, y, base, |x|, live, h);
    assert x[base..|x|] == y[base..|x|] && Values(x[|x|..]) == [];
    Concatenated(Values(x[base..|x|]), Notices(a, x, c, h), Notices(b, y, d, h), Values(y[live..]));
  }

  // ----- A different base: a notice meets an item -----

  /** History item `i` reads as an omission notice that names the digest of the first `end` items, itself among them. */
  predicate NamesItself(history: seq<Value>, h: Hash, i: nat, end: nat)
    requires i < end <= |history|
  {
    history[i].OlderNotice? && history[i].epoch == h(history[..end])
  }

  /** No history item states the digest of a prefix it is part of: no fixed point of the digest was found. */
  ghost predicate NoneNamesItself(history: seq<Value>, h: Hash) {
    forall i, end :: 0 <= i < end <= |history| ==> !NamesItself(history, h, i, end)
  }

  /** The items before a cut come from the history before its source end. */
  lemma {:induction false} SourcesBefore(items: seq<ProjectedItem>, end: nat, j: nat)
    requires j < end <= |items| && items[j].source.Some?
    ensures items[j].source.value < SourceEnd(items, 0, end, 0)
    decreases end
  {
    if j < end - 1 { SourcesBefore(items, end - 1, j); }
  }

  /** The digest an omission notice of these cuts carries. */
  ghost predicate IsDigest(s: Session, items: seq<ProjectedItem>, c: Cuts, h: Hash, digest: Digest) {
    c.epoch <= |items| && EpochEnd(items, c) <= |s.history| && digest == h(s.history[..EpochEnd(items, c)])
  }

  predicate Carries(v: Value, digest: Digest) { v.OlderNotice? && v.epoch == digest }

  /** Where the kept items end the older notice stands, if anything was cut. */
  lemma OlderAt(s: Session, items: seq<ProjectedItem>, c: Cuts, h: Hash, p: nat, digest: Digest) returns (input: seq<Value>, notice: Value)
    requires 0 < c.base <= c.epoch <= c.live <= |items| && IsDigest(s, items, c, h, digest) && p == Kept(c)
    ensures input == InputOf(s, items, c, h) && p < |input| && input[p] == notice && Carries(notice, digest)
  {
    input := InputOf(s, items, c, h);
    notice := input[p];
    assert notice == Notices(s, items, c, h)[0];
  }

  /** Before it stand the kept items. */
  lemma ItemAt(s: Session, items: seq<ProjectedItem>, c: Cuts, h: Hash, p: nat, j: nat) returns (input: seq<Value>, item: Value)
    requires c.base <= c.epoch <= c.live <= |items| && c.base <= j < c.epoch && p == j - c.base
    ensures input == InputOf(s, items, c, h) && p < |input| && input[p] == item == items[j].value
  {
    input := InputOf(s, items, c, h);
    Sources.KeptAt(s, items, c, h, p);
    item := input[p];
  }

  lemma NotPrefixAt(u: seq<Value>, v: seq<Value>, p: nat, digest: Digest)
    requires p < |u| && p < |v| && Carries(u[p], digest) != Carries(v[p], digest)
    ensures !(u <= v)
  {
  }

  lemma DigestIs(s: Session, items: seq<ProjectedItem>, c: Cuts, h: Hash) returns (digest: Digest)
    requires Repaired(s).Repair? && items == Repaired(s).items && c.epoch <= |items|
    ensures IsDigest(s, items, c, h, digest)
  {
    var _ := RepairedSources(s);
    SourceEndBounded(items, 0, c.epoch, 0, |s.history|);
    digest := h(s.history[..EpochEnd(items, c)]);
  }

  lemma SameDigest(a: Session, b: Session, x: seq<ProjectedItem>, y: seq<ProjectedItem>, c: Cuts, d: Cuts, h: Hash, digest: Digest)
    requires IsDigest(a, x, c, h, digest) && x <= y && a.history <= b.history && c.epoch == d.epoch
    ensures IsDigest(b, y, d, h, digest)
  {
    SourceEndFrame(x, y, c.epoch);
    assert a.history[..EpochEnd(x, c)] == b.history[..EpochEnd(y, d)];
  }

  /** No item before the epoch is the notice that the epoch calls for. */
  lemma NoItemIsTheNotice(s: Session, items: seq<ProjectedItem>, c: Cuts, j: nat, h: Hash, digest: Digest)
    requires NoneNamesItself(s.history, h) && Repaired(s).Repair? && items == Repaired(s).items && j < c.epoch <= |items|
    requires IsDigest(s, items, c, h, digest)
    ensures !Carries(items[j].value, digest)
  {
    Sources.RepairedCarries(s);
    assert Sources.OrderedAt(items, s.history, j);
    if items[j].source.Some? {
      SourcesBefore(items, c.epoch, j);
      assert !NamesItself(s.history, h, items[j].source.value, EpochEnd(items, c));
    }
  }

  /** One input has a kept item where the other has its notice. */
  lemma Clash(a: Session, b: Session, x: seq<ProjectedItem>, y: seq<ProjectedItem>, c: Cuts, d: Cuts, h: Hash, p: nat, j: nat, digest: Digest)
    returns (u: seq<Value>, v: seq<Value>)
    requires c.base <= c.epoch <= c.live <= |x| && 0 < d.base <= d.epoch <= d.live <= |y|
    requires p == Kept(d) && c.base <= j < c.epoch && p == j - c.base
    requires IsDigest(b, y, d, h, digest) && !Carries(x[j].value, digest)
    ensures u == InputOf(a, x, c, h) && v == InputOf(b, y, d, h) && !(u <= v) && !(v <= u)
  {
    var item, notice;
    u, item := ItemAt(a, x, c, h, p, j);
    v, notice := OlderAt(b, y, d, h, p, digest);
    NotPrefixAt(u, v, p, digest);
    NotPrefixAt(v, u, p, digest);
  }

  lemma OtherBaseRewrites(a: Session, b: Session, x: seq<ProjectedItem>, y: seq<ProjectedItem>, c: Cuts, d: Cuts, h: Hash)
    requires Repaired(a).Repair? && x == Repaired(a).items && x <= y && a.history <= b.history
    requires c.base <= c.epoch <= c.live <= |x| && d.base <= d.epoch <= d.live <= |y| && c.epoch == d.epoch
    requires c.base != d.base && NoneNamesItself(a.history, h)
    ensures !(InputOf(a, x, c, h) <= InputOf(b, y, d, h))
  {
    var digest := DigestIs(a, x, c, h);
    SameDigest(a, b, x, y, c, d, h, digest);
    var p, j := if c.base < d.base then Kept(d) else Kept(c), if c.base < d.base then c.base + Kept(d) else d.base + Kept(c);
    NoItemIsTheNotice(a, x, c, j, h, digest);
    if c.base < d.base {
      var _, _ := Clash(a, b, x, y, c, d, h, p, j, digest);
    } else {
      assert y[j] == x[j];
      var _, _ := Clash(b, a, y, x, d, c, h, p, j, digest);
    }
  }

  // ----- Exactly -----

  lemma FirstOversizedIff(a: Session, b: Session, maxBytes: nat, h: Hash)
    requires Extends(a, b) && Repaired(a).Repair? && Repaired(b).Repair?
    requires EpochOf(a, maxBytes) == EpochOf(b, maxBytes) && FirstOversized(a, b, maxBytes)
    ensures |Repaired(a).items| <= |Repaired(b).items|
    ensures Extended(a, b, maxBytes) ==> Input(a, maxBytes, h) <= Input(b, maxBytes, h)
    ensures NoneNamesItself(a.history, h) && Input(a, maxBytes, h) <= Input(b, maxBytes, h) ==> Extended(a, b, maxBytes)
  {
    var x, y := Repaired(a).items, Repaired(b).items;
    EpochsRelate(a, b, maxBytes);
    var epoch := EpochOf(a, maxBytes);
    SpanSplits(x, epoch, epoch, |x|);
    assert epoch == |x|;
    var c := OrdinaryCuts(x, epoch, maxBytes);
    var d := OversizedCuts(y, epoch, maxBytes);
    SuffixCutFrame(x, y, 0, epoch, OversizedBudget(y, epoch, maxBytes), {});
    if c.base == d.base {
      SameBaseAppends(a, b, x, y, c.base, d.live, h);
    } else if NoneNamesItself(a.history, h) {
      OtherBaseRewrites(a, b, x, y, c, d, h);
    }
  }

  /** What the later input depends on: nothing, or where the two base budgets cut. */
  ghost predicate Extended(a: Session, b: Session, maxBytes: nat)
    requires Repaired(a).Repair? && Repaired(b).Repair? && |Repaired(a).items| <= |Repaired(b).items|
  {
    var x, y := Repaired(a).items, Repaired(b).items;
    FirstOversized(a, b, maxBytes) ==> SameBase(x, |x|, OrdinaryBudget(maxBytes), OversizedBudget(y, |x|, maxBytes))
  }

  /**
   The cached prefix is append-only, exactly: while the epoch has not moved the earlier input is a
   prefix of the later one if and only if a first live unit over the append budget, where there is
   one, leaves the base cut where the ordinary budget has it. The condition suffices for every
   history; it is necessary unless a history item states the digest of history that contains it.
   */
  lemma AppendOnlyIff<R>(a: Session, b: Session, maxBytes: nat, native: R, h: Hash)
    requires Extends(a, b)
    requires Project(a, maxBytes, native, h).Ok? && Project(b, maxBytes, native, h).Ok?
    requires EpochOf(a, maxBytes) == EpochOf(b, maxBytes)
    ensures |Repaired(a).items| <= |Repaired(b).items|
    ensures Extended(a, b, maxBytes) ==> Project(a, maxBytes, native, h).value.input <= Project(b, maxBytes, native, h).value.input
    ensures NoneNamesItself(a.history, h) && Project(a, maxBytes, native, h).value.input <= Project(b, maxBytes, native, h).value.input
            ==> Extended(a, b, maxBytes)
  {
    ItemsExtend(a, b);
    if FirstOversized(a, b, maxBytes) {
      FirstOversizedIff(a, b, maxBytes, h);
    } else {
      InputAppends(a, b, maxBytes, h);
    }
  }

  // ----- Both ways the base can move -----

  const LIMIT: nat := 40000

  function Plain(bytes: nat): Value { Record(OtherKind, None, false, "", bytes) }

  /** Neither a call, an output nor the user's. */
  predicate Quiet(v: Value) { v.OlderNotice? || (v.Record? && v.kind == OtherKind && !v.user) }

  /** A session of the given values. */
  function SessionOf(values: seq<Value>, settled: nat): Session { Session(0, 0, values, settled, map[], None) }

  /** Items for the first so many of the values. */
  ghost predicate QuietPart(items: seq<ProjectedItem>, values: seq<Value>, settled: nat) {
    |items| <= |values| && forall i :: 0 <= i < |items| ==> Quiet(values[i]) && items[i] == ProjectedItem(values[i], Some(i), i < settled)
  }

  ghost predicate QuietItems(items: seq<ProjectedItem>, values: seq<Value>, settled: nat) {
    |items| == |values| && QuietPart(items, values, settled)
  }

  lemma {:induction false} QuietScanned(s: Session, values: seq<Value>, settled: nat, k: nat) returns (r: Repair)
    requires s == SessionOf(values, settled) && settled <= |values| && k <= |values| && forall v :: v in values ==> Quiet(v)
    ensures r == RepairUpTo(s, k) && r.Repair? && r.pending == {} && r.interrupted == []
    ensures |r.items| == k && QuietPart(r.items, values, settled)
  {
    if k == 0 {
      r := RepairUpTo(s, 0);
    } else {
      r := QuietScanned(s, values, settled, k - 1);
      r := QuietPushed(s, values, settled, r);
    }
  }

  lemma QuietPushed(s: Session, values: seq<Value>, settled: nat, r: Repair) returns (pushed: Repair)
    requires s == SessionOf(values, settled) && settled <= |values| && forall v :: v in values ==> Quiet(v)
    requires r.Repair? && r.pending == {} && r.interrupted == [] && |r.items| < |values| && QuietPart(r.items, values, settled)
    ensures pushed == RepairStep(s, r, |r.items|) && pushed.Repair? && pushed.pending == {} && pushed.interrupted == []
    ensures |pushed.items| == |r.items| + 1 && QuietPart(pushed.items, values, settled)
  {
    assert values[|r.items|] in values;
    pushed := Push(s, r, |r.items|);
  }

  lemma NothingToFlush(s: Session, r: Repair, stable: bool)
    requires r.Repair? && r.pending == {}
    ensures Flush(s, r, stable) == r
  {
    assert IdOrder.Sorted({}) == [] && Placeholders([], stable) == [];
    assert r.items + [] == r.items && r.interrupted + [] == r.interrupted;
  }

  lemma QuietRepaired(s: Session, values: seq<Value>, settled: nat) returns (items: seq<ProjectedItem>)
    requires s == SessionOf(values, settled) && settled <= |values| && forall v :: v in values ==> Quiet(v)
    ensures Repaired(s).Repair? && Repaired(s).items == items && QuietItems(items, values, settled)
  {
    var r := QuietScanned(s, values, settled, |values|);
    NothingToFlush(s, r, Settled(s) == |s.history|);
    items := r.items;
  }

  lemma {:induction false} NothingOpen(history: seq<Value>, k: nat)
    requires k <= |history| && forall v :: v in history ==> Quiet(v)
    ensures OpenCalls(history, k) == {}
  {
    if k > 0 {
      NothingOpen(history, k - 1);
      assert history[k - 1] in history;
    }
  }

  lemma SettledEpoch(items: seq<ProjectedItem>, values: seq<Value>)
    requires QuietItems(items, values, |values|)
    ensures CutsOf(items, LIMIT).epoch == |values|
  {
    StablePrefixIs(items, |values|);
  }

  lemma AppendedEpoch(items: seq<ProjectedItem>, values: seq<Value>, n: nat)
    requires QuietItems(items, values, n) && n + 1 == |values|
    ensures CutsOf(items, LIMIT).epoch == n && Span(items, n, n + 1) == Encoded(values[n]) + 1
  {
    StablePrefixIs(items, n);
    assert Sizes(items, n + 1) == Sizes(items, n) + Encoded(values[n]) + 1;
    assert EpochScan(items, n, n, AppendBudget(LIMIT)) == Epoch(n, 0, n, {});
  }

  /** The pair of sessions before and after one more item, and their repaired items. */
  lemma Appended(values: seq<Value>, more: seq<Value>, n: nat) returns (a: Session, b: Session, x: seq<ProjectedItem>, y: seq<ProjectedItem>)
    requires n == |values| && |more| == n + 1 && values == more[..n] && forall v :: v in more ==> Quiet(v)
    ensures a == SessionOf(values, n) && b == SessionOf(more, n) && Extends(a, b)
    ensures Repaired(a).Repair? && Repaired(a).items == x && QuietItems(x, values, n)
    ensures Repaired(b).Repair? && Repaired(b).items == y && QuietItems(y, more, n)
  {
    a, b := SessionOf(values, n), SessionOf(more, n);
    forall v | v in values ensures Quiet(v) { assert v in more; }
    NothingOpen(values, n);
    x := QuietRepaired(a, values, n);
    y := QuietRepaired(b, more, n);
  }

  /** The two sessions share an epoch, were cut as said, and the second one rewrites the first one's input. */
  ghost predicate Rewritten(a: Session, b: Session, c: Cuts, d: Cuts, h: Hash) {
    && Extends(a, b) && Repaired(a).Repair? && Repaired(b).Repair?
    && CutsOf(Repaired(a).items, LIMIT) == c && CutsOf(Repaired(b).items, LIMIT) == d && c.epoch == d.epoch
    && !(Input(a, LIMIT, h) <= Input(b, LIMIT, h))
  }

  /** A base cut elsewhere in the same epoch rewrites the input. */
  lemma RewrittenAt(a: Session, b: Session, x: seq<ProjectedItem>, y: seq<ProjectedItem>, c: Cuts, d: Cuts, h: Hash)
    requires Extends(a, b) && NoneNamesItself(a.history, h)
    requires Repaired(a).Repair? && Repaired(a).items == x && Repaired(b).Repair? && Repaired(b).items == y
    requires c == CutsOf(x, LIMIT) && d == CutsOf(y, LIMIT) && c.epoch == d.epoch && c.base != d.base
    ensures Rewritten(a, b, c, d, h)
  {
    ItemsExtend(a, b);
    OtherBaseRewrites(a, b, x, y, c, d, h);
  }

  /**
   A retained unit over the append budget squeezes settled items out of the base: 35000 bytes leave
   too little for the 5000 that were there.
   */
  lemma SqueezedOut(h: Hash) returns (a: Session, b: Session)
    ensures a == SessionOf([Plain(5000)], 1) && b == SessionOf([Plain(5000), Plain(35000)], 1)
    ensures Rewritten(a, b, Cuts(0, 1, 1), Cuts(1, 1, 1), h)
  {
    var x, y;
    a, b, x, y := Appended([Plain(5000)], [Plain(5000), Plain(35000)], 1);
    var c, d := SqueezedCuts(x, y);
    RewrittenAt(a, b, x, y, c, d, h);
  }

  lemma SqueezedCuts(x: seq<ProjectedItem>, y: seq<ProjectedItem>) returns (c: Cuts, d: Cuts)
    requires QuietItems(x, [Plain(5000)], 1) && QuietItems(y, [Plain(5000), Plain(35000)], 1)
    ensures c == CutsOf(x, LIMIT) == Cuts(0, 1, 1) && d == CutsOf(y, LIMIT) == Cuts(1, 1, 1)
  {
    SettledEpoch(x, [Plain(5000)]);
    AppendedEpoch(y, [Plain(5000), Plain(35000)], 1);
    c := OrdinaryCuts(x, 1, LIMIT);
    d := OversizedCuts(y, 1, LIMIT);
    assert Sizes(x, 0) == 0 && Sizes(x, 1) == 5001;
    assert Sizes(y, 0) == 0 && Sizes(y, 1) == 5001 && Sizes(y, 2) == 40002;
    assert OversizedLive(y, 1, LIMIT) == 1 && OversizedBudget(y, 1, LIMIT) == 2951;
    assert SuffixCut(x, 0, 1, 5184, {}) == 0;
    assert SuffixCut(y, 0, 1, 2951, {}) == SuffixCut(y, 1, 1, 2951, {}) == 1;
  }

  /**
   A unit too large to keep at all frees its budget, and settled items come back into the base: after
   36000 bytes are dropped whole, both items of 5000 fit where one did.
   */
  lemma BroughtBack(h: Hash) returns (a: Session, b: Session)
    ensures a == SessionOf([Plain(5000), Plain(5000)], 2) && b == SessionOf([Plain(5000), Plain(5000), Plain(36000)], 2)
    ensures Rewritten(a, b, Cuts(1, 2, 2), Cuts(0, 2, 3), h)
  {
    var x, y;
    a, b, x, y := Appended([Plain(5000), Plain(5000)], [Plain(5000), Plain(5000), Plain(36000)], 2);
    var c, d := BroughtBackCuts(x, y);
    RewrittenAt(a, b, x, y, c, d, h);
  }

  lemma BroughtBackCuts(x: seq<ProjectedItem>, y: seq<ProjectedItem>) returns (c: Cuts, d: Cuts)
    requires QuietItems(x, [Plain(5000), Plain(5000)], 2) && QuietItems(y, [Plain(5000), Plain(5000), Plain(36000)], 2)
    ensures c == CutsOf(x, LIMIT) == Cuts(1, 2, 2) && d == CutsOf(y, LIMIT) == Cuts(0, 2, 3)
  {
    SettledEpoch(x, [Plain(5000), Plain(5000)]);
    AppendedEpoch(y, [Plain(5000), Plain(5000), Plain(36000)], 2);
    c := OrdinaryCuts(x, 2, LIMIT);
    d := OversizedCuts(y, 2, LIMIT);
    assert Sizes(x, 0) == 0 && Sizes(x, 1) == 5001 && Sizes(x, 2) == 10002;
    assert Sizes(y, 0) == 0 && Sizes(y, 1) == 5001 && Sizes(y, 2) == 10002 && Sizes(y, 3) == 46003;
    assert SuffixCut(y, 3, 3, 35904, {}) == 3;
    assert OversizedLive(y, 2, LIMIT) == 3 && OversizedBudget(y, 2, LIMIT) == 35904;
    assert SuffixCut(x, 1, 2, 5184, {}) == 1;
    assert SuffixCut(x, 0, 2, 5184, {}) == 1 && SuffixCut(y, 0, 2, 35904, {}) == 0;
  }

  // ----- Why the history must not state its own digest -----

  /** The notice that one item was omitted before an epoch of four. */
  function Imitation(digest: Digest): Value { OlderNotice(0, 1, 1, 4, digest) }

  lemma ImitationCuts(n: Value, x: seq<ProjectedItem>, y: seq<ProjectedItem>, four: seq<Value>, all: seq<Value>) returns (c: Cuts, d: Cuts)
    requires Encoded(n) == 554 && four == [n, n, n, n] && all == [n, n, n, n, Plain(35850)]
    requires QuietItems(x, four, 4) && QuietItems(y, all, 4)
    ensures c == CutsOf(x, LIMIT) == Cuts(0, 4, 4) && d == CutsOf(y, LIMIT) == Cuts(1, 4, 4)
    ensures Span(y, 4, 5) > AppendBudget(LIMIT)
  {
    SettledEpoch(x, four);
    AppendedEpoch(y, all, 4);
    c := OrdinaryCuts(x, 4, LIMIT);
    d := OversizedCuts(y, 4, LIMIT);
    assert Sizes(x, 0) == 0 && Sizes(x, 1) == 555 && Sizes(x, 2) == 1110 && Sizes(x, 3) == 1665 && Sizes(x, 4) == 2220;
    assert Sizes(y, 0) == 0 && Sizes(y, 1) == 555 && Sizes(y, 2) == 1110 && Sizes(y, 3) == 1665 && Sizes(y, 4) == 2220;
    assert Sizes(y, 5) == 38071;
    assert OversizedLive(y, 4, LIMIT) == 4 && OversizedBudget(y, 4, LIMIT) == 2101;
    assert SuffixCut(x, 0, 4, 5184, {}) == 0;
    assert SuffixCut(y, 1, 4, 2101, {}) == 1;
    assert SuffixCut(y, 0, 4, 2101, {}) == 1;
  }

  predicate AllAre(four: seq<Value>, n: Value) { |four| == 4 && forall i :: 0 <= i < 4 ==> four[i] == n }

  /** The four imitations before and after a large item. */
  lemma ImitationPair(n: Value, four: seq<Value>, all: seq<Value>) returns (a: Session, b: Session, x: seq<ProjectedItem>, y: seq<ProjectedItem>)
    requires n.OlderNotice? && four == [n, n, n, n] && all == [n, n, n, n, Plain(35850)]
    ensures a == SessionOf(four, 4) && b == SessionOf(all, 4) && Extends(a, b)
    ensures Repaired(a).Repair? && Repaired(a).items == x && QuietItems(x, four, 4)
    ensures Repaired(b).Repair? && Repaired(b).items == y && QuietItems(y, all, 4)
    ensures AllAre(four, n) && all[..4] == four
  {
    assert all[..4] == four;
    a, b, x, y := Appended(four, all, 4);
  }

  /** A first live unit over the append budget moved the base cut, and still the input was only extended. */
  ghost predicate Hidden(a: Session, b: Session, c: Cuts, d: Cuts, h: Hash) {
    && Extends(a, b) && Repaired(a).Repair? && Repaired(b).Repair? && |Repaired(a).items| <= |Repaired(b).items|
    && CutsOf(Repaired(a).items, LIMIT) == c && CutsOf(Repaired(b).items, LIMIT) == d && c.epoch == d.epoch
    && Input(a, LIMIT, h) <= Input(b, LIMIT, h) && !Extended(a, b, LIMIT)
  }

  /** What moves the base cut is that the two budgets cut it elsewhere. */
  lemma MovedNotExtended(a: Session, b: Session, x: seq<ProjectedItem>, y: seq<ProjectedItem>, c: Cuts, d: Cuts)
    requires Repaired(a).Repair? && Repaired(a).items == x && Repaired(b).Repair? && Repaired(b).items == y && x <= y
    requires c == CutsOf(x, LIMIT) && d == CutsOf(y, LIMIT) && c.epoch == d.epoch == |x| && c.base != d.base
    requires Span(y, |x|, |y|) > AppendBudget(LIMIT)
    ensures !Extended(a, b, LIMIT)
  {
    SpanSplits(x, |x|, |x|, |x|);
    var _ := OrdinaryCuts(x, |x|, LIMIT);
    var _ := OversizedCuts(y, |x|, LIMIT);
    SuffixCutFrame(x, y, 0, |x|, OversizedBudget(y, |x|, LIMIT), {});
  }

  lemma HiddenAt(a: Session, b: Session, x: seq<ProjectedItem>, y: seq<ProjectedItem>, c: Cuts, d: Cuts, h: Hash)
    requires Extends(a, b) && Repaired(a).Repair? && Repaired(a).items == x && Repaired(b).Repair? && Repaired(b).items == y
    requires c == CutsOf(x, LIMIT) && d == CutsOf(y, LIMIT) && c.epoch == d.epoch == |x| && c.base != d.base
    requires |x| <= |y| && Span(y, |x|, |y|) > AppendBudget(LIMIT) && InputOf(a, x, c, h) <= InputOf(b, y, d, h)
    ensures Hidden(a, b, c, d, h)
  {
    ItemsExtend(a, b);
    MovedNotExtended(a, b, x, y, c, d);
  }

  /**
   The condition cannot be dropped: under a digest with a fixed point, a history made of the notice
   that its own projection will carry hides a base cut that moved.
   */
  lemma ImitationHides(h: Hash, n: Value, four: seq<Value>, all: seq<Value>) returns (a: Session, b: Session)
    requires n == Imitation(h(four)) && four == [n, n, n, n] && all == [n, n, n, n, Plain(35850)]
    ensures a == SessionOf(four, 4) && b == SessionOf(all, 4) && Hidden(a, b, Cuts(0, 4, 4), Cuts(1, 4, 4), h)
  {
    var x, y, c, d;
    a, b, x, y, c, d := ImitationParts(h, n, four, all);
    HiddenAt(a, b, x, y, c, d, h);
  }

  lemma ImitationParts(h: Hash, n: Value, four: seq<Value>, all: seq<Value>)
    returns (a: Session, b: Session, x: seq<ProjectedItem>, y: seq<ProjectedItem>, c: Cuts, d: Cuts)
    requires n == Imitation(h(four)) && four == [n, n, n, n] && all == [n, n, n, n, Plain(35850)]
    ensures a == SessionOf(four, 4) && b == SessionOf(all, 4) && Extends(a, b)
    ensures Repaired(a).Repair? && Repaired(a).items == x && Repaired(b).Repair? && Repaired(b).items == y
    ensures c == CutsOf(x, LIMIT) == Cuts(0, 4, 4) && d == CutsOf(y, LIMIT) == Cuts(1, 4, 4)
    ensures |x| == 4 && |y| == 5 && Span(y, |x|, |y|) > AppendBudget(LIMIT) && InputOf(a, x, c, h) <= InputOf(b, y, d, h)
  {
    a, b, x, y := ImitationPair(n, four, all);
    c, d := ImitationCuts(n, x, y, four, all);
    ImitationInput(a, b, x, y, four, all, n, h);
  }

  lemma {:induction false} QuietEnd(items: seq<ProjectedItem>, values: seq<Value>, settled: nat, k: nat)
    requires QuietItems(items, values, settled) && k <= |items|
    ensures SourceEnd(items, 0, k, 0) == k
  {
    if k > 0 { QuietEnd(items, values, settled, k - 1); }
  }

  lemma ImitationNotice(b: Session, y: seq<ProjectedItem>, all: seq<Value>, n: Value, h: Hash) returns (d: Cuts)
    requires |all| == 5 && n == Imitation(h(all[..4])) && b == SessionOf(all, 4) && QuietItems(y, all, 4)
    ensures d == Cuts(1, 4, 4) && Notices(b, y, d, h) == [n]
  {
    d := Cuts(1, 4, 4);
    QuietEnd(y, all, 4, 1);
    QuietEnd(y, all, 4, 4);
  }

  lemma QuietValues(items: seq<ProjectedItem>, values: seq<Value>, settled: nat, from: nat, to: nat) returns (part: seq<Value>)
    requires QuietItems(items, values, settled) && from <= to <= |values|
    ensures part == Values(items[from..to]) == values[from..to]
  {
    part := values[from..to];
    assert Values(items[from..to]) == part;
  }

  lemma ShiftedByOne(four: seq<Value>, n: Value, rest: seq<Value>)
    requires AllAre(four, n)
    ensures four + [] + [] <= four[1..] + [n] + rest
  {
    assert four == four[1..] + [n];
  }

  lemma ImitationInput(a: Session, b: Session, x: seq<ProjectedItem>, y: seq<ProjectedItem>, four: seq<Value>, all: seq<Value>,
                       n: Value, h: Hash)
    requires AllAre(four, n) && |all| == 5 && all[..4] == four && n == Imitation(h(four))
    requires QuietItems(x, four, 4) && b == SessionOf(all, 4) && QuietItems(y, all, 4)
    ensures InputOf(a, x, Cuts(0, 4, 4), h) <= InputOf(b, y, Cuts(1, 4, 4), h)
  {
    var d := ImitationNotice(b, y, all, n, h);
    var u := QuietValues(x, four, 4, 0, 4);
    var v := QuietValues(y, all, 4, 1, 4);
    assert u == four && v == four[1..] && Values(x[4..]) == [] && Notices(a, x, Cuts(0, 4, 4), h) == [];
    ShiftedByOne(four, n, Values(y[4..]));
  }
}
