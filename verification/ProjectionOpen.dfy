/** Open tool calls along the repaired items, shared by the cache and pairing proofs. */
module ProjectionOpen {
  import opened Options
  import opened Projection
  import IdOrder

  /** The calls opened and not yet closed in `items[from..until)`. */
  function OpenItems(items: seq<ProjectedItem>, from: nat, until: nat): set<CallId>
    requires from <= until <= |items|
    decreases until
  {
    if from == until then {} else Track(OpenItems(items, from, until - 1), items[until - 1].value)
  }

  lemma {:induction false} StablePrefixIs(items: seq<ProjectedItem>, n: nat)
    requires n <= |items| && (forall i :: 0 <= i < n ==> items[i].stable) && (n < |items| ==> !items[n].stable)
    ensures StablePrefix(items) == n
    decreases n
  {
    if n > 0 { StablePrefixIs(items[1..], n - 1); }
  }

  lemma {:induction false} OpenFrame(a: seq<ProjectedItem>, b: seq<ProjectedItem>, from: nat, until: nat)
    requires from <= until <= |a| && a <= b
    ensures OpenItems(a, from, until) == OpenItems(b, from, until)
    decreases until
  {
    if from < until { OpenFrame(a, b, from, until - 1); }
  }

  /** A scan that starts later sees at most the calls an earlier scan sees. */
  lemma {:induction false} OpenShrinks(items: seq<ProjectedItem>, from: nat, later: nat, until: nat)
    requires from <= later <= until <= |items|
    ensures OpenItems(items, later, until) <= OpenItems(items, from, until)
    ensures OpenItems(items, from, later) == {} ==> OpenItems(items, later, until) == OpenItems(items, from, until)
    decreases until
  {
    if later < until { OpenShrinks(items, from, later, until - 1); }
  }

  lemma {:induction false} PlaceholdersClose(items: seq<ProjectedItem>, ids: seq<CallId>, k: nat, stable: bool)
    requires k <= |ids|
    ensures var all := items + Placeholders(ids, stable);
            OpenItems(all, 0, |items| + k) == OpenItems(items, 0, |items|) - (set i | 0 <= i < k :: ids[i])
    decreases k
  {
    var all := items + Placeholders(ids, stable);
    if k == 0 {
      OpenFrame(items, all, 0, |items|);
    } else {
      PlaceholdersClose(items, ids, k - 1, stable);
      assert all[|items| + k - 1].value == Placeholder(ids[k - 1]);
      assert (set i | 0 <= i < k :: ids[i]) == (set i | 0 <= i < k - 1 :: ids[i]) + {ids[k - 1]};
    }
  }

  lemma OpenPush(items: seq<ProjectedItem>, p: ProjectedItem)
    ensures OpenItems(items + [p], 0, |items| + 1) == Track(OpenItems(items, 0, |items|), p.value)
  {
    OpenFrame(items, items + [p], 0, |items|);
  }

  ghost predicate Tracked(r: Repair) {
    r.Repair? ==> r.pending == OpenItems(r.items, 0, |r.items|)
  }

  lemma AllIds(ids: seq<CallId>, s: set<CallId>)
    requires forall x :: x in ids <==> x in s
    ensures (set i | 0 <= i < |ids| :: ids[i]) == s
  {
    forall x | x in s ensures exists i :: 0 <= i < |ids| && ids[i] == x {
      assert x in ids;
    }
  }

  lemma FlushTracked(s: Session, r: Repair, stable: bool)
    requires Tracked(r)
    ensures Tracked(Flush(s, r, stable))
  {
    var f := Flush(s, r, stable);
    if f.Repair? {
      var ids := IdOrder.Sorted(r.pending);
      PlaceholdersClose(r.items, ids, |ids|, stable);
      AllIds(ids, r.pending);
    }
  }

  lemma FlushBeforeTracked(s: Session, r: Repair, k: nat) returns (f: Repair)
    requires k < |s.history| && Tracked(r)
    ensures f == FlushBefore(s, r, k) && Tracked(f)
  {
    f := FlushBefore(s, r, k);
    FlushTracked(s, r, k <= Settled(s));
  }

  lemma PushTracked(s: Session, r: Repair, k: nat) returns (after: Repair)
    requires k < |s.history| && Tracked(r)
    ensures after == Push(s, r, k) && Tracked(after)
  {
    after := Push(s, r, k);
    if r.Repair? { OpenPush(r.items, ProjectedItem(s.history[k], Some(k), k < Settled(s))); }
  }

  /** The repair's pending set is what a scan over its own items finds open. */
  lemma {:induction false} RepairTracked(s: Session, k: nat) returns (r: Repair)
    requires k <= |s.history|
    ensures r == RepairUpTo(s, k) && Tracked(r)
  {
    if k == 0 {
      r := RepairUpTo(s, 0);
    } else {
      r := RepairTracked(s, k - 1);
      r := FlushBeforeTracked(s, r, k - 1);
      r := PushTracked(s, r, k - 1);
    }
  }

  /** Repair leaves nothing open. */
  lemma RepairedCloses(s: Session)
    ensures var r := Repaired(s); r.Repair? ==> OpenItems(r.items, 0, |r.items|) == {}
  {
    var r := RepairTracked(s, |s.history|);
    FlushTracked(s, r, Settled(s) == |s.history|);
  }

  /** The pending set depends on the history alone. */
  lemma {:induction false} PendingIsOpenCalls(s: Session, k: nat)
    requires k <= |s.history|
    ensures RepairUpTo(s, k).Repair? ==> RepairUpTo(s, k).pending == OpenCalls(s.history, k)
  {
    if k > 0 { PendingIsOpenCalls(s, k - 1); }
  }

  /** Repair only appends. */
  lemma {:induction false} RepairAppends(s: Session, k: nat, n: nat)
    requires k <= n <= |s.history|
    ensures RepairUpTo(s, n).Repair? ==> RepairUpTo(s, k).Repair? && RepairUpTo(s, k).items <= RepairUpTo(s, n).items
    decreases n
  {
    if k < n {
      RepairAppends(s, k, n - 1);
    }
  }

  // ----- What every cut keeps -----

  lemma {:induction false} EpochScanOpen(items: seq<ProjectedItem>, start: nat, end: nat, budget: nat)
    requires start <= end <= |items|
    ensures var e := EpochScan(items, start, end, budget);
            e.open == OpenItems(items, start, end)
            && (e.open == {} ==> e.unitStart == end)
            && OpenItems(items, start, e.start) == {} && OpenItems(items, start, e.unitStart) == {}
    decreases end
  {
    if start < end { EpochScanOpen(items, start, end - 1, budget); }
  }

  /** A suffix cut stops only where nothing is open, or at the end. */
  lemma {:induction false} SuffixCutOpen(items: seq<ProjectedItem>, from: nat, start: nat, end: nat, budget: nat)
    requires from <= start <= end <= |items|
    ensures var cut := SuffixCut(items, start, end, budget, OpenItems(items, from, start));
            cut == end || OpenItems(items, from, cut) == {}
    decreases end - start
  {
    var open := OpenItems(items, from, start);
    if start < end && (Span(items, start, end) > budget || open != {}) {
      assert OpenItems(items, from, start + 1) == Track(open, items[start].value);
      SuffixCutOpen(items, from, start + 1, end, budget);
    }
  }

  /** When nothing is open at the stable boundary or the end, nothing is open at any cut. */
  lemma CutsClosed(items: seq<ProjectedItem>, maxBytes: nat)
    requires OpenItems(items, 0, StablePrefix(items)) == {} && OpenItems(items, 0, |items|) == {}
    ensures var c := CutsOf(items, maxBytes);
            OpenItems(items, 0, c.base) == {} && OpenItems(items, 0, c.epoch) == {} && OpenItems(items, 0, c.live) == {}
  {
    var c := CutsOf(items, maxBytes);
    var stable := StablePrefix(items);
    var budget := AppendBudget(maxBytes);
    EpochScanOpen(items, stable, |items|, budget);
    OpenShrinks(items, 0, stable, c.epoch);
    var oversized := Span(items, c.epoch, |items|) > budget;
    if oversized {
      SuffixCutOpen(items, c.epoch, c.epoch, |items|, SatSub(maxBytes, NOTICE_RESERVE * 2));
      OpenShrinks(items, 0, c.epoch, c.live);
    }
    var reserved := if oversized then Span(items, c.live, |items|) else budget;
    var baseBudget := SatSub(SatSub(SatSub(maxBytes, reserved), NOTICE_RESERVE),
                             if c.live > c.epoch then NOTICE_RESERVE else 0);
    SuffixCutOpen(items, 0, 0, c.epoch, baseBudget);
  }
}
