/** Choosing between native text and bitmap from paired receipts. */
module CostEstimate {
  import opened Options

  datatype Kind = Native | Bitmap

  type Digest = string
  type Model = string

  datatype Observation = Observation(model: Model, sourceHistory: Digest, controls: Digest, selected: map<Digest, Kind>,
                                     input: Option<nat>, cached: Option<nat>, output: Option<nat>, reasoning: Option<nat>,
                                     cost: Option<nat>, paired: map<Digest, PairedTokens>)

  /** Exact input counts of one request in both representations. */
  datatype PairedTokens = PairedTokens(native: nat, bitmap: nat)

  datatype Recommendation = UseNative | MeasureBitmap | UseBitmap

  /** A complete receipt; the cost is in the smallest unit of the currency. */
  datatype Receipt = Receipt(input: nat, cached: nat, output: nat, reasoning: nat, cost: nat)

  datatype Estimate = Estimate(selected: Kind, nativeInput: nat, bitmapInput: nat, nativeCost: nat, bitmapCost: nat, savings: nat)

  function ReceiptOf(o: Observation): (r: Option<Receipt>)
    ensures r.Some? <==> o.input.Some? && o.cached.Some? && o.output.Some? && o.reasoning.Some? && o.cost.Some?
                         && o.cached.value <= o.input.value && o.reasoning.value <= o.output.value
    ensures r.Some? ==> r.value == Receipt(o.input.value, o.cached.value, o.output.value, o.reasoning.value, o.cost.value)
  {
    if o.input.None? || o.cached.None? || o.output.None? || o.reasoning.None? then None
    else if o.cached.value > o.input.value || o.reasoning.value > o.output.value then None
    else if o.cost.None? then None
    else Some(Receipt(o.input.value, o.cached.value, o.output.value, o.reasoning.value, o.cost.value))
  }

  predicate Shows(o: Observation, model: Model, segment: Digest, kind: Kind) {
    o.model == model && segment in o.selected && o.selected[segment] == kind
  }

  function Others(selected: map<Digest, Kind>, segment: Digest): map<Digest, Kind> { selected - {segment} }

  /** The two calls differ in nothing but the segment's representation, and both have full receipts. */
  predicate Comparable(native: Observation, bitmap: Observation, model: Model, segment: Digest) {
    && Shows(native, model, segment, Native) && Shows(bitmap, model, segment, Bitmap)
    && native.sourceHistory == bitmap.sourceHistory && native.controls == bitmap.controls
    && Others(native.selected, segment) == Others(bitmap.selected, segment)
    && ReceiptOf(native).Some? && ReceiptOf(bitmap).Some?
    && ReceiptOf(native).value.output == ReceiptOf(bitmap).value.output
    && ReceiptOf(native).value.reasoning == ReceiptOf(bitmap).value.reasoning
  }

  type Pair = (Receipt, Receipt)

  /** The pair of receipts is that of two comparable observations. */
  ghost predicate Observed(observations: seq<Observation>, model: Model, segment: Digest, pair: Pair) {
    exists n, b :: n in observations && b in observations && Comparable(n, b, model, segment)
                   && pair == (ReceiptOf(n).value, ReceiptOf(b).value)
  }

  function Distance(a: nat, b: nat): nat { if a <= b then b - a else a - b }

  function EstimateOf(pair: Pair): Estimate {
    var (native, bitmap) := pair;
    Estimate(if bitmap.cost < native.cost then Bitmap else Native, native.input, bitmap.input, native.cost, bitmap.cost,
             Distance(native.cost, bitmap.cost))
  }

  /** The estimate, as a property of the set of comparable pairs: there is one, and they all agree. */
  ghost predicate Estimates(observations: seq<Observation>, model: Model, segment: Digest, e: Option<Estimate>) {
    && (e.Some? <==> Unanimous(observations, model, segment))
    && (e.Some? ==> exists pair :: Observed(observations, model, segment, pair) && e.value == EstimateOf(pair))
  }

  ghost predicate Unanimous(observations: seq<Observation>, model: Model, segment: Digest) {
    && (exists pair :: Observed(observations, model, segment, pair))
    && (forall p, q :: Observed(observations, model, segment, p) && Observed(observations, model, segment, q) ==> p == q)
  }

  class Profile {
    var observations: seq<Observation>

    constructor ()
      ensures observations == []
    {
      observations := [];
    }

    method Observe(o: Observation)
      modifies this
      ensures observations == old(observations) + [o]
    {
      observations := observations + [o];
    }

    /** Collect every comparable pair; estimate only when there is one and all are equal. */
    method EstimateFor(model: Model, segment: Digest) returns (e: Option<Estimate>)
      ensures Estimates(observations, model, segment, e)
    {
      var pairs := CollectPairs(observations, model, segment);
      if pairs == [] { return None; }
      var first := pairs[0];
      assert Observed(observations, model, segment, first);
      for i := 0 to |pairs|
        invariant forall k :: 0 <= k < i ==> pairs[k] == first
      {
        if pairs[i] != first {
          assert Observed(observations, model, segment, pairs[i]);
          return None;
        }
      }
      var (native, bitmap) := first;
      var selected, savings := Native, if native.cost <= bitmap.cost then bitmap.cost - native.cost else 0;
      if bitmap.cost < native.cost { selected, savings := Bitmap, native.cost - bitmap.cost; }
      e := Some(Estimate(selected, native.input, bitmap.input, native.cost, bitmap.cost, savings));
    }

    /** Native unless an estimate says otherwise. */
    method Select(model: Model, segment: Digest) returns (kind: Kind)
      ensures kind == Bitmap <==> CheaperBitmap(observations, model, segment)
    {
      var e := EstimateFor(model, segment);
      kind := if e.Some? then e.value.selected else Native;
    }

    /** Exact counts first, then receipts, and a measurement only while no bitmap has been tried. */
    method Recommend(model: Model, segment: Digest) returns (r: Recommendation)
      ensures var pair := LatestPair(observations, model, segment, |observations|);
              && (pair.Some? ==> r == if pair.value.bitmap < pair.value.native then UseBitmap else UseNative)
              && (pair.None? ==> (r == UseBitmap <==> CheaperBitmap(observations, model, segment)))
              && (r == MeasureBitmap <==> pair.None? && NativeMeasured(observations, model, segment) && !BitmapSeen(observations, model, segment))
    {
      var k := |observations|;
      while k > 0
        invariant 0 <= k <= |observations|
        invariant LatestPair(observations, model, segment, |observations|) == LatestPair(observations, model, segment, k)
      {
        k := k - 1;
        if observations[k].model == model && segment in observations[k].paired {
          var pair := observations[k].paired[segment];
          return if pair.bitmap < pair.native then UseBitmap else UseNative;
        }
      }
      var e := EstimateFor(model, segment);
      if e.Some? {
        return if e.value.selected == Bitmap then UseBitmap else UseNative;
      }
      var native, bitmapSeen := false, false;
      for i := 0 to |observations|
        invariant native <==> exists k :: 0 <= k < i && Shows(observations[k], model, segment, Native) && ReceiptOf(observations[k]).Some?
        invariant bitmapSeen <==> exists k :: 0 <= k < i && Shows(observations[k], model, segment, Bitmap)
      {
        native := native || (Shows(observations[i], model, segment, Native) && ReceiptOf(observations[i]).Some?);
        bitmapSeen := bitmapSeen || Shows(observations[i], model, segment, Bitmap);
      }
      r := if native && !bitmapSeen then MeasureBitmap else UseNative;
    }
  }

  /** The most recent exact count pair among the first `n` observations. */
  function LatestPair(observations: seq<Observation>, model: Model, segment: Digest, n: nat): Option<PairedTokens>
    requires n <= |observations|
  {
    if n == 0 then None
    else if observations[n - 1].model == model && segment in observations[n - 1].paired then Some(observations[n - 1].paired[segment])
    else LatestPair(observations, model, segment, n - 1)
  }

  ghost predicate NativeMeasured(observations: seq<Observation>, model: Model, segment: Digest) {
    exists o :: o in observations && Shows(o, model, segment, Native) && ReceiptOf(o).Some?
  }

  ghost predicate BitmapSeen(observations: seq<Observation>, model: Model, segment: Digest) {
    exists o :: o in observations && Shows(o, model, segment, Bitmap)
  }

  /** All comparable pairs agree, and in them the bitmap is strictly cheaper. */
  ghost predicate CheaperBitmap(observations: seq<Observation>, model: Model, segment: Digest) {
    && Unanimous(observations, model, segment)
    && forall p: Pair :: Observed(observations, model, segment, p) ==> p.1.cost < p.0.cost
  }

  /** A pair of the first `i` observations as native and, for the `i`-th, the first `j` as bitmap. */
  ghost predicate Collected(observations: seq<Observation>, model: Model, segment: Digest, i: nat, j: nat, pair: Pair) {
    exists a, b :: 0 <= a < |observations| && 0 <= b < |observations| && (a < i || (a == i && b < j))
                   && IsPair(observations[a], observations[b], model, segment, pair)
  }

  ghost predicate IsPair(n: Observation, b: Observation, model: Model, segment: Digest, pair: Pair) {
    Comparable(n, b, model, segment) && pair == (ReceiptOf(n).value, ReceiptOf(b).value)
  }

  method CollectPairs(observations: seq<Observation>, model: Model, segment: Digest) returns (pairs: seq<Pair>)
    ensures forall p :: p in pairs <==> Observed(observations, model, segment, p)
  {
    pairs := [];
    for i := 0 to |observations|
      invariant forall p :: p in pairs <==> Collected(observations, model, segment, i, 0, p)
    {
      var native := observations[i];
      if Shows(native, model, segment, Native) && ReceiptOf(native).Some? {
        for j := 0 to |observations|
          invariant forall p :: p in pairs <==> Collected(observations, model, segment, i, j, p)
        {
          var bitmap := observations[j];
          if bitmap.model == model && bitmap.sourceHistory == native.sourceHistory && bitmap.controls == native.controls
             && Shows(bitmap, model, segment, Bitmap) && Others(native.selected, segment) == Others(bitmap.selected, segment)
             && ReceiptOf(bitmap).Some?
          {
            var n, b := ReceiptOf(native).value, ReceiptOf(bitmap).value;
            if n.output == b.output && n.reasoning == b.reasoning { pairs := pairs + [(n, b)]; }
          }
        }
      }
    }
  }

  // ----- What the estimate depends on -----

  /** Only which observations there are matters, not their order or how often each occurs. */
  lemma PairsFromContents(a: seq<Observation>, b: seq<Observation>, model: Model, segment: Digest, pair: Pair)
    requires forall o :: o in a ==> o in b
    ensures Observed(a, model, segment, pair) ==> Observed(b, model, segment, pair)
  {
  }

  /** Any permutation of the observations has the same estimate and selection. */
  lemma OrderIndependent(a: seq<Observation>, b: seq<Observation>, model: Model, segment: Digest, ea: Option<Estimate>, eb: Option<Estimate>)
    requires multiset(a) == multiset(b)
    requires Estimates(a, model, segment, ea) && Estimates(b, model, segment, eb)
    ensures ea == eb
    ensures CheaperBitmap(a, model, segment) <==> CheaperBitmap(b, model, segment)
  {
    SameContents(a, b);
    forall p ensures Observed(a, model, segment, p) <==> Observed(b, model, segment, p) {
      PairsFromContents(a, b, model, segment, p);
      PairsFromContents(b, a, model, segment, p);
    }
  }

  lemma SameContents(a: seq<Observation>, b: seq<Observation>)
    requires multiset(a) == multiset(b)
    ensures forall o :: o in a <==> o in b
  {
    forall o ensures o in a <==> o in b {
      assert o in a <==> o in multiset(a);
      assert o in b <==> o in multiset(b);
    }
  }

  /** A bitmap is selected only when every comparable pair is the same and strictly cheaper as a bitmap. */
  lemma SelectionIsCheaper(observations: seq<Observation>, model: Model, segment: Digest, e: Option<Estimate>)
    requires Estimates(observations, model, segment, e)
    ensures e.Some? && e.value.selected == Bitmap <==> CheaperBitmap(observations, model, segment)
    ensures e.Some? ==> e.value.savings == Distance(e.value.nativeCost, e.value.bitmapCost)
    ensures e.Some? ==> (e.value.selected == Bitmap <==> e.value.bitmapCost < e.value.nativeCost)
  {
    if e.Some? {
      var pair :| Observed(observations, model, segment, pair) && e.value == EstimateOf(pair);
      assert forall p :: Observed(observations, model, segment, p) ==> p == pair;
    }
  }

  /** Once two comparable pairs disagree, no later observation brings an estimate back. */
  lemma DisagreementIsFinal(before: seq<Observation>, later: seq<Observation>, model: Model, segment: Digest,
                            p: Pair, q: Pair, e: Option<Estimate>)
    requires Observed(before, model, segment, p) && Observed(before, model, segment, q) && p != q
    requires before <= later && Estimates(later, model, segment, e)
    ensures e.None? && !CheaperBitmap(later, model, segment)
  {
    PairsFromContents(before, later, model, segment, p);
    PairsFromContents(before, later, model, segment, q);
  }

  /** One bitmap tried, or one exact count taken, ends the measuring for good. */
  lemma {:induction false} MeasuredOnce(before: seq<Observation>, later: seq<Observation>, model: Model, segment: Digest)
    requires before <= later
    requires BitmapSeen(before, model, segment) || LatestPair(before, model, segment, |before|).Some?
    ensures BitmapSeen(later, model, segment) || LatestPair(later, model, segment, |later|).Some?
  {
    if LatestPair(before, model, segment, |before|).Some? {
      PairPrefix(before, later, model, segment, |before|);
      PairKept(later, model, segment, |before|, |later|);
    }
  }

  lemma {:induction false} PairPrefix(before: seq<Observation>, later: seq<Observation>, model: Model, segment: Digest, n: nat)
    requires before <= later && n <= |before|
    ensures LatestPair(later, model, segment, n) == LatestPair(before, model, segment, n)
    decreases n
  {
    if n > 0 { PairPrefix(before, later, model, segment, n - 1); }
  }

  lemma {:induction false} PairKept(observations: seq<Observation>, model: Model, segment: Digest, i: nat, n: nat)
    requires i <= n <= |observations| && LatestPair(observations, model, segment, i).Some?
    ensures LatestPair(observations, model, segment, n).Some?
    decreases n
  {
    if i < n { PairKept(observations, model, segment, i, n - 1); }
  }
}
