/** The accounting of an auxiliary run: when it started, its model calls, and what they cost. */
module Accounting {
  import opened Options
  import IdOrder

  const MAX_U64: nat := 0xFFFF_FFFF_FFFF_FFFF

  type Uuid = string

  datatype Receipt = Receipt(status: string, tokens: Option<nat>, report: string)

  datatype Record =
    | ClassificationIntended(atMs: nat, call: Uuid)
    | ClassificationObserved(call: Uuid, receipt: Receipt)
    | Started(atMs: nat)
    | ModelIntended(call: Uuid)
    | ModelObserved(call: Uuid, receipt: Receipt)
    | ToolObserved

  type Calls = map<Uuid, Option<Receipt>>

  datatype Book = Book(startedMs: Option<nat>, classifiedMs: Option<nat>, runStartedMs: Option<nat>, calls: Calls)

  const EMPTY: Book := Book(None, None, None, map[])

  function Earliest(existing: Option<nat>, at: nat): Option<nat> {
    if existing.Some? then Some(Min(existing.value, at)) else Some(at)
  }

  // ----- Which records are accepted, and what they change -----

  predicate IsStart(r: Record) { r.ClassificationIntended? || r.Started? }
  predicate IsIntent(r: Record) { r.ClassificationIntended? || r.ModelIntended? }
  predicate IsReceipt(r: Record) { r.ClassificationObserved? || r.ModelObserved? }

  predicate Pending(b: Book, call: Uuid) { call in b.calls && b.calls[call] == None }

  predicate Accepts(b: Book, r: Record) {
    match r
    case ClassificationIntended(_, call) => b.runStartedMs.None? && call !in b.calls
    case ClassificationObserved(call, _) => Pending(b, call)
    case Started(_) => b.runStartedMs.None?
    case ModelIntended(call) => call !in b.calls
    case ModelObserved(call, _) => Pending(b, call)
    case ToolObserved => b.runStartedMs.Some?
  }

  /** The book after a record; a refused record changes nothing. */
  function Step(b: Book, r: Record): Book {
    if !Accepts(b, r) then b
    else
      match r
      case ClassificationIntended(at, call) =>
        Book(Earliest(b.startedMs, at), Earliest(b.classifiedMs, at), b.runStartedMs, b.calls[call := None])
      case Started(at) => Book(Earliest(b.startedMs, at), b.classifiedMs, Some(at), b.calls)
      case ModelIntended(call) => b.(calls := b.calls[call := None])
      case ClassificationObserved(call, receipt) => b.(calls := b.calls[call := Some(receipt)])
      case ModelObserved(call, receipt) => b.(calls := b.calls[call := Some(receipt)])
      case ToolObserved => b
  }

  // ----- Tokens -----

  function Known(receipt: Option<Receipt>): Option<nat> { if receipt.Some? then receipt.value.tokens else None }

  function Count(receipt: Option<Receipt>): nat { if Known(receipt).Some? then Known(receipt).value else 0 }

  ghost predicate AllKnown(calls: Calls) { forall c :: c in calls ==> Known(calls[c]).Some? }

  /** The known counts of some calls. */
  ghost function Total(calls: Calls, s: set<Uuid>): nat
    requires s <= calls.Keys
    decreases |s|
  {
    if s == {} then 0
    else
      var c := IdOrder.First(s);
      Count(calls[c]) + Total(calls, s - {c})
  }

  /** The total does not depend on the order it is taken in. */
  lemma {:induction false} TotalAny(calls: Calls, s: set<Uuid>, c: Uuid)
    requires s <= calls.Keys && c in s
    ensures Total(calls, s) == Count(calls[c]) + Total(calls, s - {c})
    decreases |s|
  {
    var first := IdOrder.First(s);
    if first != c {
      TotalAny(calls, s - {first}, c);
      TotalAny(calls, s - {c}, first);
      assert s - {first} - {c} == s - {c} - {first};
    }
  }

  /** Calls outside the set do not matter to it. */
  lemma {:induction false} TotalFrame(a: Calls, b: Calls, s: set<Uuid>)
    requires s <= a.Keys && s <= b.Keys && forall c :: c in s ==> a[c] == b[c]
    ensures Total(a, s) == Total(b, s)
    decreases |s|
  {
    if s != {} { TotalFrame(a, b, s - {IdOrder.First(s)}); }
  }

  lemma TotalUpdate(calls: Calls, c: Uuid, receipt: Option<Receipt>)
    requires c !in calls || Count(calls[c]) == 0
    ensures Total(calls[c := receipt], calls[c := receipt].Keys) == Total(calls, calls.Keys) + Count(receipt)
  {
    var after, rest := calls[c := receipt], calls.Keys - {c};
    TotalAny(after, after.Keys, c);
    assert after.Keys - {c} == rest;
    TotalFrame(calls, after, rest);
    if c in calls { TotalAny(calls, calls.Keys, c); } else { assert rest == calls.Keys; }
  }

  /** Known exactly when every call's count is known and their sum is representable. */
  ghost function TokensOf(calls: Calls): Option<nat> {
    if AllKnown(calls) && Total(calls, calls.Keys) <= MAX_U64 then Some(Total(calls, calls.Keys)) else None
  }

  // ----- The accounting object -----

  class Ledger {
    var startedMs: Option<nat>
    var classifiedMs: Option<nat>
    var runStartedMs: Option<nat>
    var calls: Calls

    ghost function Contents(): Book
      reads this
    {
      Book(startedMs, classifiedMs, runStartedMs, calls)
    }

    constructor ()
      ensures Contents() == EMPTY
    {
      startedMs, classifiedMs, runStartedMs, calls := None, None, None, map[];
    }

    /** The start is never later than any time given, and always one of them. */
    method StartAt(at: nat)
      modifies this`startedMs
      ensures startedMs.Some? && startedMs.value <= at && (old(startedMs).Some? ==> startedMs.value <= old(startedMs).value)
      ensures startedMs == old(startedMs) || startedMs == Some(at)
    {
      startedMs := Some(if startedMs.Some? then Min(startedMs.value, at) else at);
    }

    /** A record is either applied in full or refused with nothing changed. */
    method Apply(r: Record) returns (ok: bool)
      modifies this
      ensures ok <==> Accepts(old(Contents()), r)
      ensures Contents() == Step(old(Contents()), r)
    {
      match r {
        case ClassificationIntended(at, call) =>
          if runStartedMs.Some? || call in calls { return false; }
          classifiedMs := Some(if classifiedMs.Some? then Min(classifiedMs.value, at) else at);
          StartAt(at);
          calls := calls[call := None];
        case ClassificationObserved(call, receipt) =>
          if call !in calls || calls[call].Some? { return false; }
          calls := calls[call := Some(receipt)];
        case Started(at) =>
          if runStartedMs.Some? { return false; }
          runStartedMs := Some(at);
          StartAt(at);
        case ModelIntended(call) =>
          if call in calls { return false; }
          calls := calls[call := None];
        case ModelObserved(call, receipt) =>
          if call !in calls || calls[call].Some? { return false; }
          calls := calls[call := Some(receipt)];
        case ToolObserved =>
          if runStartedMs.None? { return false; }
      }
      ok := true;
    }

    /** Add up the calls in key order, giving up on an unknown count or an overflow. */
    method Tokens() returns (tokens: Option<nat>)
      ensures tokens == TokensOf(calls)
    {
      var total, rest := 0, calls.Keys;
      while rest != {}
        invariant rest <= calls.Keys && total + Total(calls, rest) == Total(calls, calls.Keys) && total <= MAX_U64
        invariant forall c :: c in calls && c !in rest ==> Known(calls[c]).Some?
        decreases |rest|
      {
        var c := IdOrder.Next(rest);
        TotalAny(calls, rest, c);
        if Known(calls[c]).None? { return None; }
        if total + Known(calls[c]).value > MAX_U64 { return None; }
        total := total + Known(calls[c]).value;
        rest := rest - {c};
      }
      tokens := Some(total);
    }

    method HasPendingReceipt() returns (pending: bool)
      ensures pending <==> exists c :: Pending(Contents(), c)
    {
      var rest := calls.Keys;
      while rest != {}
        invariant rest <= calls.Keys && forall c :: c in calls && c !in rest ==> !Pending(Contents(), c)
        decreases |rest|
      {
        var c := IdOrder.Next(rest);
        if calls[c].None? {
          assert Pending(Contents(), c);
          return true;
        }
        rest := rest - {c};
      }
      pending := false;
    }
  }

  // ----- Whole runs: any sequence of records, refused ones among them -----

  function State(records: seq<Record>, n: nat): Book
    requires n <= |records|
  {
    if n == 0 then EMPTY else Step(State(records, n - 1), records[n - 1])
  }

  predicate Accepted(records: seq<Record>, i: nat)
    requires i < |records|
  {
    Accepts(State(records, i), records[i])
  }

  ghost predicate StartedBy(records: seq<Record>, n: nat, i: nat) {
    i < n <= |records| && IsStart(records[i]) && Accepted(records, i)
  }

  /** The start time is the earliest time of any accepted classification or run start. */
  lemma {:induction false} StartIsMinimum(records: seq<Record>, n: nat)
    requires n <= |records|
    ensures State(records, n).startedMs.None? <==> forall i: nat :: !StartedBy(records, n, i)
    ensures State(records, n).startedMs.Some? ==>
              && (exists i: nat :: StartedBy(records, n, i) && records[i].atMs == State(records, n).startedMs.value)
              && (forall i: nat :: StartedBy(records, n, i) ==> State(records, n).startedMs.value <= records[i].atMs)
    decreases n
  {
    if n > 0 {
      StartIsMinimum(records, n - 1);
      var before := State(records, n - 1).startedMs;
      forall i: nat | StartedBy(records, n, i) ensures i == n - 1 || StartedBy(records, n - 1, i) {}
      if IsStart(records[n - 1]) && Accepted(records, n - 1) { assert StartedBy(records, n, n - 1); }
      if before.Some? {
        var i: nat :| StartedBy(records, n - 1, i) && records[i].atMs == before.value;
        assert StartedBy(records, n, i);
      }
    }
  }

  /** Once the run has started its time never changes. */
  lemma {:induction false} RunStartKept(records: seq<Record>, i: nat, n: nat)
    requires i <= n <= |records| && State(records, i).runStartedMs.Some?
    ensures State(records, n).runStartedMs == State(records, i).runStartedMs
    decreases n
  {
    if i < n { RunStartKept(records, i, n - 1); }
  }

  /** The run starts at most once, and no classification is accepted after it. */
  lemma {:induction false} RunStartsOnce(records: seq<Record>, i: nat, j: nat)
    requires i < j < |records| && records[i].Started? && Accepted(records, i)
    ensures State(records, j).runStartedMs == Some(records[i].atMs)
    ensures IsStart(records[j]) ==> !Accepted(records, j)
    ensures records[j].ToolObserved? ==> Accepted(records, j)
  {
    RunStartKept(records, i + 1, j);
  }

  /** Calls stay intended, and a receipt once given never changes. */
  lemma {:induction false} CallsKept(records: seq<Record>, i: nat, n: nat, c: Uuid)
    requires i <= n <= |records| && c in State(records, i).calls
    ensures c in State(records, n).calls
    ensures State(records, i).calls[c].Some? ==> State(records, n).calls[c] == State(records, i).calls[c]
    decreases n
  {
    if i < n { CallsKept(records, i, n - 1, c); }
  }

  /** A call is intended at most once and gets at most one receipt, which is the one kept. */
  lemma {:induction false} OneReceipt(records: seq<Record>, i: nat, n: nat)
    requires i < n <= |records| && IsReceipt(records[i]) && Accepted(records, i)
    ensures records[i].call in State(records, n).calls && State(records, n).calls[records[i].call] == Some(records[i].receipt)
    ensures n < |records| && (IsReceipt(records[n]) || IsIntent(records[n])) && records[n].call == records[i].call ==> !Accepted(records, n)
  {
    CallsKept(records, i + 1, n, records[i].call);
  }

  lemma {:induction false} OneIntent(records: seq<Record>, i: nat, j: nat)
    requires i < j < |records| && IsIntent(records[i]) && Accepted(records, i) && IsIntent(records[j]) && records[j].call == records[i].call
    ensures !Accepted(records, j)
  {
    CallsKept(records, i + 1, j, records[i].call);
  }

  ghost predicate IntendedBy(records: seq<Record>, n: nat, i: nat, c: Uuid) {
    i < n <= |records| && IsIntent(records[i]) && records[i].call == c && Accepted(records, i)
  }

  ghost predicate AnsweredBy(records: seq<Record>, n: nat, i: nat, c: Uuid) {
    i < n <= |records| && IsReceipt(records[i]) && records[i].call == c && Accepted(records, i)
  }

  /** The calls are exactly those intended, and those with a receipt exactly those answered. */
  lemma {:induction false} CallsAreIntents(records: seq<Record>, n: nat, c: Uuid)
    requires n <= |records|
    ensures c in State(records, n).calls <==> exists i: nat :: IntendedBy(records, n, i, c)
    ensures c in State(records, n).calls && State(records, n).calls[c].Some? <==> exists i: nat :: AnsweredBy(records, n, i, c)
    decreases n
  {
    if n > 0 {
      CallsAreIntents(records, n - 1, c);
      var m := n - 1;
      if i: nat :| IntendedBy(records, m, i, c) { assert IntendedBy(records, n, i, c); }
      if i: nat :| AnsweredBy(records, m, i, c) { assert AnsweredBy(records, n, i, c); }
      forall i: nat | IntendedBy(records, n, i, c) ensures i == n - 1 || IntendedBy(records, n - 1, i, c) {}
      forall i: nat | AnsweredBy(records, n, i, c) ensures i == n - 1 || AnsweredBy(records, n - 1, i, c) {}
      var b, r := State(records, n - 1), records[n - 1];
      if IsIntent(r) && r.call == c && Accepts(b, r) { assert IntendedBy(records, n, n - 1, c); }
      if IsReceipt(r) && r.call == c && Accepts(b, r) { assert AnsweredBy(records, n, n - 1, c); }
    }
  }

  /** Tokens reported by the accepted receipts among the first `n` records. */
  function Reported(records: seq<Record>, n: nat): nat
    requires n <= |records|
  {
    if n == 0 then 0
    else Reported(records, n - 1)
         + (if IsReceipt(records[n - 1]) && Accepted(records, n - 1) then Count(Some(records[n - 1].receipt)) else 0)
  }

  lemma {:induction false} TotalIsReported(records: seq<Record>, n: nat)
    requires n <= |records|
    ensures var calls := State(records, n).calls; Total(calls, calls.Keys) == Reported(records, n)
    decreases n
  {
    if n > 0 {
      TotalIsReported(records, n - 1);
      var b, r := State(records, n - 1), records[n - 1];
      if Accepts(b, r) {
        if IsReceipt(r) { TotalUpdate(b.calls, r.call, Some(r.receipt)); }
        if IsIntent(r) { TotalUpdate(b.calls, r.call, None); }
      }
    }
  }

  /**
   Over any sequence of records, tokens are known exactly when every intended call has an accepted
   receipt with a known count and these counts together fit; and then they are their sum.
   */
  lemma {:induction false} TokensAreReported(records: seq<Record>, n: nat)
    requires n <= |records|
    ensures var tokens := TokensOf(State(records, n).calls);
            && (tokens.Some? <==> Reported(records, n) <= MAX_U64 && forall i: nat, c :: IntendedBy(records, n, i, c) ==> KnownAnswer(records, n, c))
            && (tokens.Some? ==> tokens.value == Reported(records, n))
  {
    TotalIsReported(records, n);
    var calls := State(records, n).calls;
    forall c ensures c in calls && Known(calls[c]).Some? <==> KnownAnswer(records, n, c) { KnownIff(records, n, c); }
    forall c ensures c in calls <==> exists i: nat :: IntendedBy(records, n, i, c) { CallsAreIntents(records, n, c); }
  }

  ghost predicate KnownAnswer(records: seq<Record>, n: nat, c: Uuid) {
    exists i: nat :: AnsweredBy(records, n, i, c) && records[i].receipt.tokens.Some?
  }

  lemma {:induction false} KnownIff(records: seq<Record>, n: nat, c: Uuid)
    requires n <= |records|
    ensures var calls := State(records, n).calls; c in calls && Known(calls[c]).Some? <==> KnownAnswer(records, n, c)
  {
    CallsAreIntents(records, n, c);
    forall i: nat | AnsweredBy(records, n, i, c) ensures c in State(records, n).calls && State(records, n).calls[c] == Some(records[i].receipt) {
      OneReceipt(records, i, n);
    }
  }
}
