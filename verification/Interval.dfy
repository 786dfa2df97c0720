/** Interval triggers: catching up on missed slots without a loop. */
module Interval {
  import opened Options
  import opened Multiples

  const MAX_U64: nat := 0xFFFF_FFFF_FFFF_FFFF
  const MIN_INTERVAL: nat := 1000

  type U64 = n: int | 0 <= n <= MAX_U64

  /** The newest slot due, the slot after it, and how many slots have passed. */
  datatype Due = Due(latest: U64, following: U64, count: U64)

  /** What an interval source is accepted with: at least a second, and a next slot that exists. */
  predicate ValidInterval(first: U64, interval: U64) { interval >= MIN_INTERVAL && first + interval <= MAX_U64 }

  // ----- Counting intervals -----

  lemma {:induction false} TimesAtLeast(k: nat, interval: nat)
    requires interval >= MIN_INTERVAL
    ensures MIN_INTERVAL * k <= Times(k, interval)
    decreases k
  {
    if k > 0 { TimesAtLeast(k - 1, interval); }
  }

  lemma TimesGrows(a: nat, b: nat, interval: nat)
    ensures a < b ==> Times(a, interval) + interval <= Times(b, interval)
  {
    if a < b { TimesAdds(a + 1, b - a - 1, interval); }
  }

  /** At most one slot is the newest at a time. */
  lemma SlotUnique(interval: nat, elapsed: nat, a: nat, b: nat)
    requires Times(a, interval) <= elapsed < Times(a, interval) + interval
    requires Times(b, interval) <= elapsed < Times(b, interval) + interval
    ensures a == b
  {
    TimesGrows(a, b, interval);
    TimesGrows(b, a, interval);
  }

  lemma DivMod(a: nat, b: nat)
    requires b > 0
    ensures a == a / b * b + a % b
  {
  }

  /** Division picks the newest slot. */
  lemma QuotientIsSlot(elapsed: nat, interval: nat)
    requires interval >= MIN_INTERVAL
    ensures elapsed / interval >= 0
    ensures Times(elapsed / interval, interval) == elapsed / interval * interval
    ensures Times(elapsed / interval, interval) <= elapsed < Times(elapsed / interval, interval) + interval
    ensures MIN_INTERVAL * (elapsed / interval) <= elapsed
  {
    DivMod(elapsed, interval);
    TimesIsProduct(elapsed / interval, interval);
    TimesAtLeast(elapsed / interval, interval);
  }

  // ----- The formula -----

  /** Plain arithmetic on 64-bit values: every intermediate result is representable. */
  function LatestDue(next: U64, interval: U64, now: U64): (due: Option<Due>)
    requires interval >= MIN_INTERVAL
    ensures due.Some? ==> next <= due.value.latest <= now < due.value.following
    ensures due.Some? ==> due.value.count > 0 && due.value.latest == next + Times(due.value.count - 1, interval)
    ensures due.Some? ==> due.value.following == next + Times(due.value.count, interval)
  {
    if now < next then None
    else
      QuotientIsSlot(now - next, interval);
      var quotient: U64 := (now - next) / interval;
      var count: U64 := quotient + 1;
      var offset: U64 := (count - 1) * interval;
      var latest: U64 := next + offset;
      if latest + interval > MAX_U64 then None else Some(Due(latest, latest + interval, count))
  }

  /** One slot at a time, as a clock would count them. */
  method CountSlots(next: U64, interval: U64, now: U64) returns (latest: nat, count: nat)
    requires interval >= MIN_INTERVAL && next <= now
    ensures count > 0 && latest == next + Times(count - 1, interval) && latest <= now < latest + interval
  {
    latest, count := next, 1;
    while latest + interval <= now
      invariant count > 0 && latest == next + Times(count - 1, interval) && latest <= now
      decreases now - latest
    {
      latest, count := latest + interval, count + 1;
    }
  }

  /** The formula gives what the loop gives, unless the slot after the newest is not representable. */
  method CatchUp(next: U64, interval: U64, now: U64) returns (due: Option<Due>)
    requires interval >= MIN_INTERVAL
    ensures due == LatestDue(next, interval, now)
  {
    if now < next { return None; }
    var latest, count := CountSlots(next, interval, now);
    QuotientIsSlot(now - next, interval);
    SlotUnique(interval, now - next, count - 1, (now - next) / interval);
    due := if latest + interval > MAX_U64 then None else Some(Due(latest, latest + interval, count));
  }

  /** Nothing is due exactly before the next slot, or when the newest slot is the last representable one. */
  lemma RefusedIff(next: U64, interval: U64, now: U64, k: nat)
    requires interval >= MIN_INTERVAL
    requires next <= now ==> Times(k, interval) <= now - next < Times(k, interval) + interval
    ensures LatestDue(next, interval, now).None? <==> now < next || next + Times(k + 1, interval) > MAX_U64
  {
    if next <= now {
      QuotientIsSlot(now - next, interval);
      SlotUnique(interval, now - next, k, (now - next) / interval);
    }
  }

  /** Validation is exact: a source's first slot can ever fire if and only if the configuration is accepted. */
  lemma ValidMeansFires(first: U64, interval: U64)
    requires interval >= MIN_INTERVAL
    ensures ValidInterval(first, interval) <==> exists now: U64 :: LatestDue(first, interval, now).Some?
  {
    if ValidInterval(first, interval) {
      QuotientIsSlot(0, interval);
      TimesAtLeast(0, interval);
      RefusedIff(first, interval, first, 0);
      assert Times(1, interval) == Times(0, interval) + interval;
      assert LatestDue(first, interval, first).Some?;
    }
  }

  // ----- A source over any sequence of clock readings -----

  /** A tick of the source; while an earlier event is unsettled it does nothing. */
  datatype Reading = Reading(now: U64, busy: bool)

  function Tick(next: U64, interval: U64, reading: Reading): (due: Option<Due>)
    requires interval >= MIN_INTERVAL
  {
    if reading.busy then None else LatestDue(next, interval, reading.now)
  }

  /** The source's durable cursor after the first `n` readings. */
  function Cursor(first: U64, interval: U64, readings: seq<Reading>, n: nat): (next: U64)
    requires interval >= MIN_INTERVAL && n <= |readings|
    decreases n, 0
  {
    if n == 0 then first
    else
      var due := FiredAt(first, interval, readings, n - 1);
      if due.Some? then due.value.following else Cursor(first, interval, readings, n - 1)
  }

  function FiredAt(first: U64, interval: U64, readings: seq<Reading>, i: nat): Option<Due>
    requires interval >= MIN_INTERVAL && i < |readings|
    decreases i, 1
  {
    Tick(Cursor(first, interval, readings, i), interval, readings[i])
  }

  function Covers(due: Option<Due>): nat { if due.Some? then due.value.count else 0 }

  /** How many slots the firings so far have covered. */
  function Covered(first: U64, interval: U64, readings: seq<Reading>, n: nat): nat
    requires interval >= MIN_INTERVAL && n <= |readings|
  {
    if n == 0 then 0
    else Covered(first, interval, readings, n - 1) + Covers(FiredAt(first, interval, readings, n - 1))
  }

  /** The cursor is the first slot not covered: the counts of all firings sum to the slots passed. */
  lemma {:induction false} CursorIsCovered(first: U64, interval: U64, readings: seq<Reading>, n: nat)
    requires interval >= MIN_INTERVAL && n <= |readings|
    ensures Cursor(first, interval, readings, n) == first + Times(Covered(first, interval, readings, n), interval)
    decreases n
  {
    if n > 0 {
      CursorIsCovered(first, interval, readings, n - 1);
      TimesAdds(Covered(first, interval, readings, n - 1), Covers(FiredAt(first, interval, readings, n - 1)), interval);
    }
  }

  lemma {:induction false} CursorGrows(first: U64, interval: U64, readings: seq<Reading>, i: nat, j: nat)
    requires interval >= MIN_INTERVAL && i <= j <= |readings|
    ensures Cursor(first, interval, readings, i) <= Cursor(first, interval, readings, j)
    decreases j
  {
    if i < j { CursorGrows(first, interval, readings, i, j - 1); }
  }

  /** A firing is for the last slot covered so far, `first` plus a whole number of intervals, never in the future. */
  lemma FiringsAreSlots(first: U64, interval: U64, readings: seq<Reading>, i: nat)
    requires interval >= MIN_INTERVAL && i < |readings| && FiredAt(first, interval, readings, i).Some?
    ensures var due, covered := FiredAt(first, interval, readings, i).value, Covered(first, interval, readings, i + 1);
            covered > 0 && due.latest == first + (covered - 1) * interval && due.latest <= readings[i].now < due.following
  {
    CursorIsCovered(first, interval, readings, i + 1);
    var covered := Covered(first, interval, readings, i + 1);
    TimesIsProduct(covered - 1, interval);
  }

  /** Slots fire in strictly increasing order whatever the clock does, rollbacks included. */
  lemma FiringsIncrease(first: U64, interval: U64, readings: seq<Reading>, i: nat, j: nat)
    requires interval >= MIN_INTERVAL && i < j < |readings|
    requires FiredAt(first, interval, readings, i).Some? && FiredAt(first, interval, readings, j).Some?
    ensures FiredAt(first, interval, readings, i).value.following <= FiredAt(first, interval, readings, j).value.latest
    ensures FiredAt(first, interval, readings, i).value.latest < FiredAt(first, interval, readings, j).value.latest
  {
    CursorGrows(first, interval, readings, i + 1, j);
  }

  /**
   An idle reading with room for one more interval leaves the source caught up: every slot up to it is
   covered and, if it fired, none beyond it.
   */
  lemma CaughtUp(first: U64, interval: U64, readings: seq<Reading>, i: nat)
    requires interval >= MIN_INTERVAL && i < |readings| && !readings[i].busy && readings[i].now + interval <= MAX_U64
    ensures readings[i].now < first + Times(Covered(first, interval, readings, i + 1), interval)
    ensures FiredAt(first, interval, readings, i).Some? <==> Cursor(first, interval, readings, i) <= readings[i].now
    ensures FiredAt(first, interval, readings, i).Some? ==>
              Covered(first, interval, readings, i + 1) == (readings[i].now - first) / interval + 1
  {
    var next, now := Cursor(first, interval, readings, i), readings[i].now;
    CursorIsCovered(first, interval, readings, i + 1);
    if next <= now {
      QuotientIsSlot(now - next, interval);
      FiringsAreSlots(first, interval, readings, i);
      var covered := Covered(first, interval, readings, i + 1);
      CursorGrows(first, interval, readings, 0, i);
      QuotientIsSlot(now - first, interval);
      SlotUnique(interval, now - first, (now - first) / interval, covered - 1);
    }
  }
}
