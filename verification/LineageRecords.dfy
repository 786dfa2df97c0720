/** Reading one historical session's records, and what a read must satisfy. */
module LineageRecords {
  import opened Options
  import opened ByteText

  type Raw = seq<Byte>

  const MAX_USIZE: nat := 0xFFFF_FFFF_FFFF_FFFF

  datatype Limits = Limits(maxRecords: nat, maxRecordBytes: nat, maxSelectedBytes: nat, maxLineageDepth: nat)

  /** The bounds an archive is opened with. */
  predicate ValidLimits(limits: Limits) {
    && 0 < limits.maxRecords <= 1000000
    && 0 < limits.maxRecordBytes <= 16 * 1024 * 1024
    && 0 < limits.maxSelectedBytes <= 256 * 1024 * 1024
    && 0 < limits.maxLineageDepth <= 256
  }

  datatype ImportError =
    | Limit(what: string)
    | UnsupportedRecordVersion(version: nat)
    | SessionNotFound
    | MissingAncestor
    | LineageCycle
    | InvalidLineage
    | InvalidForkCutoff
    | CorruptRecord
    | Unreadable

  datatype Agent = Agent(requestId: string, protocolVersion: nat)

  datatype Started = Started(sessionId: string, parentSessionId: Option<string>, parentSequence: Option<nat>)

  /** A parsed record; `started` is its payload read as a start record. */
  datatype Envelope = Envelope(schemaVersion: nat, sequence: nat, recordedAt: nat, source: string, kind: string,
                               agent: Option<Agent>, started: Option<Started>)

  /** One row of the events table, in event order; `envelope` is what its bytes parse to. */
  datatype Row = Row(eventId: int, length: nat, blob: bool, raw: Raw, envelope: Option<Envelope>)

  datatype Metadata = Metadata(sessionId: string, parentSessionId: Option<string>, details: Raw, encoded: nat)

  datatype Link = Link(sessionId: string, through: nat)

  datatype Record = Record(sessionId: string, eventId: int, schemaVersion: nat, sequence: nat, recordedAt: nat,
                           source: string, kind: string, agentVersion: Option<nat>, raw: Raw)

  datatype Selection = Selection(records: seq<Record>, parent: Option<Link>)

  /** What is asked of one session: all of it, nothing of it (zero), or its records through a sequence. */
  datatype Query = Query(session: Metadata, rows: seq<Row>, through: Option<nat>)

  predicate ValidId(id: string) {
    id != [] && Utf8(id) <= 256 && '\0' !in id
  }

  // ----- What each row must satisfy -----

  function Sequence(row: Row): nat { if row.envelope.Some? then row.envelope.value.sequence else 0 }

  predicate IsStart(e: Envelope) { e.source == "tact" && e.kind == "session.started" }

  /** The checks on a parsed record, in order. */
  function EnvelopeFault(e: Envelope, previous: nat, through: Option<nat>): Option<ImportError> {
    if e.schemaVersion != 2 then Some(UnsupportedRecordVersion(e.schemaVersion))
    else if e.sequence == 0 || e.sequence <= previous || e.source == [] || e.kind == [] then Some(CorruptRecord)
    else if through.Some? && through.value > 0 && e.sequence > through.value then Some(InvalidForkCutoff)
    else if e.source == "agent" && e.agent.None? then Some(CorruptRecord)
    else if e.agent.Some? && (e.agent.value.requestId == [] || e.agent.value.protocolVersion == 0) then Some(CorruptRecord)
    else None
  }

  /** A session opens with its own start record, whose parent is the one its metadata names. */
  function FirstFaultOf(e: Envelope, session: Metadata): Option<ImportError> {
    if !IsStart(e) || e.started.None? then Some(InvalidLineage)
    else
      var s := e.started.value;
      if s.sessionId != session.sessionId || s.parentSessionId != session.parentSessionId then Some(InvalidLineage)
      else if s.parentSessionId.None? && s.parentSequence.None? then None
      else if s.parentSessionId.Some? && s.parentSequence.Some? && ValidId(s.parentSessionId.value) then None
      else Some(InvalidLineage)
  }

  /** A later start record repeats the session and names no parent. */
  function LaterFault(e: Envelope, session: Metadata): Option<ImportError> {
    if !IsStart(e) then None
    else if e.started.None? then Some(InvalidLineage)
    else
      var s := e.started.value;
      if s.sessionId != session.sessionId || s.parentSessionId.Some? || s.parentSequence.Some? then Some(InvalidLineage) else None
  }

  function RowFault(q: Query, k: nat, limits: Limits): Option<ImportError>
    requires k < |q.rows|
  {
    var row := q.rows[k];
    if row.eventId <= 0 then Some(CorruptRecord)
    else if row.length > limits.maxRecordBytes then Some(Limit("record bytes"))
    else if !row.blob || row.envelope.None? then Some(CorruptRecord)
    else
      var e := row.envelope.value;
      var fault := EnvelopeFault(e, if k == 0 then 0 else Sequence(q.rows[k - 1]), q.through);
      if fault.Some? then fault
      else if k == 0 then FirstFaultOf(e, q.session) else LaterFault(e, q.session)
  }

  /**
   An acceptable row: a bounded version-2 record, later than the one before and within the cutoff; the
   first opens the session and names its parent as the metadata does, and no later one names a parent.
   */
  ghost predicate RowAcceptable(q: Query, k: nat, limits: Limits)
    requires k < |q.rows|
  {
    var row := q.rows[k];
    && row.eventId > 0 && row.length <= limits.maxRecordBytes && row.blob && row.envelope.Some?
    && var e := row.envelope.value;
       && e.schemaVersion == 2 && e.source != [] && e.kind != []
       && e.sequence > (if k == 0 then 0 else Sequence(q.rows[k - 1]))
       && (q.through.Some? && q.through.value > 0 ==> e.sequence <= q.through.value)
       && (e.source == "agent" ==> e.agent.Some?)
       && (e.agent.Some? ==> e.agent.value.requestId != [] && e.agent.value.protocolVersion > 0)
       && (k == 0 ==> IsStart(e))
       && (IsStart(e) ==> e.started.Some? && e.started.value.sessionId == q.session.sessionId && NamesParent(e.started.value, q.session, k))
  }

  /** A first start record links the parent its metadata names; a later one links none. */
  predicate NamesParent(s: Started, session: Metadata, k: nat) {
    && (s.parentSessionId.Some? <==> s.parentSequence.Some?)
    && if k > 0 then s.parentSessionId.None?
       else s.parentSessionId == session.parentSessionId && (s.parentSessionId.Some? ==> ValidId(s.parentSessionId.value))
  }

  /** The checks let a row through exactly when it is acceptable. */
  lemma RowFaultIff(q: Query, k: nat, limits: Limits)
    requires k < |q.rows|
    ensures RowFault(q, k, limits).None? <==> RowAcceptable(q, k, limits)
  {
  }

  // ----- Where the read stops -----

  /** The read ends after the first row at a zero cutoff, or after the row at the cutoff. */
  predicate StopsAt(q: Query, k: nat)
    requires k < |q.rows|
  {
    q.through == Some(0) || q.through == Some(Sequence(q.rows[k]))
  }

  function StopFrom(q: Query, k: nat): (n: nat)
    requires k <= |q.rows|
    ensures k <= n <= |q.rows| && (n == k ==> k == |q.rows|)
    decreases |q.rows| - k
  {
    if k == |q.rows| then k else if StopsAt(q, k) then k + 1 else StopFrom(q, k + 1)
  }

  /** How many rows are read when none is refused. */
  function Stop(q: Query): (n: nat)
    ensures n <= |q.rows|
  {
    StopFrom(q, 0)
  }

  /** Bytes of the first `k` rows. */
  function RowBytes(rows: seq<Row>, k: nat): nat
    requires k <= |rows|
  {
    if k == 0 then 0 else RowBytes(rows, k - 1) + |rows[k - 1].raw|
  }

  predicate CutoffReached(q: Query, n: nat)
    requires n <= |q.rows|
  {
    q.through.None? || q.through == Some(0) || (n > 0 && StopsAt(q, n - 1))
  }

  /** Every row read is acceptable, and the cutoff is one of them. */
  ghost predicate RowsOk(q: Query, limits: Limits) {
    var n := Stop(q);
    n > 0 && CutoffReached(q, n) && forall k :: 0 <= k < n ==> RowFault(q, k, limits).None?
  }

  function RecordOf(session: string, row: Row): Record
    requires row.envelope.Some?
  {
    var e := row.envelope.value;
    Record(session, row.eventId, e.schemaVersion, e.sequence, e.recordedAt, e.source, e.kind,
           if e.agent.Some? then Some(e.agent.value.protocolVersion) else None, row.raw)
  }

  /** The first `k` rows as records; unparsed rows never get this far. */
  function RecordsUpTo(q: Query, k: nat): seq<Record>
    requires k <= |q.rows|
  {
    if k == 0 then []
    else RecordsUpTo(q, k - 1) + if q.rows[k - 1].envelope.Some? then [RecordOf(q.session.sessionId, q.rows[k - 1])] else []
  }

  /** A zero cutoff selects nothing; otherwise every row read is selected. */
  function Selected(q: Query): seq<Record> { if q.through == Some(0) then [] else RecordsUpTo(q, Stop(q)) }

  function LinkOf(q: Query): Option<Link> {
    if q.rows == [] || q.rows[0].envelope.None? || q.rows[0].envelope.value.started.None? then None
    else
      var s := q.rows[0].envelope.value.started.value;
      if s.parentSessionId.Some? && s.parentSequence.Some? then Some(Link(s.parentSessionId.value, s.parentSequence.value)) else None
  }

  // ----- Budgets -----

  datatype Used = Used(records: nat, bytes: nat)

  class SelectionBudget {
    var records: nat
    var bytes: nat

    constructor ()
      ensures records == 0 && bytes == 0
    {
      records, bytes := 0, 0;
    }

    /** Saturating addition; under valid limits it refuses exactly when the true sum is over. */
    method AddBytes(count: nat, limits: Limits) returns (ok: bool)
      requires ValidLimits(limits)
      modifies this`bytes
      ensures ok <==> old(bytes) + count <= limits.maxSelectedBytes
      ensures ok ==> bytes == old(bytes) + count
    {
      bytes := Min(bytes + count, MAX_USIZE);
      ok := bytes <= limits.maxSelectedBytes;
    }
  }

  /** What stops the read at row `k`, if anything: the row budget, the row itself, or the byte budget. */
  function ReadFault(q: Query, used: Used, k: nat, limits: Limits): Option<ImportError>
    requires k < |q.rows|
  {
    if used.records + k >= limits.maxRecords then Some(Limit("record rows"))
    else if RowFault(q, k, limits).Some? then RowFault(q, k, limits)
    else if used.bytes + RowBytes(q.rows, k + 1) > limits.maxSelectedBytes then Some(Limit("selected bytes"))
    else None
  }

  /** The first fault from row `k` on, or what is wrong at the end. */
  function FirstFault(q: Query, used: Used, k: nat, limits: Limits): Option<ImportError>
    requires k <= Stop(q)
    decreases Stop(q) - k
  {
    if k == Stop(q) then
      if k == 0 then Some(InvalidLineage) else if !CutoffReached(q, k) then Some(InvalidForkCutoff) else None
    else if ReadFault(q, used, k, limits).Some? then ReadFault(q, used, k, limits)
    else FirstFault(q, used, k + 1, limits)
  }

  lemma {:induction false} BytesMonotone(rows: seq<Row>, i: nat, j: nat)
    requires i <= j <= |rows|
    ensures RowBytes(rows, i) <= RowBytes(rows, j)
    decreases j
  {
    if i < j { BytesMonotone(rows, i, j - 1); }
  }

  lemma {:induction false} NoFaultFrom(q: Query, used: Used, k: nat, limits: Limits)
    requires k <= Stop(q)
    ensures FirstFault(q, used, k, limits).None? <==>
            Stop(q) > 0 && CutoffReached(q, Stop(q)) && forall i :: k <= i < Stop(q) ==> ReadFault(q, used, i, limits).None?
    decreases Stop(q) - k
  {
    if k < Stop(q) { NoFaultFrom(q, used, k + 1, limits); }
  }

  /** A read succeeds exactly when its rows are acceptable and fit what is left of both budgets. */
  lemma NoFaultIff(q: Query, used: Used, limits: Limits)
    requires used.bytes <= limits.maxSelectedBytes
    ensures FirstFault(q, used, 0, limits).None? <==>
            RowsOk(q, limits) && used.records + Stop(q) <= limits.maxRecords
            && used.bytes + RowBytes(q.rows, Stop(q)) <= limits.maxSelectedBytes
  {
    NoFaultFrom(q, used, 0, limits);
    var n := Stop(q);
    if n > 0 {
      if FirstFault(q, used, 0, limits).None? {
        assert ReadFault(q, used, n - 1, limits).None?;
        forall k | 0 <= k < n ensures RowFault(q, k, limits).None? { assert ReadFault(q, used, k, limits).None?; }
      }
      forall k | 0 <= k <= n ensures RowBytes(q.rows, k) <= RowBytes(q.rows, n) { BytesMonotone(q.rows, k, n); }
    }
  }

  // ----- The read -----

  lemma {:induction false} StopFound(q: Query, k: nat)
    requires k < |q.rows| && StopFrom(q, k) == Stop(q)
    ensures k < Stop(q)
    ensures StopsAt(q, k) ==> Stop(q) == k + 1
    ensures !StopsAt(q, k) ==> StopFrom(q, k + 1) == Stop(q)
  {
  }

  /** One session's rows in event order, charged to the shared budget. */
  method Records(q: Query, budget: SelectionBudget, limits: Limits) returns (r: Result<Selection, ImportError>)
    requires ValidLimits(limits) && budget.bytes <= limits.maxSelectedBytes
    modifies budget
    ensures var fault := FirstFault(q, Used(old(budget.records), old(budget.bytes)), 0, limits);
            r == if fault.Some? then Err(fault.value) else Ok(Selection(Selected(q), LinkOf(q)))
    ensures r.Ok? ==> budget.records == old(budget.records) + Stop(q) && budget.bytes == old(budget.bytes) + RowBytes(q.rows, Stop(q))
  {
    ghost var used := Used(budget.records, budget.bytes);
    var records: seq<Record>, previous, parent: Option<Link> := [], 0, None;
    var k, found := 0, q.through.None? || q.through == Some(0);
    while k < |q.rows|
      invariant k <= |q.rows| && k <= Stop(q) && StopFrom(q, k) == Stop(q)
      invariant FirstFault(q, used, 0, limits) == FirstFault(q, used, k, limits)
      invariant budget.records == used.records + k && budget.bytes == used.bytes + RowBytes(q.rows, k)
      invariant previous == if k == 0 then 0 else Sequence(q.rows[k - 1])
      invariant k > 0 ==> parent == LinkOf(q) && !StopsAt(q, k - 1)
      invariant records == RecordsUpTo(q, k)
      invariant found <==> q.through.None? || q.through == Some(0)
    {
      StopFound(q, k);
      var row := q.rows[k];
      var fault := ReadRow(q, k, previous, budget, used, limits);
      if fault.Some? { return Err(fault.value); }
      if k == 0 { parent := LinkOf(q); }
      previous := Sequence(row);
      k := k + 1;
      if q.through == Some(0) { break; }
      records := records + [RecordOf(q.session.sessionId, row)];
      if q.through == Some(previous) {
        found := true;
        break;
      }
    }
    if k == 0 { return Err(InvalidLineage); }
    if !found { return Err(InvalidForkCutoff); }
    r := Ok(Selection(records, parent));
  }

  /** Check a row and charge it. */
  method ReadRow(q: Query, k: nat, previous: nat, budget: SelectionBudget, ghost used: Used, limits: Limits) returns (fault: Option<ImportError>)
    requires ValidLimits(limits) && k < |q.rows| && previous == if k == 0 then 0 else Sequence(q.rows[k - 1])
    requires budget.records == used.records + k && budget.bytes == used.bytes + RowBytes(q.rows, k)
    modifies budget
    ensures fault == ReadFault(q, used, k, limits)
    ensures fault.None? ==> q.rows[k].envelope.Some?
    ensures fault.None? ==> budget.records == used.records + k + 1 && budget.bytes == used.bytes + RowBytes(q.rows, k + 1)
  {
    if budget.records >= limits.maxRecords { return Some(Limit("record rows")); }
    fault := CheckRow(q, k, previous, limits);
    if fault.Some? { return; }
    budget.records := budget.records + 1;
    var fits := budget.AddBytes(|q.rows[k].raw|, limits);
    if !fits { return Some(Limit("selected bytes")); }
  }

  /** A row's checks, given the sequence of the row before it. */
  method CheckRow(q: Query, k: nat, previous: nat, limits: Limits) returns (fault: Option<ImportError>)
    requires k < |q.rows| && previous == if k == 0 then 0 else Sequence(q.rows[k - 1])
    ensures fault == RowFault(q, k, limits)
    ensures fault.None? <==> RowAcceptable(q, k, limits)
  {
    RowFaultIff(q, k, limits);
    var row := q.rows[k];
    if row.eventId <= 0 { return Some(CorruptRecord); }
    if row.length > limits.maxRecordBytes { return Some(Limit("record bytes")); }
    if !row.blob || row.envelope.None? { return Some(CorruptRecord); }
    var e := row.envelope.value;
    fault := EnvelopeFault(e, previous, q.through);
    if fault.None? { fault := if k == 0 then FirstFaultOf(e, q.session) else LaterFault(e, q.session); }
  }

  // ----- What a successful read selects -----

  lemma {:induction false} RecordsAre(q: Query, k: nat, limits: Limits)
    requires k <= |q.rows| && forall i :: 0 <= i < k ==> RowFault(q, i, limits).None?
    ensures |RecordsUpTo(q, k)| == k
    ensures forall i :: 0 <= i < k ==> q.rows[i].envelope.Some? && RecordsUpTo(q, k)[i] == RecordOf(q.session.sessionId, q.rows[i])
    decreases k
  {
    if k > 0 {
      RecordsAre(q, k - 1, limits);
      assert RowFault(q, k - 1, limits).None?;
    }
  }

  lemma {:induction false} Increasing(q: Query, i: nat, j: nat, limits: Limits)
    requires i < j < |q.rows| && forall k :: 0 <= k <= j ==> RowFault(q, k, limits).None?
    ensures 0 < Sequence(q.rows[i]) < Sequence(q.rows[j])
    decreases j
  {
    assert RowFault(q, j, limits).None? && RowFault(q, i, limits).None?;
    if i < j - 1 { Increasing(q, i, j - 1, limits); }
  }

  lemma {:induction false} StopReason(q: Query, k: nat)
    requires k <= |q.rows| && StopFrom(q, k) < |q.rows|
    ensures StopsAt(q, StopFrom(q, k) - 1)
    decreases |q.rows| - k
  {
    if !StopsAt(q, k) { StopReason(q, k + 1); }
  }

  /**
   A successful read contributes exactly the session's prefix through its cutoff: every row when
   there is none, nothing at zero, and otherwise the rows up to the one whose sequence is the cutoff.
   */
  lemma PrefixThroughCutoff(q: Query, limits: Limits)
    requires RowsOk(q, limits)
    ensures q.through == Some(0) ==> Selected(q) == []
    ensures q.through.None? ==> |Selected(q)| == |q.rows|
    ensures q.through.Some? && q.through.value > 0 ==>
              && 0 < |Selected(q)| <= |q.rows|
              && Sequence(q.rows[|Selected(q)| - 1]) == q.through.value
              && forall i :: 0 <= i < |Selected(q)| - 1 ==> Sequence(q.rows[i]) < q.through.value
    ensures |Selected(q)| <= |q.rows|
    ensures forall i :: 0 <= i < |Selected(q)| ==>
              q.rows[i].envelope.Some? && Selected(q)[i] == RecordOf(q.session.sessionId, q.rows[i])
    ensures forall i, j :: 0 <= i < j < |Selected(q)| ==> Selected(q)[i].sequence < Selected(q)[j].sequence
  {
    var n := Stop(q);
    RecordsAre(q, n, limits);
    forall i, j | 0 <= i < j < n ensures Sequence(q.rows[i]) < Sequence(q.rows[j]) { Increasing(q, i, j, limits); }
    if q.through.None? && n < |q.rows| { StopReason(q, 0); }
  }

  /** Rows appended behind a read that ended at its cutoff do not change it. */
  lemma {:induction false} StopIgnoresAppended(q: Query, extra: seq<Row>, k: nat)
    requires q.through.Some? && k <= |q.rows| && StopFrom(q, k) > k && StopsAt(q, StopFrom(q, k) - 1)
    ensures StopFrom(q.(rows := q.rows + extra), k) == StopFrom(q, k)
    decreases |q.rows| - k
  {
    if !StopsAt(q, k) {
      assert StopFrom(q, k) == StopFrom(q, k + 1);
      if StopFrom(q, k + 1) == k + 1 {
        assert false;
      }
      StopIgnoresAppended(q, extra, k + 1);
    }
  }

  lemma {:induction false} BytesIgnoreAppended(rows: seq<Row>, extra: seq<Row>, k: nat)
    requires k <= |rows|
    ensures RowBytes(rows + extra, k) == RowBytes(rows, k)
    decreases k
  {
    if k > 0 { BytesIgnoreAppended(rows, extra, k - 1); }
  }

  lemma {:induction false} RecordsIgnoreAppended(q: Query, extra: seq<Row>, k: nat)
    requires k <= |q.rows|
    ensures RecordsUpTo(q.(rows := q.rows + extra), k) == RecordsUpTo(q, k)
    decreases k
  {
    if k > 0 { RecordsIgnoreAppended(q, extra, k - 1); }
  }

  lemma ReadIgnoresAppended(q: Query, extra: seq<Row>, limits: Limits)
    requires RowsOk(q, limits) && q.through.Some?
    ensures var longer := q.(rows := q.rows + extra);
            && RowsOk(longer, limits) && Selected(longer) == Selected(q) && LinkOf(longer) == LinkOf(q)
            && Stop(longer) == Stop(q) && RowBytes(longer.rows, Stop(longer)) == RowBytes(q.rows, Stop(q))
  {
    var longer := q.(rows := q.rows + extra);
    StopIgnoresAppended(q, extra, 0);
    BytesIgnoreAppended(q.rows, extra, Stop(q));
    RecordsIgnoreAppended(q, extra, Stop(q));
    forall k | 0 <= k < Stop(q) ensures RowFault(longer, k, limits) == RowFault(q, k, limits) {}
  }
}
