/**
 The native context projection: repair unanswered tool calls, pick a cache epoch, cut both
 sides of it to the byte limit, leave omission notices and record where every item came from.
 */
module Projection {
  import opened Options
  import Json
  import IdOrder

  type Digest = nat
  type CallId = string

  const MAX_OUTPUT_TOKENS: nat := 32768
  const NOTICE_RESERVE: nat := 2048
  const MIN_BYTES: nat := 4096

  datatype Kind = FunctionCall | FunctionCallOutput | OtherKind

  /**
   A model item. `Record` is any journaled JSON object, seen through the fields the projection
   reads; the other constructors are the objects the projection itself writes.
   */
  datatype Value =
    | Record(kind: Kind, callId: Option<CallId>, user: bool, content: string, bytes: nat)
    | Placeholder(id: CallId)
    | OlderNotice(session: nat, omitted: nat, omittedEnd: nat, epochEnd: nat, epoch: Digest)
    | EpochNotice(session: nat, omitted: nat, omittedStart: nat, omittedEnd: nat, epoch: Digest)

  predicate IsUser(v: Value) { v.Record? && v.user }

  predicate IsCall(v: Value, id: CallId) {
    v.Record? && v.kind == FunctionCall && v.callId == Some(id)
  }

  predicate IsOutput(v: Value, id: CallId) {
    v == Placeholder(id) || (v.Record? && v.kind == FunctionCallOutput && v.callId == Some(id))
  }

  const PLACEHOLDER_TEXT: nat := 291
  const OLDER_NOTICE_TEXT: nat := 451
  const EPOCH_NOTICE_TEXT: nat := 397
  const UUID_TEXT: nat := 36
  const DIGEST_TEXT: nat := 64

  /** Length of the compact JSON encoding. */
  function Encoded(v: Value): nat {
    match v
    case Record(_, _, _, _, bytes) => bytes
    case Placeholder(id) => PLACEHOLDER_TEXT + Json.StringBytes(id)
    case OlderNotice(_, omitted, end, epochEnd, _) =>
      OLDER_NOTICE_TEXT + UUID_TEXT + DIGEST_TEXT
      + Json.Digits(omitted) + Json.Digits(end) + Json.Digits(epochEnd)
    case EpochNotice(_, omitted, start, end, _) =>
      EPOCH_NOTICE_TEXT + UUID_TEXT + DIGEST_TEXT
      + Json.Digits(omitted) + Json.Digits(start) + Json.Digits(end)
  }

  datatype ToolCall = ToolCall(request: nat, answered: bool)

  datatype Session = Session(
    id: nat,
    revision: nat,
    history: seq<Value>,
    settledItems: nat,
    toolCalls: map<CallId, ToolCall>,
    activeRequest: Option<nat>)

  datatype ContextError = Limit | PendingCall

  datatype ProjectedItem = ProjectedItem(value: Value, source: Option<nat>, stable: bool)

  // ----- Repair -----

  /** One step of every tool-pair scan: a call opens its id, an output closes it. */
  function Track(open: set<CallId>, v: Value): set<CallId> {
    match v
    case Record(FunctionCall, Some(id), _, _, _) => open + {id}
    case Record(FunctionCallOutput, Some(id), _, _, _) => open - {id}
    case Placeholder(id) => open - {id}
    case _ => open
  }

  datatype Repair =
    | Repair(items: seq<ProjectedItem>, pending: set<CallId>, interrupted: seq<CallId>)
    | Blocked

  predicate BelongsToActiveRequest(s: Session, id: CallId) {
    id in s.toolCalls && Some(s.toolCalls[id].request) == s.activeRequest && !s.toolCalls[id].answered
  }

  function Placeholders(ids: seq<CallId>, stable: bool): (r: seq<ProjectedItem>)
    ensures |r| == |ids|
    ensures forall i :: 0 <= i < |r| ==> r[i] == ProjectedItem(Placeholder(ids[i]), None, stable)
  {
    seq(|ids|, i requires 0 <= i < |ids| => ProjectedItem(Placeholder(ids[i]), None, stable))
  }

  /** Answer every pending call with a placeholder, unless the active request still owns one. */
  ghost function Flush(s: Session, r: Repair, stable: bool): Repair {
    if r.Blocked? || (exists id :: id in r.pending && BelongsToActiveRequest(s, id)) then Blocked
    else
      var ids := IdOrder.Sorted(r.pending);
      Repair(r.items + Placeholders(ids, stable), {}, r.interrupted + ids)
  }

  function Settled(s: Session): nat { Min(s.settledItems, |s.history|) }

  /** The repaired items after the first `k` history items. */
  ghost function RepairUpTo(s: Session, k: nat): Repair
    requires k <= |s.history|
  {
    if k == 0 then Repair([], {}, []) else RepairStep(s, RepairUpTo(s, k - 1), k - 1)
  }

  ghost function RepairStep(s: Session, r: Repair, index: nat): Repair
    requires index < |s.history|
  {
    Push(s, FlushBefore(s, r, index), index)
  }

  ghost function FlushBefore(s: Session, r: Repair, index: nat): Repair
    requires index < |s.history|
  {
    if IsUser(s.history[index]) then Flush(s, r, index <= Settled(s)) else r
  }

  function Push(s: Session, r: Repair, index: nat): Repair
    requires index < |s.history|
  {
    if r.Blocked? then Blocked else
      var item := s.history[index];
      Repair(r.items + [ProjectedItem(item, Some(index), index < Settled(s))], Track(r.pending, item), r.interrupted)
  }

  ghost function Repaired(s: Session): Repair {
    Flush(s, RepairUpTo(s, |s.history|), Settled(s) == |s.history|)
  }

  /** The calls left open just before history item `k`: a user item abandons them all. */
  function OpenCalls(history: seq<Value>, k: nat): set<CallId>
    requires k <= |history|
  {
    if k == 0 then {}
    else Track(if IsUser(history[k - 1]) then {} else OpenCalls(history, k - 1), history[k - 1])
  }

  // ----- Cuts -----

  /** `sizes[k]`: bytes of the first `k` items, each with its comma. */
  function Sizes(items: seq<ProjectedItem>, k: nat): nat
    requires k <= |items|
  {
    if k == 0 then 0 else Sizes(items, k - 1) + Encoded(items[k - 1].value) + 1
  }

  function Span(items: seq<ProjectedItem>, start: nat, end: nat): nat
    requires start <= end <= |items|
  {
    SatSub(Sizes(items, end), Sizes(items, start))
  }

  function StablePrefix(items: seq<ProjectedItem>): (n: nat)
    ensures n <= |items|
  {
    if items != [] && items[0].stable then 1 + StablePrefix(items[1..]) else 0
  }

  /** The scan state of `cache_epoch_start`. */
  datatype Epoch = Epoch(start: nat, bytes: nat, unitStart: nat, open: set<CallId>)

  function EpochStep(items: seq<ProjectedItem>, budget: nat, e: Epoch, index: nat): Epoch
    requires e.unitStart <= index < |items|
  {
    var open := Track(e.open, items[index].value);
    if open != {} then e.(open := open) else
      var unitBytes := Span(items, e.unitStart, index + 1);
      if e.bytes > 0 && e.bytes + unitBytes > budget then Epoch(e.unitStart, unitBytes, index + 1, {})
      else Epoch(e.start, e.bytes + unitBytes, index + 1, {})
  }

  function EpochScan(items: seq<ProjectedItem>, start: nat, end: nat, budget: nat): (e: Epoch)
    requires start <= end <= |items|
    ensures start <= e.start <= e.unitStart <= end
  {
    if start == end then Epoch(start, 0, start, {})
    else EpochStep(items, budget, EpochScan(items, start, end - 1, budget), end - 1)
  }

  /** Drop whole units from the front until the rest fits the budget. */
  function SuffixCut(items: seq<ProjectedItem>, start: nat, end: nat, budget: nat, open: set<CallId>): (cut: nat)
    requires start <= end <= |items|
    ensures start <= cut <= end
    decreases end - start
  {
    if start < end && (Span(items, start, end) > budget || open != {})
    then SuffixCut(items, start + 1, end, budget, Track(open, items[start].value))
    else start
  }

  function AppendBudget(maxBytes: nat): nat {
    Min(SatSub(maxBytes, NOTICE_RESERVE), MAX_OUTPUT_TOKENS)
  }

  /** Items `[..base)` and `[epoch..live)` are omitted; the rest is the model input. */
  datatype Cuts = Cuts(base: nat, epoch: nat, live: nat)

  function CutsOf(items: seq<ProjectedItem>, maxBytes: nat): (c: Cuts)
    ensures c.base <= c.epoch <= c.live <= |items|
  {
    var budget := AppendBudget(maxBytes);
    var epoch := EpochScan(items, StablePrefix(items), |items|, budget).start;
    var oversized := Span(items, epoch, |items|) > budget;
    var live :=
      if oversized then SuffixCut(items, epoch, |items|, SatSub(maxBytes, NOTICE_RESERVE * 2), {})
      else epoch;
    var reserved := if oversized then Span(items, live, |items|) else budget;
    var baseBudget := SatSub(SatSub(SatSub(maxBytes, reserved), NOTICE_RESERVE),
                             if live > epoch then NOTICE_RESERVE else 0);
    Cuts(SuffixCut(items, 0, epoch, baseBudget, {}), epoch, live)
  }

  // ----- Sources -----

  /** One past the largest source index in `items[start..end)`, or `default` when none has one. */
  function SourceEnd(items: seq<ProjectedItem>, start: nat, end: nat, default: nat): nat
    requires start <= end <= |items|
    decreases end
  {
    if start == end then default else
      match items[end - 1].source
      case None => SourceEnd(items, start, end - 1, default)
      case Some(i) =>
        if SourceFree(items, start, end - 1) then i + 1
        else Max(SourceEnd(items, start, end - 1, default), i + 1)
  }

  /** The smallest source index in `items[start..end)`, or `default` when none has one. */
  function SourceStart(items: seq<ProjectedItem>, start: nat, end: nat, default: nat): nat
    requires start <= end <= |items|
    decreases end
  {
    if start == end then default else
      match items[end - 1].source
      case None => SourceStart(items, start, end - 1, default)
      case Some(i) =>
        if SourceFree(items, start, end - 1) then i
        else Min(SourceStart(items, start, end - 1, default), i)
  }

  predicate SourceFree(items: seq<ProjectedItem>, start: nat, end: nat)
    requires start <= end <= |items|
  {
    forall i :: start <= i < end ==> items[i].source == None
  }

  // ----- View -----

  datatype Range = Range(start: nat, end: nat)

  datatype Role = StableHistory | OmissionNotice | LiveTail

  datatype Segment<R> = Segment(
    role: Role, revision: nat, range: Range, inputRange: Range,
    sourceDigest: Digest, representation: R, input: Digest)

  datatype Manifest<R> = Manifest(
    revision: nat, originalHistory: Digest, byteLimit: nat, omittedItems: nat,
    interrupted: seq<CallId>, stableInputItems: nat, segments: seq<Segment<R>>, input: Digest)

  datatype View<R> = View(manifest: Manifest<R>, input: seq<Value>)

  function Values(items: seq<ProjectedItem>): (r: seq<Value>)
    ensures |r| == |items|
    ensures forall i :: 0 <= i < |r| ==> r[i] == items[i].value
  {
    seq(|items|, i requires 0 <= i < |items| => items[i].value)
  }

  /** `Digest::of_value` on a list of items; nothing is known about it but that it is a function. */
  type Hash = seq<Value> -> Digest

  function EpochEnd(items: seq<ProjectedItem>, c: Cuts): nat
    requires c.epoch <= |items|
  {
    SourceEnd(items, 0, c.epoch, 0)
  }

  /** The two notices, each present only when its side was cut. */
  function Notices(s: Session, items: seq<ProjectedItem>, c: Cuts, h: Hash): seq<Value>
    requires c.base <= c.epoch <= c.live <= |items|
  {
    var epochEnd := EpochEnd(items, c);
    var epoch := h(s.history[..Min(epochEnd, |s.history|)]);
    (if c.base > 0
     then [OlderNotice(s.id, c.base, SourceEnd(items, 0, c.base, 0), epochEnd, epoch)] else [])
    + (if c.live > c.epoch
       then var from := SourceStart(items, c.epoch, c.live, epochEnd);
            [EpochNotice(s.id, c.live - c.epoch, from, SourceEnd(items, c.epoch, c.live, from), epoch)]
       else [])
  }

  function InputOf(s: Session, items: seq<ProjectedItem>, c: Cuts, h: Hash): (input: seq<Value>)
    requires c.base <= c.epoch <= c.live <= |items|
    ensures Laid(items, c, input)
  {
    Values(items[c.base..c.epoch]) + Notices(s, items, c, h) + Values(items[c.live..])
  }

  function Slice(s: Session, r: Range): seq<Value> {
    if r.start <= r.end <= |s.history| then s.history[r.start..r.end] else []
  }

  function MakeSegment<R>(s: Session, role: Role, range: Range, inputRange: Range, input: seq<Value>,
                          native: R, h: Hash): Segment<R>
    requires inputRange.start <= inputRange.end <= |input|
  {
    Segment(role, s.revision, range, inputRange, h(Slice(s, range)), native,
            h(input[inputRange.start..inputRange.end]))
  }

  // Positions in the input: kept items, then the older notice, then the epoch notice, then the tail.
  function Kept(c: Cuts): nat requires c.base <= c.epoch { c.epoch - c.base }
  function AfterOlder(c: Cuts): nat requires c.base <= c.epoch { Kept(c) + if c.base > 0 then 1 else 0 }
  function LiveStart(c: Cuts): nat requires c.base <= c.epoch { AfterOlder(c) + if c.live > c.epoch then 1 else 0 }

  predicate Laid(items: seq<ProjectedItem>, c: Cuts, input: seq<Value>) {
    c.base <= c.epoch <= c.live <= |items| && |input| == LiveStart(c) + (|items| - c.live)
  }

  function StableRange(items: seq<ProjectedItem>, c: Cuts, i: nat): Range
    requires i < |items| && c.epoch <= |items|
  {
    match items[i].source
    case None => Range(EpochEnd(items, c), EpochEnd(items, c))
    case Some(x) => Range(x, x + 1)
  }

  function StableSegments<R>(s: Session, items: seq<ProjectedItem>, c: Cuts, input: seq<Value>, k: nat,
                             native: R, h: Hash): (r: seq<Segment<R>>)
    requires Laid(items, c, input) && k <= Kept(c)
    ensures |r| == k
  {
    if k == 0 then [] else
      StableSegments(s, items, c, input, k - 1, native, h)
      + [MakeSegment(s, StableHistory, StableRange(items, c, c.base + k - 1), Range(k - 1, k), input, native, h)]
  }

  function OlderSegments<R>(s: Session, items: seq<ProjectedItem>, c: Cuts, input: seq<Value>, native: R, h: Hash): seq<Segment<R>>
    requires Laid(items, c, input)
  {
    if c.base > 0
    then [MakeSegment(s, OmissionNotice, Range(0, SourceEnd(items, 0, c.base, 0)),
                      Range(Kept(c), AfterOlder(c)), input, native, h)]
    else []
  }

  function EpochSegments<R>(s: Session, items: seq<ProjectedItem>, c: Cuts, input: seq<Value>, native: R, h: Hash): seq<Segment<R>>
    requires Laid(items, c, input)
  {
    if c.live > c.epoch
    then var from := SourceStart(items, c.epoch, c.live, EpochEnd(items, c));
         [MakeSegment(s, OmissionNotice, Range(from, SourceEnd(items, c.epoch, c.live, from)),
                      Range(AfterOlder(c), LiveStart(c)), input, native, h)]
    else []
  }

  function TailSegments<R>(s: Session, items: seq<ProjectedItem>, c: Cuts, input: seq<Value>, native: R, h: Hash): seq<Segment<R>>
    requires Laid(items, c, input)
  {
    if LiveStart(c) < |input|
    then [MakeSegment(s, LiveTail, Range(SourceStart(items, c.live, |items|, |s.history|), |s.history|),
                      Range(LiveStart(c), |input|), input, native, h)]
    else []
  }

  function SegmentsOf<R>(s: Session, items: seq<ProjectedItem>, c: Cuts, input: seq<Value>, native: R, h: Hash): seq<Segment<R>>
    requires Laid(items, c, input)
  {
    StableSegments(s, items, c, input, Kept(c), native, h)
    + OlderSegments(s, items, c, input, native, h)
    + EpochSegments(s, items, c, input, native, h)
    + TailSegments(s, items, c, input, native, h)
  }

  function InputBytes(input: seq<Value>): nat {
    Json.ArrayBytes(seq(|input|, i requires 0 <= i < |input| => Encoded(input[i])))
  }

  function ViewOf<R>(s: Session, r: Repair, maxBytes: nat, native: R, h: Hash): View<R>
    requires r.Repair?
  {
    var c := CutsOf(r.items, maxBytes);
    var input := InputOf(s, r.items, c, h);
    View(Manifest(s.revision, h(s.history), maxBytes, c.base + (c.live - c.epoch), r.interrupted,
                  c.epoch - c.base, SegmentsOf(s, r.items, c, input, native, h), h(input)),
         input)
  }

  /** `project_native`. */
  ghost function Project<R>(s: Session, maxBytes: nat, native: R, h: Hash): Result<View<R>, ContextError> {
    if maxBytes < MIN_BYTES then Err(Limit) else
      var r := Repaired(s);
      if r.Blocked? then Err(PendingCall) else
        var v := ViewOf(s, r, maxBytes, native, h);
        if InputBytes(v.input) > maxBytes then Err(Limit) else Ok(v)
  }
}
