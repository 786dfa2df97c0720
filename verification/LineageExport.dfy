/** Following a historical session's ancestry, and laying the selected records out root first. */
module LineageExport {
  import opened Options
  import opened ByteText
  import opened LineageRecords

  /** A session's row: what its metadata decodes to, or why it does not. */
  datatype SessionRow = SessionRow(parentSessionId: Option<string>, details: Raw, encoded: nat, fault: Option<ImportError>)

  datatype Archive = Archive(version: nat, sessions: map<string, SessionRow>, events: map<string, seq<Row>>)

  function Session(db: Archive, id: string): Result<Option<Metadata>, ImportError> {
    if id !in db.sessions then Ok(None)
    else
      var row := db.sessions[id];
      if row.fault.Some? then Err(row.fault.value) else Ok(Some(Metadata(id, row.parentSessionId, row.details, row.encoded)))
  }

  function Events(db: Archive, id: string): seq<Row> { if id in db.events then db.events[id] else [] }

  // ----- A lineage, leaf first -----

  datatype Step = Step(session: Metadata, parent: Option<Link>, through: Option<nat>, records: seq<Record>)

  function QueryOf(db: Archive, step: Step): Query { Query(step.session, Events(db, step.session.sessionId), step.through) }

  /** A session read through its cutoff, with its recorded parent. */
  ghost predicate StepOk(db: Archive, step: Step, limits: Limits) {
    && Session(db, step.session.sessionId) == Ok(Some(step.session))
    && RowsOk(QueryOf(db, step), limits)
    && step.records == Selected(QueryOf(db, step)) && step.parent == LinkOf(QueryOf(db, step))
  }

  /** The cutoff a child imposes on its parent: the recorded one, unless the child itself is cut to nothing. */
  function ParentCutoff(through: Option<nat>, recorded: nat): nat { if through == Some(0) then 0 else recorded }

  ghost predicate Follows(child: Step, parent: Step) {
    && child.parent.Some? && parent.session.sessionId == child.parent.value.sessionId
    && parent.through == Some(ParentCutoff(child.through, child.parent.value.through))
  }

  ghost predicate Linked(steps: seq<Step>, i: nat)
    requires 0 < i < |steps|
  {
    Follows(steps[i - 1], steps[i])
  }

  function Id(step: Step): string { step.session.sessionId }

  ghost function StepUse(db: Archive, step: Step): Used {
    var q := QueryOf(db, step);
    Used(Stop(q), RowBytes(q.rows, Stop(q)) + step.session.encoded)
  }

  /** Rows read, and bytes of rows and metadata, over the first `k` steps. */
  ghost function Spent(db: Archive, steps: seq<Step>, k: nat): Used
    requires k <= |steps|
  {
    if k == 0 then Used(0, 0)
    else
      var before, here := Spent(db, steps, k - 1), StepUse(db, steps[k - 1]);
      Used(before.records + here.records, before.bytes + here.bytes)
  }

  predicate Fits(used: Used, limits: Limits) { used.records <= limits.maxRecords && used.bytes <= limits.maxSelectedBytes }

  ghost predicate AllRead(db: Archive, limits: Limits, steps: seq<Step>) {
    forall i :: 0 <= i < |steps| ==> StepOk(db, steps[i], limits)
  }

  /** The requested session comes first, whole, and each step is followed by its parent. */
  ghost predicate Chain(id: string, steps: seq<Step>) {
    && (steps != [] ==> Id(steps[0]) == id && steps[0].through == None)
    && (forall i :: 0 < i < |steps| ==> Linked(steps, i))
  }

  ghost predicate Acyclic(steps: seq<Step>) {
    forall i, j :: 0 <= i < j < |steps| ==> Id(steps[i]) != Id(steps[j])
  }

  /** A walk from the requested session towards its root: linked, acyclic, and within every budget. */
  ghost predicate Walk(db: Archive, limits: Limits, id: string, steps: seq<Step>) {
    && AllRead(db, limits, steps) && Chain(id, steps) && Acyclic(steps)
    && |steps| <= limits.maxLineageDepth && Fits(Spent(db, steps, |steps|), limits)
  }

  /** A walk that has reached a session with no parent. */
  ghost predicate Lineage(db: Archive, limits: Limits, id: string, steps: seq<Step>) {
    Walk(db, limits, id, steps) && steps != [] && steps[|steps| - 1].parent.None?
  }

  predicate Unfinished(steps: seq<Step>) { steps == [] || steps[|steps| - 1].parent.Some? }

  /** The session to read next and the cutoff on it. */
  function Next(id: string, steps: seq<Step>): (string, Option<nat>)
    requires Unfinished(steps)
  {
    if steps == [] then (id, None)
    else
      var last := steps[|steps| - 1];
      (last.parent.value.sessionId, Some(ParentCutoff(last.through, last.parent.value.through)))
  }

  /** Why the walk cannot be extended, if it cannot. */
  ghost function NextFault(db: Archive, limits: Limits, id: string, steps: seq<Step>): Option<ImportError>
    requires Unfinished(steps)
  {
    var (current, through) := Next(id, steps);
    var used := Spent(db, steps, |steps|);
    if exists i :: 0 <= i < |steps| && Id(steps[i]) == current then Some(LineageCycle)
    else if |steps| + 1 > limits.maxLineageDepth then Some(Limit("lineage depth"))
    else StepFault(db, limits, id, current, through, used)
  }

  /** Why a session cannot be read, when it is `id` itself or one of its ancestors. */
  function StepFault(db: Archive, limits: Limits, id: string, current: string, through: Option<nat>, used: Used): Option<ImportError> {
    match Session(db, current)
    case Err(e) => Some(e)
    case Ok(None) => Some(if current == id then SessionNotFound else MissingAncestor)
    case Ok(Some(session)) => SessionFault(Query(session, Events(db, current), through), used, limits)
  }

  function SessionFault(q: Query, used: Used, limits: Limits): Option<ImportError> {
    var fault := FirstFault(q, used, 0, limits);
    if fault.Some? then fault
    else if used.bytes + RowBytes(q.rows, Stop(q)) + q.session.encoded > limits.maxSelectedBytes then Some(Limit("selected bytes"))
    else None
  }

  lemma SessionFaultIff(q: Query, used: Used, limits: Limits)
    requires used.bytes <= limits.maxSelectedBytes
    ensures SessionFault(q, used, limits).None? <==>
            RowsOk(q, limits) && used.records + Stop(q) <= limits.maxRecords
            && used.bytes + RowBytes(q.rows, Stop(q)) + q.session.encoded <= limits.maxSelectedBytes
  {
    NoFaultIff(q, used, limits);
  }

  // ----- A lineage is unique, and a stuck walk rules it out -----

  lemma {:induction false} SpentPrefix(db: Archive, a: seq<Step>, b: seq<Step>, k: nat)
    requires k <= |a| && k <= |b| && a[..k] == b[..k]
    ensures Spent(db, a, k) == Spent(db, b, k)
    decreases k
  {
    if k > 0 {
      assert a[..k][k - 1] == b[..k][k - 1];
      assert a[..k - 1] == a[..k][..k - 1] && b[..k - 1] == b[..k][..k - 1];
      SpentPrefix(db, a, b, k - 1);
    }
  }

  lemma {:induction false} SpentMonotone(db: Archive, steps: seq<Step>, i: nat, j: nat)
    requires i <= j <= |steps|
    ensures Spent(db, steps, i).records <= Spent(db, steps, j).records && Spent(db, steps, i).bytes <= Spent(db, steps, j).bytes
    decreases j
  {
    if i < j { SpentMonotone(db, steps, i, j - 1); }
  }

  /** Two good reads of the same session through the same cutoff are equal. */
  lemma SameStep(db: Archive, limits: Limits, a: Step, b: Step)
    requires StepOk(db, a, limits) && StepOk(db, b, limits) && Id(a) == Id(b) && a.through == b.through
    ensures a == b
  {
  }

  /** Chains that agree up to a step agree on it. */
  lemma NextAgrees(db: Archive, limits: Limits, id: string, a: seq<Step>, b: seq<Step>, k: nat)
    requires AllRead(db, limits, a) && AllRead(db, limits, b) && Chain(id, a) && Chain(id, b) && k < |a| && k < |b|
    requires k > 0 ==> a[k - 1] == b[k - 1]
    ensures a[k] == b[k]
  {
    if k > 0 { assert Linked(a, k) && Linked(b, k); }
    SameStep(db, limits, a[k], b[k]);
  }

  /** Agreeing on a step, the two chains agree on the next, and the second has one if the first does. */
  ghost predicate InStep(a: seq<Step>, b: seq<Step>, k: nat) {
    k < |a| && k <= |b| && (k > 0 ==> a[k - 1] == b[k - 1]) ==> k < |b| && a[k] == b[k]
  }

  lemma {:induction false} InStepIsPrefix(a: seq<Step>, b: seq<Step>, k: nat)
    requires k <= |a| && forall i: nat :: InStep(a, b, i)
    ensures k <= |b| && forall i :: 0 <= i < k ==> a[i] == b[i]
    decreases k
  {
    if k > 0 {
      InStepIsPrefix(a, b, k - 1);
      assert InStep(a, b, k - 1);
    }
  }

  /** Every walk is a prefix of the lineage, if there is one. */
  lemma WalkIsPrefix(db: Archive, limits: Limits, id: string, steps: seq<Step>, full: seq<Step>)
    requires AllRead(db, limits, steps) && Chain(id, steps)
    requires AllRead(db, limits, full) && Chain(id, full) && full != [] && full[|full| - 1].parent.None?
    ensures |steps| <= |full| && steps == full[..|steps|]
  {
    forall i: nat ensures InStep(steps, full, i) { StepsInStep(db, limits, id, steps, full, i); }
    InStepIsPrefix(steps, full, |steps|);
  }

  lemma StepsInStep(db: Archive, limits: Limits, id: string, steps: seq<Step>, full: seq<Step>, k: nat)
    requires AllRead(db, limits, steps) && Chain(id, steps)
    requires AllRead(db, limits, full) && Chain(id, full) && full != [] && full[|full| - 1].parent.None?
    ensures InStep(steps, full, k)
  {
    if k < |steps| && k <= |full| && (k > 0 ==> steps[k - 1] == full[k - 1]) {
      if k > 0 { HasNext(id, steps, full, k); }
      NextAgrees(db, limits, id, steps, full, k);
    }
  }

  /** A walk that goes on from a step shows that the lineage does too. */
  lemma HasNext(id: string, steps: seq<Step>, full: seq<Step>, k: nat)
    requires Chain(id, steps) && 0 < k < |steps| && k <= |full| && steps[k - 1] == full[k - 1]
    requires full != [] && full[|full| - 1].parent.None?
    ensures k < |full|
  {
    assert Linked(steps, k);
  }

  lemma LineageUnique(db: Archive, limits: Limits, id: string, a: seq<Step>, b: seq<Step>)
    requires Lineage(db, limits, id, a) && Lineage(db, limits, id, b)
    ensures a == b
  {
    WalkIsPrefix(db, limits, id, a, b);
    WalkIsPrefix(db, limits, id, b, a);
  }

  /** An unfinished walk continues in the lineage with exactly the next session and cutoff. */
  lemma NextForced(db: Archive, limits: Limits, id: string, steps: seq<Step>, full: seq<Step>)
    requires Walk(db, limits, id, steps) && Unfinished(steps) && Lineage(db, limits, id, full)
    ensures |steps| < |full| && steps == full[..|steps|]
    ensures (Id(full[|steps|]), full[|steps|].through) == Next(id, steps)
  {
    var k := |steps|;
    WalkIsPrefix(db, limits, id, steps, full);
    if k > 0 {
      assert steps[k - 1] == full[k - 1];
      assert k < |full|;
      assert Linked(full, k);
    }
  }

  lemma SpentSoFar(db: Archive, limits: Limits, full: seq<Step>, k: nat)
    requires k < |full| && Fits(Spent(db, full, |full|), limits)
    ensures Fits(Spent(db, full, k), limits) && Fits(Charged(db, Spent(db, full, k), full[k]), limits)
  {
    SpentMonotone(db, full, k, |full|);
    SpentMonotone(db, full, k + 1, |full|);
  }

  lemma ReadableWithin(db: Archive, limits: Limits, next: Step, used: Used)
    requires StepOk(db, next, limits) && Fits(used, limits) && Fits(Charged(db, used, next), limits)
    ensures SessionFault(QueryOf(db, next), used, limits).None?
  {
    SessionFaultIff(QueryOf(db, next), used, limits);
  }

  /** The lineage's next step could be read within the budgets. */
  lemma NextReadable(db: Archive, limits: Limits, steps: seq<Step>, full: seq<Step>)
    requires AllRead(db, limits, full) && Fits(Spent(db, full, |full|), limits) && |steps| < |full| && steps == full[..|steps|]
    ensures var next := full[|steps|];
            StepOk(db, next, limits) && SessionFault(QueryOf(db, next), Spent(db, steps, |steps|), limits).None?
  {
    SpentPrefix(db, steps, full, |steps|);
    SpentSoFar(db, limits, full, |steps|);
    ReadableWithin(db, limits, full[|steps|], Spent(db, full, |steps|));
  }

  lemma NextIsNew(full: seq<Step>, k: nat, i: nat)
    requires Acyclic(full) && i < k < |full|
    ensures Id(full[i]) != Id(full[k])
  {
  }

  /** A stuck walk means there is no lineage to export. */
  lemma StuckMeansNone(db: Archive, limits: Limits, id: string, steps: seq<Step>, full: seq<Step>)
    requires Walk(db, limits, id, steps) && Unfinished(steps) && Lineage(db, limits, id, full)
    ensures NextFault(db, limits, id, steps).None?
  {
    NextForced(db, limits, id, steps, full);
    NextReadable(db, limits, steps, full);
    var k := |steps|;
    forall i | 0 <= i < k ensures Id(steps[i]) != Id(full[k]) {
      NextIsNew(full, k, i);
      assert steps[i] == full[i];
    }
  }

  lemma ChainStep(id: string, steps: seq<Step>, next: Step)
    requires Chain(id, steps) && Unfinished(steps) && (Id(next), next.through) == Next(id, steps)
    ensures Chain(id, steps + [next])
  {
    var longer := steps + [next];
    forall i | 0 < i < |longer| ensures Linked(longer, i) {
      if i < |steps| { assert Linked(steps, i); }
    }
  }

  lemma AcyclicStep(steps: seq<Step>, next: Step)
    requires Acyclic(steps) && forall i :: 0 <= i < |steps| ==> Id(steps[i]) != Id(next)
    ensures Acyclic(steps + [next])
  {
    var longer := steps + [next];
    forall i, j | 0 <= i < j < |longer| ensures Id(longer[i]) != Id(longer[j]) {
      assert longer[i] == steps[i];
    }
  }

  lemma SpentStep(db: Archive, steps: seq<Step>, next: Step)
    ensures Spent(db, steps + [next], |steps| + 1) == Charged(db, Spent(db, steps, |steps|), next)
  {
    assert (steps + [next])[..|steps|] == steps[..|steps|];
    SpentPrefix(db, steps, steps + [next], |steps|);
  }

  lemma ReadMore(db: Archive, limits: Limits, steps: seq<Step>, next: Step)
    requires AllRead(db, limits, steps) && StepOk(db, next, limits)
    ensures AllRead(db, limits, steps + [next])
  {
  }

  /** What one more step would bring the totals to. */
  ghost function Charged(db: Archive, used: Used, step: Step): Used {
    Used(used.records + StepUse(db, step).records, used.bytes + StepUse(db, step).bytes)
  }

  /** Extending a walk by its next step. */
  lemma WalkStep(db: Archive, limits: Limits, id: string, steps: seq<Step>, next: Step)
    requires Walk(db, limits, id, steps) && Unfinished(steps) && (Id(next), next.through) == Next(id, steps)
    requires StepOk(db, next, limits) && |steps| + 1 <= limits.maxLineageDepth
    requires forall i :: 0 <= i < |steps| ==> Id(steps[i]) != Id(next)
    requires Fits(Charged(db, Spent(db, steps, |steps|), next), limits)
    ensures Walk(db, limits, id, steps + [next])
    ensures Spent(db, steps + [next], |steps| + 1) == Charged(db, Spent(db, steps, |steps|), next)
  {
    SpentStep(db, steps, next);
    ReadMore(db, limits, steps, next);
    ChainStep(id, steps, next);
    AcyclicStep(steps, next);
  }

  // ----- The segments, root first -----

  datatype Segment = Segment(metadata: Metadata, parent: Option<Link>, through: Option<nat>, first: nat, count: nat)

  function Flatten(steps: seq<Step>): seq<Record> {
    if steps == [] then [] else Flatten(steps[1..]) + steps[0].records
  }

  function SegmentOf(step: Step, first: nat): Segment { Segment(step.session, step.parent, step.through, first, |step.records|) }

  function Segments(steps: seq<Step>): seq<Segment> {
    if steps == [] then [] else Segments(steps[1..]) + [SegmentOf(steps[0], |Flatten(steps[1..])|)]
  }

  method Assemble(steps: seq<Step>) returns (lineage: seq<Segment>, records: seq<Record>)
    ensures lineage == Segments(steps) && records == Flatten(steps)
  {
    lineage, records := [], [];
    var k := |steps|;
    while k > 0
      invariant 0 <= k <= |steps|
      invariant lineage == Segments(steps[k..]) && records == Flatten(steps[k..])
    {
      k := k - 1;
      assert steps[k..][1..] == steps[k + 1..];
      lineage := lineage + [SegmentOf(steps[k], |records|)];
      records := records + steps[k].records;
    }
    assert steps[0..] == steps;
  }

  /** Segment `i` holds the records of step `n - 1 - i`, and the next one starts where it ends. */
  ghost predicate Tiled(segments: seq<Segment>, records: seq<Record>, steps: seq<Step>, i: nat)
    requires i < |segments| == |steps|
  {
    var s, step := segments[i], steps[|steps| - 1 - i];
    && s == SegmentOf(step, s.first) && s.first + s.count <= |records| && records[s.first..s.first + s.count] == step.records
    && s.first == (if i == 0 then 0 else segments[i - 1].first + segments[i - 1].count)
    && (i == |segments| - 1 ==> s.first + s.count == |records|)
  }

  /** The segments cover the records, one after the other. */
  ghost predicate AllTiled(segments: seq<Segment>, records: seq<Record>, steps: seq<Step>) {
    && |segments| == |steps| && (steps == [] ==> records == [])
    && forall i :: 0 <= i < |steps| ==> Tiled(segments, records, steps, i)
  }

  lemma {:induction false} SegmentsTile(steps: seq<Step>) returns (segments: seq<Segment>, records: seq<Record>)
    ensures segments == Segments(steps) && records == Flatten(steps) && AllTiled(segments, records, steps)
    decreases |steps|
  {
    if steps == [] {
      segments, records := [], [];
    } else {
      var s, r := SegmentsTile(steps[1..]);
      segments, records := LaidBehind(s, r, steps[1..], steps);
    }
  }

  /** The leaf's segment goes behind the tiled rest. */
  lemma LaidBehind(segments: seq<Segment>, records: seq<Record>, rest: seq<Step>, steps: seq<Step>) returns (more: seq<Segment>, all: seq<Record>)
    requires steps != [] && rest == steps[1..] && AllTiled(segments, records, rest)
    ensures more == segments + [SegmentOf(steps[0], |records|)] && all == records + steps[0].records && AllTiled(more, all, steps)
  {
    more, all := segments + [SegmentOf(steps[0], |records|)], records + steps[0].records;
    forall i | 0 <= i < |steps| ensures Tiled(more, all, steps, i) {
      if i < |rest| { StaysTiled(segments, records, rest, i, more, all, steps); } else { LastTiled(segments, records, rest, more, all, steps); }
    }
  }

  lemma StaysTiled(segments: seq<Segment>, records: seq<Record>, rest: seq<Step>, i: nat, more: seq<Segment>, all: seq<Record>, steps: seq<Step>)
    requires steps != [] && rest == steps[1..] && i < |rest| == |segments| && Tiled(segments, records, rest, i)
    requires |more| == |steps| && segments <= more && records <= all
    ensures Tiled(more, all, steps, i)
  {
    var s := segments[i];
    assert steps[|steps| - 1 - i] == rest[|rest| - 1 - i];
    assert all[s.first..s.first + s.count] == records[s.first..s.first + s.count];
  }

  lemma LastTiled(segments: seq<Segment>, records: seq<Record>, rest: seq<Step>, more: seq<Segment>, all: seq<Record>, steps: seq<Step>)
    requires steps != [] && rest == steps[1..] && AllTiled(segments, records, rest)
    requires more == segments + [SegmentOf(steps[0], |records|)] && all == records + steps[0].records
    ensures Tiled(more, all, steps, |rest|)
  {
    assert all[|records|..|records| + |steps[0].records|] == steps[0].records;
    if rest != [] { assert Tiled(segments, records, rest, |rest| - 1); }
  }

  /** What an exported lineage looks like to a reader: root first, linked parent to child, leaf last. */
  ghost predicate RootToLeaf(segments: seq<Segment>, id: string) {
    && segments != [] && segments[0].parent.None?
    && segments[|segments| - 1].metadata.sessionId == id && segments[|segments| - 1].through.None?
    && (forall i :: 0 < i < |segments| ==> ChildOf(segments, i))
    && (forall i, j :: 0 <= i < j < |segments| ==> segments[i].metadata.sessionId != segments[j].metadata.sessionId)
  }

  /** Segment `i` names segment `i - 1` as its parent, which is cut where it says, or to nothing. */
  ghost predicate ChildOf(segments: seq<Segment>, i: nat)
    requires 0 < i < |segments|
  {
    var child, parent := segments[i], segments[i - 1];
    && child.parent.Some? && child.parent.value.sessionId == parent.metadata.sessionId
    && parent.through == Some(ParentCutoff(child.through, child.parent.value.through))
    && (child.through == Some(0) ==> parent.through == Some(0))
  }

  lemma SegmentIs(segments: seq<Segment>, records: seq<Record>, steps: seq<Step>, i: nat)
    requires AllTiled(segments, records, steps) && i < |steps|
    ensures var s, step := segments[i], steps[|steps| - 1 - i];
            s.metadata == step.session && s.parent == step.parent && s.through == step.through
  {
    assert Tiled(segments, records, steps, i);
  }

  lemma SegmentLinked(segments: seq<Segment>, records: seq<Record>, steps: seq<Step>, id: string, i: nat)
    requires AllTiled(segments, records, steps) && Chain(id, steps) && 0 < i < |steps|
    ensures ChildOf(segments, i)
  {
    SegmentIs(segments, records, steps, i);
    SegmentIs(segments, records, steps, i - 1);
    assert Linked(steps, |steps| - i);
  }

  lemma SegmentsRootToLeaf(segments: seq<Segment>, records: seq<Record>, steps: seq<Step>, id: string)
    requires AllTiled(segments, records, steps) && Chain(id, steps) && Acyclic(steps) && steps != [] && steps[|steps| - 1].parent.None?
    ensures RootToLeaf(segments, id)
  {
    SegmentIs(segments, records, steps, 0);
    SegmentIs(segments, records, steps, |steps| - 1);
    forall i | 0 < i < |segments| ensures ChildOf(segments, i) { SegmentLinked(segments, records, steps, id, i); }
    forall i, j | 0 <= i < j < |segments| ensures segments[i].metadata.sessionId != segments[j].metadata.sessionId {
      SegmentIs(segments, records, steps, i);
      SegmentIs(segments, records, steps, j);
    }
  }

  lemma ExportIsRootToLeaf(db: Archive, limits: Limits, id: string, steps: seq<Step>) returns (segments: seq<Segment>, records: seq<Record>)
    requires Lineage(db, limits, id, steps)
    ensures segments == Segments(steps) && records == Flatten(steps)
    ensures RootToLeaf(segments, id) && |segments| <= limits.maxLineageDepth && AllTiled(segments, records, steps)
  {
    segments, records := SegmentsTile(steps);
    SegmentsRootToLeaf(segments, records, steps, id);
  }

  lemma {:induction false} ZeroGoesOn(id: string, steps: seq<Step>, i: nat, j: nat)
    requires Chain(id, steps) && i <= j < |steps| && steps[i].through == Some(0)
    ensures steps[j].through == Some(0)
    decreases j
  {
    if i < j {
      ZeroGoesOn(id, steps, i, j - 1);
      assert Linked(steps, j);
    }
  }

  /** Once an ancestor is cut to nothing, so is every ancestor above it. */
  lemma ZeroCutoffEmpties(db: Archive, limits: Limits, id: string, steps: seq<Step>, i: nat, j: nat)
    requires AllRead(db, limits, steps) && Chain(id, steps) && i <= j < |steps| && steps[i].through == Some(0)
    ensures steps[j].through == Some(0) && steps[j].records == []
  {
    ZeroGoesOn(id, steps, i, j);
    assert StepOk(db, steps[j], limits);
  }

  lemma StepWithinUse(db: Archive, limits: Limits, step: Step)
    requires StepOk(db, step, limits)
    ensures |step.records| <= StepUse(db, step).records
  {
    var q := QueryOf(db, step);
    RecordsAre(q, Stop(q), limits);
  }

  /** The selected records number at most the rows read. */
  lemma {:induction false} RecordsWithinBudget(db: Archive, limits: Limits, steps: seq<Step>) returns (records: seq<Record>, used: nat)
    requires AllRead(db, limits, steps)
    ensures records == Flatten(steps) && used == Spent(db, steps, |steps|).records && |records| <= used
    decreases |steps|
  {
    if steps == [] {
      records, used := [], 0;
    } else {
      var rest := steps[1..];
      ReadRest(db, limits, steps);
      records, used := RecordsWithinBudget(db, limits, rest);
      records, used := OneMore(db, limits, steps, rest, records, used);
    }
  }

  lemma OneMore(db: Archive, limits: Limits, steps: seq<Step>, rest: seq<Step>, r: seq<Record>, u: nat) returns (records: seq<Record>, used: nat)
    requires steps != [] && rest == steps[1..] && StepOk(db, steps[0], limits)
    requires r == Flatten(rest) && u == Spent(db, rest, |rest|).records && |r| <= u
    ensures records == Flatten(steps) && used == Spent(db, steps, |steps|).records && |records| <= used
  {
    records, used := r + steps[0].records, StepUse(db, steps[0]).records + u;
    StepWithinUse(db, limits, steps[0]);
    SpentShift(db, steps, |rest|);
  }

  lemma ReadRest(db: Archive, limits: Limits, steps: seq<Step>)
    requires AllRead(db, limits, steps) && steps != []
    ensures AllRead(db, limits, steps[1..]) && StepOk(db, steps[0], limits)
  {
    forall i | 0 <= i < |steps[1..]| ensures StepOk(db, steps[1..][i], limits) { assert steps[1..][i] == steps[i + 1]; }
  }

  lemma {:induction false} SpentShift(db: Archive, steps: seq<Step>, k: nat)
    requires k + 1 <= |steps|
    ensures Spent(db, steps, k + 1).records == StepUse(db, steps[0]).records + Spent(db, steps[1..], k).records
    decreases k
  {
    if k > 0 { SpentShift(db, steps, k - 1); }
  }

  // ----- The export and its identity -----

  const EXPORT_VERSION: nat := 1

  datatype Digest = Digest(bytes: seq<Byte>)

  datatype Resume = Resume(wrapperVersion: nat, snapshotVersion: nat, compressed: Raw, decoded: Raw, snapshot: Raw)

  datatype ResumeId = ResumeId(wrapperVersion: nat, snapshotVersion: nat, compressed: Digest, decoded: Digest, snapshot: Digest)

  datatype RecordId = RecordId(sessionId: string, eventId: int, raw: Digest)

  /** What the import id is the digest of. */
  datatype Identity = Identity(exportVersion: nat, databaseVersion: nat, sessionId: string, lineage: seq<Segment>,
                               records: seq<RecordId>, resume: Option<ResumeId>)

  datatype SessionExport = SessionExport(version: nat, importId: Digest, databaseVersion: nat, sessionId: string,
                                         lineage: seq<Segment>, records: seq<Record>, resume: Option<Resume>)

  function RecordIds(records: seq<Record>, digest: Raw -> Digest): seq<RecordId> {
    seq(|records|, i requires 0 <= i < |records| => RecordId(records[i].sessionId, records[i].eventId, digest(records[i].raw)))
  }

  function ResumeIds(resume: Option<Resume>, digest: Raw -> Digest): Option<ResumeId> {
    if resume.None? then None
    else
      var r := resume.value;
      Some(ResumeId(r.wrapperVersion, r.snapshotVersion, digest(r.compressed), digest(r.decoded), digest(r.snapshot)))
  }

  /** The export of a lineage. */
  function ExportOf(version: nat, id: string, steps: seq<Step>, resume: Option<Resume>,
                    digest: Raw -> Digest, identify: Identity -> Digest): SessionExport {
    var lineage, records := Segments(steps), Flatten(steps);
    var identity := Identity(EXPORT_VERSION, version, id, lineage, RecordIds(records, digest), ResumeIds(resume, digest));
    SessionExport(EXPORT_VERSION, identify(identity), version, id, lineage, records, resume)
  }

  /** The sessions visited are exactly those of the steps so far. */
  ghost predicate Visited(visited: set<string>, steps: seq<Step>) {
    && (forall i :: 0 <= i < |steps| ==> Id(steps[i]) in visited)
    && (forall x :: x in visited ==> exists i :: 0 <= i < |steps| && Id(steps[i]) == x)
    && |visited| == |steps|
  }

  lemma VisitedStep(visited: set<string>, steps: seq<Step>, next: Step)
    requires Visited(visited, steps) && Id(next) !in visited
    ensures Visited(visited + {Id(next)}, steps + [next])
  {
    var longer := steps + [next];
    assert Id(longer[|steps|]) == Id(next);
    forall x | x in visited ensures exists i :: 0 <= i < |longer| && Id(longer[i]) == x {
      var i :| 0 <= i < |steps| && Id(steps[i]) == x;
      assert Id(longer[i]) == x;
    }
  }

  /** Look a session up, read it through its cutoff, and charge it. */
  method ReadStep(db: Archive, limits: Limits, id: string, current: string, through: Option<nat>, budget: SelectionBudget)
    returns (r: Result<Step, ImportError>)
    requires ValidLimits(limits) && budget.bytes <= limits.maxSelectedBytes
    modifies budget
    ensures var fault := StepFault(db, limits, id, current, through, Used(old(budget.records), old(budget.bytes)));
            if fault.Some? then r == Err(fault.value) else r.Ok?
    ensures r.Ok? ==>
              && Id(r.value) == current && r.value.through == through && StepOk(db, r.value, limits)
              && Used(budget.records, budget.bytes) == Charged(db, Used(old(budget.records), old(budget.bytes)), r.value)
              && Fits(Used(budget.records, budget.bytes), limits)
  {
    var found := Session(db, current);
    if found.Err? { return Err(found.error); }
    if found.value.None? { return Err(if current == id then SessionNotFound else MissingAncestor); }
    var session := found.value.value;
    var q := Query(session, Events(db, current), through);
    NoFaultIff(q, Used(budget.records, budget.bytes), limits);
    var selection := Records(q, budget, limits);
    if selection.Err? { return Err(selection.error); }
    var fits := budget.AddBytes(session.encoded, limits);
    if !fits { return Err(Limit("selected bytes")); }
    r := Ok(Step(session, selection.value.parent, through, selection.value.records));
  }

  /** A walk that cannot go on, and why. */
  ghost predicate Stuck(db: Archive, limits: Limits, id: string, steps: seq<Step>, error: ImportError) {
    Walk(db, limits, id, steps) && Unfinished(steps) && NextFault(db, limits, id, steps) == Some(error)
  }

  /** Why an export failed: the walk got stuck, or the resume state of a good lineage could not be read. */
  ghost predicate FailsWith(db: Archive, limits: Limits, id: string, resume: nat -> Result<Option<Resume>, ImportError>,
                            steps: seq<Step>, error: ImportError) {
    || Stuck(db, limits, id, steps, error)
    || (Lineage(db, limits, id, steps) && resume(Spent(db, steps, |steps|).bytes) == Err(error))
  }

  lemma SeenBefore(visited: set<string>, steps: seq<Step>, current: string)
    requires Visited(visited, steps)
    ensures current in visited <==> exists i :: 0 <= i < |steps| && Id(steps[i]) == current
  {
  }

  lemma NextFaultIs(db: Archive, limits: Limits, id: string, steps: seq<Step>, current: string, through: Option<nat>, used: Used)
    requires Unfinished(steps) && (current, through) == Next(id, steps) && used == Spent(db, steps, |steps|)
    requires |steps| + 1 <= limits.maxLineageDepth && !exists i :: 0 <= i < |steps| && Id(steps[i]) == current
    ensures NextFault(db, limits, id, steps) == StepFault(db, limits, id, current, through, used)
  {
  }

  /** Part way through the walk: the steps so far, the sessions visited, what comes next and what was charged. */
  ghost predicate OnTheWay(db: Archive, limits: Limits, id: string, steps: seq<Step>, visited: set<string>, current: string,
                           through: Option<nat>, used: Used) {
    && Walk(db, limits, id, steps) && Unfinished(steps) && (current, through) == Next(id, steps)
    && Visited(visited, steps) && used == Spent(db, steps, |steps|)
  }

  /** One more step towards the root, or why there is none. */
  method Advance(db: Archive, limits: Limits, id: string, steps: seq<Step>, visited: set<string>, current: string,
                 through: Option<nat>, budget: SelectionBudget)
    returns (r: Result<seq<Step>, ImportError>)
    requires ValidLimits(limits) && OnTheWay(db, limits, id, steps, visited, current, through, Used(budget.records, budget.bytes))
    modifies budget
    ensures r.Err? ==> NextFault(db, limits, id, steps) == Some(r.error)
    ensures r.Ok? ==> |r.value| == |steps| + 1 && Id(r.value[|steps|]) == current && r.value[|steps|].through == through
    ensures r.Ok? ==> Walk(db, limits, id, r.value) && Visited(visited + {current}, r.value)
    ensures r.Ok? ==> Used(budget.records, budget.bytes) == Spent(db, r.value, |r.value|)
  {
    SeenBefore(visited, steps, current);
    ghost var used := Used(budget.records, budget.bytes);
    if current in visited { return Err(LineageCycle); }
    if |visited| + 1 > limits.maxLineageDepth { return Err(Limit("lineage depth")); }
    NextFaultIs(db, limits, id, steps, current, through, used);
    var step := ReadStep(db, limits, id, current, through, budget);
    if step.Err? { return Err(step.error); }
    WalkStep(db, limits, id, steps, step.value);
    VisitedStep(visited, steps, step.value);
    r := Ok(steps + [step.value]);
  }

  /** Where the walk stands: still going with the next session and cutoff, or at the root. */
  datatype Position = Going(steps: seq<Step>, visited: set<string>, current: string, through: Option<nat>) | AtRoot(steps: seq<Step>)

  ghost predicate Standing(db: Archive, limits: Limits, id: string, p: Position, used: Used) {
    match p
    case Going(steps, visited, current, through) => OnTheWay(db, limits, id, steps, visited, current, through, used)
    case AtRoot(steps) => Lineage(db, limits, id, steps) && used == Spent(db, steps, |steps|)
  }

  /** After its last step the walk is finished, or goes on with the parent under its cutoff. */
  function After(steps: seq<Step>, visited: set<string>): Position
    requires steps != []
  {
    var last := steps[|steps| - 1];
    if last.parent.None? then AtRoot(steps)
    else Going(steps, visited, last.parent.value.sessionId, Some(ParentCutoff(last.through, last.parent.value.through)))
  }

  lemma Onwards(db: Archive, limits: Limits, id: string, steps: seq<Step>, visited: set<string>, used: Used)
    requires Walk(db, limits, id, steps) && steps != [] && Visited(visited, steps) && used == Spent(db, steps, |steps|)
    ensures Standing(db, limits, id, After(steps, visited), used)
  {
    if steps[|steps| - 1].parent.Some? {
      var p := After(steps, visited);
      assert OnTheWay(db, limits, id, steps, visited, p.current, p.through, used);
    }
  }

  /** Take a step and see whether it was the last. */
  method StepOn(db: Archive, limits: Limits, id: string, p: Position, budget: SelectionBudget) returns (r: Result<Position, ImportError>)
    requires ValidLimits(limits) && p.Going? && Standing(db, limits, id, p, Used(budget.records, budget.bytes))
    modifies budget
    ensures r.Err? ==> Stuck(db, limits, id, p.steps, r.error)
    ensures r.Ok? ==> Standing(db, limits, id, r.value, Used(budget.records, budget.bytes))
    ensures r.Ok? ==> |p.steps| < |r.value.steps| <= limits.maxLineageDepth
  {
    var steps := Advance(db, limits, id, p.steps, p.visited, p.current, p.through, budget);
    if steps.Err? { return Err(steps.error); }
    Onwards(db, limits, id, steps.value, p.visited + {p.current}, Used(budget.records, budget.bytes));
    r := Ok(After(steps.value, p.visited + {p.current}));
  }

  /** The walk to the root. */
  method WalkToRoot(db: Archive, limits: Limits, id: string, budget: SelectionBudget) returns (r: Result<seq<Step>, ImportError>, ghost steps: seq<Step>)
    requires ValidLimits(limits) && budget.records == 0 && budget.bytes == 0
    modifies budget
    ensures r.Ok? ==> r.value == steps && Lineage(db, limits, id, steps) && budget.bytes == Spent(db, steps, |steps|).bytes
    ensures r.Err? ==> Stuck(db, limits, id, steps, r.error)
  {
    var p := Going([], {}, id, None);
    while p.Going?
      invariant Standing(db, limits, id, p, Used(budget.records, budget.bytes))
      decreases p.Going?, limits.maxLineageDepth - |p.steps|
    {
      var next := StepOn(db, limits, id, p, budget);
      if next.Err? { return Err(next.error), p.steps; }
      p := next.value;
    }
    r, steps := Ok(p.steps), p.steps;
  }

  /** A lineage whose resume state can be read. */
  ghost predicate HasLineage(db: Archive, limits: Limits, id: string, resume: nat -> Result<Option<Resume>, ImportError>, steps: seq<Step>) {
    Lineage(db, limits, id, steps) && resume(Spent(db, steps, |steps|).bytes).Ok?
  }

  ghost predicate Exportable(db: Archive, limits: Limits, id: string, resume: nat -> Result<Option<Resume>, ImportError>) {
    ValidId(id) && exists steps :: HasLineage(db, limits, id, resume, steps)
  }

  lemma NothingToExport(db: Archive, limits: Limits, id: string, resume: nat -> Result<Option<Resume>, ImportError>,
                        stuck: seq<Step>, error: ImportError)
    requires FailsWith(db, limits, id, resume, stuck, error)
    ensures !Exportable(db, limits, id, resume)
  {
    forall steps | HasLineage(db, limits, id, resume, steps) ensures false { FailureIsExact(db, limits, id, resume, stuck, error, steps); }
  }

  /**
   `export`: succeeds exactly with the export of the session's unique lineage, or fails with what
   stopped the walk. `resume` is the decoding of the resume state, given the bytes already selected.
   */
  method Export(db: Archive, limits: Limits, id: string, resume: nat -> Result<Option<Resume>, ImportError>,
                digest: Raw -> Digest, identify: Identity -> Digest)
    returns (r: Result<SessionExport, ImportError>, ghost steps: seq<Step>)
    requires ValidLimits(limits)
    ensures r.Ok? <==> Exportable(db, limits, id, resume)
    ensures !ValidId(id) ==> r == Err(SessionNotFound)
    ensures ValidId(id) && r.Err? ==> FailsWith(db, limits, id, resume, steps, r.error)
    ensures r.Ok? ==>
              && ValidId(id) && Lineage(db, limits, id, steps)
              && var resumed := resume(Spent(db, steps, |steps|).bytes);
                 resumed.Ok? && r.value == ExportOf(db.version, id, steps, resumed.value, digest, identify)
  {
    if !ValidId(id) { return Err(SessionNotFound), []; }
    var budget := new SelectionBudget();
    var walked;
    walked, steps := WalkToRoot(db, limits, id, budget);
    if walked.Err? {
      NothingToExport(db, limits, id, resume, steps, walked.error);
      return Err(walked.error), steps;
    }
    var lineage, records := Assemble(walked.value);
    var resumed := resume(budget.bytes);
    if resumed.Err? {
      NothingToExport(db, limits, id, resume, steps, resumed.error);
      return Err(resumed.error), steps;
    }
    assert HasLineage(db, limits, id, resume, steps);
    var identity := Identity(EXPORT_VERSION, db.version, id, lineage, RecordIds(records, digest), ResumeIds(resumed.value, digest));
    r := Ok(SessionExport(EXPORT_VERSION, identify(identity), db.version, id, lineage, records, resumed.value));
  }

  /** A failure is exact: nothing that makes an export fail leaves anything to export. */
  lemma FailureIsExact(db: Archive, limits: Limits, id: string, resume: nat -> Result<Option<Resume>, ImportError>,
                       stuck: seq<Step>, error: ImportError, full: seq<Step>)
    requires FailsWith(db, limits, id, resume, stuck, error) && Lineage(db, limits, id, full)
    ensures resume(Spent(db, full, |full|).bytes) == Err(error)
  {
    if Lineage(db, limits, id, stuck) {
      LineageUnique(db, limits, id, stuck, full);
    } else {
      StuckMeansNone(db, limits, id, stuck, full);
    }
  }

  // ----- Appending to ancestors -----

  /** A later archive: every session of the lineage keeps its row; the leaf keeps its records, ancestors may gain some. */
  ghost predicate Extends(db: Archive, later: Archive, steps: seq<Step>) {
    && later.version == db.version
    && forall i :: 0 <= i < |steps| ==> StepExtends(db, later, steps[i])
  }

  ghost predicate StepExtends(db: Archive, later: Archive, step: Step) {
    && Session(later, Id(step)) == Session(db, Id(step))
    && Events(db, Id(step)) <= Events(later, Id(step))
    && (step.through.None? ==> Events(later, Id(step)) == Events(db, Id(step)))
  }

  lemma StepStable(db: Archive, later: Archive, limits: Limits, step: Step)
    requires StepOk(db, step, limits) && StepExtends(db, later, step)
    ensures StepOk(later, step, limits) && StepUse(later, step) == StepUse(db, step)
  {
    if step.through.Some? {
      var rows, more := Events(db, Id(step)), Events(later, Id(step));
      ReadIgnoresAppended(QueryOf(db, step), more[|rows|..], limits);
      assert rows + more[|rows|..] == more;
    }
  }

  lemma {:induction false} SpentStable(db: Archive, later: Archive, steps: seq<Step>, k: nat)
    requires k <= |steps| && forall i :: 0 <= i < |steps| ==> StepUse(later, steps[i]) == StepUse(db, steps[i])
    ensures Spent(later, steps, k) == Spent(db, steps, k)
    decreases k
  {
    if k > 0 { SpentStable(db, later, steps, k - 1); }
  }

  lemma LineageStable(db: Archive, later: Archive, limits: Limits, id: string, steps: seq<Step>)
    requires Lineage(db, limits, id, steps) && Extends(db, later, steps)
    ensures Lineage(later, limits, id, steps) && Spent(later, steps, |steps|) == Spent(db, steps, |steps|)
  {
    forall i | 0 <= i < |steps| ensures StepOk(later, steps[i], limits) && StepUse(later, steps[i]) == StepUse(db, steps[i]) {
      StepStable(db, later, limits, steps[i]);
    }
    SpentStable(db, later, steps, |steps|);
  }

  /** The export an archive yields: the one `Export` returns. */
  ghost predicate Yields(db: Archive, limits: Limits, id: string, resume: nat -> Result<Option<Resume>, ImportError>,
                         digest: Raw -> Digest, identify: Identity -> Digest, steps: seq<Step>, e: SessionExport) {
    && Lineage(db, limits, id, steps) && resume(Spent(db, steps, |steps|).bytes).Ok?
    && e == ExportOf(db.version, id, steps, resume(Spent(db, steps, |steps|).bytes).value, digest, identify)
  }

  /**
   Records appended to ancestors behind their cutoffs, and anything that happens to other sessions,
   change nothing: whatever the later archive exports is the same export, import id included.
   */
  lemma AppendingChangesNothing(db: Archive, later: Archive, limits: Limits, id: string, resume: nat -> Result<Option<Resume>, ImportError>,
                                digest: Raw -> Digest, identify: Identity -> Digest, steps: seq<Step>, e: SessionExport,
                                steps': seq<Step>, e': SessionExport)
    requires Yields(db, limits, id, resume, digest, identify, steps, e) && Extends(db, later, steps)
    ensures Yields(later, limits, id, resume, digest, identify, steps, e)
    ensures Yields(later, limits, id, resume, digest, identify, steps', e') ==> e' == e && e'.importId == e.importId
  {
    LineageStable(db, later, limits, id, steps);
    if Yields(later, limits, id, resume, digest, identify, steps', e') {
      LineageUnique(later, limits, id, steps, steps');
    }
  }
}
