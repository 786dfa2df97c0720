/** The evaluator: a certificate is issued exactly when every obligation holds on current evidence. */
module Completion {
  import opened Options
  import opened Contract

  type Uuid = nat

  datatype CheckStatus = Passed | Failed | Inconclusive | CheckCancelled

  datatype EvidenceIdentity = EvidenceIdentity(
    contract: Digest, source: Digest, environment: Digest, artifact: Digest, checkDefinition: Digest, verifier: Digest)

  datatype ControlObservation = ControlObservation(
    kind: ControlRequirement, source: Digest, rejected: bool, intendedReason: bool)

  datatype Observation = Observation(
    status: CheckStatus, assertions: nat, discovered: Option<nat>, skipped: nat, exitCode: Option<int>,
    signal: Option<int>, control: Option<ControlObservation>, baselineUnchanged: bool,
    limitations: seq<string>, unreconciledJobs: seq<Uuid>)

  datatype Evidence = Evidence(
    jobId: Uuid, generation: nat, check: string, identity: EvidenceIdentity, observation: Observation)

  datatype JobStatus = Running | Succeeded | JobFailed | JobCancelled | UnknownJob | Fenced
  datatype Job = Job(status: JobStatus, fenceReceipt: Option<Digest>)

  datatype EffectStatus = Intended | UnknownEffect | EffectSucceeded | EffectFailed | Reconciled

  datatype ModelReceipt = ModelReceipt(unknown: bool, tokens: Option<nat>)

  datatype Finding = Finding(id: string, blocking: bool, resolved: bool)

  datatype Candidate = Candidate(source: Digest, environment: Digest, artifact: Digest, frozen: bool)

  datatype Delivery = Delivery(kind: DeliveryKind, source: Digest, artifact: Digest, receipt: Digest)

  datatype TaskState = TaskState(
    id: Uuid, revision: nat, generation: nat, startedMs: nat, contract: Option<Contract>,
    terminal: bool, cancellationRequested: bool, amendmentPending: bool,
    candidate: Option<Candidate>, baseline: Option<Candidate>, evidence: seq<Evidence>,
    jobs: map<Uuid, Job>, effects: map<Uuid, EffectStatus>, findings: seq<Finding>,
    tokensUsed: nat, modelCallsUsed: nat,
    reservations: set<Uuid>, receipts: map<Uuid, ModelReceipt>, delivery: Option<Delivery>)

  datatype Certificate = Certificate(
    task: Uuid, contract: Digest, source: Digest, artifact: Digest, environment: Digest, generation: nat,
    evaluatedRevision: nat, evidence: map<string, Uuid>, deliveryReceipt: Digest)

  datatype Reason =
    | ContractPending | ContractInvalid | Terminal | Cancelled | AmendmentPending | OpenQuestions | BlockingFinding
    | UnresolvedJobs | UnfencedJob | UnknownBilling | UnreconciledEffects | BudgetExceeded
    | NoCandidate | WritableCandidate | DefinitionMissing | NoCurrentEvidence | EvidenceLimitations
    | PolicyUnsatisfied | AssertionsMissing | NoControlRun | RetryPolicy | NoDelivery | DeliveryMismatch

  datatype Rejection = Rejection(obligation: Option<string>, reason: Reason)

  /** `Digest::of_value` on contracts and check definitions. */
  datatype Digests = Digests(contract: Contract -> Digest, check: CheckDefinition -> Digest)

  // ----- One check -----

  function IdentityOf(c: Contract, k: Candidate, check: CheckDefinition, d: Digests): EvidenceIdentity {
    EvidenceIdentity(d.contract(c), k.source, k.environment, k.artifact, d.check(check), check.verifier)
  }

  /** The attempts at one check on one identity, oldest first. */
  function Attempts(evidence: seq<Evidence>, check: string, identity: EvidenceIdentity): seq<Evidence> {
    if evidence == [] then [] else
      var last := evidence[|evidence| - 1];
      Attempts(evidence[..|evidence| - 1], check, identity)
      + if last.check == check && last.identity == identity then [last] else []
  }

  predicate PolicySatisfied(check: CheckDefinition, o: Observation) {
    || (o.status == Passed && o.exitCode == Some(0) && o.signal == None)
    || (check.baseline.NoNewFailure? && o.status == Failed && o.baselineUnchanged && o.signal == None)
  }

  predicate Exercised(check: CheckDefinition, o: Observation) {
    o.assertions >= check.minimumAssertions && (o.discovered.Some? ==> o.discovered.value > o.skipped)
  }

  predicate ControlRan(s: TaskState, check: CheckDefinition, o: Observation) {
    check.control == NoControl ||
    (o.control.Some?
     && o.control.value.rejected && o.control.value.intendedReason && o.control.value.kind == check.control
     && Some(o.control.value.source) ==
        match check.control
        case BaselineFailure => if s.baseline.Some? then Some(s.baseline.value.source) else None
        case NegativeControl => check.controlSource
        case NoControl => None)
  }

  predicate FailedBefore(attempts: seq<Evidence>) {
    exists i :: 0 <= i < |attempts| - 1 && attempts[i].observation.status == Failed
  }

  predicate RetriesAllowed(check: CheckDefinition, attempts: seq<Evidence>) {
    && (check.flake == RejectAnyFailure ==> !FailedBefore(attempts))
    && (check.flake.Retry? ==> |attempts| <= check.flake.maxAttempts)
  }

  /** Why a check is refused, in the evaluator's order of questions; `None` when it is accepted. */
  function Refusal(s: TaskState, check: CheckDefinition, attempts: seq<Evidence>): Option<Reason> {
    if attempts == [] || attempts[|attempts| - 1].generation != s.generation then Some(NoCurrentEvidence)
    else
      var o := attempts[|attempts| - 1].observation;
      if o.limitations != [] || o.unreconciledJobs != [] then Some(EvidenceLimitations)
      else if !PolicySatisfied(check, o) then Some(PolicyUnsatisfied)
      else if !Exercised(check, o) then Some(AssertionsMissing)
      else if !ControlRan(s, check, o) then Some(NoControlRun)
      else if !RetriesAllowed(check, attempts) then Some(RetryPolicy)
      else None
  }

  function CheckRefusal(s: TaskState, c: Contract, k: Candidate, id: string, d: Digests): Option<Reason> {
    if id !in c.checks then Some(DefinitionMissing)
    else Refusal(s, c.checks[id], Attempts(s.evidence, id, IdentityOf(c, k, c.checks[id], d)))
  }

  /** A check holds on the candidate: its last attempt is current, clean and within its own policy. */
  ghost predicate CheckHolds(s: TaskState, c: Contract, k: Candidate, id: string, d: Digests) {
    && id in c.checks
    && var check := c.checks[id];
       var attempts := Attempts(s.evidence, id, IdentityOf(c, k, check, d));
       && attempts != []
       && var o := attempts[|attempts| - 1].observation;
          && attempts[|attempts| - 1].generation == s.generation
          && o.limitations == [] && o.unreconciledJobs == []
          && PolicySatisfied(check, o) && Exercised(check, o) && ControlRan(s, check, o)
          && RetriesAllowed(check, attempts)
  }

  lemma CheckHoldsIff(s: TaskState, c: Contract, k: Candidate, id: string, d: Digests)
    ensures CheckHolds(s, c, k, id, d) <==> CheckRefusal(s, c, k, id, d) == None
  {
  }

  function JobOf(s: TaskState, c: Contract, k: Candidate, id: string, d: Digests): (job: Option<Uuid>)
  {
    if id !in c.checks then None else
      var attempts := Attempts(s.evidence, id, IdentityOf(c, k, c.checks[id], d));
      if attempts == [] then None else Some(attempts[|attempts| - 1].jobId)
  }

  // ----- The whole state -----

  /** Everything but the checks and the delivery. */
  ghost predicate StateClear(s: TaskState, c: Contract, atMs: nat) {
    && Valid(c) && !s.terminal && !s.cancellationRequested && !s.amendmentPending && c.openQuestions == []
    && (forall i :: 0 <= i < |s.findings| ==> !s.findings[i].blocking || s.findings[i].resolved)
    && JobsSettled(s) && JobsFenced(s) && BillingKnown(s) && EffectsSettled(s) && WithinBudget(s, c, atMs)
  }

  predicate JobsSettled(s: TaskState) {
    forall j :: j in s.jobs ==> s.jobs[j].status != Running && s.jobs[j].status != UnknownJob
  }

  predicate JobsFenced(s: TaskState) {
    forall j :: j in s.jobs ==> s.jobs[j].status == Fenced ==> s.jobs[j].fenceReceipt.Some?
  }

  predicate BillingKnown(s: TaskState) {
    forall op :: op in s.reservations ==> op in s.receipts && s.receipts[op].tokens.Some? && !s.receipts[op].unknown
  }

  predicate EffectsSettled(s: TaskState) {
    forall e :: e in s.effects ==> s.effects[e] != Intended && s.effects[e] != UnknownEffect
  }

  predicate WithinBudget(s: TaskState, c: Contract, atMs: nat) {
    s.tokensUsed <= c.limits.tokens && s.modelCallsUsed <= c.limits.modelCalls
    && SatSub(atMs, s.startedMs) < c.limits.elapsedMs
  }

  predicate Delivered(s: TaskState, c: Contract, k: Candidate) {
    s.delivery.Some? && s.delivery.value.kind == c.delivery
    && s.delivery.value.source == k.source && s.delivery.value.artifact == k.artifact
  }

  predicate Demands(c: Contract, id: string) {
    exists r :: 0 <= r < |c.requirements| && id in c.requirements[r].checks
  }

  /** The full acceptance predicate. */
  ghost predicate Accepts(s: TaskState, atMs: nat, d: Digests) {
    && s.contract.Some? && s.candidate.Some?
    && var c, k := s.contract.value, s.candidate.value;
       && StateClear(s, c, atMs) && k.frozen
       && (forall id :: Demands(c, id) ==> CheckHolds(s, c, k, id, d))
       && Delivered(s, c, k)
  }

  /** The certificate names exactly the demanded checks and the job of each one's last attempt. */
  ghost predicate CertifiesEvidence(s: TaskState, c: Contract, k: Candidate, d: Digests, evidence: map<string, Uuid>) {
    forall id :: (id in evidence <==> Demands(c, id))
      && (id in evidence ==> Some(evidence[id]) == JobOf(s, c, k, id, d))
  }

  // ----- The reasons a refusal gives -----

  function Flag(raised: bool, reason: Reason): seq<Rejection> { if raised then [Rejection(None, reason)] else [] }

  function FindingReasons(findings: seq<Finding>, k: nat): seq<Rejection>
    requires k <= |findings|
  {
    if k == 0 then []
    else FindingReasons(findings, k - 1)
         + if findings[k - 1].blocking && !findings[k - 1].resolved then [Rejection(Some(findings[k - 1].id), BlockingFinding)] else []
  }

  function AboutTask(invalid: bool, terminal: bool, cancelled: bool, amending: bool, open: bool): seq<Rejection> {
    [] + Flag(invalid, ContractInvalid) + Flag(terminal, Terminal) + Flag(cancelled, Cancelled)
    + Flag(amending, AmendmentPending) + Flag(open, OpenQuestions)
  }

  function WithBooks(before: seq<Rejection>, unsettled: bool, unfenced: bool, unbilled: bool, unreconciled: bool, over: bool): seq<Rejection> {
    before + Flag(unsettled, UnresolvedJobs) + Flag(unfenced, UnfencedJob) + Flag(unbilled, UnknownBilling)
    + Flag(unreconciled, UnreconciledEffects) + Flag(over, BudgetExceeded)
  }

  /** One reason for each thing in the way, apart from the candidate, its checks and the delivery. */
  ghost function StateReasons(s: TaskState, c: Contract, atMs: nat): seq<Rejection> {
    WithBooks(AboutTask(!Valid(c), s.terminal, s.cancellationRequested, s.amendmentPending, c.openQuestions != [])
              + FindingReasons(s.findings, |s.findings|),
              !JobsSettled(s), !JobsFenced(s), !BillingKnown(s), !EffectsSettled(s), !WithinBudget(s, c, atMs))
  }

  lemma {:induction false} NoFindingReasons(findings: seq<Finding>, k: nat)
    requires k <= |findings|
    ensures FindingReasons(findings, k) == [] <==> forall i :: 0 <= i < k ==> !findings[i].blocking || findings[i].resolved
    decreases k
  {
    if k > 0 { NoFindingReasons(findings, k - 1); }
  }

  lemma StateReasonsIff(s: TaskState, c: Contract, atMs: nat)
    ensures StateReasons(s, c, atMs) == [] <==> StateClear(s, c, atMs)
  {
    NoFindingReasons(s.findings, |s.findings|);
  }

  /** Why the first `j` checks of a requirement are refused. */
  function RequirementReasons(s: TaskState, c: Contract, k: Candidate, d: Digests, r: Requirement, j: nat): seq<Rejection>
    requires j <= |r.checks|
  {
    if j == 0 then []
    else
      var refusal := CheckRefusal(s, c, k, r.checks[j - 1], d);
      RequirementReasons(s, c, k, d, r, j - 1) + if refusal.Some? then [Rejection(Some(r.id), refusal.value)] else []
  }

  /** Why checks of the first `n` requirements are refused, each under the requirement that demands it. */
  function CheckReasons(s: TaskState, c: Contract, k: Candidate, d: Digests, n: nat): seq<Rejection>
    requires n <= |c.requirements|
  {
    if n == 0 then []
    else CheckReasons(s, c, k, d, n - 1) + RequirementReasons(s, c, k, d, c.requirements[n - 1], |c.requirements[n - 1].checks|)
  }

  lemma {:induction false} RequirementReasonsIff(s: TaskState, c: Contract, k: Candidate, d: Digests, r: Requirement, j: nat)
    requires j <= |r.checks|
    ensures RequirementReasons(s, c, k, d, r, j) == [] <==> forall i :: 0 <= i < j ==> CheckHolds(s, c, k, r.checks[i], d)
    decreases j
  {
    if j > 0 {
      RequirementReasonsIff(s, c, k, d, r, j - 1);
      CheckHoldsIff(s, c, k, r.checks[j - 1], d);
    }
  }

  lemma {:induction false} CheckReasonsIff(s: TaskState, c: Contract, k: Candidate, d: Digests, n: nat)
    requires n <= |c.requirements|
    ensures CheckReasons(s, c, k, d, n) == [] <==> forall q :: 0 <= q < n ==> RequirementHolds(s, c, k, d, c.requirements[q])
    decreases n
  {
    if n > 0 {
      var r := c.requirements[n - 1];
      CheckReasonsIff(s, c, k, d, n - 1);
      RequirementReasonsIff(s, c, k, d, r, |r.checks|);
      assert RequirementReasons(s, c, k, d, r, |r.checks|) == [] <==> RequirementHolds(s, c, k, d, r);
    }
  }

  /** Every check of a requirement holds. */
  ghost predicate RequirementHolds(s: TaskState, c: Contract, k: Candidate, d: Digests, r: Requirement) {
    forall i :: 0 <= i < |r.checks| ==> CheckHolds(s, c, k, r.checks[i], d)
  }

  lemma NoCheckReasons(s: TaskState, c: Contract, k: Candidate, d: Digests)
    ensures CheckReasons(s, c, k, d, |c.requirements|) == [] <==> forall id :: Demands(c, id) ==> CheckHolds(s, c, k, id, d)
  {
    CheckReasonsIff(s, c, k, d, |c.requirements|);
    DemandedHold(s, c, k, d);
  }

  lemma DemandedHold(s: TaskState, c: Contract, k: Candidate, d: Digests)
    ensures (forall q :: 0 <= q < |c.requirements| ==> RequirementHolds(s, c, k, d, c.requirements[q]))
            <==> forall id :: Demands(c, id) ==> CheckHolds(s, c, k, id, d)
  {
    forall q, i | 0 <= q < |c.requirements| && 0 <= i < |c.requirements[q].checks| ensures Demands(c, c.requirements[q].checks[i]) {
      assert c.requirements[q].checks[i] in c.requirements[q].checks;
    }
  }

  // ----- The evaluator -----

  /** Push a reason if it applies. */
  method Reject(before: seq<Rejection>, raised: bool, reason: Reason) returns (reasons: seq<Rejection>)
    ensures reasons == before + Flag(raised, reason)
  {
    reasons := before;
    if raised { reasons := reasons + [Rejection(None, reason)]; }
  }

  method CheckFindings(findings: seq<Finding>, before: seq<Rejection>) returns (reasons: seq<Rejection>)
    ensures reasons == before + FindingReasons(findings, |findings|)
  {
    reasons := before;
    for i := 0 to |findings|
      invariant reasons == before + FindingReasons(findings, i)
    {
      if findings[i].blocking && !findings[i].resolved {
        reasons := reasons + [Rejection(Some(findings[i].id), BlockingFinding)];
      }
    }
  }

  /** The questions about the task itself. */
  method CheckTask(s: TaskState, c: Contract) returns (reasons: seq<Rejection>)
    ensures reasons == AboutTask(!Valid(c), s.terminal, s.cancellationRequested, s.amendmentPending, c.openQuestions != [])
  {
    var validated := Validate(c);
    reasons := Reject([], validated.Err?, ContractInvalid);
    reasons := Reject(reasons, s.terminal, Terminal);
    reasons := Reject(reasons, s.cancellationRequested, Cancelled);
    reasons := Reject(reasons, s.amendmentPending, AmendmentPending);
    reasons := Reject(reasons, c.openQuestions != [], OpenQuestions);
  }

  /** The questions about its jobs, bills, effects and budget. */
  method CheckBooks(s: TaskState, c: Contract, atMs: nat, before: seq<Rejection>) returns (reasons: seq<Rejection>)
    ensures reasons == WithBooks(before, !JobsSettled(s), !JobsFenced(s), !BillingKnown(s), !EffectsSettled(s), !WithinBudget(s, c, atMs))
  {
    reasons := Reject(before, !JobsSettled(s), UnresolvedJobs);
    reasons := Reject(reasons, !JobsFenced(s), UnfencedJob);
    reasons := Reject(reasons, !BillingKnown(s), UnknownBilling);
    reasons := Reject(reasons, !EffectsSettled(s), UnreconciledEffects);
    reasons := Reject(reasons, !WithinBudget(s, c, atMs), BudgetExceeded);
  }

  method CheckState(s: TaskState, c: Contract, atMs: nat) returns (reasons: seq<Rejection>)
    ensures reasons == StateReasons(s, c, atMs)
  {
    reasons := CheckTask(s, c);
    reasons := CheckFindings(s.findings, reasons);
    reasons := CheckBooks(s, c, atMs, reasons);
  }

  /** The accepted map so far: the checks met and accepted, with the job of their last attempt. */
  ghost predicate Collected(s: TaskState, c: Contract, k: Candidate, d: Digests, seen: set<string>, accepted: map<string, Uuid>) {
    forall id :: (id in accepted <==> id in seen && CheckRefusal(s, c, k, id, d) == None)
      && (id in accepted ==> Some(accepted[id]) == JobOf(s, c, k, id, d))
  }

  /** The checks of one requirement; one already accepted is not looked at again. */
  method CheckRequirement(s: TaskState, c: Contract, k: Candidate, d: Digests, r: Requirement, accepted0: map<string, Uuid>, ghost seen0: set<string>)
    returns (reasons: seq<Rejection>, accepted: map<string, Uuid>, ghost seen: set<string>)
    requires Collected(s, c, k, d, seen0, accepted0)
    ensures reasons == RequirementReasons(s, c, k, d, r, |r.checks|)
    ensures seen == seen0 + (set id | id in r.checks) && Collected(s, c, k, d, seen, accepted)
  {
    reasons, accepted, seen := [], accepted0, seen0;
    for j := 0 to |r.checks|
      invariant reasons == RequirementReasons(s, c, k, d, r, j)
      invariant seen == seen0 + set id | id in r.checks[..j]
      invariant Collected(s, c, k, d, seen, accepted)
    {
      var id := r.checks[j];
      if id !in accepted {
        var refusal := CheckRefusal(s, c, k, id, d);
        if refusal.Some? {
          reasons := reasons + [Rejection(Some(r.id), refusal.value)];
        } else {
          accepted := accepted[id := JobOf(s, c, k, id, d).value];
        }
      }
      seen := seen + {id};
      assert r.checks[..j + 1] == r.checks[..j] + [id];
    }
    assert r.checks[..|r.checks|] == r.checks;
  }

  method CheckEvidence(s: TaskState, c: Contract, k: Candidate, d: Digests)
    returns (reasons: seq<Rejection>, accepted: map<string, Uuid>)
    ensures reasons == CheckReasons(s, c, k, d, |c.requirements|)
    ensures reasons == [] ==> CertifiesEvidence(s, c, k, d, accepted)
  {
    reasons, accepted := [], map[];
    ghost var seen: set<string> := {};
    for r := 0 to |c.requirements|
      invariant reasons == CheckReasons(s, c, k, d, r)
      invariant forall id :: id in seen <==> exists q :: 0 <= q < r && id in c.requirements[q].checks
      invariant Collected(s, c, k, d, seen, accepted)
    {
      var more: seq<Rejection>;
      more, accepted, seen := CheckRequirement(s, c, k, d, c.requirements[r], accepted, seen);
      reasons := reasons + more;
    }
    assert forall id :: id in seen <==> Demands(c, id);
    NoCheckReasons(s, c, k, d);
    if reasons == [] { AllCertified(s, c, k, d, seen, accepted); }
  }

  lemma AllCertified(s: TaskState, c: Contract, k: Candidate, d: Digests, seen: set<string>, accepted: map<string, Uuid>)
    requires Collected(s, c, k, d, seen, accepted) && forall id :: id in seen <==> Demands(c, id)
    requires forall id :: Demands(c, id) ==> CheckHolds(s, c, k, id, d)
    ensures CertifiesEvidence(s, c, k, d, accepted)
  {
    forall id | Demands(c, id) ensures CheckRefusal(s, c, k, id, d) == None { CheckHoldsIff(s, c, k, id, d); }
  }

  /** Everything in the way of a certificate, in the evaluator's order. */
  ghost function Reasons(s: TaskState, atMs: nat, d: Digests): seq<Rejection> {
    if s.contract.None? then [Rejection(None, ContractPending)]
    else
      var c := s.contract.value;
      if s.candidate.None? then StateReasons(s, c, atMs) + [Rejection(None, NoCandidate)]
      else
        var k := s.candidate.value;
        StateReasons(s, c, atMs) + Flag(!k.frozen, WritableCandidate) + CheckReasons(s, c, k, d, |c.requirements|)
        + if s.delivery.None? then [Rejection(None, NoDelivery)] else Flag(!Delivered(s, c, k), DeliveryMismatch)
  }

  /** Nothing is in the way exactly when the state is acceptable. */
  lemma ReasonsIff(s: TaskState, atMs: nat, d: Digests)
    ensures Reasons(s, atMs, d) == [] <==> Accepts(s, atMs, d)
  {
    if s.contract.Some? && s.candidate.Some? {
      StateReasonsIff(s, s.contract.value, atMs);
      NoCheckReasons(s, s.contract.value, s.candidate.value, d);
    }
  }

  // ----- What a refusal names -----

  /** A reason about the state of the task is raised. */
  ghost predicate Raised(s: TaskState, c: Contract, atMs: nat, reason: Reason) {
    match reason
    case ContractInvalid => !Valid(c)
    case Terminal => s.terminal
    case Cancelled => s.cancellationRequested
    case AmendmentPending => s.amendmentPending
    case OpenQuestions => c.openQuestions != []
    case UnresolvedJobs => !JobsSettled(s)
    case UnfencedJob => !JobsFenced(s)
    case UnknownBilling => !BillingKnown(s)
    case UnreconciledEffects => !EffectsSettled(s)
    case BudgetExceeded => !WithinBudget(s, c, atMs)
    case _ => false
  }

  /** Finding `i` blocks, and is what is named. */
  predicate Blocks(findings: seq<Finding>, i: nat, x: Rejection)
    requires i < |findings|
  {
    findings[i].blocking && !findings[i].resolved && x == Rejection(Some(findings[i].id), BlockingFinding)
  }

  /** Check `j` of a requirement is refused, and the requirement and the reason are what is named. */
  predicate Refuses(s: TaskState, c: Contract, k: Candidate, d: Digests, r: Requirement, j: nat, x: Rejection)
    requires j < |r.checks|
  {
    var refusal := CheckRefusal(s, c, k, r.checks[j], d);
    refusal.Some? && x == Rejection(Some(r.id), refusal.value)
  }

  ghost predicate StateInTheWay(s: TaskState, c: Contract, atMs: nat, x: Rejection) {
    (x.obligation.None? && Raised(s, c, atMs, x.reason)) || FindingInTheWay(s.findings, |s.findings|, x)
  }

  /** Some check of one of the first `n` requirements is refused as named. */
  ghost predicate CheckInTheWay(s: TaskState, c: Contract, k: Candidate, d: Digests, n: nat, x: Rejection)
    requires n <= |c.requirements|
  {
    exists q :: 0 <= q < n && RequirementInTheWay(s, c, k, d, c.requirements[q], |c.requirements[q].checks|, x)
  }

  ghost predicate RequirementInTheWay(s: TaskState, c: Contract, k: Candidate, d: Digests, r: Requirement, n: nat, x: Rejection)
    requires n <= |r.checks|
  {
    exists j :: 0 <= j < n && Refuses(s, c, k, d, r, j, x)
  }

  /** The rejection is in the way: of the state, the candidate, a demanded check, or the delivery. */
  ghost predicate InTheWay(s: TaskState, atMs: nat, d: Digests, x: Rejection) {
    if s.contract.None? then x == Rejection(None, ContractPending)
    else
      var c := s.contract.value;
      || StateInTheWay(s, c, atMs, x)
      || if s.candidate.None? then x == Rejection(None, NoCandidate)
         else
           var k := s.candidate.value;
           || (!k.frozen && x == Rejection(None, WritableCandidate))
           || CheckInTheWay(s, c, k, d, |c.requirements|, x)
           || (s.delivery.None? && x == Rejection(None, NoDelivery))
           || (s.delivery.Some? && !Delivered(s, c, k) && x == Rejection(None, DeliveryMismatch))
  }

  /** One of the first `n` findings blocks and is what is named. */
  ghost predicate FindingInTheWay(findings: seq<Finding>, n: nat, x: Rejection)
    requires n <= |findings|
  {
    exists i :: 0 <= i < n && Blocks(findings, i, x)
  }

  lemma {:induction false} FindingNamed(findings: seq<Finding>, n: nat, x: Rejection)
    requires n <= |findings|
    ensures x in FindingReasons(findings, n) <==> FindingInTheWay(findings, n, x)
    decreases n
  {
    if n > 0 {
      FindingNamed(findings, n - 1, x);
      assert FindingInTheWay(findings, n, x) <==> FindingInTheWay(findings, n - 1, x) || Blocks(findings, n - 1, x);
    }
  }

  lemma OneMoreCheck(s: TaskState, c: Contract, k: Candidate, d: Digests, r: Requirement, n: nat, x: Rejection)
    requires n < |r.checks|
    ensures RequirementInTheWay(s, c, k, d, r, n + 1, x) <==> RequirementInTheWay(s, c, k, d, r, n, x) || Refuses(s, c, k, d, r, n, x)
  {
  }

  lemma {:induction false} RequirementNamed(s: TaskState, c: Contract, k: Candidate, d: Digests, r: Requirement, n: nat, x: Rejection)
    requires n <= |r.checks|
    ensures x in RequirementReasons(s, c, k, d, r, n) <==> RequirementInTheWay(s, c, k, d, r, n, x)
    decreases n
  {
    if n > 0 {
      RequirementNamed(s, c, k, d, r, n - 1, x);
      OneMoreCheck(s, c, k, d, r, n - 1, x);
    }
  }

  lemma OneMoreRequirement(s: TaskState, c: Contract, k: Candidate, d: Digests, n: nat, x: Rejection)
    requires n < |c.requirements|
    ensures CheckInTheWay(s, c, k, d, n + 1, x) <==>
            CheckInTheWay(s, c, k, d, n, x) || RequirementInTheWay(s, c, k, d, c.requirements[n], |c.requirements[n].checks|, x)
  {
  }

  lemma {:induction false} CheckNamed(s: TaskState, c: Contract, k: Candidate, d: Digests, n: nat, x: Rejection)
    requires n <= |c.requirements|
    ensures x in CheckReasons(s, c, k, d, n) <==> CheckInTheWay(s, c, k, d, n, x)
    decreases n
  {
    if n > 0 {
      CheckNamed(s, c, k, d, n - 1, x);
      RequirementNamed(s, c, k, d, c.requirements[n - 1], |c.requirements[n - 1].checks|, x);
      OneMoreRequirement(s, c, k, d, n - 1, x);
    }
  }

  predicate TaskRaised(invalid: bool, terminal: bool, cancelled: bool, amending: bool, open: bool, reason: Reason) {
    match reason
    case ContractInvalid => invalid
    case Terminal => terminal
    case Cancelled => cancelled
    case AmendmentPending => amending
    case OpenQuestions => open
    case _ => false
  }

  predicate BooksRaised(unsettled: bool, unfenced: bool, unbilled: bool, unreconciled: bool, over: bool, reason: Reason) {
    match reason
    case UnresolvedJobs => unsettled
    case UnfencedJob => unfenced
    case UnknownBilling => unbilled
    case UnreconciledEffects => unreconciled
    case BudgetExceeded => over
    case _ => false
  }

  lemma TaskNamed(invalid: bool, terminal: bool, cancelled: bool, amending: bool, open: bool, x: Rejection) returns (task: seq<Rejection>, raised: bool)
    ensures task == AboutTask(invalid, terminal, cancelled, amending, open)
    ensures raised == TaskRaised(invalid, terminal, cancelled, amending, open, x.reason)
    ensures x in task <==> x.obligation.None? && raised
  {
    task, raised := AboutTask(invalid, terminal, cancelled, amending, open), TaskRaised(invalid, terminal, cancelled, amending, open, x.reason);
  }

  lemma BooksNamed(before: seq<Rejection>, unsettled: bool, unfenced: bool, unbilled: bool, unreconciled: bool, over: bool, x: Rejection)
    returns (all: seq<Rejection>, raised: bool)
    ensures all == WithBooks(before, unsettled, unfenced, unbilled, unreconciled, over)
    ensures raised == BooksRaised(unsettled, unfenced, unbilled, unreconciled, over, x.reason)
    ensures x in all <==> x in before || (x.obligation.None? && raised)
  {
    all, raised := WithBooks(before, unsettled, unfenced, unbilled, unreconciled, over),
                   BooksRaised(unsettled, unfenced, unbilled, unreconciled, over, x.reason);
  }

  lemma RaisedIs(s: TaskState, c: Contract, atMs: nat, reason: Reason)
    ensures Raised(s, c, atMs, reason) <==>
            || TaskRaised(!Valid(c), s.terminal, s.cancellationRequested, s.amendmentPending, c.openQuestions != [], reason)
            || BooksRaised(!JobsSettled(s), !JobsFenced(s), !BillingKnown(s), !EffectsSettled(s), !WithinBudget(s, c, atMs), reason)
  {
  }

  lemma InBoth(a: seq<Rejection>, b: seq<Rejection>, x: Rejection) returns (all: seq<Rejection>)
    ensures all == a + b && (x in all <==> x in a || x in b)
  {
    all := a + b;
  }

  lemma StateNamed(s: TaskState, c: Contract, atMs: nat, x: Rejection) returns (reasons: seq<Rejection>)
    ensures reasons == StateReasons(s, c, atMs) && (x in reasons <==> StateInTheWay(s, c, atMs, x))
  {
    var task, raised := TaskNamed(!Valid(c), s.terminal, s.cancellationRequested, s.amendmentPending, c.openQuestions != [], x);
    FindingNamed(s.findings, |s.findings|, x);
    var before := InBoth(task, FindingReasons(s.findings, |s.findings|), x);
    var over;
    reasons, over := BooksNamed(before, !JobsSettled(s), !JobsFenced(s), !BillingKnown(s), !EffectsSettled(s), !WithinBudget(s, c, atMs), x);
    RaisedIs(s, c, atMs, x.reason);
  }

  lemma FlagNamed(raised: bool, reason: Reason, x: Rejection) returns (flag: seq<Rejection>)
    ensures flag == Flag(raised, reason) && (x in flag <==> raised && x == Rejection(None, reason))
  {
    flag := Flag(raised, reason);
  }

  /** The candidate's and the delivery's reasons around those of the checks. */
  lemma CandidateNamed(state: seq<Rejection>, checks: seq<Rejection>, writable: bool, missing: bool, mismatch: bool, x: Rejection)
    returns (all: seq<Rejection>)
    ensures all == state + Flag(writable, WritableCandidate) + checks
                   + if missing then [Rejection(None, NoDelivery)] else Flag(mismatch, DeliveryMismatch)
    ensures x in all <==> || x in state || (writable && x == Rejection(None, WritableCandidate)) || x in checks
                          || (missing && x == Rejection(None, NoDelivery)) || (!missing && mismatch && x == Rejection(None, DeliveryMismatch))
  {
    var flag := FlagNamed(writable, WritableCandidate, x);
    all := InBoth(state, flag, x);
    all := InBoth(all, checks, x);
    var last := FlagNamed(mismatch, DeliveryMismatch, x);
    all := InBoth(all, if missing then [Rejection(None, NoDelivery)] else last, x);
  }

  /** A refusal names exactly what is in the way: nothing is left out and nothing made up. */
  lemma RefusalNames(s: TaskState, atMs: nat, d: Digests, x: Rejection)
    ensures x in Reasons(s, atMs, d) <==> InTheWay(s, atMs, d, x)
  {
    if s.contract.Some? {
      var c := s.contract.value;
      var state := StateNamed(s, c, atMs, x);
      if s.candidate.None? {
        var _ := InBoth(state, [Rejection(None, NoCandidate)], x);
      } else {
        CheckNamed(s, c, s.candidate.value, d, |c.requirements|, x);
        var _ := CandidateNamed(state, CheckReasons(s, c, s.candidate.value, d, |c.requirements|), !s.candidate.value.frozen,
                                s.delivery.None?, !Delivered(s, c, s.candidate.value), x);
      }
    }
  }

  /** `evaluate`: certifies exactly the accepted states, and a refusal names everything in the way. */
  method Evaluate(s: TaskState, atMs: nat, d: Digests) returns (r: Result<Certificate, seq<Rejection>>)
    ensures r.Ok? <==> Accepts(s, atMs, d)
    ensures r.Ok? ==>
              var c, k, cert := s.contract.value, s.candidate.value, r.value;
              && cert == Certificate(s.id, d.contract(c), k.source, k.artifact, k.environment, s.generation,
                                     s.revision, cert.evidence, s.delivery.value.receipt)
              && CertifiesEvidence(s, c, k, d, cert.evidence)
    ensures r.Err? ==> r.error == Reasons(s, atMs, d) != []
    ensures r.Err? ==> forall x :: x in r.error <==> InTheWay(s, atMs, d, x)
  {
    ReasonsIff(s, atMs, d);
    forall x ensures x in Reasons(s, atMs, d) <==> InTheWay(s, atMs, d, x) { RefusalNames(s, atMs, d, x); }
    if s.contract.None? { return Err([Rejection(None, ContractPending)]); }
    var c := s.contract.value;
    var reasons := CheckState(s, c, atMs);
    if s.candidate.None? { return Err(reasons + [Rejection(None, NoCandidate)]); }
    var k := s.candidate.value;
    reasons := reasons + Flag(!k.frozen, WritableCandidate);
    var refused, accepted := CheckEvidence(s, c, k, d);
    reasons := reasons + refused;
    if s.delivery.None? { return Err(reasons + [Rejection(None, NoDelivery)]); }
    reasons := reasons + Flag(!Delivered(s, c, k), DeliveryMismatch);
    if reasons != [] { return Err(reasons); }
    r := Ok(Certificate(s.id, d.contract(c), k.source, k.artifact, k.environment, s.generation, s.revision,
                        accepted, s.delivery.value.receipt));
  }

  // ----- Sticky failure -----

  lemma {:induction false} AttemptsExtend(a: seq<Evidence>, b: seq<Evidence>, check: string, identity: EvidenceIdentity)
    ensures Attempts(a, check, identity) <= Attempts(a + b, check, identity)
    decreases |b|
  {
    if b == [] {
      assert a + b == a;
    } else {
      AttemptsExtend(a, b[..|b| - 1], check, identity);
      assert (a + b)[..|a + b| - 1] == a + b[..|b| - 1];
    }
  }

  /** The attempts at a check already rule out any certificate for this contract and candidate. */
  ghost predicate Doomed(s: TaskState, id: string, d: Digests) {
    && s.contract.Some? && s.candidate.Some? && id in s.contract.value.checks
    && var check := s.contract.value.checks[id];
       var attempts := Attempts(s.evidence, id, IdentityOf(s.contract.value, s.candidate.value, check, d));
       || (check.baseline == MustPass && check.flake == RejectAnyFailure
           && exists i :: 0 <= i < |attempts| && attempts[i].observation.status == Failed)
       || (check.flake.Retry? && |attempts| > check.flake.maxAttempts)
  }

  /** `later` has the same contract and candidate and at least the same evidence; anything else may differ. */
  ghost predicate SameSubject(s: TaskState, later: TaskState) {
    && s.contract.Some? && later.contract == s.contract
    && s.candidate.Some? && later.candidate.Some?
    && later.candidate.value.source == s.candidate.value.source
    && later.candidate.value.environment == s.candidate.value.environment
    && later.candidate.value.artifact == s.candidate.value.artifact
    && s.evidence <= later.evidence
  }

  /**
   A failure sticks: once a must-pass check that rejects any failure has failed, or a retried check
   has run out of attempts, no later state with the same contract and candidate is certified.
   */
  lemma FailureSticks(s: TaskState, later: TaskState, id: string, atMs: nat, d: Digests)
    requires SameSubject(s, later) && Demands(s.contract.value, id) && Doomed(s, id, d)
    ensures !Accepts(later, atMs, d)
  {
    var c, k := s.contract.value, later.candidate.value;
    var check := c.checks[id];
    var identity := IdentityOf(c, k, check, d);
    assert identity == IdentityOf(c, s.candidate.value, check, d);
    var attempts, all := Attempts(s.evidence, id, identity), Attempts(later.evidence, id, identity);
    assert later.evidence == s.evidence + later.evidence[|s.evidence|..];
    AttemptsExtend(s.evidence, later.evidence[|s.evidence|..], id, identity);
    if check.baseline == MustPass && check.flake == RejectAnyFailure
       && exists i :: 0 <= i < |attempts| && attempts[i].observation.status == Failed {
      var i :| 0 <= i < |attempts| && attempts[i].observation.status == Failed;
      assert all[i] == attempts[i];
    }
    assert !CheckHolds(later, c, k, id, d);
  }
}
