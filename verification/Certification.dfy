/** From the first admitted contract through every follow-up to the certificate on the last one. */
module Certification {
  import opened Options
  import opened Contract
  import opened Admission
  import opened Completion

  /** Each contract keeps the obligations of the one before it. */
  ghost predicate Keeping(contracts: seq<Contract>) {
    forall i :: 0 < i < |contracts| ==> Preserves(contracts[i - 1], contracts[i])
  }

  /** A run of admissions under one intake policy, each on top of the one before. */
  ghost predicate AdmittedChain(policy: Policy, contracts: seq<Contract>) {
    contracts != [] && Keeping(contracts) && forall i :: 0 <= i < |contracts| ==> HasProfile(policy.profile, contracts[i])
  }

  /** No chain of follow-ups weakens any contract in it. */
  lemma {:induction false} ChainPreserves(contracts: seq<Contract>, i: nat, j: nat)
    requires Keeping(contracts) && i <= j < |contracts|
    ensures Preserves(contracts[i], contracts[j])
    decreases j - i
  {
    if i == j {
      PreservesReflexive(contracts[i]);
    } else {
      ChainPreserves(contracts, i, j - 1);
      PreservesTransitive(contracts[i], contracts[j - 1], contracts[j]);
    }
  }

  /**
   A piece of evidence backs a check: it is an observation of that very definition, under the given
   contract, on the certified candidate and in the current generation, and it satisfies its policy.
   */
  ghost predicate Backs(s: TaskState, d: Digests, e: Evidence, id: string, definition: CheckDefinition, c: Contract) {
    && s.candidate.Some?
    && e in s.evidence && e.check == id && e.generation == s.generation
    && e.identity == IdentityOf(c, s.candidate.value, definition, d)
    && e.observation.limitations == [] && e.observation.unreconciledJobs == []
    && PolicySatisfied(definition, e.observation) && Exercised(definition, e.observation)
    && ControlRan(s, definition, e.observation)
  }

  lemma {:induction false} AttemptsAreEvidence(evidence: seq<Evidence>, id: string, identity: EvidenceIdentity)
    ensures forall e :: e in Attempts(evidence, id, identity) ==> e in evidence && e.check == id && e.identity == identity
    decreases |evidence|
  {
    if evidence != [] { AttemptsAreEvidence(evidence[..|evidence| - 1], id, identity); }
  }

  /** A certificate backs every check its own contract defines. */
  lemma CertificateBacksContract(s: TaskState, atMs: nat, d: Digests, evidence: map<string, Uuid>, id: string,
                                 definition: CheckDefinition) returns (e: Evidence)
    requires Accepts(s, atMs, d)
    requires CertifiesEvidence(s, s.contract.value, s.candidate.value, d, evidence)
    requires id in s.contract.value.checks && s.contract.value.checks[id] == definition
    ensures id in evidence && evidence[id] == e.jobId
    ensures Backs(s, d, e, id, definition, s.contract.value)
  {
    var c, k := s.contract.value, s.candidate.value;
    ChecksAreRequired(c, id);
    assert Demands(c, id);
    assert CheckHolds(s, c, k, id, d);
    var identity := IdentityOf(c, k, definition, d);
    var attempts := Attempts(s.evidence, id, identity);
    e := attempts[|attempts| - 1];
    AttemptsAreEvidence(s.evidence, id, identity);
  }

  /** A certificate says nothing of any check its own contract does not define. */
  lemma CertificateNamesItsContract(s: TaskState, atMs: nat, d: Digests, evidence: map<string, Uuid>)
    requires Accepts(s, atMs, d)
    requires CertifiesEvidence(s, s.contract.value, s.candidate.value, d, evidence)
    ensures evidence.Keys == s.contract.value.checks.Keys
  {
    forall id ensures id in evidence <==> id in s.contract.value.checks { ChecksAreRequired(s.contract.value, id); }
  }

  lemma LastKeepsCheck(contracts: seq<Contract>, i: nat, id: string)
    requires Keeping(contracts) && i < |contracts| && id in contracts[i].checks
    ensures var last := contracts[|contracts| - 1];
            id in last.checks && last.checks[id] == contracts[i].checks[id]
  {
    ChainPreserves(contracts, i, |contracts| - 1);
  }

  /**
   Over any chain of accepted follow-ups, a certificate on the last contract carries current
   evidence for every check of every contract in the chain, with its definition unchanged.
   */
  lemma CertificateCoversEveryAdmittedCheck(contracts: seq<Contract>, s: TaskState, atMs: nat, d: Digests,
                                            evidence: map<string, Uuid>, i: nat, id: string) returns (e: Evidence)
    requires Keeping(contracts) && i < |contracts| && s.contract == Some(contracts[|contracts| - 1])
    requires Accepts(s, atMs, d)
    requires CertifiesEvidence(s, s.contract.value, s.candidate.value, d, evidence)
    requires id in contracts[i].checks
    ensures id in s.contract.value.checks && s.contract.value.checks[id] == contracts[i].checks[id]
    ensures id in evidence && evidence[id] == e.jobId
    ensures Backs(s, d, e, id, contracts[i].checks[id], s.contract.value)
  {
    LastKeepsCheck(contracts, i, id);
    e := CertificateBacksContract(s, atMs, d, evidence, id, contracts[i].checks[id]);
  }

  /** In particular every check of the protected profile, as the operator configured it, must pass. */
  lemma CertificateCoversTheProfile(policy: Policy, contracts: seq<Contract>, s: TaskState, atMs: nat, d: Digests,
                                    evidence: map<string, Uuid>, id: string) returns (e: Evidence)
    requires AdmittedChain(policy, contracts) && s.contract == Some(contracts[|contracts| - 1])
    requires Accepts(s, atMs, d)
    requires CertifiesEvidence(s, s.contract.value, s.candidate.value, d, evidence)
    requires id in policy.profile.checks
    ensures var full := PROFILE_PREFIX + id;
            && full in evidence && evidence[full] == e.jobId
            && Backs(s, d, e, full, Definition(full, policy.profile.checks[id]), s.contract.value)
    ensures e.observation.status == Passed && e.observation.exitCode == Some(0)
  {
    var full := PROFILE_PREFIX + id;
    assert ProfileKept(policy.profile, contracts[|contracts| - 1], id);
    e := CertificateBacksContract(s, atMs, d, evidence, full, Definition(full, policy.profile.checks[id]));
  }

  // ----- The life of a task's contract -----

  /** One change to a task's contract: a proposal compiled on top of it, or an amendment by the user. */
  datatype Change =
    | Compiled(task: Task, proposal: Proposal, baseline: set<string>)
    | Amended(task: Task, to: Contract, basis: string)

  /** The change was accepted on top of the contract held before it and left the other one behind. */
  ghost predicate Made(policy: Policy, before: Option<Contract>, change: Change, after: Contract) {
    && change.task.contract == before && change.task.intake == Some(policy)
    && match change
       case Compiled(task, proposal, baseline) =>
         Compilable(task, proposal, baseline) && after == FinalOf(before, DraftOf(task, policy, proposal))
       case Amended(task, to, basis) =>
         Amendable(task, to, basis) && after == to
  }

  function HeldBefore(contracts: seq<Contract>, i: nat): Option<Contract>
    requires i <= |contracts|
  {
    if i == 0 then None else Some(contracts[i - 1])
  }

  ghost predicate MadeAt(policy: Policy, changes: seq<Change>, contracts: seq<Contract>, i: nat)
    requires i < |changes| == |contracts|
  {
    Made(policy, HeldBefore(contracts, i), changes[i], contracts[i])
  }

  /** The contracts of one task, each made by its change from the one before, under one intake policy. */
  ghost predicate Life(policy: Policy, changes: seq<Change>, contracts: seq<Contract>) {
    |changes| == |contracts| && forall i :: 0 <= i < |changes| ==> MadeAt(policy, changes, contracts, i)
  }

  /** From one change on, the user amended nothing. */
  ghost predicate OnlyFollowUpsAfter(changes: seq<Change>, i: nat) {
    forall k :: i < k < |changes| ==> changes[k].Compiled?
  }

  /** A compiled change is an admission, and defines every check it proposed. */
  lemma CompiledChange(policy: Policy, changes: seq<Change>, contracts: seq<Contract>, i: nat)
    requires Life(policy, changes, contracts) && i < |changes| && changes[i].Compiled?
    ensures Admitted(policy, HeldBefore(contracts, i), contracts[i])
    ensures forall id :: id in changes[i].proposal.checks ==>
              id in contracts[i].checks && contracts[i].checks[id] == Definition(id, changes[i].proposal.checks[id])
  {
    assert MadeAt(policy, changes, contracts, i);
    CompiledIsAdmitted(changes[i].task, changes[i].proposal, changes[i].baseline, contracts[i]);
  }

  /** The contracts since the last amendment keep one another's obligations. */
  lemma FollowUpsKeep(policy: Policy, changes: seq<Change>, contracts: seq<Contract>, i: nat)
    returns (since: seq<Contract>)
    requires Life(policy, changes, contracts) && i < |contracts| && OnlyFollowUpsAfter(changes, i)
    ensures since == contracts[i..] && Keeping(since)
  {
    since := contracts[i..];
    forall k | 0 < k < |since| ensures Preserves(since[k - 1], since[k]) {
      CompiledChange(policy, changes, contracts, i + k);
    }
  }

  /** A task that is only ever compiled, never amended, goes through a chain of admissions. */
  lemma CompilingAdmits(policy: Policy, changes: seq<Change>, contracts: seq<Contract>)
    requires Life(policy, changes, contracts) && changes != []
    requires forall k :: 0 <= k < |changes| ==> changes[k].Compiled?
    ensures AdmittedChain(policy, contracts)
  {
    var since := FollowUpsKeep(policy, changes, contracts, 0);
    assert since == contracts;
    forall k | 0 <= k < |contracts| ensures HasProfile(policy.profile, contracts[k]) {
      CompiledChange(policy, changes, contracts, k);
    }
  }

  /** A follow-up brings the whole profile back, whatever an amendment before it left out. */
  lemma FollowUpsRestoreTheProfile(policy: Policy, changes: seq<Change>, contracts: seq<Contract>, i: nat)
    returns (since: seq<Contract>)
    requires Life(policy, changes, contracts) && i < |contracts| && changes[i].Compiled? && OnlyFollowUpsAfter(changes, i)
    ensures since == contracts[i..] && AdmittedChain(policy, since)
  {
    since := FollowUpsKeep(policy, changes, contracts, i);
    forall k | 0 <= k < |since| ensures HasProfile(policy.profile, since[k]) {
      CompiledChange(policy, changes, contracts, i + k);
    }
  }

  predicate Defines(c: Contract, id: string, definition: CheckDefinition) { id in c.checks && c.checks[id] == definition }

  /** Every amendment after the i-th change defines the check this way. */
  ghost predicate AmendmentsKeep(changes: seq<Change>, contracts: seq<Contract>, i: nat, id: string, definition: CheckDefinition)
    requires |changes| == |contracts|
  {
    forall k :: i < k < |changes| && changes[k].Amended? ==> Defines(contracts[k], id, definition)
  }

  /** Only an amendment ever takes a check away or changes it. */
  lemma {:induction false} OnlyAmendmentsDrop(policy: Policy, changes: seq<Change>, contracts: seq<Contract>, i: nat, j: nat,
                                              id: string, definition: CheckDefinition)
    requires Life(policy, changes, contracts) && i <= j < |contracts| && Defines(contracts[i], id, definition)
    requires AmendmentsKeep(changes, contracts, i, id, definition)
    ensures Defines(contracts[j], id, definition)
    decreases j - i
  {
    if i < j && changes[j].Compiled? {
      OnlyAmendmentsDrop(policy, changes, contracts, i, j - 1, id, definition);
      CompiledChange(policy, changes, contracts, j);
    }
  }

  lemma ProposedIsDefined(policy: Policy, changes: seq<Change>, contracts: seq<Contract>, i: nat, id: string)
    returns (definition: CheckDefinition)
    requires Life(policy, changes, contracts) && i < |contracts| && changes[i].Compiled? && id in changes[i].proposal.checks
    ensures definition == Definition(id, changes[i].proposal.checks[id]) && Defines(contracts[i], id, definition)
  {
    definition := Definition(id, changes[i].proposal.checks[id]);
    CompiledChange(policy, changes, contracts, i);
  }

  /**
   End to end: a check proposed to `compile` at any point in the life of a task is backed by current
   evidence in every later certificate, as it was proposed, unless the user amended it away.
   */
  lemma CertificateCoversEveryProposedCheck(policy: Policy, changes: seq<Change>, contracts: seq<Contract>, s: TaskState,
                                            atMs: nat, d: Digests, evidence: map<string, Uuid>, i: nat, id: string)
    returns (e: Evidence)
    requires Life(policy, changes, contracts) && i < |contracts| && changes[i].Compiled? && id in changes[i].proposal.checks
    requires AmendmentsKeep(changes, contracts, i, id, Definition(id, changes[i].proposal.checks[id]))
    requires s.contract == Some(contracts[|contracts| - 1]) && Accepts(s, atMs, d)
    requires CertifiesEvidence(s, s.contract.value, s.candidate.value, d, evidence)
    ensures id in evidence && evidence[id] == e.jobId
    ensures Backs(s, d, e, id, Definition(id, changes[i].proposal.checks[id]), s.contract.value)
  {
    var definition := ProposedIsDefined(policy, changes, contracts, i, id);
    OnlyAmendmentsDrop(policy, changes, contracts, i, |contracts| - 1, id, definition);
    e := CertificateBacksContract(s, atMs, d, evidence, id, definition);
  }

  // ----- What an amendment may do -----

  /** A contract of one requirement with one check. */
  function Small(check: string): Contract {
    Contract("r", "o", "s", [Requirement("q", "b", User("r"), [check], [])],
             map[check := CheckDefinition("p", Behavior, 0, ["c"], 1, 1, NoControl, None, MustPass, RejectAnyFailure)],
             [], [], [], Source, Limits(1, 1, 1, 1, 1))
  }

  lemma WordNotBlank(s: string)
    requires s != [] && 'a' <= s[0] <= 'z'
    ensures !Blank(s)
  {
    assert !Whitespace(s[0]);
  }

  lemma SmallIsValid(check: string)
    requires ValidId(check)
    ensures Valid(Small(check))
  {
    var c := Small(check);
    var r := c.requirements[0];
    WordNotBlank(c.request);
    WordNotBlank(c.outcome);
    WordNotBlank(c.scope);
    WordNotBlank(r.behavior);
    WordNotBlank(r.origin.basis);
    WordNotBlank(c.checks[check].purpose);
    assert RequirementOk(r);
    assert r.checks[0] in c.checks;
    assert IsOrder(c.requirements, ["q"]) by { assert ["q"][0] == r.id; }
    assert check in c.requirements[0].checks && CheckOk(c, check);
  }

  /** An amendment is free to drop a check, which a follow-up never is. */
  lemma AmendmentMayDrop(task: Task)
    requires task.request == "r" && task.contract == Some(Small("a"))
    ensures Valid(Small("a")) && Amendable(task, Small("b"), "user")
    ensures "a" in Small("a").checks && "a" !in Small("b").checks
    ensures !Preserves(Small("a"), Small("b")) && !Acceptable(task, Small("b"))
  {
    SmallIsValid("a");
    SmallIsValid("b");
    WordNotBlank("user");
    assert "a"[0] != "b"[0];
    assert "a" in Small("a").checks && "a" !in Small("b").checks;
  }
}
