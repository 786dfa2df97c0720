/** Compiling a proposal against the protected profile, and merging a follow-up into the old contract. */
module Admission {
  import opened Options
  import opened Contract
  import IdOrder
  import Greedy

  /** A check program, as far as admission looks into it. */
  datatype Program = Program(valid: bool, digest: Digest, controlFailure: bool)

  datatype ProposedCheck = ProposedCheck(
    purpose: string, kind: CheckKind, program: Program, baselineFailure: bool, controlOmission: Option<string>)

  datatype Proposal = Proposal(
    outcome: string, scope: string, requirements: seq<Requirement>, checks: map<string, ProposedCheck>,
    protectedBehavior: seq<string>, assumptions: seq<string>, openQuestions: seq<string>)

  datatype Profile = Profile(version: nat, name: string, checks: map<string, ProposedCheck>, digest: string)

  datatype Policy = Policy(version: nat, profile: Profile, delivery: DeliveryKind)

  datatype Task = Task(
    request: string, directives: seq<string>, initialLimits: Limits, intake: Option<Policy>,
    contract: Option<Contract>, amendmentPending: bool)

  datatype StoreError =
    | MissingIntake | InvalidPolicy | InvalidCheck | RequiresAmendment | TooLarge | UnquotedRequirement
    | UninspectedPath | NoBehaviorCheck | ReservedId | RewritesRequirement | ChangesCheck
    | WeakensObligations | NoPendingFollowUp | NoUserBasis | NoContract | ChangesRequest
    | InvalidContract(error: ContractError)

  const PROFILE_PREFIX: string := "profile-"

  // ----- Checks -----

  predicate CheckProposable(check: ProposedCheck) {
    && check.program.valid && !Blank(check.purpose)
    && if check.baselineFailure then check.program.controlFailure && check.controlOmission == None
       else check.controlOmission.Some? && !Blank(check.controlOmission.value)
  }

  function Definition(id: string, check: ProposedCheck): CheckDefinition {
    CheckDefinition(
      check.purpose, check.kind, check.program.digest, ["tact-protected-verifier", id], 60000, 1,
      if check.baselineFailure then BaselineFailure else NoControl, None, MustPass, RejectAnyFailure)
  }

  function OmissionNote(id: string, reason: string): string {
    "Check " + id + " omits a negative control: " + reason
  }

  predicate ProfileOk(p: Profile) {
    p.version == 1 && !Blank(p.name) && |p.checks| <= 128 && forall id :: id in p.checks ==> CheckProposable(p.checks[id])
  }

  predicate PolicyOk(p: Policy) {
    p.version == 1 && (p.delivery == Source || p.delivery == Patch) && ProfileOk(p.profile)
  }

  // ----- Obligations -----

  predicate StartsWith(s: string, prefix: string) { prefix <= s }

  /** `preserves_obligations`. */
  predicate Preserves(old': Contract, new': Contract) {
    && new'.request == old'.request && new'.limits == old'.limits && new'.delivery == old'.delivery
    && StartsWith(new'.outcome, old'.outcome) && StartsWith(new'.scope, old'.scope)
    && Kept(old'.requirements, new'.requirements) && ChecksKept(old'.checks, new'.checks)
    && Kept(old'.protectedBehavior, new'.protectedBehavior) && Kept(old'.assumptions, new'.assumptions)
  }

  lemma PreservesReflexive(c: Contract)
    ensures Preserves(c, c)
  {
  }

  /** Every entry of one list is in the other. */
  predicate Kept<T(==)>(old': seq<T>, new': seq<T>) { forall i :: 0 <= i < |old'| ==> old'[i] in new' }

  lemma KeptTransitive<T>(a: seq<T>, b: seq<T>, c: seq<T>)
    requires Kept(a, b) && Kept(b, c)
    ensures Kept(a, c)
  {
    forall i | 0 <= i < |a| ensures a[i] in c {
      var j :| 0 <= j < |b| && b[j] == a[i];
    }
  }

  lemma PrefixTransitive(a: string, b: string, c: string)
    requires StartsWith(b, a) && StartsWith(c, b)
    ensures StartsWith(c, a)
  {
    assert c[..|a|] == b[..|a|];
  }

  lemma PreservesTransitive(a: Contract, b: Contract, c: Contract)
    requires Preserves(a, b) && Preserves(b, c)
    ensures Preserves(a, c)
  {
    PrefixTransitive(a.outcome, b.outcome, c.outcome);
    PrefixTransitive(a.scope, b.scope, c.scope);
    KeptTransitive(a.requirements, b.requirements, c.requirements);
    KeptTransitive(a.protectedBehavior, b.protectedBehavior, c.protectedBehavior);
    KeptTransitive(a.assumptions, b.assumptions, c.assumptions);
    CheckDefinitionsTransitive(a.checks, b.checks, c.checks);
  }

  /** Every check keeps its definition. */
  predicate ChecksKept(old': map<string, CheckDefinition>, new': map<string, CheckDefinition>) {
    forall id :: id in old' ==> id in new' && new'[id] == old'[id]
  }

  lemma CheckDefinitionsTransitive(a: map<string, CheckDefinition>, b: map<string, CheckDefinition>, c: map<string, CheckDefinition>)
    requires ChecksKept(a, b) && ChecksKept(b, c)
    ensures ChecksKept(a, c)
  {
  }

  // ----- Merging a follow-up -----

  /** The first proposed requirement with an id. */
  function FirstWithId(rs: seq<Requirement>, id: string): Option<Requirement> {
    if rs == [] then None else if rs[0].id == id then Some(rs[0]) else FirstWithId(rs[1..], id)
  }

  lemma {:induction false} FirstWithIdIn(rs: seq<Requirement>, id: string)
    ensures FirstWithId(rs, id).Some? ==> FirstWithId(rs, id).value in rs
    decreases |rs|
  {
    if rs != [] && rs[0].id != id { FirstWithIdIn(rs[1..], id); }
  }

  lemma {:induction false} FirstWithIdConcat(a: seq<Requirement>, b: seq<Requirement>, id: string)
    ensures FirstWithId(a + b, id) == if FirstWithId(a, id).Some? then FirstWithId(a, id) else FirstWithId(b, id)
    decreases |a|
  {
    if a == [] {
      assert a + b == b;
    } else {
      FirstWithIdConcat(a[1..], b, id);
      assert (a + b)[1..] == a[1..] + b;
    }
  }

  /** The list leaves a requirement's id alone or has the requirement first under it. */
  predicate AgreesOn(rs: seq<Requirement>, r: Requirement) {
    FirstWithId(rs, r.id) == None || FirstWithId(rs, r.id) == Some(r)
  }

  /** No id stands for two requirements, in the proposal or between it and the old ones in order. */
  predicate Compatible(old': seq<Requirement>, proposed: seq<Requirement>) {
    forall i :: 0 <= i < |old'| ==> AgreesOn(proposed + old'[..i], old'[i])
  }

  /** The old requirements, among the first `k`, whose id neither the proposal nor an earlier one has. */
  function NotProposed(old': seq<Requirement>, proposed: seq<Requirement>, k: nat): seq<Requirement>
    requires k <= |old'|
  {
    if k == 0 then []
    else NotProposed(old', proposed, k - 1) + if FirstWithId(proposed + old'[..k - 1], old'[k - 1].id).None? then [old'[k - 1]] else []
  }

  function MergedRequirements(old': seq<Requirement>, proposed: seq<Requirement>): seq<Requirement> {
    proposed + NotProposed(old', proposed, |old'|)
  }

  /** As long as nothing disagrees, looking up in the merge so far is looking up in everything seen. */
  lemma {:induction false} LookUp(old': seq<Requirement>, proposed: seq<Requirement>, k: nat, id: string)
    requires k <= |old'| && forall i :: 0 <= i < k ==> AgreesOn(proposed + old'[..i], old'[i])
    ensures FirstWithId(proposed + NotProposed(old', proposed, k), id) == FirstWithId(proposed + old'[..k], id)
    decreases k
  {
    if k == 0 {
      assert proposed + [] == proposed && old'[..0] == [];
    } else {
      var seen, last := proposed + old'[..k - 1], old'[k - 1];
      var merged := proposed + NotProposed(old', proposed, k - 1);
      LookUp(old', proposed, k - 1, id);
      assert proposed + old'[..k] == seen + [last];
      FirstWithIdConcat(seen, [last], id);
      if FirstWithId(seen, last.id).None? {
        assert proposed + NotProposed(old', proposed, k) == merged + [last];
        FirstWithIdConcat(merged, [last], id);
      } else {
        assert proposed + NotProposed(old', proposed, k) == merged;
        assert AgreesOn(seen, last);
      }
    }
  }

  /** Every old requirement seen is in the merge so far. */
  lemma {:induction false} MergeKeeps(old': seq<Requirement>, proposed: seq<Requirement>, k: nat, i: nat)
    requires i < k <= |old'| && forall j :: 0 <= j < k ==> AgreesOn(proposed + old'[..j], old'[j])
    ensures old'[i] in proposed + NotProposed(old', proposed, k)
    decreases k
  {
    var merged, last := proposed + NotProposed(old', proposed, k - 1), old'[k - 1];
    if i < k - 1 {
      MergeKeeps(old', proposed, k - 1, i);
    } else {
      LookUp(old', proposed, k - 1, last.id);
      assert AgreesOn(proposed + old'[..i], old'[i]);
      FirstWithIdIn(merged, last.id);
    }
  }

  /** Carry every old requirement over; one already there under its id must be the same. */
  method MergeRequirements(old': seq<Requirement>, proposed: seq<Requirement>) returns (r: Result<seq<Requirement>, StoreError>)
    ensures r.Ok? <==> Compatible(old', proposed)
    ensures r.Ok? ==> r.value == MergedRequirements(old', proposed)
    ensures r.Err? ==> r.error == RewritesRequirement
  {
    var merged := proposed;
    for i := 0 to |old'|
      invariant merged == proposed + NotProposed(old', proposed, i)
      invariant forall k :: 0 <= k < i ==> AgreesOn(proposed + old'[..k], old'[k])
    {
      LookUp(old', proposed, i, old'[i].id);
      var found := FirstWithId(merged, old'[i].id);
      if found.Some? {
        if found.value != old'[i] {
          assert !AgreesOn(proposed + old'[..i], old'[i]);
          return Err(RewritesRequirement);
        }
      } else {
        merged := merged + [old'[i]];
      }
    }
    r := Ok(merged);
  }

  /** Carry every old check over; a proposed one with its id must be the same. */
  method MergeChecks(old': map<string, CheckDefinition>, proposed: map<string, CheckDefinition>)
    returns (r: Result<map<string, CheckDefinition>, StoreError>)
    ensures r.Ok? <==> forall id :: id in old' && id in proposed ==> proposed[id] == old'[id]
    ensures r.Ok? ==> r.value == old' + proposed
    ensures r.Err? ==> r.error == ChangesCheck
  {
    var merged, rest := proposed, old'.Keys;
    while rest != {}
      invariant rest <= old'.Keys
      invariant Carried(old', proposed, rest, merged)
      invariant forall id :: id in old' && id !in rest && id in proposed ==> proposed[id] == old'[id]
      decreases |rest|
    {
      var id := IdOrder.Next(rest);
      if id in merged && merged[id] != old'[id] { return Err(ChangesCheck); }
      CarryOne(old', proposed, rest, merged, id);
      if id !in merged { merged := merged[id := old'[id]]; }
      rest := rest - {id};
    }
    AllCarried(old', proposed, merged);
    r := Ok(merged);
  }

  /** The merge so far: the proposed checks, and the old ones already looked at. */
  ghost predicate Carried(old': map<string, CheckDefinition>, proposed: map<string, CheckDefinition>, rest: set<string>,
                          merged: map<string, CheckDefinition>) {
    forall id :: (id in merged <==> id in proposed || (id in old' && id !in rest))
      && (id in merged ==> merged[id] == if id in proposed then proposed[id] else old'[id])
  }

  lemma CarryOne(old': map<string, CheckDefinition>, proposed: map<string, CheckDefinition>, rest: set<string>,
                 merged: map<string, CheckDefinition>, id: string)
    requires Carried(old', proposed, rest, merged) && id in rest && id in old'
    ensures Carried(old', proposed, rest - {id}, if id in merged then merged else merged[id := old'[id]])
  {
  }

  lemma AllCarried(old': map<string, CheckDefinition>, proposed: map<string, CheckDefinition>, merged: map<string, CheckDefinition>)
    requires Carried(old', proposed, {}, merged)
    ensures merged == old' + proposed
  {
  }

  /** Proposed texts, and each of the first `k` old ones not there yet. */
  function MergedTexts(old': seq<string>, proposed: seq<string>, k: nat): seq<string>
    requires k <= |old'|
  {
    if k == 0 then proposed
    else
      var merged := MergedTexts(old', proposed, k - 1);
      if old'[k - 1] in merged then merged else merged + [old'[k - 1]]
  }

  lemma {:induction false} TextsKept(old': seq<string>, proposed: seq<string>, k: nat)
    requires k <= |old'|
    ensures proposed <= MergedTexts(old', proposed, k)
    ensures forall i :: 0 <= i < k ==> old'[i] in MergedTexts(old', proposed, k)
    decreases k
  {
    if k > 0 { TextsKept(old', proposed, k - 1); }
  }

  method MergeTexts(old': seq<string>, proposed: seq<string>) returns (merged: seq<string>)
    ensures merged == MergedTexts(old', proposed, |old'|)
  {
    merged := proposed;
    for i := 0 to |old'|
      invariant merged == MergedTexts(old', proposed, i)
    {
      if old'[i] !in merged { merged := merged + [old'[i]]; }
    }
  }

  function MergeProse(old': string, proposed: string): (r: string)
    ensures StartsWith(r, old')
  {
    if proposed != old' then old' + "\nFollow-up: " + proposed else proposed
  }

  /** The old contract with the follow-up on top. */
  ghost function MergedOf(old': Contract, proposed: Contract): Contract {
    proposed.(
      requirements := MergedRequirements(old'.requirements, proposed.requirements),
      checks := old'.checks + proposed.checks,
      protectedBehavior := MergedTexts(old'.protectedBehavior, proposed.protectedBehavior, |old'.protectedBehavior|),
      assumptions := MergedTexts(old'.assumptions, proposed.assumptions, |old'.assumptions|),
      outcome := MergeProse(old'.outcome, proposed.outcome), scope := MergeProse(old'.scope, proposed.scope))
  }

  /** The follow-up rewrites no accepted requirement and changes no accepted check. */
  ghost predicate Mergeable(old': Contract, proposed: Contract) {
    && Compatible(old'.requirements, proposed.requirements)
    && forall id :: id in old'.checks && id in proposed.checks ==> proposed.checks[id] == old'.checks[id]
  }

  predicate SameTerms(a: Contract, b: Contract) { a.request == b.request && a.limits == b.limits && a.delivery == b.delivery }

  /** A merge keeps every old obligation, so `preserves_obligations` can fail only on request, limits or delivery. */
  lemma MergePreservesIff(old': Contract, proposed: Contract)
    requires Mergeable(old', proposed)
    ensures Preserves(old', MergedOf(old', proposed)) <==> SameTerms(old', proposed)
    ensures forall id :: id in proposed.checks ==> MergedOf(old', proposed).checks[id] == proposed.checks[id]
  {
    TextsKept(old'.protectedBehavior, proposed.protectedBehavior, |old'.protectedBehavior|);
    TextsKept(old'.assumptions, proposed.assumptions, |old'.assumptions|);
    forall i | 0 <= i < |old'.requirements| ensures old'.requirements[i] in MergedRequirements(old'.requirements, proposed.requirements) {
      MergeKeeps(old'.requirements, proposed.requirements, |old'.requirements|, i);
    }
  }

  method Merge(old': Contract, proposed: Contract) returns (r: Result<Contract, StoreError>)
    ensures r.Ok? <==> Mergeable(old', proposed)
    ensures r.Ok? ==> r.value == MergedOf(old', proposed)
    ensures r.Err? ==> r.error == if Compatible(old'.requirements, proposed.requirements) then ChangesCheck else RewritesRequirement
  {
    var requirements := MergeRequirements(old'.requirements, proposed.requirements);
    if requirements.Err? { return Err(requirements.error); }
    var checks := MergeChecks(old'.checks, proposed.checks);
    if checks.Err? { return Err(checks.error); }
    var behavior := MergeTexts(old'.protectedBehavior, proposed.protectedBehavior);
    var assumptions := MergeTexts(old'.assumptions, proposed.assumptions);
    r := Ok(proposed.(
      requirements := requirements.value, checks := checks.value,
      protectedBehavior := behavior, assumptions := assumptions,
      outcome := MergeProse(old'.outcome, proposed.outcome), scope := MergeProse(old'.scope, proposed.scope)));
  }

  // ----- Compiling a proposal -----

  predicate Contains(text: string, part: string) {
    exists i :: 0 <= i <= |text| && Greedy.OccursAt(text, part, i)
  }

  /** The request with every directive on its own line. */
  function UserBasis(request: string, directives: seq<string>): string {
    if directives == [] then request
    else UserBasis(request, directives[..|directives| - 1]) + "\n" + directives[|directives| - 1]
  }

  predicate OriginOk(r: Requirement, basis: string, baseline: set<string>) {
    match r.origin
    case User(quote) => !Blank(quote) && Contains(basis, quote)
    case Repository(path) => path in baseline
    case Inferred(_) => true
  }

  predicate Behavioral(check: ProposedCheck) { check.kind != Build && check.kind != Static }

  /** A check is defined under its full id, and an omitted control is disclosed as an assumption. */
  ghost predicate Defined(check: ProposedCheck, full: string, checks: map<string, CheckDefinition>, assumptions: seq<string>) {
    && full in checks && checks[full] == Definition(full, check)
    && (check.controlOmission.Some? ==> OmissionNote(full, check.controlOmission.value) in assumptions)
  }

  function WithNote(assumptions: seq<string>, full: string, check: ProposedCheck): (r: seq<string>)
    ensures assumptions <= r
  {
    if check.controlOmission.Some? then assumptions + [OmissionNote(full, check.controlOmission.value)] else assumptions
  }

  /** Check definitions and assumptions, as they are being built up. */
  datatype Definitions = Definitions(checks: map<string, CheckDefinition>, assumptions: seq<string>)

  function DefineOne(full: string, check: ProposedCheck, acc: Definitions): Definitions {
    Definitions(acc.checks[full := Definition(full, check)], WithNote(acc.assumptions, full, check))
  }

  /** Define checks one after the other, under prefixed ids. */
  function DefineAll(from: map<string, ProposedCheck>, prefix: string, ids: seq<string>, acc: Definitions): Definitions
    requires forall id :: id in ids ==> id in from
  {
    if ids == [] then acc else DefineAll(from, prefix, ids[1..], DefineOne(prefix + ids[0], from[ids[0]], acc))
  }

  lemma PrefixInjective(prefix: string, a: string, b: string)
    requires prefix + a == prefix + b
    ensures a == b
  {
    assert a == (prefix + a)[|prefix|..];
    assert b == (prefix + b)[|prefix|..];
  }

  /** Definitions only ever add to what is there, under prefixed ids. */
  lemma {:induction false} DefineKeeps(from: map<string, ProposedCheck>, prefix: string, ids: seq<string>, acc: Definitions, full: string)
    requires forall id :: id in ids ==> id in from && prefix + id != full
    ensures var r := DefineAll(from, prefix, ids, acc);
            && (full in r.checks <==> full in acc.checks) && (full in acc.checks ==> r.checks[full] == acc.checks[full])
    decreases |ids|
  {
    if ids != [] { DefineKeeps(from, prefix, ids[1..], DefineOne(prefix + ids[0], from[ids[0]], acc), full); }
  }

  lemma {:induction false} NotesKept(from: map<string, ProposedCheck>, prefix: string, ids: seq<string>, acc: Definitions)
    requires forall id :: id in ids ==> id in from
    ensures acc.assumptions <= DefineAll(from, prefix, ids, acc).assumptions
    decreases |ids|
  {
    if ids != [] { NotesKept(from, prefix, ids[1..], DefineOne(prefix + ids[0], from[ids[0]], acc)); }
  }

  /** Every check ends up defined under its own id, with its omission disclosed. */
  lemma {:induction false} AllDefined(from: map<string, ProposedCheck>, prefix: string, ids: seq<string>, acc: Definitions, k: nat)
    requires (forall id :: id in ids ==> id in from) && k < |ids|
    requires forall i, j :: 0 <= i < j < |ids| ==> ids[i] != ids[j]
    ensures var r := DefineAll(from, prefix, ids, acc); Defined(from[ids[k]], prefix + ids[k], r.checks, r.assumptions)
    decreases |ids|
  {
    var rest, acc' := ids[1..], DefineOne(prefix + ids[0], from[ids[0]], acc);
    if k > 0 {
      AllDefined(from, prefix, rest, acc', k - 1);
    } else {
      var full, check := prefix + ids[0], from[ids[0]];
      forall id | id in rest ensures prefix + id != full {
        if prefix + id == full { PrefixInjective(prefix, id, ids[0]); }
      }
      DefineKeeps(from, prefix, rest, acc', full);
      NotesKept(from, prefix, rest, acc');
      if check.controlOmission.Some? {
        assert acc'.assumptions[|acc.assumptions|] == OmissionNote(full, check.controlOmission.value);
      }
    }
  }

  /** A proposed check may be defined: its id is not the profile's and it is well described. */
  predicate Definable(id: string, check: ProposedCheck) { !StartsWith(id, PROFILE_PREFIX) && CheckProposable(check) }

  ghost predicate AllDefinable(proposed: map<string, ProposedCheck>) { forall id :: id in proposed ==> Definable(id, proposed[id]) }

  ghost function ProposedDefinitions(proposed: map<string, ProposedCheck>, assumptions: seq<string>): Definitions {
    DefineAll(proposed, "", IdOrder.Sorted(proposed.Keys), Definitions(map[], assumptions))
  }

  /** Define the proposed checks in id order; the profile's ids are out of reach. */
  method DefineProposed(proposed: map<string, ProposedCheck>, assumptions0: seq<string>) returns (r: Result<Definitions, StoreError>)
    ensures r.Ok? <==> AllDefinable(proposed)
    ensures r.Ok? ==> r.value == ProposedDefinitions(proposed, assumptions0)
    ensures r.Err? ==> r.error == ReservedId || r.error == InvalidCheck
  {
    var acc, rest := Definitions(map[], assumptions0), proposed.Keys;
    while rest != {}
      invariant rest <= proposed.Keys
      invariant DefineAll(proposed, "", IdOrder.Sorted(rest), acc) == ProposedDefinitions(proposed, assumptions0)
      invariant forall id :: id in proposed && id !in rest ==> Definable(id, proposed[id])
      decreases |rest|
    {
      var id := IdOrder.Next(rest);
      if StartsWith(id, PROFILE_PREFIX) { return Err(ReservedId); }
      if !CheckProposable(proposed[id]) { return Err(InvalidCheck); }
      ProposedNext(proposed, rest, acc, id);
      acc := DefineOne(id, proposed[id], acc);
      rest := rest - {id};
    }
    r := Ok(acc);
  }

  lemma DefineNext(from: map<string, ProposedCheck>, prefix: string, rest: set<string>, acc: Definitions, id: string)
    requires rest <= from.Keys && id in rest && IdOrder.Sorted(rest) == [id] + IdOrder.Sorted(rest - {id})
    ensures DefineAll(from, prefix, IdOrder.Sorted(rest), acc)
            == DefineAll(from, prefix, IdOrder.Sorted(rest - {id}), DefineOne(prefix + id, from[id], acc))
  {
    assert IdOrder.Sorted(rest)[1..] == IdOrder.Sorted(rest - {id});
  }

  lemma ProposedNext(proposed: map<string, ProposedCheck>, rest: set<string>, acc: Definitions, id: string)
    requires rest <= proposed.Keys && id in rest && IdOrder.Sorted(rest) == [id] + IdOrder.Sorted(rest - {id})
    ensures DefineAll(proposed, "", IdOrder.Sorted(rest), acc)
            == DefineAll(proposed, "", IdOrder.Sorted(rest - {id}), DefineOne(id, proposed[id], acc))
  {
    DefineNext(proposed, "", rest, acc, id);
    assert "" + id == id;
  }

  function ProfileRequirement(profile: Profile, id: string): Requirement
    requires id in profile.checks
  {
    var full := PROFILE_PREFIX + id;
    Requirement(full, profile.checks[id].purpose,
                Repository("protected profile " + profile.name + " @ " + profile.digest), [full], [])
  }

  /** One requirement for each profile check. */
  function ProfileRequirements(profile: Profile, ids: seq<string>): seq<Requirement>
    requires forall id :: id in ids ==> id in profile.checks
  {
    if ids == [] then [] else [ProfileRequirement(profile, ids[0])] + ProfileRequirements(profile, ids[1..])
  }

  lemma RequireNext(profile: Profile, rest: set<string>, id: string)
    requires rest <= profile.checks.Keys && id in rest && IdOrder.Sorted(rest) == [id] + IdOrder.Sorted(rest - {id})
    ensures ProfileRequirements(profile, IdOrder.Sorted(rest))
            == [ProfileRequirement(profile, id)] + ProfileRequirements(profile, IdOrder.Sorted(rest - {id}))
  {
    assert IdOrder.Sorted(rest)[1..] == IdOrder.Sorted(rest - {id});
  }

  lemma Regroup(done: seq<Requirement>, next: Requirement, rest: seq<Requirement>)
    ensures done + ([next] + rest) == (done + [next]) + rest
  {
  }

  /** Add every profile check and its requirement; nothing else. */
  method InjectProfile(profile: Profile, requirements0: seq<Requirement>, acc0: Definitions)
    returns (requirements: seq<Requirement>, acc: Definitions)
    ensures requirements == requirements0 + ProfileRequirements(profile, IdOrder.Sorted(profile.checks.Keys))
    ensures acc == DefineAll(profile.checks, PROFILE_PREFIX, IdOrder.Sorted(profile.checks.Keys), acc0)
  {
    requirements, acc := requirements0, acc0;
    ghost var ids := IdOrder.Sorted(profile.checks.Keys);
    var rest := profile.checks.Keys;
    while rest != {}
      invariant rest <= profile.checks.Keys
      invariant requirements + ProfileRequirements(profile, IdOrder.Sorted(rest)) == requirements0 + ProfileRequirements(profile, ids)
      invariant DefineAll(profile.checks, PROFILE_PREFIX, IdOrder.Sorted(rest), acc) == DefineAll(profile.checks, PROFILE_PREFIX, ids, acc0)
      decreases |rest|
    {
      var id := IdOrder.Next(rest);
      DefineNext(profile.checks, PROFILE_PREFIX, rest, acc, id);
      RequireNext(profile, rest, id);
      Regroup(requirements, ProfileRequirement(profile, id), ProfileRequirements(profile, IdOrder.Sorted(rest - {id})));
      acc := DefineOne(PROFILE_PREFIX + id, profile.checks[id], acc);
      requirements := requirements + [ProfileRequirement(profile, id)];
      rest := rest - {id};
    }
  }

  /** What an admitted contract guarantees about its task, its policy and the contract before it. */
  ghost predicate Admitted(policy: Policy, old': Option<Contract>, c: Contract) {
    && Valid(c)
    && (old'.Some? ==> Preserves(old'.value, c))
    && HasProfile(policy.profile, c)
  }

  /** Every check of the protected profile is in the contract. */
  ghost predicate HasProfile(profile: Profile, c: Contract) {
    forall id :: id in profile.checks ==> ProfileKept(profile, c, id)
  }

  /** A profile check is in the contract, as the operator configured it. */
  predicate ProfileKept(profile: Profile, c: Contract, id: string)
    requires id in profile.checks
  {
    var full := PROFILE_PREFIX + id;
    full in c.checks && c.checks[full] == Definition(full, profile.checks[id])
  }

  /** A proposal that may be compiled: on the right path, in bounds, grounded, and checking behaviour. */
  ghost predicate Proposable(task: Task, proposal: Proposal, baseline: set<string>) {
    && (task.contract.Some? ==> task.amendmentPending)
    && |proposal.requirements| <= 128 && |proposal.checks| <= 128
    && (forall i :: 0 <= i < |proposal.requirements| ==>
          OriginOk(proposal.requirements[i], UserBasis(task.request, task.directives), baseline))
    && (exists id :: id in proposal.checks && Behavioral(proposal.checks[id]))
  }

  method CheckProposal(task: Task, proposal: Proposal, baseline: set<string>) returns (r: Option<StoreError>)
    ensures r.None? <==> Proposable(task, proposal, baseline)
    ensures r == Some(RequiresAmendment) <==> task.contract.Some? && !task.amendmentPending
    ensures r.Some? ==> r.value in {RequiresAmendment, TooLarge, UnquotedRequirement, UninspectedPath, NoBehaviorCheck}
  {
    if task.contract.Some? && !task.amendmentPending { return Some(RequiresAmendment); }
    var basis := UserBasis(task.request, task.directives);
    if |proposal.requirements| > 128 || |proposal.checks| > 128 { return Some(TooLarge); }
    for i := 0 to |proposal.requirements|
      invariant forall k :: 0 <= k < i ==> OriginOk(proposal.requirements[k], basis, baseline)
    {
      var requirement := proposal.requirements[i];
      if requirement.origin.User? && (Blank(requirement.origin.basis) || !Contains(basis, requirement.origin.basis)) {
        return Some(UnquotedRequirement);
      }
      if requirement.origin.Repository? && requirement.origin.basis !in baseline { return Some(UninspectedPath); }
    }
    if !exists id :: id in proposal.checks && Behavioral(proposal.checks[id]) { return Some(NoBehaviorCheck); }
    r := None;
  }

  /** The contract a proposal asks for, before any old one is merged in. */
  ghost function DraftOf(task: Task, policy: Policy, proposal: Proposal): Contract {
    var ids := IdOrder.Sorted(policy.profile.checks.Keys);
    var definitions := DefineAll(policy.profile.checks, PROFILE_PREFIX, ids, ProposedDefinitions(proposal.checks, proposal.assumptions));
    Contract(task.request, proposal.outcome, proposal.scope, proposal.requirements + ProfileRequirements(policy.profile, ids),
             definitions.checks, proposal.protectedBehavior, definitions.assumptions, proposal.openQuestions,
             policy.delivery, task.initialLimits)
  }

  method Draft(task: Task, policy: Policy, proposal: Proposal) returns (r: Result<Contract, StoreError>)
    ensures r.Ok? <==> AllDefinable(proposal.checks)
    ensures r.Ok? ==> r.value == DraftOf(task, policy, proposal)
    ensures r.Err? ==> r.error == ReservedId || r.error == InvalidCheck
  {
    var defined := DefineProposed(proposal.checks, proposal.assumptions);
    if defined.Err? { return Err(defined.error); }
    var requirements, definitions := InjectProfile(policy.profile, proposal.requirements, defined.value);
    r := Ok(Contract(task.request, proposal.outcome, proposal.scope, requirements, definitions.checks,
                     proposal.protectedBehavior, definitions.assumptions, proposal.openQuestions,
                     policy.delivery, task.initialLimits));
  }

  /** The draft defines every profile check as configured. */
  lemma DraftHasProfile(task: Task, policy: Policy, proposal: Proposal, id: string)
    requires id in policy.profile.checks
    ensures var d := DraftOf(task, policy, proposal);
            ProfileKept(policy.profile, d, id) && Defined(policy.profile.checks[id], PROFILE_PREFIX + id, d.checks, d.assumptions)
  {
    var ids := IdOrder.Sorted(policy.profile.checks.Keys);
    IdOrder.SortedDistinct(ids, policy.profile.checks.Keys);
    var k :| 0 <= k < |ids| && ids[k] == id;
    AllDefined(policy.profile.checks, PROFILE_PREFIX, ids, ProposedDefinitions(proposal.checks, proposal.assumptions), k);
  }

  lemma ProposedAreDefined(proposed: map<string, ProposedCheck>, assumptions: seq<string>, id: string, r: Definitions)
    requires id in proposed && r == ProposedDefinitions(proposed, assumptions)
    ensures Defined(proposed[id], id, r.checks, r.assumptions)
  {
    var ids := IdOrder.Sorted(proposed.Keys);
    IdOrder.SortedDistinct(ids, proposed.Keys);
    var k :| 0 <= k < |ids| && ids[k] == id;
    assert "" + id == id;
    AllDefined(proposed, "", ids, Definitions(map[], assumptions), k);
  }

  /** Defining the profile's checks leaves a check with any other id as it is. */
  lemma ProfileLeavesOthers(profile: Profile, ids: seq<string>, acc: Definitions, check: ProposedCheck, full: string)
    requires (forall id :: id in ids ==> id in profile.checks) && !StartsWith(full, PROFILE_PREFIX)
    requires Defined(check, full, acc.checks, acc.assumptions)
    ensures var r := DefineAll(profile.checks, PROFILE_PREFIX, ids, acc); Defined(check, full, r.checks, r.assumptions)
  {
    forall other | other in ids ensures PROFILE_PREFIX + other != full {
      assert StartsWith(PROFILE_PREFIX + other, PROFILE_PREFIX);
    }
    DefineKeeps(profile.checks, PROFILE_PREFIX, ids, acc, full);
    NotesKept(profile.checks, PROFILE_PREFIX, ids, acc);
  }

  /** The draft defines every proposed check as proposed: the profile's ids never collide with it. */
  lemma DraftHasProposed(task: Task, policy: Policy, proposal: Proposal, id: string)
    requires AllDefinable(proposal.checks) && id in proposal.checks
    ensures var d := DraftOf(task, policy, proposal); Defined(proposal.checks[id], id, d.checks, d.assumptions)
  {
    var before := ProposedDefinitions(proposal.checks, proposal.assumptions);
    ProposedAreDefined(proposal.checks, proposal.assumptions, id, before);
    assert Definable(id, proposal.checks[id]);
    ProfileLeavesOthers(policy.profile, IdOrder.Sorted(policy.profile.checks.Keys), before, proposal.checks[id], id);
  }

  ghost function FinalOf(old': Option<Contract>, draft: Contract): Contract {
    if old'.Some? then MergedOf(old'.value, draft) else draft
  }

  /** What may become a task's contract. */
  ghost predicate Compilable(task: Task, proposal: Proposal, baseline: set<string>) {
    && task.intake.Some? && PolicyOk(task.intake.value) && Proposable(task, proposal, baseline) && AllDefinable(proposal.checks)
    && var draft := DraftOf(task, task.intake.value, proposal);
       && (task.contract.Some? ==> Mergeable(task.contract.value, draft) && SameTerms(task.contract.value, draft))
       && Valid(FinalOf(task.contract, draft))
  }

  /** A compiled contract is admitted: valid, weakening nothing, holding the whole profile and all that was proposed. */
  lemma CompiledIsAdmitted(task: Task, proposal: Proposal, baseline: set<string>, c: Contract)
    requires Compilable(task, proposal, baseline) && c == FinalOf(task.contract, DraftOf(task, task.intake.value, proposal))
    ensures Admitted(task.intake.value, task.contract, c)
    ensures forall id :: id in proposal.checks ==> id in c.checks && c.checks[id] == Definition(id, proposal.checks[id])
  {
    var policy := task.intake.value;
    var draft := DraftOf(task, policy, proposal);
    if task.contract.Some? { MergePreservesIff(task.contract.value, draft); }
    assert KeepsChecks(draft, c);
    forall id | id in policy.profile.checks ensures ProfileKept(policy.profile, c, id) { DraftHasProfile(task, policy, proposal, id); }
    forall id | id in proposal.checks ensures id in c.checks && c.checks[id] == Definition(id, proposal.checks[id]) {
      DraftHasProposed(task, policy, proposal, id);
    }
  }

  /** A contract keeps every check of a draft it was merged from. */
  ghost predicate KeepsChecks(draft: Contract, c: Contract) {
    forall id :: id in draft.checks ==> id in c.checks && c.checks[id] == draft.checks[id]
  }

  /** `compile`: accepts exactly the compilable proposals, and what it accepts is admitted. */
  method Compile(task: Task, proposal: Proposal, baseline: set<string>) returns (r: Result<Contract, StoreError>)
    ensures r.Ok? <==> Compilable(task, proposal, baseline)
    ensures r.Ok? ==> r.value == FinalOf(task.contract, DraftOf(task, task.intake.value, proposal))
    ensures r.Ok? ==> Admitted(task.intake.value, task.contract, r.value)
    ensures r == Err(WeakensObligations) ==>
              task.contract.Some? && task.intake.Some? && !SameTerms(task.contract.value, DraftOf(task, task.intake.value, proposal))
  {
    if task.intake.None? { return Err(MissingIntake); }
    var policy := task.intake.value;
    if !PolicyOk(policy) { return Err(InvalidPolicy); }
    var refused := CheckProposal(task, proposal, baseline);
    if refused.Some? { return Err(refused.value); }
    var draft := Draft(task, policy, proposal);
    if draft.Err? { return Err(draft.error); }
    var contract := draft.value;
    if task.contract.Some? {
      var merged := Merge(task.contract.value, draft.value);
      if merged.Err? { return Err(merged.error); }
      contract := merged.value;
      MergePreservesIff(task.contract.value, draft.value);
      if !Preserves(task.contract.value, contract) { return Err(WeakensObligations); }
    }
    var validated := Validate(contract);
    if validated.Err? { return Err(InvalidContract(validated.error)); }
    CompiledIsAdmitted(task, proposal, baseline, contract);
    r := Ok(contract);
  }

  // ----- Accepting what was compiled -----

  /** What the store accepts as a follow-up: pending, valid, and weakening nothing already agreed. */
  ghost predicate Acceptable(task: Task, c: Contract) {
    && task.amendmentPending && Valid(c)
    && if task.contract.Some? then Preserves(task.contract.value, c) else c.request == task.request && c.limits == task.initialLimits
  }

  /** `accept_additive_contract`. */
  method AcceptAdditive(task: Task, c: Contract) returns (r: Result<Contract, StoreError>)
    ensures r.Ok? <==> Acceptable(task, c)
    ensures r.Ok? ==> r.value == c
  {
    var validated := Validate(c);
    if validated.Err? { return Err(InvalidContract(validated.error)); }
    if !task.amendmentPending { return Err(NoPendingFollowUp); }
    if task.contract.Some? {
      if !Preserves(task.contract.value, c) { return Err(WeakensObligations); }
    } else if c.request != task.request || c.limits != task.initialLimits {
      return Err(WeakensObligations);
    }
    r := Ok(c);
  }

  /** The store's own check never refuses a compiled follow-up. */
  lemma CompiledIsAccepted(task: Task, proposal: Proposal, baseline: set<string>, c: Contract)
    requires Compilable(task, proposal, baseline) && c == FinalOf(task.contract, DraftOf(task, task.intake.value, proposal))
    requires task.amendmentPending
    ensures Acceptable(task, c)
  {
    CompiledIsAdmitted(task, proposal, baseline, c);
  }

  // ----- Amending an admitted contract -----

  /** What the user may amend a contract to: anything valid for the same request, on a stated basis. */
  ghost predicate Amendable(task: Task, c: Contract, basis: string) {
    Valid(c) && !Blank(basis) && task.contract.Some? && c.request == task.request
  }

  /** `amend_contract`: unlike a follow-up, it does not ask what the contract before it obliged. */
  method Amend(task: Task, c: Contract, basis: string) returns (r: Result<Contract, StoreError>)
    ensures r.Ok? <==> Amendable(task, c, basis)
    ensures r.Ok? ==> r.value == c
    ensures r == Err(ChangesRequest) <==> Valid(c) && !Blank(basis) && task.contract.Some? && c.request != task.request
    ensures r == Err(NoContract) <==> Valid(c) && !Blank(basis) && task.contract.None?
    ensures r == Err(NoUserBasis) <==> Valid(c) && Blank(basis)
  {
    var validated := Validate(c);
    if validated.Err? { return Err(InvalidContract(validated.error)); }
    if Blank(basis) { return Err(NoUserBasis); }
    if task.contract.None? { return Err(NoContract); }
    if c.request != task.request { return Err(ChangesRequest); }
    r := Ok(c);
  }
}
