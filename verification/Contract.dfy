/** Task contracts and their validation, including the exact dependency cycle check. */
module Contract {
  import opened Options
  import IdOrder

  type Digest = nat

  datatype Origin = User(basis: string) | Repository(basis: string) | Inferred(basis: string)

  datatype Requirement = Requirement(
    id: string, behavior: string, origin: Origin, checks: seq<string>, dependsOn: seq<string>)

  datatype CheckKind = Behavior | Build | Static | Integration | Interface | Migration | Performance | Review

  datatype ControlRequirement = NoControl | BaselineFailure | NegativeControl

  datatype BaselinePolicy = MustPass | NoNewFailure(report: Digest, reason: string)

  datatype FlakePolicy = RejectAnyFailure | Retry(maxAttempts: nat)

  datatype CheckDefinition = CheckDefinition(
    purpose: string, kind: CheckKind, verifier: Digest, command: seq<string>, timeoutMs: nat,
    minimumAssertions: nat, control: ControlRequirement, controlSource: Option<Digest>,
    baseline: BaselinePolicy, flake: FlakePolicy)

  datatype DeliveryKind = Patch | Source | Package | Deployment | Report

  datatype Limits = Limits(modelCalls: nat, tokens: nat, elapsedMs: nat, concurrentJobs: nat, artifactBytes: nat)

  datatype Contract = Contract(
    request: string, outcome: string, scope: string, requirements: seq<Requirement>,
    checks: map<string, CheckDefinition>, protectedBehavior: seq<string>, assumptions: seq<string>,
    openQuestions: seq<string>, delivery: DeliveryKind, limits: Limits)

  datatype ContractError =
    | EmptyField | RequirementId(id: string) | NoChecks(id: string) | Missing(id: string, reference: string)
    | Cycle | BadCheck(id: string) | BadLimits

  const MAX_EXECUTION_TIMEOUT_MS: nat := 3_600_000

  predicate Whitespace(c: char) {
    c in {' ', '\t', '\n', '\r', '\U{0b}', '\U{0c}', '\U{85}', '\U{a0}', '\U{1680}',
          '\U{2028}', '\U{2029}', '\U{202f}', '\U{205f}', '\U{3000}'}
    || '\U{2000}' <= c <= '\U{200a}'
  }

  /** `trim().is_empty()`. */
  predicate Blank(s: string) { forall i :: 0 <= i < |s| ==> Whitespace(s[i]) }

  predicate ValidId(id: string) {
    0 < |id| <= 128
    && forall i :: 0 <= i < |id| ==>
         'a' <= id[i] <= 'z' || 'A' <= id[i] <= 'Z' || '0' <= id[i] <= '9' || id[i] in {'-', '_', '.'}
  }

  // ----- What a valid contract is -----

  predicate RequirementOk(r: Requirement) {
    ValidId(r.id) && !Blank(r.behavior) && !Blank(r.origin.basis) && r.checks != []
  }

  ghost predicate UniqueIds(rs: seq<Requirement>) {
    forall i, j :: 0 <= i < j < |rs| ==> rs[i].id != rs[j].id
  }

  function Ids(rs: seq<Requirement>): set<string> { set i | 0 <= i < |rs| :: rs[i].id }

  predicate ReferencesOk(c: Contract, r: Requirement) {
    (forall k :: 0 <= k < |r.checks| ==> r.checks[k] in c.checks)
    && (forall k :: 0 <= k < |r.dependsOn| ==> r.dependsOn[k] in Ids(c.requirements))
  }

  predicate CheckOk(c: Contract, id: string)
    requires id in c.checks
  {
    var check := c.checks[id];
    && (exists r :: 0 <= r < |c.requirements| && id in c.requirements[r].checks)
    && ValidId(id) && !Blank(check.purpose)
    && check.command != [] && check.command[0] != [] && 0 < check.timeoutMs <= MAX_EXECUTION_TIMEOUT_MS
    && (check.kind == Build || check.kind == Static || check.minimumAssertions > 0)
    && check.flake != Retry(0)
    && (check.control == NegativeControl ==> check.controlSource.Some?)
    && (check.baseline.NoNewFailure? ==> !Blank(check.baseline.reason))
  }

  predicate LimitsOk(l: Limits) {
    l.modelCalls > 0 && l.tokens > 0 && l.elapsedMs > 0 && l.concurrentJobs > 0 && l.artifactBytes > 0
  }

  /** A listing of the requirements, each once, in which every dependency comes first. */
  ghost predicate IsOrder(rs: seq<Requirement>, order: seq<string>) {
    && |order| == |rs|
    && (forall i :: 0 <= i < |rs| ==> rs[i].id in order)
    && DependenciesFirst(rs, order)
  }

  ghost predicate DependenciesFirst(rs: seq<Requirement>, order: seq<string>) {
    forall i, k, d :: 0 <= i < |rs| && 0 <= k < |order| && rs[i].id == order[k] && 0 <= d < |rs[i].dependsOn|
      ==> rs[i].dependsOn[d] in order[..k]
  }

  ghost predicate Orderable(rs: seq<Requirement>) { exists order :: IsOrder(rs, order) }

  predicate HeaderOk(c: Contract) {
    !Blank(c.request) && !Blank(c.outcome) && !Blank(c.scope) && c.requirements != []
  }

  ghost predicate RequirementsOk(c: Contract) {
    UniqueIds(c.requirements) && forall i :: 0 <= i < |c.requirements| ==> RequirementOk(c.requirements[i])
  }

  ghost predicate AllReferencesOk(c: Contract) {
    forall i :: 0 <= i < |c.requirements| ==> ReferencesOk(c, c.requirements[i])
  }

  ghost predicate Valid(c: Contract) {
    && HeaderOk(c) && RequirementsOk(c) && AllReferencesOk(c) && Orderable(c.requirements)
    && (forall id :: id in c.checks ==> CheckOk(c, id))
    && LimitsOk(c.limits)
  }

  // ----- The cycle check -----

  predicate Ready(r: Requirement, visited: set<string>) {
    forall d :: 0 <= d < |r.dependsOn| ==> r.dependsOn[d] in visited
  }

  function Elements(order: seq<string>): set<string> { set x | x in order }

  /** A requirement whose dependencies are all listed may be listed next. */
  lemma ListNext(rs: seq<Requirement>, order: seq<string>, i: nat)
    requires UniqueIds(rs) && i < |rs| && Ready(rs[i], Elements(order)) && DependenciesFirst(rs, order)
    ensures DependenciesFirst(rs, order + [rs[i].id])
    ensures Elements(order + [rs[i].id]) == Elements(order) + {rs[i].id}
  {
    var longer := order + [rs[i].id];
    forall j, k, d | 0 <= j < |rs| && 0 <= k < |longer| && rs[j].id == longer[k] && 0 <= d < |rs[j].dependsOn|
      ensures rs[j].dependsOn[d] in longer[..k]
    {
      if k < |order| {
        assert longer[..k] == order[..k];
      } else {
        assert j == i && longer[..k] == order;
      }
    }
  }

  lemma {:induction false} FirstMissing(order: seq<string>, visited: set<string>, id: string) returns (k: nat)
    requires id in order && id !in visited
    ensures k < |order| && order[k] !in visited && forall j :: 0 <= j < k ==> order[j] in visited
    decreases |order|
  {
    if order[0] !in visited {
      k := 0;
    } else {
      var rest := FirstMissing(order[1..], visited, id);
      k := rest + 1;
      forall j | 0 <= j < k ensures order[j] in visited {
        if j > 0 { assert order[j] == order[1..][j - 1]; }
      }
    }
  }

  /** When no unlisted requirement is ready but some remain, no order exists at all. */
  lemma StuckMeansCycle(rs: seq<Requirement>, visited: set<string>, i: nat)
    requires i < |rs| && rs[i].id !in visited
    requires forall j :: 0 <= j < |rs| && Ready(rs[j], visited) ==> rs[j].id in visited
    requires forall j, d :: 0 <= j < |rs| && 0 <= d < |rs[j].dependsOn| ==> rs[j].dependsOn[d] in Ids(rs)
    requires visited <= Ids(rs)
    ensures !Orderable(rs)
  {
    forall order | IsOrder(rs, order) ensures false {
      // Keep only listed requirement ids: the first one not visited would be ready.
      var k := FirstMissingRequirement(rs, order, visited, i);
      var j :| 0 <= j < |rs| && rs[j].id == order[k];
      forall d | 0 <= d < |rs[j].dependsOn| ensures rs[j].dependsOn[d] in visited {
        assert rs[j].dependsOn[d] in order[..k];
      }
      assert Ready(rs[j], visited);
    }
  }

  lemma FirstMissingRequirement(rs: seq<Requirement>, order: seq<string>, visited: set<string>, i: nat) returns (k: nat)
    requires i < |rs| && rs[i].id !in visited && rs[i].id in order
    ensures k < |order| && order[k] !in visited && order[k] in Ids(rs)
    ensures forall j :: 0 <= j < k && order[j] in Ids(rs) ==> order[j] in visited
  {
    var outside := set x | x in order && x !in Ids(rs);
    k := FirstMissing(order, visited + outside, rs[i].id);
    assert order[k] in order;
  }

  lemma {:induction false} IdsCount(rs: seq<Requirement>, k: nat)
    requires UniqueIds(rs) && k <= |rs|
    ensures |set i | 0 <= i < k :: rs[i].id| == k
    decreases k
  {
    if k > 0 {
      IdsCount(rs, k - 1);
      var init := set i | 0 <= i < k - 1 :: rs[i].id;
      assert (set i | 0 <= i < k :: rs[i].id) == init + {rs[k - 1].id};
      assert rs[k - 1].id !in init;
    }
  }

  /** One pass over the requirements, listing every one that has become ready. */
  method VisitPass(rs: seq<Requirement>, visited0: set<string>, ghost order0: seq<string>)
    returns (visited: set<string>, ghost order: seq<string>)
    requires UniqueIds(rs) && visited0 <= Ids(rs)
    requires Elements(order0) == visited0 && |order0| == |visited0| && DependenciesFirst(rs, order0)
    ensures visited0 <= visited <= Ids(rs)
    ensures Elements(order) == visited && |order| == |visited| && DependenciesFirst(rs, order)
    ensures visited == visited0 ==> forall j :: 0 <= j < |rs| && Ready(rs[j], visited) ==> rs[j].id in visited
  {
    visited, order := visited0, order0;
    for i := 0 to |rs|
      invariant visited0 <= visited <= Ids(rs)
      invariant Elements(order) == visited && |order| == |visited| && DependenciesFirst(rs, order)
      invariant visited == visited0 ==> forall j :: 0 <= j < i && Ready(rs[j], visited) ==> rs[j].id in visited
    {
      if Ready(rs[i], visited) {
        if rs[i].id !in visited {
          ListNext(rs, order, i);
          order := order + [rs[i].id];
        }
        visited := visited + {rs[i].id};
      }
    }
  }

  /** The fixpoint: accepts exactly the orderable requirements, within one pass per requirement. */
  method CheckAcyclic(rs: seq<Requirement>) returns (ok: bool, passes: nat)
    requires UniqueIds(rs) && rs != []
    requires forall j, d :: 0 <= j < |rs| && 0 <= d < |rs[j].dependsOn| ==> rs[j].dependsOn[d] in Ids(rs)
    ensures ok <==> Orderable(rs)
    ensures passes <= |rs|
  {
    var visited: set<string>, ids := {}, Ids(rs);
    ghost var order: seq<string> := [];
    IdsCount(rs, |rs|);
    passes := 0;
    while true
      invariant visited <= ids && |visited| < |ids|
      invariant Elements(order) == visited && |order| == |visited| && DependenciesFirst(rs, order)
      invariant passes <= |visited|
      decreases |ids| - |visited|
    {
      var before := visited;
      visited, order := VisitPass(rs, visited, order);
      passes := passes + 1;
      if |visited| == |ids| {
        Full(visited, ids);
        AllListed(rs, order);
        return true, passes;
      }
      if |visited| == |before| {
        Full(before, visited);
        var i := Unvisited(rs, visited);
        StuckMeansCycle(rs, visited, i);
        return false, passes;
      }
      Grew(before, visited);
      Grew(visited, ids);
    }
  }

  lemma Unvisited(rs: seq<Requirement>, visited: set<string>) returns (i: nat)
    requires visited <= Ids(rs) && |visited| < |Ids(rs)|
    ensures i < |rs| && rs[i].id !in visited
  {
    assert (forall j :: 0 <= j < |rs| ==> rs[j].id in visited) ==> Ids(rs) == visited;
    i :| 0 <= i < |rs| && rs[i].id !in visited;
  }

  lemma AllListed(rs: seq<Requirement>, order: seq<string>)
    requires Elements(order) == Ids(rs) && |order| == |rs| && DependenciesFirst(rs, order)
    ensures Orderable(rs)
  {
    forall i | 0 <= i < |rs| ensures rs[i].id in order {
      assert rs[i].id in Ids(rs);
      assert rs[i].id in Elements(order);
    }
    assert IsOrder(rs, order);
  }

  lemma Strict(a: set<string>, b: set<string>)
    requires a < b
    ensures |a| < |b|
  {
    assert b == a + (b - a);
    var x :| x in b && x !in a;
    assert x in b - a;
  }

  lemma Full(a: set<string>, b: set<string>)
    requires a <= b && |a| == |b|
    ensures a == b
  {
    if a != b { Strict(a, b); }
  }

  lemma Grew(a: set<string>, b: set<string>)
    requires a <= b && |a| != |b|
    ensures |a| < |b|
  {
    if a == b { assert false; }
    Strict(a, b);
  }

  // ----- Validation -----

  method CheckRequirements(c: Contract) returns (r: Result<set<string>, ContractError>)
    ensures r.Ok? <==> RequirementsOk(c)
    ensures r.Ok? ==> r.value == Ids(c.requirements)
    ensures r != Err(Cycle)
  {
    var ids: set<string> := {};
    for i := 0 to |c.requirements|
      invariant ids == set k | 0 <= k < i :: c.requirements[k].id
      invariant forall j, k :: 0 <= j < k < i ==> c.requirements[j].id != c.requirements[k].id
      invariant forall k :: 0 <= k < i ==> RequirementOk(c.requirements[k])
    {
      var requirement := c.requirements[i];
      if !ValidId(requirement.id) || requirement.id in ids { return Err(RequirementId(requirement.id)); }
      ids := ids + {requirement.id};
      if Blank(requirement.behavior) || Blank(requirement.origin.basis) { return Err(EmptyField); }
      if requirement.checks == [] { return Err(NoChecks(requirement.id)); }
    }
    r := Ok(ids);
  }

  method CheckReferences(c: Contract, ids: set<string>) returns (r: Result<(), ContractError>)
    requires ids == Ids(c.requirements)
    ensures r.Ok? <==> AllReferencesOk(c)
    ensures r != Err(Cycle)
  {
    for i := 0 to |c.requirements|
      invariant forall k :: 0 <= k < i ==> ReferencesOk(c, c.requirements[k])
    {
      var requirement := c.requirements[i];
      for k := 0 to |requirement.checks|
        invariant forall j :: 0 <= j < k ==> requirement.checks[j] in c.checks
      {
        if requirement.checks[k] !in c.checks { return Err(Missing(requirement.id, requirement.checks[k])); }
      }
      for k := 0 to |requirement.dependsOn|
        invariant forall j :: 0 <= j < k ==> requirement.dependsOn[j] in ids
      {
        if requirement.dependsOn[k] !in ids { return Err(Missing(requirement.id, requirement.dependsOn[k])); }
      }
    }
    r := Ok(());
  }

  method CheckChecks(c: Contract) returns (r: Result<(), ContractError>)
    ensures r.Ok? <==> forall id :: id in c.checks ==> CheckOk(c, id)
    ensures r != Err(Cycle)
  {
    var rest := c.checks.Keys;
    while rest != {}
      invariant rest <= c.checks.Keys
      invariant forall id :: id in c.checks && id !in rest ==> CheckOk(c, id)
      decreases |rest|
    {
      var id := IdOrder.Next(rest);
      if !CheckOk(c, id) { return Err(BadCheck(id)); }
      rest := rest - {id};
    }
    r := Ok(());
  }

  /** `Contract::validate`: accepts exactly the valid contracts, and reports a cycle exactly when it is one. */
  method Validate(c: Contract) returns (r: Result<(), ContractError>)
    ensures r.Ok? <==> Valid(c)
    ensures r == Err(Cycle) <==> HeaderOk(c) && RequirementsOk(c) && AllReferencesOk(c) && !Orderable(c.requirements)
  {
    if !HeaderOk(c) { return Err(EmptyField); }
    var ids := CheckRequirements(c);
    if ids.Err? { return Err(ids.error); }
    var references := CheckReferences(c, ids.value);
    if references.Err? { return Err(references.error); }
    assert forall j :: 0 <= j < |c.requirements| ==> ReferencesOk(c, c.requirements[j]);
    var acyclic, _ := CheckAcyclic(c.requirements);
    if !acyclic { return Err(Cycle); }
    var checks := CheckChecks(c);
    if checks.Err? { return Err(checks.error); }
    r := if LimitsOk(c.limits) then Ok(()) else Err(BadLimits);
  }

  /** In a valid contract the requirements name exactly the checks that exist. */
  lemma ChecksAreRequired(c: Contract, id: string)
    requires Valid(c)
    ensures id in c.checks <==> exists r :: 0 <= r < |c.requirements| && id in c.requirements[r].checks
  {
    if exists r :: 0 <= r < |c.requirements| && id in c.requirements[r].checks {
      var r :| 0 <= r < |c.requirements| && id in c.requirements[r].checks;
      assert ReferencesOk(c, c.requirements[r]);
      var k :| 0 <= k < |c.requirements[r].checks| && c.requirements[r].checks[k] == id;
    }
    if id in c.checks { assert CheckOk(c, id); }
  }
}
