/** The live GitHub state that the release-control reconciler reads and changes, the desired
    state its manifest declares, and the effect of each request it may send. */
module ReleaseState {
  import opened Options

  function When<T>(condition: bool, item: T): seq<T> {
    if condition then [item] else []
  }

  // ---------------------------------------------------------------- live state

  datatype ReviewerKind = User | Team
  datatype Reviewer = Reviewer(kind: ReviewerKind, id: nat)

  datatype Target = Branch | Tag

  /** A rule is its canonical encoding (`normalize_rules` followed by `canonical_bytes`). */
  type Rule = string
  datatype Ruleset = Ruleset(name: string, target: Target, active: bool, bypassActors: string,
                             conditions: string, rules: seq<Rule>)

  /** `observable` is false when reading the ruleset by id fails, hides its bypass actors, or
      returns rules that cannot be normalised. */
  datatype LiveRuleset = LiveRuleset(observable: bool, body: Ruleset)
  datatype Rulesets = Rulesets(entries: map<nat, LiveRuleset>, nextId: nat)

  datatype BranchMode = BranchMode(protectedBranches: bool, customPolicies: bool)
  datatype BranchPolicy = BranchPolicy(name: string, target: Target)

  datatype Environment = Environment(
    adminsBypass: bool,
    reviewers: set<Reviewer>,
    preventSelfReview: bool,
    waitTimer: nat,
    branchMode: BranchMode,
    branchPolicies: seq<BranchPolicy>,
    variables: map<string, string>,
    secrets: set<string>)

  datatype Repository = Repository(
    isPrivate: bool,
    defaultBranch: string,
    variables: set<string>,
    secrets: set<string>,
    contexts: set<string>,
    rulesets: Rulesets,
    environments: map<string, Environment>)

  /** Who sees an organization variable or secret. */
  datatype Scope = AllRepositories | PrivateRepositories | Selected(repositories: set<string>)

  datatype Organization = Organization(
    variables: map<string, Scope>,
    secrets: map<string, Scope>,
    actor: nat,
    teams: map<nat, set<nat>>,
    bypassDefault: bool)

  datatype Live = Live(organization: Organization, repositories: map<string, Repository>)

  // ---------------------------------------------------------------- desired state

  const MAIN: string := "main"
  const MAIN_POLICY := BranchPolicy(MAIN, Branch)
  const EXACT_MODE := BranchMode(false, true)
  const POLICY_VARIABLE_NAME := "LATCHWAY_RELEASE_CONTROL_POLICY_ID"
  const PROFILE_POLICY_VARIABLE_NAME := "LATCHWAY_RELEASE_PROFILE_POLICY_ID"
  const SENTINELS := {POLICY_VARIABLE_NAME, PROFILE_POLICY_VARIABLE_NAME}
  const QUARANTINE_SUFFIX := ":quarantine-v1"

  /** `profile` marks the single-maintainer administration environment of a product repository. */
  datatype DesiredEnvironment = DesiredEnvironment(
    name: string,
    profile: bool,
    policyId: string,
    preventSelfReview: bool,
    requiredSecrets: set<string>,
    allowedSecrets: set<string>,
    requiredVariables: set<string>,
    allowedVariables: set<string>)
  {
    function PolicyVariable(): string {
      if profile then PROFILE_POLICY_VARIABLE_NAME else POLICY_VARIABLE_NAME
    }

    function Quarantine(): (value: string)
      ensures value != policyId
    {
      var value := policyId + QUARANTINE_SUFFIX;
      assert |value| == |policyId| + |QUARANTINE_SUFFIX|;
      value
    }

    predicate Valid() {
      && requiredSecrets == allowedSecrets
      && requiredVariables == allowedVariables
      && PolicyVariable() !in allowedVariables
    }
  }

  datatype DesiredRepository = DesiredRepository(
    name: string,
    defaultBranch: string,
    environments: seq<DesiredEnvironment>,
    rulesets: seq<Ruleset>,
    contexts: set<string>)
  {
    ghost predicate Valid() {
      && (forall d <- environments :: d.Valid())
      && (forall i, j :: 0 <= i < j < |environments| ==> environments[i].name != environments[j].name)
      && (forall d <- rulesets :: d.active && Distinct(d.rules))
      && (forall i, j :: 0 <= i < j < |rulesets| ==> rulesets[i].name != rulesets[j].name)
    }
  }

  predicate Distinct<T(==)>(s: seq<T>) {
    forall i, j :: 0 <= i < j < |s| ==> s[i] != s[j]
  }

  datatype Manifest = Manifest(organization: string, forbiddenSecrets: set<string>,
                               repositories: seq<DesiredRepository>)
  {
    /** What `validate_manifest` enforces and the reconciler relies on. */
    ghost predicate Valid() {
      && (forall d <- repositories :: d.Valid())
      && (forall i, j :: 0 <= i < j < |repositories| ==> repositories[i].name != repositories[j].name)
    }
  }

  // ---------------------------------------------------------------- requests

  datatype Reason =
    | CreateEnvironment | CreateForQuarantine | AddReviewers
    | AddSentinel | RestoreSentinel | QuarantineSentinel
    | AddBranchPolicy | CreateRuleset | CompleteRuleset

  predicate IsQuarantine(reason: Reason) {
    reason == CreateForQuarantine || reason == QuarantineSentinel
  }

  datatype Mutation =
    | PutEnvironment(repository: string, environment: string, reason: Reason,
                     waitTimer: nat, preventSelfReview: bool, reviewers: set<Reviewer>)
    | PostVariable(repository: string, environment: string, reason: Reason, name: string, value: string)
    | PatchVariable(repository: string, environment: string, reason: Reason, name: string, value: string)
    | PostBranchPolicy(repository: string, environment: string, reason: Reason, policy: BranchPolicy)
    | PostRuleset(repository: string, reason: Reason, ruleset: Ruleset)
    | PutRuleset(repository: string, reason: Reason, id: nat, ruleset: Ruleset)
  {
    predicate OnRulesets() { PostRuleset? || PutRuleset? }

    predicate OnEnvironment(r: string, e: string) {
      !OnRulesets() && repository == r && environment == e
    }

    predicate OnRulesetsOf(r: string) {
      OnRulesets() && repository == r
    }
  }

  /** PUT replaces wait timer, reviewers, self-review and branch mode and creates the environment
      when it is absent; the other requests touch one variable or one branch policy. */
  function StepEnvironment(bypassDefault: bool, environment: Option<Environment>, m: Mutation): Option<Environment>
    requires !m.OnRulesets()
  {
    match m
    case PutEnvironment(_, _, _, wait, prevent, reviewers) =>
      (match environment
       case None => Some(Environment(bypassDefault, reviewers, prevent, wait, EXACT_MODE, [], map[], {}))
       case Some(e) => Some(e.(reviewers := reviewers, preventSelfReview := prevent, waitTimer := wait,
                               branchMode := EXACT_MODE)))
    case PostVariable(_, _, _, name, value) =>
      if environment.Some? && name !in environment.value.variables
      then Some(environment.value.(variables := environment.value.variables[name := value])) else environment
    case PatchVariable(_, _, _, name, value) =>
      if environment.Some? && name in environment.value.variables
      then Some(environment.value.(variables := environment.value.variables[name := value])) else environment
    case PostBranchPolicy(_, _, _, policy) =>
      if environment.Some? && environment.value.branchMode.customPolicies && policy !in environment.value.branchPolicies
      then Some(environment.value.(branchPolicies := environment.value.branchPolicies + [policy])) else environment
  }

  predicate AcceptsEnvironment(environment: Option<Environment>, m: Mutation)
    requires !m.OnRulesets()
  {
    match m
    case PutEnvironment(_, _, _, _, _, _) => true
    case PostVariable(_, _, _, name, _) => environment.Some? && name !in environment.value.variables
    case PatchVariable(_, _, _, name, _) => environment.Some? && name in environment.value.variables
    case PostBranchPolicy(_, _, _, policy) =>
      environment.Some? && environment.value.branchMode.customPolicies && policy !in environment.value.branchPolicies
  }

  function Matches(rulesets: Rulesets, name: string): set<nat> {
    set id | id in rulesets.entries && rulesets.entries[id].body.name == name
  }

  predicate AcceptsRulesets(rulesets: Rulesets, m: Mutation)
    requires m.OnRulesets()
  {
    match m
    case PostRuleset(_, _, d) => Matches(rulesets, d.name) == {} && rulesets.nextId !in rulesets.entries
    case PutRuleset(_, _, id, _) => id in rulesets.entries
  }

  function StepRulesets(rulesets: Rulesets, m: Mutation): Rulesets
    requires m.OnRulesets()
  {
    if !AcceptsRulesets(rulesets, m) then rulesets else
    match m
    case PostRuleset(_, _, d) =>
      Rulesets(rulesets.entries[rulesets.nextId := LiveRuleset(true, d)], rulesets.nextId + 1)
    case PutRuleset(_, _, id, d) =>
      rulesets.(entries := rulesets.entries[id := rulesets.entries[id].(body := d)])
  }

  function EnvironmentAt(live: Live, r: string, e: string): Option<Environment> {
    if r in live.repositories && e in live.repositories[r].environments
    then Some(live.repositories[r].environments[e]) else None
  }

  function SetEnvironment(live: Live, r: string, e: string, environment: Option<Environment>): Live
    requires r in live.repositories
  {
    if environment.None? then live else
    var repository := live.repositories[r];
    live.(repositories := live.repositories[r := repository.(
      environments := repository.environments[e := environment.value])])
  }

  /** The effect of one accepted request; a request the server rejects changes nothing. */
  function Step(live: Live, m: Mutation): Live {
    if m.repository !in live.repositories then live
    else if m.OnRulesets() then
      var repository := live.repositories[m.repository];
      live.(repositories := live.repositories[m.repository :=
        repository.(rulesets := StepRulesets(repository.rulesets, m))])
    else
      SetEnvironment(live, m.repository, m.environment,
        StepEnvironment(live.organization.bypassDefault, EnvironmentAt(live, m.repository, m.environment), m))
  }

  predicate Accepts(live: Live, m: Mutation) {
    && m.repository in live.repositories
    && if m.OnRulesets() then AcceptsRulesets(live.repositories[m.repository].rulesets, m)
       else AcceptsEnvironment(EnvironmentAt(live, m.repository, m.environment), m)
  }

  /** The state after the requests of `plan`, in order. */
  function Run(live: Live, plan: seq<Mutation>): Live {
    if plan == [] then live else Step(Run(live, plan[..|plan| - 1]), plan[|plan| - 1])
  }

  function RunEnvironment(bypassDefault: bool, environment: Option<Environment>, plan: seq<Mutation>): Option<Environment>
    requires forall m <- plan :: !m.OnRulesets()
  {
    if plan == [] then environment
    else StepEnvironment(bypassDefault, RunEnvironment(bypassDefault, environment, plan[..|plan| - 1]), plan[|plan| - 1])
  }

  function RunRulesets(rulesets: Rulesets, plan: seq<Mutation>): Rulesets
    requires forall m <- plan :: m.OnRulesets()
  {
    if plan == [] then rulesets else StepRulesets(RunRulesets(rulesets, plan[..|plan| - 1]), plan[|plan| - 1])
  }
}
