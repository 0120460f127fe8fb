/** Inspection of the live state: what each part yields as findings, sealing blockers, mutations and
    the destructive-drift flag. */
module ReleaseInspect {
  import opened Options
  import opened ReleaseState

  datatype Status = Passed | Drift | Missing

  datatype Control =
    | Integration | OrganizationVariable | ReviewerIndependence | DefaultBranch | RepositoryVariable
    | OrganizationSecret | RepositorySecret | StatusContexts | RulesetControl | EnvironmentControl
    | AdminBypassControl | ReviewersControl | BranchesControl | SentinelControl | VariablesControl | SecretsControl

  datatype Finding = Finding(repository: string, control: Control, name: string, status: Status)

  datatype Blocker =
    | OrganizationPolicyFallback | ReviewerUnavailable | DefaultBranchNotExact | RepositoryPolicyFallback
    | OrganizationVariableFallback | RepositoryVariableFallback | OrganizationSecretFallback
    | RepositorySecretFallback | ContextsNotObserved | RulesetNotExact(name: string)
    | AdministratorBypass | ReviewerPolicyNotExact | BranchPolicyNotExact | VariableInventoryNotExact
    | VariablesMissing | SecretInventoryNotExact | SecretsMissing

  /** What one inspection pass returns. */
  datatype Inspection = Inspection(checks: seq<Finding>, mutations: seq<Mutation>, destructive: bool)

  const NOTHING := Inspection([], [], false)

  function Join(a: Inspection, b: Inspection): Inspection {
    Inspection(a.checks + b.checks, a.mutations + b.mutations, a.destructive || b.destructive)
  }

  predicate AllPassed(checks: seq<Finding>) {
    forall check <- checks :: check.status == Passed
  }

  function Verdict(ok: bool): Status {
    if ok then Passed else Drift
  }

  // ---------------------------------------------------------------- organization

  function PolicyVariables(environments: seq<DesiredEnvironment>): set<string> {
    set d | d in environments :: d.PolicyVariable()
  }

  function AllPolicyVariables(m: Manifest): set<string> {
    set r, d | r in m.repositories && d in r.environments :: d.PolicyVariable()
  }

  /** Both sentinel names, in sorted order. */
  function SortedPolicies(names: set<string>): seq<string> {
    When(POLICY_VARIABLE_NAME in names, POLICY_VARIABLE_NAME)
    + When(PROFILE_POLICY_VARIABLE_NAME in names, PROFILE_POLICY_VARIABLE_NAME)
  }

  function PolicyFindings(repository: string, control: Control, names: seq<string>, present: set<string>): seq<Finding> {
    if names == [] then []
    else PolicyFindings(repository, control, names[..|names| - 1], present)
         + [Finding(repository, control, names[|names| - 1], Verdict(names[|names| - 1] !in present))]
  }

  predicate OrganizationFallback(m: Manifest, organization: Organization) {
    AllPolicyVariables(m) * organization.variables.Keys != {}
  }

  predicate Distinguished(organization: Organization, reviewer: Reviewer) {
    match reviewer.kind
    case User => reviewer.id != organization.actor
    case Team => reviewer.id in organization.teams && exists member <- organization.teams[reviewer.id] :: member != organization.actor
  }

  predicate Independent(organization: Organization, reviewers: seq<Reviewer>) {
    exists reviewer <- reviewers :: Distinguished(organization, reviewer)
  }

  function InspectOrganization(m: Manifest, reviewers: seq<Reviewer>, organization: Organization): Inspection {
    Inspection(
      [Finding(m.organization, Integration, "", Passed)]
      + PolicyFindings(m.organization, OrganizationVariable, SortedPolicies(AllPolicyVariables(m)), organization.variables.Keys)
      + [Finding(m.organization, ReviewerIndependence, "", Verdict(Independent(organization, reviewers)))],
      [],
      OrganizationFallback(m, organization) || !Independent(organization, reviewers))
  }

  // ---------------------------------------------------------------- repositories

  predicate Applies(scope: Scope, isPrivate: bool, fullName: string) {
    match scope
    case AllRepositories => true
    case PrivateRepositories => isPrivate
    case Selected(repositories) => fullName in repositories
  }

  function Fallbacks(names: set<string>, scopes: map<string, Scope>, isPrivate: bool, fullName: string): set<string> {
    set name | name in names && name in scopes && Applies(scopes[name], isPrivate, fullName)
  }

  function DesiredVariables(d: DesiredRepository): set<string> {
    set e, name | e in d.environments && name in e.allowedVariables :: name
  }

  function AuditedSecrets(m: Manifest, d: DesiredRepository): set<string> {
    (set e, name | e in d.environments && name in e.allowedSecrets :: name) + m.forbiddenSecrets
  }

  function FullName(m: Manifest, d: DesiredRepository): string {
    m.organization + "/" + d.name
  }

  /** The repository-level comparisons, one flag each. */
  datatype Facts = Facts(defaultBranch: bool, policyFallback: bool, organizationVariables: bool,
                         repositoryVariables: bool, organizationSecrets: bool, repositorySecrets: bool, contexts: bool)
  {
    predicate Clean() {
      defaultBranch && !policyFallback && !organizationVariables && !repositoryVariables
      && !organizationSecrets && !repositorySecrets && contexts
    }
  }

  function RepositoryFacts(m: Manifest, organization: Organization, d: DesiredRepository, repository: Repository): Facts {
    Facts(
      repository.defaultBranch == d.defaultBranch,
      PolicyVariables(d.environments) * repository.variables != {},
      Fallbacks(DesiredVariables(d), organization.variables, repository.isPrivate, FullName(m, d)) != {},
      repository.variables * DesiredVariables(d) != {},
      Fallbacks(AuditedSecrets(m, d), organization.secrets, repository.isPrivate, FullName(m, d)) != {},
      repository.secrets * AuditedSecrets(m, d) != {},
      d.contexts <= repository.contexts)
  }

  function RepositoryFindings(d: DesiredRepository, repository: Repository, facts: Facts): seq<Finding> {
    [Finding(d.name, DefaultBranch, d.name, Verdict(facts.defaultBranch))]
    + PolicyFindings(d.name, RepositoryVariable, SortedPolicies(PolicyVariables(d.environments)), repository.variables)
    + [Finding(d.name, OrganizationVariable, "", Verdict(!facts.organizationVariables)),
       Finding(d.name, RepositoryVariable, "", Verdict(!facts.repositoryVariables)),
       Finding(d.name, OrganizationSecret, "", Verdict(!facts.organizationSecrets)),
       Finding(d.name, RepositorySecret, "", Verdict(!facts.repositorySecrets)),
       Finding(d.name, StatusContexts, MAIN, Verdict(facts.contexts))]
  }

  function RepositoryBlockers(fallback: bool, independent: bool, facts: Facts): seq<Blocker> {
    When(fallback, OrganizationPolicyFallback)
    + When(!independent, ReviewerUnavailable)
    + When(!facts.defaultBranch, DefaultBranchNotExact)
    + When(facts.policyFallback, RepositoryPolicyFallback)
    + When(facts.organizationVariables, OrganizationVariableFallback)
    + When(facts.repositoryVariables, RepositoryVariableFallback)
    + When(facts.organizationSecrets, OrganizationSecretFallback)
    + When(facts.repositorySecrets, RepositorySecretFallback)
    + When(!facts.contexts, ContextsNotObserved)
  }

  // ---------------------------------------------------------------- rulesets

  datatype RulesetState = Absent | Exact | Incomplete(id: nat) | Unmanageable

  lemma SingletonUnique(s: set<nat>, a: nat, b: nat)
    requires |s| == 1 && a in s && b in s
    ensures a == b
  {
    assert |s - {a}| == 0;
  }

  function TheOnly(s: set<nat>): (id: nat)
    requires |s| == 1
    ensures s == {id}
  {
    assert s != {};
    assert forall a, b | a in s && b in s :: a == b by {
      forall a, b | a in s && b in s ensures a == b { SingletonUnique(s, a, b); }
    }
    var id :| id in s;
    id
  }

  function RuleSet(rules: seq<Rule>): set<Rule> {
    set rule | rule in rules
  }

  /** Nothing the manifest does not ask for, and nothing it would have to remove. */
  predicate Completable(actual: LiveRuleset, d: Ruleset) {
    && actual.observable
    && actual.body.name == d.name && actual.body.target == d.target
    && actual.body.bypassActors == d.bypassActors && actual.body.conditions == d.conditions
    && RuleSet(actual.body.rules) <= RuleSet(d.rules)
    && Distinct(actual.body.rules)
  }

  function Classify(rulesets: Rulesets, d: Ruleset): RulesetState {
    var ids := Matches(rulesets, d.name);
    if ids == {} then Absent
    else if |ids| != 1 then Unmanageable
    else
      var id := TheOnly(ids);
      var actual := rulesets.entries[id];
      if !Completable(actual, d) then Unmanageable
      else if !actual.body.active || RuleSet(actual.body.rules) != RuleSet(d.rules) then Incomplete(id)
      else Exact
  }

  function RulesetMutations(r: string, d: Ruleset, state: RulesetState): seq<Mutation> {
    match state
    case Absent => [PostRuleset(r, CreateRuleset, d)]
    case Incomplete(id) => [PutRuleset(r, CompleteRuleset, id, d)]
    case _ => []
  }

  function InspectRuleset(r: string, d: Ruleset, rulesets: Rulesets): Inspection {
    var state := Classify(rulesets, d);
    Inspection(
      [Finding(r, RulesetControl, d.name, if state == Exact then Passed else if state == Absent then Missing else Drift)],
      RulesetMutations(r, d, state),
      state == Unmanageable)
  }

  function InspectRulesets(r: string, ds: seq<Ruleset>, rulesets: Rulesets): Inspection {
    if ds == [] then NOTHING
    else Join(InspectRulesets(r, ds[..|ds| - 1], rulesets), InspectRuleset(r, ds[|ds| - 1], rulesets))
  }

  function RulesetBlockers(ds: seq<Ruleset>, rulesets: Rulesets): seq<Blocker> {
    if ds == [] then []
    else RulesetBlockers(ds[..|ds| - 1], rulesets)
         + When(Classify(rulesets, ds[|ds| - 1]) != Exact, RulesetNotExact(ds[|ds| - 1].name))
  }

  // ---------------------------------------------------------------- environments

  /** What an environment's inspection takes from its repository. */
  datatype Scene = Scene(repository: string, reviewers: set<Reviewer>, blockers: seq<Blocker>, shadow: bool)

  function Expected(scene: Scene, d: DesiredEnvironment): set<Reviewer> {
    if d.profile then {} else scene.reviewers
  }

  /** The administration environment is exempt from the independent-reviewer blocker. */
  function Scoped(profile: bool, blockers: seq<Blocker>): seq<Blocker> {
    if blockers == [] then []
    else Scoped(profile, blockers[..|blockers| - 1])
         + When(!(profile && blockers[|blockers| - 1] == ReviewerUnavailable), blockers[|blockers| - 1])
  }

  predicate ReviewersExact(scene: Scene, d: DesiredEnvironment, e: Environment) {
    e.reviewers == Expected(scene, d) && e.preventSelfReview == d.preventSelfReview
  }

  predicate BranchesExact(e: Environment) {
    e.branchMode == EXACT_MODE && e.branchPolicies == [MAIN_POLICY]
  }

  function UnknownVariables(d: DesiredEnvironment, e: Environment): set<string> {
    e.variables.Keys - d.allowedVariables - {d.PolicyVariable()}
  }

  function ProtectionBlockers(scene: Scene, d: DesiredEnvironment, e: Environment): seq<Blocker> {
    When(e.adminsBypass, AdministratorBypass)
    + When(!ReviewersExact(scene, d, e), ReviewerPolicyNotExact)
    + When(!BranchesExact(e), BranchPolicyNotExact)
  }

  function InventoryBlockers(d: DesiredEnvironment, e: Environment): seq<Blocker> {
    When(UnknownVariables(d, e) != {}, VariableInventoryNotExact)
    + When(UnknownVariables(d, e) == {} && !(d.requiredVariables <= e.variables.Keys), VariablesMissing)
    + When(!(e.secrets <= d.allowedSecrets), SecretInventoryNotExact)
    + When(e.secrets <= d.allowedSecrets && !(d.requiredSecrets <= e.secrets), SecretsMissing)
  }

  function EnvironmentBlockers(scene: Scene, d: DesiredEnvironment, e: Environment): seq<Blocker> {
    Scoped(d.profile, scene.blockers) + ProtectionBlockers(scene, d, e) + InventoryBlockers(d, e)
  }

  predicate HasSentinel(d: DesiredEnvironment, e: Environment) {
    d.PolicyVariable() in e.variables
  }

  /** The environment holds its accepting lease. */
  predicate Sealed(d: DesiredEnvironment, e: Environment) {
    d.PolicyVariable() in e.variables && e.variables[d.PolicyVariable()] == d.policyId
  }

  function SentinelMutations(scene: Scene, d: DesiredEnvironment, e: Environment): seq<Mutation> {
    var r, blocked := scene.repository, EnvironmentBlockers(scene, d, e) != [];
    if !HasSentinel(d, e) then
      if scene.shadow then [PostVariable(r, d.name, QuarantineSentinel, d.PolicyVariable(), d.Quarantine())]
      else When(!blocked, PostVariable(r, d.name, AddSentinel, d.PolicyVariable(), d.policyId))
    else if !Sealed(d, e) then When(!blocked, PatchVariable(r, d.name, RestoreSentinel, d.PolicyVariable(), d.policyId))
    else When(blocked, PatchVariable(r, d.name, QuarantineSentinel, d.PolicyVariable(), d.Quarantine()))
  }

  function ReviewerMutations(scene: Scene, d: DesiredEnvironment, e: Environment): seq<Mutation> {
    When(e.reviewers <= Expected(scene, d) && !ReviewersExact(scene, d, e),
         PutEnvironment(scene.repository, d.name, AddReviewers, e.waitTimer, d.preventSelfReview, Expected(scene, d)))
  }

  function BranchMutations(scene: Scene, d: DesiredEnvironment, e: Environment): seq<Mutation> {
    When(e.branchMode == EXACT_MODE && e.branchPolicies == [],
         PostBranchPolicy(scene.repository, d.name, AddBranchPolicy, MAIN_POLICY))
  }

  function CreationMutations(scene: Scene, d: DesiredEnvironment): seq<Mutation> {
    [PutEnvironment(scene.repository, d.name, if scene.shadow then CreateForQuarantine else CreateEnvironment,
                    0, d.preventSelfReview, Expected(scene, d))]
    + When(scene.shadow, PostVariable(scene.repository, d.name, QuarantineSentinel, d.PolicyVariable(), d.Quarantine()))
    + [PostBranchPolicy(scene.repository, d.name, AddBranchPolicy, MAIN_POLICY)]
  }

  function EnvironmentMutations(scene: Scene, d: DesiredEnvironment, environment: Option<Environment>): seq<Mutation> {
    match environment
    case None => CreationMutations(scene, d)
    case Some(e) => ReviewerMutations(scene, d, e) + BranchMutations(scene, d, e) + SentinelMutations(scene, d, e)
  }

  predicate ProtectionDrift(scene: Scene, d: DesiredEnvironment, e: Environment) {
    || e.adminsBypass
    || !(e.reviewers <= Expected(scene, d))
    || e.branchMode != EXACT_MODE
    || (e.branchPolicies != [] && e.branchPolicies != [MAIN_POLICY])
  }

  predicate InventoryDrift(d: DesiredEnvironment, e: Environment) {
    UnknownVariables(d, e) != {} || !(e.secrets <= d.allowedSecrets)
  }

  predicate SentinelDrift(scene: Scene, d: DesiredEnvironment, e: Environment) {
    || (!HasSentinel(d, e) && scene.shadow)
    || (Sealed(d, e) && EnvironmentBlockers(scene, d, e) != [])
  }

  /** Drift that only an operator may remove, or a lease that must be withdrawn first. */
  predicate EnvironmentDestructive(scene: Scene, d: DesiredEnvironment, e: Environment) {
    ProtectionDrift(scene, d, e) || InventoryDrift(d, e) || SentinelDrift(scene, d, e)
  }

  function ProtectionFindings(scene: Scene, d: DesiredEnvironment, e: Environment): seq<Finding> {
    var r := scene.repository;
    [Finding(r, AdminBypassControl, d.name, Verdict(!e.adminsBypass)),
     Finding(r, ReviewersControl, d.name, Verdict(ReviewersExact(scene, d, e))),
     Finding(r, BranchesControl, d.name, Verdict(BranchesExact(e)))]
  }

  function InventoryFindings(r: string, d: DesiredEnvironment, e: Environment): seq<Finding> {
    [(if UnknownVariables(d, e) != {} then Finding(r, SentinelControl, d.name, Drift)
      else Finding(r, VariablesControl, d.name, if d.requiredVariables <= e.variables.Keys then Passed else Missing)),
     Finding(r, SecretsControl, d.name,
             if !(e.secrets <= d.allowedSecrets) then Drift else if d.requiredSecrets <= e.secrets then Passed else Missing)]
  }

  function SentinelFindings(scene: Scene, d: DesiredEnvironment, e: Environment): seq<Finding> {
    [Finding(scene.repository, SentinelControl, d.name,
             if !HasSentinel(d, e) then Missing
             else Verdict(Sealed(d, e) && EnvironmentBlockers(scene, d, e) == []))]
  }

  function EnvironmentFindings(scene: Scene, d: DesiredEnvironment, e: Environment): seq<Finding> {
    ProtectionFindings(scene, d, e) + InventoryFindings(scene.repository, d, e) + SentinelFindings(scene, d, e)
  }

  function AbsentFindings(r: string, d: DesiredEnvironment): seq<Finding> {
    [Finding(r, EnvironmentControl, d.name, Missing),
     Finding(r, SentinelControl, d.name, Missing),
     Finding(r, AdminBypassControl, d.name, Missing),
     Finding(r, SecretsControl, d.name, if d.requiredSecrets != {} then Missing else Passed),
     Finding(r, VariablesControl, d.name, if d.requiredVariables != {} then Missing else Passed)]
  }

  function InspectEnvironment(scene: Scene, d: DesiredEnvironment, environment: Option<Environment>): Inspection {
    Inspection(
      if environment.None? then AbsentFindings(scene.repository, d) else EnvironmentFindings(scene, d, environment.value),
      EnvironmentMutations(scene, d, environment),
      environment.Some? && EnvironmentDestructive(scene, d, environment.value))
  }

  function InspectEnvironments(scene: Scene, ds: seq<DesiredEnvironment>, environments: map<string, Environment>): Inspection {
    if ds == [] then NOTHING
    else
      var d := ds[|ds| - 1];
      Join(InspectEnvironments(scene, ds[..|ds| - 1], environments),
           InspectEnvironment(scene, d, if d.name in environments then Some(environments[d.name]) else None))
  }

  // ---------------------------------------------------------------- whole inspection

  function Reviewers(reviewers: seq<Reviewer>): set<Reviewer> {
    set reviewer | reviewer in reviewers
  }

  function SceneOf(m: Manifest, reviewers: seq<Reviewer>, organization: Organization, d: DesiredRepository, repository: Repository): Scene {
    var facts := RepositoryFacts(m, organization, d, repository);
    var fallback := OrganizationFallback(m, organization);
    Scene(d.name, Reviewers(reviewers),
          RepositoryBlockers(fallback, Independent(organization, reviewers), facts) + RulesetBlockers(d.rulesets, repository.rulesets),
          fallback || facts.policyFallback)
  }

  function InspectRepositoryIn(scene: Scene, facts: Facts, d: DesiredRepository, repository: Repository): Inspection {
    var rulesets := InspectRulesets(d.name, d.rulesets, repository.rulesets);
    var environments := InspectEnvironments(scene, d.environments, repository.environments);
    Inspection(RepositoryFindings(d, repository, facts) + rulesets.checks + environments.checks,
               rulesets.mutations + environments.mutations,
               !facts.Clean() || rulesets.destructive || environments.destructive)
  }

  function InspectRepository(m: Manifest, reviewers: seq<Reviewer>, organization: Organization,
                             d: DesiredRepository, repository: Repository): Inspection {
    InspectRepositoryIn(SceneOf(m, reviewers, organization, d, repository),
                        RepositoryFacts(m, organization, d, repository), d, repository)
  }

  /** Every selected repository can be read; otherwise the inspection ends in an error. */
  predicate Observable(ds: seq<DesiredRepository>, selected: set<string>, live: Live) {
    forall d <- ds :: d.name in selected ==> d.name in live.repositories
  }

  function InspectRepositories(m: Manifest, reviewers: seq<Reviewer>, selected: set<string>, live: Live, ds: seq<DesiredRepository>): Inspection
    requires Observable(ds, selected, live)
  {
    if ds == [] then NOTHING
    else
      var d := ds[|ds| - 1];
      var earlier := InspectRepositories(m, reviewers, selected, live, ds[..|ds| - 1]);
      if d.name !in selected then earlier
      else Join(earlier, InspectRepository(m, reviewers, live.organization, d, live.repositories[d.name]))
  }

  function Inspect(m: Manifest, reviewers: seq<Reviewer>, selected: set<string>, live: Live): Inspection
    requires Observable(m.repositories, selected, live)
  {
    var organization := InspectOrganization(m, reviewers, live.organization);
    var repositories := InspectRepositories(m, reviewers, selected, live, m.repositories);
    Inspection(organization.checks + repositories.checks, repositories.mutations,
               organization.destructive || repositories.destructive)
  }
}
