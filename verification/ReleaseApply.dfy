/** The reconciler as it runs: the inspection loops, the request journal, and apply. */
module ReleaseApply {
  import opened Options
  import opened ReleaseState
  import opened ReleaseInspect
  import opened ReleasePlan
  import opened ReleaseExactness
  import opened ReleaseAcceptance

  // ---------------------------------------------------------------- inspection

  method ScanPolicies(repository: string, control: Control, names: seq<string>, present: set<string>)
    returns (checks: seq<Finding>, drift: bool)
    ensures checks == PolicyFindings(repository, control, names, present)
    ensures drift <==> exists name <- names :: name in present
  {
    checks, drift := [], false;
    for i := 0 to |names|
      invariant checks == PolicyFindings(repository, control, names[..i], present)
      invariant drift <==> exists name <- names[..i] :: name in present
    {
      assert names[..i + 1][..i] == names[..i];
      assert forall name :: name in names[..i + 1] <==> name in names[..i] || name == names[i];
      if names[i] in present {
        checks := checks + [Finding(repository, control, names[i], Drift)];
        drift := true;
      } else {
        checks := checks + [Finding(repository, control, names[i], Passed)];
      }
    }
    assert names[..|names|] == names;
  }

  method ScanRulesets(r: string, ds: seq<Ruleset>, rulesets: Rulesets)
    returns (inspection: Inspection, blockers: seq<Blocker>)
    ensures inspection == InspectRulesets(r, ds, rulesets)
    ensures blockers == RulesetBlockers(ds, rulesets)
  {
    var checks, mutations, destructive := [], [], false;
    blockers := [];
    for i := 0 to |ds|
      invariant Inspection(checks, mutations, destructive) == InspectRulesets(r, ds[..i], rulesets)
      invariant blockers == RulesetBlockers(ds[..i], rulesets)
    {
      assert ds[..i + 1][..i] == ds[..i];
      var d := ds[i];
      match Classify(rulesets, d) {
        case Absent =>
          checks := checks + [Finding(r, RulesetControl, d.name, Missing)];
          mutations := mutations + [PostRuleset(r, CreateRuleset, d)];
          blockers := blockers + [RulesetNotExact(d.name)];
        case Unmanageable =>
          checks := checks + [Finding(r, RulesetControl, d.name, Drift)];
          destructive := true;
          blockers := blockers + [RulesetNotExact(d.name)];
        case Incomplete(id) =>
          checks := checks + [Finding(r, RulesetControl, d.name, Drift)];
          mutations := mutations + [PutRuleset(r, CompleteRuleset, id, d)];
          blockers := blockers + [RulesetNotExact(d.name)];
        case Exact =>
          checks := checks + [Finding(r, RulesetControl, d.name, Passed)];
      }
    }
    assert ds[..|ds|] == ds;
    inspection := Inspection(checks, mutations, destructive);
  }

  method ScopeBlockers(profile: bool, blockers: seq<Blocker>) returns (scoped: seq<Blocker>)
    ensures scoped == Scoped(profile, blockers)
  {
    scoped := [];
    for i := 0 to |blockers|
      invariant scoped == Scoped(profile, blockers[..i])
    {
      assert blockers[..i + 1][..i] == blockers[..i];
      if !(profile && blockers[i] == ReviewerUnavailable) {
        scoped := scoped + [blockers[i]];
      }
    }
    assert blockers[..|blockers|] == blockers;
  }

  method ScanProtection(scene: Scene, d: DesiredEnvironment, e: Environment)
    returns (inspection: Inspection, blockers: seq<Blocker>)
    ensures inspection.checks == ProtectionFindings(scene, d, e)
    ensures inspection.mutations == ReviewerMutations(scene, d, e) + BranchMutations(scene, d, e)
    ensures inspection.destructive <==> ProtectionDrift(scene, d, e)
    ensures blockers == ProtectionBlockers(scene, d, e)
  {
    var r := scene.repository;
    var checks, mutations: seq<Mutation>, destructive := [Finding(r, AdminBypassControl, d.name, Verdict(!e.adminsBypass))], [], false;
    blockers := [];
    if e.adminsBypass {
      destructive, blockers := true, blockers + [AdministratorBypass];
    }
    if !(e.reviewers <= Expected(scene, d)) {
      checks := checks + [Finding(r, ReviewersControl, d.name, Drift)];
      destructive, blockers := true, blockers + [ReviewerPolicyNotExact];
    } else if e.reviewers != Expected(scene, d) || e.preventSelfReview != d.preventSelfReview {
      checks := checks + [Finding(r, ReviewersControl, d.name, Drift)];
      mutations := mutations + [PutEnvironment(r, d.name, AddReviewers, e.waitTimer, d.preventSelfReview, Expected(scene, d))];
      blockers := blockers + [ReviewerPolicyNotExact];
    } else {
      checks := checks + [Finding(r, ReviewersControl, d.name, Passed)];
    }
    if e.branchMode == EXACT_MODE && e.branchPolicies == [MAIN_POLICY] {
      checks := checks + [Finding(r, BranchesControl, d.name, Passed)];
    } else {
      checks := checks + [Finding(r, BranchesControl, d.name, Drift)];
      blockers := blockers + [BranchPolicyNotExact];
      if e.branchMode == EXACT_MODE && e.branchPolicies == [] {
        mutations := mutations + [PostBranchPolicy(r, d.name, AddBranchPolicy, MAIN_POLICY)];
      } else {
        destructive := true;
      }
    }
    inspection := Inspection(checks, mutations, destructive);
  }

  method ScanInventory(r: string, d: DesiredEnvironment, e: Environment)
    returns (checks: seq<Finding>, destructive: bool, blockers: seq<Blocker>)
    ensures checks == InventoryFindings(r, d, e)
    ensures destructive <==> InventoryDrift(d, e)
    ensures blockers == InventoryBlockers(d, e)
  {
    checks, destructive, blockers := [], false, [];
    if UnknownVariables(d, e) != {} {
      checks := checks + [Finding(r, SentinelControl, d.name, Drift)];
      destructive, blockers := true, blockers + [VariableInventoryNotExact];
    } else if !(d.requiredVariables <= e.variables.Keys) {
      checks := checks + [Finding(r, VariablesControl, d.name, Missing)];
      blockers := blockers + [VariablesMissing];
    } else {
      checks := checks + [Finding(r, VariablesControl, d.name, Passed)];
    }
    if !(e.secrets <= d.allowedSecrets) {
      checks := checks + [Finding(r, SecretsControl, d.name, Drift)];
      destructive, blockers := true, blockers + [SecretInventoryNotExact];
    } else if !(d.requiredSecrets <= e.secrets) {
      checks := checks + [Finding(r, SecretsControl, d.name, Missing)];
      blockers := blockers + [SecretsMissing];
    } else {
      checks := checks + [Finding(r, SecretsControl, d.name, Passed)];
    }
  }

  method ScanAbsent(scene: Scene, d: DesiredEnvironment) returns (inspection: Inspection)
    ensures inspection == InspectEnvironment(scene, d, None)
  {
    var r := scene.repository;
    var mutations := [PutEnvironment(r, d.name, if scene.shadow then CreateForQuarantine else CreateEnvironment,
                                     0, d.preventSelfReview, Expected(scene, d))];
    if scene.shadow {
      mutations := mutations + [PostVariable(r, d.name, QuarantineSentinel, d.PolicyVariable(), d.Quarantine())];
    }
    mutations := mutations + [PostBranchPolicy(r, d.name, AddBranchPolicy, MAIN_POLICY)];
    inspection := Inspection(AbsentFindings(r, d), mutations, false);
  }

  method ScanEnvironment(scene: Scene, d: DesiredEnvironment, environment: Option<Environment>) returns (inspection: Inspection)
    ensures inspection == InspectEnvironment(scene, d, environment)
  {
    if environment.None? {
      inspection := ScanAbsent(scene, d);
    } else {
      var e := environment.value;
      var blockers := ScopeBlockers(d.profile, scene.blockers);
      var protection, protectionBlockers := ScanProtection(scene, d, e);
      var checks, destructive, inventoryBlockers := ScanInventory(scene.repository, d, e);
      blockers := blockers + protectionBlockers + inventoryBlockers;
      var sentinel := ScanSentinel(scene, d, e, blockers);
      inspection := Inspection(protection.checks + checks + sentinel.checks, protection.mutations + sentinel.mutations,
                               protection.destructive || destructive || sentinel.destructive);
    }
  }

  /** The last step of an environment: the lease itself. */
  method ScanSentinel(scene: Scene, d: DesiredEnvironment, e: Environment, blockers: seq<Blocker>) returns (inspection: Inspection)
    requires blockers == EnvironmentBlockers(scene, d, e)
    ensures inspection.mutations == SentinelMutations(scene, d, e)
    ensures inspection.checks == SentinelFindings(scene, d, e)
    ensures inspection.destructive <==> SentinelDrift(scene, d, e)
  {
    var r, variable := scene.repository, d.PolicyVariable();
    if variable !in e.variables {
      var checks := [Finding(r, SentinelControl, d.name, Missing)];
      if scene.shadow {
        inspection := Inspection(checks, [PostVariable(r, d.name, QuarantineSentinel, variable, d.Quarantine())], true);
      } else if blockers == [] {
        inspection := Inspection(checks, [PostVariable(r, d.name, AddSentinel, variable, d.policyId)], false);
      } else {
        inspection := Inspection(checks, [], false);
      }
    } else if e.variables[variable] != d.policyId {
      var checks := [Finding(r, SentinelControl, d.name, Drift)];
      if blockers == [] {
        inspection := Inspection(checks, [PatchVariable(r, d.name, RestoreSentinel, variable, d.policyId)], false);
      } else {
        inspection := Inspection(checks, [], false);
      }
    } else if blockers != [] {
      inspection := Inspection([Finding(r, SentinelControl, d.name, Drift)],
                               [PatchVariable(r, d.name, QuarantineSentinel, variable, d.Quarantine())], true);
    } else {
      inspection := Inspection([Finding(r, SentinelControl, d.name, Passed)], [], false);
    }
  }

  method ScanEnvironments(scene: Scene, ds: seq<DesiredEnvironment>, environments: map<string, Environment>) returns (inspection: Inspection)
    ensures inspection == InspectEnvironments(scene, ds, environments)
  {
    inspection := NOTHING;
    for i := 0 to |ds|
      invariant inspection == InspectEnvironments(scene, ds[..i], environments)
    {
      assert ds[..i + 1][..i] == ds[..i];
      var own := ScanEnvironment(scene, ds[i], if ds[i].name in environments then Some(environments[ds[i].name]) else None);
      inspection := Join(inspection, own);
    }
    assert ds[..|ds|] == ds;
  }

  /** The names a repository inherits from the organization, one by one. */
  method ScanFallbacks(names: set<string>, scopes: map<string, Scope>, isPrivate: bool, fullName: string) returns (found: set<string>)
    ensures found == Fallbacks(names, scopes, isPrivate, fullName)
  {
    var rest := names;
    found := {};
    while rest != {}
      invariant rest <= names && found == Fallbacks(names - rest, scopes, isPrivate, fullName)
      decreases |rest|
    {
      var name :| name in rest;
      rest := rest - {name};
      assert names - rest == (names - (rest + {name})) + {name};
      if name in scopes {
        var scope := scopes[name];
        if scope.AllRepositories? || (scope.PrivateRepositories? && isPrivate) || (scope.Selected? && fullName in scope.repositories) {
          found := found + {name};
        }
      }
    }
    assert names - rest == names;
  }

  /** The names to audit, environment by environment. */
  method ScanNames(m: Manifest, d: DesiredRepository) returns (policies: set<string>, variables: set<string>, secrets: set<string>)
    ensures policies == PolicyVariables(d.environments) && variables == DesiredVariables(d) && secrets == AuditedSecrets(m, d)
  {
    var ds := d.environments;
    policies, variables, secrets := {}, {}, {};
    for i := 0 to |ds|
      invariant policies == PolicyVariables(ds[..i])
      invariant variables == set e, name | e in ds[..i] && name in e.allowedVariables :: name
      invariant secrets == set e, name | e in ds[..i] && name in e.allowedSecrets :: name
    {
      assert ds[..i + 1] == ds[..i] + [ds[i]];
      policies, variables, secrets := policies + {ds[i].PolicyVariable()}, variables + ds[i].allowedVariables, secrets + ds[i].allowedSecrets;
    }
    assert ds[..|ds|] == ds;
    secrets := secrets + m.forbiddenSecrets;
  }

  method Raise(raised: bool, blocker: Blocker, blockers: seq<Blocker>, destructive: bool) returns (more: seq<Blocker>, still: bool)
    ensures more == blockers + When(raised, blocker) && still == (destructive || raised)
  {
    more, still := blockers, destructive;
    if raised { more, still := blockers + [blocker], true; }
  }

  lemma InOrder(raised: seq<Blocker>, a: seq<Blocker>, b: seq<Blocker>, c: seq<Blocker>, d: seq<Blocker>, e: seq<Blocker>, f: seq<Blocker>, g: seq<Blocker>)
    ensures raised + a + b + c + d + e + f + g == raised + ([] + [] + a + b + c + d + e + f + g)
  {
    assert [] + [] + a == a;
  }

  lemma Ordered(raised: seq<Blocker>, facts: Facts)
    ensures raised + When(!facts.defaultBranch, DefaultBranchNotExact) + When(facts.policyFallback, RepositoryPolicyFallback)
            + When(facts.organizationVariables, OrganizationVariableFallback) + When(facts.repositoryVariables, RepositoryVariableFallback)
            + When(facts.organizationSecrets, OrganizationSecretFallback) + When(facts.repositorySecrets, RepositorySecretFallback)
            + When(!facts.contexts, ContextsNotObserved)
         == raised + RepositoryBlockers(false, true, facts)
  {
    InOrder(raised, When(!facts.defaultBranch, DefaultBranchNotExact), When(facts.policyFallback, RepositoryPolicyFallback),
            When(facts.organizationVariables, OrganizationVariableFallback), When(facts.repositoryVariables, RepositoryVariableFallback),
            When(facts.organizationSecrets, OrganizationSecretFallback), When(facts.repositorySecrets, RepositorySecretFallback),
            When(!facts.contexts, ContextsNotObserved));
  }

  /** The comparisons of a repository's own settings. */
  method ScanFacts(m: Manifest, organization: Organization, d: DesiredRepository, repository: Repository) returns (facts: Facts)
    ensures facts == RepositoryFacts(m, organization, d, repository)
  {
    var isPrivate, fullName := repository.isPrivate, FullName(m, d);
    var policies, variables, secrets := ScanNames(m, d);
    var inheritedVariables := ScanFallbacks(variables, organization.variables, isPrivate, fullName);
    var inheritedSecrets := ScanFallbacks(secrets, organization.secrets, isPrivate, fullName);
    var missing := d.contexts - repository.contexts;
    NoneMissing(d.contexts, repository.contexts);
    facts := Facts(repository.defaultBranch == d.defaultBranch, policies * repository.variables != {},
                   inheritedVariables != {}, repository.variables * variables != {},
                   inheritedSecrets != {}, repository.secrets * secrets != {}, missing == {});
  }

  /** The findings, and the blockers they raise. */
  method ScanSettings(d: DesiredRepository, repository: Repository, facts: Facts, raised: seq<Blocker>)
    returns (checks: seq<Finding>, blockers: seq<Blocker>, destructive: bool)
    ensures checks == RepositoryFindings(d, repository, facts)
    ensures blockers == raised + RepositoryBlockers(false, true, facts)
    ensures destructive <==> !facts.Clean()
  {
    checks := [Finding(d.name, DefaultBranch, d.name, Verdict(facts.defaultBranch))];
    blockers, destructive := Raise(!facts.defaultBranch, DefaultBranchNotExact, raised, false);
    var findings, shadowed := ScanPolicies(d.name, RepositoryVariable, SortedPolicies(PolicyVariables(d.environments)), repository.variables);
    checks := checks + findings;
    blockers, destructive := Raise(facts.policyFallback, RepositoryPolicyFallback, blockers, destructive);
    blockers, destructive := Raise(facts.organizationVariables, OrganizationVariableFallback, blockers, destructive);
    blockers, destructive := Raise(facts.repositoryVariables, RepositoryVariableFallback, blockers, destructive);
    blockers, destructive := Raise(facts.organizationSecrets, OrganizationSecretFallback, blockers, destructive);
    blockers, destructive := Raise(facts.repositorySecrets, RepositorySecretFallback, blockers, destructive);
    blockers, destructive := Raise(!facts.contexts, ContextsNotObserved, blockers, destructive);
    checks := checks
      + [Finding(d.name, OrganizationVariable, "", Verdict(!facts.organizationVariables)),
         Finding(d.name, RepositoryVariable, "", Verdict(!facts.repositoryVariables)),
         Finding(d.name, OrganizationSecret, "", Verdict(!facts.organizationSecrets)),
         Finding(d.name, RepositorySecret, "", Verdict(!facts.repositorySecrets)),
         Finding(d.name, StatusContexts, MAIN, Verdict(facts.contexts))];
    Ordered(raised, facts);
  }

  lemma NoneMissing(required: set<string>, observed: set<string>)
    ensures required - observed == {} <==> required <= observed
  {
    if required - observed == {} {
      forall x | x in required ensures x in observed { assert x !in required - observed; }
    }
  }

  lemma RaisedFirst(fallback: bool, independent: bool, facts: Facts)
    ensures When(fallback, OrganizationPolicyFallback) + When(!independent, ReviewerUnavailable) + RepositoryBlockers(false, true, facts)
         == RepositoryBlockers(fallback, independent, facts)
  {
    Ordered(When(fallback, OrganizationPolicyFallback) + When(!independent, ReviewerUnavailable), facts);
  }

  /** Everything that blocks the environments of a repository, in the order it is found. */
  method ScanBlockers(m: Manifest, organization: Organization, d: DesiredRepository, repository: Repository, fallback: bool, independent: bool)
    returns (checks: seq<Finding>, blockers: seq<Blocker>, destructive: bool)
    ensures var facts := RepositoryFacts(m, organization, d, repository);
            && checks == RepositoryFindings(d, repository, facts)
            && blockers == RepositoryBlockers(fallback, independent, facts)
            && (destructive <==> !facts.Clean())
  {
    var raised := [];
    if fallback { raised := raised + [OrganizationPolicyFallback]; }
    if !independent { raised := raised + [ReviewerUnavailable]; }
    var facts := ScanFacts(m, organization, d, repository);
    checks, blockers, destructive := ScanSettings(d, repository, facts, raised);
    assert raised == When(fallback, OrganizationPolicyFallback) + When(!independent, ReviewerUnavailable);
    RaisedFirst(fallback, independent, facts);
  }

  method ScanRepository(m: Manifest, reviewers: seq<Reviewer>, organization: Organization,
                        d: DesiredRepository, repository: Repository, fallback: bool, independent: bool)
    returns (inspection: Inspection)
    requires fallback == OrganizationFallback(m, organization) && independent == Independent(organization, reviewers)
    ensures inspection == InspectRepository(m, reviewers, organization, d, repository)
  {
    var checks, blockers, destructive := ScanBlockers(m, organization, d, repository, fallback, independent);
    var rulesets, rulesetBlockers := ScanRulesets(d.name, d.rulesets, repository.rulesets);
    ShadowRaised(fallback, independent, RepositoryFacts(m, organization, d, repository), d.rulesets, repository.rulesets);
    blockers := blockers + rulesetBlockers;
    var scene := Scene(d.name, Reviewers(reviewers), blockers, OrganizationPolicyFallback in blockers || RepositoryPolicyFallback in blockers);
    var environments := ScanEnvironments(scene, d.environments, repository.environments);
    inspection := Inspection(checks + rulesets.checks + environments.checks,
                             rulesets.mutations + environments.mutations,
                             destructive || rulesets.destructive || environments.destructive);
  }

  lemma {:induction false} RulesetBlockersOnly(ds: seq<Ruleset>, rulesets: Rulesets, b: Blocker)
    requires b in RulesetBlockers(ds, rulesets)
    ensures b.RulesetNotExact?
  {
    var rest, last := ds[..|ds| - 1], ds[|ds| - 1];
    if b in RulesetBlockers(rest, rulesets) { RulesetBlockersOnly(rest, rulesets, b); }
  }

  /** The blockers show whether a sentinel is shadowed. */
  lemma ShadowRaised(fallback: bool, independent: bool, facts: Facts, ds: seq<Ruleset>, rulesets: Rulesets)
    ensures var all := RepositoryBlockers(fallback, independent, facts) + RulesetBlockers(ds, rulesets);
            OrganizationPolicyFallback in all || RepositoryPolicyFallback in all <==> fallback || facts.policyFallback
  {
    var own, rest := RepositoryBlockers(fallback, independent, facts), RulesetBlockers(ds, rulesets);
    if OrganizationPolicyFallback in rest { RulesetBlockersOnly(ds, rulesets, OrganizationPolicyFallback); }
    if RepositoryPolicyFallback in rest { RulesetBlockersOnly(ds, rulesets, RepositoryPolicyFallback); }
    OwnBlocker(fallback, independent, facts, OrganizationPolicyFallback);
    OwnBlocker(fallback, independent, facts, RepositoryPolicyFallback);
  }

  lemma Extended(s: seq<Blocker>, raised: bool, y: Blocker, x: Blocker)
    ensures x in s + When(raised, y) <==> x in s || (raised && x == y)
  {}

  lemma OwnBlocker(fallback: bool, independent: bool, facts: Facts, x: Blocker)
    requires x == OrganizationPolicyFallback || x == RepositoryPolicyFallback
    ensures x in RepositoryBlockers(fallback, independent, facts) <==>
            if x == OrganizationPolicyFallback then fallback else facts.policyFallback
  {
    var a := When(fallback, OrganizationPolicyFallback);
    var b := a + When(!independent, ReviewerUnavailable);
    var c := b + When(!facts.defaultBranch, DefaultBranchNotExact);
    var d := c + When(facts.policyFallback, RepositoryPolicyFallback);
    var e := d + When(facts.organizationVariables, OrganizationVariableFallback);
    var f := e + When(facts.repositoryVariables, RepositoryVariableFallback);
    var g := f + When(facts.organizationSecrets, OrganizationSecretFallback);
    var h := g + When(facts.repositorySecrets, RepositorySecretFallback);
    Extended(a, !independent, ReviewerUnavailable, x);
    Extended(b, !facts.defaultBranch, DefaultBranchNotExact, x);
    Extended(c, facts.policyFallback, RepositoryPolicyFallback, x);
    Extended(d, facts.organizationVariables, OrganizationVariableFallback, x);
    Extended(e, facts.repositoryVariables, RepositoryVariableFallback, x);
    Extended(f, facts.organizationSecrets, OrganizationSecretFallback, x);
    Extended(g, facts.repositorySecrets, RepositorySecretFallback, x);
    Extended(h, !facts.contexts, ContextsNotObserved, x);
  }

  method ScanReviewers(organization: Organization, reviewers: seq<Reviewer>) returns (independent: bool)
    ensures independent <==> Independent(organization, reviewers)
  {
    independent := false;
    for i := 0 to |reviewers|
      invariant independent <==> exists reviewer <- reviewers[..i] :: Distinguished(organization, reviewer)
    {
      assert forall x :: x in reviewers[..i + 1] <==> x in reviewers[..i] || x == reviewers[i];
      if Distinguished(organization, reviewers[i]) { independent := true; }
    }
    assert reviewers[..|reviewers|] == reviewers;
  }

  lemma RepositoriesStep(m: Manifest, reviewers: seq<Reviewer>, selected: set<string>, live: Live, ds: seq<DesiredRepository>, i: nat)
    requires i < |ds| && Observable(ds[..i], selected, live)
    ensures Observable(ds[..i + 1], selected, live) <==> (ds[i].name in selected ==> ds[i].name in live.repositories)
    ensures Observable(ds[..i + 1], selected, live) ==>
              InspectRepositories(m, reviewers, selected, live, ds[..i + 1])
              == if ds[i].name in selected
                 then Join(InspectRepositories(m, reviewers, selected, live, ds[..i]),
                           InspectRepository(m, reviewers, live.organization, ds[i], live.repositories[ds[i].name]))
                 else InspectRepositories(m, reviewers, selected, live, ds[..i])
  {
    assert ds[..i + 1] == ds[..i] + [ds[i]];
    assert ds[i] in ds[..i + 1];
  }

  method ScanRepositories(m: Manifest, reviewers: seq<Reviewer>, selected: set<string>, live: Live, fallback: bool, independent: bool)
    returns (result: Option<Inspection>)
    requires fallback == OrganizationFallback(m, live.organization) && independent == Independent(live.organization, reviewers)
    ensures result.Some? <==> Observable(m.repositories, selected, live)
    ensures result.Some? ==> result.value == InspectRepositories(m, reviewers, selected, live, m.repositories)
  {
    var ds, repositories := m.repositories, NOTHING;
    for i := 0 to |ds|
      invariant Observable(ds[..i], selected, live)
      invariant repositories == InspectRepositories(m, reviewers, selected, live, ds[..i])
    {
      var d := ds[i];
      RepositoriesStep(m, reviewers, selected, live, ds, i);
      if d.name in selected {
        if d.name !in live.repositories {
          assert d in m.repositories;
          return None;
        }
        var own := ScanRepository(m, reviewers, live.organization, d, live.repositories[d.name], fallback, independent);
        repositories := Join(repositories, own);
      }
    }
    assert ds[..|ds|] == ds;
    result := Some(repositories);
  }

  /** `inspect_github`: an error if a selected repository cannot be read. */
  method ScanGitHub(m: Manifest, reviewers: seq<Reviewer>, selected: set<string>, live: Live) returns (result: Option<Inspection>)
    ensures result.Some? <==> Observable(m.repositories, selected, live)
    ensures result.Some? ==> result.value == Inspect(m, reviewers, selected, live)
  {
    var organization := live.organization;
    var independent := ScanReviewers(organization, reviewers);
    var policies, shadowed := ScanPolicies(m.organization, OrganizationVariable, SortedPolicies(AllPolicyVariables(m)), organization.variables.Keys);
    var checks := [Finding(m.organization, Integration, "", Passed)] + policies
      + [Finding(m.organization, ReviewerIndependence, "", Verdict(independent))];
    var fallback := AllPolicyVariables(m) * organization.variables.Keys != {};
    var repositories := ScanRepositories(m, reviewers, selected, live, fallback, independent);
    if repositories.None? { return None; }
    result := Some(Inspection(checks + repositories.value.checks, repositories.value.mutations,
                              fallback || !independent || repositories.value.destructive));
  }

  // ---------------------------------------------------------------- requests and journal

  datatype Verb = PUT | POST | PATCH
  datatype Resource =
    | EnvironmentPath(repository: string, environment: string)
    | VariablesPath(repository: string, environment: string)
    | VariablePath(repository: string, environment: string, name: string)
    | PoliciesPath(repository: string, environment: string)
    | RulesetsPath(repository: string)
    | RulesetPath(repository: string, id: nat)

  /** What evidence records of a request: no body, hence no value. */
  datatype Identity = Identity(verb: Verb, path: Resource, reason: Reason)

  function MutationIdentity(m: Mutation): Identity {
    match m
    case PutEnvironment(r, e, reason, _, _, _) => Identity(PUT, EnvironmentPath(r, e), reason)
    case PostVariable(r, e, reason, _, _) => Identity(POST, VariablesPath(r, e), reason)
    case PatchVariable(r, e, reason, name, _) => Identity(PATCH, VariablePath(r, e, name), reason)
    case PostBranchPolicy(r, e, reason, _) => Identity(POST, PoliciesPath(r, e), reason)
    case PostRuleset(r, reason, _) => Identity(POST, RulesetsPath(r), reason)
    case PutRuleset(r, reason, id, _) => Identity(PUT, RulesetPath(r, id), reason)
  }

  function Identities(plan: seq<Mutation>): seq<Identity> {
    seq(|plan|, i requires 0 <= i < |plan| => MutationIdentity(plan[i]))
  }

  /** What happens to one request on its way: an unacknowledged one took effect all the same. */
  datatype Transport = Delivered | Lost | Unacknowledged

  class GitHub {
    var live: Live

    constructor (live: Live)
      ensures this.live == live
    {
      this.live := live;
    }

    method Send(m: Mutation, transport: Transport) returns (ok: bool)
      modifies this
      ensures ok <==> transport == Delivered && Accepts(old(live), m)
      ensures live == if transport != Lost && Accepts(old(live), m) then Step(old(live), m) else old(live)
    {
      ok := Accepts(live, m) && transport == Delivered;
      if transport != Lost && Accepts(live, m) { live := Step(live, m); }
    }
  }

  class Journal {
    var pending: seq<Mutation>
    var applied: seq<Identity>

    constructor ()
      ensures pending == [] && applied == []
    {
      pending, applied := [], [];
    }
  }

  lemma IdentitiesSplit(plan: seq<Mutation>, k: nat)
    requires k < |plan|
    ensures Identities(plan[..k]) + [MutationIdentity(plan[k])] == Identities(plan[..k + 1])
  {}

  /** `execute_mutations`: sends the pending requests in order until one fails. Whatever happens,
      applied and pending together are the plan, and the live state is the run of a prefix of it:
      the acknowledged requests, or one more when the failing request took effect. */
  method ExecuteMutations(github: GitHub, journal: Journal, transport: nat -> Transport) returns (ok: bool, ghost reached: nat)
    modifies github, journal
    ensures var plan := old(journal.pending);
            && |journal.pending| <= |plan|
            && var sent := |plan| - |journal.pending|;
            && sent <= reached <= sent + 1 && reached <= |plan|
            && journal.pending == plan[sent..]
            && journal.applied == old(journal.applied) + Identities(plan[..sent])
            && github.live == Run(old(github.live), plan[..reached])
            && (ok <==> journal.pending == [])
            && (ok ==> reached == |plan|)
    ensures (forall i :: transport(i) == Delivered)
            && (forall n :: 0 <= n < |old(journal.pending)| ==> Accepts(Run(old(github.live), old(journal.pending)[..n]), old(journal.pending)[n]))
            ==> ok
  {
    ghost var plan, start, applied := journal.pending, github.live, journal.applied;
    reached := 0;
    var sent := 0;
    while journal.pending != []
      invariant sent == reached <= |plan| && journal.pending == plan[reached..]
      invariant journal.applied == applied + Identities(plan[..reached])
      invariant github.live == Run(start, plan[..reached])
      decreases |journal.pending|
    {
      var item := journal.pending[0];
      assert plan[..reached + 1][..reached] == plan[..reached];
      ghost var before := github.live;
      var delivered := github.Send(item, transport(sent));
      if !delivered {
        ok := false;
        if github.live != before { reached := reached + 1; }
        return;
      }
      IdentitiesSplit(plan, reached);
      journal.applied := journal.applied + [MutationIdentity(item)];
      journal.pending := journal.pending[1..];
      reached, sent := reached + 1, sent + 1;
    }
    ok := true;
    assert plan[..|plan|] == plan;
  }

  // ---------------------------------------------------------------- apply

  datatype RunStatus = RunPassed | RunFailed | RunError

  /** `online_evidence` in apply mode, without npm. `reachable` is false when a read fails. The live
      state always ends as the run of a prefix of the plan, so every property of prefixes holds of
      it; a run that does not end in an error has sent the whole plan. */
  method Apply(m: Manifest, reviewers: seq<Reviewer>, selected: set<string>, github: GitHub, journal: Journal,
               transport: nat -> Transport, reachable: bool, stillReachable: bool)
    returns (status: RunStatus, checks: seq<Finding>, ghost reached: nat)
    requires Ready(m, selected, github.live) || !Observable(m.repositories, selected, github.live)
    requires journal.applied == [] && journal.pending == []
    modifies github, journal
    ensures Observable(m.repositories, selected, old(github.live)) ==>
              && reached <= |Plan(m, reviewers, selected, old(github.live))|
              && github.live == After(m, reviewers, selected, old(github.live), reached)
              && (status != RunError ==> reached == |Plan(m, reviewers, selected, old(github.live))|)
    ensures !Observable(m.repositories, selected, old(github.live)) ==> github.live == old(github.live) && status == RunError
    ensures reachable && stillReachable && Observable(m.repositories, selected, old(github.live)) && (forall i :: transport(i) == Delivered)
            ==> status != RunError
    ensures status != RunError ==>
              && Observable(m.repositories, selected, old(github.live))
              && var inspection := Inspect(m, reviewers, selected, old(github.live));
              && (inspection.destructive ==> checks == inspection.checks && journal.pending == [])
              && (!inspection.destructive ==>
                    && Observable(m.repositories, selected, github.live)
                    && checks == Inspect(m, reviewers, selected, github.live).checks
                    && journal.pending == Inspect(m, reviewers, selected, github.live).mutations)
              && (status == RunPassed <==> AllPassed(checks))
  {
    ghost var start := github.live;
    checks, reached := [], 0;
    if !reachable { return RunError, [], 0; }
    var found := ScanGitHub(m, reviewers, selected, github.live);
    if found.None? { return RunError, [], 0; }
    var inspection := found.value;
    checks := inspection.checks;
    journal.pending := Executed(inspection);
    ghost var plan := journal.pending;
    forall n | 0 <= n < |plan| ensures Accepts(Run(start, plan[..n]), plan[n]) {
      PlanAccepted(m, reviewers, selected, start, n);
    }
    var ok;
    ok, reached := ExecuteMutations(github, journal, transport);
    if !ok { return RunError, checks, reached; }
    if !inspection.destructive {
      if !stillReachable { return RunError, checks, reached; }
      RunShell(start, plan[..reached]);
      var remaining := ScanGitHub(m, reviewers, selected, github.live);
      if remaining.None? {
        assert false;
      }
      checks := remaining.value.checks;
      journal.pending := remaining.value.mutations;
    }
    if forall check <- checks :: check.status == Passed { status := RunPassed; } else { status := RunFailed; }
  }
}
