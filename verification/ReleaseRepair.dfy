/** Destructive drift is drift that nothing added can repair. Adding means: more reviewers, branch
    policies, variables, secrets, rules, rulesets and environments. The self-review flag and the value of
    a sentinel are free, and enforcement may be switched on; nothing is removed and nothing else changed. */
module ReleaseRepair {
  import opened Options
  import opened ReleaseState
  import opened ReleaseInspect
  import opened ReleaseExactness
  import opened ReleaseMeaning
  import RS = ReleaseRulesets
  import RE = ReleaseEnvironments
  import RP = ReleasePlan

  // ---------------------------------------------------------------- adding

  ghost predicate AddsEnvironment(o: Environment, n: Environment) {
    && o.reviewers <= n.reviewers && multiset(o.branchPolicies) <= multiset(n.branchPolicies)
    && o.variables.Keys <= n.variables.Keys && o.secrets <= n.secrets
    && (forall x :: x in o.variables && x !in SENTINELS ==> n.variables[x] == o.variables[x])
    && o.adminsBypass == n.adminsBypass && o.waitTimer == n.waitTimer && o.branchMode == n.branchMode
  }

  ghost predicate AddsEnvironments(o: map<string, Environment>, n: map<string, Environment>) {
    forall e :: e in o ==> e in n && AddsEnvironment(o[e], n[e])
  }

  /** Status contexts are observed, not configured; they stay. */
  ghost predicate AddsRepository(o: Repository, n: Repository) {
    && o.isPrivate == n.isPrivate && o.defaultBranch == n.defaultBranch && o.contexts == n.contexts
    && o.variables <= n.variables && o.secrets <= n.secrets
    && RS.Grows(o.rulesets, n.rulesets) && AddsEnvironments(o.environments, n.environments)
  }

  ghost predicate Adds(before: Live, after: Live) {
    && before.organization == after.organization
    && forall r :: r in before.repositories ==> r in after.repositories && AddsRepository(before.repositories[r], after.repositories[r])
  }

  /** Something reached by adding equals the desired state. */
  ghost predicate Repairable(m: Manifest, reviewers: seq<Reviewer>, selected: set<string>, live: Live) {
    exists after :: Adds(live, after) && Observable(m.repositories, selected, after) && AllExact(m, reviewers, selected, after)
  }

  /** The environment accepts releases. */
  predicate Accepts(m: Manifest, live: Live, i: nat, k: nat)
    requires i < |m.repositories| && k < |m.repositories[i].environments|
  {
    At(m, live, i, k).Some? && Sealed(m.repositories[i].environments[k], At(m, live, i, k).value)
  }

  /** The repository and its organization equal the desired state. An environment that is to have no
      reviewers needs no reviewer other than the actor. */
  ghost predicate AboveAsDesired(m: Manifest, reviewers: seq<Reviewer>, live: Live, i: nat, profile: bool)
    requires i < |m.repositories| && m.repositories[i].name in live.repositories
  {
    var d := m.repositories[i];
    && NoSentinels(m, live.organization)
    && (profile || exists reviewer :: reviewer in reviewers && Distinguished(live.organization, reviewer))
    && RepositoryAsDesired(m, live.organization, d, live.repositories[d.name])
    && RulesetsAsDesired(d.rulesets, live.repositories[d.name].rulesets)
  }

  /** The environment and everything above it equal the desired state. */
  ghost predicate PlaceAsDesired(m: Manifest, reviewers: seq<Reviewer>, live: Live, i: nat, k: nat)
    requires i < |m.repositories| && m.repositories[i].name in live.repositories && k < |m.repositories[i].environments|
  {
    var d := m.repositories[i];
    && AboveAsDesired(m, reviewers, live, i, d.environments[k].profile)
    && EnvironmentAsDesired(Reviewers(reviewers), d.environments[k], live.repositories[d.name].environments)
  }

  /** Some selected environment accepts releases although its place is not as desired. */
  ghost predicate LeaseHeld(m: Manifest, reviewers: seq<Reviewer>, selected: set<string>, live: Live)
    requires Observable(m.repositories, selected, live)
  {
    exists i: nat, k: nat :: Chosen(m, selected, i, k) && m.repositories[i].name in live.repositories &&
      Accepts(m, live, i, k) && !PlaceAsDesired(m, reviewers, live, i, k)
  }

  // ---------------------------------------------------------------- what blocks a seal

  lemma ScopedNext(profile: bool, blockers: seq<Blocker>, raised: bool, b: Blocker)
    ensures Scoped(profile, blockers + When(raised, b)) == [] <==>
            Scoped(profile, blockers) == [] && (raised ==> profile && b == ReviewerUnavailable)
  {
    if raised {
      assert (blockers + [b])[..|blockers|] == blockers;
    } else {
      assert blockers + When(raised, b) == blockers;
    }
  }

  lemma ScopedThree(profile: bool, blockers: seq<Blocker>, r1: bool, b1: Blocker, r2: bool, b2: Blocker, r3: bool, b3: Blocker)
    requires b1 != ReviewerUnavailable && b2 != ReviewerUnavailable && b3 != ReviewerUnavailable
    ensures Scoped(profile, blockers + When(r1, b1) + When(r2, b2) + When(r3, b3)) == [] <==>
            Scoped(profile, blockers) == [] && !r1 && !r2 && !r3
  {
    ScopedNext(profile, blockers, r1, b1);
    ScopedNext(profile, blockers + When(r1, b1), r2, b2);
    ScopedNext(profile, blockers + When(r1, b1) + When(r2, b2), r3, b3);
  }

  lemma ScopedFirst(profile: bool, fallback: bool, independent: bool)
    ensures Scoped(profile, When(fallback, OrganizationPolicyFallback) + When(!independent, ReviewerUnavailable)) == [] <==>
            !fallback && (profile || independent)
  {
    assert [] + When(fallback, OrganizationPolicyFallback) == When(fallback, OrganizationPolicyFallback);
    ScopedNext(profile, [], fallback, OrganizationPolicyFallback);
    ScopedNext(profile, When(fallback, OrganizationPolicyFallback), !independent, ReviewerUnavailable);
  }

  lemma RepositoryUnblocked(profile: bool, fallback: bool, independent: bool, facts: Facts)
    ensures Scoped(profile, RepositoryBlockers(fallback, independent, facts)) == [] <==> !fallback && (profile || independent) && facts.Clean()
  {
    var a := When(fallback, OrganizationPolicyFallback) + When(!independent, ReviewerUnavailable);
    ScopedFirst(profile, fallback, independent);
    FactsUnblocked(profile, a, facts);
  }

  lemma FactsUnblocked(profile: bool, a: seq<Blocker>, facts: Facts)
    ensures Scoped(profile, a + When(!facts.defaultBranch, DefaultBranchNotExact) + When(facts.policyFallback, RepositoryPolicyFallback)
                            + When(facts.organizationVariables, OrganizationVariableFallback)
                            + When(facts.repositoryVariables, RepositoryVariableFallback)
                            + When(facts.organizationSecrets, OrganizationSecretFallback)
                            + When(facts.repositorySecrets, RepositorySecretFallback) + When(!facts.contexts, ContextsNotObserved)) == []
            <==> Scoped(profile, a) == [] && facts.Clean()
  {
    var b := a + When(!facts.defaultBranch, DefaultBranchNotExact) + When(facts.policyFallback, RepositoryPolicyFallback)
             + When(facts.organizationVariables, OrganizationVariableFallback);
    var c := b + When(facts.repositoryVariables, RepositoryVariableFallback) + When(facts.organizationSecrets, OrganizationSecretFallback)
             + When(facts.repositorySecrets, RepositorySecretFallback);
    ScopedThree(profile, a, !facts.defaultBranch, DefaultBranchNotExact, facts.policyFallback, RepositoryPolicyFallback,
                facts.organizationVariables, OrganizationVariableFallback);
    ScopedThree(profile, b, facts.repositoryVariables, RepositoryVariableFallback, facts.organizationSecrets, OrganizationSecretFallback,
                facts.repositorySecrets, RepositorySecretFallback);
    ScopedNext(profile, c, !facts.contexts, ContextsNotObserved);
  }

  lemma RulesetsUnblocked(ds: seq<Ruleset>, rulesets: Rulesets)
    requires RS.Named(ds)
    ensures RulesetBlockers(ds, rulesets) == [] <==> RulesetsAsDesired(ds, rulesets)
  {
    RS.NoBlockers(ds, rulesets);
    RulesetsMatch(ds, rulesets);
    if RulesetsExact(ds, rulesets) {
      forall d | d in ds ensures Classify(rulesets, d) == Exact {
        var j :| 0 <= j < |ds| && ds[j] == d;
      }
    }
  }

  /** Above the environment nothing blocks its seal exactly when its repository and its organization are as
      desired. */
  lemma SceneClear(m: Manifest, reviewers: seq<Reviewer>, live: Live, i: nat, profile: bool)
    requires i < |m.repositories| && m.repositories[i].Valid() && m.repositories[i].name in live.repositories
    ensures Scoped(profile, SceneAt(m, reviewers, live, i).blockers) == [] <==> AboveAsDesired(m, reviewers, live, i, profile)
  {
    var d := m.repositories[i];
    var repository := live.repositories[d.name];
    PartsValid(d);
    NoSentinelAbove(m, live.organization);
    FactsAsDesired(m, live.organization, d, repository);
    SceneBlockers(m, reviewers, live, i, profile);
    RepositoryUnblocked(profile, OrganizationFallback(m, live.organization), Independent(live.organization, reviewers),
                        RepositoryFacts(m, live.organization, d, repository));
    RulesetsUnblocked(d.rulesets, repository.rulesets);
  }

  lemma UnblockedAsDesired(scene: Scene, d: DesiredEnvironment, environments: map<string, Environment>)
    requires d.Valid() && d.name in environments && Sealed(d, environments[d.name])
    ensures EnvironmentBlockers(scene, d, environments[d.name]) == [] <==>
            Scoped(d.profile, scene.blockers) == [] && EnvironmentAsDesired(scene.reviewers, d, environments)
  {
    RE.UnblockedIsExact(scene, d, environments[d.name]);
  }

  /** An accepting environment is blocked exactly when its place is not as desired. */
  lemma SealedBlockedMeans(m: Manifest, reviewers: seq<Reviewer>, live: Live, i: nat, k: nat)
    requires i < |m.repositories| && m.repositories[i].Valid() && k < |m.repositories[i].environments|
    requires m.repositories[i].name in live.repositories
    ensures SealedBlocked(m, reviewers, live, i, k) <==> Accepts(m, live, i, k) && !PlaceAsDesired(m, reviewers, live, i, k)
  {
    if Accepts(m, live, i, k) {
      var d, scene := m.repositories[i], SceneAt(m, reviewers, live, i);
      PartsValid(d);
      SceneFacts(m, reviewers, live, i);
      SceneClear(m, reviewers, live, i, d.environments[k].profile);
      UnblockedAsDesired(scene, d.environments[k], live.repositories[d.name].environments);
    }
  }

  // ---------------------------------------------------------------- what can be repaired has no drift

  lemma RepositoryBefore(m: Manifest, organization: Organization, d: DesiredRepository, o: Repository, n: Repository)
    requires AddsRepository(o, n) && RepositoryAsDesired(m, organization, d, n)
    ensures RepositoryAsDesired(m, organization, d, o)
  {
    forall e, name | e in d.environments && name in e.allowedVariables
      ensures !Provides(name, o.variables, organization.variables, o.isPrivate, FullName(m, d))
    {
      assert !Provides(name, n.variables, organization.variables, n.isPrivate, FullName(m, d));
    }
    forall e, name | e in d.environments && name in e.allowedSecrets
      ensures !Provides(name, o.secrets, organization.secrets, o.isPrivate, FullName(m, d))
    {
      assert !Provides(name, n.secrets, organization.secrets, n.isPrivate, FullName(m, d));
    }
    forall name | name in m.forbiddenSecrets ensures !Provides(name, o.secrets, organization.secrets, o.isPrivate, FullName(m, d)) {
      assert !Provides(name, n.secrets, organization.secrets, n.isPrivate, FullName(m, d));
    }
  }

  lemma FewerRules(o: seq<Rule>, n: seq<Rule>, d: seq<Rule>)
    requires Distinct(d) && multiset(o) <= multiset(n) && multiset(n) == multiset(d)
    ensures Distinct(o) && RuleSet(o) <= RuleSet(d)
  {
    forall x ensures multiset(o)[x] <= 1 { RS.DistinctCount(d, x); }
    CountedOnce(o);
    RS.DistinctSubset(o, d);
  }

  lemma RulesetBefore(d: Ruleset, o: Rulesets, n: Rulesets)
    requires d.active && Distinct(d.rules) && RS.Grows(o, n) && RulesetAsDesired(d, n)
    ensures Classify(o, d) != Unmanageable
  {
    var id :|
      && id in n.entries && n.entries[id].observable && SameRuleset(n.entries[id].body, d)
      && forall other :: other in n.entries && n.entries[other].body.name == d.name ==> other == id;
    SameHeads(n.entries[id].body, d);
    var ids := Matches(o, d.name);
    forall other | other in ids ensures other == id { assert other in n.entries; }
    if ids != {} {
      assert ids == {id} && TheOnly(ids) == id;
      FewerRules(o.entries[id].body.rules, n.entries[id].body.rules, d.rules);
    }
  }

  lemma TwoPolicies(o: seq<BranchPolicy>)
    requires |o| >= 2
    ensures !(multiset(o) <= multiset([MAIN_POLICY]))
  {
    assert o == [o[0], o[1]] + o[2..];
    assert multiset(o)[o[0]] >= 1 && multiset(o)[o[1]] >= 1;
    if o[0] == MAIN_POLICY && o[1] == MAIN_POLICY { assert multiset(o)[MAIN_POLICY] >= 2; }
  }

  lemma PoliciesBefore(o: seq<BranchPolicy>)
    requires multiset(o) <= multiset([MAIN_POLICY])
    ensures o == [] || o == [MAIN_POLICY]
  {
    if |o| >= 2 { TwoPolicies(o); }
    if |o| == 1 { assert o == [o[0]] && o[0] in multiset(o); }
  }

  lemma EnvironmentBefore(scene: Scene, d: DesiredEnvironment, o: Environment, n: Environment)
    requires d.Valid() && AddsEnvironment(o, n) && RE.Project(d, n) == RE.DesiredProjection(d, Expected(scene, d))
    ensures !ProtectionDrift(scene, d, o) && !InventoryDrift(d, o)
  {
    var p := RE.Project(d, n);
    assert p.branchPolicies == [MAIN_POLICY] && p.configuration == d.requiredVariables;
    PoliciesBefore(o.branchPolicies);
    forall x | x in o.variables.Keys - {d.PolicyVariable()} ensures x in d.allowedVariables {
      assert x in n.variables.Keys - {d.PolicyVariable()};
    }
  }

  /** Whatever is sealed is not blocked. */
  ghost predicate SealedUnblocked(scene: Scene, ds: seq<DesiredEnvironment>, environments: map<string, Environment>) {
    forall k :: 0 <= k < |ds| && ds[k].name in environments && Sealed(ds[k], environments[ds[k].name]) ==>
      EnvironmentBlockers(scene, ds[k], environments[ds[k].name]) == []
  }

  lemma NoLease(m: Manifest, reviewers: seq<Reviewer>, selected: set<string>, live: Live, i: nat)
    requires i < |m.repositories| && m.repositories[i].name in selected && m.repositories[i].name in live.repositories
    requires forall k: nat :: Chosen(m, selected, i, k) ==> !SealedBlocked(m, reviewers, live, i, k)
    ensures SealedUnblocked(SceneAt(m, reviewers, live, i), m.repositories[i].environments, live.repositories[m.repositories[i].name].environments)
  {
    var ds, r := m.repositories[i].environments, m.repositories[i].name;
    var environments := live.repositories[r].environments;
    forall k: nat | k < |ds| && ds[k].name in environments && Sealed(ds[k], environments[ds[k].name])
      ensures EnvironmentBlockers(SceneAt(m, reviewers, live, i), ds[k], environments[ds[k].name]) == []
    {
      assert Chosen(m, selected, i, k);
      assert At(m, live, i, k) == Some(environments[ds[k].name]);
    }
  }

  lemma EnvironmentsBefore(scene: Scene, ds: seq<DesiredEnvironment>, o: map<string, Environment>, n: map<string, Environment>)
    requires forall k :: 0 <= k < |ds| ==> ds[k].Valid()
    requires AddsEnvironments(o, n) && EnvironmentsAsDesired(scene.reviewers, ds, n) && !scene.shadow
    requires SealedUnblocked(scene, ds, o)
    ensures EnvironmentsDriftFree(scene, ds, o)
  {
    forall k | 0 <= k < |ds| && ds[k].name in o ensures !EnvironmentDestructive(scene, ds[k], o[ds[k].name]) {
      assert EnvironmentAsDesired(scene.reviewers, ds[k], n);
      EnvironmentBefore(scene, ds[k], o[ds[k].name], n[ds[k].name]);
    }
  }

  lemma RulesetsBefore(ds: seq<Ruleset>, o: Rulesets, n: Rulesets)
    requires RS.Named(ds) && RS.Grows(o, n) && RulesetsAsDesired(ds, n)
    ensures RulesetsDriftFree(ds, o)
  {
    forall j | 0 <= j < |ds| ensures Classify(o, ds[j]) != Unmanageable {
      assert ds[j] in ds;
      RulesetBefore(ds[j], o, n);
    }
  }

  /** The scene of a repository without fallbacks is not shadowed. */
  lemma SceneFacts(m: Manifest, reviewers: seq<Reviewer>, live: Live, i: nat)
    requires i < |m.repositories| && m.repositories[i].name in live.repositories
    ensures var facts := RepositoryFacts(m, live.organization, m.repositories[i], live.repositories[m.repositories[i].name]);
            var scene := SceneAt(m, reviewers, live, i);
            scene.reviewers == Reviewers(reviewers) && (scene.shadow <==> OrganizationFallback(m, live.organization) || facts.policyFallback)
  {}

  lemma SelectedBefore(m: Manifest, reviewers: seq<Reviewer>, selected: set<string>, live: Live, after: Live, i: nat)
    requires i < |m.repositories| && m.repositories[i].Valid() && m.repositories[i].name in selected
    requires m.repositories[i].name in live.repositories && m.repositories[i].name in after.repositories
    requires Adds(live, after) && SelectedAsDesired(m, Reviewers(reviewers), after, i)
    requires !OrganizationFallback(m, live.organization)
    requires forall k: nat :: Chosen(m, selected, i, k) ==> !SealedBlocked(m, reviewers, live, i, k)
    ensures RepositoryDriftFree(SceneAt(m, reviewers, live, i), RepositoryFacts(m, live.organization, m.repositories[i], live.repositories[m.repositories[i].name]),
                                m.repositories[i], live.repositories[m.repositories[i].name])
  {
    var d, scene := m.repositories[i], SceneAt(m, reviewers, live, i);
    var o, n := live.repositories[d.name], after.repositories[d.name];
    PartsValid(d);
    RepositoryBefore(m, live.organization, d, o, n);
    FactsAsDesired(m, live.organization, d, o);
    SceneFacts(m, reviewers, live, i);
    RulesetsBefore(d.rulesets, o.rulesets, n.rulesets);
    NoLease(m, reviewers, selected, live, i);
    EnvironmentsBefore(scene, d.environments, o.environments, n.environments);
  }

  lemma RepairableIsDriftFree(m: Manifest, reviewers: seq<Reviewer>, selected: set<string>, live: Live, after: Live)
    requires m.Valid() && Observable(m.repositories, selected, live) && Observable(m.repositories, selected, after)
    requires Adds(live, after) && AllExact(m, reviewers, selected, after) && !LeaseHeld(m, reviewers, selected, live)
    ensures DriftFree(m, reviewers, selected, live)
  {
    OrganizationMatches(m, reviewers, live.organization);
    forall i | 0 <= i < |m.repositories| && m.repositories[i].name in selected
      ensures m.repositories[i].name in live.repositories
      ensures RepositoryDriftFree(SceneAt(m, reviewers, live, i), RepositoryFacts(m, live.organization, m.repositories[i], live.repositories[m.repositories[i].name]),
                                  m.repositories[i], live.repositories[m.repositories[i].name])
    {
      assert m.repositories[i] in m.repositories && m.repositories[i].Valid();
      forall k: nat | Chosen(m, selected, i, k) ensures !SealedBlocked(m, reviewers, live, i, k) {
        SealedBlockedMeans(m, reviewers, live, i, k);
      }
      SelectedBefore(m, reviewers, selected, live, after, i);
    }
  }

  // ---------------------------------------------------------------- what has no drift can be repaired

  function Put<V>(base: map<string, V>, keys: seq<string>, values: seq<V>): map<string, V>
    requires |keys| == |values|
  {
    if keys == [] then base
    else Put(base, keys[..|keys| - 1], values[..|keys| - 1])[keys[|keys| - 1] := values[|keys| - 1]]
  }

  lemma {:induction false} PutAt<V>(base: map<string, V>, keys: seq<string>, values: seq<V>, i: nat)
    requires |keys| == |values| && i < |keys| && forall a, b :: 0 <= a < b < |keys| ==> keys[a] != keys[b]
    ensures keys[i] in Put(base, keys, values) && Put(base, keys, values)[keys[i]] == values[i]
  {
    if i < |keys| - 1 { PutAt(base, keys[..|keys| - 1], values[..|keys| - 1], i); }
  }

  lemma {:induction false} PutElse<V>(base: map<string, V>, keys: seq<string>, values: seq<V>, x: string)
    requires |keys| == |values| && x !in keys
    ensures x in Put(base, keys, values) <==> x in base
    ensures x in base ==> Put(base, keys, values)[x] == base[x]
  {
    if keys != [] {
      assert keys == keys[..|keys| - 1] + [keys[|keys| - 1]];
      PutElse(base, keys[..|keys| - 1], values[..|keys| - 1], x);
    }
  }

  function FreshVariables(d: DesiredEnvironment): map<string, string> {
    map x | x in d.requiredVariables :: ""
  }

  /** The environment completed: what it lacks is added, and its sentinel accepts. */
  function CompletedEnvironment(reviewers: set<Reviewer>, d: DesiredEnvironment, environment: Option<Environment>): Environment {
    var expected := if d.profile then {} else reviewers;
    match environment
    case None =>
      Environment(false, expected, d.preventSelfReview, 0, EXACT_MODE, [MAIN_POLICY],
                  FreshVariables(d)[d.PolicyVariable() := d.policyId], d.requiredSecrets)
    case Some(e) =>
      e.(reviewers := expected, preventSelfReview := d.preventSelfReview, branchPolicies := [MAIN_POLICY],
         variables := (FreshVariables(d) + e.variables)[d.PolicyVariable() := d.policyId], secrets := d.requiredSecrets)
  }

  lemma CompletedIsDesired(scene: Scene, d: DesiredEnvironment, environment: Option<Environment>)
    requires d.Valid() && (environment.Some? ==> !ProtectionDrift(scene, d, environment.value) && !InventoryDrift(d, environment.value))
    ensures var n := CompletedEnvironment(scene.reviewers, d, environment);
            && RE.Project(d, n) == RE.DesiredProjection(d, Expected(scene, d)) && Sealed(d, n)
            && (environment.Some? ==> AddsEnvironment(environment.value, n))
  {
    var n := CompletedEnvironment(scene.reviewers, d, environment);
    assert n.variables.Keys - {d.PolicyVariable()} == d.requiredVariables by {
      if environment.Some? {
        forall x | x in environment.value.variables.Keys - {d.PolicyVariable()} ensures x in d.requiredVariables {
          assert x !in UnknownVariables(d, environment.value);
        }
      }
    }
  }

  function CompletedEnvironments(reviewers: set<Reviewer>, ds: seq<DesiredEnvironment>, environments: map<string, Environment>): map<string, Environment> {
    Put(environments, seq(|ds|, k requires 0 <= k < |ds| => ds[k].name),
        seq(|ds|, k requires 0 <= k < |ds| => CompletedEnvironment(reviewers, ds[k], RP.Find(environments, ds[k].name))))
  }

  lemma EnvironmentsCompleted(scene: Scene, ds: seq<DesiredEnvironment>, environments: map<string, Environment>)
    requires forall k :: 0 <= k < |ds| ==> ds[k].Valid()
    requires forall i, j :: 0 <= i < j < |ds| ==> ds[i].name != ds[j].name
    requires EnvironmentsDriftFree(scene, ds, environments)
    ensures EnvironmentsAsDesired(scene.reviewers, ds, CompletedEnvironments(scene.reviewers, ds, environments))
    ensures AddsEnvironments(environments, CompletedEnvironments(scene.reviewers, ds, environments))
  {
    var keys := seq(|ds|, k requires 0 <= k < |ds| => ds[k].name);
    var values := seq(|ds|, k requires 0 <= k < |ds| => CompletedEnvironment(scene.reviewers, ds[k], RP.Find(environments, ds[k].name)));
    forall k | 0 <= k < |ds| ensures EnvironmentAsDesired(scene.reviewers, ds[k], Put(environments, keys, values)) {
      PutAt(environments, keys, values, k);
      CompletedIsDesired(scene, ds[k], RP.Find(environments, ds[k].name));
    }
    forall e | e in environments
      ensures e in Put(environments, keys, values) && AddsEnvironment(environments[e], Put(environments, keys, values)[e])
    {
      if e in keys {
        var k :| 0 <= k < |keys| && keys[k] == e;
        PutAt(environments, keys, values, k);
        CompletedIsDesired(scene, ds[k], RP.Find(environments, ds[k].name));
      } else {
        PutElse(environments, keys, values, e);
      }
    }
  }

  lemma RulesetPlan(r: string, ds: seq<Ruleset>, rulesets: Rulesets)
    ensures forall s :: s in InspectRulesets(r, ds, rulesets).mutations ==> s.OnRulesets() && RS.Planned(ds, rulesets, s)
  {
    forall s | s in InspectRulesets(r, ds, rulesets).mutations ensures s.OnRulesets() && RS.Planned(ds, rulesets, s) {
      RS.PlannedMember(r, ds, rulesets, s);
    }
  }

  /** The rulesets completed: the planned requests add what is missing. */
  function CompletedRulesets(r: string, ds: seq<Ruleset>, rulesets: Rulesets): Rulesets {
    RulesetPlan(r, ds, rulesets);
    RunRulesets(rulesets, InspectRulesets(r, ds, rulesets).mutations)
  }

  lemma RulesetsCompleted(r: string, ds: seq<Ruleset>, rulesets: Rulesets)
    requires RS.Named(ds) && RS.Fresh(rulesets) && RulesetsDriftFree(ds, rulesets)
    ensures RulesetsAsDesired(ds, CompletedRulesets(r, ds, rulesets)) && RS.Grows(rulesets, CompletedRulesets(r, ds, rulesets))
  {
    var plan, after := InspectRulesets(r, ds, rulesets).mutations, CompletedRulesets(r, ds, rulesets);
    RulesetPlan(r, ds, rulesets);
    RS.RunAdvances(ds, rulesets, plan);
    RS.RunGrows(ds, rulesets, plan, 0);
    assert plan[..0] == [];
    forall j | 0 <= j < |ds| ensures Classify(after, ds[j]) == Exact { RS.DoneExact(r, ds, rulesets, after, ds[j]); }
    RulesetsMatch(ds, after);
  }

  function CompletedRepository(reviewers: set<Reviewer>, d: DesiredRepository, repository: Repository): Repository {
    repository.(rulesets := CompletedRulesets(d.name, d.rulesets, repository.rulesets),
                environments := CompletedEnvironments(reviewers, d.environments, repository.environments))
  }

  lemma RepositoryCompleted(m: Manifest, organization: Organization, scene: Scene, d: DesiredRepository, repository: Repository)
    requires d.Valid() && RS.Fresh(repository.rulesets)
    requires RepositoryDriftFree(scene, RepositoryFacts(m, organization, d, repository), d, repository)
    ensures var n := CompletedRepository(scene.reviewers, d, repository);
            && AddsRepository(repository, n)
            && RepositoryAsDesired(m, organization, d, n)
            && RulesetsAsDesired(d.rulesets, n.rulesets) && EnvironmentsAsDesired(scene.reviewers, d.environments, n.environments)
  {
    PartsValid(d);
    RulesetsCompleted(d.name, d.rulesets, repository.rulesets);
    EnvironmentsCompleted(scene, d.environments, repository.environments);
    FactsAsDesired(m, organization, d, repository);
    FactsAsDesired(m, organization, d, CompletedRepository(scene.reviewers, d, repository));
  }

  function Lookup(ds: seq<DesiredRepository>, name: string): Option<DesiredRepository> {
    if ds == [] then None else if ds[0].name == name then Some(ds[0]) else Lookup(ds[1..], name)
  }

  lemma {:induction false} LookupFinds(ds: seq<DesiredRepository>, i: nat)
    requires i < |ds| && forall a, b :: 0 <= a < b < |ds| ==> ds[a].name != ds[b].name
    ensures Lookup(ds, ds[i].name) == Some(ds[i])
  {
    if i > 0 { LookupFinds(ds[1..], i - 1); }
  }

  lemma {:induction false} LookupMember(ds: seq<DesiredRepository>, name: string) returns (i: nat)
    requires Lookup(ds, name).Some?
    ensures i < |ds| && ds[i] == Lookup(ds, name).value && ds[i].name == name
  {
    if ds[0].name == name { i := 0; } else { var j := LookupMember(ds[1..], name); i := j + 1; }
  }

  function CompletedAt(m: Manifest, reviewers: set<Reviewer>, selected: set<string>, live: Live, r: string): Repository
    requires r in live.repositories
  {
    if r in selected && Lookup(m.repositories, r).Some?
    then CompletedRepository(reviewers, Lookup(m.repositories, r).value, live.repositories[r])
    else live.repositories[r]
  }

  /** Everything selected completed. */
  function Completed(m: Manifest, reviewers: set<Reviewer>, selected: set<string>, live: Live): Live {
    live.(repositories := map r | r in live.repositories :: CompletedAt(m, reviewers, selected, live, r))
  }

  lemma SelectedCompleted(m: Manifest, reviewers: seq<Reviewer>, selected: set<string>, live: Live, i: nat)
    requires Ready(m, selected, live) && DriftFree(m, reviewers, selected, live)
    requires i < |m.repositories| && m.repositories[i].name in selected
    ensures m.repositories[i].name in live.repositories
    ensures var after := Completed(m, Reviewers(reviewers), selected, live);
            && SelectedAsDesired(m, Reviewers(reviewers), after, i)
            && AddsRepository(live.repositories[m.repositories[i].name], after.repositories[m.repositories[i].name])
  {
    var d := m.repositories[i];
    assert d in m.repositories && d.Valid();
    LookupFinds(m.repositories, i);
    SceneFacts(m, reviewers, live, i);
    RepositoryCompleted(m, live.organization, SceneAt(m, reviewers, live, i), d, live.repositories[d.name]);
  }

  lemma EnvironmentsUnchanged(environments: map<string, Environment>)
    ensures AddsEnvironments(environments, environments)
  {}

  lemma Unchanged(repository: Repository)
    ensures AddsRepository(repository, repository)
  {
    EnvironmentsUnchanged(repository.environments);
  }

  lemma DriftFreeIsRepairable(m: Manifest, reviewers: seq<Reviewer>, selected: set<string>, live: Live)
    requires Ready(m, selected, live) && DriftFree(m, reviewers, selected, live)
    ensures Repairable(m, reviewers, selected, live)
  {
    var after := Completed(m, Reviewers(reviewers), selected, live);
    forall r | r in live.repositories ensures AddsRepository(live.repositories[r], after.repositories[r]) {
      if r in selected && Lookup(m.repositories, r).Some? {
        var i := LookupMember(m.repositories, r);
        SelectedCompleted(m, reviewers, selected, live, i);
      } else {
        Unchanged(live.repositories[r]);
      }
    }
    forall i | 0 <= i < |m.repositories| && m.repositories[i].name in selected
      ensures m.repositories[i].name in after.repositories && SelectedAsDesired(m, Reviewers(reviewers), after, i)
    {
      SelectedCompleted(m, reviewers, selected, live, i);
    }
    OrganizationMatches(m, reviewers, live.organization);
    assert Adds(live, after);
    assert Observable(m.repositories, selected, after);
    assert AllExact(m, reviewers, selected, after);
  }

  lemma DriftFreeHoldsNoLease(m: Manifest, reviewers: seq<Reviewer>, selected: set<string>, live: Live)
    requires m.Valid() && Observable(m.repositories, selected, live) && DriftFree(m, reviewers, selected, live)
    ensures !LeaseHeld(m, reviewers, selected, live)
  {
    forall i: nat, k: nat | Chosen(m, selected, i, k) && m.repositories[i].name in live.repositories
      ensures !(Accepts(m, live, i, k) && !PlaceAsDesired(m, reviewers, live, i, k))
    {
      var d := m.repositories[i];
      assert d in m.repositories && d.Valid();
      SealedBlockedMeans(m, reviewers, live, i, k);
      assert EnvironmentsDriftFree(SceneAt(m, reviewers, live, i), d.environments, live.repositories[d.name].environments);
    }
  }

  /** The destructive flag is raised exactly when nothing reached by adding equals the desired state, or
      a selected environment accepts releases while its place is not as desired. */
  lemma DestructiveMeans(m: Manifest, reviewers: seq<Reviewer>, selected: set<string>, live: Live)
    requires Ready(m, selected, live)
    ensures Inspect(m, reviewers, selected, live).destructive <==>
            !Repairable(m, reviewers, selected, live) || LeaseHeld(m, reviewers, selected, live)
  {
    DestructiveIsDrift(m, reviewers, selected, live);
    if DriftFree(m, reviewers, selected, live) {
      DriftFreeIsRepairable(m, reviewers, selected, live);
      DriftFreeHoldsNoLease(m, reviewers, selected, live);
    } else if Repairable(m, reviewers, selected, live) && !LeaseHeld(m, reviewers, selected, live) {
      var after :| Adds(live, after) && Observable(m.repositories, selected, after) && AllExact(m, reviewers, selected, after);
      RepairableIsDriftFree(m, reviewers, selected, live, after);
    }
  }
}
