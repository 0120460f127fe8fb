/** What a whole inspection says: when it passes, and when it reports destructive drift. */
module ReleaseExactness {
  import opened Options
  import opened ReleaseState
  import opened ReleaseInspect
  import opened ReleasePlan
  import RS = ReleaseRulesets
  import RE = ReleaseEnvironments

  /** The manifest is valid, the selection can be read, and ruleset ids are issued in order. */
  ghost predicate Ready(m: Manifest, selected: set<string>, live: Live) {
    && m.Valid() && Observable(m.repositories, selected, live)
    && forall d <- m.repositories :: d.name in selected ==> RS.Fresh(live.repositories[d.name].rulesets)
  }

  /** `i`, `k` name an environment of a selected repository. */
  predicate Chosen(m: Manifest, selected: set<string>, i: nat, k: nat) {
    i < |m.repositories| && m.repositories[i].name in selected && k < |m.repositories[i].environments|
  }

  /** The requests `apply` sends in the state `live`. */
  function Plan(m: Manifest, reviewers: seq<Reviewer>, selected: set<string>, live: Live): seq<Mutation>
    requires Observable(m.repositories, selected, live)
  {
    Executed(Inspect(m, reviewers, selected, live))
  }

  /** The state after the first `n` of them. */
  function After(m: Manifest, reviewers: seq<Reviewer>, selected: set<string>, live: Live, n: nat): Live
    requires Observable(m.repositories, selected, live)
    requires n <= |Plan(m, reviewers, selected, live)|
  {
    Run(live, Plan(m, reviewers, selected, live)[..n])
  }

  function SceneAt(m: Manifest, reviewers: seq<Reviewer>, live: Live, i: nat): Scene
    requires i < |m.repositories| && m.repositories[i].name in live.repositories
  {
    SceneOf(m, reviewers, live.organization, m.repositories[i], live.repositories[m.repositories[i].name])
  }

  function At(m: Manifest, live: Live, i: nat, k: nat): Option<Environment>
    requires i < |m.repositories| && k < |m.repositories[i].environments|
  {
    EnvironmentAt(live, m.repositories[i].name, m.repositories[i].environments[k].name)
  }

  /** The environment accepts releases although something blocks its seal. */
  ghost predicate SealedBlocked(m: Manifest, reviewers: seq<Reviewer>, live: Live, i: nat, k: nat)
    requires i < |m.repositories| && k < |m.repositories[i].environments|
    requires m.repositories[i].name in live.repositories
  {
    && At(m, live, i, k).Some?
    && Sealed(m.repositories[i].environments[k], At(m, live, i, k).value)
    && EnvironmentBlockers(SceneAt(m, reviewers, live, i), m.repositories[i].environments[k], At(m, live, i, k).value) != []
  }

  // ---------------------------------------------------------------- membership

  lemma {:induction false} InQuarantines(plan: seq<Mutation>, s: Mutation)
    ensures s in Quarantines(plan) <==> s in plan && IsQuarantine(s.reason)
  {
    if plan != [] {
      InQuarantines(plan[..|plan| - 1], s);
      assert plan == plan[..|plan| - 1] + [plan[|plan| - 1]];
    }
  }

  lemma {:induction false} InOnEnvironment(plan: seq<Mutation>, r: string, e: string, s: Mutation)
    ensures s in OnEnvironment(plan, r, e) <==> s in plan && s.OnEnvironment(r, e)
  {
    if plan != [] {
      InOnEnvironment(plan[..|plan| - 1], r, e, s);
      assert plan == plan[..|plan| - 1] + [plan[|plan| - 1]];
    }
  }

  lemma {:induction false} InOnRulesets(plan: seq<Mutation>, r: string, s: Mutation)
    ensures s in OnRulesets(plan, r) <==> s in plan && s.OnRulesetsOf(r)
  {
    if plan != [] {
      InOnRulesets(plan[..|plan| - 1], r, s);
      assert plan == plan[..|plan| - 1] + [plan[|plan| - 1]];
    }
  }

  // ---------------------------------------------------------------- folding the inspection

  function JoinAll(parts: seq<Inspection>): Inspection {
    if parts == [] then NOTHING else Join(JoinAll(parts[..|parts| - 1]), parts[|parts| - 1])
  }

  lemma {:induction false} JoinAllFold(parts: seq<Inspection>)
    ensures AllPassed(JoinAll(parts).checks) <==> forall k :: 0 <= k < |parts| ==> AllPassed(parts[k].checks)
    ensures JoinAll(parts).destructive <==> exists k :: 0 <= k < |parts| && parts[k].destructive
    ensures (forall k :: 0 <= k < |parts| ==> parts[k].mutations == []) ==> JoinAll(parts).mutations == []
    ensures forall s <- JoinAll(parts).mutations :: exists k :: 0 <= k < |parts| && s in parts[k].mutations
  {
    if parts != [] {
      var rest, last := parts[..|parts| - 1], parts[|parts| - 1];
      JoinAllFold(rest);
      RS.PassedConcat(JoinAll(rest).checks, last.checks);
      forall s | s in JoinAll(parts).mutations ensures exists k :: 0 <= k < |parts| && s in parts[k].mutations {
        if s in JoinAll(rest).mutations {
          var k :| 0 <= k < |rest| && s in rest[k].mutations;
          assert s in parts[k].mutations;
        } else {
          assert s in parts[|parts| - 1].mutations;
        }
      }
    }
  }

  function EnvironmentParts(scene: Scene, ds: seq<DesiredEnvironment>, environments: map<string, Environment>): (parts: seq<Inspection>)
    ensures |parts| == |ds|
  {
    if ds == [] then []
    else EnvironmentParts(scene, ds[..|ds| - 1], environments) + [InspectEnvironment(scene, ds[|ds| - 1], Find(environments, ds[|ds| - 1].name))]
  }

  lemma {:induction false} EnvironmentPart(scene: Scene, ds: seq<DesiredEnvironment>, environments: map<string, Environment>, k: nat)
    requires k < |ds|
    ensures EnvironmentParts(scene, ds, environments)[k] == InspectEnvironment(scene, ds[k], Find(environments, ds[k].name))
  {
    if k < |ds| - 1 { EnvironmentPart(scene, ds[..|ds| - 1], environments, k); }
  }

  lemma {:induction false} EnvironmentsJoined(scene: Scene, ds: seq<DesiredEnvironment>, environments: map<string, Environment>)
    ensures InspectEnvironments(scene, ds, environments) == JoinAll(EnvironmentParts(scene, ds, environments))
  {
    if ds != [] {
      EnvironmentsJoined(scene, ds[..|ds| - 1], environments);
      var parts := EnvironmentParts(scene, ds, environments);
      assert parts[..|parts| - 1] == EnvironmentParts(scene, ds[..|ds| - 1], environments);
    }
  }

  function RepositoryPart(m: Manifest, reviewers: seq<Reviewer>, selected: set<string>, live: Live, d: DesiredRepository): Inspection
    requires d.name in selected ==> d.name in live.repositories
  {
    if d.name in selected then InspectRepository(m, reviewers, live.organization, d, live.repositories[d.name]) else NOTHING
  }

  function RepositoryParts(m: Manifest, reviewers: seq<Reviewer>, selected: set<string>, live: Live, ds: seq<DesiredRepository>): (parts: seq<Inspection>)
    requires Observable(ds, selected, live)
    ensures |parts| == |ds|
  {
    seq(|ds|, i requires 0 <= i < |ds| => assert ds[i] in ds; RepositoryPart(m, reviewers, selected, live, ds[i]))
  }

  lemma {:induction false} RepositoriesJoined(m: Manifest, reviewers: seq<Reviewer>, selected: set<string>, live: Live, ds: seq<DesiredRepository>)
    requires Observable(ds, selected, live)
    ensures InspectRepositories(m, reviewers, selected, live, ds) == JoinAll(RepositoryParts(m, reviewers, selected, live, ds))
  {
    if ds != [] {
      RepositoriesJoined(m, reviewers, selected, live, ds[..|ds| - 1]);
      var parts := RepositoryParts(m, reviewers, selected, live, ds);
      assert parts[..|parts| - 1] == RepositoryParts(m, reviewers, selected, live, ds[..|ds| - 1]);
      var earlier := JoinAll(parts[..|parts| - 1]);
      assert Join(earlier, NOTHING) == earlier;
    }
  }

  lemma {:induction false} PoliciesFold(repository: string, control: Control, names: seq<string>, present: set<string>)
    ensures AllPassed(PolicyFindings(repository, control, names, present)) <==> forall i :: 0 <= i < |names| ==> names[i] !in present
  {
    if names != [] {
      PoliciesFold(repository, control, names[..|names| - 1], present);
      RS.PassedConcat(PolicyFindings(repository, control, names[..|names| - 1], present),
                      [Finding(repository, control, names[|names| - 1], Verdict(names[|names| - 1] !in present))]);
    }
  }

  lemma PoliciesCover(repository: string, control: Control, sorted: seq<string>, names: set<string>, present: set<string>)
    requires forall x :: x in sorted <==> x in names
    ensures AllPassed(PolicyFindings(repository, control, sorted, present)) <==> names * present == {}
  {
    PoliciesFold(repository, control, sorted, present);
    if names * present == {} {
      forall i | 0 <= i < |sorted| ensures sorted[i] !in present { assert sorted[i] in names && sorted[i] !in names * present; }
    } else {
      var x :| x in names * present;
      var i :| 0 <= i < |sorted| && sorted[i] == x;
    }
  }

  lemma OneOrNone<T>(condition: bool, item: T, x: T)
    ensures x in When(condition, item) <==> condition && x == item
  {}

  lemma SortedMembers(names: set<string>, x: string)
    requires names <= {POLICY_VARIABLE_NAME, PROFILE_POLICY_VARIABLE_NAME}
    ensures x in SortedPolicies(names) <==> x in names
  {
    OneOrNone(POLICY_VARIABLE_NAME in names, POLICY_VARIABLE_NAME, x);
    OneOrNone(PROFILE_POLICY_VARIABLE_NAME in names, PROFILE_POLICY_VARIABLE_NAME, x);
  }

  /** The sorted sentinel names cover every policy variable. */
  lemma PoliciesPassed(repository: string, control: Control, names: set<string>, present: set<string>)
    requires names <= {POLICY_VARIABLE_NAME, PROFILE_POLICY_VARIABLE_NAME}
    ensures AllPassed(PolicyFindings(repository, control, SortedPolicies(names), present)) <==> names * present == {}
  {
    forall x ensures x in SortedPolicies(names) <==> x in names { SortedMembers(names, x); }
    PoliciesCover(repository, control, SortedPolicies(names), names, present);
  }

  // ---------------------------------------------------------------- blockers

  lemma {:induction false} ScopedConcat(profile: bool, a: seq<Blocker>, b: seq<Blocker>)
    ensures Scoped(profile, a + b) == Scoped(profile, a) + Scoped(profile, b)
  {
    if b == [] {
      assert a + b == a;
    } else {
      ScopedConcat(profile, a, b[..|b| - 1]);
      assert (a + b)[..|a + b| - 1] == a + b[..|b| - 1];
    }
  }

  lemma {:induction false} ScopedRulesets(profile: bool, ds: seq<Ruleset>, rulesets: Rulesets)
    ensures Scoped(profile, RulesetBlockers(ds, rulesets)) == RulesetBlockers(ds, rulesets)
  {
    if ds != [] {
      var rest, last := ds[..|ds| - 1], ds[|ds| - 1];
      ScopedRulesets(profile, rest, rulesets);
      ScopedConcat(profile, RulesetBlockers(rest, rulesets), When(Classify(rulesets, last) != Exact, RulesetNotExact(last.name)));
      assert Scoped(profile, [RulesetNotExact(last.name)]) == Scoped(profile, []) + [RulesetNotExact(last.name)];
    }
  }

  lemma ScopedRepository(profile: bool, fallback: bool, independent: bool, facts: Facts)
    ensures !fallback && independent && facts.Clean() ==> Scoped(profile, RepositoryBlockers(fallback, independent, facts)) == []
  {}

  /** The repository-level blockers an environment sees depend on the shell and on the rulesets. */
  lemma SceneBlockers(m: Manifest, reviewers: seq<Reviewer>, live: Live, i: nat, profile: bool)
    requires i < |m.repositories| && m.repositories[i].name in live.repositories
    ensures var d := m.repositories[i];
            var repository := live.repositories[d.name];
            Scoped(profile, SceneAt(m, reviewers, live, i).blockers)
            == Scoped(profile, RepositoryBlockers(OrganizationFallback(m, live.organization), Independent(live.organization, reviewers),
                                                  RepositoryFacts(m, live.organization, d, repository)))
               + RulesetBlockers(d.rulesets, repository.rulesets)
  {
    var d := m.repositories[i];
    var repository := live.repositories[d.name];
    var own := RepositoryBlockers(OrganizationFallback(m, live.organization), Independent(live.organization, reviewers),
                                  RepositoryFacts(m, live.organization, d, repository));
    ScopedConcat(profile, own, RulesetBlockers(d.rulesets, repository.rulesets));
    ScopedRulesets(profile, d.rulesets, repository.rulesets);
  }

  lemma FactsShell(m: Manifest, before: Live, after: Live, i: nat)
    requires SameShell(before, after) && i < |m.repositories| && m.repositories[i].name in before.repositories
    ensures var d := m.repositories[i];
            RepositoryFacts(m, after.organization, d, after.repositories[d.name]) == RepositoryFacts(m, before.organization, d, before.repositories[d.name])
  {}

  // ---------------------------------------------------------------- what the whole inspection says

  ghost predicate EnvironmentsDriftFree(scene: Scene, ds: seq<DesiredEnvironment>, environments: map<string, Environment>) {
    forall k :: 0 <= k < |ds| && ds[k].name in environments ==> !EnvironmentDestructive(scene, ds[k], environments[ds[k].name])
  }

  ghost predicate EnvironmentsExact(scene: Scene, ds: seq<DesiredEnvironment>, environments: map<string, Environment>) {
    forall k :: 0 <= k < |ds| ==> EnvironmentExact(scene, ds[k], environments)
  }

  ghost predicate RulesetsDriftFree(ds: seq<Ruleset>, rulesets: Rulesets) {
    forall j :: 0 <= j < |ds| ==> Classify(rulesets, ds[j]) != Unmanageable
  }

  ghost predicate RulesetsExact(ds: seq<Ruleset>, rulesets: Rulesets) {
    forall j :: 0 <= j < |ds| ==> Classify(rulesets, ds[j]) == Exact
  }

  ghost predicate RepositoryDriftFree(scene: Scene, facts: Facts, d: DesiredRepository, repository: Repository) {
    && facts.Clean()
    && RulesetsDriftFree(d.rulesets, repository.rulesets)
    && EnvironmentsDriftFree(scene, d.environments, repository.environments)
  }

  /** Nothing objects to the repository, its rulesets and its environments. */
  ghost predicate RepositoryExact(scene: Scene, facts: Facts, d: DesiredRepository, repository: Repository) {
    && facts.Clean()
    && RulesetsExact(d.rulesets, repository.rulesets)
    && EnvironmentsExact(scene, d.environments, repository.environments)
  }

  /** The environment is there, sealed, and nothing blocks its seal. */
  ghost predicate EnvironmentExact(scene: Scene, d: DesiredEnvironment, environments: map<string, Environment>) {
    && d.name in environments
    && Sealed(d, environments[d.name])
    && EnvironmentBlockers(scene, d, environments[d.name]) == []
  }

  lemma EnvironmentMeans(scene: Scene, ds: seq<DesiredEnvironment>, environments: map<string, Environment>, k: nat)
    requires k < |ds|
    ensures var i := EnvironmentParts(scene, ds, environments)[k];
            && (i.destructive <==> ds[k].name in environments && EnvironmentDestructive(scene, ds[k], environments[ds[k].name]))
            && (AllPassed(i.checks) <==> EnvironmentExact(scene, ds[k], environments))
            && (AllPassed(i.checks) ==> i.mutations == [] && !i.destructive)
  {
    EnvironmentPart(scene, ds, environments, k);
    RE.PassedIsSealedExact(scene, ds[k], Find(environments, ds[k].name));
  }

  /** Joined inspections: destructive if one is, passed if all are, and then nothing is planned. */
  lemma JoinedVerdict(parts: seq<Inspection>, destructive: seq<bool>, exact: seq<bool>)
    requires |parts| == |destructive| == |exact|
    requires forall k :: 0 <= k < |parts| ==> parts[k].destructive == destructive[k] && AllPassed(parts[k].checks) == exact[k]
    requires forall k :: 0 <= k < |parts| && exact[k] ==> parts[k].mutations == [] && !destructive[k]
    ensures JoinAll(parts).destructive <==> exists k :: 0 <= k < |parts| && destructive[k]
    ensures AllPassed(JoinAll(parts).checks) <==> forall k :: 0 <= k < |parts| ==> exact[k]
    ensures AllPassed(JoinAll(parts).checks) ==> JoinAll(parts).mutations == [] && !JoinAll(parts).destructive
  {
    JoinAllFold(parts);
    if AllPassed(JoinAll(parts).checks) {
      forall k | 0 <= k < |parts| ensures exact[k] && parts[k].mutations == [] && !parts[k].destructive { assert AllPassed(parts[k].checks); }
    }
    if forall k :: 0 <= k < |parts| ==> exact[k] {
      forall k | 0 <= k < |parts| ensures AllPassed(parts[k].checks) { assert exact[k]; }
    }
  }

  predicate DestructiveAt(scene: Scene, ds: seq<DesiredEnvironment>, environments: map<string, Environment>, k: nat)
    requires k < |ds|
  {
    ds[k].name in environments && EnvironmentDestructive(scene, ds[k], environments[ds[k].name])
  }

  lemma EnvironmentsMean(scene: Scene, ds: seq<DesiredEnvironment>, environments: map<string, Environment>)
    ensures InspectEnvironments(scene, ds, environments).destructive <==> !EnvironmentsDriftFree(scene, ds, environments)
    ensures AllPassed(InspectEnvironments(scene, ds, environments).checks) <==> EnvironmentsExact(scene, ds, environments)
    ensures AllPassed(InspectEnvironments(scene, ds, environments).checks) ==>
              InspectEnvironments(scene, ds, environments).mutations == [] && !InspectEnvironments(scene, ds, environments).destructive
  {
    var parts, n := EnvironmentParts(scene, ds, environments), |ds|;
    var destructive := seq(n, k requires 0 <= k < n => DestructiveAt(scene, ds, environments, k));
    var exact := seq(n, k requires 0 <= k < n => EnvironmentExact(scene, ds[k], environments));
    EnvironmentsJoined(scene, ds, environments);
    forall k | 0 <= k < n
      ensures parts[k].destructive == destructive[k] && AllPassed(parts[k].checks) == exact[k]
      ensures exact[k] ==> parts[k].mutations == [] && !destructive[k]
    {
      EnvironmentMeans(scene, ds, environments, k);
    }
    JoinedVerdict(parts, destructive, exact);
    EnvironmentsRead(scene, ds, environments, destructive, exact);
  }

  lemma EnvironmentsRead(scene: Scene, ds: seq<DesiredEnvironment>, environments: map<string, Environment>, destructive: seq<bool>, exact: seq<bool>)
    requires |destructive| == |exact| == |ds|
    requires forall k :: 0 <= k < |ds| ==> destructive[k] == DestructiveAt(scene, ds, environments, k)
    requires forall k :: 0 <= k < |ds| ==> exact[k] == EnvironmentExact(scene, ds[k], environments)
    ensures (exists k :: 0 <= k < |ds| && destructive[k]) <==> !EnvironmentsDriftFree(scene, ds, environments)
    ensures (forall k :: 0 <= k < |ds| ==> exact[k]) <==> EnvironmentsExact(scene, ds, environments)
  {
    if forall k :: 0 <= k < |ds| ==> exact[k] {
      forall k | 0 <= k < |ds| ensures EnvironmentExact(scene, ds[k], environments) { assert exact[k]; }
    }
    if EnvironmentsDriftFree(scene, ds, environments) {
      forall k | 0 <= k < |ds| ensures !destructive[k] {}
    } else {
      var k :| 0 <= k < |ds| && ds[k].name in environments && EnvironmentDestructive(scene, ds[k], environments[ds[k].name]);
      assert DestructiveAt(scene, ds, environments, k);
      assert destructive[k];
    }
  }

  lemma RulesetsMean(r: string, ds: seq<Ruleset>, rulesets: Rulesets)
    ensures var i := InspectRulesets(r, ds, rulesets);
            && (i.destructive <==> !RulesetsDriftFree(ds, rulesets))
            && (AllPassed(i.checks) <==> RulesetsExact(ds, rulesets))
            && (AllPassed(i.checks) ==> i.mutations == [] && !i.destructive)
  {
    RS.RulesetsInspection(r, ds, rulesets);
  }

  lemma RepositoryInspectionMeans(scene: Scene, facts: Facts, d: DesiredRepository, repository: Repository)
    ensures InspectRepositoryIn(scene, facts, d, repository).destructive <==> !RepositoryDriftFree(scene, facts, d, repository)
  {
    RulesetsMean(d.name, d.rulesets, repository.rulesets);
    EnvironmentsMean(scene, d.environments, repository.environments);
  }

  lemma RepositoryPassedMeans(m: Manifest, organization: Organization, scene: Scene, d: DesiredRepository, repository: Repository)
    ensures var facts := RepositoryFacts(m, organization, d, repository);
            var i := InspectRepositoryIn(scene, facts, d, repository);
            && (AllPassed(i.checks) <==> RepositoryExact(scene, facts, d, repository))
            && (AllPassed(i.checks) ==> i.mutations == [] && !i.destructive)
  {
    FactsPassedMeans(scene, RepositoryFacts(m, organization, d, repository), d, repository);
  }

  lemma FactsPassedMeans(scene: Scene, facts: Facts, d: DesiredRepository, repository: Repository)
    requires facts.policyFallback <==> PolicyVariables(d.environments) * repository.variables != {}
    ensures var i := InspectRepositoryIn(scene, facts, d, repository);
            && (AllPassed(i.checks) <==> RepositoryExact(scene, facts, d, repository))
            && (AllPassed(i.checks) ==> i.mutations == [] && !i.destructive)
  {
    var rulesets := InspectRulesets(d.name, d.rulesets, repository.rulesets);
    var environments := InspectEnvironments(scene, d.environments, repository.environments);
    RulesetsMean(d.name, d.rulesets, repository.rulesets);
    EnvironmentsMean(scene, d.environments, repository.environments);
    FindingsMean(d, repository, facts);
    RS.PassedConcat(RepositoryFindings(d, repository, facts) + rulesets.checks, environments.checks);
    RS.PassedConcat(RepositoryFindings(d, repository, facts), rulesets.checks);
  }

  lemma PolicyNames(environments: seq<DesiredEnvironment>)
    ensures PolicyVariables(environments) <= {POLICY_VARIABLE_NAME, PROFILE_POLICY_VARIABLE_NAME}
  {}

  lemma FindingsMean(d: DesiredRepository, repository: Repository, facts: Facts)
    requires facts.policyFallback <==> PolicyVariables(d.environments) * repository.variables != {}
    ensures AllPassed(RepositoryFindings(d, repository, facts)) <==> facts.Clean()
  {
    var policies := PolicyFindings(d.name, RepositoryVariable, SortedPolicies(PolicyVariables(d.environments)), repository.variables);
    PolicyNames(d.environments);
    PoliciesPassed(d.name, RepositoryVariable, PolicyVariables(d.environments), repository.variables);
    var first := [Finding(d.name, DefaultBranch, d.name, Verdict(facts.defaultBranch))];
    var last := [Finding(d.name, OrganizationVariable, "", Verdict(!facts.organizationVariables)),
                 Finding(d.name, RepositoryVariable, "", Verdict(!facts.repositoryVariables)),
                 Finding(d.name, OrganizationSecret, "", Verdict(!facts.organizationSecrets)),
                 Finding(d.name, RepositorySecret, "", Verdict(!facts.repositorySecrets)),
                 Finding(d.name, StatusContexts, MAIN, Verdict(facts.contexts))];
    ThreeParts(first, policies, last);
    OneFinding(first[0]);
    FiveFindings(last[0], last[1], last[2], last[3], last[4]);
  }

  lemma OneFinding(a: Finding)
    ensures AllPassed([a]) <==> a.status == Passed
  {
    assert [a][0] == a;
  }

  lemma FiveFindings(a: Finding, b: Finding, c: Finding, d: Finding, e: Finding)
    ensures AllPassed([a, b, c, d, e]) <==>
              a.status == Passed && b.status == Passed && c.status == Passed && d.status == Passed && e.status == Passed
  {
    var all := [a, b, c, d, e];
    assert all[0] == a && all[1] == b && all[2] == c && all[3] == d && all[4] == e;
  }

  lemma OrganizationMeans(m: Manifest, reviewers: seq<Reviewer>, organization: Organization)
    ensures var i := InspectOrganization(m, reviewers, organization);
            && (AllPassed(i.checks) <==> !OrganizationFallback(m, organization) && Independent(organization, reviewers))
            && (AllPassed(i.checks) <==> !i.destructive)
  {
    var policies := PolicyFindings(m.organization, OrganizationVariable, SortedPolicies(AllPolicyVariables(m)), organization.variables.Keys);
    PoliciesPassed(m.organization, OrganizationVariable, AllPolicyVariables(m), organization.variables.Keys);
    var first := [Finding(m.organization, Integration, "", Passed)];
    var last := [Finding(m.organization, ReviewerIndependence, "", Verdict(Independent(organization, reviewers)))];
    ThreeParts(first, policies, last);
    assert AllPassed(last) <==> last[0].status == Passed;
  }

  lemma ThreeParts(a: seq<Finding>, b: seq<Finding>, c: seq<Finding>)
    ensures AllPassed(a + b + c) <==> AllPassed(a) && AllPassed(b) && AllPassed(c)
  {
    RS.PassedConcat(a + b, c);
    RS.PassedConcat(a, b);
  }

  ghost predicate DriftFree(m: Manifest, reviewers: seq<Reviewer>, selected: set<string>, live: Live)
    requires Observable(m.repositories, selected, live)
  {
    && !OrganizationFallback(m, live.organization) && Independent(live.organization, reviewers)
    && forall i :: 0 <= i < |m.repositories| && m.repositories[i].name in selected ==>
         var d := m.repositories[i];
         RepositoryDriftFree(SceneAt(m, reviewers, live, i), RepositoryFacts(m, live.organization, d, live.repositories[d.name]),
                             d, live.repositories[d.name])
  }

  /** No comparison objects to any selected repository or environment. */
  ghost predicate AllClear(m: Manifest, reviewers: seq<Reviewer>, selected: set<string>, live: Live)
    requires Observable(m.repositories, selected, live)
  {
    && !OrganizationFallback(m, live.organization) && Independent(live.organization, reviewers)
    && forall i :: 0 <= i < |m.repositories| && m.repositories[i].name in selected ==>
         var d := m.repositories[i];
         RepositoryExact(SceneAt(m, reviewers, live, i), RepositoryFacts(m, live.organization, d, live.repositories[d.name]),
                         d, live.repositories[d.name])
  }

  lemma DestructiveIsDrift(m: Manifest, reviewers: seq<Reviewer>, selected: set<string>, live: Live)
    requires Observable(m.repositories, selected, live)
    ensures Inspect(m, reviewers, selected, live).destructive <==> !DriftFree(m, reviewers, selected, live)
  {
    var parts := RepositoryParts(m, reviewers, selected, live, m.repositories);
    RepositoriesJoined(m, reviewers, selected, live, m.repositories);
    JoinAllFold(parts);
    forall i | 0 <= i < |m.repositories| && m.repositories[i].name in selected
      ensures var d := m.repositories[i];
              parts[i].destructive <==>
              !RepositoryDriftFree(SceneAt(m, reviewers, live, i), RepositoryFacts(m, live.organization, d, live.repositories[d.name]),
                                   d, live.repositories[d.name])
    {
      var d := m.repositories[i];
      RepositoryInspectionMeans(SceneAt(m, reviewers, live, i), RepositoryFacts(m, live.organization, d, live.repositories[d.name]),
                                d, live.repositories[d.name]);
    }
  }

  /** The selected repository `i` is exact. */
  ghost predicate RepositoryExactAt(m: Manifest, reviewers: seq<Reviewer>, live: Live, i: nat)
    requires i < |m.repositories| && m.repositories[i].name in live.repositories
  {
    var d := m.repositories[i];
    RepositoryExact(SceneAt(m, reviewers, live, i), RepositoryFacts(m, live.organization, d, live.repositories[d.name]), d, live.repositories[d.name])
  }

  lemma PartMeansExact(m: Manifest, reviewers: seq<Reviewer>, selected: set<string>, live: Live, i: nat)
    requires Observable(m.repositories, selected, live) && i < |m.repositories|
    ensures m.repositories[i].name in selected ==> m.repositories[i].name in live.repositories
    ensures var part := RepositoryPart(m, reviewers, selected, live, m.repositories[i]);
            && (AllPassed(part.checks) <==> (m.repositories[i].name in selected ==> RepositoryExactAt(m, reviewers, live, i)))
            && (AllPassed(part.checks) ==> part.mutations == [] && !part.destructive)
  {
    var d := m.repositories[i];
    assert d in m.repositories;
    if d.name in selected {
      RepositoryPassedMeans(m, live.organization, SceneAt(m, reviewers, live, i), d, live.repositories[d.name]);
    }
  }

  lemma RepositoriesMeanExact(m: Manifest, reviewers: seq<Reviewer>, selected: set<string>, live: Live)
    requires Observable(m.repositories, selected, live)
    ensures var all := InspectRepositories(m, reviewers, selected, live, m.repositories);
            && (AllPassed(all.checks) <==>
                forall i :: 0 <= i < |m.repositories| && m.repositories[i].name in selected ==> RepositoryExactAt(m, reviewers, live, i))
            && (AllPassed(all.checks) ==> all.mutations == [] && !all.destructive)
  {
    var parts := RepositoryParts(m, reviewers, selected, live, m.repositories);
    RepositoriesJoined(m, reviewers, selected, live, m.repositories);
    forall i | 0 <= i < |m.repositories|
      ensures m.repositories[i].name in selected ==> m.repositories[i].name in live.repositories
      ensures AllPassed(parts[i].checks) <==> (m.repositories[i].name in selected ==> RepositoryExactAt(m, reviewers, live, i))
      ensures AllPassed(parts[i].checks) ==> parts[i].mutations == [] && !parts[i].destructive
    {
      PartMeansExact(m, reviewers, selected, live, i);
    }
    JoinAllFold(parts);
  }

  /** The status is `passed` exactly when no comparison objects; then there is nothing to apply and no
      destructive flag. */
  lemma PassedMeansClear(m: Manifest, reviewers: seq<Reviewer>, selected: set<string>, live: Live)
    requires Observable(m.repositories, selected, live)
    ensures AllPassed(Inspect(m, reviewers, selected, live).checks) <==> AllClear(m, reviewers, selected, live)
    ensures AllPassed(Inspect(m, reviewers, selected, live).checks) ==>
              Inspect(m, reviewers, selected, live).mutations == [] && !Inspect(m, reviewers, selected, live).destructive
  {
    OrganizationMeans(m, reviewers, live.organization);
    RepositoriesMeanExact(m, reviewers, selected, live);
    RS.PassedConcat(InspectOrganization(m, reviewers, live.organization).checks,
                    InspectRepositories(m, reviewers, selected, live, m.repositories).checks);
    forall i | 0 <= i < |m.repositories| && m.repositories[i].name in selected ensures m.repositories[i].name in live.repositories {
      assert m.repositories[i] in m.repositories;
    }
  }
}
