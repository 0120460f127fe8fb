/** Additivity of every run, and convergence of repeated applies. */
module ReleaseConvergence {
  import opened Options
  import opened ReleaseState
  import opened ReleaseInspect
  import opened ReleasePlan
  import opened ReleaseExactness
  import opened ReleaseSafety
  import RS = ReleaseRulesets
  import RE = ReleaseEnvironments

  // ---------------------------------------------------------------- targets of a plan

  lemma RepositoryTarget(scene: Scene, facts: Facts, d: DesiredRepository, repository: Repository, s: Mutation)
    requires scene.repository == d.name && s in InspectRepositoryIn(scene, facts, d, repository).mutations
    ensures s.repository == d.name
    ensures s.OnRulesets() || exists k :: 0 <= k < |d.environments| && s.OnEnvironment(d.name, d.environments[k].name)
  {
    RulesetsTargets(d.name, d.rulesets, repository.rulesets);
    if s in InspectEnvironments(scene, d.environments, repository.environments).mutations {
      var parts := EnvironmentParts(scene, d.environments, repository.environments);
      EnvironmentsJoined(scene, d.environments, repository.environments);
      JoinAllFold(parts);
      var k :| 0 <= k < |parts| && s in parts[k].mutations;
      EnvironmentPart(scene, d.environments, repository.environments, k);
      EnvironmentTargets(scene, d.environments[k], Find(repository.environments, d.environments[k].name));
    }
  }

  /** Every planned request names a selected repository and, if it is about an environment, one
      that the manifest declares there. */
  lemma PlanTarget(m: Manifest, reviewers: seq<Reviewer>, selected: set<string>, live: Live, s: Mutation)
    requires Observable(m.repositories, selected, live) && s in Plan(m, reviewers, selected, live)
    ensures exists i :: 0 <= i < |m.repositories| && m.repositories[i].name in selected && s.repository == m.repositories[i].name
              && (s.OnRulesets() || exists k: nat :: Chosen(m, selected, i, k) && s.OnEnvironment(m.repositories[i].name, m.repositories[i].environments[k].name))
  {
    InQuarantines(Inspect(m, reviewers, selected, live).mutations, s);
    var parts := RepositoryParts(m, reviewers, selected, live, m.repositories);
    RepositoriesJoined(m, reviewers, selected, live, m.repositories);
    JoinAllFold(parts);
    var i :| 0 <= i < |parts| && s in parts[i].mutations;
    var d := m.repositories[i];
    assert d.name in selected;
    RepositoryTarget(SceneAt(m, reviewers, live, i), RepositoryFacts(m, live.organization, d, live.repositories[d.name]), d, live.repositories[d.name], s);
    if !s.OnRulesets() {
      var k :| 0 <= k < |d.environments| && s.OnEnvironment(d.name, d.environments[k].name);
      assert Chosen(m, selected, i, k);
    }
  }

  // ---------------------------------------------------------------- additivity

  lemma CellGrows(live: Live, plan: seq<Mutation>, a: nat, b: nat, r: string, e: string, scene: Scene, d: DesiredEnvironment)
    requires a <= b <= |plan| && r in live.repositories
    requires forall s <- OnEnvironment(plan[..b], r, e) :: !s.OnRulesets() && RE.Sendable(scene, d, EnvironmentAt(live, r, e), s)
    ensures RE.Grows(EnvironmentAt(Run(live, plan[..a]), r, e), EnvironmentAt(Run(live, plan[..b]), r, e))
  {
    var steps := OnEnvironment(plan[..b], r, e);
    assert plan[..b] == plan[..a] + plan[a..b];
    OnEnvironmentConcat(plan[..a], plan[a..b], r, e);
    var j := |OnEnvironment(plan[..a], r, e)|;
    assert steps[..j] == OnEnvironment(plan[..a], r, e);
    RunOnEnvironment(live, plan[..a], r, e);
    RunOnEnvironment(live, plan[..b], r, e);
    RE.RunGrows(live.organization.bypassDefault, scene, d, EnvironmentAt(live, r, e), steps, j);
  }

  lemma ChosenGrows(m: Manifest, reviewers: seq<Reviewer>, selected: set<string>, live: Live, a: nat, b: nat, i: nat, k: nat)
    requires Ready(m, selected, live) && Chosen(m, selected, i, k) && a <= b <= |Plan(m, reviewers, selected, live)|
    ensures RE.Grows(At(m, After(m, reviewers, selected, live, a), i, k), At(m, After(m, reviewers, selected, live, b), i, k))
  {
    var d := m.repositories[i];
    assert d in m.repositories;
    SentToEnvironment(m, reviewers, selected, live, b, i, k);
    CellGrows(live, Plan(m, reviewers, selected, live), a, b, d.name, d.environments[k].name, SceneAt(m, reviewers, live, i), d.environments[k]);
  }

  lemma RulesetCellGrows(live: Live, plan: seq<Mutation>, a: nat, b: nat, r: string, ds: seq<Ruleset>)
    requires a <= b <= |plan| && r in live.repositories && RS.Named(ds) && RS.Fresh(live.repositories[r].rulesets)
    requires forall s <- OnRulesets(plan[..b], r) :: s.OnRulesets() && RS.Planned(ds, live.repositories[r].rulesets, s)
    ensures r in Run(live, plan[..a]).repositories && r in Run(live, plan[..b]).repositories
    ensures RS.Grows(Run(live, plan[..a]).repositories[r].rulesets, Run(live, plan[..b]).repositories[r].rulesets)
  {
    var steps := OnRulesets(plan[..b], r);
    assert plan[..b] == plan[..a] + plan[a..b];
    OnRulesetsConcat(plan[..a], plan[a..b], r);
    var j := |OnRulesets(plan[..a], r)|;
    assert steps[..j] == OnRulesets(plan[..a], r);
    RunOnRulesets(live, plan[..a], r);
    RunOnRulesets(live, plan[..b], r);
    RS.RunGrows(ds, live.repositories[r].rulesets, steps, j);
  }

  lemma SelectedRulesetsGrow(m: Manifest, reviewers: seq<Reviewer>, selected: set<string>, live: Live, a: nat, b: nat, i: nat)
    requires Ready(m, selected, live) && a <= b <= |Plan(m, reviewers, selected, live)|
    requires i < |m.repositories| && m.repositories[i].name in selected
    ensures var r := m.repositories[i].name;
            && r in After(m, reviewers, selected, live, a).repositories && r in After(m, reviewers, selected, live, b).repositories
            && RS.Grows(After(m, reviewers, selected, live, a).repositories[r].rulesets, After(m, reviewers, selected, live, b).repositories[r].rulesets)
  {
    var d := m.repositories[i];
    assert d in m.repositories;
    SentToRulesets(m, reviewers, selected, live, b, i);
    RulesetCellGrows(live, Plan(m, reviewers, selected, live), a, b, d.name, d.rulesets);
  }

  lemma EnvironmentGrows(m: Manifest, reviewers: seq<Reviewer>, selected: set<string>, live: Live, a: nat, b: nat, r: string, e: string)
    requires Ready(m, selected, live) && a <= b <= |Plan(m, reviewers, selected, live)| && r in live.repositories
    ensures RE.Grows(EnvironmentAt(After(m, reviewers, selected, live, a), r, e), EnvironmentAt(After(m, reviewers, selected, live, b), r, e))
  {
    var plan := Plan(m, reviewers, selected, live);
    if i: nat, k: nat :| Chosen(m, selected, i, k) && m.repositories[i].name == r && m.repositories[i].environments[k].name == e {
      ChosenGrows(m, reviewers, selected, live, a, b, i, k);
    } else {
      forall s | s in plan ensures !s.OnEnvironment(r, e) {
        PlanTarget(m, reviewers, selected, live, s);
      }
      NoneSent(live, plan[..a], plan[..b], r, e);
    }
  }

  lemma RulesetsGrow(m: Manifest, reviewers: seq<Reviewer>, selected: set<string>, live: Live, a: nat, b: nat, r: string)
    requires Ready(m, selected, live) && a <= b <= |Plan(m, reviewers, selected, live)| && r in live.repositories
    requires r in After(m, reviewers, selected, live, a).repositories && r in After(m, reviewers, selected, live, b).repositories
    ensures RS.Grows(After(m, reviewers, selected, live, a).repositories[r].rulesets, After(m, reviewers, selected, live, b).repositories[r].rulesets)
  {
    var plan := Plan(m, reviewers, selected, live);
    if i :| 0 <= i < |m.repositories| && m.repositories[i].name in selected && m.repositories[i].name == r {
      SelectedRulesetsGrow(m, reviewers, selected, live, a, b, i);
    } else {
      forall s | s in plan ensures !s.OnRulesetsOf(r) {
        PlanTarget(m, reviewers, selected, live, s);
      }
      NoneSentToRulesets(live, plan[..a], plan[..b], r);
    }
  }

  /** Additive reconciliation: from any point of a run to any later one, no environment anywhere
      loses a reviewer, branch policy, variable or secret or changes a variable other than a sentinel,
      no ruleset loses a rule or changes its target, bypass actors or conditions, and everything outside
      environments and rulesets stays. */
  lemma Additive(m: Manifest, reviewers: seq<Reviewer>, selected: set<string>, live: Live, a: nat, b: nat, r: string, e: string)
    requires Ready(m, selected, live) && a <= b <= |Plan(m, reviewers, selected, live)| && r in live.repositories
    ensures var before, after := After(m, reviewers, selected, live, a), After(m, reviewers, selected, live, b);
            && SameShell(live, before) && SameShell(live, after)
            && RE.Grows(EnvironmentAt(before, r, e), EnvironmentAt(after, r, e))
            && RS.Grows(before.repositories[r].rulesets, after.repositories[r].rulesets)
  {
    var plan := Plan(m, reviewers, selected, live);
    RunShell(live, plan[..a]);
    RunShell(live, plan[..b]);
    EnvironmentGrows(m, reviewers, selected, live, a, b, r, e);
    RulesetsGrow(m, reviewers, selected, live, a, b, r);
  }

  lemma NoneSent(live: Live, a: seq<Mutation>, b: seq<Mutation>, r: string, e: string)
    requires r in live.repositories
    requires forall s <- a + b :: !s.OnEnvironment(r, e)
    ensures EnvironmentAt(Run(live, a), r, e) == EnvironmentAt(Run(live, b), r, e)
  {
    OnEnvironmentNone(a, r, e);
    OnEnvironmentNone(b, r, e);
    RunOnEnvironment(live, a, r, e);
    RunOnEnvironment(live, b, r, e);
  }

  lemma NoneSentToRulesets(live: Live, a: seq<Mutation>, b: seq<Mutation>, r: string)
    requires r in live.repositories
    requires forall s <- a + b :: !s.OnRulesetsOf(r)
    ensures r in Run(live, a).repositories && r in Run(live, b).repositories
    ensures Run(live, a).repositories[r].rulesets == Run(live, b).repositories[r].rulesets
  {
    OnRulesetsNone(a, r);
    OnRulesetsNone(b, r);
    RunOnRulesets(live, a, r);
    RunOnRulesets(live, b, r);
  }

  // ---------------------------------------------------------------- convergence

  /** Every selected environment exists with its required secrets and variables. */
  ghost predicate Provisioned(m: Manifest, selected: set<string>, live: Live) {
    forall i: nat, k: nat :: Chosen(m, selected, i, k) ==>
      var d := m.repositories[i].environments[k];
      && At(m, live, i, k).Some?
      && d.requiredSecrets <= At(m, live, i, k).value.secrets
      && d.requiredVariables <= At(m, live, i, k).value.variables.Keys
  }

  /** The environment after one complete apply. */
  lemma RoundEnvironment(m: Manifest, reviewers: seq<Reviewer>, selected: set<string>, live: Live, i: nat, k: nat)
    requires Ready(m, selected, live) && Chosen(m, selected, i, k) && At(m, live, i, k).Some?
    requires DriftFree(m, reviewers, selected, live)
    ensures !EnvironmentDestructive(SceneAt(m, reviewers, live, i), m.repositories[i].environments[k], At(m, live, i, k).value)
    ensures At(m, Run(live, Plan(m, reviewers, selected, live)), i, k)
         == Some(RE.Reconciled(SceneAt(m, reviewers, live, i), m.repositories[i].environments[k], At(m, live, i, k).value))
  {
    var d, e := m.repositories[i], m.repositories[i].environments[k];
    DestructiveIsDrift(m, reviewers, selected, live);
    assert EnvironmentsDriftFree(SceneAt(m, reviewers, live, i), d.environments, live.repositories[d.name].environments);
    PlanProject(m, reviewers, selected, live, i, k);
    RunOnEnvironment(live, Plan(m, reviewers, selected, live), d.name, e.name);
    RE.PlanReconciles(live.organization.bypassDefault, SceneAt(m, reviewers, live, i), e, At(m, live, i, k).value);
  }

  lemma RoundRulesets(m: Manifest, reviewers: seq<Reviewer>, selected: set<string>, live: Live, i: nat)
    requires Ready(m, selected, live) && DriftFree(m, reviewers, selected, live)
    requires i < |m.repositories| && m.repositories[i].name in selected
    ensures var after, d := Run(live, Plan(m, reviewers, selected, live)), m.repositories[i];
            && d.name in after.repositories
            && RS.Fresh(after.repositories[d.name].rulesets)
            && RulesetsExact(d.rulesets, after.repositories[d.name].rulesets)
            && RulesetBlockers(d.rulesets, after.repositories[d.name].rulesets) == []
  {
    var d, plan := m.repositories[i], Plan(m, reviewers, selected, live);
    var before := live.repositories[d.name].rulesets;
    DestructiveIsDrift(m, reviewers, selected, live);
    assert RulesetsDriftFree(d.rulesets, before);
    PlanProjectRulesets(m, reviewers, selected, live, i);
    assert plan[..|plan|] == plan;
    SentToRulesets(m, reviewers, selected, live, |plan|, i);
    RunOnRulesets(live, plan, d.name);
    var steps := OnRulesets(plan, d.name);
    RS.RunAdvances(d.rulesets, before, steps);
    var after := RunRulesets(before, steps);
    forall j | 0 <= j < |d.rulesets| ensures Classify(after, d.rulesets[j]) == Exact {
      RS.DoneExact(d.name, d.rulesets, before, after, d.rulesets[j]);
    }
    RS.NoBlockers(d.rulesets, after);
  }

  /** The scene after one complete apply: same shell, no blockers left. */
  lemma RoundScene(m: Manifest, reviewers: seq<Reviewer>, selected: set<string>, live: Live, i: nat, profile: bool)
    requires Ready(m, selected, live) && DriftFree(m, reviewers, selected, live)
    requires i < |m.repositories| && m.repositories[i].name in selected
    ensures var after := Run(live, Plan(m, reviewers, selected, live));
            && SameShell(live, after)
            && m.repositories[i].name in after.repositories
            && Scoped(profile, SceneAt(m, reviewers, after, i).blockers) == []
            && SceneAt(m, reviewers, after, i).reviewers == SceneAt(m, reviewers, live, i).reviewers
            && !SceneAt(m, reviewers, after, i).shadow
  {
    var d, after := m.repositories[i], Run(live, Plan(m, reviewers, selected, live));
    RunShell(live, Plan(m, reviewers, selected, live));
    RoundRulesets(m, reviewers, selected, live, i);
    FactsShell(m, live, after, i);
    SceneBlockers(m, reviewers, after, i, profile);
    var facts := RepositoryFacts(m, live.organization, d, live.repositories[d.name]);
    assert RepositoryDriftFree(SceneAt(m, reviewers, live, i), facts, d, live.repositories[d.name]);
    ScopedRepository(profile, OrganizationFallback(m, live.organization), Independent(live.organization, reviewers), facts);
  }

  /** Cell by cell: a reconciled environment is unblocked and free of destructive drift, keeps its
      inventories, and is sealed if nothing blocked it before. */
  lemma ReconciledSettles(scene: Scene, later: Scene, d: DesiredEnvironment, e: Environment)
    requires !EnvironmentDestructive(scene, d, e)
    requires d.requiredSecrets <= e.secrets && d.requiredVariables <= e.variables.Keys
    requires later.reviewers == scene.reviewers && Scoped(d.profile, later.blockers) == [] && !later.shadow
    ensures var n := RE.Reconciled(scene, d, e);
            && EnvironmentBlockers(later, d, n) == []
            && !EnvironmentDestructive(later, d, n)
            && d.requiredSecrets <= n.secrets && d.requiredVariables <= n.variables.Keys
            && (EnvironmentBlockers(scene, d, e) == [] ==> Sealed(d, n))
  {
    var n := RE.Reconciled(scene, d, e);
    assert Expected(later, d) == Expected(scene, d);
    assert UnknownVariables(d, n) <= UnknownVariables(d, e);
  }

  /** One complete apply from a drift-free, provisioned state. */
  lemma Round(m: Manifest, reviewers: seq<Reviewer>, selected: set<string>, live: Live, i: nat, k: nat)
    requires Ready(m, selected, live) && DriftFree(m, reviewers, selected, live) && Provisioned(m, selected, live)
    requires Chosen(m, selected, i, k)
    ensures var after := Run(live, Plan(m, reviewers, selected, live));
            var d := m.repositories[i].environments[k];
            && m.repositories[i].name in after.repositories
            && var now := At(m, after, i, k);
            && now.Some?
            && EnvironmentBlockers(SceneAt(m, reviewers, after, i), d, now.value) == []
            && !EnvironmentDestructive(SceneAt(m, reviewers, after, i), d, now.value)
            && d.requiredSecrets <= now.value.secrets && d.requiredVariables <= now.value.variables.Keys
            && (EnvironmentBlockers(SceneAt(m, reviewers, live, i), d, At(m, live, i, k).value) == [] ==> Sealed(d, now.value))
  {
    var after := Run(live, Plan(m, reviewers, selected, live));
    var d := m.repositories[i].environments[k];
    RoundEnvironment(m, reviewers, selected, live, i, k);
    RoundScene(m, reviewers, selected, live, i, d.profile);
    ReconciledSettles(SceneAt(m, reviewers, live, i), SceneAt(m, reviewers, after, i), d, At(m, live, i, k).value);
  }

  lemma RoundRepository(m: Manifest, reviewers: seq<Reviewer>, selected: set<string>, live: Live, i: nat)
    requires Ready(m, selected, live) && DriftFree(m, reviewers, selected, live) && Provisioned(m, selected, live)
    requires i < |m.repositories| && m.repositories[i].name in selected
    ensures var after, d := Run(live, Plan(m, reviewers, selected, live)), m.repositories[i];
            && d.name in after.repositories
            && RepositoryDriftFree(SceneAt(m, reviewers, after, i), RepositoryFacts(m, after.organization, d, after.repositories[d.name]),
                                   d, after.repositories[d.name])
  {
    var after, d := Run(live, Plan(m, reviewers, selected, live)), m.repositories[i];
    RoundScene(m, reviewers, selected, live, i, false);
    RoundRulesets(m, reviewers, selected, live, i);
    FactsShell(m, live, after, i);
    var scene, environments := SceneAt(m, reviewers, after, i), after.repositories[d.name].environments;
    forall k | 0 <= k < |d.environments| && d.environments[k].name in environments
      ensures !EnvironmentDestructive(scene, d.environments[k], environments[d.environments[k].name])
    {
      Round(m, reviewers, selected, live, i, k);
    }
    assert RulesetsDriftFree(d.rulesets, after.repositories[d.name].rulesets);
    assert EnvironmentsDriftFree(scene, d.environments, environments);
  }

  /** A complete apply keeps the state drift-free and provisioned, and leaves nothing blocked. */
  lemma RoundKeeps(m: Manifest, reviewers: seq<Reviewer>, selected: set<string>, live: Live)
    requires Ready(m, selected, live) && DriftFree(m, reviewers, selected, live) && Provisioned(m, selected, live)
    ensures var after := Run(live, Plan(m, reviewers, selected, live));
            Ready(m, selected, after) && DriftFree(m, reviewers, selected, after) && Provisioned(m, selected, after)
  {
    var after := Run(live, Plan(m, reviewers, selected, live));
    RunShell(live, Plan(m, reviewers, selected, live));
    forall i | 0 <= i < |m.repositories| && m.repositories[i].name in selected
      ensures var d := m.repositories[i];
              && d.name in after.repositories && RS.Fresh(after.repositories[d.name].rulesets)
              && RepositoryDriftFree(SceneAt(m, reviewers, after, i), RepositoryFacts(m, after.organization, d, after.repositories[d.name]),
                                     d, after.repositories[d.name])
    {
      RoundRulesets(m, reviewers, selected, live, i);
      RoundRepository(m, reviewers, selected, live, i);
    }
    forall i: nat, k: nat | Chosen(m, selected, i, k)
      ensures var d := m.repositories[i].environments[k];
              && At(m, after, i, k).Some?
              && d.requiredSecrets <= At(m, after, i, k).value.secrets
              && d.requiredVariables <= At(m, after, i, k).value.variables.Keys
    {
      Round(m, reviewers, selected, live, i, k);
    }
  }

  /** Convergence: from any state without destructive drift in which every selected environment
      exists with its required secrets and variables, two complete applies leave a state in which
      every check passes, nothing is planned, and a further apply changes nothing. */
  lemma Converges(m: Manifest, reviewers: seq<Reviewer>, selected: set<string>, live: Live)
    requires Ready(m, selected, live) && Provisioned(m, selected, live)
    requires !Inspect(m, reviewers, selected, live).destructive
    ensures var once := Run(live, Plan(m, reviewers, selected, live));
            && Observable(m.repositories, selected, once)
            && var twice := Run(once, Plan(m, reviewers, selected, once));
            && Observable(m.repositories, selected, twice)
            && AllPassed(Inspect(m, reviewers, selected, twice).checks)
            && Plan(m, reviewers, selected, twice) == []
            && Run(twice, Plan(m, reviewers, selected, twice)) == twice
  {
    DestructiveIsDrift(m, reviewers, selected, live);
    RoundKeeps(m, reviewers, selected, live);
    var once := Run(live, Plan(m, reviewers, selected, live));
    RoundKeeps(m, reviewers, selected, once);
    var twice := Run(once, Plan(m, reviewers, selected, once));
    forall i | 0 <= i < |m.repositories| && m.repositories[i].name in selected
      ensures var d := m.repositories[i];
              RepositoryExact(SceneAt(m, reviewers, twice, i), RepositoryFacts(m, twice.organization, d, twice.repositories[d.name]),
                              d, twice.repositories[d.name])
    {
      var d := m.repositories[i];
      RoundRulesets(m, reviewers, selected, once, i);
      RoundRepository(m, reviewers, selected, once, i);
      forall k | 0 <= k < |d.environments|
        ensures EnvironmentExact(SceneAt(m, reviewers, twice, i), d.environments[k], twice.repositories[d.name].environments)
      {
        Round(m, reviewers, selected, live, i, k);
        Round(m, reviewers, selected, once, i, k);
      }
      assert EnvironmentsExact(SceneAt(m, reviewers, twice, i), d.environments, twice.repositories[d.name].environments);
    }
    assert AllClear(m, reviewers, selected, twice);
    PassedMeansClear(m, reviewers, selected, twice);
  }

  /** What one apply leaves of an environment, and of its repository. */
  lemma OnceEnvironment(m: Manifest, reviewers: seq<Reviewer>, selected: set<string>, live: Live, i: nat, k: nat)
    requires Ready(m, selected, live) && DriftFree(m, reviewers, selected, live) && Provisioned(m, selected, live) && Chosen(m, selected, i, k)
    ensures At(m, live, i, k).Some? && m.repositories[i].name in live.repositories
    ensures var once := Run(live, Plan(m, reviewers, selected, live));
            && m.repositories[i].name in once.repositories
            && (EnvironmentExact(SceneAt(m, reviewers, once, i), m.repositories[i].environments[k], once.repositories[m.repositories[i].name].environments)
                <==> EnvironmentBlockers(SceneAt(m, reviewers, live, i), m.repositories[i].environments[k], At(m, live, i, k).value) == [])
  {
    Round(m, reviewers, selected, live, i, k);
    RoundEnvironment(m, reviewers, selected, live, i, k);
  }

  lemma OnceRepository(m: Manifest, reviewers: seq<Reviewer>, selected: set<string>, live: Live, i: nat)
    requires Ready(m, selected, live) && DriftFree(m, reviewers, selected, live) && Provisioned(m, selected, live)
    requires i < |m.repositories| && m.repositories[i].name in selected
    ensures var once, d := Run(live, Plan(m, reviewers, selected, live)), m.repositories[i];
            && d.name in once.repositories
            && (RepositoryExactAt(m, reviewers, once, i) <==>
                EnvironmentsExact(SceneAt(m, reviewers, once, i), d.environments, once.repositories[d.name].environments))
  {
    RoundRulesets(m, reviewers, selected, live, i);
    RoundRepository(m, reviewers, selected, live, i);
  }

  /** Nothing blocks a selected environment. */
  ghost predicate Unblocked(m: Manifest, reviewers: seq<Reviewer>, selected: set<string>, live: Live) {
    forall i: nat, k: nat :: Chosen(m, selected, i, k) && m.repositories[i].name in live.repositories && At(m, live, i, k).Some? ==>
      EnvironmentBlockers(SceneAt(m, reviewers, live, i), m.repositories[i].environments[k], At(m, live, i, k).value) == []
  }

  lemma OnceSelected(m: Manifest, reviewers: seq<Reviewer>, selected: set<string>, live: Live, i: nat)
    requires Ready(m, selected, live) && DriftFree(m, reviewers, selected, live) && Provisioned(m, selected, live)
    requires i < |m.repositories| && m.repositories[i].name in selected
    ensures m.repositories[i].name in live.repositories && m.repositories[i].name in Run(live, Plan(m, reviewers, selected, live)).repositories
    ensures RepositoryExactAt(m, reviewers, Run(live, Plan(m, reviewers, selected, live)), i) <==>
            forall k: nat :: Chosen(m, selected, i, k) ==>
              At(m, live, i, k).Some? && EnvironmentBlockers(SceneAt(m, reviewers, live, i), m.repositories[i].environments[k], At(m, live, i, k).value) == []
  {
    assert m.repositories[i] in m.repositories;
    OnceRepository(m, reviewers, selected, live, i);
    forall k: nat | Chosen(m, selected, i, k)
      ensures At(m, live, i, k).Some?
      ensures var once := Run(live, Plan(m, reviewers, selected, live));
              EnvironmentExact(SceneAt(m, reviewers, once, i), m.repositories[i].environments[k], once.repositories[m.repositories[i].name].environments)
              <==> EnvironmentBlockers(SceneAt(m, reviewers, live, i), m.repositories[i].environments[k], At(m, live, i, k).value) == []
    {
      OnceEnvironment(m, reviewers, selected, live, i, k);
    }
    if forall k: nat :: Chosen(m, selected, i, k) ==>
         At(m, live, i, k).Some? && EnvironmentBlockers(SceneAt(m, reviewers, live, i), m.repositories[i].environments[k], At(m, live, i, k).value) == []
    {
      forall k: nat | k < |m.repositories[i].environments|
        ensures var once := Run(live, Plan(m, reviewers, selected, live));
                EnvironmentExact(SceneAt(m, reviewers, once, i), m.repositories[i].environments[k], once.repositories[m.repositories[i].name].environments)
      {
        assert Chosen(m, selected, i, k);
      }
    }
  }

  /** One apply is enough exactly when nothing blocked any selected environment beforehand: a
      sentinel is withheld for a whole round while its environment is being completed. */
  lemma OneApplyEnough(m: Manifest, reviewers: seq<Reviewer>, selected: set<string>, live: Live)
    requires Ready(m, selected, live) && Provisioned(m, selected, live)
    requires !Inspect(m, reviewers, selected, live).destructive
    ensures var once := Run(live, Plan(m, reviewers, selected, live));
            && Observable(m.repositories, selected, once)
            && (AllPassed(Inspect(m, reviewers, selected, once).checks) <==> Unblocked(m, reviewers, selected, live))
  {
    DestructiveIsDrift(m, reviewers, selected, live);
    RoundKeeps(m, reviewers, selected, live);
    var once := Run(live, Plan(m, reviewers, selected, live));
    PassedMeansClear(m, reviewers, selected, once);
    forall i | 0 <= i < |m.repositories| && m.repositories[i].name in selected
      ensures m.repositories[i].name in live.repositories && m.repositories[i].name in once.repositories
      ensures RepositoryExactAt(m, reviewers, once, i) <==>
              forall k: nat :: Chosen(m, selected, i, k) ==>
                At(m, live, i, k).Some? && EnvironmentBlockers(SceneAt(m, reviewers, live, i), m.repositories[i].environments[k], At(m, live, i, k).value) == []
    {
      OnceSelected(m, reviewers, selected, live, i);
    }
    if AllClear(m, reviewers, selected, once) {
      forall i: nat, k: nat | Chosen(m, selected, i, k) && m.repositories[i].name in live.repositories && At(m, live, i, k).Some?
        ensures EnvironmentBlockers(SceneAt(m, reviewers, live, i), m.repositories[i].environments[k], At(m, live, i, k).value) == []
      {
        assert RepositoryExactAt(m, reviewers, once, i);
      }
    }
    if Unblocked(m, reviewers, selected, live) {
      forall i | 0 <= i < |m.repositories| && m.repositories[i].name in selected ensures RepositoryExactAt(m, reviewers, once, i) {
        forall k: nat | Chosen(m, selected, i, k) ensures At(m, live, i, k).Some? { OnceEnvironment(m, reviewers, selected, live, i, k); }
      }
    }
  }

  // ---------------------------------------------------------------- one apply is not enough

  const SAMPLE_ENVIRONMENT := DesiredEnvironment("e", true, "p", false, {}, {}, {}, {})
  const SAMPLE_REPOSITORY := DesiredRepository("r", MAIN, [SAMPLE_ENVIRONMENT], [], {})
  const SAMPLE_MANIFEST := Manifest("o", {}, [SAMPLE_REPOSITORY])

  /** The environment lacks its branch policy and its sentinel. */
  const SAMPLE_LIVE := Live(Organization(map[], map[], 0, map[], false),
                            map["r" := Repository(false, MAIN, {}, {}, {}, Rulesets(map[], 0),
                                                  map["e" := Environment(false, {}, false, 0, EXACT_MODE, [], map[], {})])])

  const SAMPLE_REVIEWERS := [Reviewer(User, 1)]

  lemma SampleDriftFree()
    ensures Ready(SAMPLE_MANIFEST, {"r"}, SAMPLE_LIVE) && Provisioned(SAMPLE_MANIFEST, {"r"}, SAMPLE_LIVE)
    ensures DriftFree(SAMPLE_MANIFEST, SAMPLE_REVIEWERS, {"r"}, SAMPLE_LIVE)
  {
    assert SAMPLE_MANIFEST.repositories[0] == SAMPLE_REPOSITORY && SAMPLE_REPOSITORY.environments[0] == SAMPLE_ENVIRONMENT;
    assert SAMPLE_REVIEWERS[0] in SAMPLE_REVIEWERS;
    assert Distinguished(SAMPLE_LIVE.organization, SAMPLE_REVIEWERS[0]);
  }

  lemma SampleBlocked(scene: Scene)
    ensures Chosen(SAMPLE_MANIFEST, {"r"}, 0, 0) && At(SAMPLE_MANIFEST, SAMPLE_LIVE, 0, 0).Some?
    ensures EnvironmentBlockers(scene, SAMPLE_MANIFEST.repositories[0].environments[0], At(SAMPLE_MANIFEST, SAMPLE_LIVE, 0, 0).value) != []
  {
    var d, e := SAMPLE_ENVIRONMENT, SAMPLE_LIVE.repositories["r"].environments["e"];
    assert At(SAMPLE_MANIFEST, SAMPLE_LIVE, 0, 0) == Some(e);
    assert BranchPolicyNotExact in ProtectionBlockers(scene, d, e);
  }

  lemma BlockedNeedsTwo(m: Manifest, reviewers: seq<Reviewer>, selected: set<string>, live: Live, i: nat, k: nat)
    requires Ready(m, selected, live) && Provisioned(m, selected, live) && !Inspect(m, reviewers, selected, live).destructive
    requires Chosen(m, selected, i, k) && At(m, live, i, k).Some?
    requires EnvironmentBlockers(SceneAt(m, reviewers, live, i), m.repositories[i].environments[k], At(m, live, i, k).value) != []
    ensures var once := Run(live, Plan(m, reviewers, selected, live));
            Observable(m.repositories, selected, once) && !AllPassed(Inspect(m, reviewers, selected, once).checks)
  {
    OneApplyEnough(m, reviewers, selected, live);
  }

  /** The first apply adds the branch policy and withholds the sentinel. */
  lemma OneApplyNotEnough()
    ensures Ready(SAMPLE_MANIFEST, {"r"}, SAMPLE_LIVE) && Provisioned(SAMPLE_MANIFEST, {"r"}, SAMPLE_LIVE)
    ensures !Inspect(SAMPLE_MANIFEST, SAMPLE_REVIEWERS, {"r"}, SAMPLE_LIVE).destructive
    ensures var once := Run(SAMPLE_LIVE, Plan(SAMPLE_MANIFEST, SAMPLE_REVIEWERS, {"r"}, SAMPLE_LIVE));
            Observable(SAMPLE_MANIFEST.repositories, {"r"}, once) && !AllPassed(Inspect(SAMPLE_MANIFEST, SAMPLE_REVIEWERS, {"r"}, once).checks)
  {
    SampleDriftFree();
    DestructiveIsDrift(SAMPLE_MANIFEST, SAMPLE_REVIEWERS, {"r"}, SAMPLE_LIVE);
    SampleBlocked(SceneAt(SAMPLE_MANIFEST, SAMPLE_REVIEWERS, SAMPLE_LIVE, 0));
    BlockedNeedsTwo(SAMPLE_MANIFEST, SAMPLE_REVIEWERS, {"r"}, SAMPLE_LIVE, 0, 0);
  }
}
