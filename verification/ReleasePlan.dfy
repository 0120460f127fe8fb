/** How a plan acts on one part of the live state. Every request touches either one environment
    or one repository's rulesets, so a run restricted to such a cell is the run of the requests
    that target it. */
module ReleasePlan {
  import opened Options
  import opened ReleaseState
  import opened ReleaseInspect

  function OnEnvironment(plan: seq<Mutation>, r: string, e: string): (steps: seq<Mutation>)
    ensures forall m <- steps :: m.OnEnvironment(r, e)
  {
    if plan == [] then []
    else OnEnvironment(plan[..|plan| - 1], r, e) + When(plan[|plan| - 1].OnEnvironment(r, e), plan[|plan| - 1])
  }

  function OnRulesets(plan: seq<Mutation>, r: string): (steps: seq<Mutation>)
    ensures forall m <- steps :: m.OnRulesetsOf(r)
  {
    if plan == [] then []
    else OnRulesets(plan[..|plan| - 1], r) + When(plan[|plan| - 1].OnRulesetsOf(r), plan[|plan| - 1])
  }

  function Quarantines(plan: seq<Mutation>): (steps: seq<Mutation>)
    ensures forall m <- steps :: IsQuarantine(m.reason)
  {
    if plan == [] then []
    else Quarantines(plan[..|plan| - 1]) + When(IsQuarantine(plan[|plan| - 1].reason), plan[|plan| - 1])
  }

  /** What `apply` sends: under destructive drift, quarantine requests only. */
  function Executed(inspection: Inspection): seq<Mutation> {
    if inspection.destructive then Quarantines(inspection.mutations) else inspection.mutations
  }

  // ---------------------------------------------------------------- runs, cell by cell

  /** The parts no request can change. */
  ghost predicate SameShell(before: Live, after: Live) {
    && after.organization == before.organization
    && after.repositories.Keys == before.repositories.Keys
    && forall r <- before.repositories ::
         var o, n := before.repositories[r], after.repositories[r];
         n.isPrivate == o.isPrivate && n.defaultBranch == o.defaultBranch && n.variables == o.variables
         && n.secrets == o.secrets && n.contexts == o.contexts
  }

  lemma {:induction false} RunShell(live: Live, plan: seq<Mutation>)
    ensures SameShell(live, Run(live, plan))
  {
    if plan != [] { RunShell(live, plan[..|plan| - 1]); }
  }

  lemma StepOnEnvironment(live: Live, m: Mutation, r: string, e: string)
    requires r in live.repositories
    ensures EnvironmentAt(Step(live, m), r, e)
         == if m.OnEnvironment(r, e) then StepEnvironment(live.organization.bypassDefault, EnvironmentAt(live, r, e), m)
            else EnvironmentAt(live, r, e)
  {}

  lemma {:induction false} RunOnEnvironment(live: Live, plan: seq<Mutation>, r: string, e: string)
    requires r in live.repositories
    ensures EnvironmentAt(Run(live, plan), r, e)
         == RunEnvironment(live.organization.bypassDefault, EnvironmentAt(live, r, e), OnEnvironment(plan, r, e))
  {
    if plan != [] {
      var rest, last := plan[..|plan| - 1], plan[|plan| - 1];
      RunOnEnvironment(live, rest, r, e);
      RunShell(live, rest);
      StepOnEnvironment(Run(live, rest), last, r, e);
      var steps := OnEnvironment(plan, r, e);
      assert if last.OnEnvironment(r, e) then steps[..|steps| - 1] == OnEnvironment(rest, r, e) else steps == OnEnvironment(rest, r, e);
    }
  }

  lemma {:induction false} RunOnRulesets(live: Live, plan: seq<Mutation>, r: string)
    requires r in live.repositories
    ensures r in Run(live, plan).repositories
    ensures Run(live, plan).repositories[r].rulesets == RunRulesets(live.repositories[r].rulesets, OnRulesets(plan, r))
  {
    RunShell(live, plan);
    if plan != [] {
      var rest, last := plan[..|plan| - 1], plan[|plan| - 1];
      RunOnRulesets(live, rest, r);
      var steps := OnRulesets(plan, r);
      if last.OnRulesetsOf(r) {
        assert steps[..|steps| - 1] == OnRulesets(rest, r);
      } else {
        assert steps == OnRulesets(rest, r);
      }
    }
  }

  // ---------------------------------------------------------------- projections distribute

  lemma {:induction false} OnEnvironmentConcat(a: seq<Mutation>, b: seq<Mutation>, r: string, e: string)
    ensures OnEnvironment(a + b, r, e) == OnEnvironment(a, r, e) + OnEnvironment(b, r, e)
  {
    if b == [] {
      assert a + b == a;
    } else {
      assert (a + b)[..|a + b| - 1] == a + b[..|b| - 1];
      OnEnvironmentConcat(a, b[..|b| - 1], r, e);
    }
  }

  lemma {:induction false} OnRulesetsConcat(a: seq<Mutation>, b: seq<Mutation>, r: string)
    ensures OnRulesets(a + b, r) == OnRulesets(a, r) + OnRulesets(b, r)
  {
    if b == [] {
      assert a + b == a;
    } else {
      assert (a + b)[..|a + b| - 1] == a + b[..|b| - 1];
      OnRulesetsConcat(a, b[..|b| - 1], r);
    }
  }

  lemma {:induction false} QuarantinesOnEnvironment(plan: seq<Mutation>, r: string, e: string)
    ensures OnEnvironment(Quarantines(plan), r, e) == Quarantines(OnEnvironment(plan, r, e))
  {
    if plan != [] {
      var rest, last := plan[..|plan| - 1], plan[|plan| - 1];
      QuarantinesOnEnvironment(rest, r, e);
      var q, steps := Quarantines(plan), OnEnvironment(plan, r, e);
      if IsQuarantine(last.reason) { assert q[..|q| - 1] == Quarantines(rest); } else { assert q == Quarantines(rest); }
      if last.OnEnvironment(r, e) { assert steps[..|steps| - 1] == OnEnvironment(rest, r, e); } else { assert steps == OnEnvironment(rest, r, e); }
    }
  }

  /** A plan all of whose requests target the cell projects to itself. */
  lemma {:induction false} OnEnvironmentAll(plan: seq<Mutation>, r: string, e: string)
    requires forall m <- plan :: m.OnEnvironment(r, e)
    ensures OnEnvironment(plan, r, e) == plan
  {
    if plan != [] {
      var rest, last := plan[..|plan| - 1], plan[|plan| - 1];
      assert plan == rest + [last] && last in plan;
      OnEnvironmentAll(rest, r, e);
    }
  }

  lemma {:induction false} OnEnvironmentNone(plan: seq<Mutation>, r: string, e: string)
    requires forall m <- plan :: !m.OnEnvironment(r, e)
    ensures OnEnvironment(plan, r, e) == []
  {
    if plan != [] {
      var rest, last := plan[..|plan| - 1], plan[|plan| - 1];
      assert plan == rest + [last] && last in plan;
      OnEnvironmentNone(rest, r, e);
    }
  }

  lemma {:induction false} OnRulesetsAll(plan: seq<Mutation>, r: string)
    requires forall m <- plan :: m.OnRulesetsOf(r)
    ensures OnRulesets(plan, r) == plan
  {
    if plan != [] {
      var rest, last := plan[..|plan| - 1], plan[|plan| - 1];
      assert plan == rest + [last] && last in plan;
      OnRulesetsAll(rest, r);
    }
  }

  lemma {:induction false} OnRulesetsNone(plan: seq<Mutation>, r: string)
    requires forall m <- plan :: !m.OnRulesetsOf(r)
    ensures OnRulesets(plan, r) == []
  {
    if plan != [] {
      var rest, last := plan[..|plan| - 1], plan[|plan| - 1];
      assert plan == rest + [last] && last in plan;
      OnRulesetsNone(rest, r);
    }
  }

  // ---------------------------------------------------------------- what an inspection plans for one cell

  function Find(environments: map<string, Environment>, name: string): Option<Environment> {
    if name in environments then Some(environments[name]) else None
  }

  lemma PartTargets(scene: Scene, d: DesiredEnvironment, e: Environment)
    ensures forall m <- ReviewerMutations(scene, d, e) :: m.OnEnvironment(scene.repository, d.name)
    ensures forall m <- BranchMutations(scene, d, e) :: m.OnEnvironment(scene.repository, d.name)
    ensures forall m <- SentinelMutations(scene, d, e) :: m.OnEnvironment(scene.repository, d.name)
  {}

  lemma CreationTargets(scene: Scene, d: DesiredEnvironment)
    ensures forall m <- CreationMutations(scene, d) :: m.OnEnvironment(scene.repository, d.name)
  {}

  lemma EnvironmentTargets(scene: Scene, d: DesiredEnvironment, environment: Option<Environment>)
    ensures forall m <- EnvironmentMutations(scene, d, environment) :: m.OnEnvironment(scene.repository, d.name)
  {
    if environment.Some? { PartTargets(scene, d, environment.value); } else { CreationTargets(scene, d); }
  }

  lemma {:induction false} EnvironmentsTargets(scene: Scene, ds: seq<DesiredEnvironment>, environments: map<string, Environment>)
    ensures forall m <- InspectEnvironments(scene, ds, environments).mutations :: !m.OnRulesets() && m.repository == scene.repository
  {
    if ds != [] {
      EnvironmentsTargets(scene, ds[..|ds| - 1], environments);
      EnvironmentTargets(scene, ds[|ds| - 1], Find(environments, ds[|ds| - 1].name));
    }
  }

  lemma {:induction false} RulesetsTargets(r: string, ds: seq<Ruleset>, rulesets: Rulesets)
    ensures forall m <- InspectRulesets(r, ds, rulesets).mutations :: m.OnRulesetsOf(r)
    ensures forall m <- InspectRulesets(r, ds, rulesets).mutations :: !IsQuarantine(m.reason)
  {
    if ds != [] { RulesetsTargets(r, ds[..|ds| - 1], rulesets); }
  }

  lemma {:induction false} EnvironmentsProject(scene: Scene, ds: seq<DesiredEnvironment>, environments: map<string, Environment>, k: nat, d: DesiredEnvironment)
    requires forall i, j :: 0 <= i < j < |ds| ==> ds[i].name != ds[j].name
    requires if k < |ds| then ds[k] == d else forall i :: 0 <= i < |ds| ==> ds[i].name != d.name
    ensures OnEnvironment(InspectEnvironments(scene, ds, environments).mutations, scene.repository, d.name)
         == if k < |ds| then EnvironmentMutations(scene, d, Find(environments, d.name)) else []
  {
    if ds != [] {
      var rest, last := ds[..|ds| - 1], ds[|ds| - 1];
      var mine := EnvironmentMutations(scene, last, Find(environments, last.name));
      EnvironmentsProject(scene, rest, environments, if k < |rest| then k else |rest|, d);
      OnEnvironmentConcat(InspectEnvironments(scene, rest, environments).mutations, mine, scene.repository, d.name);
      EnvironmentTargets(scene, last, Find(environments, last.name));
      if k == |rest| {
        OnEnvironmentAll(mine, scene.repository, d.name);
      } else {
        OnEnvironmentNone(mine, scene.repository, d.name);
      }
    }
  }

  /** A repository's plan, seen from one of its environments. */
  lemma PartsProject(scene: Scene, d: DesiredRepository, repository: Repository, k: nat)
    requires scene.repository == d.name && d.Valid() && k < |d.environments|
    ensures var plan := InspectRulesets(d.name, d.rulesets, repository.rulesets).mutations
                        + InspectEnvironments(scene, d.environments, repository.environments).mutations;
            && OnEnvironment(plan, d.name, d.environments[k].name)
               == EnvironmentMutations(scene, d.environments[k], Find(repository.environments, d.environments[k].name))
  {
    var rulesets := InspectRulesets(d.name, d.rulesets, repository.rulesets).mutations;
    var environments := InspectEnvironments(scene, d.environments, repository.environments).mutations;
    OnEnvironmentConcat(rulesets, environments, d.name, d.environments[k].name);
    RulesetsTargets(d.name, d.rulesets, repository.rulesets);
    OnEnvironmentNone(rulesets, d.name, d.environments[k].name);
    EnvironmentsProject(scene, d.environments, repository.environments, k, d.environments[k]);
  }

  /** A repository's plan, seen from its rulesets. */
  lemma PartsProjectRulesets(scene: Scene, d: DesiredRepository, repository: Repository)
    requires scene.repository == d.name
    ensures var plan := InspectRulesets(d.name, d.rulesets, repository.rulesets).mutations
                        + InspectEnvironments(scene, d.environments, repository.environments).mutations;
            OnRulesets(plan, d.name) == InspectRulesets(d.name, d.rulesets, repository.rulesets).mutations
  {
    var rulesets := InspectRulesets(d.name, d.rulesets, repository.rulesets).mutations;
    var environments := InspectEnvironments(scene, d.environments, repository.environments).mutations;
    OnRulesetsConcat(rulesets, environments, d.name);
    RulesetsTargets(d.name, d.rulesets, repository.rulesets);
    OnRulesetsAll(rulesets, d.name);
    EnvironmentsTargets(scene, d.environments, repository.environments);
    OnRulesetsNone(environments, d.name);
  }

  lemma RepositoryTargets(m: Manifest, reviewers: seq<Reviewer>, organization: Organization, d: DesiredRepository, repository: Repository)
    ensures forall s <- InspectRepository(m, reviewers, organization, d, repository).mutations :: s.repository == d.name
  {
    RulesetsTargets(d.name, d.rulesets, repository.rulesets);
    EnvironmentsTargets(SceneOf(m, reviewers, organization, d, repository), d.environments, repository.environments);
  }

  /** `ds[i]` is the only repository of `ds` whose requests reach the cells of `ds[i]`. */
  lemma {:induction false} RepositoriesProject(m: Manifest, reviewers: seq<Reviewer>, selected: set<string>, live: Live,
                                               ds: seq<DesiredRepository>, i: nat, d: DesiredRepository, e: string)
    requires Observable(ds, selected, live)
    requires d.name in selected && d.name in live.repositories
    requires forall a, b :: 0 <= a < b < |ds| ==> ds[a].name != ds[b].name
    requires if i < |ds| then ds[i] == d else forall a :: 0 <= a < |ds| ==> ds[a].name != d.name
    ensures var own := InspectRepository(m, reviewers, live.organization, d, live.repositories[d.name]).mutations;
            var all := InspectRepositories(m, reviewers, selected, live, ds).mutations;
            && OnEnvironment(all, d.name, e) == (if i < |ds| then OnEnvironment(own, d.name, e) else [])
            && OnRulesets(all, d.name) == (if i < |ds| then OnRulesets(own, d.name) else [])
  {
    if ds != [] {
      var rest, last := ds[..|ds| - 1], ds[|ds| - 1];
      RepositoriesProject(m, reviewers, selected, live, rest, if i < |rest| then i else |rest|, d, e);
      if last.name in selected {
        var earlier := InspectRepositories(m, reviewers, selected, live, rest).mutations;
        var mine := InspectRepository(m, reviewers, live.organization, last, live.repositories[last.name]).mutations;
        OnEnvironmentConcat(earlier, mine, d.name, e);
        OnRulesetsConcat(earlier, mine, d.name);
        if i != |rest| {
          RepositoryTargets(m, reviewers, live.organization, last, live.repositories[last.name]);
          OnEnvironmentNone(mine, d.name, e);
          OnRulesetsNone(mine, d.name);
        }
      }
    }
  }

  /** The whole plan, seen from one selected environment and from its repository's rulesets. */
  lemma PlanProject(m: Manifest, reviewers: seq<Reviewer>, selected: set<string>, live: Live, i: nat, k: nat)
    requires m.Valid() && Observable(m.repositories, selected, live)
    requires i < |m.repositories| && m.repositories[i].name in selected && k < |m.repositories[i].environments|
    ensures var d := m.repositories[i];
            var repository := live.repositories[d.name];
            OnEnvironment(Inspect(m, reviewers, selected, live).mutations, d.name, d.environments[k].name)
            == EnvironmentMutations(SceneOf(m, reviewers, live.organization, d, repository), d.environments[k],
                                    EnvironmentAt(live, d.name, d.environments[k].name))
  {
    var d := m.repositories[i];
    RepositoriesProject(m, reviewers, selected, live, m.repositories, i, d, d.environments[k].name);
    PartsProject(SceneOf(m, reviewers, live.organization, d, live.repositories[d.name]), d, live.repositories[d.name], k);
    assert Inspect(m, reviewers, selected, live).mutations == InspectRepositories(m, reviewers, selected, live, m.repositories).mutations;
  }

  lemma PlanProjectRulesets(m: Manifest, reviewers: seq<Reviewer>, selected: set<string>, live: Live, i: nat)
    requires m.Valid() && Observable(m.repositories, selected, live)
    requires i < |m.repositories| && m.repositories[i].name in selected
    ensures var d := m.repositories[i];
            OnRulesets(Inspect(m, reviewers, selected, live).mutations, d.name)
            == InspectRulesets(d.name, d.rulesets, live.repositories[d.name].rulesets).mutations
  {
    var d := m.repositories[i];
    RepositoriesProject(m, reviewers, selected, live, m.repositories, i, d, "");
    PartsProjectRulesets(SceneOf(m, reviewers, live.organization, d, live.repositories[d.name]), d, live.repositories[d.name]);
    assert Inspect(m, reviewers, selected, live).mutations == InspectRepositories(m, reviewers, selected, live, m.repositories).mutations;
  }
}
