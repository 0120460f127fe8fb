/** Safety over every prefix of every apply run: no environment becomes sealed while something blocks
    its seal. */
module ReleaseSafety {
  import opened Options
  import opened ReleaseState
  import opened ReleaseInspect
  import opened ReleasePlan
  import opened ReleaseExactness
  import RS = ReleaseRulesets
  import RE = ReleaseEnvironments

  // ---------------------------------------------------------------- what a run may do to one cell

  lemma SentToEnvironment(m: Manifest, reviewers: seq<Reviewer>, selected: set<string>, live: Live, n: nat, i: nat, k: nat)
    requires Ready(m, selected, live) && Chosen(m, selected, i, k) && n <= |Plan(m, reviewers, selected, live)|
    ensures var d := m.repositories[i];
            forall s <- OnEnvironment(Plan(m, reviewers, selected, live)[..n], d.name, d.environments[k].name) ::
              !s.OnRulesets() && RE.Sendable(SceneAt(m, reviewers, live, i), d.environments[k], At(m, live, i, k), s)
  {
    var d, plan, all := m.repositories[i], Plan(m, reviewers, selected, live), Inspect(m, reviewers, selected, live);
    var r, e := d.name, d.environments[k].name;
    PlanProject(m, reviewers, selected, live, i, k);
    forall s | s in OnEnvironment(plan[..n], r, e)
      ensures !s.OnRulesets() && RE.Sendable(SceneAt(m, reviewers, live, i), d.environments[k], At(m, live, i, k), s)
    {
      InOnEnvironment(plan[..n], r, e, s);
      InQuarantines(all.mutations, s);
      assert s in plan;
      InOnEnvironment(all.mutations, r, e, s);
      if !all.destructive {
        DestructiveIsDrift(m, reviewers, selected, live);
        assert EnvironmentsDriftFree(SceneAt(m, reviewers, live, i), d.environments, live.repositories[r].environments);
      }
    }
  }

  lemma SentToRulesets(m: Manifest, reviewers: seq<Reviewer>, selected: set<string>, live: Live, n: nat, i: nat)
    requires Ready(m, selected, live) && n <= |Plan(m, reviewers, selected, live)|
    requires i < |m.repositories| && m.repositories[i].name in selected
    ensures var d := m.repositories[i];
            var rulesets := live.repositories[d.name].rulesets;
            forall s <- OnRulesets(Plan(m, reviewers, selected, live)[..n], d.name) ::
              s.OnRulesets() && RS.Planned(d.rulesets, rulesets, s) && s in InspectRulesets(d.name, d.rulesets, rulesets).mutations
              && !Inspect(m, reviewers, selected, live).destructive
  {
    var d, plan, all := m.repositories[i], Plan(m, reviewers, selected, live), Inspect(m, reviewers, selected, live);
    var rulesets := live.repositories[d.name].rulesets;
    PlanProjectRulesets(m, reviewers, selected, live, i);
    RulesetsTargets(d.name, d.rulesets, rulesets);
    forall s | s in OnRulesets(plan[..n], d.name)
      ensures s.OnRulesets() && RS.Planned(d.rulesets, rulesets, s) && s in InspectRulesets(d.name, d.rulesets, rulesets).mutations
              && !all.destructive
    {
      InOnRulesets(plan[..n], d.name, s);
      InQuarantines(all.mutations, s);
      assert s in plan;
      InOnRulesets(all.mutations, d.name, s);
      RS.PlannedMember(d.name, d.rulesets, rulesets, s);
    }
  }

  /** Every selected environment has advanced after any prefix of the run. */
  lemma EnvironmentAfter(m: Manifest, reviewers: seq<Reviewer>, selected: set<string>, live: Live, n: nat, i: nat, k: nat)
    requires Ready(m, selected, live) && Chosen(m, selected, i, k) && n <= |Plan(m, reviewers, selected, live)|
    ensures RE.Advanced(SceneAt(m, reviewers, live, i), m.repositories[i].environments[k],
                        At(m, live, i, k), At(m, After(m, reviewers, selected, live, n), i, k))
  {
    var d := m.repositories[i];
    var steps := OnEnvironment(Plan(m, reviewers, selected, live)[..n], d.name, d.environments[k].name);
    SentToEnvironment(m, reviewers, selected, live, n, i, k);
    RunOnEnvironment(live, Plan(m, reviewers, selected, live)[..n], d.name, d.environments[k].name);
    RE.RunAdvances(live.organization.bypassDefault, SceneAt(m, reviewers, live, i), d.environments[k], At(m, live, i, k), steps);
  }

  lemma RulesetsAfter(m: Manifest, reviewers: seq<Reviewer>, selected: set<string>, live: Live, n: nat, i: nat)
    requires Ready(m, selected, live) && n <= |Plan(m, reviewers, selected, live)|
    requires i < |m.repositories| && m.repositories[i].name in selected
    ensures SameShell(live, After(m, reviewers, selected, live, n))
    ensures var d := m.repositories[i];
            RS.Advanced(d.rulesets, live.repositories[d.name].rulesets, After(m, reviewers, selected, live, n).repositories[d.name].rulesets)
  {
    var d := m.repositories[i];
    RunShell(live, Plan(m, reviewers, selected, live)[..n]);
    SentToRulesets(m, reviewers, selected, live, n, i);
    RunOnRulesets(live, Plan(m, reviewers, selected, live)[..n], d.name);
    RS.RunAdvances(d.rulesets, live.repositories[d.name].rulesets, OnRulesets(Plan(m, reviewers, selected, live)[..n], d.name));
  }

  /** Repository blockers that are absent stay absent. */
  lemma SceneKept(m: Manifest, reviewers: seq<Reviewer>, selected: set<string>, live: Live, n: nat, i: nat, profile: bool)
    requires Ready(m, selected, live) && n <= |Plan(m, reviewers, selected, live)|
    requires i < |m.repositories| && m.repositories[i].name in selected
    requires Scoped(profile, SceneAt(m, reviewers, live, i).blockers) == []
    ensures m.repositories[i].name in After(m, reviewers, selected, live, n).repositories
    ensures Scoped(profile, SceneAt(m, reviewers, After(m, reviewers, selected, live, n), i).blockers) == []
  {
    var d, after := m.repositories[i], After(m, reviewers, selected, live, n);
    RulesetsAfter(m, reviewers, selected, live, n, i);
    FactsShell(m, live, after, i);
    SceneBlockers(m, reviewers, live, i, profile);
    SceneBlockers(m, reviewers, after, i, profile);
    RS.NoBlockers(d.rulesets, live.repositories[d.name].rulesets);
    RS.NoBlockers(d.rulesets, after.repositories[d.name].rulesets);
    forall c | c in d.rulesets ensures Classify(after.repositories[d.name].rulesets, c) == Exact {
      RS.ExactKept(d.rulesets, live.repositories[d.name].rulesets, after.repositories[d.name].rulesets, c);
    }
  }

  // ---------------------------------------------------------------- seal safety

  /** No prefix of a run seals a blocked environment or blocks a sealed one. */
  lemma SealedBlockedFromStart(m: Manifest, reviewers: seq<Reviewer>, selected: set<string>, live: Live, n: nat, i: nat, k: nat)
    requires Ready(m, selected, live) && Chosen(m, selected, i, k) && n <= |Plan(m, reviewers, selected, live)|
    requires m.repositories[i].name in After(m, reviewers, selected, live, n).repositories
    requires SealedBlocked(m, reviewers, After(m, reviewers, selected, live, n), i, k)
    ensures SealedBlocked(m, reviewers, live, i, k)
  {
    var d, after := m.repositories[i].environments[k], After(m, reviewers, selected, live, n);
    var scene, later := SceneAt(m, reviewers, live, i), SceneAt(m, reviewers, after, i);
    EnvironmentAfter(m, reviewers, selected, live, n, i, k);
    if Scoped(d.profile, scene.blockers) == [] { SceneKept(m, reviewers, selected, live, n, i, d.profile); }
    RE.SealKept(scene, later, d, At(m, live, i, k), At(m, after, i, k).value);
  }

  lemma First<T>(s: seq<T>) returns (x: T)
    requires s != []
    ensures x in s
  {
    x := s[0];
  }

  lemma NoMembers<T(!new)>(s: seq<T>)
    requires forall x :: x !in s
    ensures s == []
  {
    if s != [] {
      var x := First(s);
      assert false;
    }
  }

  /** While destructive drift lasts, `apply` sends quarantine requests only, so the repository's
      own blockers cannot change. */
  lemma QuarantineKeepsScene(m: Manifest, reviewers: seq<Reviewer>, selected: set<string>, live: Live, n: nat, i: nat)
    requires Ready(m, selected, live) && n <= |Plan(m, reviewers, selected, live)|
    requires i < |m.repositories| && m.repositories[i].name in selected
    requires Inspect(m, reviewers, selected, live).destructive
    ensures m.repositories[i].name in After(m, reviewers, selected, live, n).repositories
    ensures SceneAt(m, reviewers, After(m, reviewers, selected, live, n), i) == SceneAt(m, reviewers, live, i)
  {
    var d, steps := m.repositories[i], Plan(m, reviewers, selected, live)[..n];
    RunShell(live, steps);
    SentToRulesets(m, reviewers, selected, live, n, i);
    NoMembers(OnRulesets(steps, d.name));
    RunOnRulesets(live, steps, d.name);
    FactsShell(m, live, After(m, reviewers, selected, live, n), i);
  }

  /** An environment still sealed and blocked after `n` requests has received none of them. */
  lemma UntouchedWhileSealedBlocked(m: Manifest, reviewers: seq<Reviewer>, selected: set<string>, live: Live, n: nat, i: nat, k: nat)
    requires Ready(m, selected, live) && Chosen(m, selected, i, k) && n <= |Plan(m, reviewers, selected, live)|
    requires m.repositories[i].name in After(m, reviewers, selected, live, n).repositories
    requires SealedBlocked(m, reviewers, After(m, reviewers, selected, live, n), i, k)
    ensures SealedBlocked(m, reviewers, live, i, k) && Inspect(m, reviewers, selected, live).destructive
    ensures OnEnvironment(Plan(m, reviewers, selected, live)[..n], m.repositories[i].name, m.repositories[i].environments[k].name) == []
  {
    var r, d, scene := m.repositories[i], m.repositories[i].environments[k], SceneAt(m, reviewers, live, i);
    var plan, steps := Plan(m, reviewers, selected, live), OnEnvironment(Plan(m, reviewers, selected, live)[..n], r.name, d.name);
    SealedBlockedFromStart(m, reviewers, selected, live, n, i, k);
    RE.WithdrawalPlanned(scene, d, At(m, live, i, k).value);
    DestructiveIsDrift(m, reviewers, selected, live);
    SentToEnvironment(m, reviewers, selected, live, n, i, k);
    forall s | s in steps ensures s == RE.Withdrawal(scene, d) {
      InOnEnvironment(plan[..n], r.name, d.name, s);
      InQuarantines(Inspect(m, reviewers, selected, live).mutations, s);
      assert s in plan;
    }
    RunOnEnvironment(live, plan[..n], r.name, d.name);
    if steps != [] { RE.WithdrawalUnseals(live.organization.bypassDefault, scene, d, At(m, live, i, k), steps); }
  }

  lemma PrefixUntouched(plan: seq<Mutation>, a: nat, b: nat, r: string, e: string)
    requires a <= b <= |plan| && OnEnvironment(plan[..b], r, e) == []
    ensures OnEnvironment(plan[..a], r, e) == []
  {
    assert plan[..b] == plan[..a] + plan[a..b];
    OnEnvironmentConcat(plan[..a], plan[a..b], r, e);
  }

  lemma UntouchedStaysSealedBlocked(m: Manifest, reviewers: seq<Reviewer>, selected: set<string>, live: Live, n: nat, i: nat, k: nat)
    requires Ready(m, selected, live) && Chosen(m, selected, i, k) && n <= |Plan(m, reviewers, selected, live)|
    requires SealedBlocked(m, reviewers, live, i, k) && Inspect(m, reviewers, selected, live).destructive
    requires OnEnvironment(Plan(m, reviewers, selected, live)[..n], m.repositories[i].name, m.repositories[i].environments[k].name) == []
    ensures m.repositories[i].name in After(m, reviewers, selected, live, n).repositories
    ensures SealedBlocked(m, reviewers, After(m, reviewers, selected, live, n), i, k)
  {
    var r, e, plan := m.repositories[i].name, m.repositories[i].environments[k].name, Plan(m, reviewers, selected, live);
    RunOnEnvironment(live, plan[..n], r, e);
    QuarantineKeepsScene(m, reviewers, selected, live, n, i);
    assert At(m, After(m, reviewers, selected, live, n), i, k) == At(m, live, i, k);
  }

  /** Seal safety: along every run, the selected environments that are sealed although blocked
      never grow. */
  lemma SealSafety(m: Manifest, reviewers: seq<Reviewer>, selected: set<string>, live: Live, a: nat, b: nat, i: nat, k: nat)
    requires Ready(m, selected, live) && Chosen(m, selected, i, k) && a <= b <= |Plan(m, reviewers, selected, live)|
    ensures m.repositories[i].name in After(m, reviewers, selected, live, a).repositories
    ensures m.repositories[i].name in After(m, reviewers, selected, live, b).repositories
    ensures SealedBlocked(m, reviewers, After(m, reviewers, selected, live, b), i, k)
        ==> SealedBlocked(m, reviewers, After(m, reviewers, selected, live, a), i, k)
  {
    var r, e, plan := m.repositories[i].name, m.repositories[i].environments[k].name, Plan(m, reviewers, selected, live);
    RunShell(live, plan[..a]);
    RunShell(live, plan[..b]);
    if SealedBlocked(m, reviewers, After(m, reviewers, selected, live, b), i, k) {
      UntouchedWhileSealedBlocked(m, reviewers, selected, live, b, i, k);
      PrefixUntouched(plan, a, b, r, e);
      UntouchedStaysSealedBlocked(m, reviewers, selected, live, a, i, k);
    }
  }

  /** After an apply whose requests all succeeded, every sealed selected environment is exact. */
  lemma SealedIsExactAfterApply(m: Manifest, reviewers: seq<Reviewer>, selected: set<string>, live: Live, i: nat, k: nat)
    requires Ready(m, selected, live) && Chosen(m, selected, i, k)
    ensures var after := Run(live, Plan(m, reviewers, selected, live));
            var d := m.repositories[i].environments[k];
            && m.repositories[i].name in after.repositories
            && (At(m, after, i, k).Some? && Sealed(d, At(m, after, i, k).value) ==>
                  && Scoped(d.profile, SceneAt(m, reviewers, after, i).blockers) == []
                  && RE.Project(d, At(m, after, i, k).value)
                     == RE.DesiredProjection(d, Expected(SceneAt(m, reviewers, after, i), d)))
  {
    var plan := Plan(m, reviewers, selected, live);
    var r, d, after := m.repositories[i], m.repositories[i].environments[k], Run(live, plan);
    var scene := SceneAt(m, reviewers, live, i);
    assert plan[..|plan|] == plan;
    RunShell(live, plan);
    if SealedBlocked(m, reviewers, after, i, k) {
      UntouchedWhileSealedBlocked(m, reviewers, selected, live, |plan|, i, k);
      RE.WithdrawalPlanned(scene, d, At(m, live, i, k).value);
      PlanProject(m, reviewers, selected, live, i, k);
      var s := RE.Withdrawal(scene, d);
      InOnEnvironment(Inspect(m, reviewers, selected, live).mutations, r.name, d.name, s);
      InQuarantines(Inspect(m, reviewers, selected, live).mutations, s);
      InOnEnvironment(plan, r.name, d.name, s);
      assert false;
    }
    if At(m, after, i, k).Some? { RE.UnblockedIsExact(SceneAt(m, reviewers, after, i), d, At(m, after, i, k).value); }
  }
}
