/** The server accepts every request of a plan in the order the plan gives them, so an apply can
    fail only in transport. */
module ReleaseAcceptance {
  import opened Options
  import opened ReleaseState
  import opened ReleaseInspect
  import opened ReleasePlan
  import opened ReleaseExactness
  import opened ReleaseSafety
  import opened ReleaseConvergence
  import RS = ReleaseRulesets
  import RE = ReleaseEnvironments

  // ---------------------------------------------------------------- environments

  ghost predicate Smooth(bypass: bool, environment: Option<Environment>, plan: seq<Mutation>) {
    && (forall s <- plan :: !s.OnRulesets())
    && forall j :: 0 <= j < |plan| ==> AcceptsEnvironment(RunEnvironment(bypass, environment, plan[..j]), plan[j])
  }

  lemma SmoothConcat(bypass: bool, environment: Option<Environment>, a: seq<Mutation>, b: seq<Mutation>)
    requires Smooth(bypass, environment, a) && Smooth(bypass, RunEnvironment(bypass, environment, a), b)
    ensures Smooth(bypass, environment, a + b)
  {
    forall j | 0 <= j < |a + b| ensures AcceptsEnvironment(RunEnvironment(bypass, environment, (a + b)[..j]), (a + b)[j]) {
      if j < |a| {
        assert (a + b)[..j] == a[..j];
      } else {
        assert (a + b)[..j] == a + b[..j - |a|];
        RE.RunConcat(bypass, environment, a, b[..j - |a|]);
      }
    }
  }

  lemma SmoothOne(bypass: bool, environment: Option<Environment>, steps: seq<Mutation>)
    requires |steps| <= 1 && forall s <- steps :: !s.OnRulesets() && AcceptsEnvironment(environment, s)
    ensures Smooth(bypass, environment, steps)
  {
    if steps != [] { assert steps[..0] == []; assert steps[0] in steps; }
  }

  lemma {:induction false} QuarantinesConcat(a: seq<Mutation>, b: seq<Mutation>)
    ensures Quarantines(a + b) == Quarantines(a) + Quarantines(b)
  {
    if b == [] {
      assert a + b == a;
    } else {
      var rest, last := b[..|b| - 1], b[|b| - 1];
      QuarantinesConcat(a, rest);
      assert (a + b)[..|a + b| - 1] == a + rest && (a + b)[|a + b| - 1] == last;
      var tail := When(IsQuarantine(last.reason), last);
      assert Quarantines(a + b) == Quarantines(a + rest) + tail;
      assert Quarantines(a) + Quarantines(rest) + tail == Quarantines(a) + (Quarantines(rest) + tail);
    }
  }

  lemma QuarantinesOne(steps: seq<Mutation>)
    requires |steps| <= 1
    ensures Quarantines(steps) == if steps != [] && IsQuarantine(steps[0].reason) then steps else []
  {
    if steps != [] { assert steps[..0] == []; }
  }

  lemma OnlyLastQuarantines(a: seq<Mutation>, b: seq<Mutation>, c: seq<Mutation>)
    requires |a| <= 1 && |b| <= 1 && |c| <= 1
    requires forall s <- a + b :: !IsQuarantine(s.reason)
    ensures Quarantines(a + b + c) == if c != [] && IsQuarantine(c[0].reason) then c else []
  {
    QuarantinesConcat(a + b, c);
    QuarantinesConcat(a, b);
    if a != [] { assert a[0] in a + b; }
    if b != [] { assert b[0] in a + b; }
    QuarantinesOne(a);
    QuarantinesOne(b);
    QuarantinesOne(c);
  }

  /** Three requests, at most one each, accepted one after the other. */
  lemma SmoothThree(bypass: bool, e: Option<Environment>, a: seq<Mutation>, b: seq<Mutation>, c: seq<Mutation>)
    requires |a| <= 1 && |b| <= 1 && |c| <= 1
    requires forall s <- a :: !s.OnRulesets() && AcceptsEnvironment(e, s)
    requires forall s <- b :: !s.OnRulesets() && AcceptsEnvironment(RunEnvironment(bypass, e, a), s)
    requires forall s <- c :: !s.OnRulesets() && AcceptsEnvironment(RunEnvironment(bypass, RunEnvironment(bypass, e, a), b), s)
    ensures Smooth(bypass, e, a + b + c)
  {
    var e1 := RunEnvironment(bypass, e, a);
    SmoothOne(bypass, e, a);
    SmoothOne(bypass, e1, b);
    SmoothConcat(bypass, e, a, b);
    RE.RunConcat(bypass, e, a, b);
    SmoothOne(bypass, RunEnvironment(bypass, e1, b), c);
    SmoothConcat(bypass, e, a + b, c);
  }

  lemma SentinelAccepted(scene: Scene, d: DesiredEnvironment, e: Environment)
    ensures |SentinelMutations(scene, d, e)| <= 1
    ensures forall s <- SentinelMutations(scene, d, e) :: !s.OnRulesets() && AcceptsEnvironment(Some(e), s)
  {}

  lemma RestrictionsNotQuarantine(scene: Scene, d: DesiredEnvironment, e: Environment)
    ensures |ReviewerMutations(scene, d, e)| <= 1 && |BranchMutations(scene, d, e)| <= 1
    ensures forall s <- ReviewerMutations(scene, d, e) + BranchMutations(scene, d, e) :: !IsQuarantine(s.reason)
  {}

  lemma QuarantineSmooth(bypass: bool, e: Environment, a: seq<Mutation>, b: seq<Mutation>, c: seq<Mutation>)
    requires |a| <= 1 && |b| <= 1 && |c| <= 1
    requires forall s <- a + b :: !IsQuarantine(s.reason)
    requires forall s <- c :: !s.OnRulesets() && AcceptsEnvironment(Some(e), s)
    ensures Smooth(bypass, Some(e), Quarantines(a + b + c))
  {
    OnlyLastQuarantines(a, b, c);
    SmoothOne(bypass, Some(e), if c != [] && IsQuarantine(c[0].reason) then c else []);
  }

  /** What reaches an existing environment whose drift blocks ordinary reconciliation. */
  lemma ExistingQuarantineSmooth(bypass: bool, scene: Scene, d: DesiredEnvironment, e: Environment)
    ensures Smooth(bypass, Some(e), Quarantines(EnvironmentMutations(scene, d, Some(e))))
  {
    SentinelAccepted(scene, d, e);
    RestrictionsNotQuarantine(scene, d, e);
    QuarantineSmooth(bypass, e, ReviewerMutations(scene, d, e), BranchMutations(scene, d, e), SentinelMutations(scene, d, e));
  }

  lemma ExistingSmooth(bypass: bool, scene: Scene, d: DesiredEnvironment, e: Environment)
    requires !EnvironmentDestructive(scene, d, e)
    ensures Smooth(bypass, Some(e), EnvironmentMutations(scene, d, Some(e)))
  {
    var a, b, c := ReviewerMutations(scene, d, e), BranchMutations(scene, d, e), SentinelMutations(scene, d, e);
    RE.RunOne(bypass, Some(e), a);
    var e1 := RunEnvironment(bypass, Some(e), a);
    RE.RunOne(bypass, e1, b);
    SmoothThree(bypass, Some(e), a, b, c);
  }

  function CreationQuarantine(scene: Scene, d: DesiredEnvironment): seq<Mutation> {
    When(scene.shadow, PostVariable(scene.repository, d.name, QuarantineSentinel, d.PolicyVariable(), d.Quarantine()))
  }

  lemma CreationParts(scene: Scene, d: DesiredEnvironment)
    ensures var plan, b := CreationMutations(scene, d), CreationQuarantine(scene, d);
            && |plan| >= 2 && plan == [plan[0]] + b + [plan[|plan| - 1]]
            && Quarantines(plan) == if scene.shadow then [plan[0]] + b else []
  {
    var plan, b := CreationMutations(scene, d), CreationQuarantine(scene, d);
    var a, c := [plan[0]], [plan[|plan| - 1]];
    assert plan == a + b + c;
    QuarantinesConcat(a + b, c);
    QuarantinesConcat(a, b);
    QuarantinesOne(a);
    QuarantinesOne(b);
    QuarantinesOne(c);
  }

  lemma CreationSmooth(bypass: bool, scene: Scene, d: DesiredEnvironment)
    ensures var plan, b := CreationMutations(scene, d), CreationQuarantine(scene, d);
            && |plan| >= 2 && Smooth(bypass, None, [plan[0]] + b + [plan[|plan| - 1]]) && Smooth(bypass, None, [plan[0]] + b + [])
  {
    var plan, b := CreationMutations(scene, d), CreationQuarantine(scene, d);
    var a, c := [plan[0]], [plan[|plan| - 1]];
    RE.RunOne(bypass, None, a);
    RE.RunOne(bypass, RunEnvironment(bypass, None, a), b);
    SmoothThree(bypass, None, a, b, c);
    SmoothThree(bypass, None, a, b, []);
  }

  lemma AbsentSmooth(bypass: bool, scene: Scene, d: DesiredEnvironment)
    ensures Smooth(bypass, None, EnvironmentMutations(scene, d, None))
    ensures Smooth(bypass, None, Quarantines(EnvironmentMutations(scene, d, None)))
  {
    var plan, b := CreationMutations(scene, d), CreationQuarantine(scene, d);
    CreationParts(scene, d);
    CreationSmooth(bypass, scene, d);
    assert [plan[0]] + b + [] == [plan[0]] + b;
  }

  // ---------------------------------------------------------------- rulesets

  /** A step that names another ruleset leaves `name` alone. */
  lemma {:induction false} OtherNames(ds: seq<Ruleset>, before: Rulesets, steps: seq<Mutation>, name: string)
    requires RS.Named(ds) && RS.Fresh(before)
    requires forall s <- steps :: s.OnRulesets() && RS.Planned(ds, before, s) && s.ruleset.name != name
    ensures Matches(RunRulesets(before, steps), name) == Matches(before, name)
  {
    if steps != [] {
      var rest, last := steps[..|steps| - 1], steps[|steps| - 1];
      OtherNames(ds, before, rest, name);
      RS.RunAdvances(ds, before, rest);
      if last.PutRuleset? {
        RS.ClassifyIncomplete(before, last.ruleset, last.id);
        RS.MatchesKept(ds, before, RunRulesets(before, rest), last.ruleset.name);
      }
    }
  }

  lemma LastPlanned(r: string, ds: seq<Ruleset>, before: Rulesets)
    requires ds != []
    ensures var earlier, plan := InspectRulesets(r, ds[..|ds| - 1], before).mutations, InspectRulesets(r, ds, before).mutations;
            && |earlier| <= |plan| <= |earlier| + 1 && plan[..|earlier|] == earlier
            && (|plan| > |earlier| ==> plan[|earlier|].OnRulesets() && plan[|earlier|].ruleset.name == ds[|ds| - 1].name)
  {
    RulesetsTargets(r, ds, before);
  }

  /** Each ruleset is named by at most one request. */
  ghost predicate NamedOnce(plan: seq<Mutation>) {
    && (forall s <- plan :: s.OnRulesets())
    && forall x, y :: 0 <= x < y < |plan| ==> plan[x].OnRulesets() && plan[y].OnRulesets() && plan[x].ruleset.name != plan[y].ruleset.name
  }

  lemma NamedSnoc(earlier: seq<Mutation>, plan: seq<Mutation>, name: string)
    requires NamedOnce(earlier) && |earlier| <= |plan| <= |earlier| + 1 && plan[..|earlier|] == earlier
    requires |plan| > |earlier| ==> plan[|earlier|].OnRulesets() && plan[|earlier|].ruleset.name == name
    requires forall s <- earlier :: s.OnRulesets() && s.ruleset.name != name
    ensures NamedOnce(plan)
  {
    forall i | 0 <= i < |earlier| ensures plan[i] == earlier[i] && plan[i] in earlier {}
  }

  lemma EarlierNames(r: string, ds: seq<Ruleset>, before: Rulesets, s: Mutation)
    requires RS.Named(ds) && ds != [] && s in InspectRulesets(r, ds[..|ds| - 1], before).mutations
    ensures s.OnRulesets() && s.ruleset.name != ds[|ds| - 1].name
  {
    RulesetsTargets(r, ds[..|ds| - 1], before);
    RS.PlanMembers(r, ds[..|ds| - 1], before, s);
  }

  lemma {:induction false} PlanNamedOnce(r: string, ds: seq<Ruleset>, before: Rulesets)
    requires RS.Named(ds)
    ensures NamedOnce(InspectRulesets(r, ds, before).mutations)
  {
    if ds != [] {
      var rest := ds[..|ds| - 1];
      var earlier := InspectRulesets(r, rest, before).mutations;
      PlanNamedOnce(r, rest, before);
      LastPlanned(r, ds, before);
      forall s | s in earlier ensures s.OnRulesets() && s.ruleset.name != ds[|ds| - 1].name { EarlierNames(r, ds, before, s); }
      NamedSnoc(earlier, InspectRulesets(r, ds, before).mutations, ds[|ds| - 1].name);
    }
  }

  lemma RulesetAccepted(r: string, ds: seq<Ruleset>, before: Rulesets, j: nat)
    requires RS.Named(ds) && RS.Fresh(before) && j < |InspectRulesets(r, ds, before).mutations|
    ensures var plan := InspectRulesets(r, ds, before).mutations;
            && (forall s <- plan :: s.OnRulesets())
            && AcceptsRulesets(RunRulesets(before, plan[..j]), plan[j])
  {
    var plan := InspectRulesets(r, ds, before).mutations;
    PlanNamedOnce(r, ds, before);
    forall s | s in plan ensures RS.Planned(ds, before, s) { RS.PlannedMember(r, ds, before, s); }
    PlannedAccepted(ds, before, plan, j);
  }

  lemma PlannedAccepted(ds: seq<Ruleset>, before: Rulesets, plan: seq<Mutation>, j: nat)
    requires RS.Named(ds) && RS.Fresh(before) && NamedOnce(plan) && j < |plan| && forall s <- plan :: RS.Planned(ds, before, s)
    ensures AcceptsRulesets(RunRulesets(before, plan[..j]), plan[j])
  {
    var m := plan[j];
    assert m in plan;
    forall s | s in plan[..j] ensures RS.Planned(ds, before, s) && s.OnRulesets() && s.ruleset.name != m.ruleset.name {
      var x :| 0 <= x < j && plan[..j][x] == s;
      assert plan[x] == s && s in plan;
    }
    RS.RunAdvances(ds, before, plan[..j]);
    if m.PostRuleset? {
      OtherNames(ds, before, plan[..j], m.ruleset.name);
    } else {
      RS.ClassifyIncomplete(before, m.ruleset, m.id);
    }
  }

  // ---------------------------------------------------------------- the whole plan

  /** The requests to an environment before position `n`, and the request at `n`, form a prefix of
      what the environment receives. */
  lemma CellPosition(plan: seq<Mutation>, n: nat, r: string, e: string)
    requires n < |plan| && plan[n].OnEnvironment(r, e)
    ensures var j := |OnEnvironment(plan[..n], r, e)|;
            && j < |OnEnvironment(plan, r, e)|
            && OnEnvironment(plan, r, e)[..j] == OnEnvironment(plan[..n], r, e) && OnEnvironment(plan, r, e)[j] == plan[n]
  {
    assert plan == plan[..n + 1] + plan[n + 1..];
    OnEnvironmentConcat(plan[..n + 1], plan[n + 1..], r, e);
    assert plan[..n + 1][..n] == plan[..n];
  }

  lemma RulesetsPosition(plan: seq<Mutation>, n: nat, r: string)
    requires n < |plan| && plan[n].OnRulesetsOf(r)
    ensures var j := |OnRulesets(plan[..n], r)|;
            && j < |OnRulesets(plan, r)|
            && OnRulesets(plan, r)[..j] == OnRulesets(plan[..n], r) && OnRulesets(plan, r)[j] == plan[n]
  {
    assert plan == plan[..n + 1] + plan[n + 1..];
    OnRulesetsConcat(plan[..n + 1], plan[n + 1..], r);
    assert plan[..n + 1][..n] == plan[..n];
  }

  /** Every request of a run is accepted in the state the run has reached. */
  lemma PlanAccepted(m: Manifest, reviewers: seq<Reviewer>, selected: set<string>, live: Live, n: nat)
    requires Ready(m, selected, live) && n < |Plan(m, reviewers, selected, live)|
    ensures Accepts(After(m, reviewers, selected, live, n), Plan(m, reviewers, selected, live)[n])
  {
    var plan := Plan(m, reviewers, selected, live);
    var s := plan[n];
    assert s in plan;
    PlanTarget(m, reviewers, selected, live, s);
    RunShell(live, plan[..n]);
    var i :| 0 <= i < |m.repositories| && m.repositories[i].name in selected && s.repository == m.repositories[i].name
             && (s.OnRulesets() || exists k: nat :: Chosen(m, selected, i, k) && s.OnEnvironment(m.repositories[i].name, m.repositories[i].environments[k].name));
    var d := m.repositories[i];
    if s.OnRulesets() {
      RulesetsAccepted(m, reviewers, selected, live, n, i);
    } else {
      var k: nat :| Chosen(m, selected, i, k) && s.OnEnvironment(d.name, d.environments[k].name);
      EnvironmentAccepted(m, reviewers, selected, live, n, i, k);
    }
  }

  lemma RulesetsAccepted(m: Manifest, reviewers: seq<Reviewer>, selected: set<string>, live: Live, n: nat, i: nat)
    requires Ready(m, selected, live) && n < |Plan(m, reviewers, selected, live)|
    requires i < |m.repositories| && m.repositories[i].name in selected
    requires Plan(m, reviewers, selected, live)[n].OnRulesetsOf(m.repositories[i].name)
    ensures m.repositories[i].name in After(m, reviewers, selected, live, n).repositories
    ensures AcceptsRulesets(After(m, reviewers, selected, live, n).repositories[m.repositories[i].name].rulesets, Plan(m, reviewers, selected, live)[n])
  {
    var d, plan := m.repositories[i], Plan(m, reviewers, selected, live);
    RulesetsPosition(plan, n, d.name);
    PlanProjectRulesets(m, reviewers, selected, live, i);
    assert plan[..|plan|] == plan;
    SentToRulesets(m, reviewers, selected, live, |plan|, i);
    assert plan[n] in plan;
    InOnRulesets(plan, d.name, plan[n]);
    RunOnRulesets(live, plan[..n], d.name);
    RulesetAccepted(d.name, d.rulesets, live.repositories[d.name].rulesets, |OnRulesets(plan[..n], d.name)|);
  }

  lemma EnvironmentAccepted(m: Manifest, reviewers: seq<Reviewer>, selected: set<string>, live: Live, n: nat, i: nat, k: nat)
    requires Ready(m, selected, live) && Chosen(m, selected, i, k) && n < |Plan(m, reviewers, selected, live)|
    requires Plan(m, reviewers, selected, live)[n].OnEnvironment(m.repositories[i].name, m.repositories[i].environments[k].name)
    ensures AcceptsEnvironment(At(m, After(m, reviewers, selected, live, n), i, k), Plan(m, reviewers, selected, live)[n])
  {
    var plan, all := Plan(m, reviewers, selected, live), Inspect(m, reviewers, selected, live);
    var r, d, scene := m.repositories[i].name, m.repositories[i].environments[k], SceneAt(m, reviewers, live, i);
    var bypass, before := live.organization.bypassDefault, At(m, live, i, k);
    CellPosition(plan, n, r, d.name);
    RunOnEnvironment(live, plan[..n], r, d.name);
    PlanProject(m, reviewers, selected, live, i, k);
    QuarantinesOnEnvironment(all.mutations, r, d.name);
    DestructiveIsDrift(m, reviewers, selected, live);
    if before.None? { AbsentSmooth(bypass, scene, d); } else {
      ExistingQuarantineSmooth(bypass, scene, d, before.value);
      if !all.destructive {
        assert EnvironmentsDriftFree(scene, m.repositories[i].environments, live.repositories[r].environments);
        ExistingSmooth(bypass, scene, d, before.value);
      }
    }
    assert Smooth(bypass, before, OnEnvironment(plan, r, d.name));
  }
}
