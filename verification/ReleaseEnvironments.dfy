/** What any part of an environment's plan does to that environment. */
module ReleaseEnvironments {
  import opened Options
  import opened ReleaseState
  import opened ReleaseInspect
  import opened ReleasePlan

  // ---------------------------------------------------------------- exactness

  /** The protected part of an environment, without its sentinel. */
  datatype Projection = Projection(adminsBypass: bool, reviewers: set<Reviewer>, preventSelfReview: bool,
                                   branchMode: BranchMode, branchPolicies: seq<BranchPolicy>,
                                   configuration: set<string>, secrets: set<string>)

  function Project(d: DesiredEnvironment, e: Environment): Projection {
    Projection(e.adminsBypass, e.reviewers, e.preventSelfReview, e.branchMode, e.branchPolicies,
               e.variables.Keys - {d.PolicyVariable()}, e.secrets)
  }

  function DesiredProjection(d: DesiredEnvironment, reviewers: set<Reviewer>): Projection {
    Projection(false, reviewers, d.preventSelfReview, EXACT_MODE, [MAIN_POLICY], d.requiredVariables, d.requiredSecrets)
  }

  /** Nothing blocks the seal exactly when no repository blocker applies and the projections agree. */
  lemma UnblockedIsExact(scene: Scene, d: DesiredEnvironment, e: Environment)
    requires d.Valid()
    ensures EnvironmentBlockers(scene, d, e) == []
       <==> Scoped(d.profile, scene.blockers) == [] && Project(d, e) == DesiredProjection(d, Expected(scene, d))
  {
    var p := d.PolicyVariable();
    if Project(d, e) == DesiredProjection(d, Expected(scene, d)) {
      assert d.requiredVariables == e.variables.Keys - {p};
    }
    if UnknownVariables(d, e) == {} && d.requiredVariables <= e.variables.Keys {
      assert e.variables.Keys - {p} == d.requiredVariables by {
        forall x | x in e.variables.Keys - {p} ensures x in d.requiredVariables {
          assert x !in UnknownVariables(d, e);
        }
      }
    }
  }

  /** An environment passes all its checks exactly when it is sealed and nothing blocks the seal;
      it then has no plan and no destructive drift. */
  lemma PassedIsSealedExact(scene: Scene, d: DesiredEnvironment, environment: Option<Environment>)
    ensures var i := InspectEnvironment(scene, d, environment);
            && (AllPassed(i.checks) <==>
                environment.Some? && Sealed(d, environment.value) && EnvironmentBlockers(scene, d, environment.value) == [])
            && (AllPassed(i.checks) ==> i.mutations == [] && !i.destructive)
  {
    var i := InspectEnvironment(scene, d, environment);
    if environment.None? {
      assert i.checks[0].status == Missing;
    } else {
      assert i.checks[5].status == Passed <==> Sealed(d, environment.value) && EnvironmentBlockers(scene, d, environment.value) == [];
    }
  }

  // ---------------------------------------------------------------- any part of the plan

  ghost predicate SentinelAdvanced(scene: Scene, d: DesiredEnvironment, o: Environment, n: Environment) {
    var p := d.PolicyVariable();
    && n.variables - {p} == o.variables - {p}
    && (p in o.variables ==> p in n.variables)
    && (|| (p in n.variables ==> p in o.variables && n.variables[p] == o.variables[p])
        || (p in n.variables && n.variables[p] == d.policyId && EnvironmentBlockers(scene, d, o) == [])
        || (p in n.variables && n.variables[p] == d.Quarantine()))
  }

  /** The environment `n` reached from `o`: only missing restrictions were added, and the accepting
      sentinel appeared only if nothing blocked it in `o`. */
  ghost predicate Advanced(scene: Scene, d: DesiredEnvironment, before: Option<Environment>, after: Option<Environment>) {
    match (before, after)
    case (None, None) => true
    case (None, Some(n)) =>
      && ReviewersExact(scene, d, n) && n.branchMode == EXACT_MODE && n.secrets == {}
      && n.branchPolicies in {[], [MAIN_POLICY]}
      && n.variables in {map[], map[d.PolicyVariable() := d.Quarantine()]}
    case (Some(_), None) => false
    case (Some(o), Some(n)) =>
      && n.adminsBypass == o.adminsBypass && n.waitTimer == o.waitTimer && n.branchMode == o.branchMode && n.secrets == o.secrets
      && (|| (n.reviewers == o.reviewers && n.preventSelfReview == o.preventSelfReview)
          || (ReviewersExact(scene, d, n) && o.reviewers <= n.reviewers))
      && (n.branchPolicies == o.branchPolicies || (o.branchPolicies == [] && n.branchPolicies == [MAIN_POLICY]))
      && SentinelAdvanced(scene, d, o, n)
  }

  /** A request `apply` may send to this environment. */
  ghost predicate Sendable(scene: Scene, d: DesiredEnvironment, before: Option<Environment>, m: Mutation) {
    && m in EnvironmentMutations(scene, d, before)
    && (IsQuarantine(m.reason) || before.None? || !EnvironmentDestructive(scene, d, before.value))
  }

  /** No variable but a sentinel changes its value. */
  ghost predicate OthersKept(before: map<string, string>, after: map<string, string>) {
    forall x :: x in before && x in after && x !in SENTINELS ==> after[x] == before[x]
  }

  /** No reviewer, branch policy, variable or secret is lost; bypass, wait timer and mode stay. */
  ghost predicate Grows(before: Option<Environment>, after: Option<Environment>) {
    before.Some? ==>
      && after.Some?
      && var o, n := before.value, after.value;
      && o.reviewers <= n.reviewers && o.branchPolicies <= n.branchPolicies
      && o.variables.Keys <= n.variables.Keys && o.secrets == n.secrets
      && OthersKept(o.variables, n.variables)
      && o.adminsBypass == n.adminsBypass && o.waitTimer == n.waitTimer && o.branchMode == n.branchMode
  }

  lemma CreationAdvances(bypass: bool, scene: Scene, d: DesiredEnvironment, now: Option<Environment>, m: Mutation)
    requires Advanced(scene, d, None, now) && Sendable(scene, d, None, m)
    requires now.Some? ==> now.value.waitTimer == 0
    ensures !m.OnRulesets()
    ensures var after := StepEnvironment(bypass, now, m);
            Advanced(scene, d, None, after) && Grows(now, after) && (after.Some? ==> after.value.waitTimer == 0)
  {
    EnvironmentTargets(scene, d, None);
    assert [] + [MAIN_POLICY] == [MAIN_POLICY];
    if m.PostBranchPolicy? && now.Some? && now.value.branchPolicies == [] {
      assert now.value.branchPolicies + [MAIN_POLICY] == [MAIN_POLICY];
    }
  }

  lemma SentinelAdvances(scene: Scene, d: DesiredEnvironment, o: Environment, now: Environment, m: Mutation)
    requires SentinelAdvanced(scene, d, o, now) && m in SentinelMutations(scene, d, o)
    ensures m.PostVariable? || m.PatchVariable?
    ensures var after := StepEnvironment(false, Some(now), m);
            && after.Some? && after.value == now.(variables := after.value.variables)
            && SentinelAdvanced(scene, d, o, after.value) && now.variables.Keys <= after.value.variables.Keys
            && OthersKept(now.variables, after.value.variables)
  {
    var p := d.PolicyVariable();
    assert p in SENTINELS;
    assert m.name == p && (m.value == d.Quarantine() || (m.value == d.policyId && EnvironmentBlockers(scene, d, o) == []));
    assert now.variables[p := m.value] - {p} == now.variables - {p};
  }

  lemma SentinelStep(bypass: bool, scene: Scene, d: DesiredEnvironment, o: Environment, now: Environment, m: Mutation)
    requires Advanced(scene, d, Some(o), Some(now)) && m in SentinelMutations(scene, d, o)
    ensures !m.OnRulesets()
    ensures Advanced(scene, d, Some(o), StepEnvironment(bypass, Some(now), m)) && Grows(Some(now), StepEnvironment(bypass, Some(now), m))
  {
    SentinelAdvances(scene, d, o, now, m);
    assert StepEnvironment(bypass, Some(now), m) == StepEnvironment(false, Some(now), m);
  }

  lemma ReviewersAdvance(bypass: bool, scene: Scene, d: DesiredEnvironment, o: Environment, now: Environment, m: Mutation)
    requires Advanced(scene, d, Some(o), Some(now)) && m in ReviewerMutations(scene, d, o)
    requires !EnvironmentDestructive(scene, d, o)
    ensures m.PutEnvironment?
    ensures Advanced(scene, d, Some(o), StepEnvironment(bypass, Some(now), m)) && Grows(Some(now), StepEnvironment(bypass, Some(now), m))
  {}

  lemma BranchesAdvance(bypass: bool, scene: Scene, d: DesiredEnvironment, o: Environment, now: Environment, m: Mutation)
    requires Advanced(scene, d, Some(o), Some(now)) && m in BranchMutations(scene, d, o)
    ensures m.PostBranchPolicy?
    ensures Advanced(scene, d, Some(o), StepEnvironment(bypass, Some(now), m)) && Grows(Some(now), StepEnvironment(bypass, Some(now), m))
  {
    if now.branchPolicies == [] { assert now.branchPolicies + [MAIN_POLICY] == [MAIN_POLICY]; }
  }

  lemma ExistingAdvances(bypass: bool, scene: Scene, d: DesiredEnvironment, o: Environment, now: Option<Environment>, m: Mutation)
    requires Advanced(scene, d, Some(o), now) && Sendable(scene, d, Some(o), m)
    ensures !m.OnRulesets()
    ensures Advanced(scene, d, Some(o), StepEnvironment(bypass, now, m)) && Grows(now, StepEnvironment(bypass, now, m))
  {
    if m in SentinelMutations(scene, d, o) {
      SentinelStep(bypass, scene, d, o, now.value, m);
    } else if m in ReviewerMutations(scene, d, o) {
      ReviewersAdvance(bypass, scene, d, o, now.value, m);
    } else {
      assert m in BranchMutations(scene, d, o);
      BranchesAdvance(bypass, scene, d, o, now.value, m);
    }
  }

  /** Any requests drawn from the plan keep the environment advanced. */
  lemma {:induction false} RunAdvances(bypass: bool, scene: Scene, d: DesiredEnvironment, before: Option<Environment>, steps: seq<Mutation>)
    requires forall m <- steps :: !m.OnRulesets() && Sendable(scene, d, before, m)
    ensures Advanced(scene, d, before, RunEnvironment(bypass, before, steps))
    ensures before.None? && RunEnvironment(bypass, before, steps).Some? ==> RunEnvironment(bypass, before, steps).value.waitTimer == 0
  {
    if steps != [] {
      var rest, last := steps[..|steps| - 1], steps[|steps| - 1];
      RunAdvances(bypass, scene, d, before, rest);
      var now := RunEnvironment(bypass, before, rest);
      if before.None? { CreationAdvances(bypass, scene, d, now, last); } else { ExistingAdvances(bypass, scene, d, before.value, now, last); }
    }
  }

  /** The environment only grows from one prefix of the requests to the next. */
  lemma {:induction false} RunGrows(bypass: bool, scene: Scene, d: DesiredEnvironment, before: Option<Environment>, steps: seq<Mutation>, a: nat)
    requires a <= |steps|
    requires forall m <- steps :: !m.OnRulesets() && Sendable(scene, d, before, m)
    ensures Grows(RunEnvironment(bypass, before, steps[..a]), RunEnvironment(bypass, before, steps))
  {
    if a == |steps| {
      assert steps[..a] == steps;
    } else {
      var rest, last := steps[..|steps| - 1], steps[|steps| - 1];
      RunGrows(bypass, scene, d, before, rest, a);
      assert rest[..a] == steps[..a];
      RunAdvances(bypass, scene, d, before, rest);
      var now := RunEnvironment(bypass, before, rest);
      if before.None? { CreationAdvances(bypass, scene, d, now, last); } else { ExistingAdvances(bypass, scene, d, before.value, now, last); }
    }
  }

  /** An environment that nothing blocked stays unblocked while repository blockers stay away. */
  lemma UnblockedKept(scene: Scene, later: Scene, d: DesiredEnvironment, o: Environment, n: Environment)
    requires later.reviewers == scene.reviewers && Scoped(d.profile, later.blockers) == []
    requires Advanced(scene, d, Some(o), Some(n)) && EnvironmentBlockers(scene, d, o) == []
    ensures EnvironmentBlockers(later, d, n) == []
  {
    var p := d.PolicyVariable();
    assert Expected(later, d) == Expected(scene, d);
    assert ReviewersExact(scene, d, o) && BranchesExact(o);
    forall x | x in n.variables && x != p ensures x in o.variables {
      assert x in (n.variables - {p}).Keys;
    }
    forall x | x in d.requiredVariables ensures x in n.variables {
      if x != p { assert x in (o.variables - {p}).Keys; }
    }
  }

  /** A newly accepting sentinel was not blocked at the start. */
  lemma SealedOrigin(scene: Scene, d: DesiredEnvironment, before: Option<Environment>, n: Environment)
    requires Advanced(scene, d, before, Some(n)) && Sealed(d, n)
    ensures before.Some? && (Sealed(d, before.value) || EnvironmentBlockers(scene, d, before.value) == [])
  {}

  /** A sealed and blocked environment was sealed and blocked at the start. */
  lemma SealKept(scene: Scene, later: Scene, d: DesiredEnvironment, before: Option<Environment>, n: Environment)
    requires Advanced(scene, d, before, Some(n)) && Sealed(d, n) && EnvironmentBlockers(later, d, n) != []
    requires later.reviewers == scene.reviewers
    requires Scoped(d.profile, scene.blockers) == [] ==> Scoped(d.profile, later.blockers) == []
    ensures before.Some? && Sealed(d, before.value) && EnvironmentBlockers(scene, d, before.value) != []
  {
    SealedOrigin(scene, d, before, n);
    if EnvironmentBlockers(scene, d, before.value) == [] {
      UnblockedKept(scene, later, d, before.value, n);
    }
  }

  /** The request that withdraws the lease. */
  function Withdrawal(scene: Scene, d: DesiredEnvironment): Mutation {
    PatchVariable(scene.repository, d.name, QuarantineSentinel, d.PolicyVariable(), d.Quarantine())
  }

  /** A sealed but blocked environment is destructive drift, and its only quarantine request
      withdraws the lease. */
  lemma WithdrawalPlanned(scene: Scene, d: DesiredEnvironment, e: Environment)
    requires Sealed(d, e) && EnvironmentBlockers(scene, d, e) != []
    ensures EnvironmentDestructive(scene, d, e)
    ensures Withdrawal(scene, d) in EnvironmentMutations(scene, d, Some(e))
    ensures forall s <- EnvironmentMutations(scene, d, Some(e)) :: IsQuarantine(s.reason) ==> s == Withdrawal(scene, d)
  {
    assert SentinelMutations(scene, d, e) == [Withdrawal(scene, d)];
    assert SentinelMutations(scene, d, e)[0] in EnvironmentMutations(scene, d, Some(e));
  }

  lemma WithdrawalUnseals(bypass: bool, scene: Scene, d: DesiredEnvironment, before: Option<Environment>, steps: seq<Mutation>)
    requires steps != [] && forall s <- steps :: !s.OnRulesets() && s == Withdrawal(scene, d)
    ensures var after := RunEnvironment(bypass, before, steps); after.Some? ==> !Sealed(d, after.value)
  {
    assert steps[|steps| - 1] in steps;
  }

  // ---------------------------------------------------------------- the whole plan

  lemma {:induction false} RunConcat(bypass: bool, environment: Option<Environment>, a: seq<Mutation>, b: seq<Mutation>)
    requires forall m <- a :: !m.OnRulesets()
    requires forall m <- b :: !m.OnRulesets()
    ensures forall m <- a + b :: !m.OnRulesets()
    ensures RunEnvironment(bypass, environment, a + b) == RunEnvironment(bypass, RunEnvironment(bypass, environment, a), b)
  {
    if b == [] {
      assert a + b == a;
    } else {
      RunConcat(bypass, environment, a, b[..|b| - 1]);
      assert (a + b)[..|a + b| - 1] == a + b[..|b| - 1];
    }
  }

  lemma RunOne(bypass: bool, environment: Option<Environment>, steps: seq<Mutation>)
    requires |steps| <= 1 && forall m <- steps :: !m.OnRulesets()
    ensures RunEnvironment(bypass, environment, steps)
         == if steps == [] then environment else StepEnvironment(bypass, environment, steps[0])
  {
    if steps != [] { assert steps[..0] == []; }
  }

  /** The environment after its whole plan, when none of its drift is destructive. */
  function Reconciled(scene: Scene, d: DesiredEnvironment, e: Environment): Environment {
    e.(reviewers := Expected(scene, d), preventSelfReview := d.preventSelfReview, branchPolicies := [MAIN_POLICY],
       variables := if EnvironmentBlockers(scene, d, e) == [] then e.variables[d.PolicyVariable() := d.policyId] else e.variables)
  }

  function Reviewed(scene: Scene, d: DesiredEnvironment, e: Environment): Environment {
    e.(reviewers := Expected(scene, d), preventSelfReview := d.preventSelfReview)
  }

  lemma ReviewersReconcile(bypass: bool, scene: Scene, d: DesiredEnvironment, e: Environment)
    requires !EnvironmentDestructive(scene, d, e)
    ensures forall m <- ReviewerMutations(scene, d, e) :: !m.OnRulesets()
    ensures RunEnvironment(bypass, Some(e), ReviewerMutations(scene, d, e)) == Some(Reviewed(scene, d, e))
  {
    RunOne(bypass, Some(e), ReviewerMutations(scene, d, e));
  }

  lemma BranchesReconcile(bypass: bool, scene: Scene, d: DesiredEnvironment, e: Environment)
    requires !EnvironmentDestructive(scene, d, e)
    ensures forall m <- BranchMutations(scene, d, e) :: !m.OnRulesets()
    ensures RunEnvironment(bypass, Some(Reviewed(scene, d, e)), BranchMutations(scene, d, e))
         == Some(Reviewed(scene, d, e).(branchPolicies := [MAIN_POLICY]))
  {
    RunOne(bypass, Some(Reviewed(scene, d, e)), BranchMutations(scene, d, e));
    if e.branchPolicies == [] { assert e.branchPolicies + [MAIN_POLICY] == [MAIN_POLICY]; }
  }

  lemma SentinelReconciles(bypass: bool, scene: Scene, d: DesiredEnvironment, e: Environment)
    requires !EnvironmentDestructive(scene, d, e)
    ensures forall m <- SentinelMutations(scene, d, e) :: !m.OnRulesets()
    ensures RunEnvironment(bypass, Some(Reviewed(scene, d, e).(branchPolicies := [MAIN_POLICY])), SentinelMutations(scene, d, e))
         == Some(Reconciled(scene, d, e))
  {
    RunOne(bypass, Some(Reviewed(scene, d, e).(branchPolicies := [MAIN_POLICY])), SentinelMutations(scene, d, e));
    if Sealed(d, e) { assert e.variables[d.PolicyVariable() := d.policyId] == e.variables; }
  }

  lemma PlanReconciles(bypass: bool, scene: Scene, d: DesiredEnvironment, e: Environment)
    requires !EnvironmentDestructive(scene, d, e)
    ensures forall m <- EnvironmentMutations(scene, d, Some(e)) :: !m.OnRulesets()
    ensures RunEnvironment(bypass, Some(e), EnvironmentMutations(scene, d, Some(e))) == Some(Reconciled(scene, d, e))
  {
    var a, b, c := ReviewerMutations(scene, d, e), BranchMutations(scene, d, e), SentinelMutations(scene, d, e);
    ReviewersReconcile(bypass, scene, d, e);
    BranchesReconcile(bypass, scene, d, e);
    SentinelReconciles(bypass, scene, d, e);
    RunConcat(bypass, Some(e), a, b);
    RunConcat(bypass, Some(e), a + b, c);
    assert EnvironmentMutations(scene, d, Some(e)) == a + b + c;
  }
}
