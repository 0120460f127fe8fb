/** What the inspection's verdicts mean, in terms of the live and the desired state alone: `passed` is
    equality with the desired state, and destructive drift is drift that nothing added can repair, or a
    lease held by an environment that may not have one. */
module ReleaseMeaning {
  import opened ReleaseState
  import opened ReleaseInspect
  import opened ReleaseExactness
  import RS = ReleaseRulesets
  import RE = ReleaseEnvironments

  // ---------------------------------------------------------------- equality with the desired state

  /** The environment is there, equals its desired projection, and its sentinel accepts. */
  ghost predicate EnvironmentAsDesired(reviewers: set<Reviewer>, d: DesiredEnvironment, environments: map<string, Environment>) {
    && d.name in environments
    && RE.Project(d, environments[d.name]) == RE.DesiredProjection(d, if d.profile then {} else reviewers)
    && Sealed(d, environments[d.name])
  }

  /** Equal up to the order of the rules. */
  predicate SameRuleset(a: Ruleset, b: Ruleset) {
    a.(rules := []) == b.(rules := []) && multiset(a.rules) == multiset(b.rules)
  }

  /** Exactly one ruleset bears the name, can be observed, and equals the desired one. */
  ghost predicate RulesetAsDesired(d: Ruleset, rulesets: Rulesets) {
    exists id ::
      && id in rulesets.entries && rulesets.entries[id].observable && SameRuleset(rulesets.entries[id].body, d)
      && forall other :: other in rulesets.entries && rulesets.entries[other].body.name == d.name ==> other == id
  }

  /** The repository itself or the organization makes `name` available to all its workflows. */
  predicate Provides(name: string, own: set<string>, shared: map<string, Scope>, isPrivate: bool, fullName: string) {
    name in own || (name in shared && Applies(shared[name], isPrivate, fullName))
  }

  ghost predicate RepositoryAsDesired(m: Manifest, organization: Organization, d: DesiredRepository, repository: Repository) {
    && repository.defaultBranch == d.defaultBranch
    && (forall e :: e in d.environments ==> e.PolicyVariable() !in repository.variables)
    && (forall e, name :: e in d.environments && name in e.allowedVariables ==>
          !Provides(name, repository.variables, organization.variables, repository.isPrivate, FullName(m, d)))
    && (forall e, name :: e in d.environments && name in e.allowedSecrets ==>
          !Provides(name, repository.secrets, organization.secrets, repository.isPrivate, FullName(m, d)))
    && (forall name :: name in m.forbiddenSecrets ==>
          !Provides(name, repository.secrets, organization.secrets, repository.isPrivate, FullName(m, d)))
    && (forall context :: context in d.contexts ==> context in repository.contexts)
  }

  ghost predicate NoSentinels(m: Manifest, organization: Organization) {
    forall r, e :: r in m.repositories && e in r.environments ==> e.PolicyVariable() !in organization.variables
  }

  /** No sentinel at the organization, and a reviewer other than the actor. */
  ghost predicate OrganizationAsDesired(m: Manifest, reviewers: seq<Reviewer>, organization: Organization) {
    && NoSentinels(m, organization)
    && exists reviewer :: reviewer in reviewers && Distinguished(organization, reviewer)
  }

  ghost predicate SelectedAsDesired(m: Manifest, reviewers: set<Reviewer>, live: Live, i: nat)
    requires i < |m.repositories| && m.repositories[i].name in live.repositories
  {
    var d := m.repositories[i];
    var repository := live.repositories[d.name];
    && RepositoryAsDesired(m, live.organization, d, repository)
    && RulesetsAsDesired(d.rulesets, repository.rulesets)
    && EnvironmentsAsDesired(reviewers, d.environments, repository.environments)
  }

  ghost predicate RulesetsAsDesired(ds: seq<Ruleset>, rulesets: Rulesets) {
    forall j :: 0 <= j < |ds| ==> RulesetAsDesired(ds[j], rulesets)
  }

  ghost predicate EnvironmentsAsDesired(reviewers: set<Reviewer>, ds: seq<DesiredEnvironment>, environments: map<string, Environment>) {
    forall k :: 0 <= k < |ds| ==> EnvironmentAsDesired(reviewers, ds[k], environments)
  }

  /** Everything selected equals the desired state. */
  ghost predicate AllExact(m: Manifest, reviewers: seq<Reviewer>, selected: set<string>, live: Live)
    requires Observable(m.repositories, selected, live)
  {
    && OrganizationAsDesired(m, reviewers, live.organization)
    && forall i :: 0 <= i < |m.repositories| && m.repositories[i].name in selected ==> SelectedAsDesired(m, Reviewers(reviewers), live, i)
  }

  // ---------------------------------------------------------------- the comparisons

  lemma {:induction false} CountedOnce(s: seq<Rule>)
    requires forall x :: multiset(s)[x] <= 1
    ensures Distinct(s)
  {
    if s != [] {
      var rest, last := s[..|s| - 1], s[|s| - 1];
      assert s == rest + [last];
      forall x ensures multiset(rest)[x] <= 1 { assert multiset(s)[x] == multiset(rest)[x] + multiset{last}[x]; }
      CountedOnce(rest);
      assert multiset(s)[last] == multiset(rest)[last] + 1;
      assert last !in rest;
    }
  }

  /** The rules are the same, each once. */
  lemma SameRules(a: seq<Rule>, d: seq<Rule>)
    requires Distinct(d)
    ensures RuleSet(a) == RuleSet(d) && Distinct(a) <==> multiset(a) == multiset(d)
  {
    if RuleSet(a) == RuleSet(d) && Distinct(a) {
      RS.DistinctSubset(a, d);
      RS.DistinctSubset(d, a);
    }
    if multiset(a) == multiset(d) {
      forall x ensures multiset(a)[x] <= 1 { RS.DistinctCount(d, x); }
      CountedOnce(a);
      RS.DistinctSubset(a, d);
      RS.DistinctSubset(d, a);
    }
  }

  lemma OnlyMatch(rulesets: Rulesets, name: string, id: nat)
    ensures Matches(rulesets, name) == {id} <==>
              && id in rulesets.entries && rulesets.entries[id].body.name == name
              && forall other :: other in rulesets.entries && rulesets.entries[other].body.name == name ==> other == id
  {
    var ids := Matches(rulesets, name);
    if ids == {id} {
      assert id in ids;
      forall other | other in rulesets.entries && rulesets.entries[other].body.name == name ensures other == id { assert other in ids; }
    }
  }

  /** A ruleset is classified as exact exactly when it is the desired one. */
  lemma ExactIsDesired(rulesets: Rulesets, d: Ruleset)
    requires d.active && Distinct(d.rules)
    ensures Classify(rulesets, d) == Exact <==> RulesetAsDesired(d, rulesets)
  {
    var ids := Matches(rulesets, d.name);
    if Classify(rulesets, d) == Exact {
      var id := TheOnly(ids);
      OnlyMatch(rulesets, d.name, id);
      SameRules(rulesets.entries[id].body.rules, d.rules);
    }
    if RulesetAsDesired(d, rulesets) {
      var id :|
        && id in rulesets.entries && rulesets.entries[id].observable && SameRuleset(rulesets.entries[id].body, d)
        && forall other :: other in rulesets.entries && rulesets.entries[other].body.name == d.name ==> other == id;
      SameHeads(rulesets.entries[id].body, d);
      OnlyMatch(rulesets, d.name, id);
      assert |ids| == 1 && TheOnly(ids) == id;
      SameRules(rulesets.entries[id].body.rules, d.rules);
    }
  }

  lemma SameHeads(a: Ruleset, b: Ruleset)
    requires SameRuleset(a, b)
    ensures a.name == b.name && a.target == b.target && a.active == b.active && a.bypassActors == b.bypassActors && a.conditions == b.conditions
  {
    var x, y := a.(rules := []), b.(rules := []);
    assert x.name == y.name && x.target == y.target && x.active == y.active && x.bypassActors == y.bypassActors && x.conditions == y.conditions;
  }

  lemma FallbacksMean(names: set<string>, own: set<string>, shared: map<string, Scope>, isPrivate: bool, fullName: string)
    ensures Fallbacks(names, shared, isPrivate, fullName) == {} && own * names == {} <==>
            forall name :: name in names ==> !Provides(name, own, shared, isPrivate, fullName)
  {
    var fallbacks := Fallbacks(names, shared, isPrivate, fullName);
    if fallbacks == {} && own * names == {} {
      forall name | name in names ensures !Provides(name, own, shared, isPrivate, fullName) {
        assert name !in own * names && name !in fallbacks;
      }
    }
    if forall name :: name in names ==> !Provides(name, own, shared, isPrivate, fullName) {
      forall name ensures name !in own * names && name !in fallbacks {}
    }
  }

  lemma FactsAsDesired(m: Manifest, organization: Organization, d: DesiredRepository, repository: Repository)
    ensures RepositoryFacts(m, organization, d, repository).Clean() <==> RepositoryAsDesired(m, organization, d, repository)
  {
    var isPrivate, fullName := repository.isPrivate, FullName(m, d);
    FallbacksMean(DesiredVariables(d), repository.variables, organization.variables, isPrivate, fullName);
    FallbacksMean(AuditedSecrets(m, d), repository.secrets, organization.secrets, isPrivate, fullName);
    VariablesMean(d, repository, organization, fullName);
    SecretsMean(m, d, repository, organization, fullName);
    PoliciesMean(d, repository);
  }

  lemma PoliciesMean(d: DesiredRepository, repository: Repository)
    ensures PolicyVariables(d.environments) * repository.variables == {} <==>
            forall e :: e in d.environments ==> e.PolicyVariable() !in repository.variables
  {
    var both := PolicyVariables(d.environments) * repository.variables;
    if both == {} {
      forall e | e in d.environments ensures e.PolicyVariable() !in repository.variables {
        assert e.PolicyVariable() in PolicyVariables(d.environments) && e.PolicyVariable() !in both;
      }
    } else {
      var x :| x in both;
      var e :| e in d.environments && e.PolicyVariable() == x;
    }
  }

  lemma VariablesMean(d: DesiredRepository, repository: Repository, organization: Organization, fullName: string)
    ensures (forall name :: name in DesiredVariables(d) ==>
               !Provides(name, repository.variables, organization.variables, repository.isPrivate, fullName)) <==>
            (forall e, name :: e in d.environments && name in e.allowedVariables ==>
               !Provides(name, repository.variables, organization.variables, repository.isPrivate, fullName))
  {
    forall e, name | e in d.environments && name in e.allowedVariables ensures name in DesiredVariables(d) {}
  }

  lemma SecretsMean(m: Manifest, d: DesiredRepository, repository: Repository, organization: Organization, fullName: string)
    ensures (forall name :: name in AuditedSecrets(m, d) ==>
               !Provides(name, repository.secrets, organization.secrets, repository.isPrivate, fullName)) <==>
            && (forall e, name :: e in d.environments && name in e.allowedSecrets ==>
                  !Provides(name, repository.secrets, organization.secrets, repository.isPrivate, fullName))
            && (forall name :: name in m.forbiddenSecrets ==>
                  !Provides(name, repository.secrets, organization.secrets, repository.isPrivate, fullName))
  {
    forall e, name | e in d.environments && name in e.allowedSecrets ensures name in AuditedSecrets(m, d) {}
  }

  lemma NoSentinelAbove(m: Manifest, organization: Organization)
    ensures OrganizationFallback(m, organization) <==> !NoSentinels(m, organization)
  {
    var both := AllPolicyVariables(m) * organization.variables.Keys;
    if both == {} {
      forall r, e | r in m.repositories && e in r.environments ensures e.PolicyVariable() !in organization.variables {
        assert e.PolicyVariable() in AllPolicyVariables(m) && e.PolicyVariable() !in both;
      }
    } else {
      var x :| x in both;
      var r, e :| r in m.repositories && e in r.environments && e.PolicyVariable() == x;
    }
  }

  lemma OrganizationMatches(m: Manifest, reviewers: seq<Reviewer>, organization: Organization)
    ensures !OrganizationFallback(m, organization) && Independent(organization, reviewers) <==> OrganizationAsDesired(m, reviewers, organization)
  {
    NoSentinelAbove(m, organization);
  }

  // ---------------------------------------------------------------- `passed`

  lemma SceneUnblocked(m: Manifest, reviewers: seq<Reviewer>, live: Live, i: nat, profile: bool)
    requires i < |m.repositories| && m.repositories[i].name in live.repositories
    requires !OrganizationFallback(m, live.organization) && Independent(live.organization, reviewers)
    requires RepositoryFacts(m, live.organization, m.repositories[i], live.repositories[m.repositories[i].name]).Clean()
    requires RulesetsExact(m.repositories[i].rulesets, live.repositories[m.repositories[i].name].rulesets)
    ensures Scoped(profile, SceneAt(m, reviewers, live, i).blockers) == []
  {
    var d := m.repositories[i];
    var repository := live.repositories[d.name];
    SceneBlockers(m, reviewers, live, i, profile);
    ScopedRepository(profile, false, true, RepositoryFacts(m, live.organization, d, repository));
    RS.NoBlockers(d.rulesets, repository.rulesets);
    forall x | x in d.rulesets ensures Classify(repository.rulesets, x) == Exact {
      var j :| 0 <= j < |d.rulesets| && d.rulesets[j] == x;
    }
  }

  lemma EnvironmentMatches(scene: Scene, d: DesiredEnvironment, environments: map<string, Environment>)
    requires d.Valid() && Scoped(d.profile, scene.blockers) == []
    ensures EnvironmentExact(scene, d, environments) <==> EnvironmentAsDesired(scene.reviewers, d, environments)
  {
    if d.name in environments { RE.UnblockedIsExact(scene, d, environments[d.name]); }
  }

  lemma RulesetsMatch(ds: seq<Ruleset>, rulesets: Rulesets)
    requires RS.Named(ds)
    ensures RulesetsExact(ds, rulesets) <==> RulesetsAsDesired(ds, rulesets)
  {
    forall j | 0 <= j < |ds| ensures Classify(rulesets, ds[j]) == Exact <==> RulesetAsDesired(ds[j], rulesets) {
      assert ds[j] in ds;
      ExactIsDesired(rulesets, ds[j]);
    }
  }

  lemma EnvironmentsMatch(scene: Scene, ds: seq<DesiredEnvironment>, environments: map<string, Environment>)
    requires forall k :: 0 <= k < |ds| ==> ds[k].Valid()
    requires Scoped(true, scene.blockers) == [] && Scoped(false, scene.blockers) == []
    ensures EnvironmentsExact(scene, ds, environments) <==> EnvironmentsAsDesired(scene.reviewers, ds, environments)
  {
    forall k | 0 <= k < |ds| ensures EnvironmentExact(scene, ds[k], environments) <==> EnvironmentAsDesired(scene.reviewers, ds[k], environments) {
      assert ds[k].profile == true || ds[k].profile == false;
      EnvironmentMatches(scene, ds[k], environments);
    }
  }

  lemma PartsValid(d: DesiredRepository)
    requires d.Valid()
    ensures RS.Named(d.rulesets) && forall k :: 0 <= k < |d.environments| ==> d.environments[k].Valid()
  {}

  lemma SelectedMatches(m: Manifest, reviewers: seq<Reviewer>, live: Live, i: nat)
    requires i < |m.repositories| && m.repositories[i].Valid() && m.repositories[i].name in live.repositories
    requires !OrganizationFallback(m, live.organization) && Independent(live.organization, reviewers)
    ensures RepositoryExactAt(m, reviewers, live, i) <==> SelectedAsDesired(m, Reviewers(reviewers), live, i)
  {
    var d := m.repositories[i];
    var repository, scene := live.repositories[d.name], SceneAt(m, reviewers, live, i);
    PartsValid(d);
    FactsAsDesired(m, live.organization, d, repository);
    RulesetsMatch(d.rulesets, repository.rulesets);
    if RepositoryFacts(m, live.organization, d, repository).Clean() && RulesetsExact(d.rulesets, repository.rulesets) {
      SceneUnblocked(m, reviewers, live, i, true);
      SceneUnblocked(m, reviewers, live, i, false);
      EnvironmentsMatch(scene, d.environments, repository.environments);
    }
  }

  lemma ClearIsExact(m: Manifest, reviewers: seq<Reviewer>, selected: set<string>, live: Live)
    requires m.Valid() && Observable(m.repositories, selected, live)
    ensures AllClear(m, reviewers, selected, live) <==> AllExact(m, reviewers, selected, live)
  {
    OrganizationMatches(m, reviewers, live.organization);
    if !OrganizationFallback(m, live.organization) && Independent(live.organization, reviewers) {
      forall i | 0 <= i < |m.repositories| && m.repositories[i].name in selected
        ensures m.repositories[i].name in live.repositories
        ensures RepositoryExactAt(m, reviewers, live, i) <==> SelectedAsDesired(m, Reviewers(reviewers), live, i)
      {
        assert m.repositories[i] in m.repositories && m.repositories[i].Valid();
        SelectedMatches(m, reviewers, live, i);
      }
    }
  }

  /** Verification exactness: the status is `passed` exactly when everything selected equals the desired
      state; then there is nothing to apply and no destructive flag. */
  lemma PassedMeansExact(m: Manifest, reviewers: seq<Reviewer>, selected: set<string>, live: Live)
    requires m.Valid() && Observable(m.repositories, selected, live)
    ensures AllPassed(Inspect(m, reviewers, selected, live).checks) <==> AllExact(m, reviewers, selected, live)
    ensures AllExact(m, reviewers, selected, live) ==>
              Inspect(m, reviewers, selected, live).mutations == [] && !Inspect(m, reviewers, selected, live).destructive
  {
    PassedMeansClear(m, reviewers, selected, live);
    ClearIsExact(m, reviewers, selected, live);
  }
}
