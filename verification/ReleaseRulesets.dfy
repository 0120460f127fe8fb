/** What any part of a repository's ruleset plan does to its rulesets: existing rulesets only gain
    rules, created ones are exact, and the full plan leaves every manageable ruleset exact. */
module ReleaseRulesets {
  import opened ReleaseState
  import opened ReleaseInspect
  import opened ReleasePlan

  ghost predicate Named(ds: seq<Ruleset>) {
    && (forall d <- ds :: d.active && Distinct(d.rules))
    && (forall i, j :: 0 <= i < j < |ds| ==> ds[i].name != ds[j].name)
  }

  ghost predicate Fresh(rulesets: Rulesets) {
    forall id <- rulesets.entries :: id < rulesets.nextId
  }

  /** `d` completes ruleset `id` of the initial state. */
  ghost predicate Completes(ds: seq<Ruleset>, before: Rulesets, id: nat, d: Ruleset) {
    d in ds && Classify(before, d) == Incomplete(id)
  }

  /** `id` was created from `d`, which the initial state lacked, and nothing else bears its name. */
  ghost predicate Created(ds: seq<Ruleset>, before: Rulesets, after: Rulesets, id: nat, d: Ruleset) {
    && d in ds && Classify(before, d) == Absent
    && id in after.entries && after.entries[id] == LiveRuleset(true, d)
    && Matches(after, d.name) == {id}
  }

  ghost predicate Advanced(ds: seq<Ruleset>, before: Rulesets, after: Rulesets) {
    && Fresh(after)
    && (forall id <- before.entries ::
          && id in after.entries
          && (|| after.entries[id] == before.entries[id]
              || exists d :: Completes(ds, before, id, d) && after.entries[id] == before.entries[id].(body := d)))
    && (forall id <- after.entries :: id in before.entries || exists d :: Created(ds, before, after, id, d))
  }

  lemma {:induction false} PlanMembers(r: string, ds: seq<Ruleset>, rulesets: Rulesets, m: Mutation)
    ensures m in InspectRulesets(r, ds, rulesets).mutations
         <==> exists d <- ds :: m in RulesetMutations(r, d, Classify(rulesets, d))
  {
    if ds != [] {
      var rest, last := ds[..|ds| - 1], ds[|ds| - 1];
      PlanMembers(r, rest, rulesets, m);
      assert ds == rest + [last];
    }
  }

  lemma ClassifyIncomplete(rulesets: Rulesets, d: Ruleset, id: nat)
    requires Classify(rulesets, d) == Incomplete(id)
    ensures Matches(rulesets, d.name) == {id}
    ensures id in rulesets.entries && Completable(rulesets.entries[id], d)
  {}

  /** Names present at the start keep their ruleset ids. */
  lemma MatchesKept(ds: seq<Ruleset>, before: Rulesets, after: Rulesets, name: string)
    requires Advanced(ds, before, after)
    ensures Matches(before, name) <= Matches(after, name)
    ensures Matches(before, name) != {} ==> Matches(after, name) == Matches(before, name)
  {
    forall id | id in Matches(before, name) ensures id in Matches(after, name) {
      if after.entries[id] != before.entries[id] {
        var d :| Completes(ds, before, id, d) && after.entries[id] == before.entries[id].(body := d);
        ClassifyIncomplete(before, d, id);
      }
    }
    if Matches(before, name) != {} {
      forall id | id in Matches(after, name) ensures id in Matches(before, name) {
        if id in before.entries {
          if after.entries[id] != before.entries[id] {
            var d :| Completes(ds, before, id, d) && after.entries[id] == before.entries[id].(body := d);
            ClassifyIncomplete(before, d, id);
          }
        }
      }
    }
  }

  lemma SameName(ds: seq<Ruleset>, a: Ruleset, b: Ruleset)
    requires Named(ds) && a in ds && b in ds && a.name == b.name
    ensures a == b
  {}

  lemma PostAdvances(ds: seq<Ruleset>, before: Rulesets, now: Rulesets, m: Mutation)
    requires Named(ds) && Advanced(ds, before, now)
    requires m.PostRuleset? && m.ruleset in ds && Classify(before, m.ruleset) == Absent
    ensures var after := StepRulesets(now, m);
            Advanced(ds, before, after) && exists id :: Created(ds, before, after, id, m.ruleset)
  {
    var d, after := m.ruleset, StepRulesets(now, m);
    assert Matches(before, d.name) == {};
    if Matches(now, d.name) != {} {
      var id :| id in Matches(now, d.name);
      var c :| Created(ds, before, now, id, c);
      SameName(ds, c, d);
    } else {
      var newId := now.nextId;
      assert after == Rulesets(now.entries[newId := LiveRuleset(true, d)], newId + 1);
      assert Matches(after, d.name) == {newId};
      assert Created(ds, before, after, newId, d);
      forall id | id in after.entries && id !in before.entries ensures exists c :: Created(ds, before, after, id, c) {
        if id != newId {
          var c :| Created(ds, before, now, id, c);
          assert c.name != d.name;
          assert Matches(after, c.name) == Matches(now, c.name);
          assert Created(ds, before, after, id, c);
        }
      }
    }
  }

  lemma PutAdvances(ds: seq<Ruleset>, before: Rulesets, now: Rulesets, m: Mutation)
    requires Named(ds) && Advanced(ds, before, now)
    requires m.PutRuleset? && Completes(ds, before, m.id, m.ruleset)
    ensures var after := StepRulesets(now, m);
            && Advanced(ds, before, after)
            && m.id in after.entries && after.entries[m.id] == before.entries[m.id].(body := m.ruleset)
  {
    var d, id, after := m.ruleset, m.id, StepRulesets(now, m);
    ClassifyIncomplete(before, d, id);
    if now.entries[id] != before.entries[id] {
      var c :| Completes(ds, before, id, c) && now.entries[id] == before.entries[id].(body := c);
      ClassifyIncomplete(before, c, id);
      SameName(ds, c, d);
    }
    assert now.entries[id].body.name == d.name;
    forall x | x in after.entries && x !in before.entries ensures exists c :: Created(ds, before, after, x, c) {
      var c :| Created(ds, before, now, x, c);
      assert Matches(after, c.name) == Matches(now, c.name);
      assert Created(ds, before, after, x, c);
    }
  }

  /** The effect of `m` is present in `after`. */
  ghost predicate Done(ds: seq<Ruleset>, before: Rulesets, after: Rulesets, m: Mutation) {
    match m
    case PostRuleset(_, _, d) => exists id :: Created(ds, before, after, id, d)
    case PutRuleset(_, _, id, d) => id in before.entries && id in after.entries && after.entries[id] == before.entries[id].(body := d)
    case _ => true
  }

  /** A request of the ruleset plan. */
  ghost predicate Planned(ds: seq<Ruleset>, before: Rulesets, m: Mutation) {
    && m.OnRulesets()
    && (m.PutRuleset? ==> Completes(ds, before, m.id, m.ruleset))
    && (m.PostRuleset? ==> m.ruleset in ds && Classify(before, m.ruleset) == Absent)
  }

  lemma OthersMatch(ds: seq<Ruleset>, before: Rulesets, now: Rulesets, step: Mutation, name: string)
    requires Advanced(ds, before, now) && Planned(ds, before, step) && step.ruleset.name != name
    ensures Matches(StepRulesets(now, step), name) == Matches(now, name)
  {
    if step.PutRuleset? {
      ClassifyIncomplete(before, step.ruleset, step.id);
      MatchesKept(ds, before, now, step.ruleset.name);
      assert now.entries[step.id].body.name == step.ruleset.name;
    }
  }

  lemma CreatedIsNew(ds: seq<Ruleset>, before: Rulesets, now: Rulesets, id: nat, d: Ruleset)
    requires Advanced(ds, before, now) && Created(ds, before, now, id, d)
    ensures id !in before.entries && Matches(before, d.name) == {}
  {
    assert Matches(before, d.name) == {};
    assert id !in Matches(before, d.name);
  }

  lemma CreatedKept(ds: seq<Ruleset>, before: Rulesets, now: Rulesets, id: nat, d: Ruleset, step: Mutation)
    requires Named(ds) && Advanced(ds, before, now) && Created(ds, before, now, id, d) && Planned(ds, before, step)
    ensures Created(ds, before, StepRulesets(now, step), id, d)
  {
    CreatedIsNew(ds, before, now, id, d);
    if step.ruleset.name != d.name {
      OthersMatch(ds, before, now, step, d.name);
    }
  }

  lemma DoneKept(ds: seq<Ruleset>, before: Rulesets, now: Rulesets, m: Mutation, step: Mutation)
    requires Named(ds) && Advanced(ds, before, now) && Done(ds, before, now, m)
    requires Planned(ds, before, m) && Planned(ds, before, step)
    ensures Done(ds, before, StepRulesets(now, step), m)
  {
    if m.PostRuleset? {
      var id :| Created(ds, before, now, id, m.ruleset);
      CreatedKept(ds, before, now, id, m.ruleset, step);
    } else if m.PutRuleset? && step.PutRuleset? && step.id == m.id {
      ClassifyIncomplete(before, m.ruleset, m.id);
      ClassifyIncomplete(before, step.ruleset, step.id);
      SameName(ds, m.ruleset, step.ruleset);
    }
  }

  lemma PlannedMember(r: string, ds: seq<Ruleset>, before: Rulesets, m: Mutation)
    requires m in InspectRulesets(r, ds, before).mutations
    ensures Planned(ds, before, m)
  {
    PlanMembers(r, ds, before, m);
  }

  lemma StepAdvances(ds: seq<Ruleset>, before: Rulesets, now: Rulesets, m: Mutation)
    requires Named(ds) && Advanced(ds, before, now) && Planned(ds, before, m)
    ensures Advanced(ds, before, StepRulesets(now, m)) && Done(ds, before, StepRulesets(now, m), m)
  {
    if m.PostRuleset? { PostAdvances(ds, before, now, m); } else { PutAdvances(ds, before, now, m); }
  }

  /** Any requests drawn from the plan keep the rulesets advanced, and every one of them is done. */
  lemma {:induction false} RunAdvances(ds: seq<Ruleset>, before: Rulesets, steps: seq<Mutation>)
    requires Named(ds) && Fresh(before)
    requires forall m <- steps :: m.OnRulesets() && Planned(ds, before, m)
    ensures Advanced(ds, before, RunRulesets(before, steps))
    ensures forall m <- steps :: Done(ds, before, RunRulesets(before, steps), m)
  {
    if steps != [] {
      var rest, last := steps[..|steps| - 1], steps[|steps| - 1];
      RunAdvances(ds, before, rest);
      var now := RunRulesets(before, rest);
      StepAdvances(ds, before, now, last);
      forall m | m in steps ensures Done(ds, before, StepRulesets(now, last), m) {
        if m != last { DoneKept(ds, before, now, m, last); }
      }
    }
  }

  // ---------------------------------------------------------------- consequences

  /** An exact ruleset stays exact. */
  lemma ExactKept(ds: seq<Ruleset>, before: Rulesets, after: Rulesets, d: Ruleset)
    requires Named(ds) && Advanced(ds, before, after) && d in ds && Classify(before, d) == Exact
    ensures Classify(after, d) == Exact
  {
    var ids := Matches(before, d.name);
    var id := TheOnly(ids);
    MatchesKept(ds, before, after, d.name);
  }

  /** Requests done: absent and incomplete rulesets have become exact. */
  lemma DoneExact(r: string, ds: seq<Ruleset>, before: Rulesets, after: Rulesets, d: Ruleset)
    requires Named(ds) && Advanced(ds, before, after) && d in ds && Classify(before, d) != Unmanageable
    requires forall m <- InspectRulesets(r, ds, before).mutations :: Done(ds, before, after, m)
    ensures Classify(after, d) == Exact
  {
    match Classify(before, d) {
      case Exact => ExactKept(ds, before, after, d);
      case Absent =>
        var m := PostRuleset(r, CreateRuleset, d);
        PlanMembers(r, ds, before, m);
        assert Done(ds, before, after, m);
        var id :| Created(ds, before, after, id, d);
        assert TheOnly(Matches(after, d.name)) == id;
      case Incomplete(id) =>
        var m := PutRuleset(r, CompleteRuleset, id, d);
        PlanMembers(r, ds, before, m);
        assert Done(ds, before, after, m);
        ClassifyIncomplete(before, d, id);
        MatchesKept(ds, before, after, d.name);
        assert TheOnly(Matches(after, d.name)) == id;
    }
  }

  lemma {:induction false} DistinctCount(s: seq<Rule>, x: Rule)
    requires Distinct(s)
    ensures multiset(s)[x] == if x in s then 1 else 0
  {
    if s != [] {
      var rest, last := s[..|s| - 1], s[|s| - 1];
      assert s == rest + [last];
      DistinctCount(rest, x);
    }
  }

  /** Among distinct rules, more rules are more of each. */
  lemma DistinctSubset(a: seq<Rule>, b: seq<Rule>)
    requires Distinct(a) && Distinct(b)
    ensures RuleSet(a) <= RuleSet(b) <==> multiset(a) <= multiset(b)
  {
    if RuleSet(a) <= RuleSet(b) {
      forall x ensures multiset(a)[x] <= multiset(b)[x] {
        DistinctCount(a, x);
        DistinctCount(b, x);
        if x in a { assert x in RuleSet(a); }
      }
    }
    if multiset(a) <= multiset(b) {
      forall x | x in RuleSet(a) ensures x in RuleSet(b) { assert x in multiset(a) && x in multiset(b); }
    }
  }

  /** No ruleset and no rule is lost; target, bypass actors and conditions stay. */
  ghost predicate Grows(before: Rulesets, after: Rulesets) {
    forall id <- before.entries ::
      && id in after.entries
      && var o, n := before.entries[id].body, after.entries[id].body;
      && n.name == o.name && n.target == o.target && n.bypassActors == o.bypassActors && n.conditions == o.conditions
      && multiset(o.rules) <= multiset(n.rules) && (o.active ==> n.active)
      && after.entries[id].observable == before.entries[id].observable
  }

  lemma StepGrows(ds: seq<Ruleset>, before: Rulesets, now: Rulesets, m: Mutation)
    requires Named(ds) && Advanced(ds, before, now) && Planned(ds, before, m)
    ensures Grows(now, StepRulesets(now, m))
  {
    if m.PutRuleset? {
      ClassifyIncomplete(before, m.ruleset, m.id);
      if now.entries[m.id] != before.entries[m.id] {
        var c :| Completes(ds, before, m.id, c) && now.entries[m.id] == before.entries[m.id].(body := c);
        ClassifyIncomplete(before, c, m.id);
        SameName(ds, c, m.ruleset);
      }
      DistinctSubset(now.entries[m.id].body.rules, m.ruleset.rules);
    }
  }

  lemma {:induction false} RunGrows(ds: seq<Ruleset>, before: Rulesets, steps: seq<Mutation>, a: nat)
    requires Named(ds) && Fresh(before) && a <= |steps|
    requires forall m <- steps :: m.OnRulesets() && Planned(ds, before, m)
    ensures Grows(RunRulesets(before, steps[..a]), RunRulesets(before, steps))
  {
    if a == |steps| {
      assert steps[..a] == steps;
    } else {
      var rest, last := steps[..|steps| - 1], steps[|steps| - 1];
      RunGrows(ds, before, rest, a);
      assert rest[..a] == steps[..a];
      RunAdvances(ds, before, rest);
      StepGrows(ds, before, RunRulesets(before, rest), last);
    }
  }

  lemma {:induction false} NoBlockersAt(ds: seq<Ruleset>, rulesets: Rulesets)
    ensures RulesetBlockers(ds, rulesets) == [] <==> forall i :: 0 <= i < |ds| ==> Classify(rulesets, ds[i]) == Exact
  {
    if ds != [] {
      var rest, last := ds[..|ds| - 1], ds[|ds| - 1];
      NoBlockersAt(rest, rulesets);
      assert forall i :: 0 <= i < |rest| ==> ds[i] == rest[i];
      assert |RulesetBlockers(ds, rulesets)| == |RulesetBlockers(rest, rulesets)| + if Classify(rulesets, last) != Exact then 1 else 0;
    }
  }

  lemma NoBlockers(ds: seq<Ruleset>, rulesets: Rulesets)
    ensures RulesetBlockers(ds, rulesets) == [] <==> forall d <- ds :: Classify(rulesets, d) == Exact
  {
    NoBlockersAt(ds, rulesets);
    if forall d <- ds :: Classify(rulesets, d) == Exact {
      forall i | 0 <= i < |ds| ensures Classify(rulesets, ds[i]) == Exact { assert ds[i] in ds; }
    }
  }

  lemma PassedConcat(a: seq<Finding>, b: seq<Finding>)
    ensures AllPassed(a + b) <==> AllPassed(a) && AllPassed(b)
  {
    if AllPassed(a + b) {
      forall x | x in a ensures x.status == Passed { assert x in a + b; }
      forall x | x in b ensures x.status == Passed { assert x in a + b; }
    }
  }

  lemma RulesetInspection(r: string, d: Ruleset, rulesets: Rulesets)
    ensures AllPassed(InspectRuleset(r, d, rulesets).checks) <==> Classify(rulesets, d) == Exact
    ensures InspectRuleset(r, d, rulesets).destructive <==> Classify(rulesets, d) == Unmanageable
    ensures Classify(rulesets, d) == Exact ==> InspectRuleset(r, d, rulesets).mutations == []
  {}

  lemma RulesetsSnoc(r: string, ds: seq<Ruleset>, rulesets: Rulesets)
    requires ds != []
    ensures var rest, last := InspectRulesets(r, ds[..|ds| - 1], rulesets), InspectRuleset(r, ds[|ds| - 1], rulesets);
            && InspectRulesets(r, ds, rulesets).checks == rest.checks + last.checks
            && InspectRulesets(r, ds, rulesets).mutations == rest.mutations + last.mutations
            && InspectRulesets(r, ds, rulesets).destructive == (rest.destructive || last.destructive)
  {}

  lemma {:induction false} RulesetsPassed(r: string, ds: seq<Ruleset>, rulesets: Rulesets)
    ensures AllPassed(InspectRulesets(r, ds, rulesets).checks) <==> forall i :: 0 <= i < |ds| ==> Classify(rulesets, ds[i]) == Exact
    ensures (forall i :: 0 <= i < |ds| ==> Classify(rulesets, ds[i]) == Exact) ==> InspectRulesets(r, ds, rulesets).mutations == []
  {
    if ds != [] {
      var rest, last := ds[..|ds| - 1], ds[|ds| - 1];
      RulesetsPassed(r, rest, rulesets);
      RulesetInspection(r, last, rulesets);
      RulesetsSnoc(r, ds, rulesets);
      PassedConcat(InspectRulesets(r, rest, rulesets).checks, InspectRuleset(r, last, rulesets).checks);
      assert forall i :: 0 <= i < |rest| ==> ds[i] == rest[i];
    }
  }

  lemma {:induction false} RulesetsDestructive(r: string, ds: seq<Ruleset>, rulesets: Rulesets)
    ensures InspectRulesets(r, ds, rulesets).destructive <==> exists i :: 0 <= i < |ds| && Classify(rulesets, ds[i]) == Unmanageable
  {
    if ds != [] {
      var rest, last := ds[..|ds| - 1], ds[|ds| - 1];
      RulesetsDestructive(r, rest, rulesets);
      RulesetInspection(r, last, rulesets);
      RulesetsSnoc(r, ds, rulesets);
      assert forall i :: 0 <= i < |rest| ==> ds[i] == rest[i];
    }
  }

  lemma RulesetsInspection(r: string, ds: seq<Ruleset>, rulesets: Rulesets)
    ensures AllPassed(InspectRulesets(r, ds, rulesets).checks) <==> forall i :: 0 <= i < |ds| ==> Classify(rulesets, ds[i]) == Exact
    ensures InspectRulesets(r, ds, rulesets).destructive <==> exists i :: 0 <= i < |ds| && Classify(rulesets, ds[i]) == Unmanageable
    ensures (forall i :: 0 <= i < |ds| ==> Classify(rulesets, ds[i]) == Exact) ==> InspectRulesets(r, ds, rulesets).mutations == []
  {
    RulesetsPassed(r, ds, rulesets);
    RulesetsDestructive(r, ds, rulesets);
  }
}
