/** The staged evaluator as it runs, and what its report says. */
module StagedReport {
  import opened Options
  import opened Staged

  datatype Fold = AllPassed | SomeFailed | NotAllPassed

  datatype Entry = Entry(domain: Domain, required: bool, status: Fold)

  datatype Report = Report(passed: bool, sourcePassed: bool, promotionReady: bool, releaseReady: bool,
                           window: Option<Interval>, summary: seq<Entry>, checks: seq<Check>)

  function Order(): seq<Domain> {
    [LocalSource, LocalPromotion, LocalRelease] + seq(8, i requires 0 <= i < 8 => External(EXTERNAL_DOMAINS[i]))
  }

  predicate RequiredPassed(checks: seq<Check>) {
    forall i :: 0 <= i < |checks| && checks[i].required ==> checks[i].status == Passed
  }

  predicate SourcePassed(checks: seq<Check>) {
    forall i :: 0 <= i < |checks| && DomainOf(checks[i].id) == LocalSource ==> checks[i].status == Passed
  }

  predicate Promotes(d: Domain) {
    d == LocalSource || d == LocalPromotion || (d.External? && !Publication(d.evidence))
  }

  predicate PromotionPassed(checks: seq<Check>) {
    forall i :: 0 <= i < |checks| && Promotes(DomainOf(checks[i].id)) ==> checks[i].status == Passed
  }

  function Of(checks: seq<Check>, d: Domain): seq<Check> {
    if checks == [] then []
    else Of(checks[..|checks| - 1], d) + if DomainOf(checks[|checks| - 1].id) == d then [checks[|checks| - 1]] else []
  }

  function Folded(checks: seq<Check>): Fold {
    if exists i :: 0 <= i < |checks| && checks[i].status.Failed? then SomeFailed
    else if forall i :: 0 <= i < |checks| ==> checks[i].status == Passed then AllPassed
    else NotAllPassed
  }

  function EntryOf(checks: seq<Check>, d: Domain): Entry {
    Entry(d, exists i :: 0 <= i < |checks| && checks[i].required, Folded(checks))
  }

  function Summary(checks: seq<Check>, order: seq<Domain>): seq<Entry> {
    if order == [] then []
    else
      var n := |order| - 1;
      Summary(checks, order[..n]) + if Of(checks, order[n]) == [] then [] else [EntryOf(Of(checks, order[n]), order[n])]
  }

  function ReportOf(c: Configuration, s: State): Report {
    Report(RequiredPassed(s.checks), SourcePassed(s.checks), c.scope != SourceScope && PromotionPassed(s.checks),
           c.scope == ReleaseScope && RequiredPassed(s.checks), s.window, Summary(s.checks, Order()), s.checks)
  }

  // ---------------------------------------------------------------- the verdict

  ghost predicate Labelled(c: Configuration, checks: seq<Check>) {
    forall i :: 0 <= i < |checks| ==> checks[i].required == Requires(c.scope, DomainOf(checks[i].id))
  }

  lemma {:induction false} RunLabelled(c: Configuration, ids: seq<CheckId>)
    ensures |RunOf(c, ids).checks| == |ids| && Labelled(c, RunOf(c, ids).checks)
  {
    if ids != [] {
      var n := |ids| - 1;
      var before := RunOf(c, ids[..n]);
      RunLabelled(c, ids[..n]);
      assert RunOf(c, ids).checks[..n] == before.checks;
    }
  }

  /** Verdict lattice: release readiness implies promotion readiness implies source conformance, and the
      verdict is the readiness flag of the scope. */
  lemma VerdictLattice(c: Configuration, ids: seq<CheckId>)
    ensures var r := ReportOf(c, RunOf(c, ids));
            && (r.releaseReady ==> r.promotionReady) && (r.promotionReady ==> r.sourcePassed)
            && r.passed == match c.scope
                           case SourceScope => r.sourcePassed
                           case PromotionScope => r.promotionReady
                           case ReleaseScope => r.releaseReady
  {
    RunLabelled(c, ids);
    var checks := RunOf(c, ids).checks;
    ScopeRequires(c, checks);
  }

  lemma ScopeRequires(c: Configuration, checks: seq<Check>)
    requires Labelled(c, checks)
    ensures c.scope == SourceScope ==> (RequiredPassed(checks) <==> SourcePassed(checks))
    ensures c.scope == PromotionScope ==> (RequiredPassed(checks) <==> PromotionPassed(checks))
    ensures c.scope == ReleaseScope && RequiredPassed(checks) ==> PromotionPassed(checks)
    ensures PromotionPassed(checks) ==> SourcePassed(checks)
  {
    forall i | 0 <= i < |checks|
      ensures c.scope == SourceScope ==> (checks[i].required <==> DomainOf(checks[i].id) == LocalSource)
      ensures c.scope == PromotionScope ==> (checks[i].required <==> Promotes(DomainOf(checks[i].id)))
      ensures c.scope == ReleaseScope ==> checks[i].required
    {
    }
  }

  lemma {:induction false} OfMember(checks: seq<Check>, d: Domain, x: Check)
    ensures x in Of(checks, d) <==> x in checks && DomainOf(x.id) == d
  {
    if checks != [] {
      var n := |checks| - 1;
      OfMember(checks[..n], d, x);
      assert checks == checks[..n] + [checks[n]];
    }
  }

  lemma OrderComplete(d: Domain)
    ensures d in Order()
  {
    var i := match d
      case LocalSource => 0
      case LocalPromotion => 1
      case LocalRelease => 2
      case External(e) =>
        match e
        case LiveSdkConformance => 3
        case PublicTags => 4
        case PublicRegistries => 5
        case PhysicalDevices => 6
        case LiveProvider => 7
        case CloudDeployments => 8
        case OperationalResilience => 9
        case SupplyChain => 10;
    assert Order()[i] == d;
  }

  lemma {:induction false} SummaryMember(checks: seq<Check>, order: seq<Domain>, x: Entry)
    ensures x in Summary(checks, order) <==>
              x.domain in order && Of(checks, x.domain) != [] && x == EntryOf(Of(checks, x.domain), x.domain)
  {
    if order != [] {
      var n := |order| - 1;
      SummaryMember(checks, order[..n], x);
      assert order == order[..n] + [order[n]];
    }
  }

  /** In a domain, either every check is required or none is. */
  lemma EntryMeans(c: Configuration, checks: seq<Check>, d: Domain)
    requires Labelled(c, checks) && Of(checks, d) != []
    ensures var e := EntryOf(Of(checks, d), d);
            && (e.required <==> Requires(c.scope, d))
            && (e.status == AllPassed <==> forall x :: x in checks && DomainOf(x.id) == d ==> x.status == Passed)
  {
    var own := Of(checks, d);
    forall x ensures x in own <==> x in checks && DomainOf(x.id) == d { OfMember(checks, d, x); }
    forall i | 0 <= i < |own| ensures own[i].required == Requires(c.scope, d) { assert own[i] in checks; }
    assert own[0].required == Requires(c.scope, d);
    if EntryOf(own, d).status == AllPassed {
      forall x | x in checks && DomainOf(x.id) == d ensures x.status == Passed { assert x in own; }
    }
    if forall x :: x in checks && DomainOf(x.id) == d ==> x.status == Passed {
      forall i | 0 <= i < |own| ensures own[i].status == Passed { assert own[i] in own; }
    }
  }

  lemma EntryPasses(c: Configuration, checks: seq<Check>, x: Entry)
    requires Labelled(c, checks) && RequiredPassed(checks) && x in Summary(checks, Order()) && x.required
    ensures x.status == AllPassed
  {
    SummaryMember(checks, Order(), x);
    EntryMeans(c, checks, x.domain);
  }

  lemma CheckPasses(c: Configuration, checks: seq<Check>, i: nat)
    requires Labelled(c, checks) && i < |checks| && checks[i].required
    requires forall x :: x in Summary(checks, Order()) && x.required ==> x.status == AllPassed
    ensures checks[i].status == Passed
  {
    var d := DomainOf(checks[i].id);
    OfMember(checks, d, checks[i]);
    OrderComplete(d);
    EntryMeans(c, checks, d);
    SummaryMember(checks, Order(), EntryOf(Of(checks, d), d));
  }

  /** The verdict is read off the folded summary: every required domain passed. */
  lemma VerdictIsSummary(c: Configuration, ids: seq<CheckId>)
    ensures var r := ReportOf(c, RunOf(c, ids));
            r.passed <==> forall x :: x in r.summary && x.required ==> x.status == AllPassed
  {
    RunLabelled(c, ids);
    var checks := RunOf(c, ids).checks;
    if RequiredPassed(checks) {
      forall x | x in Summary(checks, Order()) && x.required ensures x.status == AllPassed { EntryPasses(c, checks, x); }
    }
    if forall x :: x in Summary(checks, Order()) && x.required ==> x.status == AllPassed {
      forall i | 0 <= i < |checks| && checks[i].required ensures checks[i].status == Passed { CheckPasses(c, checks, i); }
    }
  }

  // ---------------------------------------------------------------- the run

  /** The states an evaluation of `ids` goes through. */
  ghost predicate IsTrail(c: Configuration, ids: seq<CheckId>, trail: seq<State>) {
    && |trail| == |ids| + 1 && trail[0] == START
    && forall n :: 0 <= n < |ids| ==> trail[n + 1] == Stepped(c, trail[n], ids[n])
  }

  lemma NextStep(c: Configuration, ids: seq<CheckId>, n: nat)
    requires n < |ids|
    ensures RunOf(c, ids[..n + 1]) == Stepped(c, RunOf(c, ids[..n]), ids[n])
  {
    assert ids[..n + 1][..n] == ids[..n];
  }

  lemma TrailOf(c: Configuration, ids: seq<CheckId>) returns (trail: seq<State>)
    ensures IsTrail(c, ids, trail) && trail[|ids|] == RunOf(c, ids)
  {
    trail := seq(|ids| + 1, n requires 0 <= n <= |ids| => RunOf(c, ids[..n]));
    forall n | 0 <= n < |ids| ensures trail[n + 1] == Stepped(c, trail[n], ids[n]) { NextStep(c, ids, n); }
    assert ids[..|ids|] == ids;
  }

  lemma ProgramShape()
    ensures |Program()| == 21
    ensures forall i :: 0 <= i < 10 ==> Program()[i] == SOURCE_CHECKS[i]
    ensures Program()[10] == PromotionPreconditions && Program()[11] == ReleasePreconditions && Program()[20] == EvidenceWindow
    ensures forall i :: 0 <= i < 8 ==> Program()[12 + i] == EvidenceCheck(EXTERNAL_DOMAINS[i])
  {}

  class Evaluator {
    const config: Configuration
    var checks: seq<Check>
    var keys: set<Key>
    var released: int
    var evidence: map<Evidence, Interval>
    var window: Option<Interval>

    function View(): State
      reads this
    {
      State(checks, keys, released, evidence, window)
    }

    constructor (config: Configuration)
      ensures this.config == config && View() == START
    {
      this.config := config;
      checks, keys, released, evidence, window := [], {}, 0, map[], None;
    }

    /** The check's own work: it writes its keys last, so a failing check writes none. */
    method Operate(id: CheckId) returns (status: Status)
      requires id.EvidenceCheck? ==> config.directory == Present && config.document(id.evidence).Some?
      modifies this
      ensures status == Outcome(config, old(View()), id)
      ensures View() == Written(config, old(View()), id)
    {
      if !(Reads(id) <= keys) { return Failed(OtherCause); }
      match id {
        case EvidenceCheck(e) =>
          var t := config.document(e).value;
          if !config.holds(id) || !Timely(config, released, t) { return Failed(OtherCause); }
          evidence := evidence[e := t];
        case EvidenceWindow =>
          var es := RequiredEvidence(config.scope);
          if evidence == map[] || !AllPresent(evidence, es) { return Failed(OtherCause); }
          var earliest, latest := Earliest(evidence, es), Latest(evidence, es);
          if latest - earliest > MAXIMUM_AGE { return Failed(WindowTooWide); }
          window := Some(Interval(earliest, latest));
        case PromotionPreconditions =>
          if !config.holds(id) || !ReleaseTimely(config) { return Failed(OtherCause); }
          keys, released := keys + Writes(id), config.releasedAt;
        case _ =>
          if !config.holds(id) { return Failed(OtherCause); }
          keys := keys + Writes(id);
      }
      status := Passed;
    }

    /** `_run`, as entry `n` of the evaluation. */
    method Run(id: CheckId, ghost n: nat, ghost ids: seq<CheckId>, ghost trail: seq<State>)
      requires id.EvidenceCheck? ==> config.directory == Present && config.document(id.evidence).Some?
      requires Requires(config.scope, DomainOf(id))
      requires IsTrail(config, ids, trail) && n < |ids| && ids[n] == id && View() == trail[n]
      modifies this
      ensures View() == trail[n + 1]
    {
      var status := Operate(id);
      checks := checks + [Check(id, true, status)];
    }

    /** `_unverified`. */
    method LeaveUnverified(id: CheckId, required: bool, ghost n: nat, ghost ids: seq<CheckId>, ghost trail: seq<State>)
      requires required == Requires(config.scope, DomainOf(id))
      requires required ==> Outcome(config, View(), id) == Unverified
      requires IsTrail(config, ids, trail) && n < |ids| && ids[n] == id && View() == trail[n]
      modifies this
      ensures View() == trail[n + 1]
    {
      checks := checks + [Check(id, required, Unverified)];
    }

    /** `_verify_external_domain`: an evidence root that is not a real directory ends the evaluation. */
    method VerifyExternal(e: Evidence, ghost n: nat, ghost ids: seq<CheckId>, ghost trail: seq<State>) returns (raised: bool)
      requires Requires(config.scope, External(e))
      requires IsTrail(config, ids, trail) && n < |ids| && ids[n] == EvidenceCheck(e) && View() == trail[n]
      modifies this
      ensures raised <==> config.directory == Invalid
      ensures !raised ==> View() == trail[n + 1]
    {
      var id := EvidenceCheck(e);
      if config.directory == Invalid { return true; }
      if config.directory != Present || config.document(e).None? {
        LeaveUnverified(id, true, n, ids, trail);
        return false;
      }
      Run(id, n, ids, trail);
      raised := false;
    }

    method RunLayoutChecks(ghost ids: seq<CheckId>, ghost trail: seq<State>)
      requires IsTrail(config, ids, trail) && |ids| >= 10 && ids[..10] == SOURCE_CHECKS && View() == trail[0]
      modifies this
      ensures View() == trail[3]
    {
      assert forall i :: 0 <= i < 3 ==> ids[i] == SOURCE_CHECKS[i];
      Run(Layout, 0, ids, trail);
      Run(CleanWorktrees, 1, ids, trail);
      Run(DocumentationMirror, 2, ids, trail);
    }

    method RunContractChecks(ghost ids: seq<CheckId>, ghost trail: seq<State>)
      requires IsTrail(config, ids, trail) && |ids| >= 10 && ids[..10] == SOURCE_CHECKS && View() == trail[3]
      modifies this
      ensures View() == trail[6]
    {
      assert forall i :: 3 <= i < 6 ==> ids[i] == SOURCE_CHECKS[i];
      Run(CoreContract, 3, ids, trail);
      Run(ContractBundle, 4, ids, trail);
      Run(ContractLocks, 5, ids, trail);
    }

    method RunPackageChecks(ghost ids: seq<CheckId>, ghost trail: seq<State>)
      requires IsTrail(config, ids, trail) && |ids| >= 10 && ids[..10] == SOURCE_CHECKS && View() == trail[6]
      modifies this
      ensures View() == trail[8]
    {
      assert forall i :: 6 <= i < 8 ==> ids[i] == SOURCE_CHECKS[i];
      Run(Fixtures, 6, ids, trail);
      Run(PackageVersions, 7, ids, trail);
    }

    method RunSdkChecks(ghost ids: seq<CheckId>, ghost trail: seq<State>)
      requires IsTrail(config, ids, trail) && |ids| >= 10 && ids[..10] == SOURCE_CHECKS && View() == trail[8]
      modifies this
      ensures View() == trail[10]
    {
      assert forall i :: 8 <= i < 10 ==> ids[i] == SOURCE_CHECKS[i];
      Run(SdkBundles, 8, ids, trail);
      Run(ReactNativePins, 9, ids, trail);
    }

    method RunExternal(ghost ids: seq<CheckId>, ghost trail: seq<State>) returns (raised: bool)
      requires IsTrail(config, ids, trail) && |ids| >= 20 && View() == trail[12]
      requires forall i :: 0 <= i < 8 ==> ids[12 + i] == EvidenceCheck(EXTERNAL_DOMAINS[i])
      modifies this
      ensures raised <==> config.scope != SourceScope && config.directory == Invalid
      ensures !raised ==> View() == trail[20]
    {
      raised := false;
      for i := 0 to 8
        invariant View() == trail[12 + i] && !raised
        invariant i > 0 ==> config.scope == SourceScope || config.directory != Invalid
      {
        var e := EXTERNAL_DOMAINS[i];
        assert ids[12 + i] == EvidenceCheck(e);
        if Requires(config.scope, External(e)) {
          raised := VerifyExternal(e, 12 + i, ids, trail);
          if raised { return; }
        } else {
          LeaveUnverified(EvidenceCheck(e), false, 12 + i, ids, trail);
        }
      }
    }

    method RunAll(ghost ids: seq<CheckId>, ghost trail: seq<State>) returns (raised: bool)
      requires IsTrail(config, ids, trail) && ids == Program() && View() == START
      modifies this
      ensures raised <==> config.scope != SourceScope && config.directory == Invalid
      ensures !raised ==> View() == trail[21]
    {
      ProgramShape();
      RunLayoutChecks(ids, trail);
      RunContractChecks(ids, trail);
      RunPackageChecks(ids, trail);
      RunSdkChecks(ids, trail);
      if config.scope != SourceScope {
        Run(PromotionPreconditions, 10, ids, trail);
      } else {
        LeaveUnverified(PromotionPreconditions, false, 10, ids, trail);
      }
      if config.scope == ReleaseScope {
        Run(ReleasePreconditions, 11, ids, trail);
      } else {
        LeaveUnverified(ReleasePreconditions, false, 11, ids, trail);
      }
      raised := RunExternal(ids, trail);
      if raised { return; }
      if config.scope != SourceScope {
        Run(EvidenceWindow, 20, ids, trail);
      } else {
        LeaveUnverified(EvidenceWindow, false, 20, ids, trail);
      }
    }

    /** `evaluate`: a report of the whole program, unless the evidence root is invalid where needed. */
    method Evaluate() returns (report: Option<Report>)
      requires View() == START
      modifies this
      ensures report.None? <==> config.scope != SourceScope && config.directory == Invalid
      ensures report.Some? ==> View() == RunOf(config, Program()) && report.value == ReportOf(config, View())
    {
      ghost var trail := TrailOf(config, Program());
      ProgramShape();
      var raised := RunAll(Program(), trail);
      if raised { return None; }
      var summary := Summarize();
      report := Some(Report(RequiredPassed(checks), SourcePassed(checks), config.scope != SourceScope && PromotionPassed(checks),
                            config.scope == ReleaseScope && RequiredPassed(checks), window, summary, checks));
    }

    /** `_domain_summary`. */
    method Summarize() returns (summary: seq<Entry>)
      ensures summary == Summary(checks, Order())
    {
      var order := Order();
      summary := [];
      for i := 0 to |order|
        invariant summary == Summary(checks, order[..i])
      {
        assert order[..i + 1][..i] == order[..i];
        var own := Of(checks, order[i]);
        if own != [] { summary := summary + [EntryOf(own, order[i])]; }
      }
      assert order[..|order|] == order;
    }
  }
}
