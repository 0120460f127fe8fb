/** The staged evaluator of cross-repository conformance: checks run in a fixed order, each reading
    state that earlier checks wrote, and the report folds their outcomes. */
module Staged {
  import opened Options

  const MAXIMUM_AGE := 7 * 24 * 60 * 60

  datatype Scope = SourceScope | PromotionScope | ReleaseScope

  datatype Evidence =
    | LiveSdkConformance | PublicTags | PublicRegistries | PhysicalDevices
    | LiveProvider | CloudDeployments | OperationalResilience | SupplyChain

  datatype Domain = LocalSource | LocalPromotion | LocalRelease | External(evidence: Evidence)

  datatype CheckId =
    | Layout | CleanWorktrees | DocumentationMirror | CoreContract | ContractBundle | ContractLocks
    | Fixtures | PackageVersions | SdkBundles | ReactNativePins
    | PromotionPreconditions | ReleasePreconditions | EvidenceCheck(evidence: Evidence) | EvidenceWindow

  datatype Key =
    | Repositories | Commits | Documentation
    | Manifest | ContractVersion | WireProtocol | BundleName | CoreVersion | ContractStatus | ReleasedAt
    | BundleSha | BundleMembers | Locks | CoreRelease | ContractSourceCommit | FixtureHashes
    | Versions | IntendedTags | Compatibility | ContractReleasedAt | ImageDigest | PreconditionsPassed | ReleaseTags

  datatype Cause = WindowTooWide | OtherCause

  datatype Status = Passed | Failed(cause: Cause) | Unverified

  datatype Check = Check(id: CheckId, required: bool, status: Status)

  datatype Interval = Interval(started: int, finished: int)

  datatype Directory = NotSupplied | Missing | Invalid | Present

  /** What is evaluated. `holds` is everything a check verifies beyond the state it reads and the times
      below; `document` is the evidence found for a domain. */
  datatype Configuration = Configuration(scope: Scope, now: int, releasedAt: int, directory: Directory,
                                         document: Evidence -> Option<Interval>, holds: CheckId -> bool)

  const EXTERNAL_DOMAINS: seq<Evidence> :=
    [LiveSdkConformance, PublicTags, PublicRegistries, PhysicalDevices, LiveProvider, CloudDeployments, OperationalResilience, SupplyChain]

  const SOURCE_CHECKS: seq<CheckId> :=
    [Layout, CleanWorktrees, DocumentationMirror, CoreContract, ContractBundle, ContractLocks, Fixtures, PackageVersions, SdkBundles,
     ReactNativePins]

  predicate Publication(e: Evidence) { e == PublicTags || e == PublicRegistries }

  function RequiredEvidence(scope: Scope): seq<Evidence> {
    if scope == ReleaseScope then EXTERNAL_DOMAINS
    else [LiveSdkConformance, PhysicalDevices, LiveProvider, CloudDeployments, OperationalResilience, SupplyChain]
  }

  function Reads(id: CheckId): set<Key> {
    match id
    case Layout => {}
    case CleanWorktrees => {Repositories}
    case DocumentationMirror => {Repositories, Commits}
    case CoreContract => {Repositories}
    case ContractBundle => {Repositories, BundleName}
    case ContractLocks => {Repositories, Commits, ContractVersion, CoreVersion, WireProtocol, BundleSha}
    case Fixtures => {Repositories, BundleMembers}
    case PackageVersions => {Repositories, ContractVersion, WireProtocol, CoreVersion}
    case SdkBundles => {Repositories, Commits, Versions}
    case ReactNativePins => {Repositories, Commits, Versions, FixtureHashes, ContractVersion, WireProtocol, ContractSourceCommit, BundleSha}
    case PromotionPreconditions => {Repositories, Versions, IntendedTags, Manifest, CoreRelease}
    case ReleasePreconditions => {PreconditionsPassed, Repositories, Commits, IntendedTags}
    case EvidenceCheck(_) => {Commits, Versions, IntendedTags, ContractVersion, BundleSha, ContractReleasedAt, ImageDigest}
    case EvidenceWindow => {}
  }

  function Writes(id: CheckId): set<Key> {
    match id
    case Layout => {Repositories, Commits}
    case DocumentationMirror => {Documentation}
    case CoreContract => {Manifest, ContractVersion, WireProtocol, BundleName, CoreVersion, ContractStatus, ReleasedAt}
    case ContractBundle => {BundleSha, BundleMembers}
    case ContractLocks => {Locks, CoreRelease, ContractSourceCommit}
    case Fixtures => {FixtureHashes}
    case PackageVersions => {Versions, IntendedTags}
    case ReactNativePins => {Compatibility}
    case PromotionPreconditions => {ContractReleasedAt, ImageDigest, PreconditionsPassed}
    case ReleasePreconditions => {ReleaseTags}
    case _ => {}
  }

  /** The single check that writes a key. */
  function Writer(k: Key): CheckId {
    match k
    case Repositories => Layout
    case Commits => Layout
    case Documentation => DocumentationMirror
    case BundleSha => ContractBundle
    case BundleMembers => ContractBundle
    case Locks => ContractLocks
    case CoreRelease => ContractLocks
    case ContractSourceCommit => ContractLocks
    case FixtureHashes => Fixtures
    case Versions => PackageVersions
    case IntendedTags => PackageVersions
    case Compatibility => ReactNativePins
    case ContractReleasedAt => PromotionPreconditions
    case ImageDigest => PromotionPreconditions
    case PreconditionsPassed => PromotionPreconditions
    case ReleaseTags => ReleasePreconditions
    case _ => CoreContract
  }

  lemma WriterUnique(k: Key, id: CheckId)
    ensures k in Writes(id) <==> Writer(k) == id
  {}

  function DomainOf(id: CheckId): Domain {
    match id
    case PromotionPreconditions => LocalPromotion
    case EvidenceWindow => LocalPromotion
    case ReleasePreconditions => LocalRelease
    case EvidenceCheck(e) => External(e)
    case _ => LocalSource
  }

  /** Which domains a scope requires. */
  predicate Requires(scope: Scope, domain: Domain) {
    match domain
    case LocalSource => true
    case LocalPromotion => scope != SourceScope
    case LocalRelease => scope == ReleaseScope
    case External(e) => scope == ReleaseScope || (scope == PromotionScope && !Publication(e))
  }

  // ---------------------------------------------------------------- one check

  /** `self.checks` and `self.state`: which keys are present, and the values times depend on. */
  datatype State = State(checks: seq<Check>, keys: set<Key>, released: int, evidence: map<Evidence, Interval>, window: Option<Interval>)

  const START := State([], {}, 0, map[], None)

  predicate Timely(c: Configuration, released: int, t: Interval) {
    && t.started < t.finished && t.finished - t.started <= MAXIMUM_AGE
    && released <= t.started && t.finished <= c.now && c.now - t.finished <= MAXIMUM_AGE
  }

  predicate ReleaseTimely(c: Configuration) {
    c.releasedAt <= c.now && c.now - c.releasedAt <= MAXIMUM_AGE
  }

  predicate AllPresent(evidence: map<Evidence, Interval>, es: seq<Evidence>) {
    forall i :: 0 <= i < |es| ==> es[i] in evidence
  }

  function Earliest(evidence: map<Evidence, Interval>, es: seq<Evidence>): (t: int)
    requires AllPresent(evidence, es) && es != []
    ensures forall i :: 0 <= i < |es| ==> t <= evidence[es[i]].started
    ensures exists i :: 0 <= i < |es| && t == evidence[es[i]].started
  {
    var first := evidence[es[0]].started;
    if |es| == 1 then first
    else
      assert forall i :: 0 <= i < |es[1..]| ==> es[1..][i] == es[i + 1];
      var rest := Earliest(evidence, es[1..]);
      if first <= rest then first else rest
  }

  function Latest(evidence: map<Evidence, Interval>, es: seq<Evidence>): (t: int)
    requires AllPresent(evidence, es) && es != []
    ensures forall i :: 0 <= i < |es| ==> t >= evidence[es[i]].finished
    ensures exists i :: 0 <= i < |es| && t == evidence[es[i]].finished
  {
    var first := evidence[es[0]].finished;
    if |es| == 1 then first
    else
      assert forall i :: 0 <= i < |es[1..]| ==> es[1..][i] == es[i + 1];
      var rest := Latest(evidence, es[1..]);
      if first >= rest then first else rest
  }

  /** The outcome of a required check in a state. */
  function Outcome(c: Configuration, s: State, id: CheckId): Status {
    match id
    case EvidenceCheck(e) =>
      if c.directory != Present || c.document(e).None? then Unverified
      else if Reads(id) <= s.keys && c.holds(id) && Timely(c, s.released, c.document(e).value) then Passed
      else Failed(OtherCause)
    case EvidenceWindow =>
      var es := RequiredEvidence(c.scope);
      if s.evidence == map[] || !AllPresent(s.evidence, es) then Failed(OtherCause)
      else if Latest(s.evidence, es) - Earliest(s.evidence, es) > MAXIMUM_AGE then Failed(WindowTooWide)
      else Passed
    case PromotionPreconditions =>
      if Reads(id) <= s.keys && c.holds(id) && ReleaseTimely(c) then Passed else Failed(OtherCause)
    case _ => if Reads(id) <= s.keys && c.holds(id) then Passed else Failed(OtherCause)
  }

  /** What a check leaves in the state: nothing unless it passes. */
  function Written(c: Configuration, s: State, id: CheckId): State {
    if Outcome(c, s, id) != Passed then s
    else
      match id
      case EvidenceCheck(e) => s.(evidence := s.evidence[e := c.document(e).value])
      case EvidenceWindow =>
        var es := RequiredEvidence(c.scope);
        s.(window := Some(Interval(Earliest(s.evidence, es), Latest(s.evidence, es))))
      case PromotionPreconditions => s.(keys := s.keys + Writes(id), released := c.releasedAt)
      case _ => s.(keys := s.keys + Writes(id))
  }

  /** One entry of the evaluation: run the check if the scope requires its domain, else skip it. */
  function Stepped(c: Configuration, s: State, id: CheckId): State {
    if Requires(c.scope, DomainOf(id)) then
      Written(c, s, id).(checks := s.checks + [Check(id, true, Outcome(c, s, id))])
    else s.(checks := s.checks + [Check(id, false, Unverified)])
  }

  function Program(): seq<CheckId> {
    SOURCE_CHECKS + [PromotionPreconditions, ReleasePreconditions] +
    seq(8, i requires 0 <= i < 8 => EvidenceCheck(EXTERNAL_DOMAINS[i])) + [EvidenceWindow]
  }

  function RunOf(c: Configuration, ids: seq<CheckId>): State {
    if ids == [] then START else Stepped(c, RunOf(c, ids[..|ids| - 1]), ids[|ids| - 1])
  }

  // ---------------------------------------------------------------- prerequisites

  /** The checks that passed. */
  function Passes(checks: seq<Check>): set<CheckId> {
    if checks == [] then {}
    else
      var last := checks[|checks| - 1];
      Passes(checks[..|checks| - 1]) + if last.status == Passed then {last.id} else {}
  }

  lemma {:induction false} PassesMeans(checks: seq<Check>, id: CheckId)
    ensures id in Passes(checks) <==> exists i :: 0 <= i < |checks| && checks[i].id == id && checks[i].status == Passed
  {
    if checks != [] {
      var n := |checks| - 1;
      PassesMeans(checks[..n], id);
      if i :| 0 <= i < |checks| && checks[i].id == id && checks[i].status == Passed { assert i < n ==> checks[..n][i] == checks[i]; }
      if i :| 0 <= i < n && checks[..n][i].id == id && checks[..n][i].status == Passed { assert checks[i] == checks[..n][i]; }
    }
  }

  /** A key is present exactly when its writer passed. */
  ghost predicate KeysWritten(keys: set<Key>, passed: set<CheckId>) {
    forall k :: k in keys <==> Writer(k) in passed
  }

  /** A check that passed found all it reads. */
  ghost predicate ReadsFound(keys: set<Key>, passed: set<CheckId>) {
    forall id :: id in passed ==> Reads(id) <= keys
  }

  ghost predicate EvidenceKept(c: Configuration, s: State, passed: set<CheckId>) {
    && (forall e :: e in s.evidence <==> EvidenceCheck(e) in passed)
    && (s.window.Some? <==> EvidenceWindow in passed)
    && (s.window.Some? ==> AllPresent(s.evidence, RequiredEvidence(c.scope)))
  }

  ghost predicate Consistent(c: Configuration, s: State) {
    var passed := Passes(s.checks);
    KeysWritten(s.keys, passed) && ReadsFound(s.keys, passed) && EvidenceKept(c, s, passed)
  }

  /** Times: the recorded release is recent, and every accepted interval lies between it and now. */
  ghost predicate Bounded(c: Configuration, s: State) {
    && (ContractReleasedAt in s.keys ==> s.released == c.releasedAt && ReleaseTimely(c))
    && (forall e :: e in s.evidence ==>
          ContractReleasedAt in s.keys && s.released <= s.evidence[e].started && s.evidence[e].finished <= c.now)
    && (forall i :: 0 <= i < |s.checks| ==> s.checks[i].status != Failed(WindowTooWide))
  }

  lemma KeysKept(keys: set<Key>, passed: set<CheckId>, id: CheckId)
    requires KeysWritten(keys, passed)
    ensures KeysWritten(keys + Writes(id), passed + {id})
  {
    forall k ensures k in keys + Writes(id) <==> Writer(k) in passed + {id} { WriterUnique(k, id); }
  }

  lemma ReadsKept(keys: set<Key>, passed: set<CheckId>, id: CheckId, more: set<Key>)
    requires ReadsFound(keys, passed) && Reads(id) <= keys
    ensures ReadsFound(keys + more, passed + {id})
  {}

  predicate Ran(c: Configuration, s: State, id: CheckId) {
    Requires(c.scope, DomainOf(id)) && Outcome(c, s, id) == Passed
  }

  lemma StepShape(c: Configuration, s: State, id: CheckId)
    ensures var t := Stepped(c, s, id);
            && Passes(t.checks) == Passes(s.checks) + (if Ran(c, s, id) then {id} else {})
            && t.keys == s.keys + (if Ran(c, s, id) then Writes(id) else {})
            && (Ran(c, s, id) ==> Reads(id) <= s.keys)
            && (!Ran(c, s, id) ==> t.evidence == s.evidence && t.window == s.window)
  {
    var t := Stepped(c, s, id);
    assert t.checks[..|s.checks|] == s.checks;
  }

  lemma EvidenceStep(c: Configuration, s: State, id: CheckId)
    requires EvidenceKept(c, s, Passes(s.checks)) && Ran(c, s, id)
    ensures EvidenceKept(c, Stepped(c, s, id), Passes(s.checks) + {id})
  {
    var t := Stepped(c, s, id);
    if !id.EvidenceCheck? && !id.EvidenceWindow? { assert t.evidence == s.evidence && t.window == s.window; }
  }

  lemma ConsistentKept(c: Configuration, s: State, id: CheckId)
    requires Consistent(c, s)
    ensures Consistent(c, Stepped(c, s, id))
  {
    var passed := Passes(s.checks);
    StepShape(c, s, id);
    if Ran(c, s, id) {
      KeysKept(s.keys, passed, id);
      ReadsKept(s.keys, passed, id, Writes(id));
      EvidenceStep(c, s, id);
    } else {
      assert passed + {} == passed && s.keys + {} == s.keys;
    }
  }

  lemma WindowFits(c: Configuration, s: State)
    requires Bounded(c, s) && AllPresent(s.evidence, RequiredEvidence(c.scope))
    ensures Latest(s.evidence, RequiredEvidence(c.scope)) - Earliest(s.evidence, RequiredEvidence(c.scope)) <= MAXIMUM_AGE
  {}

  lemma NewCheckFits(c: Configuration, s: State, id: CheckId)
    requires Bounded(c, s)
    ensures Outcome(c, s, id) != Failed(WindowTooWide)
  {
    if id == EvidenceWindow && AllPresent(s.evidence, RequiredEvidence(c.scope)) { WindowFits(c, s); }
  }

  lemma ChecksBounded(c: Configuration, s: State, id: CheckId)
    requires Bounded(c, s)
    ensures forall i :: 0 <= i <= |s.checks| ==> Stepped(c, s, id).checks[i].status != Failed(WindowTooWide)
  {
    NewCheckFits(c, s, id);
    var t := Stepped(c, s, id);
    forall i | 0 <= i <= |s.checks| ensures t.checks[i].status != Failed(WindowTooWide) {
      if i < |s.checks| { assert t.checks[i] == s.checks[i]; }
    }
  }

  lemma BoundedKept(c: Configuration, s: State, id: CheckId)
    requires Bounded(c, s)
    ensures Bounded(c, Stepped(c, s, id))
  {
    ChecksBounded(c, s, id);
    StepShape(c, s, id);
    var t := Stepped(c, s, id);
    WriterUnique(ContractReleasedAt, id);
    if id.EvidenceCheck? && Ran(c, s, id) {
      assert t.evidence == s.evidence[id.evidence := c.document(id.evidence).value];
    } else {
      assert t.evidence == s.evidence;
    }
  }

  /** At every point of every evaluation. */
  lemma {:induction false} RunConsistent(c: Configuration, ids: seq<CheckId>)
    ensures Consistent(c, RunOf(c, ids)) && Bounded(c, RunOf(c, ids))
  {
    if ids != [] {
      var before := RunOf(c, ids[..|ids| - 1]);
      RunConsistent(c, ids[..|ids| - 1]);
      ConsistentKept(c, before, ids[|ids| - 1]);
      BoundedKept(c, before, ids[|ids| - 1]);
    }
  }

  lemma ReadPassed(keys: set<Key>, passed: set<CheckId>, id: CheckId, k: Key)
    requires KeysWritten(keys, passed) && ReadsFound(keys, passed) && id in passed && k in Reads(id)
    ensures Writer(k) in passed
  {
    assert k in keys;
  }

  lemma Closure(keys: set<Key>, passed: set<CheckId>, e: Evidence)
    requires KeysWritten(keys, passed) && ReadsFound(keys, passed) && EvidenceCheck(e) in passed
    ensures PromotionPreconditions in passed && PackageVersions in passed && ContractLocks in passed
    ensures ContractBundle in passed && CoreContract in passed && Layout in passed
  {
    ReadPassed(keys, passed, EvidenceCheck(e), ContractReleasedAt);
    ReadPassed(keys, passed, PromotionPreconditions, Versions);
    ReadPassed(keys, passed, PromotionPreconditions, CoreRelease);
    ReadPassed(keys, passed, ContractLocks, BundleSha);
    ReadPassed(keys, passed, ContractBundle, BundleName);
    ReadPassed(keys, passed, ContractBundle, Repositories);
  }

  /** Prerequisite closure: at any point, an external domain that passed rests on the promotion
      preconditions, package versions, locks, bundle, core contract and layout having passed. */
  lemma PrerequisiteClosure(c: Configuration, ids: seq<CheckId>, e: Evidence)
    requires EvidenceCheck(e) in Passes(RunOf(c, ids).checks)
    ensures {PromotionPreconditions, PackageVersions, ContractLocks, ContractBundle, CoreContract, Layout} <= Passes(RunOf(c, ids).checks)
  {
    RunConsistent(c, ids);
    Closure(RunOf(c, ids).keys, Passes(RunOf(c, ids).checks), e);
  }

  /** The window check rests on every evidence domain its scope requires. */
  lemma WindowRests(c: Configuration, ids: seq<CheckId>, i: nat)
    requires EvidenceWindow in Passes(RunOf(c, ids).checks) && i < |RequiredEvidence(c.scope)|
    ensures EvidenceCheck(RequiredEvidence(c.scope)[i]) in Passes(RunOf(c, ids).checks)
  {
    RunConsistent(c, ids);
  }

  /** The window is never too wide: no run contains that failure. */
  lemma WindowNeverTooWide(c: Configuration, ids: seq<CheckId>, i: nat)
    requires i < |RunOf(c, ids).checks|
    ensures RunOf(c, ids).checks[i].status != Failed(WindowTooWide)
  {
    RunConsistent(c, ids);
  }
}
