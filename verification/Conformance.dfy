/** Framework conformance reports: an accepted report accounts for every canonical case exactly once,
    and the aggregate covers every registered integration exactly once. */
module Conformance {
  import opened Options

  datatype Area = Auth | Req | Beh | Sec | Other(number: nat)
  datatype CaseId = Case(area: Area, number: nat)

  datatype Policy = Forbidden | EvidenceRequired
  datatype Support = Supported | Experimental | Unsupported
  datatype Claim = Yes | No | Conditional
  datatype Ecosystem = Android | Apple | JavaScript | ReactNative
  datatype Id = ReactNativeFetch | Named(number: nat)
  datatype Capability = Responses | ChatCompletions | Embeddings | Streaming | Cancellation | Tools | StructuredOutput

  function CaseOf(c: Capability): CaseId {
    match c
    case Responses => Case(Req, 1)
    case ChatCompletions => Case(Req, 2)
    case Embeddings => Case(Req, 3)
    case Streaming => Case(Req, 5)
    case Cancellation => Case(Req, 6)
    case Tools => Case(Beh, 1)
    case StructuredOutput => Case(Beh, 2)
  }

  function CommonCases(c: Capability): set<CaseId> {
    match c
    case Cancellation => {Case(Req, 105)}
    case Streaming => {Case(Req, 108), Case(Req, 109)}
    case Tools => {Case(Beh, 101)}
    case StructuredOutput => {Case(Beh, 102)}
    case _ => {}
  }

  const NATIVE_CASE := Case(Sec, 105)
  const FETCH_CASE := Case(Sec, 106)

  // ---------------------------------------------------------------- the manifest

  /** A manifest row, and whether its fields have the right shape. */
  datatype CaseRow = CaseRow(id: CaseId, shaped: bool)
  datatype SuiteRow = SuiteRow(id: CaseId, policy: Option<Policy>)

  /** The canonical cases, and the common ones among them with their not-applicable policy. */
  datatype Suite = Suite(cases: seq<CaseId>, policies: map<CaseId, Policy>)

  predicate NoRepeats<T(==)>(s: seq<T>) {
    forall i, j :: 0 <= i < j < |s| ==> s[i] != s[j]
  }

  ghost predicate WellFormed(s: Suite) {
    s.cases != [] && NoRepeats(s.cases) && forall c :: c in s.policies ==> c in s.cases
  }

  ghost predicate SuiteRowsOk(rows: seq<SuiteRow>) {
    && (forall i :: 0 <= i < |rows| ==> rows[i].policy.Some?)
    && (forall i, j :: 0 <= i < j < |rows| ==> rows[i].id != rows[j].id)
  }

  ghost predicate CaseRowsOk(rows: seq<CaseRow>) {
    && rows != [] && (forall i :: 0 <= i < |rows| ==> rows[i].shaped)
    && (forall i, j :: 0 <= i < j < |rows| ==> rows[i].id != rows[j].id)
  }

  /** The policies are those of the rows. */
  ghost predicate PoliciesOf(rows: seq<SuiteRow>, policies: map<CaseId, Policy>) {
    && (forall c :: c in policies ==> exists i :: 0 <= i < |rows| && rows[i].id == c)
    && (forall i :: 0 <= i < |rows| ==> rows[i].id in policies && Some(policies[rows[i].id]) == rows[i].policy)
  }

  method LoadPolicies(rows: seq<SuiteRow>) returns (policies: Option<map<CaseId, Policy>>)
    ensures policies.Some? <==> SuiteRowsOk(rows)
    ensures policies.Some? ==> PoliciesOf(rows, policies.value)
  {
    var found: map<CaseId, Policy> := map[];
    for i := 0 to |rows|
      invariant forall j :: 0 <= j < i ==> rows[j].policy.Some? && rows[j].id in found && Some(found[rows[j].id]) == rows[j].policy
      invariant forall j, k :: 0 <= j < k < i ==> rows[j].id != rows[k].id
      invariant forall c :: c in found ==> exists j :: 0 <= j < i && rows[j].id == c
    {
      if rows[i].id in found || rows[i].policy.None? { return None; }
      found := found[rows[i].id := rows[i].policy.value];
    }
    policies := Some(found);
  }

  method LoadCases(rows: seq<CaseRow>) returns (cases: Option<seq<CaseId>>)
    ensures cases.Some? <==> CaseRowsOk(rows)
    ensures cases.Some? ==> NoRepeats(cases.value) && |cases.value| == |rows| && forall i :: 0 <= i < |rows| ==> cases.value[i] == rows[i].id
  {
    if rows == [] { return None; }
    var found: seq<CaseId> := [];
    for i := 0 to |rows|
      invariant |found| == i && forall j :: 0 <= j < i ==> found[j] == rows[j].id && rows[j].shaped
      invariant NoRepeats(found)
    {
      if rows[i].id in found || !rows[i].shaped { return None; }
      found := found + [rows[i].id];
    }
    cases := Some(found);
  }

  /** `load_manifest`: distinct cases, distinct suite rows with a known policy, every suite row a case. */
  method LoadManifest(rows: seq<CaseRow>, suiteRows: seq<SuiteRow>) returns (suite: Option<Suite>)
    ensures suite.Some? <==>
              && CaseRowsOk(rows) && SuiteRowsOk(suiteRows)
              && (forall i :: 0 <= i < |suiteRows| ==> exists j :: 0 <= j < |rows| && rows[j].id == suiteRows[i].id)
    ensures suite.Some? ==> WellFormed(suite.value) && |suite.value.cases| == |rows| && PoliciesOf(suiteRows, suite.value.policies)
    ensures suite.Some? ==> forall i :: 0 <= i < |rows| ==> suite.value.cases[i] == rows[i].id
  {
    var policies := LoadPolicies(suiteRows);
    if policies.None? { return None; }
    var cases := LoadCases(rows);
    if cases.None? { return None; }
    if c :| c in policies.value && c !in cases.value {
      var i :| 0 <= i < |suiteRows| && suiteRows[i].id == c;
      assert forall j :: 0 <= j < |rows| ==> rows[j].id in cases.value;
      return None;
    }
    forall i | 0 <= i < |suiteRows| ensures exists j :: 0 <= j < |rows| && rows[j].id == suiteRows[i].id {
      assert suiteRows[i].id in cases.value;
      var j :| 0 <= j < |cases.value| && cases.value[j] == suiteRows[i].id;
      assert rows[j].id == suiteRows[i].id;
    }
    suite := Some(Suite(cases.value, policies.value));
  }

  // ---------------------------------------------------------------- one integration

  /** A group of cases with a reason; `sound` covers the reason, the blocker and the evidence references. */
  datatype Group = Group(cases: seq<CaseId>, evidenced: bool, sound: bool)

  /** `passed` lists the keys of an object, so they are distinct. `sound` covers every other field. */
  datatype Item = Item(id: Id, support: Support, passed: seq<CaseId>, excused: seq<Group>, pending: seq<Group>, sound: bool)

  datatype Row = Row(support: Support, ecosystem: Ecosystem, claims: map<Capability, Claim>)

  function ClaimOf(row: Row, c: Capability): Claim {
    if c in row.claims then row.claims[c] else No
  }

  function Listed(groups: seq<Group>): seq<CaseId> {
    if groups == [] then [] else Listed(groups[..|groups| - 1]) + groups[|groups| - 1].cases
  }

  function Observed(item: Item): seq<CaseId> {
    item.passed + Listed(item.excused) + Listed(item.pending)
  }

  predicate GroupsSound(groups: seq<Group>) {
    forall i :: 0 <= i < |groups| ==> groups[i].cases != [] && groups[i].sound
  }

  /** A group may excuse its cases: none is forbidden, and evidence is there where required. */
  predicate Excusable(s: Suite, g: Group) {
    forall i :: 0 <= i < |g.cases| && g.cases[i] in s.policies ==> s.policies[g.cases[i]] == EvidenceRequired && g.evidenced
  }

  /** Whether a case is excused with evidence. */
  predicate EvidenceFor(groups: seq<Group>, c: CaseId) {
    if groups == [] then false
    else
      var last := groups[|groups| - 1];
      if c in last.cases then last.evidenced else EvidenceFor(groups[..|groups| - 1], c)
  }

  ghost predicate CommonClaimsHold(s: Suite, item: Item, row: Row) {
    s.policies != map[] ==>
      && (forall c :: ClaimOf(row, c) == Yes ==> CommonCases(c) !! SetOf(Listed(item.excused)))
      && (row.ecosystem != JavaScript ==> NATIVE_CASE !in Listed(item.excused))
      && (item.id == ReactNativeFetch ==> FETCH_CASE !in Listed(item.excused))
  }

  /** A claimed capability's case passes; a conditional claim may be excused with evidence. */
  predicate ClaimHolds(s: Suite, item: Item, row: Row, c: Capability) {
    CaseOf(c) in s.cases ==>
      && (ClaimOf(row, c) == Yes ==> CaseOf(c) in item.passed)
      && (ClaimOf(row, c) == Conditional ==> CaseOf(c) in item.passed || EvidenceFor(item.excused, CaseOf(c)))
  }

  ghost predicate ClaimsHold(s: Suite, item: Item, row: Row) {
    forall c :: ClaimHolds(s, item, row, c)
  }

  function SetOf<T>(s: seq<T>): set<T> {
    set x | x in s
  }

  ghost predicate PendingAllowed(s: Suite, item: Item) {
    && (forall c :: c in Listed(item.pending) ==> c in s.policies)
    && (item.support == Supported ==> Listed(item.pending) == [])
  }

  /** What an accepted integration satisfies, and all it has to. */
  ghost predicate Accepted(s: Suite, item: Item, row: Row) {
    && item.sound && item.support == row.support
    && NoRepeats(Observed(item)) && (forall c :: c in Observed(item) <==> c in s.cases)
    && GroupsSound(item.excused) && (forall i :: 0 <= i < |item.excused| ==> Excusable(s, item.excused[i]))
    && GroupsSound(item.pending) && PendingAllowed(s, item)
    && CommonClaimsHold(s, item, row) && ClaimsHold(s, item, row)
  }

  // ---------------------------------------------------------------- what acceptance means

  lemma Occurs<T>(s: seq<T>, x: T) returns (i: nat)
    requires x in s
    ensures i < |s| && s[i] == x
  {
    i :| 0 <= i < |s| && s[i] == x;
  }

  /** Partition: every canonical case is in exactly one of pass, not applicable and pending, once. */
  lemma Partition(s: Suite, item: Item, row: Row, c: CaseId)
    requires Accepted(s, item, row)
    ensures c in s.cases <==> c in item.passed || c in Listed(item.excused) || c in Listed(item.pending)
    ensures !(c in item.passed && c in Listed(item.excused)) && !(c in item.passed && c in Listed(item.pending))
    ensures !(c in Listed(item.excused) && c in Listed(item.pending))
    ensures NoRepeats(item.passed) && NoRepeats(Listed(item.excused)) && NoRepeats(Listed(item.pending))
  {
    var p, e, q := item.passed, Listed(item.excused), Listed(item.pending);
    var all := Observed(item);
    assert forall i :: 0 <= i < |p| ==> all[i] == p[i];
    assert forall i :: 0 <= i < |e| ==> all[|p| + i] == e[i];
    assert forall i :: 0 <= i < |q| ==> all[|p| + |e| + i] == q[i];
    if c in p && c in e { var i := Occurs(p, c); var j := Occurs(e, c); }
    if c in p && c in q { var i := Occurs(p, c); var j := Occurs(q, c); }
    if c in e && c in q { var i := Occurs(e, c); var j := Occurs(q, c); }
  }

  /** Every accepted supported integration that claims `c` passes `id`. */
  ghost predicate ClaimEnsures(s: Suite, c: Capability, id: CaseId) {
    forall item, row :: Accepted(s, item, row) && item.support == Supported && ClaimOf(row, c) == Yes ==> id in item.passed
  }

  lemma ClaimedCasePasses(s: Suite, item: Item, row: Row, c: Capability, id: CaseId)
    requires Accepted(s, item, row) && item.support == Supported && ClaimOf(row, c) == Yes
    requires id in CommonCases(c) && id in s.cases && s.policies != map[]
    ensures id in item.passed
  {
    Partition(s, item, row, id);
    assert id !in SetOf(Listed(item.excused));
  }

  /** The integration that passes every case, and claims `c` alone. */
  function PassesAll(s: Suite): Item { Item(Named(0), Supported, s.cases, [], [], true) }

  function ClaimsOnly(c: Capability): Row { Row(Supported, JavaScript, map[c := Yes]) }

  lemma PassesAllAccepted(s: Suite, c: Capability)
    requires WellFormed(s)
    ensures Accepted(s, PassesAll(s), ClaimsOnly(c))
  {
    assert Observed(PassesAll(s)) == s.cases;
  }

  /** The integration that passes every case but number `k`, which it excuses. */
  function ExcusesOne(s: Suite, k: nat): Item
    requires k < |s.cases|
  {
    Item(Named(0), Supported, s.cases[..k] + s.cases[k + 1..], [Group([s.cases[k]], true, true)], [], true)
  }

  lemma ExcusesOneAccepted(s: Suite, c: Capability, k: nat)
    requires WellFormed(s) && s.policies == map[] && k < |s.cases|
    requires forall c' :: CaseOf(c') != s.cases[k]
    ensures Accepted(s, ExcusesOne(s, k), ClaimsOnly(c)) && s.cases[k] !in ExcusesOne(s, k).passed
  {
    var item := ExcusesOne(s, k);
    var all, cases := Observed(item), s.cases;
    assert Listed(item.excused) == [cases[k]] by { assert item.excused[..0] == []; }
    assert all == cases[..k] + cases[k + 1..] + [cases[k]];
    forall x ensures x in all <==> x in cases {
      if x in cases {
        var i := Occurs(cases, x);
        assert i < k ==> all[i] == x;
        assert i > k ==> all[i - 1] == x;
        assert i == k ==> all[|all| - 1] == x;
      }
    }
    forall c' ensures ClaimHolds(s, item, ClaimsOnly(c), c') {
      if CaseOf(c') in cases {
        assert CaseOf(c') in all;
      }
    }
  }

  /** A claim ensures that a common case passes exactly when the case is canonical and the manifest has
      a common suite. */
  lemma ClaimedCasesPass(s: Suite, c: Capability, id: CaseId)
    requires WellFormed(s) && id in CommonCases(c)
    ensures ClaimEnsures(s, c, id) <==> id in s.cases && s.policies != map[]
  {
    if id !in s.cases {
      PassesAllAccepted(s, c);
    } else if s.policies == map[] {
      var k := Occurs(s.cases, id);
      ExcusesOneAccepted(s, c, k);
    } else {
      forall item, row | Accepted(s, item, row) && item.support == Supported && ClaimOf(row, c) == Yes ensures id in item.passed {
        ClaimedCasePasses(s, item, row, c, id);
      }
    }
  }

  /** A supported integration can claim cancellation without passing its common case, if the manifest
      does not list that case. */
  lemma ClaimWithoutCase()
    ensures var s := Suite([Case(Auth, 1)], map[Case(Auth, 1) := EvidenceRequired]);
            var item := Item(Named(0), Supported, [Case(Auth, 1)], [], [], true);
            var row := Row(Supported, JavaScript, map[Cancellation := Yes]);
            && WellFormed(s) && Accepted(s, item, row) && ClaimOf(row, Cancellation) == Yes
            && Case(Req, 105) in CommonCases(Cancellation) && Case(Req, 105) !in item.passed
  {
    var s := Suite([Case(Auth, 1)], map[Case(Auth, 1) := EvidenceRequired]);
    var item := Item(Named(0), Supported, [Case(Auth, 1)], [], [], true);
    assert Listed([]) == [];
    assert Observed(item) == [Case(Auth, 1)];
    forall c ensures CaseOf(c) !in s.cases {}
  }

  /** So can it without a common suite: the case may then be excused. */
  lemma ClaimWithoutSuite()
    ensures var s := Suite([Case(Req, 6), Case(Req, 105)], map[]);
            var item := Item(Named(0), Supported, [Case(Req, 6)], [Group([Case(Req, 105)], true, true)], [], true);
            var row := Row(Supported, JavaScript, map[Cancellation := Yes]);
            && WellFormed(s) && Accepted(s, item, row) && ClaimOf(row, Cancellation) == Yes
            && Case(Req, 105) in CommonCases(Cancellation) && Case(Req, 105) in s.cases && Case(Req, 105) !in item.passed
  {
    var s := Suite([Case(Req, 6), Case(Req, 105)], map[]);
    ExcusesOneAccepted(s, Cancellation, 1);
    assert s.cases[..1] + s.cases[2..] == [Case(Req, 6)];
  }

  /** A common case that may not be excused is passed or still pending; if supported, passed. */
  lemma ForbiddenIsPassed(s: Suite, item: Item, row: Row, c: CaseId)
    requires Accepted(s, item, row) && c in s.policies && s.policies[c] == Forbidden && c in s.cases
    ensures c in item.passed || (c in Listed(item.pending) && item.support != Supported)
  {
    Partition(s, item, row, c);
    if c in Listed(item.excused) {
      var g := ListedIn(item.excused, c);
    }
  }

  lemma {:induction false} ListedIn(groups: seq<Group>, c: CaseId) returns (g: nat)
    requires c in Listed(groups)
    ensures g < |groups| && c in groups[g].cases
  {
    var n := |groups| - 1;
    if c in groups[n].cases { g := n; } else { g := ListedIn(groups[..n], c); }
  }

  // ---------------------------------------------------------------- checking one integration

  /** The cases of one group, recorded with the group's evidence. */
  method ExcuseGroup(s: Suite, g: Group, evidence: map<CaseId, bool>) returns (ok: bool, recorded: map<CaseId, bool>)
    ensures ok <==> Excusable(s, g)
    ensures ok ==> forall c :: c in recorded <==> c in evidence || c in g.cases
    ensures ok ==> forall c :: c in recorded ==> recorded[c] == if c in g.cases then g.evidenced else evidence[c]
  {
    recorded := evidence;
    for i := 0 to |g.cases|
      invariant forall j :: 0 <= j < i && g.cases[j] in s.policies ==> s.policies[g.cases[j]] == EvidenceRequired && g.evidenced
      invariant forall c :: c in recorded <==> c in evidence || c in g.cases[..i]
      invariant forall c :: c in recorded ==> recorded[c] == if c in g.cases[..i] then g.evidenced else evidence[c]
    {
      var c := g.cases[i];
      if c in s.policies && (s.policies[c] == Forbidden || !g.evidenced) { return false, recorded; }
      recorded := recorded[c := g.evidenced];
    }
    assert g.cases[..|g.cases|] == g.cases;
    ok := true;
  }

  ghost predicate Records(evidence: map<CaseId, bool>, groups: seq<Group>) {
    && (forall c :: c in evidence <==> c in Listed(groups))
    && (forall c :: c in evidence ==> evidence[c] == EvidenceFor(groups, c))
  }

  lemma RecordsGrow(before: map<CaseId, bool>, after: map<CaseId, bool>, groups: seq<Group>, i: nat)
    requires i < |groups| && Records(before, groups[..i])
    requires forall c :: c in after <==> c in before || c in groups[i].cases
    requires forall c :: c in after ==> after[c] == if c in groups[i].cases then groups[i].evidenced else before[c]
    ensures Records(after, groups[..i + 1])
  {
    assert groups[..i + 1][..i] == groups[..i];
  }

  method CollectExcused(s: Suite, groups: seq<Group>) returns (ok: bool, observed: seq<CaseId>, evidence: map<CaseId, bool>)
    ensures ok <==> GroupsSound(groups) && forall i :: 0 <= i < |groups| ==> Excusable(s, groups[i])
    ensures ok ==> observed == Listed(groups) && Records(evidence, groups)
  {
    observed, evidence := [], map[];
    for i := 0 to |groups|
      invariant GroupsSound(groups[..i]) && forall j :: 0 <= j < i ==> Excusable(s, groups[j])
      invariant observed == Listed(groups[..i]) && Records(evidence, groups[..i])
    {
      if groups[i].cases == [] || !groups[i].sound { return false, observed, evidence; }
      var recorded;
      ok, recorded := ExcuseGroup(s, groups[i], evidence);
      if !ok { return; }
      RecordsGrow(evidence, recorded, groups, i);
      assert groups[..i + 1][..i] == groups[..i];
      observed, evidence := observed + groups[i].cases, recorded;
    }
    assert groups[..|groups|] == groups;
    ok := true;
  }

  method CollectPending(groups: seq<Group>) returns (ok: bool, observed: seq<CaseId>)
    ensures ok <==> GroupsSound(groups)
    ensures ok ==> observed == Listed(groups)
  {
    observed := [];
    for i := 0 to |groups|
      invariant GroupsSound(groups[..i]) && observed == Listed(groups[..i])
    {
      if groups[i].cases == [] || !groups[i].sound { return false, observed; }
      assert groups[..i + 1][..i] == groups[..i];
      observed := observed + groups[i].cases;
    }
    assert groups[..|groups|] == groups;
    ok := true;
  }

  const CAPABILITIES: seq<Capability> := [Responses, ChatCompletions, Embeddings, Streaming, Cancellation, Tools, StructuredOutput]

  lemma AllCapabilities(c: Capability)
    ensures c in CAPABILITIES
  {
    var i := match c
      case Responses => 0
      case ChatCompletions => 1
      case Embeddings => 2
      case Streaming => 3
      case Cancellation => 4
      case Tools => 5
      case StructuredOutput => 6;
    assert CAPABILITIES[i] == c;
  }

  method CheckCommonClaims(s: Suite, item: Item, row: Row, evidence: map<CaseId, bool>) returns (ok: bool)
    requires Records(evidence, item.excused)
    ensures ok <==> CommonClaimsHold(s, item, row)
  {
    if s.policies == map[] { return true; }
    for i := 0 to |CAPABILITIES|
      invariant forall j :: 0 <= j < i && ClaimOf(row, CAPABILITIES[j]) == Yes ==> CommonCases(CAPABILITIES[j]) !! SetOf(Listed(item.excused))
    {
      if ClaimOf(row, CAPABILITIES[i]) == Yes && exists c :: c in CommonCases(CAPABILITIES[i]) && c in evidence { return false; }
    }
    forall c | ClaimOf(row, c) == Yes ensures CommonCases(c) !! SetOf(Listed(item.excused)) { AllCapabilities(c); }
    ok := !(row.ecosystem != JavaScript && NATIVE_CASE in evidence) && !(item.id == ReactNativeFetch && FETCH_CASE in evidence);
  }

  lemma {:induction false} EvidenceListed(groups: seq<Group>, c: CaseId)
    requires EvidenceFor(groups, c)
    ensures c in Listed(groups)
  {
    if c !in groups[|groups| - 1].cases { EvidenceListed(groups[..|groups| - 1], c); }
  }

  method CheckClaims(s: Suite, item: Item, row: Row, evidence: map<CaseId, bool>) returns (ok: bool)
    requires Records(evidence, item.excused)
    ensures ok <==> ClaimsHold(s, item, row)
  {
    for i := 0 to |CAPABILITIES|
      invariant forall j :: 0 <= j < i ==> ClaimHolds(s, item, row, CAPABILITIES[j])
    {
      var c := CAPABILITIES[i];
      var id := CaseOf(c);
      if EvidenceFor(item.excused, id) { EvidenceListed(item.excused, id); }
      if id in s.cases && id !in item.passed {
        if ClaimOf(row, c) == Yes || (ClaimOf(row, c) == Conditional && !(id in evidence && evidence[id])) {
          assert !ClaimHolds(s, item, row, c);
          return false;
        }
      }
    }
    forall c ensures ClaimHolds(s, item, row, c) { AllCapabilities(c); }
    ok := true;
  }

  /** One integration of `validate_report`. */
  method CheckItem(s: Suite, item: Item, row: Row) returns (ok: bool)
    ensures ok <==> Accepted(s, item, row)
  {
    if !item.sound || item.support != row.support { return false; }
    var excused, evidence, pending;
    ok, excused, evidence := CollectExcused(s, item.excused);
    if !ok { return; }
    ok, pending := CollectPending(item.pending);
    if !ok { return; }
    if exists i :: 0 <= i < |pending| && pending[i] !in s.policies { return false; }
    if item.support == Supported && pending != [] { return false; }
    var observed := item.passed + excused + pending;
    if !NoRepeats(observed) || SetOf(observed) != SetOf(s.cases) {
      if forall c :: c in Observed(item) <==> c in s.cases { assert SetOf(observed) == SetOf(s.cases); }
      return false;
    }
    forall c ensures c in Observed(item) <==> c in s.cases { assert c in SetOf(observed) <==> c in SetOf(s.cases); }
    ok := CheckCommonClaims(s, item, row, evidence);
    if !ok { return; }
    ok := CheckClaims(s, item, row, evidence);
  }

  // ---------------------------------------------------------------- reports and the aggregate

  datatype Repository = Of(ecosystem: Ecosystem) | Elsewhere

  /** A report; `sound` covers its schema version, manifest digest and field shapes. */
  datatype Report = Report(repository: Repository, items: seq<Item>, sound: bool)

  type Registry = map<Id, Row>

  ghost predicate ItemAccepted(s: Suite, repository: Repository, registry: Registry, item: Item) {
    item.id in registry && Of(registry[item.id].ecosystem) == repository && Accepted(s, item, registry[item.id])
  }

  ghost predicate ReportAccepted(s: Suite, r: Report, registry: Registry) {
    && r.sound && r.items != []
    && (forall i, j :: 0 <= i < j < |r.items| ==> r.items[i].id != r.items[j].id)
    && (forall i :: 0 <= i < |r.items| ==> ItemAccepted(s, r.repository, registry, r.items[i]))
  }

  function Ids(items: seq<Item>): set<Id> {
    set i | 0 <= i < |items| :: items[i].id
  }

  /** `validate_report`: the integrations it reports on, if every one is accepted. */
  method ValidateReport(s: Suite, r: Report, registry: Registry) returns (seen: Option<set<Id>>)
    ensures seen.Some? <==> ReportAccepted(s, r, registry)
    ensures seen.Some? ==> seen.value == Ids(r.items)
  {
    if !r.sound || r.items == [] { return None; }
    var found: set<Id> := {};
    for i := 0 to |r.items|
      invariant forall j, k :: 0 <= j < k < i ==> r.items[j].id != r.items[k].id
      invariant forall j :: 0 <= j < i ==> ItemAccepted(s, r.repository, registry, r.items[j])
      invariant found == Ids(r.items[..i])
    {
      var item := r.items[i];
      assert r.items[..i + 1] == r.items[..i] + [item];
      IdsGrow(r.items, i);
      if item.id in found { return None; }
      if item.id !in registry || Of(registry[item.id].ecosystem) != r.repository { return None; }
      var ok := CheckItem(s, item, registry[item.id]);
      if !ok { return None; }
      found := found + {item.id};
    }
    assert r.items[..|r.items|] == r.items;
    seen := Some(found);
  }

  lemma IdsGrow(items: seq<Item>, i: nat)
    requires i < |items|
    ensures Ids(items[..i + 1]) == Ids(items[..i]) + {items[i].id}
    ensures items[i].id in Ids(items[..i]) ==> exists j :: 0 <= j < i && items[j].id == items[i].id
  {
    var more := items[..i + 1];
    assert forall j :: 0 <= j < i ==> more[j] == items[..i][j];
    assert more[i] == items[i];
    forall x | x in Ids(more) ensures x in Ids(items[..i]) + {items[i].id} {
      var j :| 0 <= j < |more| && more[j].id == x;
      if j < i { assert items[..i][j].id == x; }
    }
    forall x | x in Ids(items[..i]) ensures x in Ids(more) {
      var j :| 0 <= j < i && items[..i][j].id == x;
      assert more[j].id == x;
    }
    assert items[i].id in Ids(more);
  }

  function Owned(registry: Registry, repository: Repository): set<Id> {
    set id | id in registry && Of(registry[id].ecosystem) == repository
  }

  function OwnerOf(registry: Registry): set<Repository> {
    set id | id in registry :: Of(registry[id].ecosystem)
  }

  ghost predicate Distinct(reports: seq<Report>) {
    forall i, j :: 0 <= i < j < |reports| ==> reports[i].repository != reports[j].repository
  }

  /** What each repository reported. */
  ghost predicate Reported(reported: map<Repository, set<Id>>, reports: seq<Report>) {
    && (forall p :: p in reported <==> exists i :: 0 <= i < |reports| && reports[i].repository == p)
    && (forall i :: 0 <= i < |reports| ==> reports[i].repository in reported && reported[reports[i].repository] == Ids(reports[i].items))
  }

  function Required(registry: Registry, aggregate: bool, named: set<Repository>): set<Repository> {
    if aggregate then OwnerOf(registry) else named
  }

  /** The repository's report is about exactly the integrations it owns. */
  ghost predicate Covers(reports: seq<Report>, registry: Registry, p: Repository) {
    exists i :: 0 <= i < |reports| && reports[i].repository == p && Ids(reports[i].items) == Owned(registry, p)
  }

  /** One report after the other, one per repository. */
  method CollectReports(s: Suite, reports: seq<Report>, registry: Registry) returns (collected: Option<map<Repository, set<Id>>>)
    ensures collected.Some? <==> Distinct(reports) && forall i :: 0 <= i < |reports| ==> ReportAccepted(s, reports[i], registry)
    ensures collected.Some? ==> Reported(collected.value, reports)
  {
    var reported: map<Repository, set<Id>> := map[];
    for i := 0 to |reports|
      invariant forall j :: 0 <= j < i ==> ReportAccepted(s, reports[j], registry)
      invariant Distinct(reports[..i]) && Reported(reported, reports[..i])
    {
      var seen := ValidateReport(s, reports[i], registry);
      if seen.None? { return None; }
      if reports[i].repository in reported {
        NotDistinct(reported, reports, i);
        return None;
      }
      ReportedGrows(reported, reports, i);
      reported := reported[reports[i].repository := seen.value];
    }
    assert reports[..|reports|] == reports;
    collected := Some(reported);
  }

  lemma NotDistinct(reported: map<Repository, set<Id>>, reports: seq<Report>, i: nat)
    requires i < |reports| && Reported(reported, reports[..i]) && reports[i].repository in reported
    ensures !Distinct(reports)
  {
    var j :| 0 <= j < |reports[..i]| && reports[..i][j].repository == reports[i].repository;
    assert reports[j].repository == reports[i].repository;
  }

  /** `main` after loading: every report is accepted, one per repository, and each required repository
      reports exactly the integrations it owns; with `aggregate`, every owner is required. */
  method CheckAll(s: Suite, reports: seq<Report>, registry: Registry, aggregate: bool, named: set<Repository>) returns (ok: bool)
    ensures ok <==>
              && Distinct(reports) && (forall i :: 0 <= i < |reports| ==> ReportAccepted(s, reports[i], registry))
              && forall p :: p in Required(registry, aggregate, named) ==> Covers(reports, registry, p)
    ensures ok && aggregate ==> forall id :: id in registry ==> CoveredOnce(reports, id)
  {
    var collected := CollectReports(s, reports, registry);
    if collected.None? { return false; }
    var reported, required := collected.value, Required(registry, aggregate, named);
    forall p ensures (p in reported && reported[p] == Owned(registry, p)) <==> Covers(reports, registry, p) {
      CoversMeans(reports, registry, reported, p);
    }
    if p :| p in required && !(p in reported && reported[p] == Owned(registry, p)) { return false; }
    ok := true;
    if aggregate {
      forall id | id in registry ensures CoveredOnce(reports, id) { Coverage(s, reports, registry, reported, id); }
    }
  }

  lemma CoversMeans(reports: seq<Report>, registry: Registry, reported: map<Repository, set<Id>>, p: Repository)
    requires Distinct(reports) && Reported(reported, reports)
    ensures (p in reported && reported[p] == Owned(registry, p)) <==> Covers(reports, registry, p)
  {
    if p in reported { var i :| 0 <= i < |reports| && reports[i].repository == p; }
  }

  lemma ReportedGrows(reported: map<Repository, set<Id>>, reports: seq<Report>, i: nat)
    requires i < |reports| && Distinct(reports[..i]) && Reported(reported, reports[..i]) && reports[i].repository !in reported
    ensures Distinct(reports[..i + 1]) && Reported(reported[reports[i].repository := Ids(reports[i].items)], reports[..i + 1])
  {
    var before, after := reports[..i], reports[..i + 1];
    assert forall j :: 0 <= j < i ==> after[j] == before[j] && before[j].repository in reported;
    assert after[i] == reports[i];
    var more := reported[reports[i].repository := Ids(reports[i].items)];
    forall p ensures p in more <==> exists j :: 0 <= j < |after| && after[j].repository == p {
      if p in reported { var j :| 0 <= j < |before| && before[j].repository == p; assert after[j].repository == p; }
      if j :| 0 <= j < |after| && after[j].repository == p { if j < i { assert before[j].repository == p; } }
    }
  }

  /** Entry `i` of report `r` is about `id`. */
  predicate Mentions(reports: seq<Report>, r: nat, i: nat, id: Id) {
    r < |reports| && i < |reports[r].items| && reports[r].items[i].id == id
  }

  /** Exactly one entry of exactly one report is about `id`. */
  ghost predicate CoveredOnce(reports: seq<Report>, id: Id) {
    exists r: nat, i: nat :: Mentions(reports, r, i, id) && forall q: nat, j: nat :: Mentions(reports, q, j, id) ==> q == r && j == i
  }

  /** Accepted reports of distinct repositories mention an integration once. */
  lemma MentionedOnce(s: Suite, reports: seq<Report>, registry: Registry, r: nat, i: nat, q: nat, j: nat, id: Id)
    requires Distinct(reports) && Mentions(reports, r, i, id) && Mentions(reports, q, j, id)
    requires ReportAccepted(s, reports[r], registry) && ReportAccepted(s, reports[q], registry)
    ensures q == r && j == i
  {
    assert ItemAccepted(s, reports[q].repository, registry, reports[q].items[j]);
    assert ItemAccepted(s, reports[r].repository, registry, reports[r].items[i]);
  }

  lemma Coverage(s: Suite, reports: seq<Report>, registry: Registry, reported: map<Repository, set<Id>>, id: Id)
    requires id in registry && Distinct(reports) && Reported(reported, reports)
    requires forall i :: 0 <= i < |reports| ==> ReportAccepted(s, reports[i], registry)
    requires forall p :: p in OwnerOf(registry) ==> p in reported && reported[p] == Owned(registry, p)
    ensures CoveredOnce(reports, id)
  {
    var p := Of(registry[id].ecosystem);
    assert p in OwnerOf(registry) && id in Owned(registry, p);
    var r :| 0 <= r < |reports| && reports[r].repository == p;
    assert id in Ids(reports[r].items);
    var i :| 0 <= i < |reports[r].items| && reports[r].items[i].id == id;
    assert Mentions(reports, r, i, id);
    forall q: nat, j: nat | Mentions(reports, q, j, id) ensures q == r && j == i {
      MentionedOnce(s, reports, registry, r, i, q, j, id);
    }
  }
}
