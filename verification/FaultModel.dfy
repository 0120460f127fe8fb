/** The disposable Docker topology a fault run works on, the commands issued against it, and what a
    safe command history is. */
module FaultModel {
  import opened Options

  type Name = nat

  datatype Role = Api | Worker | Postgres | Driver | Fixture | LoadBalancer

  /** `signalled`: a signal was delivered and the process may still be running. */
  datatype Container = Container(id: nat, run: nat, role: Role, running: bool, signalled: bool, exitCode: int,
                                 networks: set<nat>, address: nat)

  type World = map<Name, Container>

  datatype Plan = Plan(run: nat, network: nat, roles: map<Name, Role>, names: seq<Name>, apis: seq<Name>, postgres: Name, driver: Name)
  {
    ghost predicate Valid() {
      && |apis| >= 2 && apis[0] in roles && apis[1] in roles && postgres in roles && driver in roles
      && apis[0] != postgres && apis[1] != postgres
      && (forall n :: n in roles <==> n in names)
      && (forall i, j :: 0 <= i < j < |names| ==> names[i] != names[j])
    }
  }

  datatype Signal = Kill9 | Term

  /** One Docker command and its answer; a failed command answers nothing or `ok == false`. */
  datatype Event =
    | Exists(name: Name, there: bool)
    | ReadId(name: Name, id: Option<nat>)
    | ReadRun(name: Name, run: Option<nat>)
    | ReadRole(name: Name, role: Option<Role>)
    | ReadNetworkRun(run: Option<nat>)
    | ReadNetworkId(networkId: Option<nat>)
    | Inspected
    | Signalled(name: Name, signal: Signal, ok: bool)
    | Started(name: Name, ok: bool)
    | Disconnected(name: Name, ok: bool)
    | Connected(name: Name, address: nat, ok: bool)
    | Executed(name: Name, ok: bool)
    | RemovedContainers(names: seq<Name>, ok: bool)
    | RemovedNetwork(ok: bool)

  predicate IsAction(e: Event) {
    e.Signalled? || e.Started? || e.Disconnected? || e.Connected? || e.Executed?
  }

  /** What the controller recorded when it validated the topology. */
  datatype Owned = Owned(plan: Plan, ids: map<Name, nat>, address: nat)

  function Readings(o: Owned, n: Name): seq<Event>
    requires n in o.ids && n in o.plan.roles
  {
    [Exists(n, true), ReadId(n, Some(o.ids[n])), ReadRun(n, Some(o.plan.run)), ReadRole(n, Some(o.plan.roles[n]))]
  }

  /** The last four commands found `n` with the recorded identity, run label and role label. */
  ghost predicate JustVerified(o: Owned, trace: seq<Event>, n: Name) {
    && n in o.ids && n in o.plan.roles && |trace| >= 4
    && trace[|trace| - 4..] == Readings(o, n)
  }

  /** A reading that does not show the recorded container. */
  predicate Mismatch(o: Owned, e: Event, n: Name) {
    || e == Exists(n, false)
    || (e.ReadId? && e.name == n && (n !in o.ids || e.id != Some(o.ids[n])))
    || (e.ReadRun? && e.name == n && e.run != Some(o.plan.run))
    || (e.ReadRole? && e.name == n && (n !in o.plan.roles || e.role != Some(o.plan.roles[n])))
  }

  ghost predicate VerifiedAt(o: Owned, trace: seq<Event>, k: nat, n: Name) {
    n in o.ids && n in o.plan.roles && k + 4 <= |trace| && trace[k..k + 4] == Readings(o, n)
  }

  /** Since `from`, a complete ownership check of `n` succeeded. */
  ghost predicate VerifiedSince(o: Owned, trace: seq<Event>, from: nat, n: Name) {
    exists k: nat :: from <= k && VerifiedAt(o, trace, k, n)
  }

  /** Cleanup may remove containers it has verified, and the network right after reading back its
      recorded label and identity. */
  ghost predicate MayRemove(o: Owned, network: Option<nat>, before: seq<Event>, from: nat, e: Event) {
    match e
    case RemovedContainers(names, _) => forall n :: n in names ==> VerifiedSince(o, before, from, n)
    case RemovedNetwork(_) =>
      && |before| >= 2 && network.Some?
      && before[|before| - 2] == ReadNetworkRun(Some(o.plan.run)) && before[|before| - 1] == ReadNetworkId(network)
    case _ => true
  }

  ghost predicate Tidy(o: Owned, network: Option<nat>, trace: seq<Event>, from: nat) {
    forall i {:trigger MayRemove(o, network, trace[..i], from, trace[i])} ::
      from <= i < |trace| ==> MayRemove(o, network, trace[..i], from, trace[i])
  }

  /** Every action directly follows a complete ownership check of its container. */
  ghost predicate Guarded(o: Owned, trace: seq<Event>) {
    forall i {:trigger JustVerified(o, trace[..i], trace[i].name)} ::
      0 <= i < |trace| && IsAction(trace[i]) ==> JustVerified(o, trace[..i], trace[i].name)
  }

  /** What settles a database disconnect: a reconnect to the recorded address, or a reading that does not
      show the recorded container. */
  predicate Settles(o: Owned, e: Event) {
    || (e.Connected? && e.name == o.plan.postgres && e.address == o.address)
    || Mismatch(o, e, o.plan.postgres)
  }

  ghost predicate SettledAfter(o: Owned, trace: seq<Event>, i: nat) {
    exists j :: i < j < |trace| && Settles(o, trace[j])
  }

  /** A disconnect Docker acknowledged. */
  predicate IsCut(e: Event) {
    e.Disconnected? && e.ok
  }

  ghost predicate Settled(o: Owned, trace: seq<Event>) {
    forall i {:trigger SettledAfter(o, trace, i)} :: 0 <= i < |trace| && IsCut(trace[i]) ==> SettledAfter(o, trace, i)
  }

  ghost predicate Safe(o: Owned, trace: seq<Event>) {
    Guarded(o, trace) && Settled(o, trace)
  }

  predicate Passive(more: seq<Event>) {
    forall i :: 0 <= i < |more| ==> !IsAction(more[i])
  }

  predicate OnlyReadings(more: seq<Event>) {
    forall i :: 0 <= i < |more| ==> !IsAction(more[i]) && !more[i].RemovedContainers? && !more[i].RemovedNetwork?
  }

  lemma SettledGrows(o: Owned, trace: seq<Event>, more: seq<Event>)
    requires Settled(o, trace) && forall i :: 0 <= i < |more| ==> !IsCut(more[i])
    ensures Settled(o, trace + more)
  {
    var all := trace + more;
    forall i | 0 <= i < |all| && IsCut(all[i]) ensures SettledAfter(o, all, i) {
      assert i < |trace|;
      assert SettledAfter(o, trace, i);
      var j :| i < j < |trace| && Settles(o, trace[j]);
      assert all[j] == trace[j];
    }
  }

  lemma GuardedGrows(o: Owned, trace: seq<Event>, more: seq<Event>)
    requires Guarded(o, trace) && Passive(more)
    ensures Guarded(o, trace + more)
  {
    var all := trace + more;
    forall i | 0 <= i < |all| && IsAction(all[i]) ensures JustVerified(o, all[..i], all[i].name) {
      assert i < |trace|;
      assert all[..i] == trace[..i];
    }
  }

  lemma GuardedAction(o: Owned, trace: seq<Event>, e: Event)
    requires Guarded(o, trace) && IsAction(e) && JustVerified(o, trace, e.name)
    ensures Guarded(o, trace + [e])
  {
    var all := trace + [e];
    forall i | 0 <= i < |all| && IsAction(all[i]) ensures JustVerified(o, all[..i], all[i].name) {
      if i < |trace| { assert all[..i] == trace[..i]; } else { assert all[..i] == trace; }
    }
  }

  /** A disconnect right after `a` is settled by a later reconnect or mismatch. */
  lemma SettledCut(o: Owned, a: seq<Event>, b: seq<Event>, j: nat)
    requires Settled(o, a) && a <= b && |a| < j < |b| && Settles(o, b[j])
    requires forall i :: |a| < i < |b| ==> !IsCut(b[i])
    ensures Settled(o, b)
  {
    forall i | 0 <= i < |b| && IsCut(b[i]) ensures SettledAfter(o, b, i) {
      if i < |a| {
        assert a[i] == b[i] && SettledAfter(o, a, i);
        var k :| i < k < |a| && Settles(o, a[k]);
        assert b[k] == a[k];
      } else {
        assert i == |a|;
      }
    }
  }

  // ---------------------------------------------------------------- the topology

  predicate Standing(o: Owned, w: World, n: Name) {
    && n in w && n in o.ids && n in o.plan.roles
    && w[n].id == o.ids[n] && w[n].run == o.plan.run && w[n].role == o.plan.roles[n]
  }

  /** Validated: the recorded container, running undisturbed, on the run network only. */
  predicate Up(o: Owned, w: World, n: Name) {
    && Standing(o, w, n) && w[n].running && !w[n].signalled && w[n].networks == {o.plan.network}
  }

  ghost predicate Topology(o: Owned, w: World) {
    forall n :: n in o.plan.roles ==> Up(o, w, n)
  }

  ghost predicate TopologyBut(o: Owned, w: World, x: Name) {
    forall n :: n in o.plan.roles && n != x ==> Up(o, w, n)
  }

  /** Nothing changed, except that signalled processes may have ended. */
  ghost predicate Calm(a: World, b: World) {
    && a.Keys == b.Keys
    && forall n :: n in a ==>
         && b[n].id == a[n].id && b[n].run == a[n].run && b[n].role == a[n].role
         && b[n].networks == a[n].networks && b[n].signalled == a[n].signalled
         && (b[n].running ==> a[n].running) && (a[n].running && !a[n].signalled ==> b[n].running)
  }

  /** Everything but `x` is up, and `x` is the recorded container on the run network. */
  ghost predicate Recovering(o: Owned, w: World, x: Name) {
    TopologyBut(o, w, x) && Standing(o, w, x) && w[x].networks == {o.plan.network}
  }

  /** Everything but `x` is up, and `x` is the recorded container, running but for its networks. */
  ghost predicate Reattaching(o: Owned, w: World, x: Name) {
    TopologyBut(o, w, x) && Standing(o, w, x) && w[x].running && !w[x].signalled
  }

  lemma CalmKeeps(o: Owned, a: World, b: World, x: Name)
    requires Calm(a, b)
    ensures Topology(o, a) ==> Topology(o, b)
    ensures TopologyBut(o, a, x) ==> TopologyBut(o, b, x)
    ensures Recovering(o, a, x) ==> Recovering(o, b, x)
    ensures Reattaching(o, a, x) ==> Reattaching(o, b, x)
  {}

  /** Only `x` was acted on, and it is still the same container. */
  ghost predicate CalmBut(a: World, b: World, x: Name) {
    && a.Keys == b.Keys
    && Calm(a - {x}, b - {x})
    && (x in a ==> b[x].id == a[x].id && b[x].run == a[x].run && b[x].role == a[x].role)
  }

  lemma CalmButKeeps(o: Owned, a: World, b: World, x: Name)
    requires CalmBut(a, b, x)
    ensures TopologyBut(o, a, x) ==> TopologyBut(o, b, x)
    ensures Standing(o, a, x) ==> Standing(o, b, x)
  {
    if TopologyBut(o, a, x) {
      forall n | n in o.plan.roles && n != x ensures Up(o, b, n) {
        assert Up(o, a, n);
        assert n in a - {x} && n in b - {x};
        assert (a - {x})[n] == a[n] && (b - {x})[n] == b[n];
      }
    }
  }

  lemma CalmTransitive(a: World, b: World, c: World)
    requires Calm(a, b) && Calm(b, c)
    ensures Calm(a, c)
  {}

  lemma CalmThenBut(a: World, b: World, c: World, x: Name)
    requires Calm(a, b) && c.Keys == b.Keys
    requires forall n :: n in b && n != x ==> c[n] == b[n]
    requires x in b ==> c[x].id == b[x].id && c[x].run == b[x].run && c[x].role == b[x].role
    ensures CalmBut(a, c, x)
  {
    assert Calm(a - {x}, c - {x});
  }

  lemma PassiveSafe(o: Owned, trace: seq<Event>)
    requires Passive(trace)
    ensures Safe(o, trace)
  {
    assert Guarded(o, trace);
    assert Settled(o, trace);
  }

  /** `b` continues `a` without another acknowledged disconnect. */
  ghost predicate Extends(a: seq<Event>, b: seq<Event>) {
    a <= b && forall i :: |a| <= i < |b| ==> !IsCut(b[i])
  }

  lemma ExtendsSettled(o: Owned, a: seq<Event>, b: seq<Event>)
    requires Settled(o, a) && Extends(a, b)
    ensures Settled(o, b)
  {
    assert b == a + b[|a|..];
    SettledGrows(o, a, b[|a|..]);
  }

  // ---------------------------------------------------------------- scenarios

  datatype Scenario = KillAfterReservation | KillDuringStream | DatabaseOutage | GracefulDrain | Disconnects | Rotation

  const SCENARIOS: seq<Scenario> :=
    [KillAfterReservation, KillDuringStream, DatabaseOutage, GracefulDrain, Disconnects, Rotation]

  datatype Phase = Prepare | DuringFault | Inject | AfterFault | Verify

  datatype AssertionName =
    | ProcessSigkillObserved | ReservationWasDurableBeforeKill | ReplacementWorkerReclaimedReservation
    | NoUsageRecordedForUndispatchedAttempt | HardQuotaNotOverspent
    | SseFirstByteObservedBeforeSigkill | ReplacementApiAndWorkerRecovered | ReservationSettledConservatively | NoPermanentReservation
    | DatabaseNetworkCutObserved | PredispatchOutageFailedClosed | NoUpstreamDispatchDuringPredispatchOutage
    | SettlementOutageCreatedBoundedPendingUsage | WorkerReconciledPendingUsageAfterRestore
    | SigtermObserved | ListenerRejectedNewWorkDuringDrain | NonstreamEndedWithinDrainBound | SseEndedWithinDrainBound
    | ProcessExitedWithinDrainBound
    | PreResponseUpstreamDisconnectObserved | MidSseUpstreamDisconnectObserved | DownstreamClientCancelObserved
    | OneTerminalAttemptPerCase | UsageProvenanceBoundedPerCase
    | AtLeastTwoApiReplicasObserved | AtLeastTwoWorkersObserved | LoadBalancerRoutedMultipleApiReplicas
    | ConfigurationRevisionAtomicAcrossReplicas | SigningRotationPreservedActiveSessions | GatewaySigningJwksConverged

  function RequiredAssertions(s: Scenario): set<AssertionName> {
    match s
    case KillAfterReservation =>
      {ProcessSigkillObserved, ReservationWasDurableBeforeKill, ReplacementWorkerReclaimedReservation,
       NoUsageRecordedForUndispatchedAttempt, HardQuotaNotOverspent}
    case KillDuringStream =>
      {SseFirstByteObservedBeforeSigkill, ProcessSigkillObserved, ReplacementApiAndWorkerRecovered, ReservationSettledConservatively,
       NoPermanentReservation, HardQuotaNotOverspent}
    case DatabaseOutage =>
      {DatabaseNetworkCutObserved, PredispatchOutageFailedClosed, NoUpstreamDispatchDuringPredispatchOutage,
       SettlementOutageCreatedBoundedPendingUsage, WorkerReconciledPendingUsageAfterRestore, NoPermanentReservation}
    case GracefulDrain =>
      {SigtermObserved, ListenerRejectedNewWorkDuringDrain, NonstreamEndedWithinDrainBound, SseEndedWithinDrainBound,
       ProcessExitedWithinDrainBound, NoPermanentReservation}
    case Disconnects =>
      {PreResponseUpstreamDisconnectObserved, MidSseUpstreamDisconnectObserved, DownstreamClientCancelObserved,
       OneTerminalAttemptPerCase, UsageProvenanceBoundedPerCase, NoPermanentReservation}
    case Rotation =>
      {AtLeastTwoApiReplicasObserved, AtLeastTwoWorkersObserved, LoadBalancerRoutedMultipleApiReplicas,
       ConfigurationRevisionAtomicAcrossReplicas, SigningRotationPreservedActiveSessions, GatewaySigningJwksConverged}
  }

  datatype Assertion = Assertion(name: AssertionName, passed: bool, detailFits: bool)

  /** What the driver prints for a phase; `shaped` is the field set and the observation checks. */
  datatype Document = Document(shaped: bool, scenario: Scenario, phase: Phase, passed: bool, marked: bool, assertions: seq<Assertion>)

  /** The assertions are the required ones, each exactly once and passed. */
  ghost predicate Complete(assertions: seq<Assertion>, required: set<AssertionName>) {
    && (forall i :: 0 <= i < |assertions| ==> assertions[i].passed && assertions[i].detailFits)
    && (forall i, j :: 0 <= i < j < |assertions| ==> assertions[i].name != assertions[j].name)
    && (forall a :: a in required <==> exists i :: 0 <= i < |assertions| && assertions[i].name == a)
  }

  ghost predicate Acceptable(doc: Document, s: Scenario, p: Phase) {
    && doc.shaped && doc.scenario == s && doc.phase == p && doc.passed && doc.marked
    && (p == Verify ==> Complete(doc.assertions, RequiredAssertions(s)))
  }

  lemma {:induction false} DistinctCount(assertions: seq<Assertion>, names: set<AssertionName>)
    requires forall i, j :: 0 <= i < j < |assertions| ==> assertions[i].name != assertions[j].name
    requires forall a :: a in names <==> exists i :: 0 <= i < |assertions| && assertions[i].name == a
    ensures |names| == |assertions|
  {
    if assertions == [] {
      assert names == {};
    } else {
      var n := |assertions| - 1;
      var last, before := assertions[n].name, assertions[..n];
      var fewer := names - {last};
      forall a ensures a in fewer <==> exists i :: 0 <= i < |before| && before[i].name == a {
        if a in fewer { var i :| 0 <= i < |assertions| && assertions[i].name == a; assert before[i].name == a; }
        if i :| 0 <= i < |before| && before[i].name == a { assert assertions[i].name == a && assertions[i].name != last; }
      }
      DistinctCount(before, fewer);
      assert names == fewer + {last};
    }
  }

  /** `decode_phase`: accepted exactly when the document is acceptable. */
  method DecodePhase(doc: Document, s: Scenario, p: Phase) returns (ok: bool)
    ensures ok <==> Acceptable(doc, s, p)
  {
    if !doc.shaped || doc.scenario != s || doc.phase != p || !doc.passed || !doc.marked { return false; }
    if p != Verify { return true; }
    ok := CheckAssertions(doc.assertions, RequiredAssertions(s));
  }

  method CheckAssertions(assertions: seq<Assertion>, required: set<AssertionName>) returns (ok: bool)
    ensures ok <==> Complete(assertions, required)
  {
    if |assertions| != |required| {
      if Complete(assertions, required) { DistinctCount(assertions, required); }
      return false;
    }
    var names: set<AssertionName> := {};
    for i := 0 to |assertions|
      invariant forall j :: 0 <= j < i ==> assertions[j].passed && assertions[j].detailFits
      invariant forall j, k :: 0 <= j < k < i ==> assertions[j].name != assertions[k].name
      invariant forall a :: a in names <==> exists j :: 0 <= j < i && assertions[j].name == a
    {
      var a := assertions[i];
      if a.name in names || !a.passed || !a.detailFits { return false; }
      names := names + {a.name};
    }
    ok := names == required;
  }
}
