/** The fault controller: it acts only on containers it has just verified, reconnects the database it
    cut off, and leaves the topology as it found it. */
module FaultController {
  import opened Options
  import opened FaultModel

  /** Everything outside the controller's control, by command number: what changes the world before a
      command, which commands report failure and which of those had no effect, when deadlines have
      passed, how long a stop is awaited, what the driver prints, and the remaining inspections. */
  datatype Oracle = Oracle(env: (nat, World) -> World, fails: nat -> bool, loses: nat -> bool, late: nat -> bool,
                           patience: nat -> nat, driver: nat -> Document, approves: nat -> bool, network: nat -> Option<(nat, nat)>)
  {
    function Env(t: nat, w: World): World { env(t, w) }
    predicate Fails(t: nat) { fails(t) }
    predicate Loses(t: nat) { loses(t) }
    predicate Late(t: nat) { late(t) }
    function Patience(t: nat): nat { patience(t) }
    function Driver(t: nat): Document { driver(t) }
    predicate Approves(t: nat) { approves(t) }
    function Network(t: nat): Option<(nat, nat)> { network(t) }
  }

  /** Only the controller changes container state. */
  ghost predicate Quiet(oracle: Oracle) {
    forall t, w :: Calm(w, oracle.Env(t, w))
  }

  /** The `count` commands after `clock` do not fail. */
  ghost predicate Answered(oracle: Oracle, clock: nat, count: nat) {
    forall t :: clock < t <= clock + count ==> !oracle.Fails(t)
  }

  /** How many commands an ownership check of a container that is there issues: it ends with the first
      that fails. */
  function Checks(oracle: Oracle, clock: nat): nat {
    if oracle.Fails(clock + 1) then 1 else if oracle.Fails(clock + 2) then 2 else if oracle.Fails(clock + 3) then 3 else 4
  }

  /** The command number after a phase that starts at `clock`. */
  ghost function AfterPhase(oracle: Oracle, clock: nat): nat {
    if !Answered(oracle, clock, 4) then clock + Checks(oracle, clock) else if oracle.Late(clock + 4) then clock + 4 else clock + 5
  }

  /** The command number after the outage that starts at `clock` has been observed. */
  ghost function AfterOutage(oracle: Oracle, clock: nat): nat {
    if oracle.Fails(clock + 1) then clock + 1 else AfterPhase(oracle, clock + 1)
  }

  /** Whether a partition that starts at `clock` and checks the database again from `at` on leaves it on
      the network: it was not cut off, or a reconnect was issued and took effect. */
  ghost predicate StaysAttached(oracle: Oracle, clock: nat, at: nat) {
    if !Answered(oracle, clock, 4) then true
    else if oracle.Fails(clock + 5) then oracle.Loses(clock + 5)
    else Answered(oracle, at, 4) && !(oracle.Fails(at + 5) && oracle.Loses(at + 5))
  }

  predicate Labelled(plan: Plan, w: World, n: Name) {
    n in w && n in plan.roles && w[n].run == plan.run && w[n].role == plan.roles[n]
  }

  /** Docker answers nothing. */
  ghost predicate Mute(oracle: Oracle) {
    forall t :: oracle.Fails(t)
  }

  datatype Capture = Capture(scenario: Scenario, assertions: seq<Assertion>)

  predicate Undisturbed(w: World) {
    forall n :: n in w ==> !w[n].signalled
  }

  class Controller {
    const plan: Plan
    const oracle: Oracle
    var world: World
    var trace: seq<Event>
    var clock: nat
    var owned: map<Name, nat>
    var networkId: Option<nat>
    var address: nat

    function Record(): Owned
      reads this
    {
      Owned(plan, owned, address)
    }

    /** Every command leaves one event, so event `j` is command `Base() + j + 1`. */
    ghost function Base(): int
      reads this
    {
      clock - |trace|
    }

    /** Every acknowledged disconnect of the run is answered. */
    ghost predicate Answering()
      reads this
    {
      Resolved(Record(), oracle, Base(), trace)
    }

    constructor (plan: Plan, oracle: Oracle, world: World)
      ensures this.plan == plan && this.oracle == oracle && this.world == world
      ensures trace == [] && clock == 0 && owned == map[] && networkId == None
    {
      this.plan, this.oracle, this.world := plan, oracle, world;
      trace, clock, owned, networkId, address := [], 0, map[], None, 0;
    }

    // -------------------------------------------------------------- inspections

    method Tick()
      modifies `world, `clock
      ensures clock == old(clock) + 1
      ensures Quiet(oracle) ==> Calm(old(world), world)
    {
      world := oracle.Env(clock, world);
      clock := clock + 1;
    }

    method ContainerExists(n: Name) returns (there: bool)
      modifies `world, `clock, `trace
      ensures trace == old(trace) + [Exists(n, there)]
      ensures Quiet(oracle) ==> Calm(old(world), world)
      ensures clock == old(clock) + 1 && (there <==> n in world && !oracle.Fails(clock))
    {
      Tick();
      there := n in world && !oracle.Fails(clock);
      trace := trace + [Exists(n, there)];
    }

    method ContainerId(n: Name) returns (id: Option<nat>)
      modifies `world, `clock, `trace
      ensures trace == old(trace) + [ReadId(n, id)]
      ensures Quiet(oracle) ==> Calm(old(world), world)
      ensures clock == old(clock) + 1 && id == if n in world && !oracle.Fails(clock) then Some(world[n].id) else None
    {
      Tick();
      id := if n in world && !oracle.Fails(clock) then Some(world[n].id) else None;
      trace := trace + [ReadId(n, id)];
    }

    method RunLabel(n: Name) returns (run: Option<nat>)
      modifies `world, `clock, `trace
      ensures trace == old(trace) + [ReadRun(n, run)]
      ensures Quiet(oracle) ==> Calm(old(world), world)
      ensures clock == old(clock) + 1 && run == if n in world && !oracle.Fails(clock) then Some(world[n].run) else None
    {
      Tick();
      run := if n in world && !oracle.Fails(clock) then Some(world[n].run) else None;
      trace := trace + [ReadRun(n, run)];
    }

    method RoleLabel(n: Name) returns (role: Option<Role>)
      modifies `world, `clock, `trace
      ensures trace == old(trace) + [ReadRole(n, role)]
      ensures Quiet(oracle) ==> Calm(old(world), world)
      ensures clock == old(clock) + 1 && role == if n in world && !oracle.Fails(clock) then Some(world[n].role) else None
    {
      Tick();
      role := if n in world && !oracle.Fails(clock) then Some(world[n].role) else None;
      trace := trace + [ReadRole(n, role)];
    }

    /** Any other inspection: the container as it is now, unless the command fails. */
    method Inspect(n: Name) returns (found: Option<Container>)
      requires Guarded(Record(), trace)
      modifies `world, `clock, `trace
      ensures Guarded(Record(), trace) && trace == old(trace) + [Inspected]
      ensures Quiet(oracle) ==> Calm(old(world), world)
      ensures clock == old(clock) + 1 && found == if n in world && !oracle.Fails(clock) then Some(world[n]) else None
    {
      Tick();
      found := if n in world && !oracle.Fails(clock) then Some(world[n]) else None;
      GuardedGrows(Record(), trace, [Inspected]);
      trace := trace + [Inspected];
    }

    /** `require_owned_container`: existence, identity, run label and role label, in this order. */
    method RequireOwned(n: Name) returns (ok: bool)
      requires Guarded(Record(), trace)
      modifies `world, `clock, `trace
      ensures Guarded(Record(), trace) && Extends(old(trace), trace) && Passive(trace[|old(trace)|..])
      ensures ok ==> JustVerified(Record(), trace, n)
      ensures !ok && n in owned && n in plan.roles ==> |trace| > |old(trace)| && Mismatch(Record(), trace[|trace| - 1], n)
      ensures Quiet(oracle) ==> Calm(old(world), world)
      ensures ok && Quiet(oracle) ==> Standing(Record(), world, n)
      ensures Base() == old(Base())
      ensures Quiet(oracle) && Standing(Record(), old(world), n) ==>
                && (ok <==> Answered(oracle, old(clock), 4)) && (!ok ==> oracle.Fails(clock))
                && clock == old(clock) + Checks(oracle, old(clock))
    {
      ghost var start := trace;
      ok := n in owned && n in plan.roles;
      if ok {
        var there;
        there, ok := CheckOwnership(n);
      }
      assert trace == start + trace[|start|..];
      GuardedGrows(Record(), start, trace[|start|..]);
      forall i | |start| <= i < |trace| ensures !IsCut(trace[i]) { assert trace[i] == trace[|start|..][i - |start|]; }
    }

    /** Existence and identity; `same` means both as recorded. */
    method ReadIdentity(n: Name) returns (there: bool, same: bool)
      requires n in owned
      modifies `world, `clock, `trace
      ensures old(trace) <= trace && OnlyReadings(trace[|old(trace)|..]) && |trace| > |old(trace)| && (same ==> there)
      ensures same ==> trace == old(trace) + [Exists(n, true), ReadId(n, Some(owned[n]))]
      ensures !there ==> trace == old(trace) + [Exists(n, false)]
      ensures !same ==> Mismatch(Record(), trace[|trace| - 1], n)
      ensures Quiet(oracle) ==> Calm(old(world), world)
      ensures same && Quiet(oracle) ==> n in world && world[n].id == owned[n]
      ensures ProbesOnly(old(trace), trace, n, there) && clock == old(clock) + |trace| - |old(trace)|
      ensures !there ==> n !in world || oracle.Fails(old(clock) + 1)
      ensures oracle.Fails(old(clock) + 1) ==> !there
      ensures Quiet(oracle) && n in old(world) && old(world)[n].id == owned[n] ==>
                && (same <==> !oracle.Fails(old(clock) + 1) && !oracle.Fails(old(clock) + 2)) && (!same ==> oracle.Fails(clock))
                && clock == old(clock) + if oracle.Fails(old(clock) + 1) then 1 else 2
    {
      there := ContainerExists(n);
      same := false;
      if !there { return; }
      var id := ContainerId(n);
      same := id == Some(owned[n]);
    }

    /** Run label, then role label. */
    method ReadLabels(n: Name) returns (same: bool)
      requires n in plan.roles
      modifies `world, `clock, `trace
      ensures old(trace) <= trace && OnlyReadings(trace[|old(trace)|..]) && |trace| > |old(trace)|
      ensures same ==> trace == old(trace) + [ReadRun(n, Some(plan.run)), ReadRole(n, Some(plan.roles[n]))]
      ensures !same ==> Mismatch(Record(), trace[|trace| - 1], n)
      ensures Quiet(oracle) ==> Calm(old(world), world)
      ensures same && Quiet(oracle) ==> n in world && world[n].run == plan.run && world[n].role == plan.roles[n]
      ensures clock == old(clock) + |trace| - |old(trace)|
      ensures forall i :: |old(trace)| <= i < |trace| ==> !trace[i].Exists?
      ensures Quiet(oracle) && Labelled(plan, old(world), n) ==>
                && (same <==> !oracle.Fails(old(clock) + 1) && !oracle.Fails(old(clock) + 2)) && (!same ==> oracle.Fails(clock))
                && clock == old(clock) + if oracle.Fails(old(clock) + 1) then 1 else 2
    {
      var run := RunLabel(n);
      same := run == Some(plan.run);
      if !same { return; }
      var role := RoleLabel(n);
      same := role == Some(plan.roles[n]);
    }

    /** The whole ownership check. */
    method CheckOwnership(n: Name) returns (there: bool, same: bool)
      requires n in owned && n in plan.roles
      modifies `world, `clock, `trace
      ensures old(trace) <= trace && OnlyReadings(trace[|old(trace)|..]) && |trace| > |old(trace)|
      ensures same ==> there && |trace| >= |old(trace)| + 4 && JustVerified(Record(), trace, n)
      ensures !there ==> trace == old(trace) + [Exists(n, false)]
      ensures !same ==> Mismatch(Record(), trace[|trace| - 1], n)
      ensures Quiet(oracle) ==> Calm(old(world), world)
      ensures same && Quiet(oracle) ==> Standing(Record(), world, n)
      ensures ProbesOnly(old(trace), trace, n, there) && clock == old(clock) + |trace| - |old(trace)|
      ensures !there ==> n !in world || oracle.Fails(old(clock) + 1)
      ensures oracle.Fails(old(clock) + 1) ==> !there
      ensures Quiet(oracle) && Standing(Record(), old(world), n) ==>
                && (same <==> Answered(oracle, old(clock), 4)) && (!same ==> oracle.Fails(clock))
                && clock == old(clock) + Checks(oracle, old(clock))
    {
      ghost var t0, w0 := trace, world;
      FourAnswered(oracle, clock);
      there, same := ReadIdentity(n);
      if !same { return; }
      ghost var t1, w1 := trace, world;
      same := ReadLabels(n);
      ReadingsJoin(t0, t1, trace);
      if Quiet(oracle) { CalmTransitive(w0, w1, world); }
      ProbesExtend(t0, t1, trace, n, there);
      if same { FourReadings(Record(), t0, t1, trace, n); }
    }

    // -------------------------------------------------------------- actions

    method Signal(n: Name, signal: FaultModel.Signal) returns (ok: bool)
      requires Guarded(Record(), trace) && JustVerified(Record(), trace, n)
      modifies `world, `clock, `trace
      ensures trace == old(trace) + [Signalled(n, signal, ok)] && Guarded(Record(), trace) && clock == old(clock) + 1
      ensures Quiet(oracle) ==> CalmBut(old(world), world, n)
      ensures Quiet(oracle) && n in old(world) ==> world[n].networks == old(world)[n].networks
    {
      Tick();
      ghost var before := world;
      ok := !oracle.Fails(clock);
      if n in world && (ok || !oracle.Loses(clock)) { world := world[n := world[n].(signalled := true)]; }
      GuardedAction(Record(), trace, Signalled(n, signal, ok));
      trace := trace + [Signalled(n, signal, ok)];
      if Quiet(oracle) { CalmThenBut(old(world), before, world, n); }
    }

    method Start(n: Name) returns (ok: bool)
      requires Guarded(Record(), trace) && JustVerified(Record(), trace, n)
      modifies `world, `clock, `trace
      ensures trace == old(trace) + [Started(n, ok)] && Guarded(Record(), trace) && clock == old(clock) + 1
      ensures Quiet(oracle) ==> CalmBut(old(world), world, n)
      ensures Quiet(oracle) && n in old(world) ==> world[n].networks == old(world)[n].networks
      ensures Quiet(oracle) && n in old(world) && ok ==> world[n].running && !world[n].signalled
    {
      Tick();
      ghost var before := world;
      ok := !oracle.Fails(clock);
      if n in world && (ok || !oracle.Loses(clock)) { world := world[n := world[n].(running := true, signalled := false)]; }
      GuardedAction(Record(), trace, Started(n, ok));
      trace := trace + [Started(n, ok)];
      if Quiet(oracle) { CalmThenBut(old(world), before, world, n); }
    }

    method Execute(n: Name) returns (doc: Option<Document>)
      requires Guarded(Record(), trace) && JustVerified(Record(), trace, n)
      modifies `world, `clock, `trace
      ensures trace == old(trace) + [Executed(n, doc.Some?)] && Guarded(Record(), trace) && clock == old(clock) + 1
      ensures Quiet(oracle) ==> Calm(old(world), world)
    {
      Tick();
      doc := if oracle.Fails(clock) then None else Some(oracle.Driver(clock));
      GuardedAction(Record(), trace, Executed(n, doc.Some?));
      trace := trace + [Executed(n, doc.Some?)];
    }

    method Disconnect(n: Name) returns (ok: bool)
      requires Guarded(Record(), trace) && JustVerified(Record(), trace, n)
      modifies `world, `clock, `trace
      ensures trace == old(trace) + [Disconnected(n, ok)] && Guarded(Record(), trace)
      ensures Quiet(oracle) ==> CalmBut(old(world), world, n)
      ensures Quiet(oracle) && n in old(world) && old(world)[n].running && !old(world)[n].signalled ==> world[n].running && !world[n].signalled
      ensures clock == old(clock) + 1 && (ok <==> !oracle.Fails(clock))
      ensures Quiet(oracle) && n in old(world) ==>
                world[n].networks == if ok || !oracle.Loses(clock) then old(world)[n].networks - {plan.network} else old(world)[n].networks
    {
      Tick();
      ghost var before := world;
      ok := !oracle.Fails(clock);
      if n in world && (ok || !oracle.Loses(clock)) { world := world[n := world[n].(networks := world[n].networks - {plan.network})]; }
      GuardedAction(Record(), trace, Disconnected(n, ok));
      trace := trace + [Disconnected(n, ok)];
      if Quiet(oracle) { CalmThenBut(old(world), before, world, n); }
    }

    method Connect(n: Name) returns (ok: bool)
      requires Guarded(Record(), trace) && JustVerified(Record(), trace, n)
      modifies `world, `clock, `trace
      ensures trace == old(trace) + [Connected(n, address, ok)] && Guarded(Record(), trace) && clock == old(clock) + 1
      ensures Quiet(oracle) ==> CalmBut(old(world), world, n)
      ensures Quiet(oracle) && n in old(world) && old(world)[n].running && !old(world)[n].signalled ==> world[n].running && !world[n].signalled
      ensures ok <==> !oracle.Fails(clock)
      ensures Quiet(oracle) && n in old(world) ==>
                world[n].networks == if ok || !oracle.Loses(clock) then old(world)[n].networks + {plan.network} else old(world)[n].networks
    {
      Tick();
      ghost var before := world;
      ok := !oracle.Fails(clock);
      if n in world && (ok || !oracle.Loses(clock)) {
        world := world[n := world[n].(networks := world[n].networks + {plan.network}, address := address)];
      }
      GuardedAction(Record(), trace, Connected(n, address, ok));
      trace := trace + [Connected(n, address, ok)];
      if Quiet(oracle) { CalmThenBut(old(world), before, world, n); }
    }

    // -------------------------------------------------------------- steps of a scenario

    /** `phase`: the driver runs the phase and its document is accepted. */
    method RunPhase(s: Scenario, p: Phase) returns (doc: Option<Document>)
      requires Guarded(Record(), trace)
      modifies `world, `clock, `trace
      ensures Guarded(Record(), trace) && Extends(old(trace), trace)
      ensures forall i :: |old(trace)| <= i < |trace| ==> !trace[i].Connected?
      ensures Quiet(oracle) ==> Calm(old(world), world)
      ensures doc.Some? ==> Acceptable(doc.value, s, p)
      ensures Base() == old(Base())
      ensures Quiet(oracle) && Standing(Record(), old(world), plan.driver) ==> clock == AfterPhase(oracle, old(clock))
    {
      var ok := RequireOwned(plan.driver);
      assert forall i :: |old(trace)| <= i < |trace| ==> trace[i] == trace[|old(trace)|..][i - |old(trace)|];
      if !ok || oracle.Late(clock) { return None; }
      doc := Execute(plan.driver);
      if doc.None? { return; }
      ok := DecodePhase(doc.value, s, p);
      if !ok { return None; }
    }

    /** `wait_stopped`: polls until the container is observed stopped, or patience ends. */
    method WaitStopped(n: Name) returns (code: Option<int>)
      requires Guarded(Record(), trace)
      modifies `world, `clock, `trace
      ensures Guarded(Record(), trace) && Extends(old(trace), trace)
      ensures Quiet(oracle) ==> Calm(old(world), world)
      ensures code.Some? && Quiet(oracle) ==> n in world && !world[n].running
      ensures Base() == old(Base())
    {
      var polls, stopped := oracle.Patience(clock), false;
      while !stopped
        invariant Guarded(Record(), trace) && Extends(old(trace), trace)
        invariant Quiet(oracle) ==> Calm(old(world), world)
        invariant stopped && Quiet(oracle) ==> n in world && !world[n].running
        invariant Base() == old(Base())
        decreases polls, !stopped
      {
        var ok := RequireOwned(n);
        if !ok { return None; }
        var found := Inspect(n);
        if found.None? { return None; }
        stopped := !found.value.running;
        if !stopped {
          if polls == 0 { return None; }
          polls := polls - 1;
        }
      }
      var ok := RequireOwned(n);
      if !ok { return None; }
      var found := Inspect(n);
      code := if found.None? then None else Some(found.value.exitCode);
    }

    /** Verify and start again: the end of a kill and of a drain. */
    method Restart(n: Name) returns (ok: bool)
      requires Guarded(Record(), trace)
      modifies `world, `clock, `trace
      ensures Guarded(Record(), trace) && Extends(old(trace), trace)
      ensures ok && Quiet(oracle) && Recovering(Record(), old(world), n) ==> Topology(Record(), world)
      ensures Base() == old(Base())
    {
      ghost var o, w0 := Record(), world;
      ok := RequireOwned(n);
      if !ok { return; }
      ghost var w1 := world;
      ok := Start(n);
      if !ok { return; }
      ghost var w2 := world;
      var found := Inspect(n);
      ok := found.Some? && found.value.running;
      if Quiet(oracle) && Recovering(o, w0, n) { AfterRestart(o, w0, w1, w2, world, n); }
    }

    /** Signal a verified container. */
    method SignalOwned(n: Name, signal: FaultModel.Signal) returns (ok: bool)
      requires Guarded(Record(), trace) && n in plan.roles
      modifies `world, `clock, `trace
      ensures Guarded(Record(), trace) && Extends(old(trace), trace)
      ensures ok && Quiet(oracle) && Topology(Record(), old(world)) ==> Recovering(Record(), world, n)
      ensures Base() == old(Base())
    {
      ghost var o, w0 := Record(), world;
      ok := RequireOwned(n);
      if !ok { return; }
      ghost var w1 := world;
      ok := Signal(n, signal);
      if Quiet(oracle) && Topology(o, w0) { AfterSignal(o, w0, w1, world, n); }
    }

    /** `docker_sigkill_api_*`. */
    method KillScenario(s: Scenario, n: Name) returns (ok: bool)
      requires Safe(Record(), trace) && n in plan.roles
      modifies `world, `clock, `trace
      ensures Safe(Record(), trace) && Extends(old(trace), trace) && Base() == old(Base())
      ensures ok && Quiet(oracle) && Topology(Record(), old(world)) ==> Topology(Record(), world)
    {
      ghost var o, t0 := Record(), trace;
      ok := SignalOwned(n, Kill9);
      if !ok { ExtendsSettled(o, t0, trace); return; }
      ghost var w1 := world;
      var code := WaitStopped(n);
      if code != Some(137) { ExtendsSettled(o, t0, trace); return false; }
      if Quiet(oracle) { CalmKeeps(o, w1, world, n); }
      ok := Restart(n);
      if !ok { ExtendsSettled(o, t0, trace); return; }
      ghost var w2 := world;
      var doc := RunPhase(s, AfterFault);
      ok := doc.Some?;
      ExtendsSettled(o, t0, trace);
      if Quiet(oracle) { CalmKeeps(o, w2, world, n); }
    }

    /** The drain: the driver observes it, and the process exits within the bound. */
    method AwaitDrain(s: Scenario, n: Name) returns (ok: bool)
      requires Guarded(Record(), trace)
      modifies `world, `clock, `trace
      ensures Guarded(Record(), trace) && Extends(old(trace), trace) && Base() == old(Base())
      ensures Quiet(oracle) ==> Calm(old(world), world)
    {
      ghost var w0 := world;
      var doc := RunPhase(s, DuringFault);
      if doc.None? || oracle.Late(clock) { return false; }
      ghost var w1 := world;
      var code := WaitStopped(n);
      if Quiet(oracle) { CalmTransitive(w0, w1, world); }
      ok := code.Some?;
    }

    /** `docker_sigterm_drain`. */
    method DrainScenario(s: Scenario, n: Name) returns (ok: bool)
      requires Safe(Record(), trace) && n in plan.roles
      modifies `world, `clock, `trace
      ensures Safe(Record(), trace) && Extends(old(trace), trace) && Base() == old(Base())
      ensures ok && Quiet(oracle) && Topology(Record(), old(world)) ==> Topology(Record(), world)
    {
      ghost var o, t0 := Record(), trace;
      ok := SignalOwned(n, Term);
      if !ok { ExtendsSettled(o, t0, trace); return; }
      ghost var w1 := world;
      ok := AwaitDrain(s, n);
      if !ok { ExtendsSettled(o, t0, trace); return; }
      if Quiet(oracle) { CalmKeeps(o, w1, world, n); }
      ok := Restart(n);
      if !ok { ExtendsSettled(o, t0, trace); return; }
      ghost var w2 := world;
      var doc := RunPhase(s, AfterFault);
      ok := doc.Some?;
      ExtendsSettled(o, t0, trace);
      if Quiet(oracle) { CalmKeeps(o, w2, world, n); }
    }

    /** While cut off: no network is left, and the driver observes the outage. */
    method ObserveCut(s: Scenario) returns (ok: bool)
      requires Guarded(Record(), trace)
      modifies `world, `clock, `trace
      ensures Guarded(Record(), trace) && Extends(old(trace), trace)
      ensures forall i :: |old(trace)| <= i < |trace| ==> !trace[i].Connected?
      ensures Quiet(oracle) ==> Calm(old(world), world)
      ensures Base() == old(Base())
      ensures Quiet(oracle) && Standing(Record(), old(world), plan.driver) && plan.postgres in old(world) && old(world)[plan.postgres].networks == {} ==>
                clock == AfterOutage(oracle, old(clock))
    {
      ghost var w0 := world;
      var found := Inspect(plan.postgres);
      if found.None? || found.value.networks != {} { return false; }
      ghost var w1 := world;
      var doc := RunPhase(s, DuringFault);
      if Quiet(oracle) { CalmTransitive(w0, w1, world); }
      ok := doc.Some?;
    }

    /** The `finally`: reconnect the database if it is still verified to be the recorded container. */
    method Reattach() returns (ok: bool, ghost rechecked: bool)
      requires Guarded(Record(), trace) && plan.postgres in owned && plan.postgres in plan.roles
      modifies `world, `clock, `trace
      ensures Guarded(Record(), trace) && Extends(old(trace), trace) && |trace| > |old(trace)|
      ensures forall i :: |old(trace)| <= i < |trace| - 1 ==> !trace[i].Connected?
      ensures rechecked ==> trace[|trace| - 1] == Connected(plan.postgres, address, ok)
      ensures !rechecked ==> !ok && Mismatch(Record(), trace[|trace| - 1], plan.postgres)
      ensures Quiet(oracle) ==> forall o :: Reattaching(o, old(world), plan.postgres) ==> Reattaching(o, world, plan.postgres)
      ensures Quiet(oracle) && plan.postgres in old(world) ==>
                && plan.postgres in world
                && world[plan.postgres].networks ==
                   if rechecked && (ok || !oracle.Loses(clock)) then old(world)[plan.postgres].networks + {plan.network}
                   else old(world)[plan.postgres].networks
      ensures Base() == old(Base())
      ensures Quiet(oracle) && Standing(Record(), old(world), plan.postgres) ==>
                && (rechecked <==> Answered(oracle, old(clock), 4)) && (!rechecked ==> oracle.Fails(clock))
                && (rechecked ==> clock == old(clock) + 5 && (ok <==> !oracle.Fails(clock)))
    {
      ghost var t0, w0 := trace, world;
      ok := RequireOwned(plan.postgres);
      rechecked := ok;
      ghost var t1, w1 := trace, world;
      NoActionsIn(t0, t1);
      if Quiet(oracle) { StillReattaching(w0, w1, plan.postgres); }
      if !ok { return; }
      ok := Connect(plan.postgres);
      if Quiet(oracle) { StillReattachingBut(w1, world, plan.postgres); }
    }

    /** Verify the database and disconnect it. */
    method Cut() returns (ok: bool, ghost verified: bool)
      requires Guarded(Record(), trace) && plan.postgres in owned && plan.postgres in plan.roles
      modifies `world, `clock, `trace
      ensures Guarded(Record(), trace) && old(trace) < trace && (ok ==> verified)
      ensures forall i :: |old(trace)| <= i < |trace| - 1 ==> !IsAction(trace[i])
      ensures verified ==> trace[|trace| - 1] == Disconnected(plan.postgres, ok)
      ensures !verified ==> Mismatch(Record(), trace[|trace| - 1], plan.postgres)
      ensures Quiet(oracle) && Topology(Record(), old(world)) ==>
                && Reattaching(Record(), world, plan.postgres)
                && world[plan.postgres].networks == if verified && (ok || !oracle.Loses(clock)) then {} else {plan.network}
      ensures Quiet(oracle) && verified && (ok || !oracle.Loses(clock)) ==>
                plan.postgres in world && plan.network !in world[plan.postgres].networks
      ensures Base() == old(Base())
      ensures Quiet(oracle) && Standing(Record(), old(world), plan.postgres) ==>
                && (verified <==> Answered(oracle, old(clock), 4))
                && (verified ==> clock == old(clock) + 5 && (ok <==> !oracle.Fails(clock)))
    {
      ghost var o, w0, t0 := Record(), world, trace;
      ok := RequireOwned(plan.postgres);
      verified := ok;
      ghost var w1 := world;
      NoActionsIn(t0, trace);
      if Quiet(oracle) { CalmKeeps(o, w0, w1, plan.postgres); }
      if ok { ok := Disconnect(plan.postgres); }
      if Quiet(oracle) && Topology(o, w0) {
        assert Up(o, w1, plan.postgres);
        if verified { CalmButKeeps(o, w1, world, plan.postgres); }
      }
    }

    /** After the disconnect: observe the outage, and reconnect whatever was observed. `at` is the number
        of the command before the check that precedes the reconnect. */
    method Restore(s: Scenario) returns (ok: bool, ghost rechecked: bool, ghost connected: bool, ghost at: nat)
      requires Guarded(Record(), trace) && plan.postgres in owned && plan.postgres in plan.roles
      modifies `world, `clock, `trace
      ensures Guarded(Record(), trace) && RestoreStep(Record(), old(trace), trace, rechecked, connected) && Base() == old(Base())
      ensures Quiet(oracle) && Reattaching(Record(), old(world), plan.postgres) ==>
                && Reattaching(Record(), world, plan.postgres)
                && RecheckAt(oracle, at, clock, rechecked, connected)
                && world[plan.postgres].networks ==
                   if rechecked && (connected || !oracle.Loses(clock)) then old(world)[plan.postgres].networks + {plan.network}
                   else old(world)[plan.postgres].networks
      ensures Quiet(oracle) && Standing(Record(), old(world), plan.driver) && plan.postgres in old(world) && old(world)[plan.postgres].networks == {} ==>
                at == AfterOutage(oracle, old(clock))
    {
      ghost var o, t2, w2 := Record(), trace, world;
      var observed := ObserveCut(s);
      ghost var t3, w3 := trace, world;
      at := clock;
      if Quiet(oracle) { CalmKeeps(o, w2, w3, plan.postgres); }
      ok, rechecked := Reattach();
      connected := ok;
      forall i | |t2| <= i < |t3| ensures trace[i] == t3[i] {}
      ok := ok && observed;
    }

    /** The two together: what they do to the history and where they leave the database. */
    method CutThenRestore(s: Scenario)
      returns (ok: bool, ghost verified: bool, ghost rechecked: bool, ghost connected: bool, ghost severed: seq<Event>, ghost at: nat)
      requires Guarded(Record(), trace) && plan.postgres in owned && plan.postgres in plan.roles
      modifies `world, `clock, `trace
      ensures Guarded(Record(), trace) && Base() == old(Base())
      ensures CutStep(Record(), old(trace), severed, verified, severed != trace) && (severed == trace ==> !ok && !rechecked)
      ensures severed == trace || RestoreStep(Record(), severed, trace, rechecked, connected)
      ensures Quiet(oracle) && Topology(Record(), old(world)) ==>
                && Reattaching(Record(), world, plan.postgres)
                && (plan.network in world[plan.postgres].networks <==>
                    if severed == trace then !(verified && !oracle.Loses(clock)) else rechecked && (connected || !oracle.Loses(clock)))
                && (severed != trace && plan.driver in plan.roles ==> at == AfterOutage(oracle, old(clock) + 5))
      ensures Quiet(oracle) && Standing(Record(), old(world), plan.postgres) ==>
                && (verified <==> Answered(oracle, old(clock), 4)) && (severed != trace <==> verified && !oracle.Fails(old(clock) + 5))
                && (verified && severed == trace ==> clock == old(clock) + 5)
      ensures Quiet(oracle) && Topology(Record(), old(world)) && severed != trace ==> RecheckAt(oracle, at, clock, rechecked, connected)
      ensures Quiet(oracle) && verified && severed == trace && !oracle.Loses(clock) ==>
                plan.postgres in world && plan.network !in world[plan.postgres].networks
    {
      ghost var o, w0 := Record(), world;
      ok, verified := Cut();
      severed, rechecked, connected, at := trace, false, false, clock;
      if !ok { return; }
      if Quiet(oracle) && Topology(o, w0) && plan.driver in plan.roles { DriverStands(o, world, plan.postgres); }
      ok, rechecked, connected, at := Restore(s);
    }

    /** The `try` and its `finally`. With nothing else acting, the database is reconnected after an
        acknowledged disconnect exactly when the four commands of the check before it are answered. */
    method CutAndRestore(s: Scenario) returns (ok: bool, ghost cut: bool, ghost rechecked: bool, ghost at: nat)
      requires Safe(Record(), trace) && plan.postgres in owned && plan.postgres in plan.roles
      modifies `world, `clock, `trace
      ensures Safe(Record(), trace) && |trace| > |old(trace)| && ReconnectsExactly(Record(), old(trace), trace, cut, rechecked)
      ensures Base() == old(Base())
      ensures Quiet(oracle) && Topology(Record(), old(world)) ==>
                && Reattaching(Record(), world, plan.postgres)
                && (cut <==> Answered(oracle, old(clock), 5))
                && (cut ==> (rechecked <==> Answered(oracle, at, 4)))
                && (cut && plan.driver in plan.roles ==> at == AfterOutage(oracle, old(clock) + 5))
                && (plan.network in world[plan.postgres].networks <==> StaysAttached(oracle, old(clock), at))
                && (old(Answering()) ==> Answering())
      ensures Quiet(oracle) && Standing(Record(), old(world), plan.postgres) && Answered(oracle, old(clock), 4) && oracle.Fails(old(clock) + 5)
              ==> clock == old(clock) + 5 && !ok && !cut && trace[|trace| - 1] == Disconnected(plan.postgres, false)
      ensures Quiet(oracle) && trace[|trace| - 1] == Disconnected(plan.postgres, false) && !oracle.Loses(clock) ==>
                && plan.postgres in world && plan.network !in world[plan.postgres].networks
                && forall i :: |old(trace)| <= i < |trace| ==> !trace[i].Connected?
    {
      ghost var o, t0, w0 := Record(), trace, world;
      ghost var verified, connected, severed;
      ok, verified, rechecked, connected, severed, at := CutThenRestore(s);
      cut := severed != trace;
      PartitionHistory(o, t0, severed, trace, verified, rechecked, connected);
      if Quiet(oracle) && Topology(o, w0) {
        assert Up(o, w0, plan.postgres);
        PartitionResolved(o, oracle, Base(), t0, severed, trace, verified, rechecked, connected);
        AttachedExact(oracle, old(clock), at, clock, verified, cut, rechecked, connected);
      }
    }

    /** `docker_postgresql_network_partition`. */
    method PartitionScenario(s: Scenario) returns (ok: bool)
      requires Safe(Record(), trace) && plan.postgres in owned && plan.postgres in plan.roles
      modifies `world, `clock, `trace
      ensures Safe(Record(), trace) && Base() == old(Base())
      ensures ok && Quiet(oracle) && Topology(Record(), old(world)) ==> Topology(Record(), world)
      ensures Quiet(oracle) && Topology(Record(), old(world)) && old(Answering()) ==> Answering()
    {
      ghost var o, w0 := Record(), world;
      ghost var cut, rechecked, at;
      ok, cut, rechecked, at := CutAndRestore(s);
      if !ok { return; }
      ghost var w1, t1 := world, trace;
      var found := Inspect(plan.postgres);
      ghost var w2 := world;
      if found.None? || found.value.networks != {plan.network} {
        ExtendsSettled(o, t1, trace);
        ExtendsResolved(o, oracle, Base(), t1, trace);
        return false;
      }
      var doc := RunPhase(s, AfterFault);
      ExtendsSettled(o, t1, trace);
      ExtendsResolved(o, oracle, Base(), t1, trace);
      ok := doc.Some?;
      if Quiet(oracle) && Topology(o, w0) {
        CalmKeeps(o, w1, w2, plan.postgres);
        assert Topology(o, w2);
        CalmKeeps(o, w2, world, plan.postgres);
      }
    }

    /** `fixture_disconnect_sequence` and `replicated_rotation_sequence`. */
    method InjectScenario(s: Scenario) returns (ok: bool)
      requires Safe(Record(), trace)
      modifies `world, `clock, `trace
      ensures Safe(Record(), trace) && Extends(old(trace), trace) && Base() == old(Base())
      ensures ok && Quiet(oracle) && Topology(Record(), old(world)) ==> Topology(Record(), world)
    {
      ghost var o, w0, t0 := Record(), world, trace;
      var doc := RunPhase(s, Inject);
      ghost var w1 := world;
      if doc.None? { ExtendsSettled(o, t0, trace); return false; }
      doc := RunPhase(s, AfterFault);
      ExtendsSettled(o, t0, trace);
      ok := doc.Some?;
      if Quiet(oracle) { CalmTransitive(w0, w1, world); CalmKeeps(o, w0, world, plan.driver); }
    }

    method Inflict(s: Scenario) returns (ok: bool)
      requires plan.Valid() && Safe(Record(), trace) && plan.postgres in owned
      modifies `world, `clock, `trace
      ensures Safe(Record(), trace) && Base() == old(Base())
      ensures ok && Quiet(oracle) && Topology(Record(), old(world)) ==> Topology(Record(), world)
      ensures Quiet(oracle) && Topology(Record(), old(world)) && old(Answering()) ==> Answering()
    {
      ghost var t0 := trace;
      match s {
        case KillAfterReservation => ok := KillScenario(s, plan.apis[0]);
        case KillDuringStream => ok := KillScenario(s, plan.apis[1]);
        case DatabaseOutage => ok := PartitionScenario(s);
        case GracefulDrain => ok := DrainScenario(s, plan.apis[0]);
        case Disconnects => ok := InjectScenario(s);
        case Rotation => ok := InjectScenario(s);
      }
      if s != DatabaseOutage { ExtendsResolved(Record(), oracle, Base(), t0, trace); }
    }

    /** `run_scenario`: prepare, inflict the fault and recover, verify. */
    method RunScenario(s: Scenario) returns (capture: Option<Capture>)
      requires plan.Valid() && Safe(Record(), trace) && plan.postgres in owned
      modifies `world, `clock, `trace
      ensures Safe(Record(), trace) && Base() == old(Base())
      ensures capture.Some? ==> Captures(capture.value, s)
      ensures capture.Some? && Quiet(oracle) && Topology(Record(), old(world)) ==> Topology(Record(), world)
      ensures Quiet(oracle) && Topology(Record(), old(world)) && old(Answering()) ==> Answering()
    {
      ghost var o, w0, t0 := Record(), world, trace;
      var doc := RunPhase(s, Prepare);
      ExtendsSettled(o, t0, trace);
      ExtendsResolved(o, oracle, Base(), t0, trace);
      if doc.None? { return None; }
      if Quiet(oracle) { CalmKeeps(o, w0, world, plan.driver); }
      var ok := Inflict(s);
      if !ok { return None; }
      ghost var w1, t1 := world, trace;
      doc := RunPhase(s, Verify);
      ExtendsSettled(o, t1, trace);
      ExtendsResolved(o, oracle, Base(), t1, trace);
      if doc.None? { return None; }
      if Quiet(oracle) { CalmKeeps(o, w1, world, plan.driver); }
      capture := Some(Capture(s, doc.value.assertions));
    }

    /** The scenario sequence: the topology holds across all of it. */
    method RunScenarios(scenarios: seq<Scenario>) returns (captures: Option<seq<Capture>>)
      requires plan.Valid() && Safe(Record(), trace) && plan.postgres in owned
      modifies `world, `clock, `trace
      ensures Safe(Record(), trace) && Base() == old(Base())
      ensures captures.Some? ==> AllCaptured(captures.value, scenarios)
      ensures captures.Some? && Quiet(oracle) && Topology(Record(), old(world)) ==> Topology(Record(), world)
      ensures Quiet(oracle) && Topology(Record(), old(world)) && old(Answering()) ==> Answering()
    {
      var done: seq<Capture> := [];
      for i := 0 to |scenarios|
        invariant Safe(Record(), trace) && AllCaptured(done, scenarios[..i]) && Base() == old(Base())
        invariant Quiet(oracle) && Topology(Record(), old(world)) ==> Topology(Record(), world)
        invariant Quiet(oracle) && Topology(Record(), old(world)) && old(Answering()) ==> Answering()
      {
        if oracle.Late(clock) { return None; }
        var capture := RunScenario(scenarios[i]);
        if capture.None? { return None; }
        CapturedGrows(done, scenarios, i, capture.value);
        done := done + [capture.value];
      }
      assert scenarios[..|scenarios|] == scenarios;
      captures := Some(done);
    }

    // -------------------------------------------------------------- before and after

    /** Labels and identity of one container of `validate_topology`. */
    method Identify(n: Name) returns (id: Option<nat>)
      requires n in plan.roles
      modifies `world, `clock, `trace
      ensures old(trace) <= trace && Passive(trace[|old(trace)|..])
      ensures Quiet(oracle) ==> Calm(old(world), world)
      ensures id.Some? && Quiet(oracle) ==>
                n in world && world[n].id == id.value && world[n].run == plan.run && world[n].role == plan.roles[n]
      ensures Base() == old(Base())
    {
      var there := ContainerExists(n);
      if !there { return None; }
      var run := RunLabel(n);
      if run != Some(plan.run) { return None; }
      var role := RoleLabel(n);
      if role != Some(plan.roles[n]) { return None; }
      id := ContainerId(n);
    }

    /** State, networks and isolation of one container of `validate_topology`. */
    method InspectState(n: Name) returns (found: Option<Container>)
      requires Guarded(Record(), trace)
      modifies `world, `clock, `trace
      ensures old(trace) <= trace && Passive(trace[|old(trace)|..])
      ensures Quiet(oracle) ==> Calm(old(world), world)
      ensures found.Some? && Quiet(oracle) && Undisturbed(old(world)) ==>
                n in world && world[n].running && !world[n].signalled && world[n].networks == {plan.network}
      ensures Base() == old(Base())
    {
      found := Inspect(n);
      if found.None? || !found.value.running { return None; }
      found := Inspect(n);
      if found.None? || found.value.networks != {plan.network} { return None; }
      if !oracle.Approves(clock) { return None; }
    }

    /** One container of `validate_topology`. */
    method ValidateContainer(n: Name) returns (ok: bool)
      requires n in plan.roles && Passive(trace)
      modifies this
      ensures Passive(trace) && networkId == old(networkId) && Base() == old(Base())
      ensures ok ==> n in owned && owned == old(owned)[n := owned[n]]
      ensures Quiet(oracle) ==> Calm(old(world), world)
      ensures ok && Quiet(oracle) && Undisturbed(old(world)) ==> Up(Record(), world, n)
    {
      ghost var t0, w0 := trace, world;
      var id := Identify(n);
      ghost var t1, w1 := trace, world;
      PassiveAll(t0, t1);
      if id.None? { return false; }
      owned := owned[n := id.value];
      PassiveSafe(Record(), trace);
      var found := InspectState(n);
      PassiveAll(t1, trace);
      if Quiet(oracle) { CalmTransitive(w0, w1, world); }
      if found.None? { return false; }
      if plan.roles[n] == Postgres {
        if !oracle.Approves(clock) { return false; }
        address := found.value.address;
      }
      ok := true;
    }

    /** `validate_topology`: records every container, and finds each of them up. */
    method ValidateTopology() returns (ok: bool)
      requires plan.Valid() && trace == [] && owned == map[]
      modifies this
      ensures Passive(trace) && Base() == old(Base())
      ensures ok ==> networkId.Some? && forall n :: n in plan.roles ==> n in owned
      ensures ok && Quiet(oracle) && Undisturbed(old(world)) ==> Topology(Record(), world)
    {
      if oracle.Network(clock).None? || !oracle.Approves(clock) { return false; }
      networkId := Some(oracle.Network(clock).value.0);
      for i := 0 to |plan.names|
        invariant Passive(trace) && networkId.Some? && Base() == old(Base())
        invariant forall j :: 0 <= j < i ==> plan.names[j] in owned
        invariant Quiet(oracle) && Undisturbed(old(world)) ==> Undisturbed(world) && AllUp(Record(), world, plan.names[..i])
      {
        ghost var o, w := Record(), world;
        ok := ValidateContainer(plan.names[i]);
        if !ok { return; }
        OwnedGrows(o.ids, owned, plan.names, i);
        if Quiet(oracle) && Undisturbed(old(world)) { UpGrows(o, Record(), w, world, plan.names, i); }
      }
      ok := true;
      if Quiet(oracle) && Undisturbed(old(world)) { AllUpIsTopology(Record(), world); }
    }

    /** One container of `cleanup`: still the recorded one, gone, or changed. A container that is gone
        is no error. */
    method CleanupCheck(n: Name) returns (ours: bool, changed: bool)
      requires n in owned && n in plan.roles
      modifies `world, `clock, `trace
      ensures CheckedOne(Record(), oracle.Fails(old(clock) + 1), world, old(trace), trace, n, ours, changed)
      ensures clock == old(clock) + |trace| - |old(trace)|
      ensures Quiet(oracle) ==> Calm(old(world), world)
    {
      var there;
      there, ours := CheckOwnership(n);
      changed := there && !ours;
    }

    /** Container number `i`: removable, changed, or passed over. */
    method CheckNext(i: nat, removable: seq<Name>, clean: bool, ghost c0: nat, ghost w0: World, ghost from: nat) returns (more: seq<Name>, still: bool)
      requires plan.Valid() && i < |plan.names| && plan.names[i] in owned && clock == c0 + |trace| - from
      requires Checked(Record(), oracle, c0, w0, trace, from, i + 1, removable, clean) && (Quiet(oracle) ==> Calm(w0, world))
      modifies `world, `clock, `trace
      ensures old(trace) <= trace && clock == c0 + |trace| - from
      ensures Checked(Record(), oracle, c0, w0, trace, from, i, more, still) && (Quiet(oracle) ==> Calm(w0, world))
    {
      ghost var o, t, w, at := Record(), trace, world, clock + 1;
      var n := plan.names[i];
      var ours, changed := CleanupCheck(n);
      if Quiet(oracle) { CalmTransitive(w0, w, world); }
      CheckedGrows(o, oracle, c0, w0, world, t, trace, from, i, removable, clean, ours, changed, at);
      more, still := if ours then removable + [n] else removable, clean && !changed;
    }

    method VerifyRemovable() returns (removable: seq<Name>, clean: bool)
      requires plan.Valid() && forall n :: n in plan.roles ==> n in owned
      modifies `world, `clock, `trace
      ensures old(trace) <= trace && Checked(Record(), oracle, old(clock), old(world), trace, |old(trace)|, 0, removable, clean)
      ensures Base() == old(Base())
      ensures Quiet(oracle) ==> Calm(old(world), world)
    {
      removable, clean := [], true;
      for i := |plan.names| downto 0
        invariant old(trace) <= trace && clock == old(clock) + |trace| - |old(trace)|
        invariant Checked(Record(), oracle, old(clock), old(world), trace, |old(trace)|, i, removable, clean)
        invariant Quiet(oracle) ==> Calm(old(world), world)
      {
        removable, clean := CheckNext(i, removable, clean, old(clock), old(world), |old(trace)|);
      }
    }

    method RemoveContainers(removable: seq<Name>, ghost from: nat) returns (ok: bool)
      requires from <= |trace| && Tidy(Record(), networkId, trace, from) && Passive(trace[from..])
      requires forall n :: n in removable ==> VerifiedSince(Record(), trace, from, n)
      modifies `world, `clock, `trace
      ensures old(trace) <= trace && Tidy(Record(), networkId, trace, from) && Passive(trace[from..])
      ensures forall i :: |old(trace)| <= i < |trace| ==> !trace[i].Exists?
      ensures ok && Quiet(oracle) ==> forall n :: n in world <==> n in old(world) && n !in removable
      ensures Base() == old(Base())
    {
      Tick();
      ok := !oracle.Fails(clock);
      if ok || !oracle.Loses(clock) { world := world - set n | n in removable; }
      Note(RemovedContainers(removable, ok), from);
    }

    /** Adds an event of the cleanup to the history. */
    method Note(e: Event, ghost from: nat)
      requires from <= |trace| && Tidy(Record(), networkId, trace, from) && Passive(trace[from..])
      requires !IsAction(e) && MayRemove(Record(), networkId, trace, from, e)
      modifies `trace
      ensures trace == old(trace) + [e] && Tidy(Record(), networkId, trace, from) && Passive(trace[from..])
    {
      TidyGrows(Record(), networkId, trace, from, e);
      PassiveStep(trace[..from], trace, e);
      trace := trace + [e];
    }

    method NetworkRead() returns (read: Option<(nat, nat)>)
      modifies `world, `clock
      ensures Quiet(oracle) ==> Calm(old(world), world)
      ensures clock == old(clock) + 1 && read == if oracle.Fails(clock) then None else oracle.Network(clock)
    {
      Tick();
      read := if oracle.Fails(clock) then None else oracle.Network(clock);
    }

    /** Label and identity of the network. */
    method ReadNetwork(ghost from: nat) returns (same: bool)
      requires networkId.Some? && from <= |trace| && Tidy(Record(), networkId, trace, from) && Passive(trace[from..])
      modifies `world, `clock, `trace
      ensures old(trace) <= trace && Tidy(Record(), networkId, trace, from) && Passive(trace[from..])
      ensures same ==> trace == old(trace) + [ReadNetworkRun(Some(plan.run)), ReadNetworkId(networkId)]
      ensures forall i :: |old(trace)| <= i < |trace| ==> !trace[i].Exists?
      ensures Quiet(oracle) ==> world.Keys == old(world).Keys
      ensures Base() == old(Base())
    {
      var labels := NetworkRead();
      var run := if labels.None? then None else Some(labels.value.1);
      Note(ReadNetworkRun(run), from);
      if run.None? { return false; }
      var identity := NetworkRead();
      var id := if identity.None? then None else Some(identity.value.0);
      Note(ReadNetworkId(id), from);
      same := run == Some(plan.run) && id == networkId;
    }

    /** A network that is gone is no error. */
    method CleanupNetwork(ghost from: nat) returns (ok: bool)
      requires networkId.Some? && from <= |trace| && Tidy(Record(), networkId, trace, from) && Passive(trace[from..])
      modifies `world, `clock, `trace
      ensures old(trace) <= trace && Tidy(Record(), networkId, trace, from) && Passive(trace[from..])
      ensures forall i :: |old(trace)| <= i < |trace| ==> !trace[i].Exists?
      ensures Quiet(oracle) ==> world.Keys == old(world).Keys
      ensures Base() == old(Base())
      ensures Mute(oracle) ==> ok
    {
      var there := NetworkRead();
      Note(Inspected, from);
      if there.None? { return true; }
      ok := ReadNetwork(from);
      if !ok { return; }
      Tick();
      ok := !oracle.Fails(clock);
      Note(RemovedNetwork(ok), from);
    }

    /** The containers: check them all, and remove those that are still the recorded ones. */
    method CleanupContainers() returns (ok: bool)
      requires plan.Valid() && forall n :: n in plan.roles ==> n in owned
      modifies `world, `clock, `trace
      ensures old(trace) <= trace && Tidy(Record(), networkId, trace, |old(trace)|) && Passive(trace[|old(trace)|..])
      ensures Base() == old(Base())
      ensures Quiet(oracle) ==> Excused(oracle, old(clock), old(world), trace, |old(trace)|)
      ensures ok && Quiet(oracle) ==> Leaves(plan, old(world), world, trace, |old(trace)|)
      ensures Mute(oracle) ==> ok && (Quiet(oracle) ==> world.Keys == old(world).Keys)
    {
      ghost var o, t0, w0 := Record(), trace, world;
      var removable;
      removable, ok := VerifyRemovable();
      ghost var t1 := trace;
      NoActionsButReadings(t0, t1);
      if ok { SortedLeaves(o.plan, removable, t1, |t0|); }
      if removable != [] {
        var removed := RemoveContainers(removable, |t0|);
        ok := ok && removed;
        forall n ensures Skipped(trace, |t0|, n) <==> Skipped(t1, |t0|, n) { SkippedStays(t1, trace, |t0|, n); }
        if Quiet(oracle) { ExcusedStays(oracle, old(clock), w0, t1, trace, |t0|); }
      }
    }

    /** `cleanup`: removes only what it verified, whatever the run did. If it succeeds with nothing else
        acting, the containers left are those whose existence probe answered no, and that is all of
        them if Docker answers nothing. */
    method Cleanup() returns (ok: bool)
      requires plan.Valid() && Safe(Record(), trace) && networkId.Some? && forall n :: n in plan.roles ==> n in owned
      modifies `world, `clock, `trace
      ensures Extends(old(trace), trace) && Safe(Record(), trace) && Tidy(Record(), networkId, trace, |old(trace)|)
      ensures Base() == old(Base())
      ensures ok && Quiet(oracle) ==> Leaves(plan, old(world), world, trace, |old(trace)|)
      ensures ok && Quiet(oracle) && ProbesAnswered(oracle, old(clock), trace, |old(trace)|) ==> forall n :: n in plan.roles ==> n !in world
      ensures Mute(oracle) ==> ok && (Quiet(oracle) ==> world.Keys == old(world).Keys)
    {
      ghost var o, t0, w0 := Record(), trace, world;
      ok := CleanupContainers();
      ghost var t1, w1 := trace, world;
      var removed := CleanupNetwork(|t0|);
      if ok && removed && Quiet(oracle) { LeavesStays(oracle, old(clock), plan, w0, w1, world, t1, trace, |t0|); }
      ok := ok && removed;
      CleanupSafe(o, t0, trace);
    }

    /** `run` up to its cleanup: if all scenarios succeed with nothing else acting, the topology that was
        validated is the topology that is left. */
    method Perform() returns (validated: bool, captures: Option<seq<Capture>>)
      requires plan.Valid() && trace == [] && owned == map[]
      modifies this
      ensures Safe(Record(), trace) && Base() == old(Base())
      ensures Quiet(oracle) && Undisturbed(old(world)) ==> Answering()
      ensures validated ==> networkId.Some? && forall n :: n in plan.roles ==> n in owned
      ensures captures.Some? ==> validated && AllCaptured(captures.value, SCENARIOS)
      ensures captures.Some? && Quiet(oracle) && Undisturbed(old(world)) ==> Topology(Record(), world)
    {
      validated := ValidateTopology();
      PassiveSafe(Record(), trace);
      PassiveResolved(Record(), oracle, Base(), trace);
      if !validated { return false, None; }
      captures := RunScenarios(SCENARIOS);
    }

    /** `run`: captures come back only if every scenario and the cleanup succeeded; the history is safe
        however the run ends. With nothing else acting, every acknowledged disconnect is followed by a
        reconnect unless a command of the check before it failed. */
    method Run() returns (captures: Option<seq<Capture>>, ghost swept: nat, ghost cleaned: bool)
      requires plan.Valid() && trace == [] && owned == map[]
      modifies this
      ensures captures.Some? ==> cleaned && AllCaptured(captures.value, SCENARIOS)
      ensures Safe(Record(), trace) && swept <= |trace| && Tidy(Record(), networkId, trace, swept)
      ensures Base() == old(Base())
      ensures Quiet(oracle) && Undisturbed(old(world)) ==> Answering()
      ensures cleaned && Quiet(oracle) ==> forall n :: n in plan.roles && n in world ==> Skipped(trace, swept, n)
    {
      var validated;
      validated, captures := Perform();
      swept, cleaned := |trace|, false;
      if !validated { return None, swept, false; }
      ghost var t1 := trace;
      var ok := Cleanup();
      ExtendsResolved(Record(), oracle, Base(), t1, trace);
      cleaned := ok;
      if !ok { captures := None; }
    }
  }

  /** Since `before` exactly one container was probed for existence, first, with this answer. */
  ghost predicate ProbesOnly(before: seq<Event>, after: seq<Event>, n: Name, there: bool) {
    && before < after && after[|before|] == Exists(n, there)
    && forall i :: |before| < i < |after| ==> !after[i].Exists?
  }

  lemma ProbesExtend(a: seq<Event>, b: seq<Event>, c: seq<Event>, n: Name, there: bool)
    requires ProbesOnly(a, b, n, there) && b <= c && forall i :: |b| <= i < |c| ==> !c[i].Exists?
    ensures ProbesOnly(a, c, n, there)
  {
    forall i | |a| < i < |c| ensures !c[i].Exists? { if i < |b| { assert c[i] == b[i]; } }
  }

  lemma FourReadings(o: Owned, a: seq<Event>, b: seq<Event>, c: seq<Event>, n: Name)
    requires n in o.ids && n in o.plan.roles
    requires b == a + [Exists(n, true), ReadId(n, Some(o.ids[n]))]
    requires c == b + [ReadRun(n, Some(o.plan.run)), ReadRole(n, Some(o.plan.roles[n]))]
    ensures |c| == |a| + 4 && JustVerified(o, c, n)
  {
    assert c[|c| - 4..] == Readings(o, n);
  }

  /** Since `from`, `n` was probed and reported missing. */
  ghost predicate Skipped(trace: seq<Event>, from: nat, n: Name) {
    exists i :: from <= i < |trace| && trace[i] == Exists(n, false)
  }

  /** No existence probe since `from` failed; each event since then was one command. */
  ghost predicate ProbesAnswered(oracle: Oracle, clock: nat, trace: seq<Event>, from: nat) {
    forall i :: from <= i < |trace| && trace[i].Exists? ==> !oracle.Fails(clock + 1 + i - from)
  }

  /** A container reported missing is missing, or its probe failed. */
  ghost predicate Excused(oracle: Oracle, clock: nat, w: World, trace: seq<Event>, from: nat) {
    forall i :: from <= i < |trace| && trace[i].Exists? && !trace[i].there ==> trace[i].name !in w || oracle.Fails(clock + 1 + i - from)
  }

  /** From `i` on, the names are removable exactly if not reported missing; the others were not seen. */
  ghost predicate Sorted(names: seq<Name>, i: nat, removable: seq<Name>, trace: seq<Event>, from: nat) {
    && (forall j :: i <= j < |names| ==> (names[j] in removable <==> !Skipped(trace, from, names[j])))
    && (forall j :: 0 <= j < i && j < |names| ==> names[j] !in removable && !Skipped(trace, from, names[j]))
  }

  /** The containers of the plan that are left: there before, and reported missing. */
  ghost predicate Leaves(plan: Plan, before: World, after: World, trace: seq<Event>, from: nat) {
    forall n :: n in plan.roles ==> (n in after <==> n in before && Skipped(trace, from, n))
  }

  /** One container was checked: still ours, changed, or reported missing, which is so if the first
      command failed, and only then or if it is missing. */
  ghost predicate CheckedOne(o: Owned, failed: bool, now: World, a: seq<Event>, b: seq<Event>, n: Name, ours: bool, changed: bool) {
    && a < b && OnlyReadings(b[|a|..]) && ProbesOnly(a, b, n, ours || changed)
    && (ours ==> !changed && |b| >= |a| + 4 && JustVerified(o, b, n))
    && (changed ==> Mismatch(o, b[|b| - 1], n))
    && (failed ==> !ours && !changed)
    && (!ours && !changed ==> n !in now || failed)
  }

  /** The containers from number `i` on have been checked. */
  ghost predicate Checked(o: Owned, oracle: Oracle, clock: nat, w: World, trace: seq<Event>, from: nat, i: nat, removable: seq<Name>, clean: bool) {
    && from <= |trace| && OnlyReadings(trace[from..])
    && (forall n :: n in removable ==> VerifiedSince(o, trace, from, n))
    && (Quiet(oracle) ==> Excused(oracle, clock, w, trace, from))
    && (Mute(oracle) ==> clean && removable == [])
    && (clean ==> Sorted(o.plan.names, i, removable, trace, from))
  }

  lemma CheckedGrows(o: Owned, oracle: Oracle, clock: nat, w: World, now: World, a: seq<Event>, b: seq<Event>, from: nat, i: nat,
                     removable: seq<Name>, clean: bool, ours: bool, changed: bool, at: nat)
    requires o.plan.Valid() && i < |o.plan.names| && Checked(o, oracle, clock, w, a, from, i + 1, removable, clean)
    requires CheckedOne(o, oracle.Fails(at), now, a, b, o.plan.names[i], ours, changed) && at == clock + 1 + |a| - from
    requires Quiet(oracle) ==> w.Keys == now.Keys
    ensures Checked(o, oracle, clock, w, b, from, i, if ours then removable + [o.plan.names[i]] else removable, clean && !changed)
  {
    var n := o.plan.names[i];
    ReadingsJoin(a[..from], a, b);
    forall m | m in removable ensures VerifiedSince(o, b, from, m) { VerifiedStays(o, a, b, from, m); }
    if ours { VerifiedNow(o, b, from, n); }
    if Quiet(oracle) { ExcusedGrows(oracle, clock, w, a, b, from, n, ours || changed); }
    if clean && !changed {
      SortedGrows(o.plan.names, i, removable, if ours then removable + [n] else removable, a, b, from, ours);
    }
  }

  lemma SortedLeaves(plan: Plan, removable: seq<Name>, trace: seq<Event>, from: nat)
    requires plan.Valid() && Sorted(plan.names, 0, removable, trace, from)
    ensures forall n :: n in plan.roles ==> (n in removable <==> !Skipped(trace, from, n))
  {
    forall n | n in plan.roles ensures n in removable <==> !Skipped(trace, from, n) {
      var j :| 0 <= j < |plan.names| && plan.names[j] == n;
    }
  }

  lemma LeavesStays(oracle: Oracle, clock: nat, plan: Plan, before: World, w: World, after: World, a: seq<Event>, b: seq<Event>, from: nat)
    requires Leaves(plan, before, w, a, from) && Excused(oracle, clock, before, a, from) && w.Keys == after.Keys
    requires from <= |a| && a <= b && forall i :: |a| <= i < |b| ==> !b[i].Exists?
    ensures Leaves(plan, before, after, b, from)
    ensures ProbesAnswered(oracle, clock, b, from) ==> forall n :: n in plan.roles ==> n !in after
  {
    forall n ensures Skipped(b, from, n) <==> Skipped(a, from, n) { SkippedStays(a, b, from, n); }
    if ProbesAnswered(oracle, clock, b, from) {
      forall n | n in plan.roles ensures n !in after {
        if i :| from <= i < |a| && a[i] == Exists(n, false) { assert b[i] == a[i]; }
      }
    }
  }

  lemma SkippedGrows(a: seq<Event>, b: seq<Event>, from: nat, n: Name, there: bool, m: Name)
    requires from <= |a| && ProbesOnly(a, b, n, there)
    ensures Skipped(b, from, m) <==> Skipped(a, from, m) || (m == n && !there)
  {
    if i :| from <= i < |b| && b[i] == Exists(m, false) {
      if i < |a| { assert a[i] == Exists(m, false); }
    }
    if i :| from <= i < |a| && a[i] == Exists(m, false) { assert b[i] == Exists(m, false); }
  }

  lemma SkippedStays(a: seq<Event>, b: seq<Event>, from: nat, m: Name)
    requires from <= |a| && a <= b && forall i :: |a| <= i < |b| ==> !b[i].Exists?
    ensures Skipped(b, from, m) <==> Skipped(a, from, m)
  {
    if i :| from <= i < |b| && b[i] == Exists(m, false) { assert a[i] == Exists(m, false); }
    if i :| from <= i < |a| && a[i] == Exists(m, false) { assert b[i] == Exists(m, false); }
  }

  lemma SortedGrows(names: seq<Name>, i: nat, r: seq<Name>, s: seq<Name>, a: seq<Event>, b: seq<Event>, from: nat, ours: bool)
    requires i < |names| && forall j, k :: 0 <= j < k < |names| ==> names[j] != names[k]
    requires from <= |a| && ProbesOnly(a, b, names[i], ours) && s == if ours then r + [names[i]] else r
    requires Sorted(names, i + 1, r, a, from)
    ensures Sorted(names, i, s, b, from)
  {
    forall j | 0 <= j < |names|
      ensures names[j] in s <==> names[j] in r || (j == i && ours)
      ensures Skipped(b, from, names[j]) <==> Skipped(a, from, names[j]) || (j == i && !ours)
    {
      SkippedGrows(a, b, from, names[i], ours, names[j]);
    }
  }

  lemma ExcusedGrows(oracle: Oracle, clock: nat, w: World, a: seq<Event>, b: seq<Event>, from: nat, n: Name, there: bool)
    requires from <= |a| && ProbesOnly(a, b, n, there) && Excused(oracle, clock, w, a, from)
    requires !there ==> n !in w || oracle.Fails(clock + 1 + |a| - from)
    ensures Excused(oracle, clock, w, b, from)
  {
    forall i | from <= i < |b| && b[i].Exists? && !b[i].there ensures b[i].name !in w || oracle.Fails(clock + 1 + i - from) {
      if i < |a| { assert a[i] == b[i]; }
    }
  }

  lemma ExcusedStays(oracle: Oracle, clock: nat, w: World, a: seq<Event>, b: seq<Event>, from: nat)
    requires from <= |a| && a <= b && Excused(oracle, clock, w, a, from) && forall i :: |a| <= i < |b| ==> !b[i].Exists?
    ensures Excused(oracle, clock, w, b, from)
  {
    forall i | from <= i < |b| && b[i].Exists? && !b[i].there ensures b[i].name !in w || oracle.Fails(clock + 1 + i - from) {
      assert a[i] == b[i];
    }
  }

  /** An event that answers a disconnect: a reconnect to the recorded address, or a failed reading of the
      check before it. */
  predicate Resolves(o: Owned, oracle: Oracle, base: int, trace: seq<Event>, j: nat)
    requires j < |trace|
  {
    || (trace[j].Connected? && trace[j].name == o.plan.postgres && trace[j].address == o.address)
    || (Mismatch(o, trace[j], o.plan.postgres) && base + j + 1 >= 0 && oracle.Fails(base + j + 1))
  }

  ghost predicate ResolvedAfter(o: Owned, oracle: Oracle, base: int, trace: seq<Event>, i: nat) {
    exists j :: i < j < |trace| && Resolves(o, oracle, base, trace, j)
  }

  /** Every acknowledged disconnect is answered. */
  ghost predicate Resolved(o: Owned, oracle: Oracle, base: int, trace: seq<Event>) {
    forall i: nat {:trigger ResolvedAfter(o, oracle, base, trace, i)} ::
      i < |trace| && IsCut(trace[i]) ==> ResolvedAfter(o, oracle, base, trace, i)
  }

  lemma PassiveResolved(o: Owned, oracle: Oracle, base: int, trace: seq<Event>)
    requires Passive(trace)
    ensures Resolved(o, oracle, base, trace)
  {}

  lemma ResolvedStays(o: Owned, oracle: Oracle, base: int, a: seq<Event>, b: seq<Event>, i: nat)
    requires a <= b && ResolvedAfter(o, oracle, base, a, i)
    ensures ResolvedAfter(o, oracle, base, b, i)
  {
    var j :| i < j < |a| && Resolves(o, oracle, base, a, j);
    assert a[j] == b[j] && Resolves(o, oracle, base, b, j);
  }

  lemma ExtendsResolved(o: Owned, oracle: Oracle, base: int, a: seq<Event>, b: seq<Event>)
    requires Extends(a, b)
    ensures Resolved(o, oracle, base, a) ==> Resolved(o, oracle, base, b)
  {
    if Resolved(o, oracle, base, a) {
      forall i: nat | i < |b| && IsCut(b[i]) ensures ResolvedAfter(o, oracle, base, b, i) {
        assert a[i] == b[i] && ResolvedAfter(o, oracle, base, a, i);
        ResolvedStays(o, oracle, base, a, b, i);
      }
    }
  }

  /** A partition answers its own disconnect. */
  lemma PartitionResolved(o: Owned, oracle: Oracle, base: int, before: seq<Event>, severed: seq<Event>, after: seq<Event>,
                          verified: bool, rechecked: bool, connected: bool)
    requires CutStep(o, before, severed, verified, severed != after)
    requires severed == after || RestoreStep(o, severed, after, rechecked, connected)
    requires severed != after && !rechecked ==> base + |after| >= 0 && oracle.Fails(base + |after|)
    ensures Resolved(o, oracle, base, before) ==> Resolved(o, oracle, base, after)
  {
    if severed == after {
      assert Extends(before, after);
      ExtendsResolved(o, oracle, base, before, after);
    } else if Resolved(o, oracle, base, before) {
      assert before <= after;
      assert Resolves(o, oracle, base, after, |after| - 1);
      forall i: nat | i < |after| && IsCut(after[i]) ensures ResolvedAfter(o, oracle, base, after, i) {
        if i < |before| {
          assert before[i] == after[i] && ResolvedAfter(o, oracle, base, before, i);
          ResolvedStays(o, oracle, base, before, after, i);
        } else {
          CutIsLast(o, before, severed, after, rechecked, connected, i);
        }
      }
    }
  }

  lemma CutIsLast(o: Owned, before: seq<Event>, severed: seq<Event>, after: seq<Event>, rechecked: bool, connected: bool, i: nat)
    requires CutStep(o, before, severed, true, true) && RestoreStep(o, severed, after, rechecked, connected)
    requires |before| <= i < |after| && IsCut(after[i])
    ensures i < |after| - 1
  {
    if i < |severed| { assert after[i] == severed[i]; }
  }

  lemma FourAnswered(oracle: Oracle, clock: nat)
    ensures Answered(oracle, clock, 4) <==>
            !oracle.Fails(clock + 1) && !oracle.Fails(clock + 2) && !oracle.Fails(clock + 3) && !oracle.Fails(clock + 4)
  {}

  /** A check from command `at` on and the reconnect after it, up to command `clock`. */
  ghost predicate RecheckAt(oracle: Oracle, at: nat, clock: nat, rechecked: bool, connected: bool) {
    && (rechecked <==> Answered(oracle, at, 4)) && (!rechecked ==> oracle.Fails(clock))
    && (rechecked ==> clock == at + 5 && (connected <==> !oracle.Fails(clock)))
  }

  /** What the flags of a partition say in terms of the commands that fail. */
  lemma AttachedExact(oracle: Oracle, clock: nat, at: nat, end: nat, verified: bool, cut: bool, rechecked: bool, connected: bool)
    requires (verified <==> Answered(oracle, clock, 4)) && (cut <==> verified && !oracle.Fails(clock + 5))
    requires verified && !cut ==> end == clock + 5
    requires cut ==> RecheckAt(oracle, at, end, rechecked, connected)
    ensures cut <==> Answered(oracle, clock, 5)
    ensures StaysAttached(oracle, clock, at) <==>
            if !cut then !(verified && !oracle.Loses(end)) else rechecked && (connected || !oracle.Loses(end))
  {}

  lemma DriverStands(o: Owned, w: World, x: Name)
    requires Reattaching(o, w, x) && o.plan.driver in o.plan.roles
    ensures Standing(o, w, o.plan.driver)
  {
    if o.plan.driver != x { assert Up(o, w, o.plan.driver); }
  }

  ghost predicate AllUp(o: Owned, w: World, names: seq<Name>) {
    forall j :: 0 <= j < |names| ==> Up(o, w, names[j])
  }

  lemma OwnedGrows(ids: map<Name, nat>, more: map<Name, nat>, names: seq<Name>, i: nat)
    requires i < |names| && names[i] in more && more == ids[names[i] := more[names[i]]]
    requires forall j :: 0 <= j < i ==> names[j] in ids
    ensures forall j :: 0 <= j < i + 1 ==> names[j] in more
  {}

  lemma UpGrows(o: Owned, p: Owned, w: World, x: World, names: seq<Name>, i: nat)
    requires i < |names| && forall j :: 0 <= j < i ==> names[j] != names[i]
    requires p.plan == o.plan && names[i] in p.ids && p.ids == o.ids[names[i] := p.ids[names[i]]]
    requires Calm(w, x) && Undisturbed(w) && AllUp(o, w, names[..i]) && Up(p, x, names[i])
    ensures Undisturbed(x) && AllUp(p, x, names[..i + 1])
  {
    forall j | 0 <= j < i ensures Up(p, x, names[j]) { assert Up(o, w, names[..i][j]); }
  }

  lemma AllUpIsTopology(o: Owned, w: World)
    requires o.plan.Valid() && AllUp(o, w, o.plan.names[..|o.plan.names|])
    ensures Topology(o, w)
  {
    assert o.plan.names[..|o.plan.names|] == o.plan.names;
    forall n | n in o.plan.roles ensures Up(o, w, n) {
      var j :| 0 <= j < |o.plan.names| && o.plan.names[j] == n;
    }
  }

  lemma PassiveAll(a: seq<Event>, b: seq<Event>)
    requires a <= b && Passive(a) && Passive(b[|a|..])
    ensures Passive(b)
  {
    assert b == a + b[|a|..];
  }

  lemma CleanupSafe(o: Owned, a: seq<Event>, b: seq<Event>)
    requires Safe(o, a) && a <= b && Passive(b[|a|..])
    ensures Safe(o, b) && Extends(a, b)
  {
    assert b == a + b[|a|..];
    GuardedGrows(o, a, b[|a|..]);
    NoActionsIn(a, b);
    ExtendsSettled(o, a, b);
  }

  lemma PassiveStep(a: seq<Event>, b: seq<Event>, e: Event)
    requires a <= b && Passive(b[|a|..]) && !IsAction(e)
    ensures a <= b + [e] && Passive((b + [e])[|a|..])
  {
    assert (b + [e])[|a|..] == b[|a|..] + [e];
  }

  lemma NoActionsButReadings(a: seq<Event>, b: seq<Event>)
    requires a <= b && OnlyReadings(b[|a|..])
    ensures forall i :: |a| <= i < |b| ==> !b[i].RemovedContainers? && !b[i].RemovedNetwork?
  {
    forall i | |a| <= i < |b| ensures !b[i].RemovedContainers? && !b[i].RemovedNetwork? { assert b[i] == b[|a|..][i - |a|]; }
  }

  lemma ReadingsJoin(a: seq<Event>, b: seq<Event>, c: seq<Event>)
    requires a <= b <= c && OnlyReadings(b[|a|..]) && OnlyReadings(c[|b|..])
    ensures OnlyReadings(c[|a|..])
  {
    assert c[|a|..] == b[|a|..] + c[|b|..];
  }

  lemma VerifiedStays(o: Owned, a: seq<Event>, b: seq<Event>, from: nat, n: Name)
    requires VerifiedSince(o, a, from, n) && a <= b
    ensures VerifiedSince(o, b, from, n)
  {
    var k: nat :| from <= k && VerifiedAt(o, a, k, n);
    assert b[k..k + 4] == a[k..k + 4];
    assert VerifiedAt(o, b, k, n);
  }

  lemma VerifiedNow(o: Owned, trace: seq<Event>, from: nat, n: Name)
    requires JustVerified(o, trace, n) && from + 4 <= |trace|
    ensures VerifiedSince(o, trace, from, n)
  {
    var k := |trace| - 4;
    assert trace[k..k + 4] == trace[k..];
    assert VerifiedAt(o, trace, k, n);
  }

  lemma TidyGrows(o: Owned, network: Option<nat>, trace: seq<Event>, from: nat, e: Event)
    requires Tidy(o, network, trace, from) && from <= |trace| && MayRemove(o, network, trace, from, e)
    ensures Tidy(o, network, trace + [e], from)
  {
    var all := trace + [e];
    forall i | from <= i < |all| ensures MayRemove(o, network, all[..i], from, all[i]) {
      if i < |trace| { assert all[..i] == trace[..i]; } else { assert all[..i] == trace; }
    }
  }

  /** The capture of a scenario, with exactly its required assertions. */
  ghost predicate Captures(c: Capture, s: Scenario) {
    c.scenario == s && Complete(c.assertions, RequiredAssertions(s))
  }

  /** One capture per scenario, in order. */
  ghost predicate AllCaptured(captures: seq<Capture>, scenarios: seq<Scenario>) {
    |captures| == |scenarios| && forall i :: 0 <= i < |captures| ==> Captures(captures[i], scenarios[i])
  }

  lemma CapturedGrows(done: seq<Capture>, scenarios: seq<Scenario>, i: nat, c: Capture)
    requires i < |scenarios| && AllCaptured(done, scenarios[..i]) && Captures(c, scenarios[i])
    ensures AllCaptured(done + [c], scenarios[..i + 1])
  {
    forall j | 0 <= j <= i ensures Captures((done + [c])[j], scenarios[..i + 1][j]) {
      if j < i { assert Captures(done[j], scenarios[..i][j]); }
    }
  }

  lemma NoActionsIn(a: seq<Event>, b: seq<Event>)
    requires a <= b && Passive(b[|a|..])
    ensures forall i :: |a| <= i < |b| ==> !IsAction(b[i])
  {
    forall i | |a| <= i < |b| ensures !IsAction(b[i]) { assert b[i] == b[|a|..][i - |a|]; }
  }

  /** What a partition adds to the history: the database is reconnected exactly when the disconnect was
      acknowledged and the container was verified again; if it was not, the history ends with the
      reading that shows why. */
  ghost predicate ReconnectsExactly(o: Owned, before: seq<Event>, after: seq<Event>, cut: bool, rechecked: bool) {
    && before <= after
    && (cut <==> exists i :: |before| <= i < |after| && after[i] == Disconnected(o.plan.postgres, true))
    && ((exists i :: |before| <= i < |after| && after[i].Connected?) <==> cut && rechecked)
    && (cut && rechecked ==> after != [] && exists ok :: after[|after| - 1] == Connected(o.plan.postgres, o.address, ok))
    && (cut && !rechecked ==> after != [] && Mismatch(o, after[|after| - 1], o.plan.postgres))
  }

  /** The database was verified and disconnected with answer `ok`, or not verified. */
  ghost predicate CutStep(o: Owned, before: seq<Event>, after: seq<Event>, verified: bool, ok: bool) {
    && before < after && (forall i :: |before| <= i < |after| - 1 ==> !IsAction(after[i])) && (ok ==> verified)
    && if verified then after[|after| - 1] == Disconnected(o.plan.postgres, ok) else Mismatch(o, after[|after| - 1], o.plan.postgres)
  }

  /** The outage was observed, and the database verified again and reconnected, or not verified. */
  ghost predicate RestoreStep(o: Owned, before: seq<Event>, after: seq<Event>, rechecked: bool, connected: bool) {
    && Extends(before, after) && before < after && (forall i :: |before| <= i < |after| - 1 ==> !after[i].Connected?)
    && if rechecked then after[|after| - 1] == Connected(o.plan.postgres, o.address, connected)
       else Mismatch(o, after[|after| - 1], o.plan.postgres)
  }

  /** A disconnect that was not issued or reported as failed is not followed by a reconnect. */
  lemma UncutHistory(o: Owned, before: seq<Event>, after: seq<Event>, verified: bool)
    requires Settled(o, before) && CutStep(o, before, after, verified, false)
    ensures Settled(o, after) && ReconnectsExactly(o, before, after, false, false)
  {
    assert Extends(before, after);
    ExtendsSettled(o, before, after);
  }

  lemma CutHistory(o: Owned, before: seq<Event>, cut: seq<Event>, after: seq<Event>, rechecked: bool, connected: bool)
    requires Settled(o, before) && CutStep(o, before, cut, true, true) && RestoreStep(o, cut, after, rechecked, connected)
    ensures Settled(o, after) && ReconnectsExactly(o, before, after, true, rechecked)
  {
    var t1 := cut[..|cut| - 1];
    assert forall i :: |before| <= i < |t1| ==> !IsAction(t1[i]);
    ExtendsSettled(o, before, t1);
    assert after[|t1|] == cut[|t1|] == Disconnected(o.plan.postgres, true);
    SettledCut(o, t1, after, |after| - 1);
    if !rechecked {
      forall i | |before| <= i < |after| ensures !after[i].Connected? {
        if i < |cut| { assert after[i] == cut[i]; }
      }
    }
  }

  /** The whole of it. */
  lemma PartitionHistory(o: Owned, before: seq<Event>, severed: seq<Event>, after: seq<Event>,
                         verified: bool, rechecked: bool, connected: bool)
    requires Settled(o, before) && CutStep(o, before, severed, verified, severed != after)
    requires severed == after ==> !rechecked
    requires severed == after || RestoreStep(o, severed, after, rechecked, connected)
    ensures Settled(o, after) && |after| > |before| && ReconnectsExactly(o, before, after, severed != after, rechecked)
  {
    if severed == after {
      UncutHistory(o, before, after, verified);
    } else {
      CutHistory(o, before, severed, after, rechecked, connected);
    }
  }

  lemma StillReattaching(a: World, b: World, n: Name)
    requires Calm(a, b)
    ensures forall o :: Reattaching(o, a, n) ==> Reattaching(o, b, n)
  {
    forall o | Reattaching(o, a, n) ensures Reattaching(o, b, n) { CalmKeeps(o, a, b, n); }
  }

  lemma StillReattachingBut(a: World, b: World, n: Name)
    requires CalmBut(a, b, n) && (n in a && a[n].running && !a[n].signalled ==> b[n].running && !b[n].signalled)
    ensures forall o :: Reattaching(o, a, n) ==> Reattaching(o, b, n)
  {
    forall o | Reattaching(o, a, n) ensures Reattaching(o, b, n) { CalmButKeeps(o, a, b, n); }
  }

  lemma AfterRestart(o: Owned, w0: World, w1: World, w2: World, w3: World, n: Name)
    requires Recovering(o, w0, n) && Calm(w0, w1) && CalmBut(w1, w2, n) && Calm(w2, w3)
    requires n in w1 ==> w2[n].networks == w1[n].networks && w2[n].running && !w2[n].signalled
    ensures Topology(o, w3)
  {
    CalmKeeps(o, w0, w1, n);
    CalmButKeeps(o, w1, w2, n);
    assert Topology(o, w2);
    CalmKeeps(o, w2, w3, n);
  }

  lemma AfterSignal(o: Owned, w0: World, w1: World, w2: World, n: Name)
    requires Topology(o, w0) && n in o.plan.roles && Calm(w0, w1) && CalmBut(w1, w2, n)
    requires n in w1 ==> w2[n].networks == w1[n].networks
    ensures Recovering(o, w2, n)
  {
    CalmKeeps(o, w0, w1, n);
    assert Up(o, w1, n);
    CalmButKeeps(o, w1, w2, n);
  }

  // ---------------------------------------------------------------- where it falls short

  const SAMPLE_PLAN := Plan(7, 1, map[0 := Api, 1 := Api, 2 := Postgres, 3 := Driver], [0, 1, 2, 3], [0, 1], 2, 3)

  function SampleContainer(n: Name): Container
    requires n in SAMPLE_PLAN.roles
  {
    Container(n, 7, SAMPLE_PLAN.roles[n], true, false, 0, {1}, 9)
  }

  const SAMPLE_WORLD := map n | n in SAMPLE_PLAN.roles :: SampleContainer(n)

  /** Nothing acts but the controller, nothing is lost, and only the commands in `failing` report failure. */
  function SampleOracle(failing: nat -> bool): Oracle {
    Oracle((_, w) => w, failing, _ => false, _ => false, _ => 0,
           _ => Document(false, Rotation, Verify, false, false, []), _ => true, _ => Some((5, 7)))
  }

  const SAMPLE_IDS := map n | n in SAMPLE_PLAN.roles :: n

  lemma SampleValid()
    ensures SAMPLE_PLAN.Valid()
  {
    var names := SAMPLE_PLAN.names;
    forall n ensures n in SAMPLE_PLAN.roles <==> n in names {
      assert n in names <==> n == names[0] || n == names[1] || n == names[2] || n == names[3];
    }
  }

  lemma SampleStands()
    ensures Topology(Owned(SAMPLE_PLAN, SAMPLE_IDS, 9), SAMPLE_WORLD)
  {
    forall n | n in SAMPLE_PLAN.roles ensures Up(Owned(SAMPLE_PLAN, SAMPLE_IDS, 9), SAMPLE_WORLD, n) {
      assert SAMPLE_WORLD[n] == SampleContainer(n) && SAMPLE_IDS[n] == n;
    }
  }

  lemma SampleQuiet(failing: nat -> bool)
    ensures Quiet(SampleOracle(failing))
  {
    var oracle := SampleOracle(failing);
    forall t, w ensures Calm(w, oracle.Env(t, w)) { assert oracle.Env(t, w) == w; }
  }

  method SampleController(failing: nat -> bool) returns (c: Controller)
    ensures c.plan == SAMPLE_PLAN && c.oracle == SampleOracle(failing)
    ensures c.world == SAMPLE_WORLD && c.clock == 0 && c.trace == [] && c.networkId == Some(5)
    ensures c.owned == SAMPLE_IDS && c.address == 9
    ensures fresh(c)
  {
    c := new Controller(SAMPLE_PLAN, SampleOracle(failing), SAMPLE_WORLD);
    c.owned, c.networkId, c.address := SAMPLE_IDS, Some(5), 9;
  }

  /** A disconnect that is carried out and reported as failed leaves the database off the network. */
  method UnacknowledgedCut() returns (c: Controller, ok: bool)
    ensures Quiet(c.oracle) && Topology(c.Record(), SAMPLE_WORLD) && !ok
    ensures c.plan.postgres in c.world && c.plan.network !in c.world[c.plan.postgres].networks
    ensures c.trace != [] && c.trace[|c.trace| - 1] == Disconnected(c.plan.postgres, false)
    ensures forall i :: 0 <= i < |c.trace| ==> !c.trace[i].Connected?
  {
    c := SampleController(t => t == 5);
    ghost var cut, rechecked, at;
    SampleStands();
    SampleQuiet(t => t == 5);
    PassiveSafe(c.Record(), c.trace);
    assert Up(c.Record(), SAMPLE_WORLD, c.plan.postgres);
    ok, cut, rechecked, at := c.CutAndRestore(DatabaseOutage);
  }

  lemma TwelfthFails(oracle: Oracle)
    requires oracle == SampleOracle(t => t == 12)
    ensures forall t :: oracle.Fails(t) <==> t == 12
    ensures Answered(oracle, 0, 5) && AfterOutage(oracle, 5) == 11 && !Answered(oracle, 11, 4) && !StaysAttached(oracle, 0, 11)
  {
    assert forall t :: oracle.Fails(t) <==> t == 12;
    assert Answered(oracle, 6, 4) && !oracle.Late(10);
    assert oracle.Fails(12);
  }

  /** So does one failed reading of the check before the reconnect. */
  method UncheckedCut() returns (c: Controller, ok: bool, ghost i: nat)
    ensures Quiet(c.oracle) && Topology(c.Record(), SAMPLE_WORLD)
    ensures forall t :: c.oracle.Fails(t) <==> t == 12
    ensures i < |c.trace| && c.trace[i] == Disconnected(c.plan.postgres, true)
    ensures c.plan.postgres in c.world && c.plan.network !in c.world[c.plan.postgres].networks
    ensures forall j :: 0 <= j < |c.trace| ==> !c.trace[j].Connected?
  {
    c := SampleController(t => t == 12);
    ghost var cut, rechecked, at;
    SampleStands();
    SampleQuiet(t => t == 12);
    PassiveSafe(c.Record(), c.trace);
    TwelfthFails(c.oracle);
    ok, cut, rechecked, at := c.CutAndRestore(DatabaseOutage);
    ghost var k :| 0 <= k < |c.trace| && c.trace[k] == Disconnected(c.plan.postgres, true);
    i := k;
  }

  /** A cleanup to which Docker answers nothing succeeds and removes nothing. */
  method SilentCleanup() returns (c: Controller, ok: bool)
    ensures Quiet(c.oracle) && ok && c.world.Keys == SAMPLE_WORLD.Keys && c.plan.roles.Keys <= c.world.Keys && c.plan.roles != map[]
  {
    c := SampleController(_ => true);
    SampleValid();
    SampleQuiet(_ => true);
    PassiveSafe(c.Record(), c.trace);
    ok := c.Cleanup();
  }
}
