/** The module host: one start or migration attempt, shutdown, and cleanup,
    interleaved with facade calls and Action executions. */
module HostLifecycle {
  import opened Common
  import opened Ordering
  import opened Leases

  datatype Phase = New | Starting | Running | Stopping | Stopped | Failed

  /** Registered process cleanups are known by number. */
  type Cleanup = nat

  datatype Runtime = Runtime(id: string, services: seq<string>, cleanups: seq<Cleanup>)

  /** Where the starting call is. While installing, a module may still provide
      services and register cleanups. */
  datatype Starter = NotStarted | Validating | Between(k: nat) | Installing(k: nat) | Binding(k: nat)
    | Cleaning(migrated: bool) | Ending | Returned

  /** Where cleanup is: waiting for Action executions, between modules, or
      inside one module with `left` callbacks to go. */
  datatype Cleaner =
    | Idle
    | Draining(queue: seq<Runtime>)
    | Sweeping(queue: seq<Runtime>, failed: bool)
    | Calling(queue: seq<Runtime>, module_: Runtime, left: seq<Cleanup>, failed: bool)

  /** The goroutine that finishes a shutdown. */
  datatype Finisher = Absent | AwaitingFacades | Active

  datatype Host = Host(
    phase: Phase, migrating: bool, order: seq<string>, stopRequested: bool, cancelled: bool,
    gate: Gate, registry: Registry, assembled: bool,
    services: map<string, string>, runtimes: seq<Runtime>, current: Option<Runtime>,
    starter: Starter, finisher: Finisher, cleaner: Cleaner,
    startDone: nat, shutdownDone: nat,
    registered: seq<Cleanup>, invoked: seq<Cleanup>)

  function NewHost(order: seq<string>): Host {
    Host(New, false, order, false, false, NewGate(), NewRegistry(), false, map[], [], None,
         NotStarted, Absent, Idle, 0, 0, [], [])
  }

  // ---------- The starting call ----------

  function Start(h: Host, migrating: bool): Host {
    if h.phase == New then h.(phase := Starting, migrating := migrating, starter := Validating) else h
  }

  /** The attempt is over: a close of an already closed channel is skipped. */
  function CompleteStart(h: Host, phase: Phase): Host {
    h.(phase := phase, shutdownDone := if h.shutdownDone == 0 then 1 else h.shutdownDone, starter := Ending, cleaner := Idle)
  }

  function FailedPhase(h: Host, cleanupFailed: bool): Phase {
    if cleanupFailed || !h.stopRequested then Failed else Stopped
  }

  function Pending(h: Host): seq<Runtime> {
    h.runtimes + match h.current case None => [] case Some(r) => [r]
  }

  /** Cleanup begins by revoking Action executions. */
  function BeginCleanup(h: Host, queue: seq<Runtime>): Host {
    h.(registry := Revoke(h.registry), cleaner := Draining(queue))
  }

  function StartFailure(h: Host): Host {
    BeginCleanup(h.(starter := Cleaning(false)), Pending(h))
  }

  function Validate(h: Host, ok: bool): Host {
    if !h.starter.Validating? then h
    else if ok then h.(starter := Between(0))
    else CompleteStart(h, FailedPhase(h, false))
  }

  /** Before each module, and after the last one. */
  function Proceed(h: Host, ok: bool): Host {
    if !h.starter.Between? then h
    else if h.starter.k < |h.order| then BeginModule(h, ok)
    else if h.migrating then FinishMigration(h, ok)
    else FinishStart(h)
  }

  function BeginModule(h: Host, ok: bool): Host
    requires h.starter.Between? && h.starter.k < |h.order|
  {
    if h.cancelled then StartFailure(h)
    else
      var begun := h.(current := Some(Runtime(h.order[h.starter.k], [], [])));
      if ok then begun.(starter := Installing(h.starter.k)) else StartFailure(begun)
  }

  function FinishMigration(h: Host, ok: bool): Host {
    if ok then BeginCleanup(h.(starter := Cleaning(true)), Pending(h)) else StartFailure(h)
  }

  function FinishStart(h: Host): Host {
    if h.stopRequested || h.cancelled then StartFailure(h) else h.(phase := Running, starter := Ending)
  }

  /** A module publishes services, all of them or none. */
  function Provide(h: Host, names: seq<string>): Host {
    if h.starter.Installing? && h.current.Some? && h.phase == Starting && NoDup(names) && (forall n :: n in names ==> n !in h.services)
    then
      var r := h.current.value;
      h.(services := h.services + OwnedBy(names, r.id), current := Some(r.(services := r.services + names)))
    else h
  }

  function OwnedBy(names: seq<string>, owner: string): map<string, string> {
    map n | n in names :: owner
  }

  function OnStop(h: Host, cleanup: Cleanup): Host {
    if h.starter.Installing? && h.current.Some? && h.phase == Starting then
      var r := h.current.value;
      h.(current := Some(r.(cleanups := r.cleanups + [cleanup])), registered := h.registered + [cleanup])
    else h
  }

  /** The start callback returns and its scope expires. */
  function Installed(h: Host, ok: bool): Host {
    if !h.starter.Installing? then h
    else if !ok || (h.cancelled && !h.migrating) then StartFailure(h)
    else h.(starter := Binding(h.starter.k))
  }

  /** Handlers are bound and the module joins the started ones. */
  function Bound(h: Host, ok: bool, actions: seq<string>): Host {
    if !h.starter.Binding? || h.current.None? then h
    else if !ok then StartFailure(h.(registry := BindAll(h.registry, actions)))
    else h.(registry := BindAll(h.registry, actions), runtimes := h.runtimes + [h.current.value], current := None,
            starter := Between(h.starter.k + 1))
  }

  function BindAll(r: Registry, actions: seq<string>): Registry
    decreases |actions|
  {
    if actions == [] then r else BindAll(Bind(r, actions[0]), actions[1..])
  }

  function ReturnFromStart(h: Host): Host {
    if h.starter.Ending? then h.(starter := Returned, startDone := h.startDone + 1) else h
  }

  // ---------- Shutdown ----------

  function Shutdown(h: Host): Host {
    match h.phase
    case Starting => h.(stopRequested := true)
    case Running => h.(phase := Stopping, gate := GateRevoke(h.gate), registry := Revoke(h.registry), finisher := AwaitingFacades)
    case _ => h
  }

  function FacadesDrained(h: Host): Host {
    if h.finisher.AwaitingFacades? && Drained(h.gate) then BeginCleanup(h.(finisher := Active), h.runtimes) else h
  }

  // ---------- Cleanup ----------

  function ActionsDrained(h: Host): Host {
    if h.cleaner.Draining? && h.registry.closed > 0 then h.(cleaner := Sweeping(h.cleaner.queue, false)) else h
  }

  function NextModule(h: Host): Host {
    if h.cleaner.Sweeping? && h.cleaner.queue != [] then
      var q := h.cleaner.queue;
      var last := q[|q| - 1];
      h.(cleaner := Calling(q[..|q| - 1], last, last.cleanups, h.cleaner.failed))
    else h
  }

  function InvokeCleanup(h: Host, ok: bool): Host {
    if h.cleaner.Calling? && h.cleaner.left != [] then
      var left := h.cleaner.left;
      h.(invoked := h.invoked + [left[|left| - 1]],
         cleaner := h.cleaner.(left := left[..|left| - 1], failed := h.cleaner.failed || !ok))
    else h
  }

  function Without(services: map<string, string>, r: Runtime): map<string, string> {
    map n | n in services && !(n in r.services && services[n] == r.id) :: services[n]
  }

  function RemoveServices(h: Host): Host {
    if h.cleaner.Calling? && h.cleaner.left == [] then
      h.(services := Without(h.services, h.cleaner.module_), cleaner := Sweeping(h.cleaner.queue, h.cleaner.failed))
    else h
  }

  function CleanupDone(h: Host): Host {
    if h.cleaner.Sweeping? && h.cleaner.queue == [] then
      var failed := h.cleaner.failed;
      if h.starter.Cleaning? then
        CompleteStart(h, if h.starter.migrated then (if failed then Failed else Stopped) else FailedPhase(h, failed))
      else h.(phase := if failed then Failed else Stopped, shutdownDone := h.shutdownDone + 1, cleaner := Idle)
    else h
  }

  // ---------- Facades and Actions ----------

  function Cancel(h: Host): Host { h.(cancelled := true) }

  function Assemble(h: Host): Host { if h.phase == Running then h.(assembled := true) else h }

  function BeginFacade(h: Host, lease: nat): Host { if h.assembled then h.(gate := GateAcquire(h.gate, lease)) else h }

  function EndFacade(h: Host, lease: nat): Host { h.(gate := GateRelease(h.gate, lease)) }

  function BeginAction(h: Host, lease: nat): Host { h.(registry := ActionAcquire(h.registry, lease)) }

  function EndAction(h: Host, lease: nat): Host { h.(registry := ActionRelease(h.registry, lease)) }

  // ---------- Runs ----------

  datatype Step =
    | CallStart(migrating: bool) | ContextDone | DoValidate(ok: bool) | DoProceed(ok: bool)
    | DoProvide(names: seq<string>) | DoOnStop(cleanup: Cleanup) | DoInstalled(ok: bool) | DoBound(ok: bool, actions: seq<string>)
    | DoReturn
    | CallShutdown | DoFacadesDrained | DoActionsDrained | DoNextModule | DoInvoke(ok: bool) | DoRemoveServices | DoCleanupDone
    | CallAssemble | FacadeBegins(lease: nat) | FacadeEnds(lease: nat) | ActionBegins(lease: nat) | ActionEnds(lease: nat)

  function Apply(h: Host, step: Step): Host {
    match step
    case CallStart(migrating) => Start(h, migrating)
    case ContextDone => Cancel(h)
    case DoValidate(ok) => Validate(h, ok)
    case DoProceed(ok) => Proceed(h, ok)
    case DoProvide(names) => Provide(h, names)
    case DoOnStop(cleanup) => OnStop(h, cleanup)
    case DoInstalled(ok) => Installed(h, ok)
    case DoBound(ok, actions) => Bound(h, ok, actions)
    case DoReturn => ReturnFromStart(h)
    case CallShutdown => Shutdown(h)
    case DoFacadesDrained => FacadesDrained(h)
    case DoActionsDrained => ActionsDrained(h)
    case DoNextModule => NextModule(h)
    case DoInvoke(ok) => InvokeCleanup(h, ok)
    case DoRemoveServices => RemoveServices(h)
    case DoCleanupDone => CleanupDone(h)
    case CallAssemble => Assemble(h)
    case FacadeBegins(lease) => BeginFacade(h, lease)
    case FacadeEnds(lease) => EndFacade(h, lease)
    case ActionBegins(lease) => BeginAction(h, lease)
    case ActionEnds(lease) => EndAction(h, lease)
  }

  /** Steps of the starting call. */
  predicate Starts(step: Step) {
    || step.CallStart? || step.DoValidate? || step.DoProceed? || step.DoProvide? || step.DoOnStop? || step.DoInstalled?
    || step.DoBound? || step.DoReturn?
  }

  /** Steps of a shutdown and of cleanup. */
  predicate Stops(step: Step) {
    || step.CallShutdown? || step.DoFacadesDrained? || step.DoActionsDrained? || step.DoNextModule? || step.DoInvoke?
    || step.DoRemoveServices? || step.DoCleanupDone?
  }

  function Run(h: Host, steps: seq<Step>): Host {
    if steps == [] then h else Apply(Run(h, steps[..|steps| - 1]), steps[|steps| - 1])
  }
}
