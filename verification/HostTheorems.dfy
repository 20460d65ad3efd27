/** What every run of the module host keeps. */
module HostTheorems {
  import opened Sequences
  import opened Common
  import opened Ordering
  import opened Leases
  import opened HostLifecycle

  // ---------- Control ----------

  predicate Terminal(p: Phase) { p == Stopped || p == Failed }

  predicate Attempting(s: Starter) {
    s.Validating? || s.Between? || s.Installing? || s.Binding? || s.Cleaning?
  }

  /** The phase follows the starting call, then the finisher. */
  predicate PhaseInv(h: Host) {
    && (h.phase == New <==> h.starter.NotStarted?)
    && (h.phase == Starting <==> Attempting(h.starter))
    && (h.finisher.Absent? ==> h.phase != Stopping)
    && (h.finisher.AwaitingFacades? ==> h.phase == Stopping)
    && (!h.finisher.Absent? ==> h.phase == Stopping || Terminal(h.phase))
    && (!h.cleaner.Idle? <==> h.starter.Cleaning? || (h.finisher.Active? && h.phase == Stopping))
    && (h.stopRequested ==> h.phase == Starting || (Terminal(h.phase) && h.finisher.Absent?))
    && (h.current.Some? && h.cleaner.Idle? && !Terminal(h.phase) ==> h.starter.Installing? || h.starter.Binding?)
    && (h.starter.Installing? || h.starter.Binding? ==> h.current.Some?)
  }

  predicate ChannelInv(h: Host) {
    && h.startDone == (if h.starter.Returned? then 1 else 0)
    && h.shutdownDone == (if Terminal(h.phase) then 1 else 0)
  }

  /** Facades exist only once the host ran; they are cut off before cleanup. */
  predicate LeaseInv(h: Host) {
    && GateOk(h.gate) && RegistryOk(h.registry)
    && (!h.assembled ==> h.gate.held == {})
    && (h.assembled ==> h.phase == Running || !h.finisher.Absent?)
    && (!h.finisher.Absent? ==> !h.gate.open && h.registry.revoked)
    && (h.finisher.Active? ==> Drained(h.gate))
    && (h.cleaner.Draining? ==> h.registry.revoked)
    && (h.cleaner.Sweeping? || h.cleaner.Calling? || h.invoked != [] ==> h.registry.closed > 0)
    && (h.invoked != [] ==> !h.cleaner.Idle? || Terminal(h.phase))
  }

  predicate Control(h: Host) { PhaseInv(h) && ChannelInv(h) && LeaseInv(h) }

  lemma {:induction false} BindAllKeeps(r: Registry, actions: seq<string>)
    ensures BindAll(r, actions) == r.(actions := BindAll(r, actions).actions)
    ensures RegistryOk(r) ==> RegistryOk(BindAll(r, actions))
    decreases |actions|
  {
    if actions != [] { BindAllKeeps(Bind(r, actions[0]), actions[1..]); }
  }

  lemma StartKeeps(h: Host, migrating: bool)
    requires Control(h)
    ensures Control(Start(h, migrating))
  {
  }

  lemma ValidateKeeps(h: Host, ok: bool)
    requires Control(h)
    ensures Control(Validate(h, ok))
  {
  }

  lemma StartFailureKeeps(h: Host)
    requires Control(h) && Attempting(h.starter) && h.cleaner.Idle?
    ensures Control(StartFailure(h))
  {
  }

  lemma BeginModuleKeeps(h: Host, ok: bool)
    requires Control(h) && h.starter.Between? && h.starter.k < |h.order|
    ensures Control(BeginModule(h, ok))
  {
  }

  lemma FinishKeeps(h: Host, ok: bool)
    requires Control(h) && h.starter.Between?
    ensures Control(FinishMigration(h, ok)) && Control(FinishStart(h))
  {
    StartFailureKeeps(h);
  }

  lemma ProceedKeeps(h: Host, ok: bool)
    requires Control(h)
    ensures Control(Proceed(h, ok))
  {
    if h.starter.Between? {
      if h.starter.k < |h.order| { BeginModuleKeeps(h, ok); } else { FinishKeeps(h, ok); }
    }
  }

  lemma ProvideKeeps(h: Host, names: seq<string>)
    requires Control(h)
    ensures Control(Provide(h, names))
  {
  }

  lemma OnStopKeeps(h: Host, cleanup: Cleanup)
    requires Control(h)
    ensures Control(OnStop(h, cleanup))
  {
  }

  lemma InstalledKeeps(h: Host, ok: bool)
    requires Control(h)
    ensures Control(Installed(h, ok))
  {
  }

  lemma BoundKeeps(h: Host, ok: bool, actions: seq<string>)
    requires Control(h)
    ensures Control(Bound(h, ok, actions))
  {
    BindAllKeeps(h.registry, actions);
  }

  lemma ReturnFromStartKeeps(h: Host)
    requires Control(h)
    ensures Control(ReturnFromStart(h))
  {
  }

  /** A running host that stops, with both lease boundaries revoked. */
  function Revoked(h: Host, g: Gate, r: Registry): Host {
    h.(phase := Stopping, gate := g, registry := r, finisher := AwaitingFacades)
  }

  lemma RevokedKeeps(h: Host, g: Gate, r: Registry)
    requires Control(h) && h.phase == Running && GateOk(g) && !g.open && (h.gate.held == {} ==> g.held == {})
    requires RegistryLater(h.registry, r) && r.revoked
    ensures PhaseInv(Revoked(h, g, r)) && ChannelInv(Revoked(h, g, r)) && LeaseInv(Revoked(h, g, r))
  {
  }

  lemma ShutdownKeeps(h: Host)
    requires Control(h)
    ensures Control(Shutdown(h))
  {
    GateKeeps(h.gate, 0);
    RegistryKeeps(h.registry, 0);
    if h.phase == Running { RevokedKeeps(h, GateRevoke(h.gate), Revoke(h.registry)); }
  }

  lemma FacadesDrainedKeeps(h: Host)
    requires Control(h)
    ensures Control(FacadesDrained(h))
  {
  }

  lemma ActionsDrainedKeeps(h: Host)
    requires Control(h)
    ensures Control(ActionsDrained(h))
  {
  }

  lemma NextModuleKeeps(h: Host)
    requires Control(h)
    ensures Control(NextModule(h))
  {
  }

  lemma InvokeCleanupKeeps(h: Host, ok: bool)
    requires Control(h)
    ensures Control(InvokeCleanup(h, ok))
  {
  }

  lemma RemoveServicesKeeps(h: Host)
    requires Control(h)
    ensures Control(RemoveServices(h))
  {
  }

  lemma CleanupDoneKeeps(h: Host)
    requires Control(h)
    ensures Control(CleanupDone(h))
  {
  }

  lemma AssembleKeeps(h: Host)
    requires Control(h)
    ensures Control(Cancel(h)) && Control(Assemble(h))
  {
  }

  /** Only the registry changes. */
  lemma RegistrySwap(h: Host, r: Registry)
    requires Control(h) && RegistryLater(h.registry, r)
    ensures Control(h.(registry := r))
  {
  }

  /** Only the gate changes. */
  lemma GateSwap(h: Host, g: Gate)
    requires Control(h) && GateOk(g) && (!h.assembled ==> g.held == {})
    requires (!h.gate.open ==> !g.open) && (Drained(h.gate) ==> Drained(g))
    ensures Control(h.(gate := g))
  {
  }

  lemma FacadesKeep(h: Host, lease: nat)
    requires Control(h)
    ensures Control(BeginFacade(h, lease)) && Control(EndFacade(h, lease))
  {
    GateKeeps(h.gate, lease);
    if h.assembled { GateSwap(h, GateAcquire(h.gate, lease)); }
    GateSwap(h, GateRelease(h.gate, lease));
  }

  lemma ActionsKeep(h: Host, lease: nat)
    requires Control(h)
    ensures Control(BeginAction(h, lease)) && Control(EndAction(h, lease))
  {
    RegistryKeeps(h.registry, lease);
    RegistrySwap(h, ActionAcquire(h.registry, lease));
    RegistrySwap(h, ActionRelease(h.registry, lease));
  }

  lemma StartControl(h: Host, step: Step)
    requires Control(h) && Starts(step)
    ensures Control(Apply(h, step))
  {
    match step
    case CallStart(migrating) => StartKeeps(h, migrating);
    case DoValidate(ok) => ValidateKeeps(h, ok);
    case DoProceed(ok) => ProceedKeeps(h, ok);
    case DoProvide(names) => ProvideKeeps(h, names);
    case DoOnStop(cleanup) => OnStopKeeps(h, cleanup);
    case DoInstalled(ok) => InstalledKeeps(h, ok);
    case DoBound(ok, actions) => BoundKeeps(h, ok, actions);
    case DoReturn => ReturnFromStartKeeps(h);
  }

  lemma StopControl(h: Host, step: Step)
    requires Control(h) && Stops(step)
    ensures Control(Apply(h, step))
  {
    match step
    case CallShutdown => ShutdownKeeps(h);
    case DoFacadesDrained => FacadesDrainedKeeps(h);
    case DoActionsDrained => ActionsDrainedKeeps(h);
    case DoNextModule => NextModuleKeeps(h);
    case DoInvoke(ok) => InvokeCleanupKeeps(h, ok);
    case DoRemoveServices => RemoveServicesKeeps(h);
    case DoCleanupDone => CleanupDoneKeeps(h);
  }

  lemma LeaseControl(h: Host, step: Step)
    requires Control(h) && !Starts(step) && !Stops(step)
    ensures Control(Apply(h, step))
  {
    match step
    case ContextDone => AssembleKeeps(h);
    case CallAssemble => AssembleKeeps(h);
    case FacadeBegins(lease) => FacadesKeep(h, lease);
    case FacadeEnds(lease) => FacadesKeep(h, lease);
    case ActionBegins(lease) => ActionsKeep(h, lease);
    case ActionEnds(lease) => ActionsKeep(h, lease);
  }

  lemma ControlKept(h: Host, step: Step)
    requires Control(h)
    ensures Control(Apply(h, step))
  {
    if Starts(step) { StartControl(h, step); } else if Stops(step) { StopControl(h, step); } else { LeaseControl(h, step); }
  }

  // ---------- Resources ----------

  function Names(rs: seq<Runtime>): seq<string> {
    if rs == [] then [] else Names(rs[..|rs| - 1]) + rs[|rs| - 1].services
  }

  function Cleanups(rs: seq<Runtime>): seq<Cleanup> {
    if rs == [] then [] else Cleanups(rs[..|rs| - 1]) + rs[|rs| - 1].cleanups
  }

  /** The service table of modules whose services are pairwise disjoint. */
  function Table(rs: seq<Runtime>): map<string, string> {
    if rs == [] then map[] else Table(rs[..|rs| - 1]) + OwnedBy(rs[|rs| - 1].services, rs[|rs| - 1].id)
  }

  function Reversed(s: seq<Cleanup>): seq<Cleanup> {
    if s == [] then [] else [s[|s| - 1]] + Reversed(s[..|s| - 1])
  }

  /** Modules whose services are still published. */
  function Live(h: Host): seq<Runtime> {
    match h.cleaner
    case Idle => if Terminal(h.phase) then [] else Pending(h)
    case Draining(queue) => queue
    case Sweeping(queue, _) => queue
    case Calling(queue, module_, _, _) => queue + [module_]
  }

  /** Cleanups still to be invoked, in registration order. */
  function Remaining(h: Host): seq<Cleanup> {
    match h.cleaner
    case Idle => if Terminal(h.phase) then [] else Cleanups(Pending(h))
    case Draining(queue) => Cleanups(queue)
    case Sweeping(queue, _) => Cleanups(queue)
    case Calling(queue, _, left, _) => Cleanups(queue) + left
  }

  predicate NewNames(taken: seq<string>, names: seq<string>) {
    NoDup(names) && forall n :: n in names ==> n !in taken
  }

  /** No service is provided twice. */
  predicate Apart(rs: seq<Runtime>) {
    rs == [] || (Apart(rs[..|rs| - 1]) && NewNames(Names(rs[..|rs| - 1]), rs[|rs| - 1].services))
  }

  lemma {:induction false} ApartExactly(rs: seq<Runtime>)
    ensures Apart(rs) <==> NoDup(Names(rs))
  {
    if rs != [] {
      var front, last := rs[..|rs| - 1], rs[|rs| - 1].services;
      ApartExactly(front);
      if Apart(rs) { NoDupConcat(Names(front), last); }
      if NoDup(Names(rs)) {
        NoDupSplit(Names(front), last);
      }
    }
  }

  predicate Disjoint(services: map<string, string>, rs: seq<Runtime>) {
    services == Table(rs) && Apart(rs)
  }

  predicate ServiceInv(h: Host) { Disjoint(h.services, Live(h)) }

  predicate OrderInv(h: Host) { h.registered == Remaining(h) + Reversed(h.invoked) }

  lemma Append(rs: seq<Runtime>, r: Runtime)
    ensures Names(rs + [r]) == Names(rs) + r.services && Cleanups(rs + [r]) == Cleanups(rs) + r.cleanups
    ensures Table(rs + [r]) == Table(rs) + OwnedBy(r.services, r.id)
  {
    assert (rs + [r])[..|rs|] == rs;
  }

  lemma {:induction false} TableKeys(rs: seq<Runtime>, n: string)
    ensures n in Table(rs) <==> n in Names(rs)
  {
    if rs != [] { TableKeys(rs[..|rs| - 1], n); }
  }

  /** Dropping the last module's services leaves the table of the others. */
  lemma DropLast(services: map<string, string>, rs: seq<Runtime>, r: Runtime)
    requires Disjoint(services, rs + [r])
    ensures Disjoint(Without(services, r), rs)
  {
    Append(rs, r);
    ApartExactly(rs + [r]);
    ApartExactly(rs);
    NoDupSplit(Names(rs), r.services);
    forall n ensures n in Without(services, r) <==> n in Table(rs) {
      TableKeys(rs, n);
    }
    forall n | n in Table(rs) ensures Without(services, r)[n] == Table(rs)[n] { TableKeys(rs, n); }
    assert Without(services, r) == Table(rs);
  }

  /** New names of the last module extend the table. */
  lemma ExtendLast(services: map<string, string>, rs: seq<Runtime>, r: Runtime, names: seq<string>)
    requires Disjoint(services, rs + [r]) && NoDup(names) && forall n :: n in names ==> n !in services
    ensures Disjoint(services + OwnedBy(names, r.id), rs + [r.(services := r.services + names)])
  {
    var r' := r.(services := r.services + names);
    Append(rs, r);
    Append(rs, r');
    forall n | n in names ensures n !in Names(rs + [r]) { TableKeys(rs + [r], n); }
    ApartExactly(rs + [r]);
    NoDupConcat(Names(rs + [r]), names);
    ApartExactly(rs + [r']);
    Regroup(Names(rs), r.services, names);
    OwnedByConcat(Table(rs), r.services, names, r.id);
  }

  lemma OwnedByConcat(t: map<string, string>, a: seq<string>, b: seq<string>, id: string)
    ensures t + OwnedBy(a + b, id) == t + OwnedBy(a, id) + OwnedBy(b, id)
  {
  }

  lemma NoDupConcat(a: seq<string>, b: seq<string>)
    requires NoDup(a) && NoDup(b) && forall x :: x in b ==> x !in a
    ensures NoDup(a + b)
  {
    var s := a + b;
    forall i, j | 0 <= i < j < |s| ensures s[i] != s[j] {
      if i < |a| <= j { assert s[j] in b && s[i] in a; }
    }
  }

  lemma NoDupSplit(a: seq<string>, b: seq<string>)
    requires NoDup(a + b)
    ensures NoDup(a) && NoDup(b) && forall x :: x in a ==> x !in b
  {
    var s := a + b;
    forall i, j | 0 <= i < |a| && 0 <= j < |b| ensures a[i] != b[j] { assert s[i] == a[i] && s[|a| + j] == b[j]; }
    forall i, j | 0 <= i < j < |a| ensures a[i] != a[j] { assert s[i] == a[i] && s[j] == a[j]; }
    forall i, j | 0 <= i < j < |b| ensures b[i] != b[j] { assert s[|a| + i] == b[i] && s[|a| + j] == b[j]; }
  }

  lemma EmptyModule(services: map<string, string>, rs: seq<Runtime>, id: string)
    requires Disjoint(services, rs)
    ensures Disjoint(services, rs + [Runtime(id, [], [])]) && Cleanups(rs + [Runtime(id, [], [])]) == Cleanups(rs)
  {
    var r := Runtime(id, [], []);
    Append(rs, r);
    assert (rs + [r])[..|rs|] == rs && OwnedBy([], id) == map[];
  }

  predicate FreshInv(h: Host) {
    h.starter.NotStarted? || h.starter.Validating? ==> Pending(h) == []
  }

  predicate Resources(h: Host) { ServiceInv(h) && OrderInv(h) && FreshInv(h) }

  /** The view of a host that its resources depend on. */
  predicate SameResources(h: Host, k: Host) {
    && Live(k) == Live(h) && Remaining(k) == Remaining(h)
    && k.services == h.services && k.registered == h.registered && k.invoked == h.invoked
  }

  lemma SameKept(h: Host, k: Host)
    requires Resources(h) && SameResources(h, k) && FreshInv(k)
    ensures Resources(k)
  {
  }

  lemma StartFailureResources(h: Host)
    requires Resources(h) && h.cleaner.Idle? && !Terminal(h.phase)
    ensures Resources(StartFailure(h))
  {
    SameKept(h, StartFailure(h));
  }

  lemma ProceedResources(h: Host, ok: bool)
    requires Control(h) && Resources(h)
    ensures Resources(Proceed(h, ok))
  {
    if h.starter.Between? {
      if h.starter.k < |h.order| {
        BeginModuleResources(h, ok);
      } else {
        StartFailureResources(h);
        SameKept(h, FinishMigration(h, true));
        assert FinishStart(h).phase == Running ==> Live(FinishStart(h)) == Live(h);
      }
    }
  }

  lemma BeginModuleResources(h: Host, ok: bool)
    requires Control(h) && Resources(h) && h.starter.Between? && h.starter.k < |h.order|
    ensures Resources(BeginModule(h, ok))
  {
    assert Pending(h) == h.runtimes;
    EmptyModule(h.services, h.runtimes, h.order[h.starter.k]);
    var begun := h.(current := Some(Runtime(h.order[h.starter.k], [], [])));
    assert Pending(begun) == h.runtimes + [begun.current.value];
    assert Resources(begun);
    StartFailureResources(h);
    StartFailureResources(begun);
  }

  lemma ProvideResources(h: Host, names: seq<string>)
    requires Control(h) && Resources(h)
    ensures Resources(Provide(h, names))
  {
    var k := Provide(h, names);
    if k != h {
      var r := h.current.value;
      assert Pending(h) == h.runtimes + [r] && Pending(k) == h.runtimes + [k.current.value];
      ExtendLast(h.services, h.runtimes, r, names);
      Append(h.runtimes, r);
      Append(h.runtimes, k.current.value);
    }
  }

  lemma OnStopResources(h: Host, cleanup: Cleanup)
    requires Control(h) && Resources(h)
    ensures Resources(OnStop(h, cleanup))
  {
    var k := OnStop(h, cleanup);
    if h.starter.Installing? && h.current.Some? && h.phase == Starting {
      var r, r' := h.current.value, k.current.value;
      assert Pending(h) == h.runtimes + [r] && Pending(k) == h.runtimes + [r'];
      Append(h.runtimes, r);
      Append(h.runtimes, r');
      NotYetInvoked(h);
      assert k.registered == Remaining(k) + [];
    }
  }

  lemma NotYetInvoked(h: Host)
    requires Control(h) && Attempting(h.starter) && !h.starter.Cleaning?
    ensures h.invoked == [] && Reversed(h.invoked) == []
  {
  }

  lemma BoundResources(h: Host, ok: bool, actions: seq<string>)
    requires Control(h) && Resources(h)
    ensures Resources(Apply(h, DoBound(ok, actions)))
  {
    if h.starter.Binding? && h.current.Some? {
      var k := h.(registry := BindAll(h.registry, actions));
      StartFailureResources(k);
      assert Pending(Bound(h, true, actions)) == Pending(h);
      SameKept(h, Bound(h, true, actions));
    }
  }

  lemma FacadesDrainedResources(h: Host)
    requires Control(h) && Resources(h)
    ensures Resources(FacadesDrained(h))
  {
    if h.finisher.AwaitingFacades? && Drained(h.gate) {
      assert Pending(h) == h.runtimes;
      SameKept(h, FacadesDrained(h));
    }
  }

  lemma NextModuleResources(h: Host)
    requires Resources(h)
    ensures Resources(NextModule(h))
  {
    if h.cleaner.Sweeping? && h.cleaner.queue != [] {
      var q := h.cleaner.queue;
      assert q[..|q| - 1] + [q[|q| - 1]] == q;
      SameKept(h, NextModule(h));
    }
  }

  lemma InvokeOrder(h: Host, ok: bool)
    requires OrderInv(h) && h.cleaner.Calling? && h.cleaner.left != []
    ensures OrderInv(InvokeCleanup(h, ok))
  {
    OneFewer(Cleanups(h.cleaner.queue), h.cleaner.left, h.invoked);
  }

  lemma SameServices(h: Host, k: Host)
    requires ServiceInv(h) && k.services == h.services && Live(k) == Live(h)
    ensures ServiceInv(k)
  {
  }

  lemma InvokeResources(h: Host, ok: bool)
    requires Resources(h)
    ensures Resources(InvokeCleanup(h, ok))
  {
    if h.cleaner.Calling? && h.cleaner.left != [] {
      InvokeOrder(h, ok);
      SameServices(h, InvokeCleanup(h, ok));
    }
  }

  lemma OneFewer(before: seq<Cleanup>, left: seq<Cleanup>, invoked: seq<Cleanup>)
    requires left != []
    ensures before + left + Reversed(invoked) == before + left[..|left| - 1] + Reversed(invoked + [left[|left| - 1]])
  {
    var x := left[|left| - 1];
    assert (invoked + [x])[..|invoked|] == invoked;
    assert left == left[..|left| - 1] + [x];
  }

  lemma RemoveServicesResources(h: Host)
    requires Resources(h)
    ensures Resources(Apply(h, DoRemoveServices))
  {
    if h.cleaner.Calling? && h.cleaner.left == [] {
      DropLast(h.services, h.cleaner.queue, h.cleaner.module_);
      NothingLeft(Cleanups(h.cleaner.queue), h.cleaner.left);
      RemovedOrder(h, RemoveServices(h));
    }
  }

  lemma NothingLeft(a: seq<Cleanup>, left: seq<Cleanup>)
    requires left == []
    ensures a + left == a
  {
  }

  lemma RemovedOrder(h: Host, k: Host)
    requires OrderInv(h) && Remaining(k) == Remaining(h) && k.registered == h.registered && k.invoked == h.invoked
    ensures OrderInv(k)
  {
  }

  lemma ValidateResources(h: Host, ok: bool)
    requires Control(h) && Resources(h)
    ensures Resources(Validate(h, ok))
  {
    if h.starter.Validating? {
      assert Pending(h) == [] && Live(h) == [] && Remaining(h) == [];
      SameKept(h, Validate(h, ok));
    }
  }

  lemma StartResources(h: Host, migrating: bool)
    requires Control(h) && Resources(h)
    ensures Resources(Start(h, migrating))
  {
    SameKept(h, Start(h, migrating));
  }

  lemma ReturnResources(h: Host)
    requires Control(h) && Resources(h)
    ensures Resources(ReturnFromStart(h))
  {
    SameKept(h, ReturnFromStart(h));
  }

  lemma ShutdownResources(h: Host)
    requires Control(h) && Resources(h)
    ensures Resources(Shutdown(h))
  {
    match h.phase
    case Starting => SameFields(h, Shutdown(h));
    case Running => SameFields(h, Shutdown(h));
    case _ =>
  }

  lemma SameFields(h: Host, k: Host)
    requires Resources(h) && k.cleaner == h.cleaner && k.runtimes == h.runtimes && k.current == h.current
    requires k.starter == h.starter && Terminal(k.phase) == Terminal(h.phase)
    requires k.services == h.services && k.registered == h.registered && k.invoked == h.invoked
    ensures Resources(k)
  {
    assert Pending(k) == Pending(h);
    SameKept(h, k);
  }

  lemma ActionsDrainedResources(h: Host)
    requires Resources(h)
    ensures Resources(ActionsDrained(h))
  {
    SameKept(h, ActionsDrained(h));
  }

  lemma CleanupDoneResources(h: Host)
    requires Control(h) && Resources(h)
    ensures Resources(Apply(h, DoCleanupDone))
  {
    if h.cleaner.Sweeping? && h.cleaner.queue == [] { SameKept(h, CleanupDone(h)); }
  }

  lemma AssembleResources(h: Host)
    requires Resources(h)
    ensures Resources(Cancel(h)) && Resources(Assemble(h))
  {
    SameFields(h, Cancel(h));
    SameFields(h, Assemble(h));
  }

  lemma FacadeResources(h: Host, lease: nat)
    requires Resources(h)
    ensures Resources(BeginFacade(h, lease)) && Resources(EndFacade(h, lease))
  {
    SameFields(h, BeginFacade(h, lease));
    SameFields(h, EndFacade(h, lease));
  }

  lemma ActionResources(h: Host, lease: nat)
    requires Resources(h)
    ensures Resources(BeginAction(h, lease)) && Resources(EndAction(h, lease))
  {
    SameFields(h, BeginAction(h, lease));
    SameFields(h, EndAction(h, lease));
  }

  lemma InstalledResources(h: Host, ok: bool)
    requires Control(h) && Resources(h)
    ensures Resources(Apply(h, DoInstalled(ok)))
  {
    if h.starter.Installing? {
      StartFailureResources(h);
      SameKept(h, h.(starter := Binding(h.starter.k)));
    }
  }

  lemma ProvideStep(h: Host, names: seq<string>)
    requires Control(h) && Resources(h)
    ensures Resources(Apply(h, DoProvide(names)))
  {
    ProvideResources(h, names);
  }

  lemma OnStopStep(h: Host, cleanup: Cleanup)
    requires Control(h) && Resources(h)
    ensures Resources(Apply(h, DoOnStop(cleanup)))
  {
    OnStopResources(h, cleanup);
  }

  lemma InvokeStep(h: Host, ok: bool)
    requires Resources(h)
    ensures Resources(Apply(h, DoInvoke(ok)))
  {
    InvokeResources(h, ok);
  }

  lemma ShutdownStep(h: Host)
    requires Control(h) && Resources(h)
    ensures Resources(Apply(h, CallShutdown))
  {
    ShutdownResources(h);
  }

  lemma FacadesDrainedStep(h: Host)
    requires Control(h) && Resources(h)
    ensures Resources(Apply(h, DoFacadesDrained))
  {
    FacadesDrainedResources(h);
  }

  lemma ActionsDrainedStep(h: Host)
    requires Resources(h)
    ensures Resources(Apply(h, DoActionsDrained))
  {
    ActionsDrainedResources(h);
  }

  lemma NextModuleStep(h: Host)
    requires Resources(h)
    ensures Resources(Apply(h, DoNextModule))
  {
    NextModuleResources(h);
  }

  lemma AttemptResources(h: Host, step: Step)
    requires Control(h) && Resources(h) && (step.CallStart? || step.DoValidate? || step.DoProceed? || step.DoReturn?)
    ensures Resources(Apply(h, step))
  {
    match step
    case CallStart(migrating) => StartResources(h, migrating);
    case DoValidate(ok) => ValidateResources(h, ok);
    case DoProceed(ok) => ProceedResources(h, ok);
    case DoReturn => ReturnResources(h);
  }

  lemma ModuleResources(h: Host, step: Step)
    requires Control(h) && Resources(h) && (step.DoProvide? || step.DoOnStop? || step.DoInstalled? || step.DoBound?)
    ensures Resources(Apply(h, step))
  {
    match step
    case DoProvide(names) => ProvideStep(h, names);
    case DoOnStop(cleanup) => OnStopStep(h, cleanup);
    case DoInstalled(ok) => InstalledResources(h, ok);
    case DoBound(ok, actions) => BoundResources(h, ok, actions);
  }

  lemma DrainResources(h: Host, step: Step)
    requires Control(h) && Resources(h) && (step.CallShutdown? || step.DoFacadesDrained? || step.DoActionsDrained?)
    ensures Resources(Apply(h, step))
  {
    match step
    case CallShutdown => ShutdownStep(h);
    case DoFacadesDrained => FacadesDrainedStep(h);
    case DoActionsDrained => ActionsDrainedStep(h);
  }

  lemma SweepResources(h: Host, step: Step)
    requires Control(h) && Resources(h)
    requires step.DoNextModule? || step.DoInvoke? || step.DoRemoveServices? || step.DoCleanupDone?
    ensures Resources(Apply(h, step))
  {
    match step
    case DoNextModule => NextModuleStep(h);
    case DoInvoke(ok) => InvokeStep(h, ok);
    case DoRemoveServices => RemoveServicesResources(h);
    case DoCleanupDone => CleanupDoneResources(h);
  }

  lemma LeaseResources(h: Host, step: Step)
    requires Resources(h) && !Starts(step) && !Stops(step)
    ensures Resources(Apply(h, step))
  {
    match step
    case ContextDone => AssembleResources(h);
    case CallAssemble => AssembleResources(h);
    case FacadeBegins(lease) => FacadeResources(h, lease);
    case FacadeEnds(lease) => FacadeResources(h, lease);
    case ActionBegins(lease) => ActionResources(h, lease);
    case ActionEnds(lease) => ActionResources(h, lease);
  }

  lemma ResourcesKept(h: Host, step: Step)
    requires Control(h) && Resources(h)
    ensures Resources(Apply(h, step))
  {
    if step.CallStart? || step.DoValidate? || step.DoProceed? || step.DoReturn? {
      AttemptResources(h, step);
    } else if Starts(step) {
      ModuleResources(h, step);
    } else if step.CallShutdown? || step.DoFacadesDrained? || step.DoActionsDrained? {
      DrainResources(h, step);
    } else if Stops(step) {
      SweepResources(h, step);
    } else {
      LeaseResources(h, step);
    }
  }

  // ---------- Over whole runs ----------

  predicate Inv(h: Host) { Control(h) && Resources(h) }

  lemma {:induction false} RunKeepsInv(order: seq<string>, steps: seq<Step>)
    ensures Inv(Run(NewHost(order), steps))
  {
    if steps == [] {
      assert Inv(NewHost(order));
    } else {
      var front := steps[..|steps| - 1];
      RunKeepsInv(order, front);
      ControlKept(Run(NewHost(order), front), steps[|steps| - 1]);
      ResourcesKept(Run(NewHost(order), front), steps[|steps| - 1]);
    }
  }

  lemma OneMore(h: Host, steps: seq<Step>, step: Step)
    ensures Run(h, steps + [step]) == Apply(Run(h, steps), step)
  {
    assert (steps + [step])[..|steps|] == steps;
  }

  lemma {:induction false} RunConcat(h: Host, a: seq<Step>, b: seq<Step>)
    ensures Run(h, a + b) == Run(Run(h, a), b)
    decreases |b|
  {
    if b == [] {
      assert a + b == a;
    } else {
      var front, last := b[..|b| - 1], b[|b| - 1];
      RunConcat(h, a, front);
      assert b == front + [last] && a + b == a + front + [last];
      OneMore(h, a + front, last);
      OneMore(Run(h, a), front, last);
    }
  }

  /** What no step undoes. */
  predicate Later(h: Host, k: Host) {
    && h.invoked <= k.invoked
    && (h.stopRequested ==> k.stopRequested)
    && (Terminal(h.phase) ==> k.phase == h.phase)
  }

  lemma StartIsLater(h: Host, step: Step)
    requires Control(h) && Starts(step)
    ensures Later(h, Apply(h, step))
  {
  }

  lemma StopIsLater(h: Host, step: Step)
    requires Control(h) && Stops(step)
    ensures Later(h, Apply(h, step))
  {
  }

  lemma LeaseIsLater(h: Host, step: Step)
    requires !Starts(step) && !Stops(step)
    ensures Later(h, Apply(h, step))
  {
  }

  lemma StepIsLater(h: Host, step: Step)
    requires Control(h)
    ensures Later(h, Apply(h, step))
  {
    if Starts(step) { StartIsLater(h, step); } else if Stops(step) { StopIsLater(h, step); } else { LeaseIsLater(h, step); }
  }

  lemma {:induction false} RunIsLater(order: seq<string>, before: seq<Step>, after: seq<Step>)
    ensures Later(Run(NewHost(order), before), Run(NewHost(order), before + after))
    decreases |after|
  {
    var h := NewHost(order);
    if after == [] {
      assert before + after == before;
    } else {
      var front := after[..|after| - 1];
      RunIsLater(order, before, front);
      RunKeepsInv(order, before + front);
      RunConcat(h, before, front);
      RunConcat(h, before, after);
      StepIsLater(Run(h, before + front), after[|after| - 1]);
    }
  }

  /** Once a cleanup callback has begun, no facade call and no Action execution
      is in progress, then or at any later time. */
  lemma NoLeaseOnceCleaning(order: seq<string>, before: seq<Step>, after: seq<Step>)
    requires Run(NewHost(order), before).invoked != []
    ensures var h := Run(NewHost(order), before + after); h.gate.held == {} && h.registry.leases == {}
  {
    RunIsLater(order, before, after);
    RunKeepsInv(order, before + after);
  }

  /** No channel is ever closed twice, and a drained lease boundary has closed
      its channel. */
  lemma ChannelsCloseOnce(order: seq<string>, steps: seq<Step>)
    ensures var h := Run(NewHost(order), steps);
            && h.gate.closed <= 1 && h.registry.closed <= 1 && h.startDone <= 1 && h.shutdownDone <= 1
            && (h.gate.closed == 1 <==> !h.gate.open && h.gate.held == {})
            && (h.registry.closed == 1 <==> h.registry.revoked && h.registry.leases == {})
            && (h.shutdownDone == 1 <==> Terminal(h.phase))
  {
    RunKeepsInv(order, steps);
  }

  lemma {:induction false} ReversedConcat(a: seq<Cleanup>, b: seq<Cleanup>)
    ensures Reversed(a + b) == Reversed(b) + Reversed(a)
    decreases |b|
  {
    if b == [] {
      assert a + b == a;
    } else {
      assert (a + b)[..|a + b| - 1] == a + b[..|b| - 1];
      ReversedConcat(a, b[..|b| - 1]);
    }
  }

  lemma {:induction false} ReversedTwice(a: seq<Cleanup>)
    ensures Reversed(Reversed(a)) == a
  {
    if a != [] {
      var front, last := a[..|a| - 1], a[|a| - 1];
      ReversedConcat([last], Reversed(front));
      ReversedTwice(front);
      assert Reversed([last]) == [last] by { assert [last][..0] == []; }
    }
  }

  /** Cleanups are invoked in exactly the reverse of their registration order,
      none twice, and all of them by the time the host has ended. */
  lemma CleanupsReverseRegistration(order: seq<string>, steps: seq<Step>)
    ensures var h := Run(NewHost(order), steps);
            h.invoked <= Reversed(h.registered) && (Terminal(h.phase) ==> h.invoked == Reversed(h.registered))
  {
    RunKeepsInv(order, steps);
    var h := Run(NewHost(order), steps);
    ReversedConcat(Remaining(h), Reversed(h.invoked));
    ReversedTwice(h.invoked);
    assert Terminal(h.phase) ==> Remaining(h) == [];
  }

  /** The service table is the disjoint union of the services of the modules
      that are not cleaned up, and empty once the host has ended. */
  lemma ServicesConserved(order: seq<string>, steps: seq<Step>)
    ensures var h := Run(NewHost(order), steps);
            && h.services == Table(Live(h)) && NoDup(Names(Live(h)))
            && (Terminal(h.phase) ==> h.services == map[])
  {
    RunKeepsInv(order, steps);
    ApartExactly(Live(Run(NewHost(order), steps)));
  }

  /** A shutdown accepted while starting means that the host never runs. */
  lemma StopWhileStarting(order: seq<string>, before: seq<Step>, after: seq<Step>)
    requires Run(NewHost(order), before).phase == Starting
    ensures var h := Run(NewHost(order), before + [CallShutdown] + after);
            h.phase != Running && h.phase != Stopping && h.gate.held == {}
  {
    var stopped := before + [CallShutdown];
    assert stopped[..|before|] == before;
    assert Run(NewHost(order), stopped).stopRequested;
    RunIsLater(order, stopped, after);
    RunKeepsInv(order, stopped + after);
  }

  /** Stopped and failed are final. */
  lemma TerminalIsFinal(order: seq<string>, before: seq<Step>, after: seq<Step>)
    requires Terminal(Run(NewHost(order), before).phase)
    ensures Run(NewHost(order), before + after).phase == Run(NewHost(order), before).phase
  {
    RunIsLater(order, before, after);
  }

  // ---------- A whole life ----------

  lemma Begins(id: string) returns (steps: seq<Step>)
    ensures Run(NewHost([id]), steps) ==
      NewHost([id]).(phase := Starting, starter := Installing(0), current := Some(Runtime(id, [], [])))
  {
    var h := NewHost([id]);
    steps := [];
    OneMore(h, steps, CallStart(false));
    steps := steps + [CallStart(false)];
    assert Run(h, steps) == h.(phase := Starting, starter := Validating);
    OneMore(h, steps, DoValidate(true));
    steps := steps + [DoValidate(true)];
    assert Run(h, steps) == h.(phase := Starting, starter := Between(0));
    OneMore(h, steps, DoProceed(true));
    steps := steps + [DoProceed(true)];
  }

  lemma Installs(id: string, service: string, cleanup: Cleanup) returns (steps: seq<Step>)
    ensures Run(NewHost([id]), steps) ==
      NewHost([id]).(phase := Starting, starter := Installing(0), services := map[service := id],
                     current := Some(Runtime(id, [service], [cleanup])), registered := [cleanup])
  {
    var h := NewHost([id]);
    steps := Begins(id);
    var begun := Run(h, steps);
    InstallsOne(begun, id, service, cleanup);
    OneMore(h, steps, DoProvide([service]));
    steps := steps + [DoProvide([service])];
    OneMore(h, steps, DoOnStop(cleanup));
    steps := steps + [DoOnStop(cleanup)];
  }

  lemma InstallsOne(h: Host, id: string, service: string, cleanup: Cleanup)
    requires h.phase == Starting && h.starter.Installing? && h.current == Some(Runtime(id, [], []))
    requires h.services == map[] && h.registered == []
    ensures Apply(Apply(h, DoProvide([service])), DoOnStop(cleanup)) ==
      h.(services := map[service := id], current := Some(Runtime(id, [service], [cleanup])), registered := [cleanup])
  {
    ProvidesOne(id, service);
    FromEmpty(service);
    FromEmpty(cleanup);
    assert Provide(h, [service]) == h.(services := map[service := id], current := Some(Runtime(id, [service], [])));
  }

  lemma FromEmpty<T>(x: T)
    ensures [] + [x] == [x]
  {
  }

  lemma ProvidesOne(id: string, service: string)
    ensures map[] + OwnedBy([service], id) == map[service := id] && NoDup([service])
    ensures Without(map[service := id], Runtime(id, [service], [])) == map[]
  {
  }

  /** The host with one started module, before and while running. */
  function Started(id: string, service: string, cleanup: Cleanup): Host {
    NewHost([id]).(phase := Running, starter := Ending, services := map[service := id],
                   runtimes := [Runtime(id, [service], [cleanup])], registered := [cleanup])
  }

  lemma Runs(id: string, service: string, cleanup: Cleanup) returns (steps: seq<Step>)
    ensures Run(NewHost([id]), steps) == Started(id, service, cleanup)
  {
    var h := NewHost([id]);
    steps := Installs(id, service, cleanup);
    OneMore(h, steps, DoInstalled(true));
    steps := steps + [DoInstalled(true)];
    OneMore(h, steps, DoBound(true, []));
    steps := steps + [DoBound(true, [])];
    assert Run(h, steps).runtimes == [Runtime(id, [service], [cleanup])];
    OneMore(h, steps, DoProceed(true));
    steps := steps + [DoProceed(true)];
  }

  /** A module can start, serve a facade call, and be cleaned up completely. */
  lemma LifecycleHappens(id: string, service: string, cleanup: Cleanup, lease: nat) returns (before: seq<Step>, steps: seq<Step>)
    ensures var h := Run(NewHost([id]), before);
            before <= steps && h.phase == Running && h.gate.held == {lease} && h.services == map[service := id]
    ensures var h := Run(NewHost([id]), steps); h.phase == Stopped && h.invoked == [cleanup] && h.services == map[]
  {
    var h := NewHost([id]);
    before := Runs(id, service, cleanup);
    OneMore(h, before, CallAssemble);
    before := before + [CallAssemble];
    OneMore(h, before, FacadeBegins(lease));
    before := before + [FacadeBegins(lease)];
    var drained := Drains(id, service, cleanup, lease, before);
    steps := Ends(id, service, cleanup, drained);
  }

  lemma Drains(id: string, service: string, cleanup: Cleanup, lease: nat, before: seq<Step>) returns (steps: seq<Step>)
    requires Run(NewHost([id]), before) == Started(id, service, cleanup).(assembled := true, gate := Gate(true, {lease}, 0))
    ensures before <= steps
    ensures Run(NewHost([id]), steps) ==
      Started(id, service, cleanup).(assembled := true, phase := Stopping, gate := Gate(false, {}, 1),
                                     registry := Registry({}, {}, true, 1), finisher := Active,
                                     cleaner := Sweeping([Runtime(id, [service], [cleanup])], false))
  {
    var h := NewHost([id]);
    steps := before;
    OneMore(h, steps, CallShutdown);
    steps := steps + [CallShutdown];
    OneMore(h, steps, FacadeEnds(lease));
    steps := steps + [FacadeEnds(lease)];
    assert {lease} - {lease} == {};
    OneMore(h, steps, DoFacadesDrained);
    steps := steps + [DoFacadesDrained];
    OneMore(h, steps, DoActionsDrained);
    steps := steps + [DoActionsDrained];
  }

  lemma Ends(id: string, service: string, cleanup: Cleanup, before: seq<Step>) returns (steps: seq<Step>)
    requires Run(NewHost([id]), before) ==
      Started(id, service, cleanup).(assembled := true, phase := Stopping, gate := Gate(false, {}, 1),
                                     registry := Registry({}, {}, true, 1), finisher := Active,
                                     cleaner := Sweeping([Runtime(id, [service], [cleanup])], false))
    ensures before <= steps
    ensures var h := Run(NewHost([id]), steps); h.phase == Stopped && h.invoked == [cleanup] && h.services == map[]
  {
    var h := NewHost([id]);
    steps := before;
    OneMore(h, steps, DoNextModule);
    steps := steps + [DoNextModule];
    OneMore(h, steps, DoInvoke(true));
    steps := steps + [DoInvoke(true)];
    FromEmpty(cleanup);
    var r := Runtime(id, [service], [cleanup]);
    assert [r][..0] == [] && [cleanup][..0] == [];
    steps := Finishes(h, steps, r);
  }

  lemma Finishes(h: Host, before: seq<Step>, r: Runtime) returns (steps: seq<Step>)
    requires var k := Run(h, before);
             k.cleaner == Calling([], r, [], false) && !k.starter.Cleaning? && Without(k.services, r) == map[]
    ensures before <= steps
    ensures var k := Run(h, steps); k.phase == Stopped && k.invoked == Run(h, before).invoked && k.services == map[]
  {
    OneMore(h, before, DoRemoveServices);
    steps := before + [DoRemoveServices];
    OneMore(h, steps, DoCleanupDone);
    steps := steps + [DoCleanupDone];
  }

  // ---------- Cleanup as the program runs it ----------

  class HostResources {
    var services: map<string, string>
    ghost var invoked: seq<Cleanup>

    /** Modules last to first, and within each module its callbacks last to
        first; a failing callback does not stop the others. */
    method CleanupAll(runtimes: seq<Runtime>, fails: Cleanup -> bool) returns (failed: bool)
      requires Disjoint(services, runtimes)
      modifies this
      ensures services == map[]
      ensures invoked == old(invoked) + Reversed(Cleanups(runtimes))
      ensures failed <==> exists c :: c in Cleanups(runtimes) && fails(c)
    {
      failed := false;
      ghost var done: seq<Cleanup> := [];
      var i := |runtimes|;
      assert runtimes[..i] == runtimes;
      NothingLeft(Cleanups(runtimes), done);
      while i > 0
        invariant 0 <= i <= |runtimes| && Disjoint(services, runtimes[..i])
        invariant invoked == old(invoked) + Reversed(done)
        invariant Cleanups(runtimes[..i]) + done == Cleanups(runtimes)
        invariant failed <==> exists c :: c in done && fails(c)
      {
        i := i - 1;
        var r := runtimes[i];
        assert runtimes[..i + 1] == runtimes[..i] + [r];
        Append(runtimes[..i], r);
        var moduleFailed := Callbacks(r.cleanups, fails);
        ReversedConcat(r.cleanups, done);
        Regroup(Cleanups(runtimes[..i]), r.cleanups, done);
        Regroup(old(invoked), Reversed(done), Reversed(r.cleanups));
        failed := failed || moduleFailed;
        done := r.cleanups + done;
        DropLast(services, runtimes[..i], r);
        services := Without(services, r);
      }
      assert runtimes[..0] == [] && [] + done == done;
    }

    method Callbacks(cleanups: seq<Cleanup>, fails: Cleanup -> bool) returns (failed: bool)
      modifies this`invoked
      ensures invoked == old(invoked) + Reversed(cleanups)
      ensures failed <==> exists c :: c in cleanups && fails(c)
    {
      failed := false;
      var i := |cleanups|;
      while i > 0
        invariant 0 <= i <= |cleanups| && invoked == old(invoked) + Reversed(cleanups[i..])
        invariant failed <==> exists c :: c in cleanups[i..] && fails(c)
      {
        i := i - 1;
        LastIsFirst(cleanups, i);
        Regroup(old(invoked), Reversed(cleanups[i + 1..]), [cleanups[i]]);
        invoked := invoked + [cleanups[i]];
        failed := failed || fails(cleanups[i]);
      }
      assert cleanups[0..] == cleanups;
    }
  }

  lemma LastIsFirst(s: seq<Cleanup>, i: nat)
    requires i < |s|
    ensures Reversed(s[i..]) == Reversed(s[i + 1..]) + [s[i]] && s[i..] == [s[i]] + s[i + 1..]
  {
    ReversedConcat([s[i]], s[i + 1..]);
    assert s[i..] == [s[i]] + s[i + 1..];
    assert Reversed([s[i]]) == [s[i]] by { assert [s[i]][..0] == []; }
  }
}
