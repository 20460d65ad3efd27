/** Lease boundaries: the gate around assembled facades and the registry of
    Action executions. Both close a channel once revoked and drained. */
module Leases {

  // ---------- The facade gate ----------

  /** `closed` counts how often the drained channel was closed; a second close
      would crash the process. */
  datatype Gate = Gate(open: bool, held: set<nat>, closed: nat)

  predicate GateOk(g: Gate) {
    g.closed == if !g.open && g.held == {} then 1 else 0
  }

  function NewGate(): (g: Gate)
    ensures GateOk(g) && g.open && g.held == {}
  {
    Gate(true, {}, 0)
  }

  predicate Drained(g: Gate) { g.closed > 0 }

  function GateAcquire(g: Gate, lease: nat): Gate {
    if g.open && lease !in g.held then g.(held := g.held + {lease}) else g
  }

  function CloseIfDrained(g: Gate): Gate {
    if !g.open && g.held == {} && g.closed == 0 then g.(closed := g.closed + 1) else g
  }

  function GateRelease(g: Gate, lease: nat): Gate {
    if lease in g.held then CloseIfDrained(g.(held := g.held - {lease})) else g
  }

  function GateRevoke(g: Gate): Gate {
    if g.open then CloseIfDrained(g.(open := false)) else g
  }

  lemma GateKeeps(g: Gate, lease: nat)
    requires GateOk(g)
    ensures GateOk(GateAcquire(g, lease)) && GateOk(GateRelease(g, lease)) && GateOk(GateRevoke(g)) && !GateRevoke(g).open
    ensures !g.open ==> GateAcquire(g, lease) == g && !GateRelease(g, lease).open
    ensures Drained(g) ==> Drained(GateRelease(g, lease)) && Drained(GateRevoke(g))
    ensures g.held == {} ==> GateRelease(g, lease).held == {} && GateRevoke(g).held == {}
  {
  }

  /** The gate object: a counter of active calls under a lock. */
  class AssemblyGate {
    var open: bool
    var active: int
    var drainOnce: bool
    ghost var held: set<nat>
    ghost var closed: nat

    ghost predicate Valid()
      reads this
    {
      active == |held| && (drainOnce <==> closed > 0) && GateOk(Model())
    }

    ghost function Model(): Gate
      reads this
    {
      Gate(open, held, closed)
    }

    constructor ()
      ensures Valid() && Model() == NewGate()
    {
      open, active, drainOnce := true, 0, false;
      held, closed := {}, 0;
    }

    method Acquire(ghost lease: nat) returns (ok: bool)
      requires Valid() && lease !in held
      modifies this
      ensures Valid() && ok == old(open) && Model() == GateAcquire(old(Model()), lease)
    {
      if !open { return false; }
      active := active + 1;
      held := held + {lease};
      return true;
    }

    method CloseDrained()
      requires active == |held| && (drainOnce <==> closed > 0) && !open && active == 0
      modifies this
      ensures Model() == CloseIfDrained(old(Model()))
      ensures active == old(active) && (drainOnce <==> closed > 0)
    {
      assert held == {};
      if !drainOnce {
        drainOnce := true;
        closed := closed + 1;
      }
    }

    method Release(ghost lease: nat)
      requires Valid() && lease in held
      modifies this
      ensures Valid() && Model() == GateRelease(old(Model()), lease)
    {
      active := active - 1;
      held := held - {lease};
      if !open && active == 0 { CloseDrained(); }
    }

    method Revoke()
      requires Valid()
      modifies this
      ensures Valid() && Model() == GateRevoke(old(Model()))
    {
      if open {
        open := false;
        if active == 0 { CloseDrained(); }
      }
    }
  }

  // ---------- The Action registry ----------

  datatype Registry = Registry(actions: set<string>, leases: set<nat>, revoked: bool, closed: nat)

  predicate RegistryOk(r: Registry) {
    && r.closed == (if r.revoked && r.leases == {} then 1 else 0)
    && (r.revoked ==> r.actions == {})
  }

  function NewRegistry(): (r: Registry)
    ensures RegistryOk(r) && !r.revoked
  {
    Registry({}, {}, false, 0)
  }

  function Bind(r: Registry, id: string): Registry {
    if r.revoked || id in r.actions then r else r.(actions := r.actions + {id})
  }

  function ActionAcquire(r: Registry, lease: nat): Registry {
    if r.revoked || lease in r.leases then r else r.(leases := r.leases + {lease})
  }

  function CloseDrained(r: Registry): Registry {
    if r.revoked && r.leases == {} && r.closed == 0 then r.(closed := r.closed + 1) else r
  }

  function ActionRelease(r: Registry, lease: nat): Registry {
    CloseDrained(r.(leases := r.leases - {lease}))
  }

  function Revoke(r: Registry): Registry {
    if r.revoked then r else CloseDrained(r.(revoked := true, actions := {}))
  }

  /** What no operation on a registry undoes. */
  predicate RegistryLater(r: Registry, s: Registry) {
    RegistryOk(s) && (r.revoked ==> s.revoked) && (r.closed > 0 ==> s.closed > 0)
  }

  lemma RegistryKeeps(r: Registry, lease: nat)
    requires RegistryOk(r)
    ensures RegistryLater(r, ActionAcquire(r, lease)) && RegistryLater(r, ActionRelease(r, lease))
    ensures RegistryLater(r, Revoke(r)) && Revoke(r).revoked
  {
  }

  const LEASE_IDS: nat := 0x1_0000_0000_0000_0000

  /** Steps from `next` around the ring of identifiers to `target`. */
  function Ahead(next: nat, target: nat): nat
    requires next < LEASE_IDS && target < LEASE_IDS
  {
    if next <= target then target - next else target + LEASE_IDS - next
  }

  class ActionRegistry {
    var actions: set<string>
    var leases: set<nat>
    var nextLeaseID: nat
    var revoked: bool
    var drainClosed: bool
    ghost var closed: nat

    ghost predicate Valid()
      reads this
    {
      && nextLeaseID < LEASE_IDS && (forall l :: l in leases ==> l < LEASE_IDS)
      && (drainClosed <==> closed > 0) && RegistryOk(Model())
    }

    ghost function Model(): Registry
      reads this
    {
      Registry(actions, leases, revoked, closed)
    }

    constructor ()
      ensures Valid() && Model() == NewRegistry()
    {
      actions, leases, nextLeaseID := {}, {}, 0;
      revoked, drainClosed, closed := false, false, 0;
    }

    method BindPrepared(id: string) returns (ok: bool)
      requires Valid()
      modifies this
      ensures Valid() && Model() == Bind(old(Model()), id)
      ensures ok <==> !old(revoked) && id !in old(actions)
    {
      if revoked || id in actions { return false; }
      actions := actions + {id};
      return true;
    }

    /** Identifiers wrap around; an identifier still in use is skipped. */
    method Acquire() returns (lease: nat, refused: bool)
      requires Valid()
      requires exists free: nat :: free < LEASE_IDS && free !in leases
      modifies this
      ensures Valid() && refused == old(revoked)
      ensures refused ==> Model() == old(Model())
      ensures !refused ==> lease !in old(leases) && Model() == ActionAcquire(old(Model()), lease)
    {
      if revoked { return 0, true; }
      ghost var free: nat :| free < LEASE_IDS && free !in leases;
      nextLeaseID := if nextLeaseID + 1 == LEASE_IDS then 0 else nextLeaseID + 1;
      while nextLeaseID in leases
        invariant nextLeaseID < LEASE_IDS && Model() == old(Model()) && drainClosed == old(drainClosed)
        decreases Ahead(nextLeaseID, free)
      {
        nextLeaseID := if nextLeaseID + 1 == LEASE_IDS then 0 else nextLeaseID + 1;
      }
      leases := leases + {nextLeaseID};
      return nextLeaseID, false;
    }

    method CloseDrainedLocked()
      requires drainClosed <==> closed > 0
      modifies this`drainClosed, this`closed
      ensures (drainClosed <==> closed > 0) && Model() == CloseDrained(old(Model()))
    {
      if revoked && |leases| == 0 && !drainClosed {
        drainClosed := true;
        closed := closed + 1;
      }
    }

    method Release(lease: nat)
      requires Valid()
      modifies this
      ensures Valid() && Model() == ActionRelease(old(Model()), lease)
    {
      leases := leases - {lease};
      CloseDrainedLocked();
    }

    method RevokeAll()
      requires Valid()
      modifies this
      ensures Valid() && Model() == Revoke(old(Model()))
    {
      if !revoked {
        revoked := true;
        actions := {};
        CloseDrainedLocked();
      }
    }
  }
}
