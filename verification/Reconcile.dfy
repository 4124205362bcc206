/** Reconciling the local VMs of a host with a desired-state document
    (`apply_desired_state`, `reconcile_desired_vm`, `validate_restart` in
    crates/intar-agent/src/bridge.rs, over the VM manager of vm/manager/api.rs).

    The manager deletes in the background: `delete_vm` marks a record and a cleanup
    task removes it later, so a pass may or may not still see a VM it just deleted. */
module Reconcile {
  import opened Wrappers
  import opened Text
  import opened DesiredState

  datatype Details = Details(runId: Option<string>, owner: string, execution: string, generation: nat)
  datatype LocalVm = LocalVm(details: Option<Details>)

  datatype Host = Host(vms: map<string, LocalVm>, deleting: set<string>)

  /** The environment of one pass: the deletes whose cleanup finishes while the pass
      still runs, and the creates the host refuses (drain, capacity, network, disk). */
  datatype Env = Env(quick: set<string>, refused: set<string>)

  /** Names and run IDs enter the manager trimmed and checked by `is_safe_key`. */
  predicate Managed(vms: map<string, LocalVm>) {
    forall name :: name in vms ==>
      && IsSafeKey(name)
      && (vms[name].details.Some? && vms[name].details.value.runId.Some? ==>
            IsSafeKey(vms[name].details.value.runId.value))
  }

  /** `local_run_id` */
  function LocalRun(vm: LocalVm): Option<string> {
    if vm.details.Some? && vm.details.value.runId.Some? && Trim(vm.details.value.runId.value) != ""
    then Some(Trim(vm.details.value.runId.value)) else None
  }

  /** The record is the execution the document asks for. */
  predicate Matches(vm: LocalVm, v: DesiredVm) {
    && LocalRun(vm) == Some(v.runId)
    && vm.details.Some?
    && vm.details.value.owner == v.owner
    && vm.details.value.execution == v.execution
    && vm.details.value.generation == v.generation
  }

  predicate UsableKeys(v: DesiredVm) {
    exists i :: 0 <= i < |v.sshKeys| && Trim(v.sshKeys[i]) != ""
  }

  predicate Live(v: DesiredVm, now: int) { v.leaseExpiresAtMs > now }

  // ------------------------------------------------------- manager operations

  function Deleted(h: Host, name: string, env: Env): Host {
    if name !in h.vms then h
    else if name in env.quick then Host(h.vms - {name}, h.deleting - {name})
    else h.(deleting := h.deleting + {name})
  }

  function Record(v: DesiredVm): LocalVm {
    LocalVm(Some(Details(Some(Trim(v.runId)), v.owner, v.execution, v.generation)))
  }

  predicate CreateSucceeds(h: Host, v: DesiredVm, env: Env) {
    && IsSafeKey(Trim(v.vmName)) && IsSafeKey(Trim(v.runId))
    && Trim(v.vmName) !in h.vms
    && v.vmName !in env.refused
  }

  /** The background cleanups finish. */
  function Settled(h: Host): Host { Host(h.vms - h.deleting, {}) }

  // --------------------------------------------------------------- one pass

  predicate InDocument(d: Document, run: string, name: string, phase: Phase) {
    exists i :: 0 <= i < |d.vms| && d.vms[i].phase == phase && d.vms[i].runId == run && d.vms[i].vmName == name
  }

  /** The first loop of a pass keeps a record exactly when a Running entry names it. */
  predicate Kept(d: Document, name: string, vm: LocalVm) {
    && LocalRun(vm).Some?
    && InDocument(d, LocalRun(vm).value, name, Running)
    && !InDocument(d, LocalRun(vm).value, name, Absent)
  }

  function Unwanted(d: Document, h: Host): set<string> {
    set name | name in h.vms && !Kept(d, name, h.vms[name])
  }

  /** Deleting a set of records: the quick ones are gone, the others are marked. */
  function AllDeleted(h: Host, names: set<string>, env: Env): Host {
    Host(h.vms - names * env.quick, h.deleting + names - names * env.quick)
  }

  function Purged(d: Document, h: Host, env: Env): Host { AllDeleted(h, Unwanted(d, h), env) }

  lemma DeleteOneMore(h: Host, names: set<string>, name: string, env: Env)
    requires name in h.vms && name !in names
    ensures Deleted(AllDeleted(h, names, env), name, env) == AllDeleted(h, names + {name}, env)
  {
  }

  /** `reconcile_desired_vm`, with the outcome the failure reports are built from. */
  function ReconcileVm(h: Host, v: DesiredVm, now: int, env: Env): (Host, bool) {
    if !Live(v, now) then (Deleted(h, Trim(v.vmName), env), false)
    else if v.vmName in h.vms then
      (if Matches(h.vms[v.vmName], v) then h else Deleted(h, Trim(v.vmName), env), true)
    else if !UsableKeys(v) || !CreateSucceeds(h, v, env) then (h, false)
    else (h.(vms := h.vms[Trim(v.vmName) := Record(v)]), true)
  }

  function ReconcileAll(h: Host, vms: seq<DesiredVm>, now: int, env: Env): Host {
    if vms == [] then h
    else
      var front := ReconcileAll(h, vms[..|vms| - 1], now, env);
      var v := vms[|vms| - 1];
      if v.phase == Running then ReconcileVm(front, v, now, env).0 else front
  }

  /** The Running entries whose reconcile failed, in document order. */
  function FailedEntries(h: Host, vms: seq<DesiredVm>, now: int, env: Env): seq<DesiredVm> {
    if vms == [] then []
    else
      var front, v := vms[..|vms| - 1], vms[|vms| - 1];
      FailedEntries(h, front, now, env)
      + if v.phase == Running && !ReconcileVm(ReconcileAll(h, front, now, env), v, now, env).1 then [v] else []
  }

  function Applied(d: Document, h: Host, now: int, env: Env): Host {
    ReconcileAll(Purged(d, h, env), d.vms, now, env)
  }

  class VmManager {
    var vms: map<string, LocalVm>
    var deleting: set<string>

    function State(): Host reads this { Host(vms, deleting) }

    predicate Valid() reads this { Managed(vms) }

    constructor ()
      ensures Valid() && State() == Host(map[], {})
    {
      vms, deleting := map[], {};
    }

    /** `delete_vm_if_present` */
    method Delete(name: string, env: Env)
      requires Valid()
      modifies this
      ensures Valid() && State() == Deleted(old(State()), Trim(name), env)
    {
      var key := Trim(name);
      if key in vms {
        if key in env.quick {
          vms, deleting := vms - {key}, deleting - {key};
        } else {
          deleting := deleting + {key};
        }
      }
    }

    /** `create_scenario_vm` */
    method Create(v: DesiredVm, env: Env) returns (ok: bool)
      requires Valid()
      modifies this
      ensures Valid() && ok == CreateSucceeds(old(State()), v, env)
      ensures State() == if ok then old(State()).(vms := old(vms)[Trim(v.vmName) := Record(v)]) else old(State())
    {
      ok := CreateSucceeds(State(), v, env);
      if ok {
        vms := vms[Trim(v.vmName) := Record(v)];
      }
    }

    method Reconcile(v: DesiredVm, now: int, env: Env) returns (ok: bool)
      requires Valid()
      modifies this
      ensures Valid() && (State(), ok) == ReconcileVm(old(State()), v, now, env)
    {
      if v.leaseExpiresAtMs <= now {
        Delete(v.vmName, env);
        return false;
      }
      if v.vmName in vms {
        if !Matches(vms[v.vmName], v) {
          Delete(v.vmName, env);
        }
        return true;
      }
      if !UsableKeys(v) {
        return false;
      }
      ok := Create(v, env);
    }

    /** The first loop of `apply_desired_state`, over a snapshot in any order. */
    method Purge(d: Document, env: Env)
      requires Valid()
      modifies this
      ensures Valid() && State() == Purged(d, old(State()), env)
    {
      ghost var before, unwanted := State(), Unwanted(d, State());
      var snapshot := vms;
      var remaining := snapshot.Keys;
      while remaining != {}
        invariant Valid() && remaining <= snapshot.Keys
        invariant State() == AllDeleted(before, unwanted - remaining, env)
        decreases remaining
      {
        var name :| name in remaining;
        if !Kept(d, name, snapshot[name]) {
          SafeKeysAreTrimmed(name);
          DeleteOneMore(before, unwanted - remaining, name, env);
          Delete(name, env);
          assert unwanted - remaining + {name} == unwanted - (remaining - {name});
        } else {
          assert unwanted - remaining == unwanted - (remaining - {name});
        }
        remaining := remaining - {name};
      }
      assert unwanted - {} == unwanted;
    }

    /** `apply_desired_state`: the entries whose reconcile failed are reported. */
    method ApplyDesiredState(cfg: Config, d: Document, now: int, env: Env)
      returns (failures: Result<seq<DesiredVm>, ()>)
      requires Valid()
      modifies this
      ensures Valid() && (failures.Ok? <==> DesiredState.Valid(cfg, d))
      ensures State() == if failures.Ok? then Applied(d, old(State()), now, env) else old(State())
      ensures failures.Ok? ==> failures.value == FailedEntries(Purged(d, old(State()), env), d.vms, now, env)
    {
      var valid := ValidateDesiredState(cfg, d);
      if !valid {
        return Err(());
      }
      Purge(d, env);
      var reported := ReconcileEach(d.vms, now, env);
      failures := Ok(reported);
    }

    /** The second loop of `apply_desired_state`. */
    method ReconcileEach(entries: seq<DesiredVm>, now: int, env: Env) returns (failed: seq<DesiredVm>)
      requires Valid()
      modifies this
      ensures Valid() && State() == ReconcileAll(old(State()), entries, now, env)
      ensures failed == FailedEntries(old(State()), entries, now, env)
    {
      failed := [];
      var i := 0;
      while i < |entries|
        invariant 0 <= i <= |entries| && Valid()
        invariant State() == ReconcileAll(old(State()), entries[..i], now, env)
        invariant failed == FailedEntries(old(State()), entries[..i], now, env)
      {
        assert entries[..i + 1][..i] == entries[..i];
        if entries[i].phase == Running {
          var ok := Reconcile(entries[i], now, env);
          if !ok {
            failed := failed + [entries[i]];
          }
        }
        i := i + 1;
      }
      assert entries[..i] == entries;
    }
  }
}
