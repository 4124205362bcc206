/** What repeated reconcile passes achieve. */
module ReconcileProofs {
  import opened Wrappers
  import opened Text
  import opened DesiredState
  import opened Reconcile

  /** The manager keeps Running names and run IDs as they are written. */
  ghost predicate SafeNames(d: Document) {
    forall i :: 0 <= i < |d.vms| && d.vms[i].phase == Running ==>
      IsSafeKey(d.vms[i].vmName) && IsSafeKey(d.vms[i].runId)
  }

  // ------------------------------------------------- a pass, one name at a time

  /** What a host holds under one name. */
  datatype Cell = Cell(vm: Option<LocalVm>, deleting: bool)

  ghost function At(h: Host, name: string): Cell { Cell(Lookup(h.vms, name), name in h.deleting) }

  ghost function CellDeleted(c: Cell, quick: bool): Cell {
    if c.vm.None? then c else if quick then Cell(None, false) else c.(deleting := true)
  }

  /** The effect of reconciling a safely named entry on its own name. */
  ghost function CellStep(c: Cell, v: DesiredVm, now: int, env: Env): Cell {
    if !Live(v, now) then CellDeleted(c, v.vmName in env.quick)
    else if c.vm.Some? then if Matches(c.vm.value, v) then c else CellDeleted(c, v.vmName in env.quick)
    else if UsableKeys(v) && v.vmName !in env.refused then c.(vm := Some(Record(v)))
    else c
  }

  lemma StepIsLocal(h: Host, v: DesiredVm, now: int, env: Env, name: string)
    requires IsSafeKey(v.vmName) && IsSafeKey(v.runId)
    ensures At(ReconcileVm(h, v, now, env).0, name)
            == if name == v.vmName then CellStep(At(h, name), v, now, env) else At(h, name)
  {
    SafeKeysAreTrimmed(v.vmName);
    SafeKeysAreTrimmed(v.runId);
  }

  /** The index of the Running entry called `name`, if the first `n` entries have one. */
  ghost function Entry(d: Document, n: nat, name: string): (r: Option<nat>)
    requires n <= |d.vms|
    ensures r.Some? ==> r.value < n && d.vms[r.value].phase == Running && d.vms[r.value].vmName == name
    ensures r.None? ==> forall i :: 0 <= i < n && d.vms[i].phase == Running ==> d.vms[i].vmName != name
  {
    if n == 0 then None
    else if d.vms[n - 1].phase == Running && d.vms[n - 1].vmName == name then Some(n - 1)
    else Entry(d, n - 1, name)
  }

  lemma SameNameSameEntry(d: Document, i: nat, j: nat)
    requires DistinctNames(d.vms) && i < |d.vms| && j < |d.vms| && d.vms[i].vmName == d.vms[j].vmName
    ensures i == j
  {
  }

  /** Distinct names make the loop act on each name once. */
  lemma {:induction false} FoldIsLocal(h: Host, d: Document, n: nat, now: int, env: Env, name: string)
    requires n <= |d.vms| && DistinctNames(d.vms) && SafeNames(d)
    ensures At(ReconcileAll(h, d.vms[..n], now, env), name)
            == match Entry(d, n, name)
               case None => At(h, name)
               case Some(i) => CellStep(At(h, name), d.vms[i], now, env)
    decreases n
  {
    if n > 0 {
      assert d.vms[..n][..n - 1] == d.vms[..n - 1];
      FoldIsLocal(h, d, n - 1, now, env, name);
      var v := d.vms[n - 1];
      if v.phase == Running {
        StepIsLocal(ReconcileAll(h, d.vms[..n - 1], now, env), v, now, env, name);
        if v.vmName == name {
          var before := Entry(d, n - 1, name);
          if before.Some? { SameNameSameEntry(d, before.value, n - 1); }
        }
      }
    }
  }

  ghost function NamedBy(d: Document, name: string): Option<nat> { Entry(d, |d.vms|, name) }

  lemma PassIsLocal(d: Document, h: Host, now: int, env: Env, name: string)
    requires DistinctNames(d.vms) && SafeNames(d)
    ensures At(Applied(d, h, now, env), name)
            == match NamedBy(d, name)
               case None => At(Purged(d, h, env), name)
               case Some(i) => CellStep(At(Purged(d, h, env), name), d.vms[i], now, env)
  {
    assert d.vms[..|d.vms|] == d.vms;
    FoldIsLocal(Purged(d, h, env), d, |d.vms|, now, env, name);
  }

  /** The first loop keeps a record under a Running name exactly when the run agrees. */
  lemma KeptMeansRunAgrees(d: Document, name: string, vm: LocalVm)
    requires DistinctNames(d.vms)
    ensures Kept(d, name, vm) <==> NamedBy(d, name).Some? && LocalRun(vm) == Some(d.vms[NamedBy(d, name).value].runId)
  {
    var named := NamedBy(d, name);
    if Kept(d, name, vm) {
      var i :| 0 <= i < |d.vms| && d.vms[i].phase == Running && d.vms[i].runId == LocalRun(vm).value &&
          d.vms[i].vmName == name;
      SameNameSameEntry(d, named.value, i);
    }
  }

  lemma PurgeIsLocal(d: Document, h: Host, env: Env, name: string)
    ensures At(Purged(d, h, env), name)
            == if name in h.vms && !Kept(d, name, h.vms[name]) then CellDeleted(At(h, name), name in env.quick)
               else At(h, name)
  {
  }

  /** Why an entry is reported as failed: its lease is over, or its name is free and it
      brings no usable key or the host refuses the create. */
  ghost predicate FailsAlone(c: Cell, v: DesiredVm, now: int, env: Env) {
    !Live(v, now) || (c.vm.None? && (!UsableKeys(v) || v.vmName in env.refused))
  }

  lemma EntryFailsAlone(d: Document, h: Host, i: nat, now: int, env: Env)
    requires i < |d.vms| && d.vms[i].phase == Running && DistinctNames(d.vms) && SafeNames(d)
    ensures ReconcileVm(ReconcileAll(h, d.vms[..i], now, env), d.vms[i], now, env).1
            <==> !FailsAlone(At(h, d.vms[i].vmName), d.vms[i], now, env)
  {
    var v := d.vms[i];
    FoldIsLocal(h, d, i, now, env, v.vmName);
    if Entry(d, i, v.vmName).Some? {
      SameNameSameEntry(d, Entry(d, i, v.vmName).value, i);
    }
    SafeKeysAreTrimmed(v.vmName);
    SafeKeysAreTrimmed(v.runId);
  }

  /** The entries among the first `n` that fail on their own name, in document order. */
  ghost function FailingAlone(d: Document, h: Host, n: nat, now: int, env: Env): seq<DesiredVm>
    requires n <= |d.vms|
  {
    if n == 0 then []
    else
      var v := d.vms[n - 1];
      FailingAlone(d, h, n - 1, now, env)
      + if v.phase == Running && FailsAlone(At(h, v.vmName), v, now, env) then [v] else []
  }

  /** The failure reports of a pass are exactly the entries that fail on their own name,
      whatever the entries before them did. */
  lemma {:induction false} ReportsAreExact(d: Document, h: Host, n: nat, now: int, env: Env)
    requires n <= |d.vms| && DistinctNames(d.vms) && SafeNames(d)
    ensures FailedEntries(h, d.vms[..n], now, env) == FailingAlone(d, h, n, now, env)
    decreases n
  {
    if n > 0 {
      assert d.vms[..n][..n - 1] == d.vms[..n - 1];
      ReportsAreExact(d, h, n - 1, now, env);
      if d.vms[n - 1].phase == Running {
        EntryFailsAlone(d, h, n - 1, now, env);
      }
    }
  }

  // ---------------------------------------------------- after one settled pass

  /** One pass whose cleanups then finish. */
  ghost function Round(d: Document, h: Host, now: int, env: Env): Host {
    Settled(Applied(d, h, now, env))
  }

  /** The record is wanted: a live Running entry names it and it matches. */
  ghost predicate Wanted(d: Document, name: string, vm: LocalVm, now: int) {
    && NamedBy(d, name).Some?
    && Live(d.vms[NamedBy(d, name).value], now)
    && Matches(vm, d.vms[NamedBy(d, name).value])
  }

  lemma RecordMatches(v: DesiredVm)
    requires IsSafeKey(v.runId)
    ensures Matches(Record(v), v)
  {
    SafeKeysAreTrimmed(v.runId);
    assert Trim(Trim(v.runId)) == v.runId;
  }

  /** The outcome of a settled pass under each name: a matching record that nobody was
      deleting stays; a free or vacated name gets a fresh record only if the create
      went through; nothing else is left. */
  lemma RoundOutcome(d: Document, h: Host, now: int, env: Env, name: string)
    requires DistinctNames(d.vms) && SafeNames(d)
    ensures var after := Round(d, h, now, env);
            && after.deleting == {}
            && (name in after.vms ==> Wanted(d, name, after.vms[name], now))
            && (name in h.vms && Wanted(d, name, h.vms[name], now) ==>
                  (name in after.vms <==> name !in h.deleting)
                  && (name in after.vms ==> after.vms[name] == h.vms[name]))
            && (name !in h.vms && name !in h.deleting ==>
                  (name in after.vms <==> NamedBy(d, name).Some? && Creatable(d, name, now, env))
                  && (name in after.vms ==> after.vms[name] == Record(d.vms[NamedBy(d, name).value])))
  {
    PassIsLocal(d, h, now, env, name);
    PurgeIsLocal(d, h, env, name);
    if name in h.vms { KeptMeansRunAgrees(d, name, h.vms[name]); }
    if NamedBy(d, name).Some? { RecordMatches(d.vms[NamedBy(d, name).value]); }
    SettledAt(Applied(d, h, now, env), name);
  }

  ghost predicate Creatable(d: Document, name: string, now: int, env: Env)
    requires NamedBy(d, name).Some?
  {
    var v := d.vms[NamedBy(d, name).value];
    Live(v, now) && UsableKeys(v) && name !in env.refused
  }

  lemma SettledAt(h: Host, name: string)
    ensures name in Settled(h).vms <==> At(h, name).vm.Some? && !At(h, name).deleting
    ensures name in Settled(h).vms ==> Some(Settled(h).vms[name]) == At(h, name).vm
  {
  }

  // ------------------------------------------------------------- convergence

  /** No lease runs out between the two times. */
  ghost predicate LeasesHold(d: Document, from: int, to: int) {
    forall i :: 0 <= i < |d.vms| && Live(d.vms[i], from) ==> Live(d.vms[i], to)
  }

  /** The records the document asks for. */
  ghost function Target(d: Document, now: int): map<string, LocalVm> {
    map name | name in (set i | 0 <= i < |d.vms| :: d.vms[i].vmName)
               && NamedBy(d, name).Some? && Live(d.vms[NamedBy(d, name).value], now)
      :: AsWritten(d.vms[NamedBy(d, name).value])
  }

  function AsWritten(v: DesiredVm): LocalVm {
    LocalVm(Some(Details(Some(v.runId), v.owner, v.execution, v.generation)))
  }

  lemma TargetDomain(d: Document, now: int, name: string)
    ensures name in Target(d, now) <==> NamedBy(d, name).Some? && Live(d.vms[NamedBy(d, name).value], now)
  {
    if NamedBy(d, name).Some? {
      assert d.vms[NamedBy(d, name).value].vmName == name;
    }
  }

  /** A managed record that matches is the record the document spells out. */
  lemma ManagedMatchIsAsWritten(vms: map<string, LocalVm>, name: string, v: DesiredVm)
    requires Managed(vms) && name in vms && Matches(vms[name], v)
    ensures vms[name] == AsWritten(v)
  {
    SafeKeysAreTrimmed(vms[name].details.value.runId.value);
  }

  lemma {:induction false} ReconcileAllKeepsManaged(h: Host, vms: seq<DesiredVm>, now: int, env: Env)
    requires Managed(h.vms)
    ensures Managed(ReconcileAll(h, vms, now, env).vms)
    decreases |vms|
  {
    if vms != [] {
      ReconcileAllKeepsManaged(h, vms[..|vms| - 1], now, env);
    }
  }

  /** Only records that are still there are marked for deletion. */
  ghost predicate MarksRecords(h: Host) { h.deleting <= h.vms.Keys }

  lemma {:induction false} ReconcileAllMarksRecords(h: Host, vms: seq<DesiredVm>, now: int, env: Env)
    requires MarksRecords(h)
    ensures MarksRecords(ReconcileAll(h, vms, now, env))
    decreases |vms|
  {
    if vms != [] {
      ReconcileAllMarksRecords(h, vms[..|vms| - 1], now, env);
    }
  }

  lemma RoundKeepsManaged(d: Document, h: Host, now: int, env: Env)
    requires Managed(h.vms)
    ensures Managed(Round(d, h, now, env).vms)
  {
    ReconcileAllKeepsManaged(Purged(d, h, env), d.vms, now, env);
  }

  /** From any host, two settled passes leave exactly this: under each live Running name
      the matching record, unless the entry has no usable key and no record was left to
      keep.  The first pass may fail any creates; the second must not. */
  lemma TwoRoundsAt(d: Document, h: Host, now1: int, env1: Env, now2: int, env2: Env, name: string)
    requires DistinctNames(d.vms) && SafeNames(d) && LeasesHold(d, now1, now2) && now1 <= now2
    requires env2.refused == {}
    ensures var once := Round(d, h, now1, env1);
            var twice := Round(d, once, now2, env2);
            && (name in twice.vms ==> Wanted(d, name, twice.vms[name], now2))
            && (name in twice.vms <==>
                  && NamedBy(d, name).Some?
                  && Live(d.vms[NamedBy(d, name).value], now2)
                  && (UsableKeys(d.vms[NamedBy(d, name).value]) || name in once.vms))
  {
    RoundOutcome(d, h, now1, env1, name);
    RoundOutcome(d, Round(d, h, now1, env1), now2, env2, name);
  }

  /** A third pass, in any environment, changes nothing. */
  lemma ThirdRoundIsIdle(
    d: Document, h: Host, now1: int, env1: Env, now2: int, env2: Env, now3: int, env3: Env)
    requires DistinctNames(d.vms) && SafeNames(d)
    requires now1 <= now2 <= now3 && LeasesHold(d, now1, now2) && LeasesHold(d, now2, now3)
    requires env2.refused == {}
    ensures var twice := Round(d, Round(d, h, now1, env1), now2, env2);
            Applied(d, twice, now3, env3) == twice && Round(d, twice, now3, env3) == twice
  {
    var once := Round(d, h, now1, env1);
    var twice := Round(d, once, now2, env2);
    var thrice := Applied(d, twice, now3, env3);
    forall name ensures At(thrice, name) == At(twice, name) {
      TwoRoundsAt(d, h, now1, env1, now2, env2, name);
      RoundOutcome(d, h, now1, env1, name);
      PassIsLocal(d, twice, now3, env3, name);
      PurgeIsLocal(d, twice, env3, name);
      if name in twice.vms { KeptMeansRunAgrees(d, name, twice.vms[name]); }
    }
    SameCellsSameHost(thrice, twice);
  }

  lemma SameCellsSameHost(a: Host, b: Host)
    requires forall name :: At(a, name) == At(b, name)
    ensures a == b
  {
    forall name ensures name in a.vms <==> name in b.vms
      ensures name in a.deleting <==> name in b.deleting
      ensures name in a.vms ==> name in b.vms && a.vms[name] == b.vms[name]
    {
      assert At(a, name) == At(b, name);
    }
    assert a.vms.Keys == b.vms.Keys && a.vms == b.vms && a.deleting == b.deleting;
  }

  /** Two settled passes reach the document exactly when its Running names and run IDs
      are safe keys: the manager trims what it stores, so anything else never matches. */
  lemma ConvergesIffNamesAreSafe(
    cfg: Config, d: Document, h: Host, now1: int, env1: Env, now2: int, env2: Env)
    requires Valid(cfg, d) && Managed(h.vms) && now1 <= now2 && env2.refused == {}
    requires forall i :: 0 <= i < |d.vms| && d.vms[i].phase == Running ==> Live(d.vms[i], now2) && UsableKeys(d.vms[i])
    ensures Round(d, Round(d, h, now1, env1), now2, env2) == Host(Target(d, now2), {}) <==> SafeNames(d)
  {
    var once := Round(d, h, now1, env1);
    var twice := Round(d, once, now2, env2);
    RoundKeepsManaged(d, h, now1, env1);
    RoundKeepsManaged(d, once, now2, env2);
    if SafeNames(d) {
      forall name ensures Lookup(twice.vms, name) == Lookup(Target(d, now2), name) {
        AbsentLeasesHold(d, h, now1, env1, now2, env2, name);
        TargetDomain(d, now2, name);
        if name in twice.vms {
          ManagedMatchIsAsWritten(twice.vms, name, d.vms[NamedBy(d, name).value]);
        }
      }
      SameLookupsSameMap(twice.vms, Target(d, now2));
    }
    if twice.vms == Target(d, now2) {
      forall i | 0 <= i < |d.vms| && d.vms[i].phase == Running
        ensures IsSafeKey(d.vms[i].vmName) && IsSafeKey(d.vms[i].runId)
      {
        ReachedEntryIsSafe(d, twice.vms, now2, i);
      }
    }
  }

  /** With every Running lease live at the end, the two-round outcome needs no more. */
  lemma AbsentLeasesHold(d: Document, h: Host, now1: int, env1: Env, now2: int, env2: Env, name: string)
    requires DistinctNames(d.vms) && SafeNames(d) && now1 <= now2 && env2.refused == {}
    requires forall i :: 0 <= i < |d.vms| && d.vms[i].phase == Running ==> Live(d.vms[i], now2) && UsableKeys(d.vms[i])
    ensures var twice := Round(d, Round(d, h, now1, env1), now2, env2);
            && (name in twice.vms ==> Wanted(d, name, twice.vms[name], now2))
            && (name in twice.vms <==> NamedBy(d, name).Some? && Live(d.vms[NamedBy(d, name).value], now2))
  {
    RoundOutcome(d, h, now1, env1, name);
    RoundOutcome(d, Round(d, h, now1, env1), now2, env2, name);
  }

  lemma SameLookupsSameMap(a: map<string, LocalVm>, b: map<string, LocalVm>)
    requires forall name :: Lookup(a, name) == Lookup(b, name)
    ensures a == b
  {
    forall name ensures name in a <==> name in b
      ensures name in a ==> name in b && a[name] == b[name]
    {
      assert Lookup(a, name) == Lookup(b, name);
    }
    assert a.Keys == b.Keys;
  }

  lemma ReachedEntryIsSafe(d: Document, vms: map<string, LocalVm>, now: int, i: nat)
    requires DistinctNames(d.vms) && Managed(vms) && vms == Target(d, now)
    requires i < |d.vms| && d.vms[i].phase == Running && Live(d.vms[i], now)
    ensures IsSafeKey(d.vms[i].vmName) && IsSafeKey(d.vms[i].runId)
  {
    var name := d.vms[i].vmName;
    var named := NamedBy(d, name);
    SameNameSameEntry(d, named.value, i);
    TargetDomain(d, now, name);
    assert vms[name] == AsWritten(d.vms[i]);
  }
}
