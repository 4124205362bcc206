/** Desired-state documents of one host (crates/intar-agent/src/bridge.rs and
    bridge/transport.rs): validation, the transition check, and the versioned
    protocol that keeps a durable and an in-memory copy. */
module DesiredState {
  import opened Wrappers
  import opened Text

  const SCHEMA_VERSION := 6
  const I64_MAX := 0x7FFF_FFFF_FFFF_FFFF

  datatype HostScope = Personal | Platform | Organization
  datatype Phase = Running | Absent

  /** `payload` stands for the fields no check here looks at (image, tools, resources). */
  datatype DesiredVm = DesiredVm(
    vmId: string, owner: string, execution: string, generation: nat, runId: string, vmName: string,
    phase: Phase, sshKeys: seq<string>, leaseExpiresAtMs: int, payload: string)

  datatype Document = Document(
    scope: HostScope, owner: string, schemaVersion: nat, hostId: string, version: nat,
    vms: seq<DesiredVm>, builds: seq<string>, payload: string)

  datatype Config = Config(hostId: string, scope: HostScope, owner: string)

  // -------------------------------------------------------------- validation

  /** `BridgeConfig::validate_owner` */
  predicate OwnerValid(cfg: Config, owner: string, execution: string, generation: nat) {
    && !IsBlank(owner) && IsTrimmed(owner)
    && !IsBlank(execution) && IsTrimmed(execution)
    && 0 < generation <= I64_MAX
    && (cfg.scope == Personal ==> owner == cfg.owner)
  }

  predicate VmValid(cfg: Config, vm: DesiredVm) {
    && OwnerValid(cfg, vm.owner, vm.execution, vm.generation)
    && !IsBlank(vm.runId) && !IsBlank(vm.vmName) && !IsBlank(vm.vmId)
  }

  predicate HeaderValid(cfg: Config, d: Document) {
    && d.schemaVersion == SCHEMA_VERSION
    && d.hostId == cfg.hostId
    && d.scope == cfg.scope && d.owner == cfg.owner && !IsBlank(d.owner)
  }

  datatype Identity = Identity(owner: string, execution: string, generation: nat)

  function IdentityOf(vm: DesiredVm): Identity { Identity(vm.owner, vm.execution, vm.generation) }

  predicate SameExecution(a: DesiredVm, b: DesiredVm) { IdentityOf(a) == IdentityOf(b) }

  ghost predicate DistinctNames(vms: seq<DesiredVm>) {
    forall i, j {:trigger vms[i].vmName, vms[j].vmName} ::
      0 <= i < j < |vms| ==> vms[i].vmName != vms[j].vmName
  }

  /** Every run in the document has one owner, one generation and one execution. */
  ghost predicate UniformRuns(vms: seq<DesiredVm>) {
    forall i, j {:trigger vms[i].runId, vms[j].runId} ::
      0 <= i < |vms| && 0 <= j < |vms| && vms[i].runId == vms[j].runId ==> SameExecution(vms[i], vms[j])
  }

  ghost predicate Valid(cfg: Config, d: Document) {
    && HeaderValid(cfg, d)
    && (forall i :: 0 <= i < |d.vms| ==> VmValid(cfg, d.vms[i]))
    && DistinctNames(d.vms)
    && UniformRuns(d.vms)
    && d.builds == []
  }

  /** `names` holds the names of the first `n` VMs, which are distinct. */
  ghost predicate NamesTracked(vms: seq<DesiredVm>, n: nat, names: set<string>) {
    && n <= |vms|
    && names == (set j | 0 <= j < n :: vms[j].vmName)
    && DistinctNames(vms[..n])
  }

  method TrackName(vms: seq<DesiredVm>, n: nat, names: set<string>) returns (unused: bool, longer: set<string>)
    requires n < |vms| && NamesTracked(vms, n, names)
    ensures unused ==> NamesTracked(vms, n + 1, longer)
    ensures !unused ==> !DistinctNames(vms)
  {
    unused := vms[n].vmName !in names;
    longer := names + {vms[n].vmName};
    if unused {
      var front := vms[..n + 1];
      forall i, j | 0 <= i < j < |front| ensures front[i].vmName != front[j].vmName {
        if j < n {
          assert vms[..n][i].vmName != vms[..n][j].vmName;
        } else {
          assert vms[i].vmName in names;
        }
      }
    }
  }

  /** `runs` maps the run of each of the first `n` VMs to the identity they all share. */
  ghost predicate RunsTracked(vms: seq<DesiredVm>, n: nat, runs: map<string, Identity>) {
    && n <= |vms|
    && (forall j {:trigger vms[j].runId} :: 0 <= j < n ==>
          vms[j].runId in runs && runs[vms[j].runId] == IdentityOf(vms[j]))
    && (forall run :: run in runs ==> exists j :: 0 <= j < n && vms[j].runId == run)
  }

  method TrackRun(vms: seq<DesiredVm>, n: nat, runs: map<string, Identity>)
    returns (consistent: bool, longer: map<string, Identity>)
    requires n < |vms| && RunsTracked(vms, n, runs)
    ensures consistent ==> RunsTracked(vms, n + 1, longer)
    ensures !consistent ==> !UniformRuns(vms)
  {
    var run, identity := vms[n].runId, IdentityOf(vms[n]);
    consistent := run in runs ==> runs[run] == identity;
    longer := runs[run := identity];
    if !consistent {
      var j :| 0 <= j < n && vms[j].runId == run;
      assert !SameExecution(vms[j], vms[n]);
    }
  }

  /** `validate_desired_state`: one pass with a set of names and a map of runs. */
  method ValidateDesiredState(cfg: Config, d: Document) returns (ok: bool)
    ensures ok <==> Valid(cfg, d)
  {
    if !HeaderValid(cfg, d) {
      return false;
    }
    var names: set<string> := {};
    var runs: map<string, Identity> := map[];
    var i := 0;
    while i < |d.vms|
      invariant 0 <= i <= |d.vms|
      invariant forall j :: 0 <= j < i ==> VmValid(cfg, d.vms[j])
      invariant NamesTracked(d.vms, i, names)
      invariant RunsTracked(d.vms, i, runs)
    {
      if !VmValid(cfg, d.vms[i]) {
        return false;
      }
      var newName, consistent;
      newName, names := TrackName(d.vms, i, names);
      if !newName {
        return false;
      }
      consistent, runs := TrackRun(d.vms, i, runs);
      if !consistent {
        return false;
      }
      i := i + 1;
    }
    assert d.vms[..i] == d.vms;
    ok := d.builds == [];
  }

  // -------------------------------------------------------------- transition

  predicate Continues(old_: DesiredVm, new_: DesiredVm) {
    && new_.owner == old_.owner
    && new_.generation >= old_.generation
    && (new_.generation == old_.generation ==> new_.execution == old_.execution)
  }

  ghost predicate TransitionAllowed(current: Option<Document>, incoming: Document) {
    current.Some? ==>
      && (incoming.version == current.value.version ==> incoming == current.value)
      && forall i, j :: 0 <= i < |incoming.vms| && 0 <= j < |current.value.vms|
                        && incoming.vms[i].runId == current.value.vms[j].runId ==>
                          Continues(current.value.vms[j], incoming.vms[i])
  }

  /** `validate_desired_transition` */
  method ValidateDesiredTransition(current: Option<Document>, incoming: Document) returns (ok: bool)
    ensures ok <==> TransitionAllowed(current, incoming)
  {
    if current.None? {
      return true;
    }
    var before := current.value;
    if incoming.version == before.version && incoming != before {
      return false;
    }
    var i := 0;
    while i < |incoming.vms|
      invariant 0 <= i <= |incoming.vms|
      invariant forall k, j :: 0 <= k < i && 0 <= j < |before.vms|
                               && incoming.vms[k].runId == before.vms[j].runId ==>
                                 Continues(before.vms[j], incoming.vms[k])
    {
      var j := 0;
      while j < |before.vms|
        invariant 0 <= j <= |before.vms|
        invariant forall k :: 0 <= k < j && incoming.vms[i].runId == before.vms[k].runId ==>
                    Continues(before.vms[k], incoming.vms[i])
      {
        if before.vms[j].runId == incoming.vms[i].runId && !Continues(before.vms[j], incoming.vms[i]) {
          return false;
        }
        j := j + 1;
      }
      i := i + 1;
    }
    ok := true;
  }

  /** `desired_state_is_stale` */
  predicate IsStale(current: Option<Document>, incoming: Document) {
    current.Some? && incoming.version < current.value.version
  }

  /** A redelivered document passes the transition check exactly when its runs are uniform. */
  lemma RedeliveryAllowedIffUniform(d: Document)
    ensures TransitionAllowed(Some(d), d) <==> UniformRuns(d.vms)
  {
    if TransitionAllowed(Some(d), d) {
      forall i, j | 0 <= i < |d.vms| && 0 <= j < |d.vms| && d.vms[i].runId == d.vms[j].runId
        ensures SameExecution(d.vms[i], d.vms[j])
      {
        assert Continues(d.vms[i], d.vms[j]) && Continues(d.vms[j], d.vms[i]);
      }
    }
    if UniformRuns(d.vms) {
      forall i, j | 0 <= i < |d.vms| && 0 <= j < |d.vms| && d.vms[i].runId == d.vms[j].runId
        ensures Continues(d.vms[j], d.vms[i])
      {
        assert SameExecution(d.vms[i], d.vms[j]);
      }
    }
  }

  // ---------------------------------------------------------------- protocol

  /** The single row of the `desired_state` table. */
  datatype Row = Row(hostId: string, version: int, doc: Document)

  /** `up` is false between a crash and the restart; `memory` is lost in a crash. */
  datatype AgentState = AgentState(durable: Option<Row>, memory: Option<Document>, up: bool)

  /** What happens to the process while it handles a document it accepts. */
  datatype Fate = Completes | CacheWriteFails | CrashesAfterCaching

  datatype Event =
    | Deliver(doc: Document, fate: Fate)
    | Crash
    | Restart(readable: bool)   // `readable`: the row could be read back from SQLite

  const FRESH := AgentState(None, None, true)

  function Load(cfg: Config, durable: Option<Row>): Option<Document> {
    if durable.Some? && durable.value.hostId == cfg.hostId
       && durable.value.version >= 0 && durable.value.doc.version == durable.value.version
    then Some(durable.value.doc) else None
  }

  /** The document is current, allowed and storable, so it is written to the database. */
  ghost predicate Accepts(cfg: Config, s: AgentState, doc: Document, fate: Fate) {
    && s.up
    && Valid(cfg, doc)
    && !IsStale(s.memory, doc)
    && TransitionAllowed(s.memory, doc)
    && doc.version <= I64_MAX
    && !fate.CacheWriteFails?
  }

  ghost function Step(cfg: Config, s: AgentState, e: Event): AgentState {
    match e
    case Deliver(doc, fate) =>
      if !Accepts(cfg, s, doc, fate) then s
      else
        var durable := Some(Row(doc.hostId, doc.version, doc));
        if fate.CrashesAfterCaching? then AgentState(durable, None, false)
        else AgentState(durable, Some(doc), true)
    case Crash => AgentState(s.durable, None, false)
    case Restart(readable) =>
      var loaded := if readable then Load(cfg, s.durable) else None;
      AgentState(s.durable, if loaded.Some? && Valid(cfg, loaded.value) then loaded else None, true)
  }

  /** The agent process with its database. */
  class Agent {
    const cfg: Config
    var durable: Option<Row>
    var memory: Option<Document>
    var up: bool

    ghost function State(): AgentState reads this { AgentState(durable, memory, up) }

    constructor (cfg: Config)
      ensures State() == FRESH && this.cfg == cfg
    {
      this.cfg := cfg;
      durable, memory, up := None, None, true;
    }

    /** The `DesiredState` arm of `handle_server_message`; `applied` tells whether the
        reconcile step of this document ran. */
    method HandleDesiredState(doc: Document, fate: Fate) returns (applied: bool)
      requires up
      modifies this
      ensures State() == Step(cfg, old(State()), Deliver(doc, fate))
      ensures applied <==> old(Accepts(cfg, State(), doc, fate)) && fate.Completes?
    {
      applied := false;
      var valid := ValidateDesiredState(cfg, doc);
      if !valid || IsStale(memory, doc) {
        return;
      }
      var allowed := ValidateDesiredTransition(memory, doc);
      if !allowed || doc.version > I64_MAX || fate.CacheWriteFails? {
        return;
      }
      durable := Some(Row(doc.hostId, doc.version, doc));
      if fate.CrashesAfterCaching? {
        memory, up := None, false;
        return;
      }
      applied := true;
      memory := Some(doc);
    }

    /** Process start: `load_cached_desired_state`. */
    method Start(readable: bool)
      modifies this
      ensures State() == Step(cfg, old(State()), Restart(readable))
    {
      memory, up := None, true;
      if readable && Load(cfg, durable).Some? {
        var doc := Load(cfg, durable).value;
        var valid := ValidateDesiredState(cfg, doc);
        if valid {
          memory := Some(doc);
        }
      }
    }
  }

  /** State and accepted documents after a run from a fresh host. */
  ghost function After(cfg: Config, events: seq<Event>): (AgentState, seq<Document>) {
    if events == [] then (FRESH, [])
    else
      var e := events[|events| - 1];
      var (s, accepted) := After(cfg, events[..|events| - 1]);
      (Step(cfg, s, e),
       if e.Deliver? && Accepts(cfg, s, e.doc, e.fate) then accepted + [e.doc] else accepted)
  }

  /** Each accepted document is a current and allowed successor of the one before. */
  ghost predicate Chain(accepted: seq<Document>) {
    forall k :: 0 <= k < |accepted| - 1 ==>
      && accepted[k].version <= accepted[k + 1].version
      && TransitionAllowed(Some(accepted[k]), accepted[k + 1])
  }

  ghost predicate CacheReloads(events: seq<Event>) {
    forall i :: 0 <= i < |events| && events[i].Restart? ==> events[i].readable
  }

  /** The database holds the last accepted document; so does a running process. */
  ghost predicate InSync(s: AgentState, accepted: seq<Document>) {
    if accepted == [] then s.durable == None && s.memory == None
    else
      var last := accepted[|accepted| - 1];
      && s.durable == Some(Row(last.hostId, last.version, last))
      && s.memory == if s.up then Some(last) else None
  }

  lemma {:induction false} RunsKeepCopiesInSync(cfg: Config, events: seq<Event>)
    requires CacheReloads(events)
    ensures var (s, accepted) := After(cfg, events);
            && InSync(s, accepted) && Chain(accepted)
            && forall k :: 0 <= k < |accepted| ==> Valid(cfg, accepted[k])
    decreases |events|
  {
    if events != [] {
      var front := events[..|events| - 1];
      RunsKeepCopiesInSync(cfg, front);
      var e := events[|events| - 1];
      var (s, accepted) := After(cfg, front);
      if e.Deliver? && Accepts(cfg, s, e.doc, e.fate) {
        var longer := accepted + [e.doc];
        forall k | 0 <= k < |longer| - 1
          ensures longer[k].version <= longer[k + 1].version
          ensures TransitionAllowed(Some(longer[k]), longer[k + 1])
        {
          if k < |accepted| - 1 { assert longer[k] == accepted[k] && longer[k + 1] == accepted[k + 1]; }
        }
      }
    }
  }

  lemma {:induction false} AcceptedOnlyGrows(cfg: Config, events: seq<Event>, i: nat, j: nat)
    requires i <= j <= |events|
    ensures After(cfg, events[..i]).1 <= After(cfg, events[..j]).1
    decreases j
  {
    if i < j {
      AcceptedOnlyGrows(cfg, events, i, j - 1);
      assert events[..j][..j - 1] == events[..j - 1];
    }
  }

  lemma {:induction false} ChainVersions(accepted: seq<Document>, i: nat, j: nat)
    requires Chain(accepted) && i <= j < |accepted|
    ensures accepted[i].version <= accepted[j].version
    ensures accepted[i].version == accepted[j].version ==> accepted[i] == accepted[j]
    decreases j
  {
    if i < j {
      ChainVersions(accepted, i, j - 1);
      assert TransitionAllowed(Some(accepted[j - 1]), accepted[j]);
    }
  }

  ghost function DurableVersion(s: AgentState): int {
    if s.durable.None? then -1 else s.durable.value.version
  }

  ghost function MemoryVersion(s: AgentState): int {
    if s.memory.None? then -1 else s.memory.value.version
  }

  ghost predicate VersionsNameDocuments(accepted: seq<Document>) {
    forall a, b :: 0 <= a < |accepted| && 0 <= b < |accepted| ==>
      accepted[a].version == accepted[b].version ==> accepted[a] == accepted[b]
  }

  /** Over every run of deliveries, crashes at any point and restarts that reload the
      row: the durable version never decreases, neither does the version a running
      process believes in, memory is never ahead of the database, and a version names
      one document forever. */
  lemma VersionsNeverDecrease(cfg: Config, events: seq<Event>, i: nat, j: nat)
    requires CacheReloads(events) && i <= j <= |events|
    ensures var (s, _) := After(cfg, events[..i]);
            var (t, accepted) := After(cfg, events[..j]);
            && DurableVersion(s) <= DurableVersion(t)
            && (s.up && t.up ==> MemoryVersion(s) <= MemoryVersion(t))
            && MemoryVersion(t) <= DurableVersion(t)
            && VersionsNameDocuments(accepted)
  {
    RunsKeepCopiesInSync(cfg, events[..i]);
    RunsKeepCopiesInSync(cfg, events[..j]);
    AcceptedOnlyGrows(cfg, events, i, j);
    var (s, before) := After(cfg, events[..i]);
    var (t, accepted) := After(cfg, events[..j]);
    if before != [] {
      ChainVersions(accepted, |before| - 1, |accepted| - 1);
    }
    forall a, b | 0 <= a < |accepted| && 0 <= b < |accepted| && accepted[a].version == accepted[b].version
      ensures accepted[a] == accepted[b]
    {
      ChainVersions(accepted, if a <= b then a else b, if a <= b then b else a);
    }
  }

  /** Across all runs, also those with unreadable restarts, memory is either empty or
      equal to the stored document. */
  lemma {:induction false} MemoryIsEmptyOrStored(cfg: Config, events: seq<Event>)
    ensures var (s, _) := After(cfg, events);
            && (s.memory.Some? ==>
                  s.durable == Some(Row(s.memory.value.hostId, s.memory.value.version, s.memory.value)))
            && (s.durable.Some? ==> s.durable.value.version == s.durable.value.doc.version)
    decreases |events|
  {
    if events != [] {
      MemoryIsEmptyOrStored(cfg, events[..|events| - 1]);
    }
  }

  /** Exactly when a delivery moves the stored version back: the process came up without
      the stored row and is offered an acceptable older document. */
  lemma RegressionExactlyAfterLostReload(cfg: Config, events: seq<Event>, doc: Document, fate: Fate)
    ensures var (s, _) := After(cfg, events);
            DurableVersion(Step(cfg, s, Deliver(doc, fate))) < DurableVersion(s)
            <==> (s.memory.None? && Accepts(cfg, s, doc, fate) && doc.version < DurableVersion(s))
  {
    MemoryIsEmptyOrStored(cfg, events);
  }

  function EmptyDocument(cfg: Config, version: nat): Document {
    Document(cfg.scope, cfg.owner, SCHEMA_VERSION, cfg.hostId, version, [], [], "")
  }

  /** Such a run exists on every host: one unreadable restart loses the version floor. */
  lemma UnreadableRestartLosesTheFloor(cfg: Config)
    requires !IsBlank(cfg.owner)
    ensures var events := [Deliver(EmptyDocument(cfg, 2), Completes), Restart(false),
                           Deliver(EmptyDocument(cfg, 1), Completes)];
            && DurableVersion(After(cfg, events[..1]).0) == 2
            && DurableVersion(After(cfg, events).0) == 1
  {
    var first := Deliver(EmptyDocument(cfg, 2), Completes);
    var last := Deliver(EmptyDocument(cfg, 1), Completes);
    var row := Some(Row(cfg.hostId, 2, first.doc));
    AfterExtends(cfg, [], first);
    AfterExtends(cfg, [first], Restart(false));
    AfterExtends(cfg, [first, Restart(false)], last);
    assert [] + [first] == [first] && [first] + [Restart(false)] == [first, Restart(false)];
    assert [first, Restart(false)] + [last] == [first, Restart(false), last];
    assert [first, Restart(false), last][..1] == [first];
    assert Accepts(cfg, FRESH, first.doc, Completes);
    assert Accepts(cfg, AgentState(row, None, true), last.doc, Completes);
  }

  lemma AfterExtends(cfg: Config, events: seq<Event>, e: Event)
    ensures var (s, accepted) := After(cfg, events);
            After(cfg, events + [e])
            == (Step(cfg, s, e), if e.Deliver? && Accepts(cfg, s, e.doc, e.fate) then accepted + [e.doc] else accepted)
  {
    assert (events + [e])[..|events|] == events;
  }

  // ----------------------------------------------------------------- lineage

  ghost predicate Mentions(d: Document, run: string) {
    exists k :: 0 <= k < |d.vms| && d.vms[k].runId == run
  }

  lemma {:induction false} ChainLineage(
    accepted: seq<Document>, run: string, i: nat, j: nat, x: nat, y: nat)
    requires Chain(accepted) && i <= j < |accepted|
    requires forall k :: i <= k <= j ==> UniformRuns(accepted[k].vms) && Mentions(accepted[k], run)
    requires x < |accepted[i].vms| && accepted[i].vms[x].runId == run
    requires y < |accepted[j].vms| && accepted[j].vms[y].runId == run
    ensures Continues(accepted[i].vms[x], accepted[j].vms[y])
    decreases j
  {
    if i == j {
      assert SameExecution(accepted[i].vms[x], accepted[j].vms[y]);
    } else {
      assert Mentions(accepted[j - 1], run);
      var k :| 0 <= k < |accepted[j - 1].vms| && accepted[j - 1].vms[k].runId == run;
      assert TransitionAllowed(Some(accepted[j - 1]), accepted[j]);
      ChainLineage(accepted, run, i, j - 1, x, k);
    }
  }

  /** Over every run of the agent: while a run ID stays in every accepted document, its VMs keep one
      owner, their generation never goes back, and one generation means one execution. */
  lemma RunLineage(cfg: Config, events: seq<Event>, run: string, i: nat, j: nat, x: nat, y: nat)
    requires CacheReloads(events) && i <= j < |After(cfg, events).1|
    requires forall k :: i <= k <= j ==> Mentions(After(cfg, events).1[k], run)
    requires x < |After(cfg, events).1[i].vms| && After(cfg, events).1[i].vms[x].runId == run
    requires y < |After(cfg, events).1[j].vms| && After(cfg, events).1[j].vms[y].runId == run
    ensures Continues(After(cfg, events).1[i].vms[x], After(cfg, events).1[j].vms[y])
  {
    RunsKeepCopiesInSync(cfg, events);
    ChainLineage(After(cfg, events).1, run, i, j, x, y);
  }

  /** Presence is needed: with one empty document in between, any valid document is accepted after
      any other, so a run may come back with another owner and an older generation. */
  lemma LineageIsForgottenInAGap(cfg: Config, before: Document, after: Document)
    requires Valid(cfg, before) && Valid(cfg, after) && before.version + 1 < after.version <= I64_MAX
    ensures var gap := EmptyDocument(cfg, before.version + 1);
            After(cfg, [Deliver(before, Completes), Deliver(gap, Completes), Deliver(after, Completes)]).1
            == [before, gap, after]
  {
    var gap := EmptyDocument(cfg, before.version + 1);
    var first, second, third := Deliver(before, Completes), Deliver(gap, Completes), Deliver(after, Completes);
    AfterExtends(cfg, [], first);
    AfterExtends(cfg, [first], second);
    AfterExtends(cfg, [first, second], third);
    assert [] + [first] == [first] && [first] + [second] == [first, second];
    assert [first, second] + [third] == [first, second, third];
    assert Accepts(cfg, FRESH, before, Completes);
    var row := Row(before.hostId, before.version, before);
    assert Accepts(cfg, AgentState(Some(row), Some(before), true), gap, Completes);
    assert Accepts(cfg, AgentState(Some(Row(gap.hostId, gap.version, gap)), Some(gap), true), after, Completes);
  }
}
