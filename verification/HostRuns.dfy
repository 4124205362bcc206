/** Runs of a whole host: the agent with its stored document (bridge.rs), the persisted VMs with the
    deletes under way (vm/manager), and the start gate `validate_restart` that main.rs passes before
    the agent comes up.

    A delete marks the record at once, in memory and in SQLite; a background cleanup removes it
    later, or fails and leaves the marked record behind. */
module HostRuns {
  import opened Wrappers
  import opened Histories
  import opened Text
  import opened DesiredState
  import opened Reconcile
  import opened ReconcileProofs
  import opened RestartProofs

  datatype World = World(agent: AgentState, host: Host)

  /** How far a pass got when the process died: some deletes of the first loop, in any order, or
      all of them and the first `n` entries of the second loop. */
  datatype Progress = Purging(done: set<string>) | Reconciling(n: nat)

  datatype HostEvent =
    | Delivered(doc: Document, fate: Fate, now: int, env: Env, reached: Progress)
    | Marked(name: string)                        // a lease ran out or the VM died: a delete begins
    | Cleaned(name: string)                       // a cleanup has removed the record
    | Crashed
    | Restarted(gateReads: bool, loads: bool)     // the row is read once by the gate, once by the bridge

  const NEW_HOST := World(FRESH, EMPTY_HOST)

  /** The process gets past `validate_restart`. */
  ghost predicate Starts(cfg: Config, w: World, gateReads: bool) {
    w.host.vms == map[] || (gateReads && RestartAccepted(cfg, w.agent.durable, w.host.vms))
  }

  ghost function PartOfPass(d: Document, h: Host, now: int, env: Env, reached: Progress): Host {
    match reached
    case Purging(done) => AllDeleted(h, done * Unwanted(d, h), env)
    case Reconciling(n) =>
      ReconcileAll(Purged(d, h, env), if n < |d.vms| then d.vms[..n] else d.vms, now, env)
  }

  ghost function HostAfter(d: Document, h: Host, fate: Fate, now: int, env: Env, reached: Progress): Host {
    if fate.Completes? then Applied(d, h, now, env) else PartOfPass(d, h, now, env, reached)
  }

  ghost function HostStep(cfg: Config, w: World, e: HostEvent): World {
    match e
    case Delivered(doc, fate, now, env, reached) =>
      World(Step(cfg, w.agent, Deliver(doc, fate)),
            if Accepts(cfg, w.agent, doc, fate) then HostAfter(doc, w.host, fate, now, env, reached) else w.host)
    case Marked(name) =>
      if w.agent.up && name in w.host.vms then w.(host := Host(w.host.vms, w.host.deleting + {name})) else w
    case Cleaned(name) =>
      if w.agent.up && name in w.host.deleting
      then w.(host := Host(w.host.vms - {name}, w.host.deleting - {name})) else w
    case Crashed => w.(agent := Step(cfg, w.agent, Crash))
    case Restarted(gateReads, loads) =>
      w.(agent := Step(cfg, w.agent, if Starts(cfg, w, gateReads) then Restart(loads) else Crash))
  }

  ghost function AfterHost(cfg: Config, events: seq<HostEvent>): World {
    if events == [] then NEW_HOST
    else HostStep(cfg, AfterHost(cfg, events[..|events| - 1]), events[|events| - 1])
  }

  // --------------------------------------------------------------- invariants

  ghost predicate StoresValid(cfg: Config, agent: AgentState) {
    agent.durable.Some? ==> Valid(cfg, agent.durable.value.doc) && agent.durable == Stored(agent.durable.value.doc)
  }

  /** The document spells out every record that is not being deleted. */
  ghost predicate KnowsUnmarked(d: Document, h: Host) {
    forall name :: Stays(h, name) ==> SpelledOut(d, name, h.vms[name])
  }

  /** The stored row, if there is one, spells out every record. */
  ghost predicate RowKnowsAll(w: World) {
    w.host.vms == map[] || (w.agent.durable.Some? && AllSpelledOut(w.agent.durable.value.doc, w.host.vms))
  }

  /** Every record was stored by the manager; the stored row is a valid document; memory is lost or
      equal to it; an agent that remembers a document without strays knows every record that is
      not being deleted; one that is up and remembers nothing has a row that spells out them all. */
  ghost predicate HostInv(cfg: Config, w: World) {
    && Managed(w.host.vms) && MarksRecords(w.host)
    && StoresValid(cfg, w.agent)
    && (w.agent.memory.Some? ==> w.agent.up && w.agent.durable == Stored(w.agent.memory.value))
    && (w.agent.memory.Some? && NoStrays(w.agent.memory.value) ==> KnowsUnmarked(w.agent.memory.value, w.host))
    && (w.agent.up && w.agent.memory.None? ==> RowKnowsAll(w))
  }

  lemma PartOfPassKeepsHost(d: Document, h: Host, now: int, env: Env, reached: Progress)
    requires Managed(h.vms) && MarksRecords(h)
    ensures Managed(PartOfPass(d, h, now, env, reached).vms) && MarksRecords(PartOfPass(d, h, now, env, reached))
  {
    if reached.Reconciling? {
      var vms := if reached.n < |d.vms| then d.vms[..reached.n] else d.vms;
      ReconcileAllKeepsManaged(Purged(d, h, env), vms, now, env);
      ReconcileAllMarksRecords(Purged(d, h, env), vms, now, env);
    }
  }

  lemma DeliveryKeepsInv(cfg: Config, w: World, doc: Document, fate: Fate, now: int, env: Env, reached: Progress)
    requires HostInv(cfg, w)
    ensures HostInv(cfg, HostStep(cfg, w, Delivered(doc, fate, now, env, reached)))
  {
    if Accepts(cfg, w.agent, doc, fate) {
      PartOfPassKeepsHost(doc, w.host, now, env, reached);
      PartOfPassKeepsHost(doc, w.host, now, env, Reconciling(|doc.vms|));
      if fate.Completes? && NoStrays(doc) {
        forall name | Stays(Applied(doc, w.host, now, env), name)
          ensures SpelledOut(doc, name, Applied(doc, w.host, now, env).vms[name])
        {
          UnmarkedIsSpelledOut(doc, w.host, now, env, name);
        }
      }
    }
  }

  lemma MarkKeepsInv(cfg: Config, w: World, name: string)
    requires HostInv(cfg, w)
    ensures HostInv(cfg, HostStep(cfg, w, Marked(name)))
  {
  }

  lemma CleanupKeepsInv(cfg: Config, w: World, name: string)
    requires HostInv(cfg, w)
    ensures HostInv(cfg, HostStep(cfg, w, Cleaned(name)))
  {
  }

  /** What a start remembers: the stored document, if the bridge can read the row. */
  lemma StartRemembers(cfg: Config, agent: AgentState, loads: bool)
    requires StoresValid(cfg, agent)
    ensures var known := if loads && agent.durable.Some? then Some(agent.durable.value.doc) else None;
            Step(cfg, agent, Restart(loads)) == AgentState(agent.durable, known, true)
  {
  }

  /** Exactly when the gate lets a host start. */
  lemma StartsIff(cfg: Config, w: World, gateReads: bool)
    requires StoresValid(cfg, w.agent)
    ensures Starts(cfg, w, gateReads) <==> w.host.vms == map[] || (gateReads && RowKnowsAll(w))
  {
    if w.agent.durable.Some? { RestartIffSpelledOut(cfg, w.agent.durable.value.doc, w.host.vms); }
  }

  lemma RestartKeepsInv(cfg: Config, w: World, gateReads: bool, loads: bool)
    requires HostInv(cfg, w)
    ensures HostInv(cfg, HostStep(cfg, w, Restarted(gateReads, loads)))
  {
    if Starts(cfg, w, gateReads) {
      StartsIff(cfg, w, gateReads);
      StartRemembers(cfg, w.agent, loads);
    }
  }

  lemma StepKeepsInv(cfg: Config, w: World, e: HostEvent)
    requires HostInv(cfg, w)
    ensures HostInv(cfg, HostStep(cfg, w, e))
  {
    match e
    case Delivered(doc, fate, now, env, reached) => DeliveryKeepsInv(cfg, w, doc, fate, now, env, reached);
    case Marked(name) => MarkKeepsInv(cfg, w, name);
    case Cleaned(name) => CleanupKeepsInv(cfg, w, name);
    case Crashed =>
    case Restarted(gateReads, loads) => RestartKeepsInv(cfg, w, gateReads, loads);
  }

  lemma {:induction false} RunsKeepInv(cfg: Config, events: seq<HostEvent>)
    ensures HostInv(cfg, AfterHost(cfg, events))
    decreases |events|
  {
    if events != [] {
      var n := |events| - 1;
      RunsKeepInv(cfg, events[..n]);
      StepKeepsInv(cfg, AfterHost(cfg, events[..n]), events[n]);
    }
  }

  // ------------------------------------------------------- which crashes are survived

  /** After any run and a crash at any point of it, also in the middle of a pass or with cleanups
      pending, the next start succeeds if and only if the stored document spells out every
      persisted VM, the ones being deleted included. */
  lemma CrashSurvivedIff(cfg: Config, events: seq<HostEvent>)
    ensures Starts(cfg, HostStep(cfg, AfterHost(cfg, events), Crashed), true) <==> RowKnowsAll(AfterHost(cfg, events))
  {
    RunsKeepInv(cfg, events);
    StartsIff(cfg, HostStep(cfg, AfterHost(cfg, events), Crashed), true);
  }

  /** Once a pass is complete only the VMs being deleted decide. */
  lemma PendingDeletesDecide(cfg: Config, events: seq<HostEvent>, c: Document)
    requires AfterHost(cfg, events).agent.memory == Some(c) && NoStrays(c)
    ensures var host := AfterHost(cfg, events).host;
            && host.deleting <= host.vms.Keys
            && (Starts(cfg, HostStep(cfg, AfterHost(cfg, events), Crashed), true) <==>
                  forall name :: name in host.deleting ==> SpelledOut(c, name, host.vms[name]))
  {
    RunsKeepInv(cfg, events);
    CrashSurvivedIff(cfg, events);
    var host := AfterHost(cfg, events).host;
    forall name | name in host.vms && name !in host.deleting ensures SpelledOut(c, name, host.vms[name]) {
      assert Stays(host, name);
    }
  }

  ghost function Dying(cfg: Config, w: World, d: Document, now: int, env: Env, reached: Progress): World {
    HostStep(cfg, w, Delivered(d, CrashesAfterCaching, now, env, reached))
  }

  lemma RemovedOrSpelledOut(d: Document, vms: map<string, LocalVm>, gone: set<string>)
    ensures AllSpelledOut(d, vms - gone) <==>
            forall name :: name in vms && !SpelledOut(d, name, vms[name]) ==> name in gone
  {
    assert forall name :: name in vms - gone <==> name in vms && name !in gone;
  }

  /** A crash during the deletes of a pass: the next start succeeds if and only if the new document
      spells out every VM, except those already cleaned up. */
  lemma CrashWhilePurgingIff(cfg: Config, events: seq<HostEvent>, d: Document, now: int, env: Env, done: set<string>)
    requires Accepts(cfg, AfterHost(cfg, events).agent, d, CrashesAfterCaching)
    ensures var host := AfterHost(cfg, events).host;
            Starts(cfg, Dying(cfg, AfterHost(cfg, events), d, now, env, Purging(done)), true) <==>
            forall name :: name in host.vms && !SpelledOut(d, name, host.vms[name]) ==>
                             name in done && name in Unwanted(d, host) && name in env.quick
  {
    var w := AfterHost(cfg, events);
    RunsKeepInv(cfg, events);
    DeliveryKeepsInv(cfg, w, d, CrashesAfterCaching, now, env, Purging(done));
    var after := Dying(cfg, w, d, now, env, Purging(done));
    StartsIff(cfg, after, true);
    assert after.agent.durable == Stored(d);
    RemovedOrSpelledOut(d, w.host.vms, done * Unwanted(d, w.host) * env.quick);
  }

  /** The new document keeps, word for word in name, run, owner, execution and generation, every
      entry of the current one under which the host has its VM. */
  ghost predicate KeepsOccupied(c: Document, d: Document, vms: map<string, LocalVm>) {
    forall i :: 0 <= i < |c.vms| && c.vms[i].vmName in vms && vms[c.vms[i].vmName] == AsWritten(c.vms[i]) ==>
      SpelledOut(d, c.vms[i].vmName, AsWritten(c.vms[i]))
  }

  lemma KeepsOccupiedIsSpelling(c: Document, d: Document, h: Host)
    requires KnowsUnmarked(c, h) && MarksRecords(h)
    ensures AllSpelledOut(d, h.vms) <==>
            KeepsOccupied(c, d, h.vms) && forall name :: name in h.deleting ==> SpelledOut(d, name, h.vms[name])
  {
    if KeepsOccupied(c, d, h.vms) && forall name :: name in h.deleting ==> SpelledOut(d, name, h.vms[name]) {
      forall name | name in h.vms ensures SpelledOut(d, name, h.vms[name]) {
        if name !in h.deleting {
          assert Stays(h, name);
          var i :| 0 <= i < |c.vms| && c.vms[i].vmName == name && h.vms[name] == AsWritten(c.vms[i]);
        }
      }
    }
  }

  /** A crash between caching `d` and applying it, while the agent remembers `c`. */
  lemma CrashWhileCachingIff(cfg: Config, events: seq<HostEvent>, c: Document, d: Document, now: int, env: Env)
    requires Accepts(cfg, AfterHost(cfg, events).agent, d, CrashesAfterCaching)
    requires AfterHost(cfg, events).agent.memory == Some(c) && NoStrays(c)
    ensures var host := AfterHost(cfg, events).host;
            && host.deleting <= host.vms.Keys
            && (Starts(cfg, Dying(cfg, AfterHost(cfg, events), d, now, env, Purging({})), true) <==>
                  && KeepsOccupied(c, d, host.vms)
                  && forall name :: name in host.deleting ==> SpelledOut(d, name, host.vms[name]))
  {
    var host := AfterHost(cfg, events).host;
    RunsKeepInv(cfg, events);
    CrashWhilePurgingIff(cfg, events, d, now, env, {});
    KeepsOccupiedIsSpelling(c, d, host);
    assert AllSpelledOut(d, host.vms) <==>
      forall name :: name in host.vms && !SpelledOut(d, name, host.vms[name]) ==> name in {};
  }

  lemma PassDecides(cfg: Config, w: World, d: Document, now: int, env: Env, reached: Progress)
    requires HostInv(cfg, w) && Accepts(cfg, w.agent, d, Completes)
    ensures var after := HostStep(cfg, w, Delivered(d, Completes, now, env, reached));
            Starts(cfg, HostStep(cfg, after, Crashed), true) <==> AllSpelledOut(d, Applied(d, w.host, now, env).vms)
  {
    var after := HostStep(cfg, w, Delivered(d, Completes, now, env, reached));
    assert after.agent.durable == Stored(d) && after.host == Applied(d, w.host, now, env);
    RestartIffSpelledOut(cfg, d, after.host.vms);
  }

  /** A crash right after a completed pass of safely named entries: the next start succeeds if and
      only if every VM the document does not spell out was cleaned up while the pass ran. */
  lemma CrashAfterPassIff(cfg: Config, events: seq<HostEvent>, d: Document, now: int, env: Env, reached: Progress)
    requires Accepts(cfg, AfterHost(cfg, events).agent, d, Completes) && SafeNames(d)
    ensures var w := AfterHost(cfg, events);
            var after := HostStep(cfg, w, Delivered(d, Completes, now, env, reached));
            Starts(cfg, HostStep(cfg, after, Crashed), true) <==>
            forall name :: name in w.host.vms && !SpelledOut(d, name, w.host.vms[name]) ==> name in env.quick
  {
    RunsKeepInv(cfg, events);
    PassDecides(cfg, AfterHost(cfg, events), d, now, env, reached);
    UnsettledPassIff(d, AfterHost(cfg, events).host, now, env);
  }

  ghost function RunFrom(cfg: Config, w: World, events: seq<HostEvent>): World
    decreases |events|
  {
    if events == [] then w else RunFrom(cfg, HostStep(cfg, w, events[0]), events[1..])
  }

  /** A refused start is refused for good: nothing the host does changes the row or the VMs again. */
  lemma {:induction false} RefusedForGood(cfg: Config, w: World, events: seq<HostEvent>)
    requires !w.agent.up && !Starts(cfg, w, true)
    ensures !RunFrom(cfg, w, events).agent.up && RunFrom(cfg, w, events).host == w.host
    ensures RunFrom(cfg, w, events).agent.durable == w.agent.durable
    decreases |events|
  {
    if events != [] {
      DownAndRefusedStays(cfg, w, events[0]);
      RefusedForGood(cfg, HostStep(cfg, w, events[0]), events[1..]);
    }
  }

  lemma DownAndRefusedStays(cfg: Config, w: World, e: HostEvent)
    requires !w.agent.up && !Starts(cfg, w, true)
    ensures var after := HostStep(cfg, w, e);
            !after.agent.up && after.host == w.host && after.agent.durable == w.agent.durable
  {
  }

  // ------------------------------------------------------------ the version floor

  /** What one event of the host is to the agent alone: a refused start is a crash. */
  ghost function AgentEvent(cfg: Config, w: World, e: HostEvent): Option<Event> {
    match e
    case Delivered(doc, fate, _, _, _) => Some(Deliver(doc, fate))
    case Marked(_) => None
    case Cleaned(_) => None
    case Crashed => Some(Crash)
    case Restarted(gateReads, loads) => Some(if Starts(cfg, w, gateReads) then Restart(loads) else Crash)
  }

  ghost function AgentEvents(cfg: Config, events: seq<HostEvent>): seq<Event> {
    if events == [] then []
    else
      var front := events[..|events| - 1];
      var e := AgentEvent(cfg, AfterHost(cfg, front), events[|events| - 1]);
      AgentEvents(cfg, front) + if e.None? then [] else [e.value]
  }

  lemma AgentPartOfStep(cfg: Config, w: World, e: HostEvent)
    ensures var a := AgentEvent(cfg, w, e);
            HostStep(cfg, w, e).agent == if a.None? then w.agent else Step(cfg, w.agent, a.value)
  {
  }

  /** What holds over every run of the agent holds on every host. */
  lemma {:induction false} HostRunsAreAgentRuns(cfg: Config, events: seq<HostEvent>)
    ensures AfterHost(cfg, events).agent == After(cfg, AgentEvents(cfg, events)).0
    decreases |events|
  {
    if events != [] {
      var front, w := events[..|events| - 1], AfterHost(cfg, events[..|events| - 1]);
      var e := AgentEvent(cfg, w, events[|events| - 1]);
      HostRunsAreAgentRuns(cfg, front);
      AgentPartOfStep(cfg, w, events[|events| - 1]);
      if e.Some? {
        AfterExtends(cfg, AgentEvents(cfg, front), e.value);
      } else {
        assert AgentEvents(cfg, events) == AgentEvents(cfg, front);
      }
    }
  }

  /** A start that got past the gate without its row reaching the bridge. */
  ghost predicate LosesRow(cfg: Config, w: World, e: HostEvent) {
    e.Restarted? && Starts(cfg, w, e.gateReads) && !e.loads && w.agent.durable.Some?
  }

  /** An event after which the agent, if up, is a new process or remembers a document. */
  ghost predicate Renews(cfg: Config, w: World, e: HostEvent) {
    e.Crashed? || e.Restarted? || (e.Delivered? && Accepts(cfg, w.agent, e.doc, e.fate))
  }

  ghost function LosesRowAt(cfg: Config, events: seq<HostEvent>): nat -> bool {
    (k: nat) => k < |events| && LosesRow(cfg, AfterHost(cfg, events[..k]), events[k])
  }

  ghost function RenewsAt(cfg: Config, events: seq<HostEvent>): nat -> bool {
    (k: nat) => k < |events| && Renews(cfg, AfterHost(cfg, events[..k]), events[k])
  }

  /** The last start lost the row, and no document has been accepted since. */
  ghost predicate RowLost(cfg: Config, events: seq<HostEvent>) {
    Since(|events|, LosesRowAt(cfg, events), RenewsAt(cfg, events))
  }

  /** The agent is up, has a stored row and does not remember it. */
  ghost predicate Forgetful(agent: AgentState) { agent.up && agent.memory.None? && agent.durable.Some? }

  lemma ForgetfulStep(cfg: Config, w: World, e: HostEvent)
    requires HostInv(cfg, w)
    ensures Forgetful(HostStep(cfg, w, e).agent) <==>
            LosesRow(cfg, w, e) || (!Renews(cfg, w, e) && Forgetful(w.agent))
  {
    if e.Restarted? { StartRemembers(cfg, w.agent, e.loads); }
  }

  lemma RowLostOneMore(cfg: Config, events: seq<HostEvent>, n: nat)
    requires n == |events| - 1
    ensures RowLost(cfg, events) <==>
            || LosesRow(cfg, AfterHost(cfg, events[..n]), events[n])
            || (!Renews(cfg, AfterHost(cfg, events[..n]), events[n]) && RowLost(cfg, events[..n]))
  {
    var front := events[..n];
    forall k: nat | k < n ensures front[..k] == events[..k] {
    }
    SinceOneMore(n, |events|, LosesRowAt(cfg, events), RenewsAt(cfg, events),
                 LosesRowAt(cfg, front), RenewsAt(cfg, front));
  }

  lemma {:induction false} ForgetfulIffRowLost(cfg: Config, events: seq<HostEvent>)
    ensures Forgetful(AfterHost(cfg, events).agent) <==> RowLost(cfg, events)
    decreases |events|
  {
    if events != [] {
      var n := |events| - 1;
      ForgetfulIffRowLost(cfg, events[..n]);
      RunsKeepInv(cfg, events[..n]);
      ForgetfulStep(cfg, AfterHost(cfg, events[..n]), events[n]);
      RowLostOneMore(cfg, events, n);
    }
  }

  /** Over every run, with or without VMs: a delivery moves the stored version back if and only if
      the last start lost the row, no document was accepted since, and this one is valid,
      storable and older than the stored one. */
  lemma RegressionIffRowLost(cfg: Config, events: seq<HostEvent>, doc: Document, fate: Fate)
    ensures var agent := AfterHost(cfg, events).agent;
            DurableVersion(Step(cfg, agent, Deliver(doc, fate))) < DurableVersion(agent) <==>
            && RowLost(cfg, events)
            && Valid(cfg, doc) && doc.version <= I64_MAX && !fate.CacheWriteFails?
            && doc.version < DurableVersion(agent)
  {
    HostRunsAreAgentRuns(cfg, events);
    RegressionExactlyAfterLostReload(cfg, AgentEvents(cfg, events), doc, fate);
    ForgetfulIffRowLost(cfg, events);
  }

  /** While the row is lost the newer document still spells out every VM of the host. */
  lemma LostRowKnowsAll(cfg: Config, events: seq<HostEvent>)
    requires RowLost(cfg, events)
    ensures AfterHost(cfg, events).agent.durable.Some?
    ensures AllSpelledOut(AfterHost(cfg, events).agent.durable.value.doc, AfterHost(cfg, events).host.vms)
  {
    ForgetfulIffRowLost(cfg, events);
    RunsKeepInv(cfg, events);
  }

  // ------------------------------------------------------------------ reachable hosts

  const ONE_VM := Asking(1, [Vm("a", "r")])
  const NO_VM := Asking(2, [])
  const OLDER := Asking(0, [])
  const SLOW := Env({}, {})

  const WITH_VM :=
    World(AgentState(Stored(ONE_VM), Some(ONE_VM), true), Host(map["a" := AsWritten(ONE_VM.vms[0])], {}))

  function Applies(doc: Document): HostEvent { Delivered(doc, Completes, 0, SLOW, Purging({})) }

  lemma OneVmIsCreated()
    ensures Applied(ONE_VM, EMPTY_HOST, 0, SLOW) == WITH_VM.host
  {
    TrimPadded();
    assert UsableKeys(ONE_VM.vms[0]) by { assert Trim(ONE_VM.vms[0].sshKeys[0]) != ""; }
    assert ONE_VM.vms[..|ONE_VM.vms|] == ONE_VM.vms;
    assert Purged(ONE_VM, EMPTY_HOST, SLOW) == EMPTY_HOST;
    StrayIsCreated(ONE_VM, 1, 0, 0, SLOW);
  }

  lemma DocumentsAreValid()
    ensures Valid(CFG, ONE_VM) && Valid(CFG, NO_VM) && Valid(CFG, OLDER)
  {
    TrimPadded();
    assert !IsWhitespace("a"[0]) && !IsWhitespace("r"[0]) && !IsWhitespace("u"[0]);
    OneVmIsValid(1, "a", "r");
  }

  lemma VmRuns()
    ensures AfterHost(CFG, [Applies(ONE_VM)]) == WITH_VM
  {
    DocumentsAreValid();
    OneVmIsCreated();
    assert [Applies(ONE_VM)][..0] == [] && AfterHost(CFG, []) == NEW_HOST;
  }

  lemma NoVmIsAccepted(fate: Fate)
    requires !fate.CacheWriteFails?
    ensures Accepts(CFG, WITH_VM.agent, NO_VM, fate)
  {
    DocumentsAreValid();
  }

  lemma VmIsNotSpelledOut()
    ensures "a" in WITH_VM.host.vms && !SpelledOut(NO_VM, "a", WITH_VM.host.vms["a"])
  {
  }

  /** A reachable host that no restart brings back: a VM runs, a document without it arrives, and
      the agent crashes before it applies it. */
  lemma StuckWhileCaching()
    ensures var w := Dying(CFG, AfterHost(CFG, [Applies(ONE_VM)]), NO_VM, 0, SLOW, Purging({}));
            !w.agent.up && !Starts(CFG, w, true) && "a" in w.host.vms
  {
    VmRuns();
    NoVmIsAccepted(CrashesAfterCaching);
    VmIsNotSpelledOut();
    CrashWhilePurgingIff(CFG, [Applies(ONE_VM)], NO_VM, 0, SLOW, {});
  }

  /** Another one: the document is applied in full, and the agent crashes before the cleanup of the
      VM has finished. */
  lemma StuckWhileCleaning()
    ensures var w := HostStep(CFG, HostStep(CFG, AfterHost(CFG, [Applies(ONE_VM)]), Applies(NO_VM)), Crashed);
            !Starts(CFG, w, true) && "a" in w.host.deleting
  {
    VmRuns();
    NoVmIsAccepted(Completes);
    VmIsNotSpelledOut();
    CrashAfterPassIff(CFG, [Applies(ONE_VM)], NO_VM, 0, SLOW, Purging({}));
    assert "a" in Unwanted(NO_VM, WITH_VM.host);
  }

  lemma VmIsKnown()
    ensures Starts(CFG, WITH_VM, true)
  {
    DocumentsAreValid();
    assert SpelledOut(ONE_VM, "a", WITH_VM.host.vms["a"]);
    StartsIff(CFG, WITH_VM, true);
  }

  lemma AfterHostExtends(cfg: Config, events: seq<HostEvent>, e: HostEvent)
    ensures AfterHost(cfg, events + [e]) == HostStep(cfg, AfterHost(cfg, events), e)
    ensures LosesRow(cfg, AfterHost(cfg, events), e) ==> RowLost(cfg, events + [e])
  {
    assert (events + [e])[..|events|] == events;
    RowLostOneMore(cfg, events + [e], |events|);
  }

  lemma RestartLosesTheRow()
    ensures LosesRow(CFG, WITH_VM, Restarted(true, false))
    ensures HostStep(CFG, WITH_VM, Restarted(true, false)) ==
            World(AgentState(Stored(ONE_VM), None, true), WITH_VM.host)
  {
    VmIsKnown();
  }

  lemma RowIsLost()
    ensures var events := [Applies(ONE_VM)] + [Restarted(true, false)];
            && RowLost(CFG, events)
            && AfterHost(CFG, events) == World(AgentState(Stored(ONE_VM), None, true), WITH_VM.host)
  {
    VmRuns();
    RestartLosesTheRow();
    AfterHostExtends(CFG, [Applies(ONE_VM)], Restarted(true, false));
  }

  /** The stored version goes back while a VM runs: the gate reads the row, the bridge cannot. */
  lemma RegressionWithAVm()
    ensures var w := AfterHost(CFG, [Applies(ONE_VM)] + [Restarted(true, false)]);
            && "a" in w.host.vms
            && DurableVersion(Step(CFG, w.agent, Deliver(OLDER, Completes))) < DurableVersion(w.agent)
  {
    RowIsLost();
    DocumentsAreValid();
    RegressionIffRowLost(CFG, [Applies(ONE_VM)] + [Restarted(true, false)], OLDER, Completes);
  }
}
