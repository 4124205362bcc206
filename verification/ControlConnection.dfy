/** The relay gate of one control connection (`connect_once`, `update_relay` and
    `validate_relay_identity` in crates/intar-agent/src/bridge.rs): a VM becomes
    reachable only through a desired state received on this very connection. */
module ControlConnection {
  import opened Wrappers
  import opened DesiredState
  import opened Reconcile
  import opened Relay

  /** `parses`: the guest address is an IP address. */
  datatype Guest = Guest(ip: string, parses: bool)

  /** What the manager knows of a VM when the relay is updated. */
  datatype Observed = Observed(vm: LocalVm, terminalReady: bool, guest: Option<Guest>)

  type Inventory = map<string, Observed>

  datatype AgentIdentity = AgentIdentity(cfg: Config, credentialGeneration: nat)

  /** The time and scheduling of one relay update (see `Relay.Request`). */
  datatype Moment = Moment(now: int, clock: nat -> int, endsMidway: bool)

  // ------------------------------------------------------------- assignments

  /** The entry is Running, unexpired, its VM is the desired execution, and its terminal
      is ready at a known address. */
  predicate Grantable(v: DesiredVm, inventory: Inventory, now: int) {
    && v.phase == Running && Live(v, now)
    && v.vmName in inventory
    && var o := inventory[v.vmName];
    && o.vm.details == Some(Details(Some(v.runId), v.owner, v.execution, v.generation))
    && o.terminalReady
    && o.guest.Some?
  }

  function AssignmentFor(identity: HostIdentity, v: DesiredVm, inventory: Inventory): Assignment
    requires v.vmName in inventory && inventory[v.vmName].guest.Some?
  {
    Assignment(Target(identity, v.owner, v.execution, v.generation, v.vmId),
               Address(inventory[v.vmName].guest.value.ip, SSH_PORT), v.leaseExpiresAtMs)
  }

  /** The assignments for the entries, or `None` when a guest address does not parse. */
  function Assignments(identity: HostIdentity, vms: seq<DesiredVm>, inventory: Inventory, now: int)
    : Option<seq<Assignment>>
  {
    if vms == [] then Some([])
    else
      var front := Assignments(identity, vms[..|vms| - 1], inventory, now);
      var v := vms[|vms| - 1];
      if front.None? || !Grantable(v, inventory, now) then front
      else if !inventory[v.vmName].guest.value.parses then None
      else Some(front.value + [AssignmentFor(identity, v, inventory)])
  }

  /** The loop of `update_relay`. */
  method CollectAssignments(identity: HostIdentity, vms: seq<DesiredVm>, inventory: Inventory, now: int)
    returns (r: Option<seq<Assignment>>)
    ensures r == Assignments(identity, vms, inventory, now)
  {
    var collected: seq<Assignment> := [];
    var i := 0;
    while i < |vms|
      invariant 0 <= i <= |vms|
      invariant Assignments(identity, vms[..i], inventory, now) == Some(collected)
    {
      assert vms[..i + 1][..i] == vms[..i];
      if Grantable(vms[i], inventory, now) {
        if !inventory[vms[i].vmName].guest.value.parses {
          NoAddressIsFinal(identity, vms, i + 1, |vms|, inventory, now);
          assert vms[..|vms|] == vms;
          return None;
        }
        collected := collected + [AssignmentFor(identity, vms[i], inventory)];
      }
      i := i + 1;
    }
    assert vms[..i] == vms;
    r := Some(collected);
  }

  lemma {:induction false} NoAddressIsFinal(
    identity: HostIdentity, vms: seq<DesiredVm>, i: nat, n: nat, inventory: Inventory, now: int)
    requires i <= n <= |vms| && Assignments(identity, vms[..i], inventory, now).None?
    ensures Assignments(identity, vms[..n], inventory, now).None?
    decreases n
  {
    if i < n {
      NoAddressIsFinal(identity, vms, i, n - 1, inventory, now);
      assert vms[..n][..n - 1] == vms[..n - 1];
    }
  }

  /** Exactly the grantable entries are assigned. */
  lemma {:induction false} AssignmentsAreGrantable(
    identity: HostIdentity, vms: seq<DesiredVm>, inventory: Inventory, now: int, a: Assignment)
    requires Assignments(identity, vms, inventory, now).Some?
    ensures a in Assignments(identity, vms, inventory, now).value <==>
            exists v :: v in vms && Grantable(v, inventory, now) && a == AssignmentFor(identity, v, inventory)
    decreases |vms|
  {
    if vms != [] {
      var front, last := vms[..|vms| - 1], vms[|vms| - 1];
      AssignmentsAreGrantable(identity, front, inventory, now, a);
      assert vms == front + [last];
      assert forall v :: v in vms <==> v in front || v == last;
    }
  }

  // -------------------------------------------------------------- connection

  datatype Message = Message(doc: Document, relay: Option<Credentials>)

  /** `memory` outlives connections; the rest belongs to the current one. */
  datatype Conn = Conn(
    memory: Option<Document>, up: bool, session: string, received: bool,
    credentials: Option<Credentials>, runner: Runner)

  datatype ConnEvent =
    | Connect(session: string, hello: Option<Credentials>)
    | Receive(message: Message, cached: bool, inventory: Inventory, moment: Moment)
    | InventoryChange(inventory: Inventory, moment: Moment)
    | RelayTaskEnd
    | Disconnect

  predicate RelayIdentityValid(me: AgentIdentity, session: string, c: Option<Credentials>) {
    c.Some? ==>
      && c.value.identity.hostId == me.cfg.hostId
      && c.value.identity.credentialGeneration == me.credentialGeneration
      && c.value.identity.sessionId == session
  }

  /** The connection ends: `relay.close()` runs on every way out. */
  function Ended(c: Conn): Conn { c.(up := false, received := false, credentials := None, runner := None) }

  /** `update_relay`: the request it passes to the relay, if it gets that far. */
  function RelayRequest(c: Conn, inventory: Inventory, m: Moment): Option<Request> {
    if c.credentials.None? then Some(Request(None, [], m.now, m.clock, m.endsMidway))
    else
      var vms := if c.memory.None? then [] else c.memory.value.vms;
      var assignments := Assignments(c.credentials.value.identity, vms, inventory, m.now);
      if assignments.None? then None
      else Some(Request(c.credentials, assignments.value, m.now, m.clock, m.endsMidway))
  }

  ghost function Updated(c: Conn, inventory: Inventory, m: Moment): Conn {
    var request := RelayRequest(c, inventory, m);
    if request.None? then Ended(c)
    else
      var (runner, ok) := ApplyStep(c.runner, request.value);
      if ok then c.(runner := runner) else Ended(c)
  }

  /** The document handling before the relay is updated; `None` ends the connection. */
  ghost function Handled(me: AgentIdentity, c: Conn, m: Message, cached: bool): Option<Conn> {
    if !Valid(me.cfg, m.doc) || !RelayIdentityValid(me, c.session, m.relay) then None
    else if IsStale(c.memory, m.doc) then Some(c)
    else if !TransitionAllowed(c.memory, m.doc) || m.doc.version > I64_MAX || !cached then None
    else Some(c.(memory := Some(m.doc), received := true, credentials := m.relay))
  }

  ghost function ConnStep(me: AgentIdentity, c: Conn, e: ConnEvent): Conn {
    match e
    case Connect(session, hello) =>
      if c.up || session == "" || !RelayIdentityValid(me, session, hello) then c
      else Conn(c.memory, true, session, false, hello, None)
    case Receive(message, cached, inventory, moment) =>
      if !c.up then c
      else
        var handled := Handled(me, c, message, cached);
        if handled.None? then Ended(c)
        else if handled.value.received then Updated(handled.value, inventory, moment)
        else handled.value
    case InventoryChange(inventory, moment) =>
      if c.up && c.received then Updated(c, inventory, moment) else c
    case RelayTaskEnd => c.(runner := TaskEnds(c.runner))
    case Disconnect => Ended(c)
  }

  /** Before the first connection there may be a document recovered from disk. */
  function Started(recovered: Option<Document>): Conn { Conn(recovered, false, "", false, None, None) }

  /** Why targets are reachable: the last accepted message of this connection and the
      inventory the relay was last updated from. */
  datatype Grant = Grant(message: Message, inventory: Inventory, now: int)

  /** The connection after a run, the last message accepted on the current connection,
      and the grant of the last relay update. */
  ghost function AfterConn(me: AgentIdentity, recovered: Option<Document>, events: seq<ConnEvent>)
    : (Conn, Option<Message>, Option<Grant>)
  {
    if events == [] then (Started(recovered), None, None)
    else
      var (c, accepted, grant) := AfterConn(me, recovered, events[..|events| - 1]);
      var e := events[|events| - 1];
      var next := ConnStep(me, c, e);
      var message :=
        if !next.up || (e.Connect? && !c.up) then None
        else if e.Receive? && !IsStale(c.memory, e.message.doc) then Some(e.message)
        else accepted;
      var granted :=
        if !next.up || message.None? then None
        else if e.Receive? then Some(Grant(message.value, e.inventory, e.moment.now))
        else if e.InventoryChange? then Some(Grant(message.value, e.inventory, e.moment.now))
        else grant;
      (next, message, granted)
  }

  ghost predicate TargetGranted(t: Target, slot: Slot, g: Grant) {
    exists v :: v in g.message.doc.vms && Grantable(v, g.inventory, g.now) && g.message.relay.Some?
                && AssignmentFor(g.message.relay.value.identity, v, g.inventory)
                   == Assignment(t, slot.address, slot.deadline)
  }

  /** What holds after every run. */
  ghost predicate Gated(me: AgentIdentity, c: Conn, accepted: Option<Message>, grant: Option<Grant>) {
    && (c.received <==> accepted.Some?)
    && (!c.up ==> !c.received)
    && (accepted.None? ==> c.runner == None && grant == None)
    && (accepted.Some? ==>
          && c.memory == Some(accepted.value.doc) && c.credentials == accepted.value.relay
          && RelayIdentityValid(me, c.session, accepted.value.relay))
    && (grant.Some? ==> accepted == Some(grant.value.message))
    && (c.runner.Some? ==> grant.Some? && forall t :: t in c.runner.value.targets ==>
          TargetGranted(t, c.runner.value.targets[t], grant.value))
  }

  lemma UpdateGrants(c: Conn, m: Message, inventory: Inventory, moment: Moment)
    requires c.memory == Some(m.doc) && c.credentials == m.relay
    ensures var next := Updated(c, inventory, moment);
            next == Ended(c) || (next == c.(runner := next.runner)
               && (next.runner.Some? ==> forall t :: t in next.runner.value.targets ==>
                     TargetGranted(t, next.runner.value.targets[t], Grant(m, inventory, moment.now))))
  {
    var request := RelayRequest(c, inventory, moment);
    if request.Some? && ApplyStep(c.runner, request.value).1 && m.relay.Some? {
      ApplyGrantsOnlyAssignments(c.runner, request.value);
      var s := ApplyStep(c.runner, request.value).0.value;
      var g := Grant(m, inventory, moment.now);
      forall t | t in s.targets ensures TargetGranted(t, s.targets[t], g) {
        var i :| 0 <= i < |request.value.assignments|
                 && request.value.assignments[i] == Assignment(t, s.targets[t].address, s.targets[t].deadline);
        AssignmentsAreGrantable(m.relay.value.identity, m.doc.vms, inventory, moment.now, request.value.assignments[i]);
      }
    }
  }

  /** From any recovered document, over every run of connections, messages, inventory changes, relay expiries and
      disconnects: a target is reachable only while a desired state accepted on this very
      connection is the one in memory, under the relay identity of that message, and it
      names a Running entry whose VM was the matching, terminal-ready execution with a
      live lease when the relay was last updated; it stops being reachable at the end of
      that lease. */
  lemma {:induction false} ReachableOnlyByCurrentDocument(
    me: AgentIdentity, recovered: Option<Document>, events: seq<ConnEvent>)
    ensures var (c, accepted, grant) := AfterConn(me, recovered, events); Gated(me, c, accepted, grant)
    decreases |events|
  {
    if events != [] {
      ReachableOnlyByCurrentDocument(me, recovered, events[..|events| - 1]);
      var (c, accepted, grant) := AfterConn(me, recovered, events[..|events| - 1]);
      var e := events[|events| - 1];
      if e.Receive? && c.up && Handled(me, c, e.message, e.cached).Some? {
        var handled := Handled(me, c, e.message, e.cached).value;
        var message := if IsStale(c.memory, e.message.doc) then accepted else Some(e.message);
        if message.Some? { UpdateGrants(handled, message.value, e.inventory, e.moment); }
      }
      if e.InventoryChange? && accepted.Some? {
        UpdateGrants(c, accepted.value, e.inventory, e.moment);
      }
    }
  }

  lemma ReachableTargetIsLive(
    me: AgentIdentity, recovered: Option<Document>, events: seq<ConnEvent>, at: int, t: Target)
    requires t in Reachable(AfterConn(me, recovered, events).0.runner, at)
    ensures var (c, accepted, grant) := AfterConn(me, recovered, events);
            && c.up && accepted.Some? && c.memory == Some(accepted.value.doc) && grant.Some?
            && t.host.hostId == me.cfg.hostId && t.host.sessionId == c.session
            && exists v :: v in accepted.value.doc.vms && Grantable(v, grant.value.inventory, grant.value.now)
                           && Live(v, at) && t.vmId == v.vmId && t.owner == v.owner
                           && t.execution == v.execution && t.generation == v.generation
  {
    ReachableOnlyByCurrentDocument(me, recovered, events);
    var (c, accepted, grant) := AfterConn(me, recovered, events);
    var slot := c.runner.value.targets[t];
    assert TargetGranted(t, slot, grant.value);
  }
}
