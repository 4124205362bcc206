/** Which VMs the outbound relay may reach (crates/intar-agent/src/relay.rs, the
    target table of crates/stargate-core/src/relay.rs, and the relay part of the
    control connection in crates/intar-agent/src/bridge.rs).

    Wall clock and monotonic clock are one integer of milliseconds here. */
module Relay {
  import opened Wrappers
  import opened Text

  const RELAY_CHANNELS := 64
  const MAX_CREDENTIAL_MS := 125_000
  const SSH_PORT := 22

  datatype HostIdentity = HostIdentity(hostId: string, sessionId: string, credentialGeneration: nat)

  datatype Url = Url(
    scheme: string, username: string, password: Option<string>, query: Option<string>, fragment: Option<string>)

  datatype KeyAlgorithm = Ed25519 | OtherAlgorithm

  /** `url` and `keyAlgorithm` are what the URL and the OpenSSH key parse to, if they parse. */
  datatype Credentials = Credentials(
    websocketUrl: string, url: Option<Url>, token: string, gatewayKey: string, keyAlgorithm: Option<KeyAlgorithm>,
    identity: HostIdentity, expiresAtMs: int)

  datatype Target = Target(
    host: HostIdentity, owner: string, execution: string, generation: nat, vmId: string)

  datatype Address = Address(ip: string, port: nat)

  datatype Assignment = Assignment(target: Target, address: Address, deadline: int)

  datatype Slot = Slot(address: Address, deadline: int)

  predicate RelayIdValid(id: string) {
    0 < |id| <= 128 && forall i :: 0 <= i < |id| ==> IsSafeKeyChar(id[i]) || id[i] == '.'
  }

  predicate IdentityValid(h: HostIdentity) {
    RelayIdValid(h.hostId) && RelayIdValid(h.sessionId) && h.credentialGeneration > 0
  }

  predicate TargetValid(t: Target) {
    && IdentityValid(t.host)
    && RelayIdValid(t.owner) && RelayIdValid(t.execution) && RelayIdValid(t.vmId)
    && t.generation > 0
  }

  // ------------------------------------------------------------ the runner state

  /** `ended`: the background task expired or was cancelled; it clears the targets. */
  datatype Session = Session(credentials: Credentials, lease: int, targets: map<Target, Slot>, ended: bool)

  type Runner = Option<Session>

  predicate SameConnection(a: Credentials, b: Credentials) {
    && a.identity == b.identity && a.token == b.token
    && a.websocketUrl == b.websocketUrl && a.gatewayKey == b.gatewayKey
  }

  predicate IsAsciiHexDigit(c: char) { '0' <= c <= '9' || 'a' <= c <= 'f' || 'A' <= c <= 'F' }

  predicate TokenValid(token: string) {
    |token| == 64 && forall i :: 0 <= i < |token| ==> IsAsciiHexDigit(token[i])
  }

  /** A secure WebSocket URL that carries no credentials, query or fragment. */
  predicate UrlValid(url: Url) {
    url.scheme == "wss" && url.username == "" && url.password.None? && url.query.None? && url.fragment.None?
  }

  predicate CredentialsAccepted(c: Credentials, now: int) {
    && IdentityValid(c.identity)
    && 0 < c.expiresAtMs - now <= MAX_CREDENTIAL_MS
    && c.url.Some? && UrlValid(c.url.value)
    && c.keyAlgorithm == Some(Ed25519)
    && TokenValid(c.token)
  }

  predicate AssignmentAccepted(c: Credentials, a: Assignment, now: int) {
    TargetValid(a.target) && a.target.host == c.identity && a.address.port > 0 && a.deadline > now
  }

  ghost predicate DistinctTargets(assignments: seq<Assignment>) {
    forall i, j :: 0 <= i < j < |assignments| ==> assignments[i].target != assignments[j].target
  }

  ghost predicate RequestAccepted(c: Credentials, assignments: seq<Assignment>, now: int) {
    && CredentialsAccepted(c, now)
    && |assignments| <= RELAY_CHANNELS
    && (forall i :: 0 <= i < |assignments| ==> AssignmentAccepted(c, assignments[i], now))
    && DistinctTargets(assignments)
  }

  /** Entries that are not expired at `at`. */
  function Unexpired(targets: map<Target, Slot>, at: int): map<Target, Slot> {
    map t | t in targets && targets[t].deadline > at :: targets[t]
  }

  /** `LocalRelayTargets::assign` accepts a target that passed `AssignmentAccepted` (it
      repeats those checks) unless it expired meanwhile or the table is full. */
  predicate AssignSucceeds(targets: map<Target, Slot>, a: Assignment, at: int) {
    && a.deadline > at
    && (|Unexpired(targets, at)| < RELAY_CHANNELS || a.target in Unexpired(targets, at))
  }

  /** `LocalRelayTargets::assign` drops expired entries, then inserts or renews. */
  function Assigned(targets: map<Target, Slot>, a: Assignment, at: int): map<Target, Slot> {
    Unexpired(targets, at)[a.target := Slot(a.address, a.deadline)]
  }

  /** The assign loop; `clock(i)` is the time read for assignment `i`.  `None` when one fails. */
  ghost function AssignAll(targets: map<Target, Slot>, assignments: seq<Assignment>, n: nat, clock: nat -> int)
    : Option<map<Target, Slot>>
    requires n <= |assignments|
  {
    if n == 0 then Some(targets)
    else
      var before := AssignAll(targets, assignments, n - 1, clock);
      var a := assignments[n - 1];
      if before.None? || !AssignSucceeds(before.value, a, clock(n - 1)) then None
      else Some(Assigned(before.value, a, clock(n - 1)))
  }

  function LiveSet(assignments: seq<Assignment>): set<Target> {
    set i | 0 <= i < |assignments| :: assignments[i].target
  }

  /** The session the assignments go to: the running one if it is the same connection,
      else a new empty one.  `endsMidway`: a kept session expires between
      the check and the assignments, clearing the targets under our feet. */
  function Continued(r: Runner, c: Credentials, endsMidway: bool): Session {
    if r.Some? && SameConnection(r.value.credentials, c) && !r.value.ended then
      if endsMidway then r.value.(targets := map[], ended := true, lease := c.expiresAtMs)
      else r.value.(lease := c.expiresAtMs)
    else Session(c, c.expiresAtMs, map[], endsMidway)
  }

  function Retained(targets: map<Target, Slot>, live: set<Target>): map<Target, Slot> {
    map t | t in targets && t in live :: targets[t]
  }

  /** One call of `apply`. */
  datatype Request = Request(
    credentials: Option<Credentials>, assignments: seq<Assignment>, now: int, clock: nat -> int, endsMidway: bool)

  ghost function ApplyStep(r: Runner, q: Request): (Runner, bool) {
    if q.credentials.None? then (None, true)
    else if !RequestAccepted(q.credentials.value, q.assignments, q.now) then (None, false)
    else
      var s := Continued(r, q.credentials.value, q.endsMidway);
      var granted := AssignAll(Retained(s.targets, LiveSet(q.assignments)), q.assignments, |q.assignments|, q.clock);
      if granted.None? then (None, false) else (Some(s.(targets := granted.value)), true)
  }

  /** The background task ends, by expiry or cancellation. */
  function TaskEnds(r: Runner): Runner {
    if r.None? then None else Some(r.value.(targets := map[], ended := true))
  }

  /** What a gateway channel can open at time `at`. */
  function Reachable(r: Runner, at: int): map<Target, Slot> {
    if r.None? || r.value.ended then map[] else Unexpired(r.value.targets, at)
  }

  class RelayRunner {
    var current: Runner

    constructor ()
      ensures current == None
    {
      current := None;
    }

    method Close()
      modifies this
      ensures current == None
    {
      current := None;
    }

    /** The checks of `apply_validated` before anything is changed. */
    method CheckRequest(c: Credentials, assignments: seq<Assignment>, now: int) returns (ok: bool)
      ensures ok <==> RequestAccepted(c, assignments, now)
    {
      if !CredentialsAccepted(c, now) || |assignments| > RELAY_CHANNELS {
        return false;
      }
      var live: set<Target> := {};
      var i := 0;
      while i < |assignments|
        invariant 0 <= i <= |assignments|
        invariant live == LiveSet(assignments[..i])
        invariant forall j :: 0 <= j < i ==> AssignmentAccepted(c, assignments[j], now)
        invariant DistinctTargets(assignments[..i])
      {
        if !AssignmentAccepted(c, assignments[i], now) {
          return false;
        }
        if assignments[i].target in live {
          assert exists j :: 0 <= j < i && assignments[..i][j].target == assignments[i].target;
          return false;
        }
        TargetAdded(assignments, i);
        live := live + {assignments[i].target};
        i := i + 1;
      }
      assert assignments[..i] == assignments;
      ok := true;
    }

    /** `apply` */
    method Apply(q: Request) returns (ok: bool)
      modifies this
      ensures (current, ok) == ApplyStep(old(current), q)
    {
      if q.credentials.None? {
        Close();
        return true;
      }
      var c := q.credentials.value;
      ok := CheckRequest(c, q.assignments, q.now);
      if !ok {
        Close();
        return;
      }
      var s := Continued(current, c, q.endsMidway);
      var granted := AssignEach(Retained(s.targets, LiveSet(q.assignments)), q.assignments, q.clock);
      if granted.None? {
        Close();
        return false;
      }
      current := Some(s.(targets := granted.value));
    }

    /** The assign loop of `apply_validated`. */
    method AssignEach(start: map<Target, Slot>, assignments: seq<Assignment>, clock: nat -> int)
      returns (r: Option<map<Target, Slot>>)
      ensures r == AssignAll(start, assignments, |assignments|, clock)
    {
      var targets := start;
      var i := 0;
      while i < |assignments|
        invariant 0 <= i <= |assignments|
        invariant AssignAll(start, assignments, i, clock) == Some(targets)
      {
        var at := clock(i);
        if !AssignSucceeds(targets, assignments[i], at) {
          FailureIsFinal(start, assignments, i + 1, |assignments|, clock);
          return None;
        }
        targets := Assigned(targets, assignments[i], at);
        i := i + 1;
      }
      r := Some(targets);
    }
  }

  lemma TargetAdded(assignments: seq<Assignment>, i: nat)
    requires i < |assignments| && DistinctTargets(assignments[..i])
    requires assignments[i].target !in LiveSet(assignments[..i])
    ensures DistinctTargets(assignments[..i + 1])
    ensures LiveSet(assignments[..i + 1]) == LiveSet(assignments[..i]) + {assignments[i].target}
  {
    var front, longer := assignments[..i], assignments[..i + 1];
    forall a, b | 0 <= a < b < |longer| ensures longer[a].target != longer[b].target {
      assert longer[a] == front[a];
      if b < i { assert longer[b] == front[b]; } else { assert front[a].target in LiveSet(front); }
    }
    forall t ensures t in LiveSet(longer) <==> t in LiveSet(front) || t == assignments[i].target {
      if t in LiveSet(longer) {
        var k :| 0 <= k < |longer| && longer[k].target == t;
        if k < i { assert front[k].target == t; }
      }
      if t in LiveSet(front) {
        var k :| 0 <= k < |front| && front[k].target == t;
        assert longer[k].target == t;
      }
      assert longer[i].target == assignments[i].target;
    }
  }

  lemma {:induction false} FailureIsFinal(
    targets: map<Target, Slot>, assignments: seq<Assignment>, i: nat, n: nat, clock: nat -> int)
    requires i <= n <= |assignments| && AssignAll(targets, assignments, i, clock).None?
    ensures AssignAll(targets, assignments, n, clock).None?
    decreases n
  {
    if i < n {
      FailureIsFinal(targets, assignments, i, n - 1, clock);
    }
  }

  // ----------------------------------------------- what the targets may contain

  /** Every entry is one of the assignments, unless it is a leftover under a name that
      the loop has yet to overwrite. */
  ghost predicate FromAssignments(targets: map<Target, Slot>, assignments: seq<Assignment>) {
    forall t :: t in targets ==> exists i ::
      0 <= i < |assignments| && assignments[i] == Assignment(t, targets[t].address, targets[t].deadline)
  }

  ghost predicate DoneOrPending(targets: map<Target, Slot>, assignments: seq<Assignment>, n: nat)
    requires n <= |assignments|
  {
    && (forall t :: t in targets ==> t in LiveSet(assignments))
    && (forall i :: 0 <= i < n && assignments[i].target in targets ==>
          targets[assignments[i].target] == Slot(assignments[i].address, assignments[i].deadline))
  }

  lemma {:induction false} AssignLoopInvariant(
    targets: map<Target, Slot>, assignments: seq<Assignment>, n: nat, clock: nat -> int)
    requires n <= |assignments| && DistinctTargets(assignments)
    requires DoneOrPending(targets, assignments, 0)
    requires AssignAll(targets, assignments, n, clock).Some?
    ensures DoneOrPending(AssignAll(targets, assignments, n, clock).value, assignments, n)
    decreases n
  {
    if n > 0 {
      AssignLoopInvariant(targets, assignments, n - 1, clock);
      var before := AssignAll(targets, assignments, n - 1, clock).value;
      var after := Assigned(before, assignments[n - 1], clock(n - 1));
      assert assignments[n - 1].target in LiveSet(assignments);
      forall i | 0 <= i < n && assignments[i].target in after
        ensures after[assignments[i].target] == Slot(assignments[i].address, assignments[i].deadline)
      {
        if i < n - 1 { assert assignments[i].target != assignments[n - 1].target; }
      }
    }
  }

  lemma ApplyGrantsOnlyAssignments(r: Runner, q: Request)
    requires ApplyStep(r, q).1 && q.credentials.Some?
    ensures var s := ApplyStep(r, q).0.value;
            && SameConnection(s.credentials, q.credentials.value)
            && s.lease == q.credentials.value.expiresAtMs
            && FromAssignments(s.targets, q.assignments)
            && forall t :: t in s.targets ==> t.host == q.credentials.value.identity
  {
    var s := Continued(r, q.credentials.value, q.endsMidway);
    var start := Retained(s.targets, LiveSet(q.assignments));
    AssignLoopInvariant(start, q.assignments, |q.assignments|, q.clock);
    var final := ApplyStep(r, q).0.value.targets;
    forall t | t in final
      ensures exists i :: 0 <= i < |q.assignments|
                          && q.assignments[i] == Assignment(t, final[t].address, final[t].deadline)
      ensures t.host == q.credentials.value.identity
    {
      var i :| 0 <= i < |q.assignments| && q.assignments[i].target == t;
      assert AssignmentAccepted(q.credentials.value, q.assignments[i], q.now);
    }
  }

  lemma LiveSetIsSmall(assignments: seq<Assignment>)
    ensures |LiveSet(assignments)| <= |assignments|
  {
    if assignments != [] {
      var n := |assignments| - 1;
      LiveSetIsSmall(assignments[..n]);
      assert LiveSet(assignments) == LiveSet(assignments[..n]) + {assignments[n].target} by {
        forall t ensures t in LiveSet(assignments) <==> t in LiveSet(assignments[..n]) || t == assignments[n].target {
          if t in LiveSet(assignments) {
            var k :| 0 <= k < |assignments| && assignments[k].target == t;
            if k < n { assert assignments[..n][k].target == t; }
          }
          if t in LiveSet(assignments[..n]) {
            var k :| 0 <= k < n && assignments[..n][k].target == t;
            assert assignments[k].target == t;
          }
        }
      }
    }
  }

  lemma SubsetIsSmaller<T>(a: set<T>, b: set<T>)
    requires a <= b
    ensures |a| <= |b|
  {
    assert |b| == |a| + |b - a| by { assert b == a + (b - a); }
  }

  /** The first `n` assignments are still unexpired when they are assigned. */
  ghost predicate InTime(assignments: seq<Assignment>, n: nat, clock: nat -> int)
    requires n <= |assignments|
  {
    forall i: nat :: i < n ==> assignments[i].deadline > clock(i)
  }

  /** The capacity check of the target table never fails for an accepted request: only
      an assignment that expired since the request was checked can make `apply` fail. */
  lemma OnlyExpiryFailsAnAcceptedRequest(r: Runner, q: Request)
    requires q.credentials.Some? && RequestAccepted(q.credentials.value, q.assignments, q.now)
    ensures ApplyStep(r, q).1 <==> InTime(q.assignments, |q.assignments|, q.clock)
  {
    var s := Continued(r, q.credentials.value, q.endsMidway);
    var start := Retained(s.targets, LiveSet(q.assignments));
    CapacitySuffices(start, q.assignments, |q.assignments|, q.clock);
  }

  lemma {:induction false} CapacitySuffices(
    start: map<Target, Slot>, assignments: seq<Assignment>, n: nat, clock: nat -> int)
    requires n <= |assignments| <= RELAY_CHANNELS && DistinctTargets(assignments)
    requires DoneOrPending(start, assignments, 0)
    ensures AssignAll(start, assignments, n, clock).Some? <==> InTime(assignments, n, clock)
    decreases n
  {
    if n > 0 {
      CapacitySuffices(start, assignments, n - 1, clock);
      InTimeExtends(assignments, n - 1, clock);
      OneMoreFits(start, assignments, n - 1, clock);
    }
  }

  lemma OneMoreFits(start: map<Target, Slot>, assignments: seq<Assignment>, n: nat, clock: nat -> int)
    requires n < |assignments| <= RELAY_CHANNELS && DistinctTargets(assignments)
    requires DoneOrPending(start, assignments, 0)
    ensures AssignAll(start, assignments, n + 1, clock).Some? <==>
            AssignAll(start, assignments, n, clock).Some? && assignments[n].deadline > clock(n)
  {
    if AssignAll(start, assignments, n, clock).Some? {
      AssignLoopInvariant(start, assignments, n, clock);
      RoomForOneMore(AssignAll(start, assignments, n, clock).value, assignments, n, clock(n));
    }
  }

  lemma InTimeExtends(assignments: seq<Assignment>, n: nat, clock: nat -> int)
    requires n < |assignments|
    ensures InTime(assignments, n + 1, clock) <==>
            InTime(assignments, n, clock) && assignments[n].deadline > clock(n)
  {
  }

  /** A table that holds only names of the request has room for one more of them. */
  lemma RoomForOneMore(targets: map<Target, Slot>, assignments: seq<Assignment>, n: nat, at: int)
    requires n < |assignments| <= RELAY_CHANNELS
    requires forall t :: t in targets ==> t in LiveSet(assignments)
    ensures AssignSucceeds(targets, assignments[n], at) <==> assignments[n].deadline > at
  {
    var kept, target := Unexpired(targets, at), assignments[n].target;
    if target !in kept {
      LiveSetIsSmall(assignments);
      assert target in LiveSet(assignments);
      SubsetIsSmaller(kept.Keys + {target}, LiveSet(assignments));
      assert |kept.Keys + {target}| == |kept.Keys| + 1;
    }
  }

  // ---------------------------------------------------- runs of the relay itself

  datatype RelayEvent = Apply(request: Request) | TaskEnd | Close

  /** The runner after a run, with the request that last succeeded with credentials and
      has not been revoked since. */
  ghost function AfterRelay(events: seq<RelayEvent>): (Runner, Option<Request>) {
    if events == [] then (None, None)
    else
      var (r, last) := AfterRelay(events[..|events| - 1]);
      match events[|events| - 1]
      case Apply(q) =>
        var (next, ok) := ApplyStep(r, q);
        (next, if ok && q.credentials.Some? then Some(q) else None)
      case TaskEnd => (TaskEnds(r), last)
      case Close => (None, None)
  }

  /** Over every run of applies, task ends and closes: what is reachable was assigned by
      the last successful apply, under that apply's identity, and nothing is reachable
      after a failed or credential-less apply or a close. */
  lemma {:induction false} ReachableIsLastGrant(events: seq<RelayEvent>, at: int)
    ensures var (r, last) := AfterRelay(events);
            && (r.Some? <==> last.Some?)
            && (last.None? ==> Reachable(r, at) == map[])
            && (last.Some? ==>
                  && last.value.credentials.Some?
                  && SameConnection(r.value.credentials, last.value.credentials.value)
                  && FromAssignments(Reachable(r, at), last.value.assignments)
                  && FromAssignments(r.value.targets, last.value.assignments)
                  && forall t :: t in r.value.targets ==> t.host == last.value.credentials.value.identity)
    decreases |events|
  {
    if events != [] {
      ReachableIsLastGrant(events[..|events| - 1], at);
      var (r, last) := AfterRelay(events[..|events| - 1]);
      var e := events[|events| - 1];
      if e.Apply? && ApplyStep(r, e.request).1 && e.request.credentials.Some? {
        ApplyGrantsOnlyAssignments(r, e.request);
      }
    }
  }
}
