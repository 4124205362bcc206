/** What `validate_restart` (crates/intar-agent/src/bridge.rs) finds after a reconcile pass: every
    persisted VM must be spelled out by the stored document, or the agent does not start. */
module RestartProofs {
  import opened Wrappers
  import opened Text
  import opened DesiredState
  import opened Reconcile
  import opened ReconcileProofs

  /** The document has an entry, in either phase, that reads exactly like the record. */
  predicate SpelledOut(d: Document, name: string, vm: LocalVm) {
    exists i :: 0 <= i < |d.vms| && d.vms[i].vmName == name && vm == AsWritten(d.vms[i])
  }

  /** The loop body of `validate_restart`. */
  predicate Attributed(cfg: Config, d: Document, name: string, vm: LocalVm) {
    && vm.details.Some?
    && OwnerValid(cfg, vm.details.value.owner, vm.details.value.execution, vm.details.value.generation)
    && SpelledOut(d, name, vm)
  }

  ghost predicate RestartAccepted(cfg: Config, durable: Option<Row>, vms: map<string, LocalVm>) {
    vms != map[] ==>
      && Load(cfg, durable).Some? && Valid(cfg, Load(cfg, durable).value)
      && forall name :: name in vms ==> Attributed(cfg, Load(cfg, durable).value, name, vms[name])
  }

  /** `validate_restart`, over the persisted rows in any order. */
  method ValidateRestart(cfg: Config, durable: Option<Row>, vms: map<string, LocalVm>) returns (ok: bool)
    ensures ok <==> RestartAccepted(cfg, durable, vms)
  {
    if vms == map[] {
      return true;
    }
    if Load(cfg, durable).None? {
      return false;
    }
    var d := Load(cfg, durable).value;
    var valid := ValidateDesiredState(cfg, d);
    if !valid {
      return false;
    }
    var remaining := vms.Keys;
    while remaining != {}
      invariant remaining <= vms.Keys
      invariant forall name :: name in vms && name !in remaining ==> Attributed(cfg, d, name, vms[name])
      decreases remaining
    {
      var name :| name in remaining;
      if !Attributed(cfg, d, name, vms[name]) {
        return false;
      }
      remaining := remaining - {name};
    }
    ok := true;
  }

  function Stored(d: Document): Option<Row> { Some(Row(d.hostId, d.version, d)) }

  ghost predicate AllSpelledOut(d: Document, vms: map<string, LocalVm>) {
    forall name :: name in vms ==> SpelledOut(d, name, vms[name])
  }

  /** With a valid stored document, only the spelling of the VMs decides. */
  lemma RestartIffSpelledOut(cfg: Config, d: Document, vms: map<string, LocalVm>)
    requires Valid(cfg, d)
    ensures RestartAccepted(cfg, Stored(d), vms) <==> AllSpelledOut(d, vms)
  {
    forall name | name in vms && SpelledOut(d, name, vms[name]) ensures Attributed(cfg, d, name, vms[name]) {
      var i :| 0 <= i < |d.vms| && d.vms[i].vmName == name && vms[name] == AsWritten(d.vms[i]);
      assert VmValid(cfg, d.vms[i]);
    }
    if vms != map[] && AllSpelledOut(d, vms) {
      assert Load(cfg, Stored(d)) == Some(d);
    }
  }

  // ------------------------------------------- every record has a known origin

  /** A Running entry the manager would store under `name`. */
  ghost predicate Creates(d: Document, i: nat, name: string)
    requires i < |d.vms|
  {
    var v := d.vms[i];
    v.phase == Running && UsableKeys(v) && Trim(v.vmName) == name && IsSafeKey(name) && IsSafeKey(Trim(v.runId))
  }

  /** The Running entries called `name` in this range all match the record. */
  ghost predicate MatchedBy(d: Document, from: nat, to: nat, name: string, vm: LocalVm)
    requires to <= |d.vms|
  {
    forall k :: from <= k < to && d.vms[k].phase == Running && d.vms[k].vmName == name ==> Matches(vm, d.vms[k])
  }

  ghost predicate CreatedBy(d: Document, n: nat, name: string, vm: LocalVm, i: nat)
    requires n <= |d.vms|
  {
    i < n && Creates(d, i, name) && vm == Record(d.vms[i]) && MatchedBy(d, i + 1, n, name, vm)
  }

  /** Where a record that stays comes from: an entry of this document created it, or the host had
      it and the first loop kept it; no later entry of its name disagreed. */
  ghost predicate HasOrigin(d: Document, h: Host, n: nat, name: string, vm: LocalVm)
    requires n <= |d.vms|
  {
    || (exists i: nat :: CreatedBy(d, n, name, vm, i))
    || (name in h.vms && vm == h.vms[name] && Kept(d, name, vm) && MatchedBy(d, 0, n, name, vm))
  }

  ghost predicate Stays(h: Host, name: string) { name in h.vms && name !in h.deleting }

  lemma PurgedHasOrigin(d: Document, h: Host, env: Env, name: string)
    requires Stays(Purged(d, h, env), name)
    ensures HasOrigin(d, h, 0, name, Purged(d, h, env).vms[name])
  {
  }

  /** One entry: a record that stays was there and not contradicted, or was created now. */
  lemma StepHasOrigin(h: Host, v: DesiredVm, now: int, env: Env, name: string)
    requires v.phase == Running && Managed(h.vms) && Stays(ReconcileVm(h, v, now, env).0, name)
    ensures var vm := ReconcileVm(h, v, now, env).0.vms[name];
            || (Stays(h, name) && vm == h.vms[name] && (v.vmName == name ==> Matches(vm, v)))
            || (name == Trim(v.vmName) && vm == Record(v) && UsableKeys(v)
                && IsSafeKey(name) && IsSafeKey(Trim(v.runId)))
  {
    if v.vmName == name && name in h.vms { SafeKeysAreTrimmed(name); }
  }

  lemma MatchedByOneMore(d: Document, from: nat, n: nat, m: nat, name: string, vm: LocalVm)
    requires m == n + 1 <= |d.vms| && MatchedBy(d, from, n, name, vm)
    requires d.vms[n].phase == Running && d.vms[n].vmName == name ==> Matches(vm, d.vms[n])
    ensures MatchedBy(d, from, m, name, vm)
  {
  }

  lemma OriginStays(d: Document, h: Host, n: nat, m: nat, name: string, vm: LocalVm)
    requires m == n + 1 <= |d.vms| && HasOrigin(d, h, n, name, vm)
    requires d.vms[n].phase == Running && d.vms[n].vmName == name ==> Matches(vm, d.vms[n])
    ensures HasOrigin(d, h, m, name, vm)
  {
    if i: nat :| CreatedBy(d, n, name, vm, i) {
      MatchedByOneMore(d, i + 1, n, m, name, vm);
      assert CreatedBy(d, m, name, vm, i);
    } else {
      MatchedByOneMore(d, 0, n, m, name, vm);
    }
  }

  lemma {:induction false} FoldHasOrigin(d: Document, h: Host, n: nat, now: int, env: Env, name: string)
    requires n <= |d.vms| && Managed(h.vms)
    requires Stays(ReconcileAll(Purged(d, h, env), d.vms[..n], now, env), name)
    ensures HasOrigin(d, h, n, name, ReconcileAll(Purged(d, h, env), d.vms[..n], now, env).vms[name])
    decreases n
  {
    if n == 0 {
      PurgedHasOrigin(d, h, env, name);
    } else {
      var v, before := d.vms[n - 1], ReconcileAll(Purged(d, h, env), d.vms[..n - 1], now, env);
      assert d.vms[..n][..n - 1] == d.vms[..n - 1];
      var after := ReconcileAll(Purged(d, h, env), d.vms[..n], now, env);
      ReconcileAllKeepsManaged(Purged(d, h, env), d.vms[..n - 1], now, env);
      if v.phase == Running { StepHasOrigin(before, v, now, env, name); }
      var vm := after.vms[name];
      if Stays(before, name) && vm == before.vms[name] && (v.phase == Running && v.vmName == name ==> Matches(vm, v)) {
        FoldHasOrigin(d, h, n - 1, now, env, name);
        OriginStays(d, h, n - 1, n, name, vm);
      } else {
        assert CreatedBy(d, n, name, vm, n - 1);
      }
    }
  }

  // ---------------------------------------------------------------- exact condition

  /** No later Running entry has the stored name of entry `i` as its own name. */
  ghost predicate LastWord(d: Document, i: nat)
    requires i < |d.vms|
  {
    forall k :: i < k < |d.vms| && d.vms[k].phase == Running ==> d.vms[k].vmName != Trim(d.vms[i].vmName)
  }

  /** Whatever the manager may store for an entry, and no later entry clears, the document spells out. */
  ghost predicate NoStrays(d: Document) {
    forall i: nat :: i < |d.vms| && Creates(d, i, Trim(d.vms[i].vmName)) && LastWord(d, i) ==>
      SpelledOut(d, Trim(d.vms[i].vmName), Record(d.vms[i]))
  }

  lemma CreatedIsSpelledOut(d: Document, name: string, vm: LocalVm, i: nat)
    requires NoStrays(d) && CreatedBy(d, |d.vms|, name, vm, i)
    ensures SpelledOut(d, name, vm)
  {
    if !LastWord(d, i) {
      var k :| i < k < |d.vms| && d.vms[k].phase == Running && d.vms[k].vmName == name;
      assert Matches(vm, d.vms[k]);
      SafeKeysAreTrimmed(Trim(d.vms[i].runId));
      assert vm == AsWritten(d.vms[k]);
    }
  }

  lemma KeptIsSpelledOut(d: Document, h: Host, name: string)
    requires Managed(h.vms) && name in h.vms && Kept(d, name, h.vms[name]) &&
        MatchedBy(d, 0, |d.vms|, name, h.vms[name])
    ensures SpelledOut(d, name, h.vms[name])
  {
    var vm := h.vms[name];
    var i :| 0 <= i < |d.vms| && d.vms[i].phase == Running && d.vms[i].runId == LocalRun(vm).value &&
        d.vms[i].vmName == name;
    ManagedMatchIsAsWritten(h.vms, name, d.vms[i]);
  }

  /** What a pass leaves and does not mark for deletion, the document spells out. */
  lemma UnmarkedIsSpelledOut(d: Document, h: Host, now: int, env: Env, name: string)
    requires Managed(h.vms) && NoStrays(d) && Stays(Applied(d, h, now, env), name)
    ensures SpelledOut(d, name, Applied(d, h, now, env).vms[name])
  {
    var vm := Applied(d, h, now, env).vms[name];
    assert d.vms[..|d.vms|] == d.vms;
    FoldHasOrigin(d, h, |d.vms|, now, env, name);
    if i: nat :| CreatedBy(d, |d.vms|, name, vm, i) {
      CreatedIsSpelledOut(d, name, vm, i);
    } else {
      KeptIsSpelledOut(d, h, name);
    }
  }

  lemma PassLeavesSpelledOut(d: Document, h: Host, now: int, env: Env)
    requires Managed(h.vms) && NoStrays(d)
    ensures AllSpelledOut(d, Round(d, h, now, env).vms)
  {
    var after := Round(d, h, now, env).vms;
    forall name | name in after ensures SpelledOut(d, name, after[name]) {
      UnmarkedIsSpelledOut(d, h, now, env, name);
    }
  }

  const EMPTY_HOST := Host(map[], {})

  /** Only entry `i` may be created; every lease is live. */
  ghost predicate OnlyEntry(d: Document, i: nat, now: int, env: Env)
    requires i < |d.vms|
  {
    && (forall k :: 0 <= k < |d.vms| ==> Live(d.vms[k], now))
    && forall k :: 0 <= k < |d.vms| ==> (d.vms[k].vmName in env.refused <==> k != i)
  }

  lemma {:induction false} StrayIsCreated(d: Document, n: nat, i: nat, now: int, env: Env)
    requires i < |d.vms| && n <= |d.vms| && OnlyEntry(d, i, now, env)
    requires Creates(d, i, Trim(d.vms[i].vmName)) && LastWord(d, i)
    ensures ReconcileAll(EMPTY_HOST, d.vms[..n], now, env)
            == if n <= i then EMPTY_HOST else Host(map[Trim(d.vms[i].vmName) := Record(d.vms[i])], {})
    decreases n
  {
    if n > 0 {
      assert d.vms[..n][..n - 1] == d.vms[..n - 1];
      StrayIsCreated(d, n - 1, i, now, env);
      assert Live(d.vms[n - 1], now) && (d.vms[n - 1].vmName in env.refused <==> n - 1 != i);
    }
  }

  /** A pass over an empty host that leaves what the entry stores, and nothing else. */
  lemma StrayIsLeft(d: Document, i: nat, now: int, env: Env)
    requires i < |d.vms| && OnlyEntry(d, i, now, env)
    requires Creates(d, i, Trim(d.vms[i].vmName)) && LastWord(d, i)
    ensures Round(d, EMPTY_HOST, now, env).vms == map[Trim(d.vms[i].vmName) := Record(d.vms[i])]
  {
    assert d.vms[..|d.vms|] == d.vms;
    assert Purged(d, EMPTY_HOST, env) == EMPTY_HOST;
    StrayIsCreated(d, |d.vms|, i, now, env);
  }

  ghost function BeforeAllLeases(vms: seq<DesiredVm>): (t: int)
    ensures forall k :: 0 <= k < |vms| ==> Live(vms[k], t)
  {
    if vms == [] then 0
    else
      var t, last := BeforeAllLeases(vms[..|vms| - 1]), vms[|vms| - 1].leaseExpiresAtMs;
      if t < last then t else last - 1
  }

  lemma OnlyEntryIsPossible(d: Document, i: nat) returns (now: int, env: Env)
    requires i < |d.vms| && DistinctNames(d.vms)
    ensures OnlyEntry(d, i, now, env)
  {
    now := BeforeAllLeases(d.vms);
    var others := set k | 0 <= k < |d.vms| && k != i :: d.vms[k].vmName;
    env := Env({}, others);
    forall k | 0 <= k < |d.vms| ensures d.vms[k].vmName in others <==> k != i {
      if d.vms[k].vmName in others {
        var m :| 0 <= m < |d.vms| && m != i && d.vms[m].vmName == d.vms[k].vmName;
        SameNameSameEntry(d, m, k);
      }
    }
  }

  ghost predicate EveryPassSurvives(cfg: Config, d: Document) {
    forall h: Host, now: int, env: Env :: Managed(h.vms) ==> RestartAccepted(cfg, Stored(d), Round(d, h, now, env).vms)
  }

  /** After every settled pass from every managed host, with any creates refused, a restart from
      the stored document is accepted if and only if the document leaves no strays. */
  lemma SettledPassesSurviveIffNoStrays(cfg: Config, d: Document)
    requires Valid(cfg, d)
    ensures EveryPassSurvives(cfg, d) <==> NoStrays(d)
  {
    if NoStrays(d) {
      forall h: Host, now: int, env: Env | Managed(h.vms)
        ensures RestartAccepted(cfg, Stored(d), Round(d, h, now, env).vms)
      {
        PassLeavesSpelledOut(d, h, now, env);
        RestartIffSpelledOut(cfg, d, Round(d, h, now, env).vms);
      }
    } else {
      var i: nat :| i < |d.vms| && Creates(d, i, Trim(d.vms[i].vmName)) && LastWord(d, i)
                    && !SpelledOut(d, Trim(d.vms[i].vmName), Record(d.vms[i]));
      StrayRefusesRestart(cfg, d, i);
    }
  }

  lemma StrayRefusesRestart(cfg: Config, d: Document, i: nat)
    requires Valid(cfg, d) && i < |d.vms| && Creates(d, i, Trim(d.vms[i].vmName)) && LastWord(d, i)
    requires !SpelledOut(d, Trim(d.vms[i].vmName), Record(d.vms[i]))
    ensures !EveryPassSurvives(cfg, d)
  {
    var now, env := OnlyEntryIsPossible(d, i);
    StrayIsLeft(d, i, now, env);
    var left := Round(d, EMPTY_HOST, now, env).vms;
    assert Trim(d.vms[i].vmName) in left;
    RestartIffSpelledOut(cfg, d, left);
    assert !RestartAccepted(cfg, Stored(d), Round(d, EMPTY_HOST, now, env).vms);
  }

  /** Safe names and run IDs are enough, since the manager stores them as they are written. */
  lemma SafeNamesLeaveNoStrays(d: Document)
    requires SafeNames(d)
    ensures NoStrays(d)
  {
    forall i: nat | i < |d.vms| && Creates(d, i, Trim(d.vms[i].vmName)) && LastWord(d, i)
      ensures SpelledOut(d, Trim(d.vms[i].vmName), Record(d.vms[i]))
    {
      SafeKeysAreTrimmed(d.vms[i].vmName);
      SafeKeysAreTrimmed(d.vms[i].runId);
      assert Record(d.vms[i]) == AsWritten(d.vms[i]);
    }
  }

  // ---------------------------------------------- a pass whose cleanups are pending

  /** Under one name: after a pass of safely named entries the record still there is spelled out, or
      was so before the pass, unless its cleanup finished in time. */
  lemma UnsettledCell(d: Document, h: Host, now: int, env: Env, name: string)
    requires DistinctNames(d.vms) && SafeNames(d) && Managed(h.vms)
    ensures var after := Applied(d, h, now, env).vms;
            (name in after && !SpelledOut(d, name, after[name])) <==>
            (name in h.vms && !SpelledOut(d, name, h.vms[name]) && name !in env.quick)
  {
    PassIsLocal(d, h, now, env, name);
    PurgeIsLocal(d, h, env, name);
    var named := NamedBy(d, name);
    if named.Some? {
      var v := d.vms[named.value];
      SafeKeysAreTrimmed(v.runId);
      assert SpelledOut(d, name, AsWritten(v)) && Record(v) == AsWritten(v);
    }
    if name in h.vms {
      KeptMeansRunAgrees(d, name, h.vms[name]);
      if named.Some? && Matches(h.vms[name], d.vms[named.value]) {
        ManagedMatchIsAsWritten(h.vms, name, d.vms[named.value]);
      }
    }
  }

  /** The pass has run but its cleanups may not have finished: what it leaves is spelled out if and
      only if every record the document does not spell out was cleaned up in time. */
  lemma UnsettledPassIff(d: Document, h: Host, now: int, env: Env)
    requires DistinctNames(d.vms) && SafeNames(d) && Managed(h.vms)
    ensures AllSpelledOut(d, Applied(d, h, now, env).vms) <==>
            forall name :: name in h.vms && !SpelledOut(d, name, h.vms[name]) ==> name in env.quick
  {
    forall name ensures var after := Applied(d, h, now, env).vms;
            (name in after && !SpelledOut(d, name, after[name])) <==>
            (name in h.vms && !SpelledOut(d, name, h.vms[name]) && name !in env.quick)
    {
      UnsettledCell(d, h, now, env, name);
    }
  }

  const CFG := Config("h", Personal, "u")

  function Vm(name: string, run: string): DesiredVm {
    DesiredVm("v", "u", "x", 1, run, name, Running, ["k"], 10, "")
  }

  function Asking(version: nat, vms: seq<DesiredVm>): Document {
    Document(Personal, "u", SCHEMA_VERSION, "h", version, vms, [], "")
  }

  lemma TrimPadded()
    ensures Trim(" a") == "a" && Trim("a") == "a" && Trim("r") == "r" && Trim("q") == "q" && Trim("k") == "k"
    ensures IsSafeKey("a") && IsSafeKey("r") && IsSafeKey("q")
  {
  }

  lemma OneVmIsValid(version: nat, name: string, run: string)
    requires !IsBlank(name) && !IsBlank(run)
    ensures Valid(CFG, Asking(version, [Vm(name, run)]))
  {
    assert !IsWhitespace("u"[0]) && !IsWhitespace("x"[0]) && !IsWhitespace("v"[0]);
    assert VmValid(CFG, Vm(name, run));
  }

  /** One VM called " a" on an empty host: it is stored as "a", and the restart is refused. */
  lemma PaddedNameRefusesRestart()
    ensures var d := Asking(1, [Vm(" a", "r")]);
            && Valid(CFG, d)
            && !RestartAccepted(CFG, Stored(d), Round(d, EMPTY_HOST, 0, Env({}, {})).vms)
  {
    var d, env := Asking(1, [Vm(" a", "r")]), Env({}, {});
    TrimPadded();
    OneVmIsValid(1, " a", "r");
    assert UsableKeys(d.vms[0]) by { assert Trim(d.vms[0].sshKeys[0]) != ""; }
    StrayIsLeft(d, 0, 0, env);
    assert "a" in Round(d, EMPTY_HOST, 0, env).vms;
    RestartIffSpelledOut(CFG, d, Round(d, EMPTY_HOST, 0, env).vms);
  }

  /** A stray that a later entry of its stored name clears does no harm: this document leaves none,
      although nothing in it spells out what its first entry stores. */
  lemma ClearedStrayIsHarmless()
    ensures var d := Asking(1, [Vm(" a", "r"), Vm("a", "q")]);
            NoStrays(d) && Creates(d, 0, "a") && !SpelledOut(d, "a", Record(d.vms[0]))
  {
    var d := Asking(1, [Vm(" a", "r"), Vm("a", "q")]);
    TrimPadded();
    assert UsableKeys(d.vms[0]) by { assert Trim(d.vms[0].sshKeys[0]) != ""; }
    assert !LastWord(d, 0) by { assert d.vms[1].vmName == Trim(d.vms[0].vmName); }
    assert SpelledOut(d, "a", Record(d.vms[1])) by { assert Record(d.vms[1]) == AsWritten(d.vms[1]); }
    forall i: nat | i < |d.vms| && Creates(d, i, Trim(d.vms[i].vmName)) && LastWord(d, i)
      ensures SpelledOut(d, Trim(d.vms[i].vmName), Record(d.vms[i]))
    {
      assert i == 1;
    }
  }
}
