/** Rebuilding `agent_hosts` without losing the rows that reference it
    (tools/database/preserve-host-references.ts).  The statement list is given meaning
    as one transaction over tables with referential actions: dropping a table deletes
    its rows, which cascades to, nulls or refuses the references that match them. */
module HostReferences {
  import opened Wrappers

  datatype OnDelete = Cascade | SetNull | Restrict

  datatype Child = Child(hostId: Option<string>, payload: string)

  datatype Table = Table(rows: map<nat, Child>, onDelete: OnDelete)

  /** `tables` are all tables with a foreign key to the hosts; `rebuilt` is the new copy
      while the rebuild runs. */
  datatype Db = Db(hosts: map<string, string>, rebuilt: Option<map<string, string>>, tables: map<string, Table>)

  datatype Statement =
    | DeferForeignKeys(on: bool)
    | RefusePrefix(prefix: string)
    | AddPrefix(table: string, prefix: string)
    | RemovePrefix(table: string, length: nat)
    | CreateNewHosts
    | CopyHosts
    | DropHosts
    | RenameNewHosts
    | Unrelated(sql: string)   // index creation and the like

  // -------------------------------------------------------------- statements

  predicate StartsWith(s: string, prefix: string) { |prefix| <= |s| && s[..|prefix|] == prefix }

  /** SQLite `substr(s, n + 1)` */
  function Substr(s: string, n: nat): string { if n <= |s| then s[n..] else "" }

  function MapHosts(t: Table, f: string -> string): Table {
    t.(rows := map k | k in t.rows ::
      if t.rows[k].hostId.Some? then t.rows[k].(hostId := Some(f(t.rows[k].hostId.value))) else t.rows[k])
  }

  function Prefixed(t: Table, prefix: string): Table { MapHosts(t, id => prefix + id) }

  function Stripped(t: Table, n: nat): Table { MapHosts(t, id => Substr(id, n)) }

  predicate References(child: Child, hosts: map<string, string>) {
    child.hostId.Some? && child.hostId.value in hosts
  }

  predicate ReferencesAny(t: Table, hosts: map<string, string>) {
    exists k :: k in t.rows && References(t.rows[k], hosts)
  }

  /** What deleting every host does to a table that is not `Restrict`. */
  function AfterDelete(t: Table, hosts: map<string, string>): Table {
    if t.onDelete == SetNull then
      t.(rows := map k | k in t.rows :: if References(t.rows[k], hosts) then t.rows[k].(hostId := None) else t.rows[k])
    else t.(rows := map k | k in t.rows && !References(t.rows[k], hosts) :: t.rows[k])
  }

  predicate Refused(tables: map<string, Table>, hosts: map<string, string>) {
    exists name :: name in tables && tables[name].onDelete == Restrict && ReferencesAny(tables[name], hosts)
  }

  function Dropped(tables: map<string, Table>, hosts: map<string, string>): map<string, Table> {
    map name | name in tables :: AfterDelete(tables[name], hosts)
  }

  /** `None` is an SQL error. */
  function Execute(db: Db, s: Statement): Option<Db> {
    match s
    case DeferForeignKeys(_) => Some(db)
    case Unrelated(_) => Some(db)
    case RefusePrefix(prefix) =>
      if exists id :: id in db.hosts && StartsWith(id, prefix) then None else Some(db)
    case AddPrefix(table, prefix) =>
      if table !in db.tables then None
      else Some(db.(tables := db.tables[table := Prefixed(db.tables[table], prefix)]))
    case RemovePrefix(table, n) =>
      if table !in db.tables then None
      else Some(db.(tables := db.tables[table := Stripped(db.tables[table], n)]))
    case CreateNewHosts => if db.rebuilt.Some? then None else Some(db.(rebuilt := Some(map[])))
    case CopyHosts => if db.rebuilt.None? then None else Some(db.(rebuilt := Some(db.hosts)))
    case DropHosts =>
      if Refused(db.tables, db.hosts) then None
      else Some(db.(hosts := map[], tables := Dropped(db.tables, db.hosts)))
    case RenameNewHosts =>
      if db.rebuilt.None? || db.hosts != map[] then None else Some(db.(hosts := db.rebuilt.value, rebuilt := None))
  }

  function Run(db: Db, statements: seq<Statement>): Option<Db>
    decreases |statements|
  {
    if statements == [] then Some(db)
    else
      var next := Execute(db, statements[0]);
      if next.None? then None else Run(next.value, statements[1..])
  }

  predicate ForeignKeysHold(db: Db) {
    forall name, k :: name in db.tables && k in db.tables[name].rows && db.tables[name].rows[k].hostId.Some? ==>
      db.tables[name].rows[k].hostId.value in db.hosts
  }

  /** One D1 batch: all statements and the deferred foreign-key check, or nothing. */
  function Transaction(db: Db, statements: seq<Statement>): Db {
    var after := Run(db, statements);
    if after.Some? && ForeignKeysHold(after.value) then after.value else db
  }

  // ------------------------------------------------------- the batch it builds

  function WithoutPragmas(statements: seq<Statement>): seq<Statement> {
    if statements == [] then []
    else
      var rest := WithoutPragmas(statements[1..]);
      if statements[0].DeferForeignKeys? then rest else [statements[0]] + rest
  }

  function Prefixes(tables: seq<string>, prefix: string): (s: seq<Statement>)
    ensures |s| == |tables|
  {
    seq(|tables|, i requires 0 <= i < |tables| => AddPrefix(tables[i], prefix))
  }

  function Restores(tables: seq<string>, prefix: string): (s: seq<Statement>)
    ensures |s| == |tables|
  {
    seq(|tables|, i requires 0 <= i < |tables| => RemovePrefix(tables[i], |prefix|))
  }

  /** `preserveHostReferences`; `prefix` is the random migration prefix. */
  function PreserveHostReferences(statements: seq<Statement>, tables: seq<string>, prefix: string)
    : Result<seq<Statement>, string>
  {
    if DropHosts !in statements then Err("host migration does not contain the expected generated rebuild")
    else
      Ok([DeferForeignKeys(true), RefusePrefix(prefix)] + Prefixes(tables, prefix) + WithoutPragmas(statements)
         + Restores(tables, prefix) + [DeferForeignKeys(false)])
  }

  // ------------------------------------------------------------------- proof

  lemma {:induction false} RunConcat(db: Db, a: seq<Statement>, b: seq<Statement>)
    ensures Run(db, a + b) == if Run(db, a).None? then None else Run(Run(db, a).value, b)
    decreases |a|
  {
    if a == [] {
      assert a + b == b;
    } else {
      assert (a + b)[1..] == a[1..] + b;
      var next := Execute(db, a[0]);
      if next.Some? { RunConcat(next.value, a[1..], b); }
    }
  }

  predicate Distinct(tables: seq<string>) { forall i, j :: 0 <= i < j < |tables| ==> tables[i] != tables[j] }

  /** The database with `f` applied to the listed tables. */
  ghost function Rewritten(db: Db, tables: seq<string>, f: Table -> Table): Db {
    db.(tables := map name | name in db.tables :: if name in tables then f(db.tables[name]) else db.tables[name])
  }

  ghost predicate AllPresent(db: Db, tables: seq<string>) {
    forall i :: 0 <= i < |tables| ==> tables[i] in db.tables
  }

  lemma {:induction false} RunPrefixes(db: Db, tables: seq<string>, prefix: string)
    requires Distinct(tables)
    ensures Run(db, Prefixes(tables, prefix))
            == if AllPresent(db, tables) then Some(Rewritten(db, tables, t => Prefixed(t, prefix))) else None
    decreases |tables|
  {
    var statements := Prefixes(tables, prefix);
    if tables == [] {
      assert Rewritten(db, tables, t => Prefixed(t, prefix)).tables == db.tables;
    } else {
      assert statements[1..] == Prefixes(tables[1..], prefix);
      if tables[0] in db.tables {
        var next := db.(tables := db.tables[tables[0] := Prefixed(db.tables[tables[0]], prefix)]);
        RunPrefixes(next, tables[1..], prefix);
        RewrittenRest(db, next, tables, t => Prefixed(t, prefix));
      }
    }
  }

  lemma {:induction false} RunRestores(db: Db, tables: seq<string>, prefix: string)
    requires Distinct(tables)
    ensures Run(db, Restores(tables, prefix))
            == if AllPresent(db, tables) then Some(Rewritten(db, tables, t => Stripped(t, |prefix|))) else None
    decreases |tables|
  {
    var statements := Restores(tables, prefix);
    if tables == [] {
      assert Rewritten(db, tables, t => Stripped(t, |prefix|)).tables == db.tables;
    } else {
      assert statements[1..] == Restores(tables[1..], prefix);
      if tables[0] in db.tables {
        var next := db.(tables := db.tables[tables[0] := Stripped(db.tables[tables[0]], |prefix|)]);
        RunRestores(next, tables[1..], prefix);
        RewrittenRest(db, next, tables, t => Stripped(t, |prefix|));
      }
    }
  }

  lemma RewrittenRest(db: Db, next: Db, tables: seq<string>, f: Table -> Table)
    requires tables != [] && Distinct(tables) && tables[0] in db.tables
    requires next == db.(tables := db.tables[tables[0] := f(db.tables[tables[0]])])
    ensures Rewritten(next, tables[1..], f) == Rewritten(db, tables, f)
    ensures AllPresent(next, tables[1..]) <==> AllPresent(db, tables)
  {
    assert forall name :: name in tables <==> name == tables[0] || name in tables[1..];
    assert tables[0] !in tables[1..];
    assert Rewritten(next, tables[1..], f).tables == Rewritten(db, tables, f).tables;
    if AllPresent(next, tables[1..]) {
      forall i | 0 <= i < |tables| ensures tables[i] in db.tables {
        if i > 0 { assert tables[i] == tables[1..][i - 1]; }
      }
    }
  }

  /** The part of a statement list that touches hosts. */
  function Core(statements: seq<Statement>): seq<Statement> {
    if statements == [] then []
    else
      var rest := Core(statements[1..]);
      if statements[0].DeferForeignKeys? || statements[0].Unrelated? then rest else [statements[0]] + rest
  }

  const REBUILD := [CreateNewHosts, CopyHosts, DropHosts, RenameNewHosts]

  lemma {:induction false} RunCore(db: Db, statements: seq<Statement>)
    ensures Run(db, WithoutPragmas(statements)) == Run(db, Core(statements))
    decreases |statements|
  {
    if statements != [] {
      var next := Execute(db, statements[0]);
      var w, c := WithoutPragmas(statements[1..]), Core(statements[1..]);
      assert ([statements[0]] + w)[1..] == w && ([statements[0]] + c)[1..] == c;
      if next.Some? { RunCore(next.value, statements[1..]); }
    }
  }

  lemma RunRebuild(db: Db)
    requires db.rebuilt.None?
    ensures Run(db, REBUILD)
            == if Refused(db.tables, db.hosts) then None else Some(db.(tables := Dropped(db.tables, db.hosts)))
  {
    var created := db.(rebuilt := Some(map[]));
    var copied := db.(rebuilt := Some(db.hosts));
    assert REBUILD[1..] == [CopyHosts, DropHosts, RenameNewHosts];
    assert REBUILD[1..][1..] == [DropHosts, RenameNewHosts];
    assert REBUILD[1..][1..][1..] == [RenameNewHosts];
    assert Execute(db, CreateNewHosts) == Some(created) && Execute(created, CopyHosts) == Some(copied);
    if !Refused(db.tables, db.hosts) {
      var dropped := copied.(hosts := map[], tables := Dropped(db.tables, db.hosts));
      assert Execute(copied, DropHosts) == Some(dropped);
      assert Run(dropped, [RenameNewHosts]) == Some(db.(tables := Dropped(db.tables, db.hosts)));
    }
  }

  ghost predicate NoHostStartsWith(db: Db, prefix: string) {
    forall id :: id in db.hosts ==> !StartsWith(id, prefix)
  }

  /** A prefixed reference matches no host, so no action fires on it. */
  lemma PrefixedRowsAreSafe(t: Table, hosts: map<string, string>, prefix: string)
    requires forall id :: id in hosts ==> !StartsWith(id, prefix)
    ensures !ReferencesAny(Prefixed(t, prefix), hosts)
    ensures AfterDelete(Prefixed(t, prefix), hosts) == Prefixed(t, prefix)
    ensures Stripped(Prefixed(t, prefix), |prefix|) == t
  {
    var p := Prefixed(t, prefix);
    forall k | k in t.rows && t.rows[k].hostId.Some?
      ensures !References(p.rows[k], hosts) &&
          Substr(prefix + t.rows[k].hostId.value, |prefix|) == t.rows[k].hostId.value
    {
      assert StartsWith(prefix + t.rows[k].hostId.value, prefix);
    }
    assert AfterDelete(p, hosts).rows == p.rows;
    assert Stripped(p, |prefix|).rows == t.rows;
  }

  /** The tables after the whole list: listed ones as before, the others after the action. */
  ghost function Outcome(db: Db, tables: seq<string>): Db {
    db.(tables := map name | name in db.tables ::
      if name in tables then db.tables[name] else AfterDelete(db.tables[name], db.hosts))
  }

  ghost predicate UnlistedRestricts(db: Db, tables: seq<string>) {
    exists name :: name in db.tables && name !in tables && db.tables[name].onDelete == Restrict
                   && ReferencesAny(db.tables[name], db.hosts)
  }

  lemma RebuildOfPrefixed(db: Db, tables: seq<string>, prefix: string)
    requires NoHostStartsWith(db, prefix)
    ensures var marked := Rewritten(db, tables, t => Prefixed(t, prefix));
            && (Refused(marked.tables, db.hosts) <==> UnlistedRestricts(db, tables))
            && Rewritten(marked.(tables := Dropped(marked.tables, db.hosts)), tables, t => Stripped(t, |prefix|))
               == Outcome(db, tables)
  {
    var marked := Rewritten(db, tables, t => Prefixed(t, prefix));
    forall name | name in db.tables && name in tables
      ensures !ReferencesAny(marked.tables[name], db.hosts)
      ensures Stripped(AfterDelete(marked.tables[name], db.hosts), |prefix|) == db.tables[name]
    {
      PrefixedRowsAreSafe(db.tables[name], db.hosts, prefix);
    }
    if Refused(marked.tables, db.hosts) {
      var name :| name in marked.tables && marked.tables[name].onDelete == Restrict
                  && ReferencesAny(marked.tables[name], db.hosts);
      assert name !in tables && marked.tables[name] == db.tables[name];
    }
    if UnlistedRestricts(db, tables) {
      var name :| name in db.tables && name !in tables && db.tables[name].onDelete == Restrict
                  && ReferencesAny(db.tables[name], db.hosts);
      assert marked.tables[name] == db.tables[name];
    }
    var final := Rewritten(marked.(tables := Dropped(marked.tables, db.hosts)), tables, t => Stripped(t, |prefix|));
    assert final.tables == Outcome(db, tables).tables;
  }

  lemma RunOpening(db: Db, prefix: string)
    ensures Run(db, [DeferForeignKeys(true), RefusePrefix(prefix)]) ==
        if NoHostStartsWith(db, prefix) then Some(db) else None
  {
    var opening := [DeferForeignKeys(true), RefusePrefix(prefix)];
    assert opening[1..] == [RefusePrefix(prefix)];
    assert [RefusePrefix(prefix)][1..] == [];
    assert Run(db, opening[1..]) == if Execute(db, RefusePrefix(prefix)).None? then None else Some(db);
  }

  /** What the batch does to a database, for every list of tables. */
  lemma BatchMeaning(db: Db, statements: seq<Statement>, tables: seq<string>, prefix: string)
    requires DropHosts in statements && Core(statements) == REBUILD && Distinct(tables) && db.rebuilt.None?
    ensures Run(db, PreserveHostReferences(statements, tables, prefix).value)
            == if NoHostStartsWith(db, prefix) && AllPresent(db, tables) && !UnlistedRestricts(db, tables)
               then Some(Outcome(db, tables)) else None
  {
    var opening := [DeferForeignKeys(true), RefusePrefix(prefix)];
    var first, last := Prefixes(tables, prefix), Restores(tables, prefix);
    var middle, closing := WithoutPragmas(statements), [DeferForeignKeys(false)];
    RunOpening(db, prefix);
    RunConcat(db, opening, first);
    RunConcat(db, opening + first, middle);
    RunConcat(db, opening + first + middle, last);
    RunConcat(db, opening + first + middle + last, closing);
    if NoHostStartsWith(db, prefix) {
      RunPrefixes(db, tables, prefix);
      if AllPresent(db, tables) {
        var marked := Rewritten(db, tables, t => Prefixed(t, prefix));
        RunCore(marked, statements);
        RunRebuild(marked);
        RebuildOfPrefixed(db, tables, prefix);
        if !UnlistedRestricts(db, tables) {
          RunRestores(marked.(tables := Dropped(marked.tables, db.hosts)), tables, prefix);
          assert closing[1..] == [];
        }
      }
    }
  }

  /** An unlisted table whose rows the drop would delete or null. */
  ghost predicate Harmed(db: Db, tables: seq<string>, name: string) {
    && name in db.tables && name !in tables
    && db.tables[name].onDelete != Restrict
    && ReferencesAny(db.tables[name], db.hosts)
  }

  lemma HarmIsChange(t: Table, hosts: map<string, string>)
    ensures AfterDelete(t, hosts) == t <==> !ReferencesAny(t, hosts)
  {
    if ReferencesAny(t, hosts) {
      var k :| k in t.rows && References(t.rows[k], hosts);
      if t.onDelete == SetNull { assert AfterDelete(t, hosts).rows[k] != t.rows[k]; }
      else { assert k !in AfterDelete(t, hosts).rows; }
    } else {
      assert AfterDelete(t, hosts).rows == t.rows;
    }
  }

  lemma OutcomeUnchanged(db: Db, tables: seq<string>)
    requires !UnlistedRestricts(db, tables)
    ensures Outcome(db, tables) == db <==> forall name :: !Harmed(db, tables, name)
  {
    var after := Outcome(db, tables);
    forall name | name in db.tables ensures after.tables[name] == db.tables[name] <==> !Harmed(db, tables, name) {
      HarmIsChange(db.tables[name], db.hosts);
    }
    if forall name :: !Harmed(db, tables, name) {
      assert after.tables == db.tables;
    } else {
      var name :| Harmed(db, tables, name);
      assert after.tables[name] != db.tables[name];
    }
  }

  lemma OutcomeKeepsForeignKeys(db: Db, tables: seq<string>)
    requires ForeignKeysHold(db)
    ensures ForeignKeysHold(Outcome(db, tables))
  {
  }

  /** The whole database is preserved, hosts and every reference, exactly when the batch
      aborts (a stored host ID starts with the prefix, a listed table is missing, an
      unlisted table refuses the drop) or every table with references is listed. */
  lemma PreservedExactlyWhenListed(db: Db, statements: seq<Statement>, tables: seq<string>, prefix: string)
    requires DropHosts in statements && Core(statements) == REBUILD && Distinct(tables)
    requires db.rebuilt.None? && ForeignKeysHold(db)
    ensures Transaction(db, PreserveHostReferences(statements, tables, prefix).value) == db
            <==> (!NoHostStartsWith(db, prefix) || !AllPresent(db, tables) || UnlistedRestricts(db, tables)
                  || forall name :: !Harmed(db, tables, name))
  {
    BatchMeaning(db, statements, tables, prefix);
    OutcomeKeepsForeignKeys(db, tables);
    if !UnlistedRestricts(db, tables) {
      OutcomeUnchanged(db, tables);
    }
  }
}
