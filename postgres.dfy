/**
 * The part of PostgreSQL the setup procedure relies on, as pure functions
 * over a database state: the nine tables of the provisioning DDL with their
 * NOT NULL, UNIQUE and REFERENCES constraints and column defaults, `SERIAL`
 * ids drawn from a per-table sequence, `CREATE TABLE IF NOT EXISTS`, and
 * `INSERT ... ON CONFLICT`. Transactions are snapshots of the tables taken
 * and restored by the server (`PgServer`); sequences are not transactional,
 * as in PostgreSQL.
 */
module Postgres {
  import opened Wrappers

  datatype Table =
    | Assets | Users | Components | Accessories | Licenses
    | ZabbixVms | ActivityLogs | BitlockerKeys | NetworkSettings

  function TableName(t: Table): string
  {
    match t
    case Assets => "assets"
    case Users => "users"
    case Components => "components"
    case Accessories => "accessories"
    case Licenses => "licenses"
    case ZabbixVms => "zabbix_vms"
    case ActivityLogs => "activity_logs"
    case BitlockerKeys => "bitlocker_keys"
    case NetworkSettings => "network_settings"
  }

  /** A column value: SQL NULL, an integer, a DECIMAL written as text, text or a boolean. */
  datatype DbValue = DNull | DInt(i: int) | DNum(text: string) | DText(s: string) | DBool(b: bool)

  type Cols = map<string, DbValue>

  /** A stored row: its `SERIAL` id and its other columns. */
  datatype Row = Row(id: nat, cols: Cols)

  /** A `REFERENCES` clause: this column holds the id of a row of `target`. */
  datatype Ref = Ref(column: string, target: Table)

  /** The value of a column; a column the row does not mention is NULL. */
  function Value(cols: Cols, c: string): DbValue
  {
    if c in cols then cols[c] else DNull
  }

  /** Columns declared NOT NULL, in declaration order (the `id` column is always set). */
  function NotNull(t: Table): seq<string>
  {
    match t
    case Assets => ["asset_tag", "model", "status", "category"]
    case Users => ["name", "email"]
    case Components => ["name", "category", "status"]
    case Accessories => ["name", "category"]
    case Licenses => ["name", "software", "key"]
    case ZabbixVms => ["name", "status"]
    case ActivityLogs => ["action", "item_type", "item_id"]
    case BitlockerKeys => ["recovery_key"]
    case NetworkSettings => ["dns1", "dns2"]
  }

  /** Columns declared UNIQUE, besides the primary key. */
  function Unique(t: Table): seq<string>
  {
    match t
    case Assets => ["asset_tag", "serial_number"]
    case Users => ["email"]
    case _ => []
  }

  function Refs(t: Table): seq<Ref>
  {
    match t
    case Components => [Ref("asset_id", Assets)]
    case ActivityLogs => [Ref("user_id", Users)]
    case BitlockerKeys => [Ref("asset_id", Assets)]
    case _ => []
  }

  /** Column `DEFAULT`s other than timestamps, applied to columns an insert does not name. */
  function Defaults(t: Table): Cols
  {
    match t
    case Users => map["is_active" := DBool(true), "is_admin" := DBool(false)]
    case Accessories => map["quantity" := DInt(1), "quantity_available" := DInt(1)]
    case Licenses => map["seats" := DInt(1), "seats_available" := DInt(1)]
    case _ => map[]
  }

  /**
   * The server: the existing tables, the last value each table's id
   * sequence handed out, and the tables on which every statement fails
   * (with the error text the server reports), standing for faults such as
   * missing privileges or a full disk.
   */
  datatype DbState = DbState(tables: map<Table, seq<Row>>, serial: map<Table, nat>, broken: map<Table, string>)

  function LastValue(st: DbState, t: Table): nat
  {
    if t in st.serial then st.serial[t] else 0
  }

  /** The conflict clause of an INSERT. */
  datatype OnConflict = NoClause | OnColumn(column: string) | AnyConflict

  /** What one INSERT did. */
  datatype InsertOutcome = Inserted(id: nat) | Skipped | Rejected(message: string)

  datatype Step = Step(state: DbState, outcome: InsertOutcome)

  /** Some existing row has the same non-NULL value in column `c`. */
  predicate Clash(rows: seq<Row>, cols: Cols, c: string)
  {
    Value(cols, c) != DNull && exists k | 0 <= k < |rows| :: Value(rows[k].cols, c) == Value(cols, c)
  }

  /** Some row of `target` has the id held in `v`. */
  predicate Resolves(tables: map<Table, seq<Row>>, target: Table, v: DbValue)
  {
    target in tables && v.DInt? && exists k | 0 <= k < |tables[target]| :: tables[target][k].id == v.i
  }

  /** The first of `cs` that is NULL in `cols`. */
  function FirstNull(cols: Cols, cs: seq<string>): (r: Option<string>)
    ensures r.None? <==> forall c | c in cs :: Value(cols, c) != DNull
    ensures r.Some? ==> r.value in cs && Value(cols, r.value) == DNull
  {
    if |cs| == 0 then None
    else if Value(cols, cs[0]) == DNull then Some(cs[0])
    else FirstNull(cols, cs[1..])
  }

  /** The first of the unique columns `cs` whose value is already taken. */
  function FirstDuplicate(rows: seq<Row>, cols: Cols, cs: seq<string>): (r: Option<string>)
    ensures r.None? <==> forall c | c in cs :: !Clash(rows, cols, c)
    ensures r.Some? ==> r.value in cs && Clash(rows, cols, r.value)
  {
    if |cs| == 0 then None
    else if Clash(rows, cols, cs[0]) then Some(cs[0])
    else FirstDuplicate(rows, cols, cs[1..])
  }

  /** The first reference whose non-NULL value names no row of its target. */
  function FirstDangling(tables: map<Table, seq<Row>>, cols: Cols, refs: seq<Ref>): (r: Option<string>)
    ensures r.None? <==> forall f | f in refs :: Value(cols, f.column) == DNull || Resolves(tables, f.target, Value(cols, f.column))
    ensures r.Some? ==> exists f | f in refs :: f.column == r.value && Value(cols, f.column) != DNull && !Resolves(tables, f.target, Value(cols, f.column))
  {
    if |refs| == 0 then None
    else if Value(cols, refs[0].column) != DNull && !Resolves(tables, refs[0].target, Value(cols, refs[0].column))
    then Some(refs[0].column)
    else FirstDangling(tables, cols, refs[1..])
  }

  /** The conflict the clause names: its column, any unique column, or none at all. */
  predicate ArbiterConflict(t: Table, rows: seq<Row>, cols: Cols, clause: OnConflict)
  {
    match clause
    case NoClause => false
    case OnColumn(c) => Clash(rows, cols, c)
    case AnyConflict => exists c | c in Unique(t) :: Clash(rows, cols, c)
  }

  function MissingRelation(t: Table): string
  {
    "relation \"" + TableName(t) + "\" does not exist"
  }

  function NotNullViolation(t: Table, c: string): string
  {
    "null value in column \"" + c + "\" of relation \"" + TableName(t) + "\" violates not-null constraint"
  }

  function UniqueViolation(t: Table, c: string): string
  {
    "duplicate key value violates unique constraint \"" + TableName(t) + "_" + c + "_key\""
  }

  function ForeignKeyViolation(t: Table, c: string): string
  {
    "insert or update on table \"" + TableName(t) + "\" violates foreign key constraint \"" + TableName(t) + "_" + c + "_fkey\""
  }

  /** `CREATE TABLE IF NOT EXISTS t`: an existing table is left as it is. */
  function CreateTable(st: DbState, t: Table): (r: Result<DbState, string>)
    ensures r.Failure? <==> t in st.broken
    ensures r.Success? ==> t in r.value.tables && r.value.broken == st.broken
    ensures r.Success? && t in st.tables ==> r.value == st
    ensures r.Success? && t !in st.tables ==> r.value.tables == st.tables[t := []] && LastValue(r.value, t) == 0
  {
    if t in st.broken then Failure(st.broken[t])
    else if t in st.tables then Success(st)
    else Success(st.(tables := st.tables[t := []], serial := st.serial[t := 0]))
  }

  /**
   * `INSERT INTO t (...) VALUES (...) [ON CONFLICT ...]`. The id is drawn
   * from the sequence first, so every attempt on an existing table uses up
   * one value, and the row is then checked (`Check`).
   */
  function Insert(st: DbState, t: Table, cols: Cols, clause: OnConflict): Step
  {
    if t !in st.tables then Step(st, Rejected(MissingRelation(t)))
    else if t in st.broken then Step(st, Rejected(st.broken[t]))
    else
      var id := LastValue(st, t) + 1;
      Check(st.(serial := st.serial[t := id]), t, Row(id, Defaults(t) + cols), clause)
  }

  /**
   * The checks of an INSERT on a row whose id is drawn: NOT NULL first,
   * then the arbiter of the conflict clause (a conflict there skips the
   * row), then the other unique columns, then the references.
   */
  function Check(st: DbState, t: Table, row: Row, clause: OnConflict): (r: Step)
    requires t in st.tables
    ensures r.state.serial == st.serial && r.state.broken == st.broken
    ensures r.state.tables == (if r.outcome.Inserted? then st.tables[t := st.tables[t] + [row]] else st.tables)
  {
    var rows := st.tables[t];
    match FirstNull(row.cols, NotNull(t))
    case Some(c) => Step(st, Rejected(NotNullViolation(t, c)))
    case None =>
      if ArbiterConflict(t, rows, row.cols, clause) then Step(st, Skipped)
      else match FirstDuplicate(rows, row.cols, Unique(t))
      case Some(c) => Step(st, Rejected(UniqueViolation(t, c)))
      case None =>
        match FirstDangling(st.tables, row.cols, Refs(t))
        case Some(c) => Step(st, Rejected(ForeignKeyViolation(t, c)))
        case None => Step(st.(tables := st.tables[t := rows + [row]]), Inserted(row.id))
  }

  /** A row is inserted exactly when it passes every check. */
  lemma CheckInserts(st: DbState, t: Table, row: Row, clause: OnConflict)
    requires t in st.tables
    ensures Check(st, t, row, clause).outcome.Inserted? <==>
      (forall c | c in NotNull(t) :: Value(row.cols, c) != DNull)
      && !ArbiterConflict(t, st.tables[t], row.cols, clause)
      && (forall c | c in Unique(t) :: !Clash(st.tables[t], row.cols, c))
      && (forall f | f in Refs(t) :: Value(row.cols, f.column) == DNull || Resolves(st.tables, f.target, Value(row.cols, f.column)))
    ensures Check(st, t, row, clause).outcome.Inserted? ==> Check(st, t, row, clause).outcome.id == row.id
  {
  }

  /** Ids come from the sequence, in increasing order. */
  predicate IdsIssued(rows: seq<Row>, last: nat)
  {
    (forall i | 0 <= i < |rows| :: 1 <= rows[i].id <= last)
    && (forall i, j | 0 <= i < j < |rows| :: rows[i].id < rows[j].id)
  }

  predicate NotNullHolds(rows: seq<Row>, cs: seq<string>)
  {
    forall i, c | 0 <= i < |rows| && c in cs :: Value(rows[i].cols, c) != DNull
  }

  /** No two rows share a non-NULL value in a unique column. */
  predicate UniqueHolds(rows: seq<Row>, cs: seq<string>)
  {
    forall i, j, c | 0 <= i < j < |rows| && c in cs ::
      Value(rows[i].cols, c) == DNull || Value(rows[i].cols, c) != Value(rows[j].cols, c)
  }

  predicate RefsResolve(tables: map<Table, seq<Row>>, rows: seq<Row>, refs: seq<Ref>)
  {
    forall i, f | 0 <= i < |rows| && f in refs ::
      Value(rows[i].cols, f.column) == DNull || Resolves(tables, f.target, Value(rows[i].cols, f.column))
  }

  /** The declared constraints hold for the rows of `t`, and its ids come from its sequence. */
  predicate TableValid(st: DbState, t: Table)
    requires t in st.tables
  {
    IdsIssued(st.tables[t], LastValue(st, t))
    && NotNullHolds(st.tables[t], NotNull(t))
    && UniqueHolds(st.tables[t], Unique(t))
    && RefsResolve(st.tables, st.tables[t], Refs(t))
  }

  predicate Valid(st: DbState)
  {
    forall t {:trigger TableValid(st, t)} | t in st.tables :: TableValid(st, t)
  }

  /**
   * `later` grew out of `earlier` by statements of this module: no table
   * was dropped, rows were only appended, the sequences of existing tables
   * did not go back, and the faults did not change.
   */
  predicate Extends(earlier: DbState, later: DbState)
  {
    later.broken == earlier.broken
    && (forall t | t in earlier.tables ::
          t in later.tables && earlier.tables[t] <= later.tables[t] && LastValue(earlier, t) <= LastValue(later, t))
  }

  lemma ExtendsReflexive(st: DbState)
    ensures Extends(st, st)
  {
  }

  lemma ExtendsTransitive(a: DbState, b: DbState, c: DbState)
    requires Extends(a, b) && Extends(b, c)
    ensures Extends(a, c)
  {
  }

  /** A reference that resolves keeps resolving once its target has grown. */
  lemma ResolvesGrows(tables: map<Table, seq<Row>>, tables': map<Table, seq<Row>>, target: Table, v: DbValue)
    requires Resolves(tables, target, v)
    requires target in tables' && tables[target] <= tables'[target]
    ensures Resolves(tables', target, v)
  {
    var k :| 0 <= k < |tables[target]| && tables[target][k].id == v.i;
    assert tables'[target][k] == tables[target][k];
  }

  lemma {:induction false} CreateTableKeepsValid(st: DbState, t: Table)
    requires Valid(st)
    ensures CreateTable(st, t).Success? ==> Valid(CreateTable(st, t).value) && Extends(st, CreateTable(st, t).value)
  {
    var r := CreateTable(st, t);
    if r.Success? && t !in st.tables {
      var st' := r.value;
      forall u | u in st'.tables
        ensures TableValid(st', u)
      {
        if u != t {
          assert TableValid(st, u);
          var rows := st.tables[u];
          forall i, f | 0 <= i < |rows| && f in Refs(u) && Value(rows[i].cols, f.column) != DNull
            ensures Resolves(st'.tables, f.target, Value(rows[i].cols, f.column))
          {
            ResolvesGrows(st.tables, st'.tables, f.target, Value(rows[i].cols, f.column));
          }
        }
      }
    }
  }

  /** The sequences of the tables listed moving forward keeps a state valid. */
  lemma SerialForward(st: DbState, serial': map<Table, nat>)
    requires Valid(st)
    requires forall t | t in st.tables :: LastValue(st, t) <= LastValue(st.(serial := serial'), t)
    ensures Valid(st.(serial := serial'))
  {
    var st' := st.(serial := serial');
    forall t | t in st'.tables
      ensures TableValid(st', t)
    {
      assert TableValid(st, t);
    }
  }

  /** Every INSERT only extends the state. */
  lemma InsertExtends(st: DbState, t: Table, cols: Cols, clause: OnConflict)
    ensures Extends(st, Insert(st, t, cols, clause).state)
  {
    if t in st.tables && t !in st.broken {
      var id := LastValue(st, t) + 1;
      var bumped := st.(serial := st.serial[t := id]);
      var r := Check(bumped, t, Row(id, Defaults(t) + cols), clause);
      assert Insert(st, t, cols, clause) == r;
      forall u | u in st.tables
        ensures u in r.state.tables && st.tables[u] <= r.state.tables[u] && LastValue(st, u) <= LastValue(r.state, u)
      {
        assert LastValue(r.state, u) == LastValue(bumped, u);
      }
    } else {
      assert Insert(st, t, cols, clause).state == st;
    }
  }

  /** Every INSERT keeps the declared constraints. */
  lemma {:induction false} InsertKeepsValid(st: DbState, t: Table, cols: Cols, clause: OnConflict)
    requires Valid(st)
    ensures Valid(Insert(st, t, cols, clause).state)
  {
    if t in st.tables && t !in st.broken {
      var id := LastValue(st, t) + 1;
      var bumped := st.(serial := st.serial[t := id]);
      var row := Row(id, Defaults(t) + cols);
      var r := Check(bumped, t, row, clause);
      assert Insert(st, t, cols, clause) == r;
      assert Valid(r.state) by {
        SerialForward(st, st.serial[t := id]);
        if r.outcome.Inserted? {
          IdsBelowSerial(st, t);
          CheckInserts(bumped, t, row, clause);
          InsertedKeepsValid(bumped, t, row);
          assert r.state == bumped.(tables := bumped.tables[t := bumped.tables[t] + [row]]);
        } else {
          assert r.state == bumped;
        }
      }
    } else {
      assert Insert(st, t, cols, clause).state == st;
    }
  }

  lemma IdsBelowSerial(st: DbState, t: Table)
    requires Valid(st) && t in st.tables
    ensures forall k | 0 <= k < |st.tables[t]| :: st.tables[t][k].id <= LastValue(st, t)
  {
    assert TableValid(st, t);
  }

  /** Growing the referenced tables keeps references resolved. */
  lemma RefsGrow(tables: map<Table, seq<Row>>, tables': map<Table, seq<Row>>, rows: seq<Row>, refs: seq<Ref>)
    requires RefsResolve(tables, rows, refs)
    requires forall u | u in tables :: u in tables' && tables[u] <= tables'[u]
    ensures RefsResolve(tables', rows, refs)
  {
    forall i, f | 0 <= i < |rows| && f in refs && Value(rows[i].cols, f.column) != DNull
      ensures Resolves(tables', f.target, Value(rows[i].cols, f.column))
    {
      ResolvesGrows(tables, tables', f.target, Value(rows[i].cols, f.column));
    }
  }

  /** Appending a row that passed every check to a state whose ids are in range. */
  lemma {:induction false} InsertedKeepsValid(st: DbState, t: Table, row: Row)
    requires Valid(st) && t in st.tables
    requires 1 <= row.id == LastValue(st, t)
    requires forall k | 0 <= k < |st.tables[t]| :: st.tables[t][k].id < row.id
    requires forall c | c in NotNull(t) :: Value(row.cols, c) != DNull
    requires forall c | c in Unique(t) :: !Clash(st.tables[t], row.cols, c)
    requires forall f | f in Refs(t) :: Value(row.cols, f.column) == DNull || Resolves(st.tables, f.target, Value(row.cols, f.column))
    ensures Valid(st.(tables := st.tables[t := st.tables[t] + [row]]))
  {
    var tables' := st.tables[t := st.tables[t] + [row]];
    var st' := st.(tables := tables');
    forall u | u in st'.tables
      ensures TableValid(st', u)
    {
      assert TableValid(st, u);
      if u != t {
        RefsGrow(st.tables, tables', st.tables[u], Refs(u));
      } else {
        AppendValid(st.tables, tables', st.tables[t], row, t, LastValue(st, t));
      }
    }
  }

  lemma {:induction false} AppendValid(tables: map<Table, seq<Row>>, tables': map<Table, seq<Row>>, rows: seq<Row>, row: Row, t: Table, last: nat)
    requires IdsIssued(rows, last) && NotNullHolds(rows, NotNull(t)) && UniqueHolds(rows, Unique(t)) && RefsResolve(tables, rows, Refs(t))
    requires forall u | u in tables :: u in tables' && tables[u] <= tables'[u]
    requires 1 <= row.id == last
    requires forall k | 0 <= k < |rows| :: rows[k].id < row.id
    requires forall c | c in NotNull(t) :: Value(row.cols, c) != DNull
    requires forall c | c in Unique(t) :: !Clash(rows, row.cols, c)
    requires forall f | f in Refs(t) :: Value(row.cols, f.column) == DNull || Resolves(tables, f.target, Value(row.cols, f.column))
    ensures IdsIssued(rows + [row], last) && NotNullHolds(rows + [row], NotNull(t))
    ensures UniqueHolds(rows + [row], Unique(t)) && RefsResolve(tables', rows + [row], Refs(t))
  {
    var rows' := rows + [row];
    RefsGrow(tables, tables', rows, Refs(t));
    forall f | f in Refs(t) && Value(row.cols, f.column) != DNull
      ensures Resolves(tables', f.target, Value(row.cols, f.column))
    {
      ResolvesGrows(tables, tables', f.target, Value(row.cols, f.column));
    }
    forall i, c | 0 <= i < |rows| && c in Unique(t) && Value(rows[i].cols, c) != DNull
      ensures Value(rows[i].cols, c) != Value(row.cols, c)
    {
      assert !Clash(rows, row.cols, c);
    }
    assert forall i | 0 <= i < |rows| :: rows'[i] == rows[i];
    assert rows'[|rows|] == row;
  }

  /** Returning to a snapshot of the tables, with the sequences where they are now. */
  lemma RestoreKeepsValid(snap: DbState, now: DbState)
    requires Valid(snap) && Extends(snap, now)
    ensures Valid(now.(tables := snap.tables))
  {
    var r := now.(tables := snap.tables);
    forall t | t in r.tables
      ensures TableValid(r, t)
    {
      assert TableValid(snap, t);
    }
  }

  /** ON CONFLICT (c) skips exactly when the value of `c` is taken and the row had no NULL. */
  lemma OnColumnSkips(st: DbState, t: Table, cols: Cols, c: string)
    requires t in st.tables && t !in st.broken
    requires FirstNull(Defaults(t) + cols, NotNull(t)).None?
    ensures Insert(st, t, cols, OnColumn(c)).outcome.Skipped? <==> Clash(st.tables[t], Defaults(t) + cols, c)
  {
  }

  /** Without a conflict clause a row is never skipped. */
  lemma NoClauseNeverSkips(st: DbState, t: Table, cols: Cols)
    ensures !Insert(st, t, cols, NoClause).outcome.Skipped?
  {
  }

  /** A table without unique columns takes every complete, well-referenced row: duplicates accumulate. */
  lemma NoUniqueAppends(st: DbState, t: Table, cols: Cols)
    requires t in st.tables && t !in st.broken && Unique(t) == []
    requires FirstNull(Defaults(t) + cols, NotNull(t)).None?
    requires FirstDangling(st.tables, Defaults(t) + cols, Refs(t)).None?
    ensures Insert(st, t, cols, AnyConflict).outcome == Inserted(LastValue(st, t) + 1)
    ensures Insert(st, t, cols, AnyConflict).state.tables[t] == st.tables[t] + [Row(LastValue(st, t) + 1, Defaults(t) + cols)]
  {
  }

  /** Every attempt on an existing, working table uses up one sequence value; other sequences stay. */
  lemma InsertBumpsSerial(st: DbState, t: Table, cols: Cols, clause: OnConflict)
    ensures t in st.tables && t !in st.broken ==> LastValue(Insert(st, t, cols, clause).state, t) == LastValue(st, t) + 1
    ensures !(t in st.tables && t !in st.broken) ==> Insert(st, t, cols, clause).state == st
    ensures forall u | u != t :: LastValue(Insert(st, t, cols, clause).state, u) == LastValue(st, u)
    ensures forall u | u != t && u in st.tables :: Insert(st, t, cols, clause).state.tables[u] == st.tables[u]
  {
  }

  /** Some row of `t` carries `id`. */
  predicate HasRow(tables: map<Table, seq<Row>>, t: Table, id: nat)
  {
    t in tables && exists k | 0 <= k < |tables[t]| :: tables[t][k].id == id
  }

  /** The id an INSERT reports belongs to a row it leaves in the table. */
  lemma InsertedRowFound(st: DbState, t: Table, cols: Cols, clause: OnConflict)
    ensures Insert(st, t, cols, clause).outcome.Inserted? ==>
      HasRow(Insert(st, t, cols, clause).state.tables, t, Insert(st, t, cols, clause).outcome.id)
  {
    var r := Insert(st, t, cols, clause);
    if r.outcome.Inserted? {
      InsertNotRejected(st, t, cols, clause);
      var rows := r.state.tables[t];
      assert rows[|rows| - 1].id == r.outcome.id;
    }
  }

  /** A rollback to `a`'s rows keeps the sequences of `b`. */
  lemma RollbackExtends(a: DbState, b: DbState)
    requires Extends(a, b)
    ensures Extends(a, b.(tables := a.tables))
  {
  }

  /** Rows survive every later state. */
  lemma RowKept(a: DbState, b: DbState, t: Table, id: nat)
    requires Extends(a, b) && HasRow(a.tables, t, id)
    ensures HasRow(b.tables, t, id)
  {
    var k :| 0 <= k < |a.tables[t]| && a.tables[t][k].id == id;
    assert b.tables[t][k] == a.tables[t][k];
  }

  /** An INSERT never creates or drops a table. */
  lemma InsertKeepsTables(st: DbState, t: Table, cols: Cols, clause: OnConflict)
    ensures Insert(st, t, cols, clause).state.tables.Keys == st.tables.Keys
  {
  }

  /** A reference to an id above the target's sequence never resolves in a valid state. */
  lemma {:induction false} UnissuedIdDangles(st: DbState, target: Table, n: int)
    requires Valid(st) && n > LastValue(st, target)
    ensures !Resolves(st.tables, target, DInt(n))
  {
    if target in st.tables {
      assert TableValid(st, target);
    }
  }

  /** What a non-rejected INSERT did: it appended the row, or it found the arbiter's conflict. */
  lemma InsertNotRejected(st: DbState, t: Table, cols: Cols, clause: OnConflict)
    requires !Insert(st, t, cols, clause).outcome.Rejected?
    ensures t in st.tables && t !in st.broken
    ensures Insert(st, t, cols, clause).outcome.Inserted? ==>
      Insert(st, t, cols, clause).state.tables == st.tables[t := st.tables[t] + [Row(Insert(st, t, cols, clause).outcome.id, Defaults(t) + cols)]]
    ensures Insert(st, t, cols, clause).outcome.Skipped? ==>
      Insert(st, t, cols, clause).state.tables == st.tables && ArbiterConflict(t, st.tables[t], Defaults(t) + cols, clause)
  {
  }
}
