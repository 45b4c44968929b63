/**
 * The setup endpoint: it creates the schema in one transaction, inserts
 * the administrator, seeds the selected fixture datasets in a second
 * transaction, and writes the marker file that ends the setup.
 */
module SetupComplete {
  import opened Wrappers
  import opened Strings
  import opened Types
  import opened Http
  import opened Postgres
  import opened PgServer
  import opened Files
  import opened MockData

  /** A thrown JavaScript error: its `name` and `message`. */
  datatype Thrown = Thrown(name: string, message: string)

  /** node-postgres reports server errors with the name "error". */
  const PgErrorName := "error"

  function PgError(message: string): Thrown
  {
    Thrown(PgErrorName, message)
  }

  /** A string parameter; an undefined one is sent as NULL. */
  function OptText(s: Option<string>): DbValue
  {
    if s.Some? then DText(s.value) else DNull
  }

  function OptInt(n: Option<int>): DbValue
  {
    if n.Some? then DInt(n.value) else DNull
  }

  function OptBool(b: Option<bool>): DbValue
  {
    if b.Some? then DBool(b.value) else DNull
  }

  // ---- createTables ----

  /** The tables `createTables` creates, in its order. */
  const SchemaTables: seq<Table> := [Assets, Users, Components, Accessories, Licenses, ZabbixVms, ActivityLogs, BitlockerKeys, NetworkSettings]

  const DefaultNetworkSettings: Cols := map[
    "dns1" := DText("107.105.134.9"), "dns2" := DText("107.105.134.8"),
    "default_gateway" := DText("192.168.1.1"), "subnet_mask" := DText("255.255.255.0")]

  /** None of the schema's tables is faulty. */
  predicate SchemaWorks(db: DbState)
  {
    forall t | t in SchemaTables :: t !in db.broken
  }

  /** The fault of the first table of `ts` that is faulty: the error the statements stop at. */
  function FirstFault(db: DbState, ts: seq<Table>): (r: Option<string>)
    ensures r.None? <==> forall t | t in ts :: t !in db.broken
    ensures r.Some? ==> exists k | 0 <= k < |ts| :: ts[k] in db.broken && r.value == db.broken[ts[k]]
  {
    if |ts| == 0 then None
    else if ts[0] in db.broken then Some(db.broken[ts[0]])
    else FirstFault(db, ts[1..])
  }

  /** The first fault of `a + b` is the first of `a`, or else the first of `b`. */
  lemma {:induction false} FirstFaultAppend(db: DbState, a: seq<Table>, b: seq<Table>)
    ensures FirstFault(db, a + b) == if FirstFault(db, a).Some? then FirstFault(db, a) else FirstFault(db, b)
  {
    if |a| > 0 {
      assert (a + b)[0] == a[0] && (a + b)[1..] == a[1..] + b;
      FirstFaultAppend(db, a[1..], b);
    } else {
      assert a + b == b;
    }
  }

  /** The tables of `created` exist; tables that existed before keep their rows, new ones are empty. */
  predicate CreatedSoFar(before: DbState, after: DbState, created: seq<Table>)
  {
    (forall t | t in created :: t in after.tables)
    && (forall t | t in before.tables :: t in after.tables && after.tables[t] == before.tables[t])
    && (forall t | t in after.tables && t !in before.tables :: t in created && after.tables[t] == [])
  }

  lemma CreatedStep(db0: DbState, db: DbState, db': DbState, created: seq<Table>, t: Table)
    requires CreatedSoFar(db0, db, created)
    requires Postgres.CreateTable(db, t).Success? && db' == Postgres.CreateTable(db, t).value
    ensures CreatedSoFar(db0, db', created + [t])
  {
  }

  /** After the schema statements the default network settings row is always added. */
  lemma DefaultsRowAdded(db0: DbState, db1: DbState)
    requires CreatedSoFar(db0, db1, SchemaTables) && NetworkSettings !in db1.broken
    ensures Insert(db1, NetworkSettings, DefaultNetworkSettings, AnyConflict).outcome.Inserted?
    ensures TablesCreated(db0, Insert(db1, NetworkSettings, DefaultNetworkSettings, AnyConflict).state)
    ensures forall u | u != NetworkSettings :: LastValue(Insert(db1, NetworkSettings, DefaultNetworkSettings, AnyConflict).state, u) == LastValue(db1, u)
  {
    assert NetworkSettings in SchemaTables;
    assert Defaults(NetworkSettings) + DefaultNetworkSettings == DefaultNetworkSettings;
    NoUniqueAppends(db1, NetworkSettings, DefaultNetworkSettings);
    InsertBumpsSerial(db1, NetworkSettings, DefaultNetworkSettings, AnyConflict);
  }

  /**
   * What a successful `createTables` leaves: every table exists, existing
   * tables other than `network_settings` keep their rows, new ones are
   * empty, and `network_settings` has one more default row.
   */
  predicate TablesCreated(before: DbState, after: DbState)
  {
    (forall t | t in SchemaTables :: t in after.tables)
    && (forall t | t in before.tables && t != NetworkSettings :: t in after.tables && after.tables[t] == before.tables[t])
    && (forall t | t in after.tables && t !in before.tables && t != NetworkSettings :: after.tables[t] == [])
    && NetworkSettings in after.tables
    && var old_ := if NetworkSettings in before.tables then before.tables[NetworkSettings] else [];
       |after.tables[NetworkSettings]| == |old_| + 1
       && after.tables[NetworkSettings][..|old_|] == old_
       && after.tables[NetworkSettings][|old_|].cols == DefaultNetworkSettings
  }

  /**
   * `createTables`: inside one transaction, the nine `CREATE TABLE IF NOT
   * EXISTS` statements in their written order, then the default network
   * settings row; any error rolls everything back.
   */
  method CreateTables(pool: Pool) returns (err: Option<Thrown>)
    requires pool.server.Valid() && pool.server.snapshot.None?
    modifies pool, pool.server
    ensures pool.server.Valid() && pool.server.snapshot.None?
    ensures pool.clients == old(pool.clients) && pool.ended == old(pool.ended)
    ensures pool.server.db.broken == old(pool.server.db.broken)
    ensures err.None? <==> pool.reachable && !pool.ended && SchemaWorks(old(pool.server.db))
    ensures !(pool.reachable && !pool.ended) ==> pool.server.db == old(pool.server.db)
    ensures !old(pool.ended) && !pool.reachable ==> err == Some(Thrown("Error", pool.connectError))
    ensures pool.reachable && !pool.ended && FirstFault(old(pool.server.db), SchemaTables).Some? ==>
      err == Some(PgError(FirstFault(old(pool.server.db), SchemaTables).value))
    ensures err.None? ==> TablesCreated(old(pool.server.db), pool.server.db)
    ensures err.Some? ==> pool.server.db.tables == old(pool.server.db.tables)
    ensures forall u | u != NetworkSettings :: LastValue(pool.server.db, u) <= LastValue(old(pool.server.db), u)
    ensures Extends(old(pool.server.db), pool.server.db)
  {
    var connectErr := pool.Connect();
    if connectErr.Some? {
      return Some(Thrown("Error", connectErr.value));
    }
    var server := pool.server;
    server.Begin();
    var e := RunSchema(server);
    ghost var db1 := server.db;
    if e.None? {
      DefaultsRowAdded(old(server.db), server.db);
      var out := server.Insert(NetworkSettings, DefaultNetworkSettings, AnyConflict);
      ExtendsTransitive(old(server.db), db1, server.db);
      server.Commit();
    } else {
      server.Rollback();
      RollbackExtends(old(server.db), db1);
    }
    pool.Release();
    err := if e.Some? then Some(PgError(e.value)) else None;
  }

  /** The schema statements of `createTables`, stopping at the first error. */
  method RunSchema(server: Server) returns (e: Option<string>)
    requires server.Valid() && server.snapshot.Some?
    modifies server
    ensures server.Valid() && server.snapshot == old(server.snapshot)
    ensures server.db.broken == old(server.db.broken)
    ensures e == FirstFault(old(server.db), SchemaTables)
    ensures e.None? <==> SchemaWorks(old(server.db))
    ensures e.None? ==> CreatedSoFar(old(server.db), server.db, SchemaTables)
    ensures forall u :: LastValue(server.db, u) <= LastValue(old(server.db), u)
    ensures Extends(old(server.db), server.db)
  {
    ghost var db0 := server.db;
    var i := 0;
    e := None;
    ExtendsReflexive(db0);
    while i < |SchemaTables| && e.None?
      invariant 0 <= i <= |SchemaTables|
      invariant server.Valid() && server.snapshot == old(server.snapshot)
      invariant SchemaProgress(db0, server.db, i, e) == true
    {
      ghost var before := server.db;
      e := server.CreateTable(SchemaTables[i]);
      SchemaStep(db0, before, server.db, i, e);
      i := i + 1;
    }
    SchemaDone(db0, server.db, i, e);
  }

  /** Once the statements ran out or one failed, the error is the first fault of the whole schema. */
  lemma SchemaDone(db0: DbState, db: DbState, n: nat, e: Option<string>)
    requires n <= |SchemaTables| && (n == |SchemaTables| || e.Some?) && SchemaProgress(db0, db, n, e)
    ensures e == FirstFault(db0, SchemaTables)
    ensures e.None? <==> SchemaWorks(db0)
    ensures e.None? ==> CreatedSoFar(db0, db, SchemaTables)
  {
    assert SchemaTables[..n] + SchemaTables[n..] == SchemaTables;
    FirstFaultAppend(db0, SchemaTables[..n], SchemaTables[n..]);
  }

  /**
   * What the schema statements have done after the first `n`: the state only
   * grew, no sequence advanced, and either all `n` tables are now present or
   * one of the schema's tables is faulty.
   */
  ghost predicate SchemaProgress(db0: DbState, db: DbState, n: nat, e: Option<string>)
    requires n <= |SchemaTables|
  {
    && Extends(db0, db)
    && db.broken == db0.broken
    && e == FirstFault(db0, SchemaTables[..n])
    && (e.None? ==> CreatedSoFar(db0, db, SchemaTables[..n]))
    && (forall u :: LastValue(db, u) <= LastValue(db0, u))
  }

  /** One schema statement keeps the progress, one table further on. */
  lemma SchemaStep(db0: DbState, before: DbState, after: DbState, i: nat, e: Option<string>)
    requires i < |SchemaTables|
    requires SchemaProgress(db0, before, i, None)
    requires Postgres.CreateTable(before, SchemaTables[i]).Failure? ==>
      e == Some(Postgres.CreateTable(before, SchemaTables[i]).error) && after == before
    requires Postgres.CreateTable(before, SchemaTables[i]).Success? ==>
      e.None? && after == Postgres.CreateTable(before, SchemaTables[i]).value
    requires Extends(before, after)
    ensures SchemaProgress(db0, after, i + 1, e)
  {
    var t := SchemaTables[i];
    assert SchemaTables[..i + 1] == SchemaTables[..i] + [t];
    ExtendsTransitive(db0, before, after);
    FirstFaultAppend(db0, SchemaTables[..i], [t]);
    assert [t][1..] == [];
    if e.None? {
      CreatedStep(db0, before, after, SchemaTables[..i], t);
    }
  }

  // ---- createAdminUser ----

  /** The administrator as the request sends it; missing properties are `None`. */
  datatype AdminInput = AdminInput(name: Option<string>, email: Option<string>, password: Option<string>)

  /** The columns of the administrator row, with bcrypt (cost 10) given as `hash`. */
  function AdminColumns(admin: AdminInput, hash: string -> string): Cols
    requires admin.password.Some?
  {
    map["name" := OptText(admin.name), "email" := OptText(admin.email),
        "password" := DText(hash(admin.password.value)), "is_admin" := DBool(true)]
  }

  /** bcrypt's error for a missing password. */
  const BcryptMissingData := "data and salt arguments required"

  /**
   * `createAdminUser`: hashes the password and inserts the administrator
   * outside any transaction, returning the new id.
   */
  method CreateAdminUser(pool: Pool, admin: AdminInput, hash: string -> string) returns (id: Option<nat>, err: Option<Thrown>)
    requires pool.server.Valid() && pool.server.snapshot.None?
    modifies pool, pool.server
    ensures pool.server.Valid() && pool.server.snapshot.None?
    ensures pool.clients == old(pool.clients) && pool.ended == old(pool.ended)
    ensures id.Some? <==> err.None?
    ensures !(pool.reachable && !pool.ended && admin.password.Some?) ==> err.Some? && pool.server.db == old(pool.server.db)
    ensures pool.reachable && !pool.ended && admin.password.Some? ==>
      var step := Insert(old(pool.server.db), Users, AdminColumns(admin, hash), NoClause);
      pool.server.db == step.state
      && (step.outcome.Inserted? ==> id == Some(step.outcome.id))
      && (step.outcome.Rejected? ==> err == Some(PgError(step.outcome.message)))
    ensures !old(pool.ended) && !pool.reachable ==> err == Some(Thrown("Error", pool.connectError))
    ensures pool.reachable && !pool.ended && admin.password.None? ==> err == Some(Thrown("Error", BcryptMissingData))
  {
    var connectErr := pool.Connect();
    if connectErr.Some? {
      return None, Some(Thrown("Error", connectErr.value));
    }
    if admin.password.None? {
      pool.Release();
      return None, Some(Thrown("Error", BcryptMissingData));
    }
    NoClauseNeverSkips(pool.server.db, Users, AdminColumns(admin, hash));
    var out := pool.server.Insert(Users, AdminColumns(admin, hash), NoClause);
    pool.Release();
    if out.Inserted? {
      id, err := Some(out.id), None;
    } else {
      id, err := None, Some(PgError(out.message));
    }
  }

  /** A second setup with an email already in `users` is refused by the email's unique constraint. */
  lemma DuplicateAdminRefused(db: DbState, admin: AdminInput, hash: string -> string)
    requires Users in db.tables && Users !in db.broken
    requires admin.name.Some? && admin.email.Some? && admin.password.Some?
    requires Clash(db.tables[Users], Defaults(Users) + AdminColumns(admin, hash), "email")
    ensures Insert(db, Users, AdminColumns(admin, hash), NoClause).outcome == Rejected(UniqueViolation(Users, "email"))
    ensures Insert(db, Users, AdminColumns(admin, hash), NoClause).state.tables == db.tables
  {
    var cols := Defaults(Users) + AdminColumns(admin, hash);
    assert Value(cols, "name") != DNull && Value(cols, "email") != DNull;
    assert FirstNull(cols, NotNull(Users)).None?;
  }

  /** An administrator without a name or an email breaks a NOT NULL constraint. */
  lemma IncompleteAdminRefused(db: DbState, admin: AdminInput, hash: string -> string)
    requires Users in db.tables && Users !in db.broken && admin.password.Some?
    requires admin.name.None? || admin.email.None?
    ensures Insert(db, Users, AdminColumns(admin, hash), NoClause).outcome.Rejected?
    ensures Insert(db, Users, AdminColumns(admin, hash), NoClause).state.tables == db.tables
  {
    var cols := Defaults(Users) + AdminColumns(admin, hash);
    assert Value(cols, "name") == DNull || Value(cols, "email") == DNull;
  }

  // ---- importMockData ----

  function AssetColumns(a: Asset): Cols
  {
    map["asset_tag" := DText(a.assetTag), "serial_number" := OptText(a.serialNumber), "model" := DText(a.model),
        "status" := DText(a.status), "category" := DText(a.category), "manufacturer" := OptText(a.manufacturer),
        "purchase_date" := OptText(a.purchaseDate), "purchase_cost" := OptInt(a.purchaseCost),
        "warranty_expires" := OptText(a.warrantyExpires), "location" := OptText(a.location), "notes" := OptText(a.notes),
        "ip_address" := OptText(a.ipAddress), "mac_address" := OptText(a.macAddress)]
  }

  function UserColumns(u: User): Cols
  {
    map["name" := DText(u.name), "email" := DText(u.email), "department" := OptText(u.department),
        "position" := OptText(u.position), "phone" := OptText(u.phone), "location" := OptText(u.location),
        "is_active" := OptBool(u.isActive)]
  }

  /** `mockAssets.find(a => a.id === n)`. */
  function FindAsset(assets: seq<Asset>, n: int): (r: Option<Asset>)
    ensures r.Some? ==> r.value in assets && r.value.id == n
    ensures r.None? ==> forall i | 0 <= i < |assets| :: assets[i].id != n
  {
    if |assets| == 0 then None
    else if assets[0].id == n then Some(assets[0])
    else FindAsset(assets[1..], n)
  }

  /**
   * A component's `asset_id`: the id of the mock asset whose id is
   * `parseInt(assetId || '0')`, or NULL when none matches (NaN matches none).
   * With no radix, a `0x` or `0X` mark makes `parseInt` read base 16.
   */
  function ComponentAssetId(assetId: Option<string>): DbValue
  {
    match ParseIntAuto(OrDefault(assetId, "0"))
    case None => DNull
    case Some(n) =>
      match FindAsset(MockAssets, n)
      case None => DNull
      case Some(a) => DInt(a.id)
  }

  function ComponentColumns(c: ComponentSeed): Cols
  {
    map["name" := DText(c.name), "category" := DText(c.category), "serial_number" := DText(c.serialNumber),
        "manufacturer" := DText(c.manufacturer), "model" := DText(c.model), "purchase_date" := DText(c.purchaseDate),
        "purchase_cost" := DNum(c.purchaseCost), "status" := DText(c.status), "asset_id" := ComponentAssetId(c.assetId)]
  }

  function AccessoryColumns(a: Accessory): Cols
  {
    map["name" := DText(a.name), "category" := DText(a.category), "manufacturer" := OptText(a.manufacturer),
        "model" := OptText(a.model), "purchase_date" := OptText(a.purchaseDate), "purchase_cost" := OptInt(a.purchaseCost),
        "quantity" := DInt(a.quantity), "quantity_available" := DInt(a.quantityAvailable), "location" := OptText(a.location)]
  }

  function LicenseColumns(l: License): Cols
  {
    map["name" := DText(l.name), "software" := DText(l.software), "key" := DText(l.key), "seats" := DInt(l.seats),
        "seats_available" := DInt(l.seatsAvailable), "purchase_date" := OptText(l.purchaseDate),
        "expiration_date" := OptText(l.expirationDate), "purchase_cost" := OptInt(l.purchaseCost), "notes" := OptText(l.notes)]
  }

  function LogColumns(log: ActivityLog, userId: int, itemId: int): Cols
  {
    map["user_id" := DInt(userId), "action" := DText(log.action), "item_type" := DText(log.itemType),
        "item_id" := DInt(itemId), "details" := DText(log.details), "created_at" := DText(log.timestamp)]
  }

  /** The activity-log inserts: a log whose user or item id parses to NaN is skipped. */
  function LogRows(logs: seq<ActivityLog>): (rows: seq<Cols>)
    ensures |rows| <= |logs|
  {
    if |logs| == 0 then []
    else
      var log := logs[0];
      var rest := LogRows(logs[1..]);
      match (ParseIntAuto(Or(log.userId, "0")), ParseIntAuto(Or(log.itemId, "0")))
      case (Some(u), Some(it)) => [LogColumns(log, u, it)] + rest
      case _ => rest
  }

  /** The BitLocker-key inserts: a key whose asset id parses to NaN is skipped. */
  function KeyRows(keys: seq<BitLockerKey>): (rows: seq<Cols>)
    ensures |rows| <= |keys|
  {
    if |keys| == 0 then []
    else
      var rest := KeyRows(keys[1..]);
      match ParseIntAuto(Or(keys[0].assetId, "0"))
      case Some(a) => [map["asset_id" := DInt(a), "recovery_key" := DText(keys[0].recoveryKey), "created_at" := DText(keys[0].createdAt)]] + rest
      case None => rest
  }

  /** `importOptions`, each toggle read for its truthiness. */
  datatype ImportOptions = ImportOptions(
    assets: bool, users: bool, components: bool, accessories: bool,
    licenses: bool, zabbixVms: bool, activityLogs: bool, bitlockerKeys: bool)

  /** The eight datasets in the order they are seeded. */
  function DatasetTable(k: nat): Table
    requires k < 8
  {
    [Assets, Users, Components, Accessories, Licenses, ZabbixVms, ActivityLogs, BitlockerKeys][k]
  }

  /** Assets and users skip conflicts on their unique key; the others skip any conflict, of which they have none. */
  function DatasetClause(k: nat): OnConflict
    requires k < 8
  {
    match k
    case 0 => OnColumn("asset_tag")
    case 1 => OnColumn("email")
    case _ => AnyConflict
  }

  function Enabled(opts: ImportOptions, k: nat): bool
    requires k < 8
  {
    match k
    case 0 => opts.assets
    case 1 => opts.users
    case 2 => opts.components
    case 3 => opts.accessories
    case 4 => opts.licenses
    case 5 => opts.zabbixVms
    case 6 => opts.activityLogs
    case 7 => opts.bitlockerKeys
  }

  /** `after` is `before` with rows carrying `rows`' columns appended. */
  predicate Appended(before: seq<Row>, after: seq<Row>, t: Table, rows: seq<Cols>)
  {
    |after| == |before| + |rows| && after[..|before|] == before
    && forall k | 0 <= k < |rows| :: after[|before| + k].cols == Defaults(t) + rows[k]
  }

  /** Every row with a non-NULL key finds its key value in `table`. */
  predicate KeysPresent(table: seq<Row>, t: Table, rows: seq<Cols>, c: string)
  {
    forall k | 0 <= k < |rows| :: Value(Defaults(t) + rows[k], c) != DNull ==> Clash(table, Defaults(t) + rows[k], c)
  }

  /** What `InsertEach` has achieved after its first `i` rows. */
  predicate EachInv(db0: DbState, db: DbState, t: Table, rows: seq<Cols>, clause: OnConflict, i: nat, e: Option<string>,
                    firstRejected: bool)
    requires i <= |rows|
  {
    Extends(db0, db) && db.tables.Keys == db0.tables.Keys
    && (forall u | u != t :: LastValue(db, u) == LastValue(db0, u))
    && (forall u | u != t && u in db0.tables :: db.tables[u] == db0.tables[u])
    && LastValue(db, t) <= LastValue(db0, t) + i
    && (i == 0 ==> db == db0 && e.None?)
    && (i > 0 && firstRejected ==> e.Some?)
    && (e.None? && i > 0 ==> t in db0.tables)
    && (e.None? && i > 0 && Unique(t) == [] && clause == AnyConflict ==> Appended(db0.tables[t], db.tables[t], t, rows[..i]))
    && (e.None? && i > 0 && clause.OnColumn? ==> KeysPresent(db.tables[t], t, rows[..i], clause.column))
  }

  lemma EachStart(db0: DbState, t: Table, rows: seq<Cols>, clause: OnConflict, firstRejected: bool)
    ensures EachInv(db0, db0, t, rows, clause, 0, None, firstRejected)
  {
    ExtendsReflexive(db0);
  }

  lemma {:induction false} EachInvStep(db0: DbState, before: DbState, after: DbState, out: InsertOutcome, e: Option<string>,
                                       t: Table, rows: seq<Cols>, clause: OnConflict, i: nat, firstRejected: bool)
    requires i < |rows| && EachInv(db0, before, t, rows, clause, i, None, firstRejected) == true
    requires firstRejected == Insert(db0, t, rows[0], clause).outcome.Rejected?
    requires Insert(before, t, rows[i], clause) == Step(after, out)
    requires e == if out.Rejected? then Some(out.message) else None
    ensures EachInv(db0, after, t, rows, clause, i + 1, e, firstRejected)
  {
    InsertBumpsSerial(before, t, rows[i], clause);
    InsertExtends(before, t, rows[i], clause);
    InsertKeepsTables(before, t, rows[i], clause);
    ExtendsTransitive(db0, before, after);
    if !out.Rejected? {
      InsertNotRejected(before, t, rows[i], clause);
      if Unique(t) == [] && clause == AnyConflict {
        AppendedStep(db0, before, after, out, t, rows, i);
      }
      if clause.OnColumn? {
        KeysStep(before, after, out, t, rows, i, clause.column);
      }
    }
  }

  /** What `InsertEach` promises once it stops. */
  predicate EachDone(db0: DbState, db: DbState, t: Table, rows: seq<Cols>, clause: OnConflict, e: Option<string>)
  {
    Extends(db0, db) && db.tables.Keys == db0.tables.Keys
    && (forall u | u != t :: LastValue(db, u) == LastValue(db0, u))
    && (forall u | u != t && u in db0.tables :: db.tables[u] == db0.tables[u])
    && LastValue(db, t) <= LastValue(db0, t) + |rows|
    && (|rows| == 0 ==> db == db0)
    && (|rows| > 0 && Insert(db0, t, rows[0], clause).outcome.Rejected? ==> e.Some?)
    && (e.None? && |rows| > 0 ==> t in db0.tables)
    && (e.None? && |rows| > 0 && Unique(t) == [] && clause == AnyConflict ==> Appended(db0.tables[t], db.tables[t], t, rows))
    && (e.None? && |rows| > 0 && clause.OnColumn? ==> KeysPresent(db.tables[t], t, rows, clause.column))
  }

  lemma EachInvDone(db0: DbState, db: DbState, t: Table, rows: seq<Cols>, clause: OnConflict, i: nat, e: Option<string>)
    requires i <= |rows| && (i == |rows| || e.Some?)
    requires EachInv(db0, db, t, rows, clause, i, e, |rows| > 0 && Insert(db0, t, rows[0], clause).outcome.Rejected?) == true
    ensures EachDone(db0, db, t, rows, clause, e)
  {
    if e.None? {
      assert rows[..i] == rows;
    }
  }

  /**
   * `for (const row of rows) await client.query(INSERT ...)`: the rows in
   * order, stopping at the first rejected statement.
   */
  method InsertEach(server: Server, t: Table, rows: seq<Cols>, clause: OnConflict) returns (e: Option<string>)
    requires server.Valid() && server.snapshot.Some?
    modifies server
    ensures server.Valid() && server.snapshot == old(server.snapshot)
    ensures EachDone(old(server.db), server.db, t, rows, clause, e)
  {
    ghost var db0 := server.db;
    ghost var firstRejected := |rows| > 0 && Insert(db0, t, rows[0], clause).outcome.Rejected?;
    var i := 0;
    e := None;
    EachStart(db0, t, rows, clause, firstRejected);
    while i < |rows| && e.None?
      invariant 0 <= i <= |rows|
      invariant server.Valid() && server.snapshot == old(server.snapshot)
      // compared with `true` so that the verifier keeps the invariant as one fact instead of checking it conjunct by conjunct
      invariant EachInv(db0, server.db, t, rows, clause, i, e, firstRejected) == true
    {
      e := InsertNext(server, t, rows, clause, i, db0, firstRejected, e);
      i := i + 1;
    }
    EachInvDone(db0, server.db, t, rows, clause, i, e);
  }

  /**
   * One pass of `InsertEach`'s loop: row `i` is inserted, and a rejection
   * becomes the error; `e0` is the loop's error so far, which is none.
   */
  method InsertNext(server: Server, t: Table, rows: seq<Cols>, clause: OnConflict, i: nat, ghost db0: DbState,
                    ghost firstRejected: bool, ghost e0: Option<string>) returns (e: Option<string>)
    requires server.Valid() && i < |rows| && e0.None? && EachInv(db0, server.db, t, rows, clause, i, e0, firstRejected) == true
    requires firstRejected == Insert(db0, t, rows[0], clause).outcome.Rejected?
    modifies server
    ensures server.Valid() && server.snapshot == old(server.snapshot)
    ensures EachInv(db0, server.db, t, rows, clause, i + 1, e, firstRejected)
  {
    ghost var before := server.db;
    var out := server.Insert(t, rows[i], clause);
    e := if out.Rejected? then Some(out.message) else None;
    EachInvStep(db0, before, server.db, out, e, t, rows, clause, i, firstRejected);
  }

  /** One accepted row into a table without unique keys appends exactly that row. */
  lemma AppendedStep(db0: DbState, before: DbState, after: DbState, out: InsertOutcome, t: Table, rows: seq<Cols>, i: nat)
    requires i < |rows| && t in db0.tables && t in before.tables && Unique(t) == []
    requires Insert(before, t, rows[i], AnyConflict) == Step(after, out) && !out.Rejected?
    requires out.Inserted? ==> after.tables == before.tables[t := before.tables[t] + [Row(out.id, Defaults(t) + rows[i])]]
    requires i == 0 ==> before == db0
    requires i > 0 ==> Appended(db0.tables[t], before.tables[t], t, rows[..i])
    ensures Appended(db0.tables[t], after.tables[t], t, rows[..i + 1])
  {
    assert rows[..i + 1] == rows[..i] + [rows[i]];
    assert out.Inserted?;
    assert after.tables[t] == before.tables[t] + [Row(out.id, Defaults(t) + rows[i])];
  }

  /** After one accepted row on a conflict column, every row so far finds its key in the table. */
  lemma KeysStep(before: DbState, after: DbState, out: InsertOutcome, t: Table, rows: seq<Cols>, i: nat, c: string)
    requires i < |rows| && t in before.tables && !out.Rejected?
    requires out.Inserted? ==> after.tables == before.tables[t := before.tables[t] + [Row(out.id, Defaults(t) + rows[i])]]
    requires out.Skipped? ==> after.tables == before.tables && Clash(before.tables[t], Defaults(t) + rows[i], c)
    requires i > 0 ==> KeysPresent(before.tables[t], t, rows[..i], c)
    ensures KeysPresent(after.tables[t], t, rows[..i + 1], c)
  {
    var cols := Defaults(t) + rows[i];
    var table := after.tables[t];
    var pre := rows[..i + 1];
    assert before.tables[t] <= table;
    forall k | 0 <= k < |pre| && Value(Defaults(t) + pre[k], c) != DNull
      ensures Clash(table, Defaults(t) + pre[k], c)
    {
      if k < i {
        assert pre[k] == rows[..i][k];
        var w :| 0 <= w < |before.tables[t]| && Value(before.tables[t][w].cols, c) == Value(Defaults(t) + rows[..i][k], c);
        assert table[w] == before.tables[t][w];
      } else if out.Inserted? {
        assert table[|table| - 1].cols == cols;
      } else {
        var w :| 0 <= w < |before.tables[t]| && Value(before.tables[t][w].cols, c) == Value(cols, c);
        assert table[w] == before.tables[t][w];
      }
    }
  }

  /** The position of a table among the datasets; `network_settings` comes after them all. */
  function Slot(t: Table): nat
  {
    match t
    case Assets => 0
    case Users => 1
    case Components => 2
    case Accessories => 3
    case Licenses => 4
    case ZabbixVms => 5
    case ActivityLogs => 6
    case BitlockerKeys => 7
    case NetworkSettings => 8
  }

  lemma DatasetFacts(k: nat)
    requires k < 8
    ensures Slot(DatasetTable(k)) == k
    ensures DatasetClause(k) == AnyConflict ==> Unique(DatasetTable(k)) == []
  {
  }

  /** What one dataset's inserts leave in table `t`, starting from `db0`: nothing when switched off. */
  predicate TableSeeded(db0: DbState, db: DbState, t: Table, rows: seq<Cols>, clause: OnConflict, enabled: bool)
  {
    if enabled && |rows| > 0 then
      t in db0.tables && t in db.tables
      && (clause == AnyConflict ==> Appended(db0.tables[t], db.tables[t], t, rows))
      && (clause.OnColumn? ==> KeysPresent(db.tables[t], t, rows, clause.column))
    else
      t in db0.tables ==> t in db.tables && db.tables[t] == db0.tables[t]
  }

  /** Statements on other tables keep what a dataset left. */
  lemma TableSeededFrame(db0: DbState, db: DbState, db': DbState, t: Table, rows: seq<Cols>, clause: OnConflict, enabled: bool)
    requires TableSeeded(db0, db, t, rows, clause, enabled)
    requires t in db.tables ==> t in db'.tables && db'.tables[t] == db.tables[t]
    ensures TableSeeded(db0, db', t, rows, clause, enabled)
  {
  }

  /** A dataset's inserts that all went through seed its table. */
  lemma TableSeededNow(db0: DbState, before: DbState, after: DbState, t: Table, rows: seq<Cols>, clause: OnConflict, enabled: bool, e: Option<string>)
    requires Unique(t) == [] || clause != AnyConflict
    requires t in db0.tables ==> t in before.tables && before.tables[t] == db0.tables[t]
    requires before.tables.Keys == db0.tables.Keys
    requires enabled ==> EachDone(before, after, t, rows, clause, e) && e.None?
    requires !enabled ==> after == before
    ensures TableSeeded(db0, after, t, rows, clause, enabled)
  {
  }

  /**
   * The lists `importMockData` seeds from. The source imports them from
   * `lib/mockData` (`MockFixtures`); the seeding is stated for any lists.
   */
  datatype Fixtures = Fixtures(assets: seq<Asset>, users: seq<User>, components: seq<ComponentSeed>,
                               accessories: seq<Accessory>, licenses: seq<License>, vms: seq<Cols>,
                               logs: seq<ActivityLog>, keys: seq<BitLockerKey>)

  const MockFixtures := Fixtures(MockAssets, MockUsers, MockComponents, MockAccessories, MockLicenses,
                                 MockZabbixVmColumns, MockActivityLogs, MockBitLockerKeys)

  /** The eight datasets built from the fixture lists, in seeding order: one row per record, and the log and key rows that parse. */
  function Datasets(f: Fixtures): seq<seq<Cols>>
  {
    [AssetRows(f.assets), UserRows(f.users)]
    + [ComponentRows(f.components), AccessoryRows(f.accessories), LicenseRows(f.licenses), f.vms, LogRows(f.logs), KeyRows(f.keys)]
  }

  function AssetRows(assets: seq<Asset>): (rows: seq<Cols>)
    ensures |rows| == |assets|
  {
    seq(|assets|, i requires 0 <= i < |assets| => AssetColumns(assets[i]))
  }

  function UserRows(users: seq<User>): (rows: seq<Cols>)
    ensures |rows| == |users|
  {
    seq(|users|, i requires 0 <= i < |users| => UserColumns(users[i]))
  }

  function ComponentRows(components: seq<ComponentSeed>): (rows: seq<Cols>)
    ensures |rows| == |components|
  {
    seq(|components|, i requires 0 <= i < |components| => ComponentColumns(components[i]))
  }

  function AccessoryRows(accessories: seq<Accessory>): (rows: seq<Cols>)
    ensures |rows| == |accessories|
  {
    seq(|accessories|, i requires 0 <= i < |accessories| => AccessoryColumns(accessories[i]))
  }

  function LicenseRows(licenses: seq<License>): (rows: seq<Cols>)
    ensures |rows| == |licenses|
  {
    seq(|licenses|, i requires 0 <= i < |licenses| => LicenseColumns(licenses[i]))
  }

  /** What the seeding relies on in the datasets: eight of them, one users row per user of `f`, and the log rows of `f`. */
  predicate SeedData(data: seq<seq<Cols>>, f: Fixtures)
  {
    |data| == 8 && |data[1]| == |f.users| && data[6] == LogRows(f.logs)
  }

  lemma DatasetsShape(f: Fixtures)
    ensures SeedData(Datasets(f), f)
  {
  }

  /** What seeding dataset `k`, with rows `data[k]`, leaves in `db`, starting from `db0`. */
  predicate DatasetSeeded(db0: DbState, db: DbState, opts: ImportOptions, data: seq<seq<Cols>>, k: nat)
    requires k < 8 && |data| == 8
  {
    TableSeeded(db0, db, DatasetTable(k), data[k], DatasetClause(k), Enabled(opts, k))
  }

  /** A successful seed: every dataset of `f` is seeded as its toggle says. */
  predicate Seeded(db0: DbState, db: DbState, opts: ImportOptions, f: Fixtures)
  {
    SeededBelow(db0, db, opts, Datasets(f), 8)
  }

  /** A log whose ids both parse leads the inserts. */
  lemma LogRowsHead(logs: seq<ActivityLog>, userId: int, itemId: int)
    requires |logs| > 0
    requires ParseIntAuto(Or(logs[0].userId, "0")) == Some(userId) && ParseIntAuto(Or(logs[0].itemId, "0")) == Some(itemId)
    ensures |LogRows(logs)| > 0 && LogRows(logs)[0] == LogColumns(logs[0], userId, itemId)
  {
  }

  lemma Parse101()
    ensures ParseIntAuto("101") == Some(101)
  {
    var s := "101";
    assert s[..2] == "10" && s[..2][..1] == "1" && s[..2][..1][..0] == "";
    assert DigitsValue("1") == 1;
    assert DigitsValue("10") == 10;
    assert DigitsValue(s) == 101;
    ParseAutoDigits(s);
  }

  lemma Parse1()
    ensures ParseIntAuto("1") == Some(1)
  {
    assert "1"[..0] == "";
    assert DigitsValue("1") == 1;
    ParseAutoDigits("1");
  }

  /** The user the first activity log names, when both its ids parse; 0, which no row has, otherwise. */
  function FirstLogUser(logs: seq<ActivityLog>): int
  {
    if |logs| > 0 && ParseIntAuto(Or(logs[0].userId, "0")).Some? && ParseIntAuto(Or(logs[0].itemId, "0")).Some?
    then ParseIntAuto(Or(logs[0].userId, "0")).value
    else 0
  }

  /**
   * The first activity-log insert of the fixtures: user 101, item 1; the
   * users dataset alone cannot bring a fresh sequence to 101.
   */
  lemma FirstLogColumns()
    ensures |LogRows(MockActivityLogs)| > 0
    ensures LogRows(MockActivityLogs)[0] == LogColumns(MockActivityLogs[0], 101, 1)
    ensures FirstLogUser(MockActivityLogs) == 101 && 1 + |MockUsers| < 101
  {
    var log := MockActivityLogs[0];
    assert log.userId == "101" && log.itemId == "1";
    Parse101();
    Parse1();
    LogRowsHead(MockActivityLogs, 101, 1);
  }

  /** Such a row passes NOT NULL and has no unique column, so only its reference decides. */
  lemma LogReferenceDecides(st: DbState, log: ActivityLog, userId: int, itemId: int)
    requires ActivityLogs in st.tables && ActivityLogs !in st.broken
    requires !Resolves(st.tables, Users, DInt(userId))
    ensures Insert(st, ActivityLogs, LogColumns(log, userId, itemId), AnyConflict).outcome.Rejected?
  {
    var cols := Defaults(ActivityLogs) + LogColumns(log, userId, itemId);
    assert cols == LogColumns(log, userId, itemId);
    assert Value(cols, "user_id") == DInt(userId);
    assert FirstNull(cols, NotNull(ActivityLogs)).None?;
    assert Refs(ActivityLogs) == [Ref("user_id", Users)];
  }

  /**
   * The first activity-log row names `FirstLogUser(logs)`; while the users
   * sequence has not reached it that reference cannot resolve, so the row
   * is refused.
   */
  lemma FirstLogRejected(st: DbState, logs: seq<ActivityLog>)
    requires Valid(st) && LastValue(st, Users) < FirstLogUser(logs)
    ensures |LogRows(logs)| > 0
    ensures Insert(st, ActivityLogs, LogRows(logs)[0], AnyConflict).outcome.Rejected?
  {
    var user, item := FirstLogUser(logs), ParseIntAuto(Or(logs[0].itemId, "0")).value;
    LogRowsHead(logs, user, item);
    if ActivityLogs in st.tables && ActivityLogs !in st.broken {
      UnissuedIdDangles(st, Users, user);
      LogReferenceDecides(st, logs[0], user, item);
    }
  }

  /**
   * How the seeding loop has changed the database once datasets `0..k-1`
   * are done: rows only grew, no table came or went, the users sequence
   * moved only for the users dataset, and the tables still to come are as
   * they were.
   */
  predicate SeedFrame(db0: DbState, db: DbState, k: nat, f: Fixtures)
  {
    Extends(db0, db) && db.tables.Keys == db0.tables.Keys
    && (k <= 1 ==> LastValue(db, Users) == LastValue(db0, Users))
    && LastValue(db, Users) <= LastValue(db0, Users) + |f.users|
    && (forall u | u in db0.tables && Slot(u) >= k :: u in db.tables && db.tables[u] == db0.tables[u])
  }

  /** Datasets `0..k-1` are seeded. */
  predicate SeededBelow(db0: DbState, db: DbState, opts: ImportOptions, data: seq<seq<Cols>>, k: nat)
    requires k <= 8 && |data| == 8
  {
    forall j | 0 <= j < k :: DatasetSeeded(db0, db, opts, data, j)
  }

  /** What the seeding loop has achieved once datasets `0..k-1` are done. */
  predicate Progress(db0: DbState, db: DbState, opts: ImportOptions, data: seq<seq<Cols>>, f: Fixtures, k: nat, e: Option<string>)
    requires k <= 8 && |data| == 8
  {
    SeedFrame(db0, db, k, f)
    && (e.None? ==> SeededBelow(db0, db, opts, data, k))
    && (k > 6 && opts.activityLogs && LastValue(db0, Users) + |f.users| < FirstLogUser(f.logs) ==> e.Some?)
  }

  lemma SeedStart(db0: DbState, opts: ImportOptions, data: seq<seq<Cols>>, f: Fixtures)
    requires |data| == 8
    ensures Progress(db0, db0, opts, data, f, 0, None)
  {
  }

  /** Seeding dataset `k` leaves an earlier dataset `j` as it was. */
  lemma SeedKept(db0: DbState, before: DbState, after: DbState, opts: ImportOptions, data: seq<seq<Cols>>, j: nat, k: nat)
    requires j < k < 8 && |data| == 8 && DatasetSeeded(db0, before, opts, data, j)
    requires forall u | u != DatasetTable(k) && u in before.tables :: u in after.tables && after.tables[u] == before.tables[u]
    ensures DatasetSeeded(db0, after, opts, data, j)
  {
    DatasetFacts(j);
    DatasetFacts(k);
    TableSeededFrame(db0, before, after, DatasetTable(j), data[j], DatasetClause(j), Enabled(opts, j));
  }

  /** The frame after one more table's inserts. */
  lemma FrameStep(db0: DbState, before: DbState, after: DbState, k: nat, t: Table, rows: seq<Cols>, clause: OnConflict,
                  enabled: bool, e: Option<string>, f: Fixtures)
    requires k < 8 && Slot(t) == k && SeedFrame(db0, before, k, f)
    requires t == Users ==> |rows| <= |f.users|
    requires enabled ==> EachDone(before, after, t, rows, clause, e)
    requires !enabled ==> after == before
    ensures SeedFrame(db0, after, k + 1, f)
  {
    if enabled {
      ExtendsTransitive(db0, before, after);
    }
  }

  lemma SeededStep(db0: DbState, before: DbState, after: DbState, opts: ImportOptions, data: seq<seq<Cols>>, f: Fixtures,
                    k: nat, e: Option<string>)
    requires k < 8 && |data| == 8 && SeedFrame(db0, before, k, f) && SeededBelow(db0, before, opts, data, k) && e.None?
    requires Enabled(opts, k) ==> EachDone(before, after, DatasetTable(k), data[k], DatasetClause(k), e)
    requires !Enabled(opts, k) ==> after == before
    ensures SeededBelow(db0, after, opts, data, k + 1)
  {
    DatasetFacts(k);
    forall j | 0 <= j < k + 1
      ensures DatasetSeeded(db0, after, opts, data, j)
    {
      if j < k {
        SeedKept(db0, before, after, opts, data, j, k);
      } else {
        TableSeededNow(db0, before, after, DatasetTable(k), data[k], DatasetClause(k), Enabled(opts, k), e);
      }
    }
  }

  lemma {:induction false} SeedStep(db0: DbState, before: DbState, after: DbState, opts: ImportOptions, data: seq<seq<Cols>>,
                                    f: Fixtures, k: nat, e: Option<string>)
    requires k < 8 && SeedData(data, f) && Progress(db0, before, opts, data, f, k, None) && Valid(before)
    requires Enabled(opts, k) ==> EachDone(before, after, DatasetTable(k), data[k], DatasetClause(k), e)
    requires !Enabled(opts, k) ==> after == before && e.None?
    ensures Progress(db0, after, opts, data, f, k + 1, e)
  {
    DatasetFacts(k);
    FrameStep(db0, before, after, k, DatasetTable(k), data[k], DatasetClause(k), Enabled(opts, k), e, f);
    LogsStep(db0, before, after, opts, data, f, k, e);
    if e.None? {
      SeededStep(db0, before, after, opts, data, f, k, e);
    }
  }

  /** The activity-log dataset fails while the users sequence cannot have reached the first log's user. */
  lemma LogsStep(db0: DbState, before: DbState, after: DbState, opts: ImportOptions, data: seq<seq<Cols>>,
                 f: Fixtures, k: nat, e: Option<string>)
    requires k < 8 && SeedData(data, f) && Progress(db0, before, opts, data, f, k, None) && Valid(before)
    requires Enabled(opts, k) ==> EachDone(before, after, DatasetTable(k), data[k], DatasetClause(k), e)
    ensures k + 1 > 6 && opts.activityLogs && LastValue(db0, Users) + |f.users| < FirstLogUser(f.logs) ==> e.Some?
  {
    if k == 6 && opts.activityLogs && LastValue(db0, Users) + |f.users| < FirstLogUser(f.logs) {
      assert Enabled(opts, k) && DatasetTable(k) == ActivityLogs && DatasetClause(k) == AnyConflict;
      assert LastValue(before, Users) < FirstLogUser(f.logs);
      FirstLogRejected(before, f.logs);
    }
  }

  /** What `SeedAll` promises: rows only grow, and on success every dataset is seeded. */
  predicate SeedDone(db0: DbState, db: DbState, opts: ImportOptions, data: seq<seq<Cols>>, f: Fixtures, e: Option<string>)
    requires |data| == 8
  {
    Extends(db0, db)
    && (e.None? ==> SeededBelow(db0, db, opts, data, 8))
    && (opts.activityLogs && LastValue(db0, Users) + |f.users| < FirstLogUser(f.logs) ==> e.Some?)
  }

  lemma SeedFinished(db0: DbState, db: DbState, opts: ImportOptions, data: seq<seq<Cols>>, f: Fixtures, k: nat, e: Option<string>)
    requires k <= 8 && |data| == 8 && (k == 8 || e.Some?) && Progress(db0, db, opts, data, f, k, e)
    ensures SeedDone(db0, db, opts, data, f, e)
  {
  }

  /**
   * The eight `if (importOptions.X) for (...) INSERT` blocks of
   * `importMockData`, in their written order, stopping at the first error.
   */
  method SeedAll(server: Server, opts: ImportOptions, data: seq<seq<Cols>>, ghost f: Fixtures) returns (e: Option<string>)
    requires server.Valid() && server.snapshot.Some? && SeedData(data, f)
    modifies server
    ensures server.Valid() && server.snapshot == old(server.snapshot)
    ensures SeedDone(old(server.db), server.db, opts, data, f, e)
  {
    ghost var db0 := server.db;
    SeedStart(db0, opts, data, f);
    var k := 0;
    e := None;
    while k < 8 && e.None?
      invariant 0 <= k <= 8
      invariant server.Valid() && server.snapshot == old(server.snapshot)
      invariant Progress(db0, server.db, opts, data, f, k, e)
    {
      ghost var before := server.db;
      if Enabled(opts, k) {
        e := InsertEach(server, DatasetTable(k), data[k], DatasetClause(k));
      }
      SeedStep(db0, before, server.db, opts, data, f, k, e);
      k := k + 1;
    }
    SeedFinished(db0, server.db, opts, data, f, k, e);
  }

  /** `importOptions.assets` on an undefined `importOptions`. */
  const UndefinedOptions := Thrown("TypeError", "Cannot read properties of undefined (reading 'assets')")

  /**
   * `importMockData`: the selected datasets inside one transaction; any
   * error rolls the transaction back and is rethrown.
   */
  method ImportMockData(pool: Pool, importOptions: Option<ImportOptions>, fixtures: Fixtures) returns (err: Option<Thrown>)
    requires pool.server.Valid() && pool.server.snapshot.None?
    modifies pool, pool.server
    ensures pool.server.Valid() && pool.server.snapshot.None?
    ensures pool.clients == old(pool.clients) && pool.ended == old(pool.ended)
    ensures Extends(old(pool.server.db), pool.server.db)
    ensures !(pool.reachable && !pool.ended) ==> err.Some? && pool.server.db == old(pool.server.db)
    ensures pool.reachable && !pool.ended && importOptions.None? ==> err == Some(UndefinedOptions)
    ensures err.Some? ==> pool.server.db.tables == old(pool.server.db.tables)
    ensures err.None? ==> importOptions.Some? && Seeded(old(pool.server.db), pool.server.db, importOptions.value, fixtures)
    ensures (importOptions.Some? && importOptions.value.activityLogs
             && LastValue(old(pool.server.db), Users) + |fixtures.users| < FirstLogUser(fixtures.logs)) ==> err.Some?
  {
    var connectErr := pool.Connect();
    if connectErr.Some? {
      return Some(Thrown("Error", connectErr.value));
    }
    var server := pool.server;
    server.Begin();
    if importOptions.None? {
      err := Some(UndefinedOptions);
    } else {
      DatasetsShape(fixtures);
      var e := SeedAll(server, importOptions.value, Datasets(fixtures), fixtures);
      err := if e.Some? then Some(PgError(e.value)) else None;
    }
    if err.None? {
      server.Commit();
    } else {
      ghost var seeded := server.db;
      server.Rollback();
      RollbackExtends(old(server.db), seeded);
    }
    pool.Release();
  }

  // ---- markSetupComplete ----

  /** `setup-complete.json` in the working directory. */
  const MarkerFile := "setup-complete.json"

  /** `JSON.stringify({ completed: true, timestamp })`. */
  function MarkerContent(timestamp: string): string
  {
    "{\"completed\":true,\"timestamp\":\"" + timestamp + "\"}"
  }

  /** Writes the marker; a failed write is only logged. */
  method MarkSetupComplete(fs: FileSystem, timestamp: string)
    modifies fs
    ensures fs.writable ==> fs.files == old(fs.files)[MarkerFile := MarkerContent(timestamp)]
    ensures !fs.writable ==> fs.files == old(fs.files)
  {
    var _ := fs.WriteFile(MarkerFile, MarkerContent(timestamp));
  }

  // ---- handler ----

  /** After the admin's INSERT (or none): the state only grew, by at most one users id, and a returned id is a row. */
  lemma AdminInsertFacts(db1: DbState, db2: DbState, cols: Cols, inserted: bool, id: Option<nat>, err: Option<Thrown>)
    requires id.Some? <==> err.None?
    requires !inserted ==> err.Some? && db2 == db1
    requires inserted ==>
      var step := Insert(db1, Users, cols, NoClause);
      db2 == step.state
      && (step.outcome.Inserted? ==> id == Some(step.outcome.id))
      && (step.outcome.Rejected? ==> err.Some?)
    ensures Extends(db1, db2)
    ensures LastValue(db2, Users) <= LastValue(db1, Users) + 1
    ensures err.None? ==> HasRow(db2.tables, Users, id.value)
  {
    ExtendsReflexive(db1);
    if inserted {
      InsertExtends(db1, Users, cols, NoClause);
      InsertBumpsSerial(db1, Users, cols, NoClause);
      InsertedRowFound(db1, Users, cols, NoClause);
      NoClauseNeverSkips(db1, Users, cols);
    }
  }


  /** The connection settings of the request; the pool's reachability stands for them. */
  datatype DatabaseConfig = DatabaseConfig(host: Option<string>, port: Option<string>, database: Option<string>,
                                           username: Option<string>, password: Option<string>)

  /** The request: its method and the body's properties, absent or null ones as `None`. */
  datatype SetupRequest = SetupRequest(httpMethod: HttpMethod, admin: Option<AdminInput>,
                                       database: Option<DatabaseConfig>, importOptions: Option<ImportOptions>)

  /** The JSON response: `message`, and `adminId` or `error` where sent. */
  datatype SetupResponse = SetupResponse(status: nat, message: string, adminId: Option<nat>, error: Option<string>)

  /** `${error.name}: ${error.message}` */
  function ErrorText(e: Thrown): string
  {
    e.name + ": " + e.message
  }

  const SetupFailed := SetupResponse(500, "Failed to complete setup", None, None)

  /** Where the handler stopped: the step that threw, or `Completed` after the marker. */
  datatype Stage = TablesStep | AdminStep | ImportStep | Completed

  /** What the handler replies once it stopped at `stage` with `failure` thrown. */
  predicate Replied(res: SetupResponse, stage: Stage, failure: Thrown, admin: Option<nat>)
  {
    if stage == Completed then res == SetupResponse(200, "Setup completed successfully", admin, None) && admin.Some?
    else res == SetupFailed.(error := Some(ErrorText(failure)))
  }

  /**
   * What `createTables` did, from `before`: it throws (the connection's
   * error, or the first faulty table's) and leaves the tables as they were,
   * or `created` holds the created tables.
   */
  predicate TablesOutcome(before: DbState, created: DbState, db: DbState, reachable: bool, connectError: string,
                          stage: Stage, failure: Thrown, admin: Option<nat>)
  {
    && (stage == TablesStep <==> !(reachable && SchemaWorks(before)))
    && (stage == TablesStep ==> admin.None? && db.tables == before.tables)
    && (!reachable ==> failure == Thrown("Error", connectError) && db == before)
    && (reachable && FirstFault(before, SchemaTables).Some? ==> failure == PgError(FirstFault(before, SchemaTables).value))
    && (stage != TablesStep ==> TablesCreated(before, created) && created.broken == before.broken)
  }

  /**
   * What `createAdminUser` did on a reachable pool, from `before` to `after`:
   * the administrator's INSERT, `refused` when it was rejected (with the
   * server's error) or when there was no password to hash (with bcrypt's).
   */
  predicate AdminOutcome(before: DbState, after: DbState, input: AdminInput, hash: string -> string,
                         refused: bool, failure: Thrown, admin: Option<nat>)
  {
    if input.password.Some? then
      var step := Insert(before, Users, AdminColumns(input, hash), NoClause);
      after == step.state
      && (refused <==> step.outcome.Rejected?)
      && (step.outcome.Rejected? ==> failure == PgError(step.outcome.message))
      && (step.outcome.Inserted? ==> admin == Some(step.outcome.id))
    else
      refused && failure == Thrown("Error", BcryptMissingData) && after == before
  }

  /**
   * What the steps after `createTables` did, from `created` to `db`: the
   * administrator (giving `withAdmin`), then the fixtures, each only when
   * the one before did not throw; a failed import leaves the tables as the
   * administrator left them.
   */
  predicate StepsOutcome(created: DbState, withAdmin: DbState, db: DbState, input: AdminInput,
                         importOptions: Option<ImportOptions>, fixtures: Fixtures, hash: string -> string,
                         stage: Stage, failure: Thrown, admin: Option<nat>)
  {
    && stage != TablesStep
    && AdminOutcome(created, withAdmin, input, hash, stage == AdminStep, failure, admin)
    && (stage == AdminStep ==> admin.None? && db == withAdmin)
    && (stage != AdminStep ==> admin.Some? && HasRow(withAdmin.tables, Users, admin.value))
    && (stage == ImportStep ==> db.tables == withAdmin.tables && (importOptions.None? ==> failure == UndefinedOptions))
    && (stage == Completed ==> importOptions.Some? && Seeded(withAdmin, db, importOptions.value, fixtures))
  }

  /**
   * A second setup whose administrator's email is already in `users`
   * stops at the administrator, with the tables created and kept.
   */
  lemma TakenEmailStopsAtAdmin(db0: DbState, created: DbState, withAdmin: DbState, db: DbState, input: AdminInput,
                               importOptions: Option<ImportOptions>, fixtures: Fixtures, hash: string -> string, reachable: bool,
                               connectError: string, stage: Stage, failure: Thrown, admin: Option<nat>)
    requires TablesOutcome(db0, created, db, reachable, connectError, stage, failure, admin)
    requires stage != TablesStep ==> StepsOutcome(created, withAdmin, db, input, importOptions, fixtures, hash, stage, failure, admin)
    requires reachable && SchemaWorks(db0) && Users in db0.tables
    requires input.name.Some? && input.email.Some? && input.password.Some?
    requires Clash(db0.tables[Users], Defaults(Users) + AdminColumns(input, hash), "email")
    ensures stage == AdminStep && TablesCreated(db0, db)
  {
    assert Users in SchemaTables;
    assert created.tables[Users] == db0.tables[Users];
    DuplicateAdminRefused(created, input, hash);
  }

  /**
   * The handler's steps after `createTables`: the administrator, the
   * fixtures and the marker, stopping at the first that throws.
   */
  method FinishSetup(pool: Pool, input: AdminInput, importOptions: Option<ImportOptions>, fixtures: Fixtures,
                     hash: string -> string, fs: FileSystem, timestamp: string)
    returns (res: SetupResponse, ghost admin: Option<nat>, ghost withAdmin: DbState, ghost stage: Stage, ghost failure: Thrown)
    requires pool.server.Valid() && pool.server.snapshot.None? && pool.reachable && !pool.ended
    modifies pool, pool.server, fs
    ensures pool.server.Valid() && pool.server.snapshot.None?
    ensures pool.clients == old(pool.clients) && pool.ended == old(pool.ended)
    ensures Extends(old(pool.server.db), pool.server.db)
    ensures Replied(res, stage, failure, admin)
    ensures StepsOutcome(old(pool.server.db), withAdmin, pool.server.db, input, importOptions, fixtures, hash, stage, failure, admin)
    ensures admin.Some? ==> HasRow(pool.server.db.tables, Users, admin.value)
    ensures stage == Completed && fs.writable ==> fs.files == old(fs.files)[MarkerFile := MarkerContent(timestamp)]
    ensures stage != Completed || !fs.writable ==> fs.files == old(fs.files)
    ensures (importOptions.Some? && importOptions.value.activityLogs
             && LastValue(old(pool.server.db), Users) + 1 + |fixtures.users| < FirstLogUser(fixtures.logs)) ==> stage != Completed
  {
    ghost var db1 := pool.server.db;
    var id, err := CreateAdminUser(pool, input, hash);
    withAdmin, admin := pool.server.db, None;
    ghost var cols := if input.password.Some? then AdminColumns(input, hash) else map[];
    AdminInsertFacts(db1, withAdmin, cols, input.password.Some?, id, err);
    if err.Some? {
      stage, failure := AdminStep, err.value;
      res := SetupFailed.(error := Some(ErrorText(err.value)));
      return;
    }
    admin := id;
    err := ImportMockData(pool, importOptions, fixtures);
    ExtendsTransitive(db1, withAdmin, pool.server.db);
    RowKept(withAdmin, pool.server.db, Users, id.value);
    if err.Some? {
      stage, failure := ImportStep, err.value;
      res := SetupFailed.(error := Some(ErrorText(err.value)));
      return;
    }
    stage, failure := Completed, Thrown("", "");
    MarkSetupComplete(fs, timestamp);
    res := SetupResponse(200, "Setup completed successfully", id, None);
  }

  /**
   * The `/api/setup/complete` handler: method and parameter checks, then
   * the tables, the administrator, the fixtures and the marker file, with
   * a pool of its own that it ends on every path past the checks.
   * `reachable` and `connectError` stand for connecting with
   * `req.database`, `hash` for bcrypt and `timestamp` for the clock.
   * The ghost results name the state after the tables (`created`) and after
   * the administrator (`withAdmin`), the step reached, and what it threw.
   */
  method Handler(req: SetupRequest, server: Server, fs: FileSystem, fixtures: Fixtures, hash: string -> string,
                 reachable: bool, connectError: string, timestamp: string)
    returns (res: SetupResponse, ghost admin: Option<nat>, pool: Option<Pool>,
             ghost created: DbState, ghost withAdmin: DbState, ghost stage: Stage, ghost failure: Thrown)
    requires server.Valid() && server.snapshot.None?
    modifies server, fs
    ensures server.Valid() && server.snapshot.None?
    ensures pool.Some? <==> req.httpMethod == POST && req.admin.Some? && req.database.Some?
    ensures pool.Some? ==> fresh(pool.value) && pool.value.server == server && pool.value.ended && pool.value.clients == 0
    ensures req.httpMethod != POST ==>
      res == SetupResponse(405, "Method not allowed", None, None) && server.db == old(server.db) && fs.files == old(fs.files)
    ensures req.httpMethod == POST && (req.admin.None? || req.database.None?) ==>
      res == SetupResponse(400, "Missing required setup parameters", None, None) && server.db == old(server.db) && fs.files == old(fs.files)
    ensures Extends(old(server.db), server.db)
    // past the checks: the steps in order, the first that throws ending the request with a 500 carrying its error
    ensures pool.Some? ==> Replied(res, stage, failure, admin)
    ensures pool.Some? ==> TablesOutcome(old(server.db), created, server.db, reachable, connectError, stage, failure, admin)
    ensures pool.Some? && stage != TablesStep ==>
      StepsOutcome(created, withAdmin, server.db, req.admin.value, req.importOptions, fixtures, hash, stage, failure, admin)
    ensures admin.Some? ==> HasRow(server.db.tables, Users, admin.value)
    // markSetupComplete, on full success only
    ensures res.status == 200 && fs.writable ==> fs.files == old(fs.files)[MarkerFile := MarkerContent(timestamp)]
    ensures res.status != 200 ==> fs.files == old(fs.files)
    ensures (req.importOptions.Some? && req.importOptions.value.activityLogs
             && LastValue(old(server.db), Users) + 1 + |fixtures.users| < FirstLogUser(fixtures.logs)) ==> res.status != 200
  {
    admin, created, withAdmin, stage, failure := None, server.db, server.db, TablesStep, Thrown("", "");
    if req.httpMethod != POST {
      res, pool := SetupResponse(405, "Method not allowed", None, None), None;
      return;
    }
    if req.admin.None? || req.database.None? {
      res, pool := SetupResponse(400, "Missing required setup parameters", None, None), None;
      return;
    }
    var p := new Pool(server, reachable, connectError);
    var err := CreateTables(p);
    created, withAdmin := server.db, server.db;
    if err.Some? {
      failure := err.value;
      res := SetupFailed.(error := Some(ErrorText(err.value)));
    } else {
      res, admin, withAdmin, stage, failure := FinishSetup(p, req.admin.value, req.importOptions, fixtures, hash, fs, timestamp);
      ExtendsTransitive(old(server.db), created, server.db);
    }
    p.End();
    pool := Some(p);
  }
}
