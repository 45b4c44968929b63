/**
 * A PostgreSQL server as the setup code reaches it through a `pg` pool:
 * one connection at a time, with `BEGIN`/`COMMIT`/`ROLLBACK`, DDL and
 * inserts, and a pool that hands out clients until it is ended.
 */
module PgServer {
  import opened Wrappers
  import opened Postgres

  /** Restoring `tables` over `db` would give a valid state that `db` extends. */
  predicate Restorable(tables: map<Table, seq<Row>>, db: DbState)
  {
    Postgres.Valid(db.(tables := tables))
    && (forall t | t in tables :: t in db.tables && tables[t] <= db.tables[t])
  }

  lemma RestorableAfter(tables: map<Table, seq<Row>>, a: DbState, b: DbState)
    requires Restorable(tables, a) && Extends(a, b)
    ensures Restorable(tables, b)
  {
    RestoreKeepsValid(a.(tables := tables), b);
  }

  class Server {
    var db: DbState
    /** The tables as they were at `BEGIN`, while a transaction is open. */
    var snapshot: Option<map<Table, seq<Row>>>

    ghost predicate Valid()
      reads this
    {
      Postgres.Valid(db) && (snapshot.Some? ==> Restorable(snapshot.value, db))
    }

    constructor(db: DbState)
      requires Postgres.Valid(db)
      ensures Valid() && this.db == db && snapshot.None?
    {
      this.db := db;
      snapshot := None;
    }

    method Begin()
      requires Valid() && snapshot.None?
      modifies this
      ensures Valid() && db == old(db) && snapshot == Some(db.tables)
    {
      snapshot := Some(db.tables);
    }

    method Commit()
      requires Valid()
      modifies this
      ensures Valid() && db == old(db) && snapshot.None?
    {
      snapshot := None;
    }

    /** The tables go back to the snapshot; the sequences keep their values. */
    method Rollback()
      requires Valid() && snapshot.Some?
      modifies this
      ensures Valid() && snapshot.None?
      ensures db == old(db).(tables := old(snapshot.value))
      ensures Extends(db, old(db))
    {
      db := db.(tables := snapshot.value);
      snapshot := None;
    }

    method CreateTable(t: Table) returns (err: Option<string>)
      requires Valid()
      modifies this
      ensures Valid() && snapshot == old(snapshot) && Extends(old(db), db)
      ensures Postgres.CreateTable(old(db), t).Failure? ==> err == Some(Postgres.CreateTable(old(db), t).error) && db == old(db)
      ensures Postgres.CreateTable(old(db), t).Success? ==> err.None? && db == Postgres.CreateTable(old(db), t).value
    {
      var r := Postgres.CreateTable(db, t);
      CreateTableKeepsValid(db, t);
      if r.Failure? {
        err := Some(r.error);
      } else {
        if snapshot.Some? {
          RestorableAfter(snapshot.value, db, r.value);
        }
        db := r.value;
        err := None;
      }
    }

    method Insert(t: Table, cols: Cols, clause: OnConflict) returns (out: InsertOutcome)
      requires Valid()
      modifies this
      ensures Valid() && snapshot == old(snapshot) && Extends(old(db), db)
      ensures Postgres.Insert(old(db), t, cols, clause) == Step(db, out)
    {
      var r := Postgres.Insert(db, t, cols, clause);
      InsertKeepsValid(db, t, cols, clause);
      InsertExtends(db, t, cols, clause);
      if snapshot.Some? {
        RestorableAfter(snapshot.value, db, r.state);
      }
      db, out := r.state, r.outcome;
    }
  }

  /** A `pg` pool for one server configuration; `reachable` says whether connecting succeeds. */
  class Pool {
    const server: Server
    const reachable: bool
    const connectError: string
    var clients: nat
    var ended: bool

    constructor(server: Server, reachable: bool, connectError: string)
      ensures this.server == server && this.reachable == reachable && this.connectError == connectError
      ensures clients == 0 && !ended
    {
      this.server := server;
      this.reachable := reachable;
      this.connectError := connectError;
      clients := 0;
      ended := false;
    }

    /** `pool.connect()`: a client, or the connection error; an ended pool refuses. */
    method Connect() returns (err: Option<string>)
      modifies this
      ensures ended == old(ended)
      ensures err.None? <==> reachable && !ended
      ensures err.None? ==> clients == old(clients) + 1
      ensures err.Some? ==> clients == old(clients)
      ensures err.Some? && !ended ==> err.value == connectError
    {
      if ended {
        err := Some(PoolEnded);
      } else if !reachable {
        err := Some(connectError);
      } else {
        clients := clients + 1;
        err := None;
      }
    }

    method Release()
      requires clients > 0
      modifies this
      ensures clients == old(clients) - 1 && ended == old(ended)
    {
      clients := clients - 1;
    }

    method End()
      modifies this
      ensures ended && clients == old(clients)
    {
      ended := true;
    }
  }

  const PoolEnded := "Cannot use a pool after calling end on the pool"
}
