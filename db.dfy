/**
  The SQL access layer of pkg/db: configuration validation, the Database object with its open
  flag and statement cache, and the helpers over the *DB wrapper with their guard against a
  missing connection, their error wrapping, and the commit-or-rollback decision.

  Driver calls (sql.Open, Close, QueryContext, a scanner, ExecContext, BeginTx, Rollback,
  Commit, PingContext) and template execution are abstract: their outcomes are parameters.
*/
module Db {
  import opened Wrappers

  /** The result of executing a ConnectionStringTemplate on its configuration. */
  datatype Template = Template(rendered: Result<string, string>)

  /** DatabaseConfig; `template` is None for a nil *template.Template. */
  datatype DatabaseConfig = DatabaseConfig(
    driver: string, name: string, address: string,
    credName: string, credPassword: string, template: Option<Template>)

  /** ErrBadConfig, ErrNoConnection, any other error by its text, and a nil-pointer panic. */
  datatype DbError = ErrBadConfig | ErrNoConnection | Failed(msg: string) | Panic

  /** ValidateConfig: five fields must be set; the database name is not among them. */
  function ValidateConfig(c: DatabaseConfig): (r: Option<DbError>)
    ensures r == None <==>
      |c.address| != 0 && |c.driver| != 0 && c.template.Some?
      && |c.credName| != 0 && |c.credPassword| != 0
    ensures r != None ==> r == Some(ErrBadConfig)
  {
    var valid := |c.address| != 0 && |c.driver| != 0 && c.template != None
      && |c.credName| != 0 && |c.credPassword| != 0;
    if !valid then Some(ErrBadConfig) else None
  }

  /** The database name plays no part in validation. */
  lemma NameNotChecked(c: DatabaseConfig, n: string)
    ensures ValidateConfig(c.(name := n)) == ValidateConfig(c)
  {
  }

  datatype Stmt = Stmt(query: string)

  /** Database; `connected` says whether the *sql.DB pointer `db` is non-nil. */
  class Database {
    var config: DatabaseConfig
    var connString: string
    var prepStmts: map<string, Stmt>
    var open: bool
    var connected: bool

    /** new(Database) with the configuration and the rendered connection string set. */
    constructor (c: DatabaseConfig, cs: string)
      ensures config == c && connString == cs
      ensures prepStmts == map[] && !open && !connected
    {
      config := c;
      connString := cs;
      prepStmts := map[];
      open := false;
      connected := false;
    }

    /**
      Open: sql.Open's result replaces the connection (nil when it fails); on success the
      database is marked open with an empty statement cache, on failure the flags stay.
    */
    method Open(openErr: Option<string>) returns (err: Option<DbError>)
      modifies this
      ensures connected == openErr.None?
      ensures openErr.Some? ==> err == Some(Failed(openErr.value)) && open == old(open) && prepStmts == old(prepStmts)
      ensures openErr.None? ==> err == None && open && prepStmts == map[]
      ensures config == old(config) && connString == old(connString)
    {
      connected := openErr.None?;
      if openErr.Some? {
        return Some(Failed(openErr.value));
      }
      open := true;
      prepStmts := map[];
      return None;
    }

    /**
      Close: closing a nil connection panics; a failing close returns its error and leaves the
      flag; a successful close clears it.
    */
    method Close(closeErr: Option<string>) returns (err: Option<DbError>)
      modifies this
      ensures !old(connected) ==> err == Some(Panic) && open == old(open)
      ensures old(connected) && closeErr.Some? ==> err == Some(Failed(closeErr.value)) && open == old(open)
      ensures old(connected) && closeErr.None? ==> err == None && !open
      ensures connected == old(connected) && prepStmts == old(prepStmts)
      ensures config == old(config) && connString == old(connString)
    {
      if !connected {
        return Some(Panic);
      }
      if closeErr.Some? {
        return Some(Failed(closeErr.value));
      }
      open := false;
      return None;
    }
  }

  /**
    NewDatabase: an invalid configuration gives ErrBadConfig and no database; a failing
    template gives its error and no database; otherwise a closed database holding the
    configuration and the rendered connection string.
  */
  method NewDatabase(c: DatabaseConfig, name: string) returns (db: Database?, err: Option<DbError>)
    ensures ValidateConfig(c).Some? ==> db == null && err == Some(ErrBadConfig)
    ensures ValidateConfig(c).None? && c.template.value.rendered.Failure? ==>
      db == null && err == Some(Failed(c.template.value.rendered.error))
    ensures ValidateConfig(c).None? && c.template.value.rendered.Success? ==>
      && err == None && db != null && fresh(db)
      && db.config == c && db.connString == c.template.value.rendered.value
      && !db.open && !db.connected && db.prepStmts == map[]
  {
    var verr := ValidateConfig(c);
    if verr.Some? {
      return null, verr;
    }
    match c.template.value.rendered
    case Failure(e) =>
      return null, Some(Failed(e));
    case Success(cs) =>
      db := new Database(c, cs);
      return db, None;
  }

  // ---------------------------------------------------------------- the *DB helpers

  /** The DB wrapper; `connected` says whether the embedded *sql.DB is non-nil. */
  datatype Conn = Conn(connected: bool, driver: string, connString: string)

  /** QueryRow: no connection gives ErrNoConnection; otherwise the scanner's outcome. */
  function QueryRow<T>(db: Conn, scanned: Result<T, string>): (r: Result<T, DbError>)
    ensures !db.connected ==> r == Failure(ErrNoConnection)
    ensures db.connected ==> (r.Success? <==> scanned.Success?)
    ensures db.connected && r.Success? ==> r.value == scanned.value
    ensures db.connected && r.Failure? ==> r.error == Failed(scanned.error)
  {
    if !db.connected then Failure(ErrNoConnection)
    else match scanned
      case Success(v) => Success(v)
      case Failure(e) => Failure(Failed(e))
  }

  /** The first failing scan, if any. */
  function FirstScanError<T>(scans: seq<Result<T, string>>): (r: Option<string>)
    ensures r.None? <==> forall i :: 0 <= i < |scans| ==> scans[i].Success?
  {
    if scans == [] then None
    else if scans[0].Failure? then Some(scans[0].error)
    else FirstScanError(scans[1..])
  }

  /** The scanned values, in row order. */
  function Values<T>(scans: seq<Result<T, string>>): (vs: seq<T>)
    requires forall i :: 0 <= i < |scans| ==> scans[i].Success?
    ensures |vs| == |scans|
    ensures forall i :: 0 <= i < |scans| ==> scans[i] == Success(vs[i])
  {
    if scans == [] then [] else [scans[0].value] + Values(scans[1..])
  }

  /**
    What QueryRows returns for a query whose scanner yields `scans` row by row: all values in
    row order, or the first failure, wrapped with its stage.
  */
  function QueryRowsSpec<T>(db: Conn, queryErr: Option<string>, scans: seq<Result<T, string>>,
                            iterErr: Option<string>): Result<seq<T>, DbError>
  {
    if !db.connected then Failure(ErrNoConnection)
    else if queryErr.Some? then Failure(Failed("query execution failed: " + queryErr.value))
    else match FirstScanError(scans)
      case Some(e) => Failure(Failed("row scan failed: " + e))
      case None =>
        if iterErr.Some? then Failure(Failed("error iterating rows: " + iterErr.value))
        else Success(Values(scans))
  }

  /** A scan error anywhere discards every row scanned before it. */
  lemma ScanErrorDiscards<T>(db: Conn, scans: seq<Result<T, string>>, iterErr: Option<string>, k: nat)
    requires db.connected && k < |scans| && scans[k].Failure?
    requires forall j :: 0 <= j < k ==> scans[j].Success?
    ensures QueryRowsSpec(db, None, scans, iterErr) == Failure(Failed("row scan failed: " + scans[k].error))
  {
    FirstScanErrorAt(scans, k);
  }

  lemma {:induction false} FirstScanErrorAt<T>(scans: seq<Result<T, string>>, k: nat)
    requires k < |scans| && scans[k].Failure?
    requires forall j :: 0 <= j < k ==> scans[j].Success?
    ensures FirstScanError(scans) == Some(scans[k].error)
  {
    if k > 0 {
      FirstScanErrorAt(scans[1..], k - 1);
    }
  }

  /** QueryRows. */
  method QueryRows<T>(db: Conn, queryErr: Option<string>, scans: seq<Result<T, string>>,
                      iterErr: Option<string>) returns (r: Result<seq<T>, DbError>)
    ensures r == QueryRowsSpec(db, queryErr, scans, iterErr)
  {
    if !db.connected {
      return Failure(ErrNoConnection);
    }
    if queryErr.Some? {
      return Failure(Failed("query execution failed: " + queryErr.value));
    }
    var results: seq<T> := [];
    var i := 0;
    while i < |scans|
      invariant 0 <= i <= |scans|
      invariant forall j :: 0 <= j < i ==> scans[j].Success?
      invariant FirstScanError(scans) == FirstScanError(scans[i..])
      invariant results == Values(scans[..i])
    {
      assert scans[i..][1..] == scans[i + 1..];
      if scans[i].Failure? {
        return Failure(Failed("row scan failed: " + scans[i].error));
      }
      assert scans[..i + 1] == scans[..i] + [scans[i]];
      ValuesAppend(scans[..i], [scans[i]]);
      results := results + [scans[i].value];
      i := i + 1;
    }
    if iterErr.Some? {
      return Failure(Failed("error iterating rows: " + iterErr.value));
    }
    assert scans[..|scans|] == scans;
    return Success(results);
  }

  lemma {:induction false} ValuesAppend<T>(a: seq<Result<T, string>>, b: seq<Result<T, string>>)
    requires forall i :: 0 <= i < |a| ==> a[i].Success?
    requires forall i :: 0 <= i < |b| ==> b[i].Success?
    ensures forall i :: 0 <= i < |a + b| ==> (a + b)[i].Success?
    ensures Values(a + b) == Values(a) + Values(b)
    decreases |a|
  {
    if a != [] {
      assert (a + b)[1..] == a[1..] + b;
      ValuesAppend(a[1..], b);
    }
  }

  /** Exec: no connection gives ErrNoConnection; a failing exec is wrapped. */
  function Exec<R>(db: Conn, executed: Result<R, string>): (r: Result<R, DbError>)
    ensures !db.connected ==> r == Failure(ErrNoConnection)
    ensures db.connected && executed.Success? ==> r == Success(executed.value)
    ensures db.connected && executed.Failure? ==> r == Failure(Failed("exec failed: " + executed.error))
  {
    if !db.connected then Failure(ErrNoConnection)
    else match executed
      case Success(v) => Success(v)
      case Failure(e) => Failure(Failed("exec failed: " + e))
  }

  /** Health: no connection gives ErrNoConnection; otherwise the ping's outcome. */
  function Health(db: Conn, pingErr: Option<string>): (r: Option<DbError>)
    ensures !db.connected ==> r == Some(ErrNoConnection)
    ensures db.connected ==> (r == None <==> pingErr == None)
    ensures db.connected && pingErr.Some? ==> r == Some(Failed(pingErr.value))
  {
    if !db.connected then Some(ErrNoConnection)
    else if pingErr.Some? then Some(Failed(pingErr.value))
    else None
  }

  /** The driver calls Transaction makes, in order. */
  datatype TxCall = BeginTx | RunFn | Rollback | Commit

  /**
    Transaction: begin, run fn, then roll back when fn failed and commit only when it
    succeeded. The fn error is returned as is, or combined with a failing rollback's error.
  */
  method Transaction(db: Conn, beginErr: Option<string>, fnErr: Option<string>,
                     rbErr: Option<string>, commitErr: Option<string>)
      returns (err: Option<DbError>, calls: seq<TxCall>)
    ensures !db.connected ==> err == Some(ErrNoConnection) && calls == []
    ensures db.connected && beginErr.Some? ==>
      err == Some(Failed("failed to begin transaction: " + beginErr.value)) && calls == [BeginTx]
    ensures db.connected && beginErr.None? && fnErr.Some? ==>
      && calls == [BeginTx, RunFn, Rollback]
      && err == (if rbErr.Some? then Some(Failed("error: " + fnErr.value + ", rollback error: " + rbErr.value))
                 else Some(Failed(fnErr.value)))
    ensures db.connected && beginErr.None? && fnErr.None? ==>
      && calls == [BeginTx, RunFn, Commit]
      && err == (if commitErr.Some? then Some(Failed("failed to commit transaction: " + commitErr.value)) else None)
    ensures Commit in calls <==> db.connected && beginErr.None? && fnErr.None?
    ensures Rollback in calls <==> db.connected && beginErr.None? && fnErr.Some?
  {
    calls := [];
    if !db.connected {
      return Some(ErrNoConnection), calls;
    }
    calls := calls + [BeginTx];
    if beginErr.Some? {
      return Some(Failed("failed to begin transaction: " + beginErr.value)), calls;
    }
    calls := calls + [RunFn];
    if fnErr.Some? {
      calls := calls + [Rollback];
      if rbErr.Some? {
        return Some(Failed("error: " + fnErr.value + ", rollback error: " + rbErr.value)), calls;
      }
      return Some(Failed(fnErr.value)), calls;
    }
    calls := calls + [Commit];
    if commitErr.Some? {
      return Some(Failed("failed to commit transaction: " + commitErr.value)), calls;
    }
    return None, calls;
  }
}
