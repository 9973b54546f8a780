/**
  The statement-caching database of pkg/datamanagement/db. Its configuration has the same
  shape as pkg/db's; its NewDatabase never hands out a database; its Query and Execute open
  the database, prepare through the statement cache under the query's type name, and close
  the database again by two deferred calls.

  Driver calls and template execution are abstract: their outcomes are parameters.
*/
module DataDb {
  import opened Wrappers
  import Db

  /** ErrBadConfig, "no compatible source found", any other error by its text, and a panic. */
  datatype DmError = ErrBadConfig | NoCompatibleSource | Failed(msg: string) | Panic

  /**
    ValidateConfig: the same five-field check as pkg/db, reported with this package's
    ErrBadConfig, so both packages accept exactly the same configurations.
  */
  function ValidateConfig(c: Db.DatabaseConfig): (r: Option<DmError>)
    ensures r == None <==> Db.ValidateConfig(c) == None
    ensures r == None <==>
      |c.address| != 0 && |c.driver| != 0 && c.template.Some?
      && |c.credName| != 0 && |c.credPassword| != 0
    ensures r != None ==> r == Some(ErrBadConfig)
  {
    if Db.ValidateConfig(c).Some? then Some(ErrBadConfig) else None
  }

  /**
    NewDatabase: ErrBadConfig for an invalid configuration, the template's error when it
    fails, and "no compatible source found" otherwise; never a database.
  */
  method NewDatabase(c: Db.DatabaseConfig, name: string) returns (db: Database?, err: DmError)
    ensures db == null
    ensures ValidateConfig(c).Some? ==> err == ErrBadConfig
    ensures ValidateConfig(c).None? && c.template.value.rendered.Failure? ==>
      err == Failed(c.template.value.rendered.error)
    ensures ValidateConfig(c).None? && c.template.value.rendered.Success? ==> err == NoCompatibleSource
  {
    if ValidateConfig(c).Some? {
      return null, ErrBadConfig;
    }
    match c.template.value.rendered
    case Failure(e) =>
      return null, Failed(e);
    case Success(cs) =>
      return null, NoCompatibleSource;
  }

  /** A query object: the name of its Go type and the statement text its Construct returns. */
  datatype QueryDesc = QueryDesc(typeName: string, text: string)

  /** Database; `connected` says whether the *sql.DB pointer `db` is non-nil. */
  class Database {
    var config: Db.DatabaseConfig
    var connString: string
    var prepStmts: map<string, Db.Stmt>
    var open: bool
    var connected: bool

    /** A Database value with the configuration and connection string set. */
    constructor (c: Db.DatabaseConfig, cs: string)
      ensures config == c && connString == cs
      ensures prepStmts == map[] && !open && !connected
    {
      config := c;
      connString := cs;
      prepStmts := map[];
      open := false;
      connected := false;
    }

    /** Open: as in pkg/db, a success replaces the statement cache with an empty map. */
    method Open(openErr: Option<string>) returns (err: Option<DmError>)
      modifies this
      ensures connected == openErr.None?
      ensures openErr.Some? ==> err == Some(Failed(openErr.value)) && open == old(open) && prepStmts == old(prepStmts)
      ensures openErr.None? ==> err == None && open && prepStmts == map[]
      ensures config == old(config) && connString == old(connString)
    {
      connected := openErr.None?;
      if openErr.Some? {
        return Some(Failed(openErr.value));
      }
      open := true;
      prepStmts := map[];
      return None;
    }

    /** Close: a nil connection panics; a failing close leaves the flag; a success clears it. */
    method Close(closeErr: Option<string>) returns (err: Option<DmError>)
      modifies this
      ensures !old(connected) ==> err == Some(Panic) && open == old(open)
      ensures old(connected) && closeErr.Some? ==> err == Some(Failed(closeErr.value)) && open == old(open)
      ensures old(connected) && closeErr.None? ==> err == None && !open
      ensures connected == old(connected) && prepStmts == old(prepStmts)
      ensures config == old(config) && connString == old(connString)
    {
      if !connected {
        return Some(Panic);
      }
      if closeErr.Some? {
        return Some(Failed(closeErr.value));
      }
      open := false;
      return None;
    }

    /**
      The common start of Query and Execute: open, then look the statement up in the cache,
      preparing and storing it under the type name on a miss. Returns the error to report
      (None to go on) and whether a statement was prepared.
    */
    method Prepare(q: QueryDesc, openErr: Option<string>, prepareErr: Option<string>)
        returns (err: Option<DmError>, prepared: bool)
      modifies this
      ensures connected == openErr.None?
      ensures openErr.Some? ==> err == Some(Failed(openErr.value)) && !prepared && prepStmts == old(prepStmts)
      ensures openErr.None? ==> open && prepared
      ensures openErr.None? && prepareErr.Some? ==> err == Some(Failed(prepareErr.value)) && prepStmts == map[]
      ensures openErr.None? && prepareErr.None? ==> err == None && prepStmts == map[q.typeName := Db.Stmt(q.text)]
      ensures config == old(config) && connString == old(connString)
    {
      prepared := false;
      err := Open(openErr);
      if err.Some? {
        return;
      }
      if q.typeName !in prepStmts {
        prepared := true;
        if prepareErr.Some? {
          return Some(Failed(prepareErr.value)), prepared;
        }
        prepStmts := prepStmts[q.typeName := Db.Stmt(q.text)];
      }
    }

    /**
      The two deferred Close calls. The first may fail; the second always succeeds on a
      connection that was opened, because closing a closed *sql.DB returns nil. Either call
      panics on a nil connection.
    */
    method DeferredCloses(closeErr: Option<string>) returns (panicked: bool)
      modifies this
      ensures panicked <==> !old(connected)
      ensures !panicked ==> !open
      ensures connected == old(connected) && prepStmts == old(prepStmts)
      ensures config == old(config) && connString == old(connString)
    {
      var e1 := Close(closeErr);
      if e1 == Some(Panic) {
        return true;
      }
      var e2 := Close(None);
      return false;
    }

    /**
      Query: an Open failure ends in the panic of the deferred Close on the nil connection; a
      prepare error and a query error are returned as they are. The statement is prepared on
      every call, stored under the type name, and the database is left closed.
    */
    method Query(q: QueryDesc, openErr: Option<string>, prepareErr: Option<string>,
                 queryErr: Option<string>, closeErr: Option<string>)
        returns (res: Result<QueryDesc, DmError>, prepared: bool)
      modifies this
      ensures openErr.Some? ==> res == Failure(Panic) && !connected && prepStmts == old(prepStmts)
      ensures openErr.None? ==> prepared && !open && connected
      ensures openErr.None? && prepareErr.Some? ==> res == Failure(Failed(prepareErr.value)) && prepStmts == map[]
      ensures openErr.None? && prepareErr.None? ==> prepStmts == map[q.typeName := Db.Stmt(q.text)]
      ensures openErr.None? && prepareErr.None? && queryErr.Some? ==> res == Failure(Failed(queryErr.value))
      ensures openErr.None? && prepareErr.None? && queryErr.None? ==> res == Success(q)
    {
      var err;
      err, prepared := Prepare(q, openErr, prepareErr);
      if err.Some? {
        res := Failure(err.value);
      } else if queryErr.Some? {
        res := Failure(Failed(queryErr.value));
      } else {
        res := Success(q);
      }
      var panicked := DeferredCloses(closeErr);
      if panicked {
        res := Failure(Panic);
      }
    }

    /**
      Execute: as Query, except that a prepare error is prefixed with "statement construction
      error:" and the statement's Exec outcome is returned.
    */
    method Execute<R>(q: QueryDesc, openErr: Option<string>, prepareErr: Option<string>,
                      executed: Result<R, string>, closeErr: Option<string>)
        returns (res: Result<R, DmError>, prepared: bool)
      modifies this
      ensures openErr.Some? ==> res == Failure(Panic) && !connected && prepStmts == old(prepStmts)
      ensures openErr.None? ==> prepared && !open && connected
      ensures openErr.None? && prepareErr.Some? ==>
        res == Failure(Failed("statement construction error:" + prepareErr.value)) && prepStmts == map[]
      ensures openErr.None? && prepareErr.None? ==> prepStmts == map[q.typeName := Db.Stmt(q.text)]
      ensures openErr.None? && prepareErr.None? && executed.Failure? ==> res == Failure(Failed(executed.error))
      ensures openErr.None? && prepareErr.None? && executed.Success? ==> res == Success(executed.value)
    {
      var err;
      err, prepared := Prepare(q, openErr, prepareErr);
      if err.Some? {
        if openErr.None? {
          res := Failure(Failed("statement construction error:" + prepareErr.value));
        } else {
          res := Failure(err.value);
        }
      } else {
        match executed
        case Failure(e) => res := Failure(Failed(e));
        case Success(v) => res := Success(v);
      }
      var panicked := DeferredCloses(closeErr);
      if panicked {
        res := Failure(Panic);
      }
    }
  }

  /** Two queries of the same type in a row both prepare: the cache never saves a prepare. */
  method QueryTwice(db: Database, q: QueryDesc, closeErr: Option<string>)
      returns (firstPrepared: bool, secondPrepared: bool)
    modifies db
    ensures firstPrepared && secondPrepared
    ensures db.prepStmts == map[q.typeName := Db.Stmt(q.text)] && !db.open
  {
    var r1, r2;
    r1, firstPrepared := db.Query(q, None, None, None, closeErr);
    r2, secondPrepared := db.Query(q, None, None, None, closeErr);
  }
}
