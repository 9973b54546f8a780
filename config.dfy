/**
  The configuration loader of pkg/config: the configuration records, the views over the
  source lists, the level mapping and getters of the logging block, and the package-level
  `baseC` that Load resets before it reads and Provide hands out.

  YAML decoding is abstract: the file system maps a path to the document it holds.
*/
module Config {
  import opened Wrappers
  import opened Ascii
  import opened Levels
  import opened Paths

  datatype Service = Service(name: string, purpose: string, port: int)
  datatype Credentials = Credentials(uname: string, pwd: string)
  datatype DbSource = DbSource(nam: string, typ: string, enbl: bool, loc: string, rfrsh: int, creds: Credentials)
  datatype FtpSource = FtpSource(nam: string, typ: seq<string>, enbl: bool, loc: string)
  datatype HttpSource = HttpSource(nam: string, typ: seq<string>, enbl: bool, loc: string)
  datatype DataIO = DataIO(db: seq<DbSource>, ftp: seq<FtpSource>, http: seq<HttpSource>)
  datatype LogConfig = LogConfig(level: string, folder: string, maxSize: int)
  /** BaseConfig; `svc` is None for a nil *service. */
  datatype BaseConfig = BaseConfig(svc: Option<Service>, src: DataIO, dstns: DataIO, log: LogConfig)

  /** &BaseConfig{}: the zero configuration. */
  const EmptyConfig: BaseConfig :=
    BaseConfig(None, DataIO([], [], []), DataIO([], [], []), LogConfig("", "", 0))

  // ---------------------------------------------------------------- dataIO views

  /** dataIO.Databases: the database sources as interface values, same length and order. */
  method Databases(s: DataIO) returns (dbs: seq<DbSource>)
    ensures |dbs| == |s.db|
    ensures forall i :: 0 <= i < |s.db| ==> dbs[i] == s.db[i]
  {
    var a := new DbSource[|s.db|](_ => DbSource("", "", false, "", 0, Credentials("", "")));
    var i := 0;
    while i < |s.db|
      invariant 0 <= i <= |s.db|
      invariant forall j :: 0 <= j < i ==> a[j] == s.db[j]
    {
      a[i] := s.db[i];
      i := i + 1;
    }
    dbs := a[..];
  }

  /** dataIO.FTPs: the FTP sources, same length and order. */
  method FTPs(s: DataIO) returns (ftps: seq<FtpSource>)
    ensures |ftps| == |s.ftp|
    ensures forall i :: 0 <= i < |s.ftp| ==> ftps[i] == s.ftp[i]
  {
    var a := new FtpSource[|s.ftp|](_ => FtpSource("", [], false, ""));
    var i := 0;
    while i < |s.ftp|
      invariant 0 <= i <= |s.ftp|
      invariant forall j :: 0 <= j < i ==> a[j] == s.ftp[j]
    {
      a[i] := s.ftp[i];
      i := i + 1;
    }
    ftps := a[..];
  }

  /** dataIO.HTTPs: the HTTP sources, same length and order. */
  method HTTPs(s: DataIO) returns (https: seq<HttpSource>)
    ensures |https| == |s.http|
    ensures forall i :: 0 <= i < |s.http| ==> https[i] == s.http[i]
  {
    var a := new HttpSource[|s.http|](_ => HttpSource("", [], false, ""));
    var i := 0;
    while i < |s.http|
      invariant 0 <= i <= |s.http|
      invariant forall j :: 0 <= j < i ==> a[j] == s.http[j]
    {
      a[i] := s.http[i];
      i := i + 1;
    }
    https := a[..];
  }

  // ---------------------------------------------------------------- the logging block

  /** logConfig.MinLevel: the recognised names case-insensitively, Info for anything else. */
  function MinLevel(lc: LogConfig): (l: Level)
    ensures l == Debug <==> EqualFold(lc.level, "debug")
    ensures l == Warn <==> EqualFold(lc.level, "warn") || EqualFold(lc.level, "warning")
    ensures l == Error <==> EqualFold(lc.level, "error")
    ensures l == Info <==>
      !EqualFold(lc.level, "debug") && !EqualFold(lc.level, "warn")
      && !EqualFold(lc.level, "warning") && !EqualFold(lc.level, "error")
  {
    LevelOfSpec(lc.level);
    LevelOf(lc.level)
  }

  /** logConfig.Dir: the configured folder, unchanged. */
  function Dir(lc: LogConfig): (d: string)
    ensures d == lc.folder
  {
    lc.folder
  }

  /** logConfig.MaxFileSize: the configured size, unchanged. */
  function MaxFileSize(lc: LogConfig): (n: int)
    ensures n == lc.maxSize
  {
    lc.maxSize
  }

  // ---------------------------------------------------------------- Load and Provide

  /** What a path of the file system holds, as the YAML decoder sees it. */
  datatype Doc = Parsed(config: BaseConfig) | Malformed

  datatype LoadError = ReadFailed | ParseFailed

  /** The package variable `baseC`; None is the nil pointer before the first Load. */
  class Global {
    var baseC: Option<BaseConfig>

    constructor ()
      ensures baseC == None
    {
      baseC := None;
    }

    /**
      Load(override): resets `baseC` to the empty configuration first, then reads and decodes
      the resolved path into it. A failed load therefore leaves the empty configuration, never
      the previous one and never nil.
    */
    method Load(override: string, root: string, files: map<string, Doc>) returns (err: Option<LoadError>)
      modifies this
      ensures baseC.Some?
      ensures var fp := ConfigPath(override, root);
        && (fp !in files ==> err == Some(ReadFailed) && baseC == Some(EmptyConfig))
        && (fp in files && files[fp].Malformed? ==> err == Some(ParseFailed) && baseC == Some(EmptyConfig))
        && (fp in files && files[fp].Parsed? ==> err == None && baseC == Some(files[fp].config))
    {
      baseC := Some(EmptyConfig);
      var fp := ConfigPath(override, root);
      if fp !in files {
        return Some(ReadFailed);
      }
      match files[fp]
      case Malformed =>
        return Some(ParseFailed);
      case Parsed(c) =>
        baseC := Some(c);
        return None;
    }

    /** Provide: the loaded configuration; None stands for the panic when Load never ran. */
    method Provide() returns (cfg: Option<BaseConfig>)
      ensures cfg.None? <==> baseC.None?
      ensures cfg.Some? ==> cfg == baseC
    {
      if baseC.None? {
        return None;
      }
      return baseC;
    }
  }

  /** After any Load, successful or not, Provide no longer panics. */
  method LoadThenProvide(g: Global, override: string, root: string, files: map<string, Doc>)
      returns (err: Option<LoadError>, cfg: Option<BaseConfig>)
    modifies g
    ensures cfg.Some?
    ensures err.Some? ==> cfg == Some(EmptyConfig)
  {
    err := g.Load(override, root, files);
    cfg := g.Provide();
  }
}
