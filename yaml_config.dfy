/**
  The validating configuration loader of pkg/yamlConfig: the configuration records, the
  validation chain service → sources → credentials, the level mapping, and the manager that
  replaces its current configuration only when a load succeeds end to end.

  YAML decoding is abstract: the file system maps a path to the document it holds, either a
  decoded configuration or a malformed one.
*/
module YamlConfig {
  import opened Wrappers
  import opened Ascii
  import opened Levels
  import opened Paths

  /** The port a service gets when its configuration gives none. */
  const DefaultPort: int := 8080

  datatype Service = Service(name: string, purpose: string, port: int)
  datatype Credentials = Credentials(uname: string, pwd: string)
  /** A source; `creds` is None when the YAML has no auth block (a nil *credentials). */
  datatype Source = Source(nam: string, typ: string, enbl: bool, loc: string, creds: Option<Credentials>)
  datatype LogConfig = LogConfig(level: string, folder: string, maxSize: int)
  datatype BaseConfig = BaseConfig(svc: Service, srcs: seq<Source>, log: LogConfig)

  datatype CredentialsError = UsernameRequired | PasswordRequired
  datatype SourceError = NameRequired | LocationRequired | CredentialsFailed(cause: CredentialsError)
  datatype ValidateError = ServiceRequired | SourceFailed(source: string, cause: SourceError)
  datatype LoadError = ReadFailed | ParseFailed | InvalidConfiguration(cause: ValidateError)

  // ---------------------------------------------------------------- error texts

  function CredentialsMessage(e: CredentialsError): string
  {
    match e
    case UsernameRequired => "username is required when auth is specified"
    case PasswordRequired => "password is required when auth is specified"
  }

  function SourceMessage(e: SourceError): string
  {
    match e
    case NameRequired => "name is required"
    case LocationRequired => "location is required"
    case CredentialsFailed(c) => "credentials error: " + CredentialsMessage(c)
  }

  /** The text of a validation error: a source's error is prefixed with that source's name. */
  function Message(e: ValidateError): (m: string)
    ensures e.SourceFailed? ==>
      var p := "source " + e.source + ": ";
      |p| <= |m| && m[..|p|] == p && m[|p|..] == SourceMessage(e.cause)
  {
    match e
    case ServiceRequired => "service configuration is required"
    case SourceFailed(n, c) => "source " + n + ": " + SourceMessage(c)
  }

  // ---------------------------------------------------------------- the validators

  /** credentials.Validate: username first, then password. */
  function ValidateCredentials(c: Credentials): (r: Option<CredentialsError>)
    ensures r == None <==> c.uname != "" && c.pwd != ""
    ensures r == Some(UsernameRequired) <==> c.uname == ""
    ensures r == Some(PasswordRequired) <==> c.uname != "" && c.pwd == ""
  {
    if c.uname == "" then Some(UsernameRequired)
    else if c.pwd == "" then Some(PasswordRequired)
    else None
  }

  /** source.Validate: name, then location, then the credentials only when present. */
  function ValidateSource(s: Source): (r: Option<SourceError>)
    ensures r == Some(NameRequired) <==> s.nam == ""
    ensures r == Some(LocationRequired) <==> s.nam != "" && s.loc == ""
    ensures (r.Some? && r.value.CredentialsFailed?) <==>
      s.nam != "" && s.loc != "" && s.creds.Some? && ValidateCredentials(s.creds.value).Some?
    ensures r.Some? && r.value.CredentialsFailed? ==> Some(r.value.cause) == ValidateCredentials(s.creds.value)
    ensures r == None <==>
      s.nam != "" && s.loc != "" && (s.creds == None || ValidateCredentials(s.creds.value) == None)
  {
    if s.nam == "" then Some(NameRequired)
    else if s.loc == "" then Some(LocationRequired)
    else if s.creds.Some? && ValidateCredentials(s.creds.value).Some? then
      Some(CredentialsFailed(ValidateCredentials(s.creds.value).value))
    else None
  }

  /** source.Auth: the configured credentials, or empty ones when there is no auth block. */
  function Auth(s: Source): (c: Credentials)
    ensures s.creds.Some? ==> c == s.creds.value
    ensures s.creds.None? ==> c.uname == "" && c.pwd == ""
  {
    match s.creds
    case Some(cr) => cr
    case None => Credentials("", "")
  }

  /** logConfig.MinLevel: the recognised names case-insensitively, Info for anything else. */
  function MinLevel(lc: LogConfig): (l: Level)
    ensures l == Debug <==> EqualFold(lc.level, "debug")
    ensures l == Warn <==> EqualFold(lc.level, "warn") || EqualFold(lc.level, "warning")
    ensures l == Error <==> EqualFold(lc.level, "error")
    ensures l == Info <==>
      !EqualFold(lc.level, "debug") && !EqualFold(lc.level, "warn")
      && !EqualFold(lc.level, "warning") && !EqualFold(lc.level, "error")
  {
    LevelOfSpec(lc.level);
    LevelOf(lc.level)
  }

  /** The error of the first source that fails, reported under that source's name. */
  function FirstSourceError(srcs: seq<Source>): Option<ValidateError>
  {
    if srcs == [] then None
    else match ValidateSource(srcs[0])
      case Some(e) => Some(SourceFailed(srcs[0].nam, e))
      case None => FirstSourceError(srcs[1..])
  }

  /** If source k is the first to fail, its error is the one reported. */
  lemma {:induction false} FirstSourceErrorAt(srcs: seq<Source>, k: nat)
    requires k < |srcs| && ValidateSource(srcs[k]).Some?
    requires forall j :: 0 <= j < k ==> ValidateSource(srcs[j]) == None
    ensures FirstSourceError(srcs) == Some(SourceFailed(srcs[k].nam, ValidateSource(srcs[k]).value))
  {
    if k > 0 {
      FirstSourceErrorAt(srcs[1..], k - 1);
    }
  }

  /** No source error is reported exactly when every source validates. */
  lemma {:induction false} FirstSourceErrorNone(srcs: seq<Source>)
    ensures FirstSourceError(srcs) == None <==> forall i :: 0 <= i < |srcs| ==> ValidateSource(srcs[i]) == None
  {
    if srcs != [] {
      FirstSourceErrorNone(srcs[1..]);
      assert forall i :: 1 <= i < |srcs| ==> srcs[i] == srcs[1..][i - 1];
    }
  }

  /** BaseConfig.Validate, as a value: the updated configuration and the error. */
  function ValidateSpec(c: BaseConfig): (BaseConfig, Option<ValidateError>)
  {
    if c.svc.name == "" then (c, Some(ServiceRequired))
    else
      var port := if c.svc.port == 0 then DefaultPort else c.svc.port;
      (c.(svc := c.svc.(port := port)), FirstSourceError(c.srcs))
  }

  /**
    An empty service name fails before anything else and leaves the port as it was; otherwise
    a zero port becomes 8080, any other port stays, nothing else changes, and validation
    succeeds exactly when every source validates.
  */
  lemma ValidateOutcome(c: BaseConfig)
    ensures c.svc.name == "" ==> ValidateSpec(c) == (c, Some(ServiceRequired))
    ensures c.svc.name != "" ==>
      var d := ValidateSpec(c).0;
      && d.svc.port == (if c.svc.port == 0 then 8080 else c.svc.port)
      && d.svc.name == c.svc.name && d.svc.purpose == c.svc.purpose
      && d.srcs == c.srcs && d.log == c.log
    ensures ValidateSpec(c).1 == None <==>
      c.svc.name != "" && forall i :: 0 <= i < |c.srcs| ==> ValidateSource(c.srcs[i]) == None
  {
    FirstSourceErrorNone(c.srcs);
  }

  /** A configuration that validated is a fixed point of validation. */
  lemma ValidateIdempotent(c: BaseConfig)
    requires ValidateSpec(c).1 == None
    ensures ValidateSpec(ValidateSpec(c).0) == ValidateSpec(c)
    ensures ValidateSpec(c).0.svc.port != 0
  {
  }

  // ---------------------------------------------------------------- the configuration object

  /** *BaseConfig: Validate updates the service port in place. */
  class Base {
    var svc: Service
    var srcs: seq<Source>
    var log: LogConfig

    function Value(): BaseConfig
      reads this
    {
      BaseConfig(svc, srcs, log)
    }

    constructor (c: BaseConfig)
      ensures Value() == c
    {
      svc := c.svc;
      srcs := c.srcs;
      log := c.log;
    }

    /** BaseConfig.Validate. */
    method Validate() returns (err: Option<ValidateError>)
      modifies this
      ensures (Value(), err) == ValidateSpec(old(Value()))
    {
      if svc.name == "" {
        return Some(ServiceRequired);
      }
      if svc.port == 0 {
        svc := svc.(port := DefaultPort);
      }
      var i := 0;
      while i < |srcs|
        invariant 0 <= i <= |srcs|
        invariant FirstSourceError(srcs) == FirstSourceError(srcs[i..])
        invariant Value() == ValidateSpec(old(Value())).0
      {
        var s := srcs[i];
        var e := ValidateSource(s);
        assert srcs[i..][1..] == srcs[i + 1..];
        if e.Some? {
          return Some(SourceFailed(s.nam, e.value));
        }
        i := i + 1;
      }
      return None;
    }

    /** Sources: the sources as interface values, same length and order. */
    method Sources() returns (result: seq<Source>)
      ensures |result| == |srcs|
      ensures forall i :: 0 <= i < |srcs| ==> result[i] == srcs[i]
    {
      var a := new Source[|srcs|](_ => Source("", "", false, "", None));
      var i := 0;
      while i < |srcs|
        invariant 0 <= i <= |srcs|
        invariant forall j :: 0 <= j < i ==> a[j] == srcs[j]
      {
        a[i] := srcs[i];
        i := i + 1;
      }
      result := a[..];
    }
  }

  // ---------------------------------------------------------------- the manager

  /** What a path of the file system holds, as the YAML decoder sees it. */
  datatype Doc = Parsed(config: BaseConfig) | Malformed

  /** The package-level manager; `current` is nil until a load succeeds. */
  class ConfigManager {
    var current: Base?

    constructor ()
      ensures current == null
    {
      current := null;
    }

    /**
      Load(override): reads the resolved path, decodes and validates a fresh configuration,
      and installs it only when all three steps succeed.
    */
    method Load(override: string, root: string, files: map<string, Doc>) returns (err: Option<LoadError>)
      modifies this
      ensures var fp := ConfigPath(override, root);
        && (fp !in files ==> err == Some(ReadFailed) && current == old(current))
        && (fp in files && files[fp].Malformed? ==> err == Some(ParseFailed) && current == old(current))
        && (fp in files && files[fp].Parsed? ==>
              var (c, verr) := ValidateSpec(files[fp].config);
              && (verr.Some? ==> err == Some(InvalidConfiguration(verr.value)) && current == old(current))
              && (verr.None? ==> err == None && current != null && fresh(current) && current.Value() == c))
    {
      var fp := ConfigPath(override, root);
      if fp !in files {
        return Some(ReadFailed);
      }
      match files[fp]
      case Malformed =>
        return Some(ParseFailed);
      case Parsed(parsed) =>
        var config := new Base(parsed);
        var verr := config.Validate();
        if verr.Some? {
          return Some(InvalidConfiguration(verr.value));
        }
        current := config;
        return None;
    }

    /** Get: the current configuration; None stands for the panic before any successful load. */
    method Get() returns (cfg: Option<Base>)
      ensures cfg.None? <==> current == null
      ensures cfg.Some? ==> cfg.value == current
    {
      if current == null {
        return None;
      }
      return Some(current);
    }
  }
}
