/**
  The file filter of pkg/fsops: options that set the pattern, the age limit and the
  directories, and Filter, which globs each directory in turn, joins the matches with their
  directory in place, and keeps either all of them or, with an age limit, those modified
  strictly after now − maxAge.

  The file system is a map from a directory to its entries in name order. Glob matching is
  abstract: a pattern check and a name matcher are given as functions. The clock is the
  parameter `now`; durations and times are integers of one unit.
*/
module FileFilter {
  import opened Wrappers
  import opened Paths

  /** A directory entry: its name, modification time, and whether os.Open succeeds on it. */
  datatype Entry = Entry(name: string, mtime: int, openable: bool)

  /** Each directory's entries, in the name order in which fs.Glob lists them. */
  type Tree = map<string, seq<Entry>>

  /** path.Match's syntax check of a pattern, and whether a pattern matches a name. */
  datatype Glob = Glob(valid: string -> bool, matches: (string, string) -> bool)

  datatype FsError = BadPattern(pattern: string) | OpenFailed(path: string)

  // ---------------------------------------------------------------- one directory

  /** The entries whose names match, in directory order. */
  function Matching(es: seq<Entry>, g: Glob, pattern: string): seq<Entry>
  {
    if es == [] then []
    else (if g.matches(pattern, es[0].name) then [es[0]] else []) + Matching(es[1..], g, pattern)
  }

  lemma {:induction false} MatchingMembers(es: seq<Entry>, g: Glob, pattern: string, e: Entry)
    ensures e in Matching(es, g, pattern) <==> e in es && g.matches(pattern, e.name)
  {
    if es != [] {
      MatchingMembers(es[1..], g, pattern, e);
      assert es == [es[0]] + es[1..];
    }
  }

  /**
    fs.Glob(os.DirFS(d), pattern): a malformed pattern is an error; a directory that does
    not exist has no matches.
  */
  function GlobDir(tree: Tree, g: Glob, d: string, pattern: string): Result<seq<Entry>, FsError>
  {
    if !g.valid(pattern) then Failure(BadPattern(pattern))
    else Success(Matching(if d in tree then tree[d] else [], g, pattern))
  }

  /** A glob of a well-formed pattern lists exactly the directory's matching entries. */
  lemma GlobDirSpec(tree: Tree, g: Glob, d: string, pattern: string, e: Entry)
    ensures GlobDir(tree, g, d, pattern).Failure? <==> !g.valid(pattern)
    ensures GlobDir(tree, g, d, pattern).Success? ==>
      (e in GlobDir(tree, g, d, pattern).value <==> d in tree && e in tree[d] && g.matches(pattern, e.name))
  {
    MatchingMembers(if d in tree then tree[d] else [], g, pattern, e);
  }

  /** The matches joined with their directory. */
  function Joined(d: string, es: seq<Entry>): (ps: seq<string>)
    ensures |ps| == |es|
    ensures forall k :: 0 <= k < |es| ==> ps[k] == Join(d, es[k].name)
  {
    if es == [] then [] else Joined(d, es[..|es| - 1]) + [Join(d, es[|es| - 1].name)]
  }

  /** Whether a file counts as recent: modified strictly after now − maxAge. */
  predicate Recent(e: Entry, maxAge: int, now: int)
  {
    e.mtime > now - maxAge
  }

  /** The age pass over one directory's matches: the first file that cannot be opened aborts. */
  function Aged(d: string, es: seq<Entry>, maxAge: int, now: int): Result<seq<string>, FsError>
  {
    if es == [] then Success([])
    else
      var e := es[|es| - 1];
      match Aged(d, es[..|es| - 1], maxAge, now)
      case Failure(err) => Failure(err)
      case Success(acc) =>
        if !e.openable then Failure(OpenFailed(Join(d, e.name)))
        else Success(acc + if Recent(e, maxAge, now) then [Join(d, e.name)] else [])
  }

  /**
    The age pass succeeds exactly when every match can be opened, and then keeps exactly the
    recent ones.
  */
  lemma {:induction false} AgedSpec(d: string, es: seq<Entry>, maxAge: int, now: int, p: string)
    ensures Aged(d, es, maxAge, now).Success? <==> forall k :: 0 <= k < |es| ==> es[k].openable
    ensures Aged(d, es, maxAge, now).Success? ==>
      (p in Aged(d, es, maxAge, now).value <==>
         exists k :: 0 <= k < |es| && Recent(es[k], maxAge, now) && p == Join(d, es[k].name))
  {
    AgedSucceeds(d, es, maxAge, now);
    if Aged(d, es, maxAge, now).Success? {
      AgedMembers(d, es, maxAge, now, p);
    }
  }

  lemma {:induction false} AgedSucceeds(d: string, es: seq<Entry>, maxAge: int, now: int)
    ensures Aged(d, es, maxAge, now).Success? <==> forall k :: 0 <= k < |es| ==> es[k].openable
  {
    if es != [] {
      var init := es[..|es| - 1];
      AgedSucceeds(d, init, maxAge, now);
      assert forall k :: 0 <= k < |init| ==> init[k] == es[k];
    }
  }

  /** Whether some match at an index below n is recent and has path p. */
  predicate KeptBelow(d: string, es: seq<Entry>, n: int, maxAge: int, now: int, p: string)
  {
    exists k :: 0 <= k < n && k < |es| && Recent(es[k], maxAge, now) && p == Join(d, es[k].name)
  }

  lemma {:induction false} AgedMembers(d: string, es: seq<Entry>, maxAge: int, now: int, p: string)
    requires Aged(d, es, maxAge, now).Success?
    ensures p in Aged(d, es, maxAge, now).value <==>
      exists k :: 0 <= k < |es| && Recent(es[k], maxAge, now) && p == Join(d, es[k].name)
  {
    if es != [] {
      var init := es[..|es| - 1];
      var e := es[|es| - 1];
      AgedMembers(d, init, maxAge, now, p);
      var acc := Aged(d, init, maxAge, now).value;
      var last := if Recent(e, maxAge, now) then [Join(d, e.name)] else [];
      assert Aged(d, es, maxAge, now).value == acc + last;
      assert p in acc <==> KeptBelow(d, es, |init|, maxAge, now, p) by {
        if p in acc {
          var k :| 0 <= k < |init| && Recent(init[k], maxAge, now) && p == Join(d, init[k].name);
          assert es[k] == init[k];
        }
        if KeptBelow(d, es, |init|, maxAge, now, p) {
          var k :| 0 <= k < |init| && k < |es| && Recent(es[k], maxAge, now) && p == Join(d, es[k].name);
          assert init[k] == es[k];
        }
      }
      assert p in last <==> Recent(es[|init|], maxAge, now) && p == Join(d, es[|init|].name);
    }
  }

  /** The first match that cannot be opened is the error reported. */
  lemma {:induction false} AgedFirstFailure(d: string, es: seq<Entry>, maxAge: int, now: int, k: nat)
    requires k < |es| && !es[k].openable
    requires forall j :: 0 <= j < k ==> es[j].openable
    ensures Aged(d, es, maxAge, now) == Failure(OpenFailed(Join(d, es[k].name)))
  {
    var init := es[..|es| - 1];
    if k < |es| - 1 {
      AgedFirstFailure(d, init, maxAge, now, k);
    } else {
      assert Aged(d, init, maxAge, now).Success? by {
        AgedSucceeds(d, init, maxAge, now);
        assert forall j :: 0 <= j < |init| ==> init[j] == es[j];
      }
    }
  }

  /** One directory's contribution: all matches without an age limit, else the age pass. */
  function DirResult(tree: Tree, g: Glob, d: string, pattern: string, maxAge: int, now: int): Result<seq<string>, FsError>
  {
    match GlobDir(tree, g, d, pattern)
    case Failure(err) => Failure(err)
    case Success(es) => if maxAge == 0 then Success(Joined(d, es)) else Aged(d, es, maxAge, now)
  }

  /** Filter, as a value: the directories in order, each appending its contribution. */
  function FilterSpec(tree: Tree, g: Glob, pattern: string, maxAge: int, now: int,
                      start: seq<string>, dirs: seq<string>): Result<seq<string>, FsError>
  {
    if dirs == [] then Success(start)
    else
      match FilterSpec(tree, g, pattern, maxAge, now, start, dirs[..|dirs| - 1])
      case Failure(err) => Failure(err)
      case Success(acc) =>
        match DirResult(tree, g, dirs[|dirs| - 1], pattern, maxAge, now)
        case Failure(err) => Failure(err)
        case Success(ps) => Success(acc + ps)
  }

  /**
    Filter fails exactly when some directory fails; when it succeeds every path it returns
    was already there or comes from one of the directories, and the results of a prefix of
    the directories come first.
  */
  lemma {:induction false} FilterSpecShape(tree: Tree, g: Glob, pattern: string, maxAge: int, now: int,
                                           start: seq<string>, dirs: seq<string>, n: nat)
    requires n <= |dirs|
    ensures FilterSpec(tree, g, pattern, maxAge, now, start, dirs).Success? <==>
      forall i :: 0 <= i < |dirs| ==> DirResult(tree, g, dirs[i], pattern, maxAge, now).Success?
    ensures FilterSpec(tree, g, pattern, maxAge, now, start, dirs).Success? ==>
      var r := FilterSpec(tree, g, pattern, maxAge, now, start, dirs).value;
      var q := FilterSpec(tree, g, pattern, maxAge, now, start, dirs[..n]);
      q.Success? && |q.value| <= |r| && r[..|q.value|] == q.value
    decreases |dirs|
  {
    if dirs != [] {
      var init := dirs[..|dirs| - 1];
      if n == |dirs| {
        assert dirs[..n] == dirs;
        FilterSpecShape(tree, g, pattern, maxAge, now, start, init, 0);
      } else {
        assert dirs[..n] == init[..n];
        FilterSpecShape(tree, g, pattern, maxAge, now, start, init, n);
      }
      assert forall i :: 0 <= i < |init| ==> init[i] == dirs[i];
    } else {
      assert dirs[..n] == dirs;
    }
  }

  /** One more match for the age pass. */
  lemma AgedSnoc(d: string, es: seq<Entry>, j: nat, maxAge: int, now: int)
    requires j < |es|
    ensures Aged(d, es[..j + 1], maxAge, now) ==
      match Aged(d, es[..j], maxAge, now)
      case Failure(err) => Failure(err)
      case Success(acc) =>
        if !es[j].openable then Failure(OpenFailed(Join(d, es[j].name)))
        else Success(acc + if Recent(es[j], maxAge, now) then [Join(d, es[j].name)] else [])
  {
    assert es[..j + 1][..j] == es[..j];
    assert es[..j + 1][j] == es[j];
  }

  /** Once a prefix of the matches fails the age pass, the whole pass fails the same way. */
  lemma {:induction false} AgedFailureSticks(d: string, es: seq<Entry>, maxAge: int, now: int, n: nat)
    requires n <= |es| && Aged(d, es[..n], maxAge, now).Failure?
    ensures Aged(d, es, maxAge, now) == Aged(d, es[..n], maxAge, now)
    decreases |es|
  {
    if n < |es| {
      assert es[..|es| - 1][..n] == es[..n];
      AgedFailureSticks(d, es[..|es| - 1], maxAge, now, n);
    } else {
      assert es[..n] == es;
    }
  }

  /** Once a prefix of the directories fails, Filter fails the same way. */
  lemma {:induction false} FilterFailureSticks(tree: Tree, g: Glob, pattern: string, maxAge: int, now: int,
                                               start: seq<string>, dirs: seq<string>, n: nat)
    requires n <= |dirs| && FilterSpec(tree, g, pattern, maxAge, now, start, dirs[..n]).Failure?
    ensures FilterSpec(tree, g, pattern, maxAge, now, start, dirs) == FilterSpec(tree, g, pattern, maxAge, now, start, dirs[..n])
    decreases |dirs|
  {
    if n < |dirs| {
      assert dirs[..|dirs| - 1][..n] == dirs[..n];
      FilterFailureSticks(tree, g, pattern, maxAge, now, start, dirs[..|dirs| - 1], n);
    } else {
      assert dirs[..n] == dirs;
    }
  }

  /** Without an age limit a directory contributes every match, joined with the directory. */
  lemma NoAgeKeepsAll(tree: Tree, g: Glob, d: string, pattern: string, now: int)
    requires g.valid(pattern)
    ensures DirResult(tree, g, d, pattern, 0, now) == Success(Joined(d, GlobDir(tree, g, d, pattern).value))
  {
  }

  // ---------------------------------------------------------------- options and the filter object

  datatype Settings = Settings(pattern: string, maxAge: int, dir: seq<string>, matches: seq<string>, drill: bool)

  const EmptySettings: Settings := Settings("", 0, [], [], false)

  /** WithGlobPattern, WithFileAge, SetLoc and Drill. */
  datatype FilterOption = GlobPattern(p: string) | FileAge(d: int) | Loc(dirs: seq<string>) | Drill

  function ApplySpec(s: Settings, o: FilterOption, g: Glob): (Settings, Option<FsError>)
  {
    match o
    case GlobPattern(p) => if !g.valid(p) then (s, Some(BadPattern(p))) else (s.(pattern := p), None)
    case FileAge(d) => (s.(maxAge := d), None)
    case Loc(dirs) => (s.(dir := dirs), None)
    case Drill => (s.(drill := true), None)
  }

  /** The options in order, stopping at the first error. */
  function ApplyAllSpec(s: Settings, opts: seq<FilterOption>, g: Glob): (Settings, Option<FsError>)
  {
    if opts == [] then (s, None)
    else
      var (t, err) := ApplyAllSpec(s, opts[..|opts| - 1], g);
      if err.Some? then (t, err) else ApplySpec(t, opts[|opts| - 1], g)
  }

  /** A malformed pattern option. */
  predicate BadOption(o: FilterOption, g: Glob)
  {
    o.GlobPattern? && !g.valid(o.p)
  }

  /**
    Only a malformed pattern fails, and the error names the first one; the settings are then
    those left by the options before it.
  */
  lemma {:induction false} ApplyAllError(s: Settings, opts: seq<FilterOption>, g: Glob)
    ensures ApplyAllSpec(s, opts, g).1.Some? <==> exists k :: 0 <= k < |opts| && BadOption(opts[k], g)
    ensures ApplyAllSpec(s, opts, g).1.Some? ==>
      exists k :: 0 <= k < |opts| && BadOption(opts[k], g)
        && (forall j :: 0 <= j < k ==> !BadOption(opts[j], g))
        && ApplyAllSpec(s, opts, g) == (ApplyAllSpec(s, opts[..k], g).0, Some(BadPattern(opts[k].p)))
  {
    if opts != [] {
      var init := opts[..|opts| - 1];
      ApplyAllError(s, init, g);
      assert forall j :: 0 <= j < |init| ==> init[j] == opts[j];
      if ApplyAllSpec(s, init, g).1.Some? {
        var k :| 0 <= k < |init| && BadOption(init[k], g)
          && (forall j :: 0 <= j < k ==> !BadOption(init[j], g))
          && ApplyAllSpec(s, init, g) == (ApplyAllSpec(s, init[..k], g).0, Some(BadPattern(init[k].p)));
        assert init[..k] == opts[..k];
      } else if BadOption(opts[|opts| - 1], g) {
        assert opts[..|opts| - 1] == init;
      }
    }
  }

  /** FileFilter. */
  class Filter {
    var pattern: string
    var maxAge: int
    var dir: seq<string>
    var matches: seq<string>
    var drill: bool

    function State(): Settings
      reads this
    {
      Settings(pattern, maxAge, dir, matches, drill)
    }

    /** new(FileFilter). */
    constructor ()
      ensures State() == EmptySettings
    {
      pattern := "";
      maxAge := 0;
      dir := [];
      matches := [];
      drill := false;
    }

    /** Runs one option on the filter. */
    method Apply(o: FilterOption, g: Glob) returns (err: Option<FsError>)
      modifies this
      ensures (State(), err) == ApplySpec(old(State()), o, g)
    {
      err := None;
      match o
      case GlobPattern(p) =>
        if !g.valid(p) {
          return Some(BadPattern(p));
        }
        pattern := p;
      case FileAge(d) =>
        maxAge := d;
      case Loc(dirs) =>
        dir := dirs;
      case Drill =>
        drill := true;
    }

    /** SetDirs. */
    method SetDirs(d: seq<string>)
      modifies this
      ensures State() == old(State()).(dir := d)
    {
      dir := d;
    }

    /**
      Filter. The receiver is a copy, so the filter itself never changes; the drill flag plays
      no part in the result.
    */
    method Filter(tree: Tree, g: Glob, now: int) returns (res: Result<seq<string>, FsError>)
      ensures res == FilterSpec(tree, g, pattern, maxAge, now, matches, dir)
    {
      var acc := matches;
      var i := 0;
      while i < |dir|
        invariant 0 <= i <= |dir|
        invariant FilterSpec(tree, g, pattern, maxAge, now, matches, dir[..i]) == Success(acc)
      {
        var d := dir[i];
        assert dir[..i + 1][..i] == dir[..i];
        var r := FilterDir(tree, g, d, pattern, maxAge, now);
        if r.Failure? {
          FilterFailureSticks(tree, g, pattern, maxAge, now, matches, dir, i + 1);
          return Failure(r.error);
        }
        acc := acc + r.value;
        i := i + 1;
      }
      assert dir[..|dir|] == dir;
      return Success(acc);
    }
  }

  /** The loop of Filter that rewrites each match in place as the joined path. */
  method JoinInPlace(d: string, ms: array<string>)
    modifies ms
    ensures forall k :: 0 <= k < ms.Length ==> ms[k] == Join(d, old(ms[k]))
  {
    var idx := 0;
    while idx < ms.Length
      invariant 0 <= idx <= ms.Length
      invariant forall k :: 0 <= k < idx ==> ms[k] == Join(d, old(ms[k]))
      invariant forall k :: idx <= k < ms.Length ==> ms[k] == old(ms[k])
    {
      ms[idx] := Join(d, ms[idx]);
      idx := idx + 1;
    }
  }

  /** The body of Filter's loop for one directory: glob, join, and the age pass if any. */
  method FilterDir(tree: Tree, g: Glob, d: string, pattern: string, maxAge: int, now: int)
      returns (r: Result<seq<string>, FsError>)
    ensures r == DirResult(tree, g, d, pattern, maxAge, now)
  {
    var globbed := GlobDir(tree, g, d, pattern);
    if globbed.Failure? {
      return Failure(globbed.error);
    }
    var es := globbed.value;
    assert DirResult(tree, g, d, pattern, maxAge, now) ==
      if maxAge == 0 then Success(Joined(d, es)) else Aged(d, es, maxAge, now);
    var ms := new string[|es|](k requires 0 <= k < |es| => es[k].name);
    JoinInPlace(d, ms);
    assert forall k :: 0 <= k < ms.Length ==> ms[k] == Join(d, es[k].name);
    if maxAge == 0 {
      assert ms[..] == Joined(d, es);
      return Success(ms[..]);
    }
    r := AgePass(d, es, ms, maxAge, now);
  }

  /** The age pass of Filter over one directory's joined matches. */
  method AgePass(d: string, es: seq<Entry>, ms: array<string>, maxAge: int, now: int)
      returns (r: Result<seq<string>, FsError>)
    requires ms.Length == |es|
    requires forall k :: 0 <= k < ms.Length ==> ms[k] == Join(d, es[k].name)
    ensures r == Aged(d, es, maxAge, now)
  {
    var kept: seq<string> := [];
    var j := 0;
    while j < ms.Length
      invariant 0 <= j <= ms.Length
      invariant Aged(d, es[..j], maxAge, now) == Success(kept)
    {
      AgedSnoc(d, es, j, maxAge, now);
      if !es[j].openable {
        assert Aged(d, es[..j + 1], maxAge, now) == Failure(OpenFailed(ms[j]));
        AgedFailureSticks(d, es, maxAge, now, j + 1);
        return Failure(OpenFailed(ms[j]));
      }
      assert ms[j] == Join(d, es[j].name);
      if es[j].mtime > now - maxAge {
        assert Recent(es[j], maxAge, now);
        kept := kept + [ms[j]];
      } else {
        assert !Recent(es[j], maxAge, now);
        assert kept + [] == kept;
      }
      j := j + 1;
    }
    assert es[..ms.Length] == es;
    return Success(kept);
  }

  /**
    NewFileFilter(opts...): the options in order on a new filter; the first error gives no
    filter and that error.
  */
  method NewFileFilter(opts: seq<FilterOption>, g: Glob) returns (ff: Filter?, err: Option<FsError>)
    ensures ApplyAllSpec(EmptySettings, opts, g).1.Some? ==> ff == null && err == ApplyAllSpec(EmptySettings, opts, g).1
    ensures ApplyAllSpec(EmptySettings, opts, g).1.None? ==>
      err == None && ff != null && fresh(ff) && ff.State() == ApplyAllSpec(EmptySettings, opts, g).0
  {
    ff := new Filter();
    var i := 0;
    while i < |opts|
      invariant 0 <= i <= |opts|
      invariant fresh(ff)
      invariant ApplyAllSpec(EmptySettings, opts[..i], g) == (ff.State(), None)
    {
      assert opts[..i + 1][..i] == opts[..i];
      var e := ff.Apply(opts[i], g);
      if e.Some? {
        FirstErrorSticks(opts, i + 1, g);
        return null, e;
      }
      i := i + 1;
    }
    assert opts[..|opts|] == opts;
    return ff, None;
  }

  /** Once an error has occurred, the remaining options do not change the outcome. */
  lemma {:induction false} FirstErrorSticks(opts: seq<FilterOption>, n: nat, g: Glob)
    requires 0 < n <= |opts|
    requires ApplyAllSpec(EmptySettings, opts[..n], g).1.Some?
    ensures ApplyAllSpec(EmptySettings, opts, g) == ApplyAllSpec(EmptySettings, opts[..n], g)
    decreases |opts| - n
  {
    if n < |opts| {
      assert opts[..n + 1][..n] == opts[..n];
      FirstErrorSticks(opts, n + 1, g);
    } else {
      assert opts[..n] == opts;
    }
  }
}
