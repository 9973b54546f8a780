/**
  The two path operations of path/filepath that the configuration loaders and the file filter
  use, for slash-separated paths: IsAbs and Join. Join does not model the lexical clean-up
  (removal of "." and ".." elements and of doubled separators) that filepath.Clean applies.
*/
module Paths {
  predicate IsAbs(p: string)
  {
    |p| > 0 && p[0] == '/'
  }

  /** The suffix test used to state where a resolved path points. */
  predicate HasSuffix(s: string, t: string)
  {
    |t| <= |s| && s[|s| - |t|..] == t
  }

  /** filepath.Join(dir, name) of a directory and a name, without the clean-up. */
  function Join(dir: string, name: string): (p: string)
    ensures HasSuffix(p, name)
    ensures |dir| <= |p| && p[..|dir|] == dir
  {
    if dir == [] then name
    else if dir[|dir| - 1] == '/' then dir + name
    else dir + "/" + name
  }

  /** The fix-up both loaders apply: a path that is not absolute gets a leading "/". */
  function Absolute(fp: string): (p: string)
    ensures IsAbs(p)
    ensures IsAbs(fp) ==> p == fp
    ensures !IsAbs(fp) ==> p == "/" + fp
  {
    if IsAbs(fp) then fp else "/" + fp
  }

  /** The default location of the config file under a root directory. */
  function DefaultPath(root: string): string
  {
    Join(Join(root, "config"), "cfg.yaml")
  }

  /** The config file both loaders read: the override, or the default path without one. */
  function ConfigPath(override: string, root: string): string
  {
    Absolute(if |override| == 0 then DefaultPath(root) else override)
  }

  lemma SuffixAppend(a: string, t: string, b: string)
    requires HasSuffix(a, t)
    ensures HasSuffix(a + b, t + b)
  {
    assert (a + b)[|a + b| - |t + b|..] == a[|a| - |t|..] + b;
  }

  lemma SuffixPrepend(x: string, s: string, t: string)
    requires HasSuffix(s, t)
    ensures HasSuffix(x + s, t)
  {
    assert (x + s)[|x + s| - |t|..] == s[|s| - |t|..];
  }

  /** Joining a name that does not end in "/" and then a second name puts a "/" between them. */
  lemma JoinTwice(root: string, a: string, b: string)
    requires |a| > 0 && a[|a| - 1] != '/'
    ensures HasSuffix(Join(Join(root, a), b), a + "/" + b)
    ensures |root| <= |Join(Join(root, a), b)| && Join(Join(root, a), b)[..|root|] == root
  {
    var c := Join(root, a);
    assert c[|c| - 1] == a[|a| - 1];
    assert Join(c, b) == c + ("/" + b);
    SuffixAppend(c, a, "/" + b);
    assert a + ("/" + b) == a + "/" + b;
    assert Join(c, b)[..|root|] == c[..|root|];
  }

  /** The default path ends in config/cfg.yaml and starts with the root. */
  lemma DefaultPathSpec(root: string)
    ensures HasSuffix(DefaultPath(root), "config/cfg.yaml")
    ensures |root| <= |DefaultPath(root)| && DefaultPath(root)[..|root|] == root
  {
    JoinTwice(root, "config", "cfg.yaml");
    assert "config" + "/" + "cfg.yaml" == "config/cfg.yaml";
  }

  /**
    The resolved path is always absolute; a given override is kept (with "/" added in front
    when it is relative), and without one the path ends in config/cfg.yaml under the root.
  */
  lemma ConfigPathSpec(override: string, root: string)
    ensures IsAbs(ConfigPath(override, root))
    ensures |override| > 0 && IsAbs(override) ==> ConfigPath(override, root) == override
    ensures |override| > 0 && !IsAbs(override) ==> ConfigPath(override, root) == "/" + override
    ensures |override| == 0 ==> HasSuffix(ConfigPath(override, root), "config/cfg.yaml")
    ensures |override| == 0 && IsAbs(root) ==> ConfigPath(override, root)[..|root|] == root
  {
    if |override| == 0 {
      var j := DefaultPath(root);
      DefaultPathSpec(root);
      if !IsAbs(j) {
        SuffixPrepend("/", j, "config/cfg.yaml");
      }
    }
  }
}
