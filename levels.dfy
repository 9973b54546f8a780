/**
  The slog levels the configuration packages hand to the logger, and the level-name mapping
  that both packages' logConfig.MinLevel implement with the same switch over strings.ToLower.
*/
module Levels {
  import opened Ascii

  /** slog.LevelDebug, LevelInfo, LevelWarn and LevelError. */
  datatype Level = Debug | Info | Warn | Error

  /** The numeric value slog gives each level. */
  function Value(l: Level): int
  {
    match l
    case Debug => -4
    case Info => 0
    case Warn => 4
    case Error => 8
  }

  /** The switch of MinLevel, on the lower-cased level name; unrecognised names give Info. */
  function LevelOf(level: string): Level
  {
    var k := Lower(level);
    if k == "debug" then Debug
    else if k == "info" then Info
    else if k == "warn" || k == "warning" then Warn
    else if k == "error" then Error
    else Info
  }

  /** A name without upper-case letters is its own lower-case form. */
  lemma LowerOfLower(s: string)
    requires forall i :: 0 <= i < |s| ==> !IsUpper(s[i])
    ensures Lower(s) == s
  {
  }

  /** Each level name the switch recognises is its own lower-case form. */
  lemma NameIsLower(name: string)
    requires name == "debug" || name == "info" || name == "warn" || name == "warning" || name == "error"
    ensures Lower(name) == name
  {
    assert forall i :: 0 <= i < |name| ==> !IsUpper(name[i]) by {
      if name == "debug" {
      } else if name == "info" {
      } else if name == "warn" {
      } else if name == "warning" {
      } else {
      }
    }
    LowerOfLower(name);
  }

  /**
    The mapping, stated by case-insensitive comparison with the recognised names: each level is
    chosen exactly for its own names, and Info also for every name that is not recognised.
  */
  lemma LevelOfSpec(level: string)
    ensures LevelOf(level) == Debug <==> EqualFold(level, "debug")
    ensures LevelOf(level) == Warn <==> EqualFold(level, "warn") || EqualFold(level, "warning")
    ensures LevelOf(level) == Error <==> EqualFold(level, "error")
    ensures LevelOf(level) == Info <==>
      !EqualFold(level, "debug") && !EqualFold(level, "warn") && !EqualFold(level, "warning")
      && !EqualFold(level, "error")
  {
    var k := Lower(level);
    assert EqualFold(level, "debug") <==> k == "debug" by { NameIsLower("debug"); }
    assert EqualFold(level, "warn") <==> k == "warn" by { NameIsLower("warn"); }
    assert EqualFold(level, "warning") <==> k == "warning" by { NameIsLower("warning"); }
    assert EqualFold(level, "error") <==> k == "error" by { NameIsLower("error"); }
  }

  /** The levels are ordered by severity. */
  lemma ValueOrder()
    ensures Value(Debug) < Value(Info) < Value(Warn) < Value(Error)
  {
  }
}
