/** zapcore severities, the `ZAP_LOG_LEVEL` parser (`getZapLevel`) and the
    `LogLevel` dispatch of `emit`. */
module Severity {
  import opened Strings
  import opened Define

  /** The zapcore levels the logger emits. */
  datatype Level = Debug | Info | Warn | Error

  /** zapcore's numeric value of a level (DebugLevel is -1, ErrorLevel 2). */
  function Rank(l: Level): int {
    match l
    case Debug => -1
    case Info => 0
    case Warn => 1
    case Error => 2
  }

  /** zapcore `Level.Enabled`: a core built with `threshold` accepts `l`. */
  predicate Enabled(threshold: Level, l: Level) {
    Rank(threshold) <= Rank(l)
  }

  /** zapcore `Level.String`: the lower-case level name. */
  function Name(l: Level): string {
    match l
    case Debug => "debug"
    case Info => "info"
    case Warn => "warn"
    case Error => "error"
  }

  /** `getZapLevel` applied to the value of `ZAP_LOG_LEVEL` (the empty string
      when unset): the four names match in any case, everything else,
      including the empty string, falls back to Debug. */
  function ParseLevel(val: string): (r: Level)
    ensures r == Info <==> Lower(val) == "info"
    ensures r == Warn <==> Lower(val) == "warn"
    ensures r == Error <==> Lower(val) == "error"
    ensures r == Debug <==> Lower(val) != "info" && Lower(val) != "warn" && Lower(val) != "error"
  {
    var v := Lower(val);
    if v != "" then
      if v == "debug" then Debug
      else if v == "info" then Info
      else if v == "warn" then Warn
      else if v == "error" then Error
      else Debug
    else Debug
  }

  /** The level `emit` logs a `LogLevel` at: an exact, case-sensitive match
      of the info, warn and error constants, Debug for every other text. */
  function EmitLevel(level: LogLevel): (r: Level)
    ensures r == Info <==> level == LevelInfo
    ensures r == Warn <==> level == LevelWarn
    ensures r == Error <==> level == LevelError
    ensures r == Debug <==> level != LevelInfo && level != LevelWarn && level != LevelError
  {
    if level == LevelInfo then Info
    else if level == LevelWarn then Warn
    else if level == LevelError then Error
    else Debug
  }

  /** The ranks order the levels strictly: Debug < Info < Warn < Error, so a
      threshold admits its own level and every level above it. */
  lemma LevelOrder(t: Level, l: Level)
    ensures Rank(Debug) < Rank(Info) < Rank(Warn) < Rank(Error)
    ensures Enabled(t, l) || Enabled(l, t)
    ensures Enabled(t, l) && Enabled(l, t) ==> t == l
    ensures Enabled(Debug, l) && Enabled(t, Error)
  {
  }

  /** Every level name is one of the named `LogLevel` constants and parses
      back, through both `getZapLevel` (in either case) and `emit`, to the
      level it names; so the named constants are exactly the level names. */
  lemma NameRoundTrip(l: Level)
    ensures Name(l) in NamedLevels
    ensures ParseLevel(Name(l)) == l
    ensures ParseLevel(Upper(Name(l))) == l
    ensures EmitLevel(Name(l)) == l
  {
    var n := Name(l);
    assert Lower(n) == n;
    LowerOfUpper(n);
  }

  /** The named `LogLevel` constants are exactly the four level names. */
  lemma NamedLevelsAreLevelNames(s: LogLevel)
    ensures s in NamedLevels <==> exists l: Level :: Name(l) == s
  {
    if s in NamedLevels {
      if s == LevelDebug { assert Name(Debug) == s; }
      else if s == LevelInfo { assert Name(Info) == s; }
      else if s == LevelWarn { assert Name(Warn) == s; }
      else { assert Name(Error) == s; }
    }
  }

  /** `getZapLevel` ignores case: upper-casing a setting never changes the
      level it selects, as long as the setting holds neither of the two code
      points that `strings.ToUpper` raises to an ASCII letter which is not
      their lower case. */
  lemma ParseIgnoresCase(val: string)
    requires '\U{0131}' !in val && '\U{017F}' !in val
    ensures ParseLevel(Upper(val)) == ParseLevel(val)
  {
    LowerOfUpper(val);
  }

  /** The exception: "ınfo", spelt with U+0131 (dotless i), selects Debug,
      while its upper case "INFO" selects Info. */
  lemma UpperCanChangeLevel()
    ensures ParseLevel("\U{0131}nfo") == Debug
    ensures ParseLevel(Upper("\U{0131}nfo")) == Info
  {
    assert Lower("\U{0131}nfo")[0] == '\U{0131}';
    assert Upper("\U{0131}nfo") == "INFO";
    assert Lower("INFO") == "info";
  }

  /** The two parsers disagree on case: "INFO" selects Info as a threshold
      but is logged at Debug by `emit`; U+0130 lowers to 'i' in Go, so
      "İNFO" selects Info too. */
  lemma CaseSensitivityDiffers()
    ensures ParseLevel("INFO") == Info
    ensures EmitLevel("INFO") == Debug
    ensures ParseLevel("\U{0130}NFO") == Info
  {
    assert Lower("INFO") == "info";
    assert Lower("\U{0130}NFO") == "info";
  }
}
