/** The console sink's text: `formatConsoleMessage` and the upper-casing
    done by `colorConsoleEncoder.EncodeEntry`. */
module Console {
  import opened Strings
  import opened Options
  import opened Severity

  /** The ANSI escape character that opens each colour sequence. */
  const Esc: char := '\U{1B}'

  /** The SGR colour code `formatConsoleMessage` uses for a level string. */
  function ColorCode(level: string): Option<string> {
    if level == "DEBUG" then Some("32")
    else if level == "INFO" then Some("34")
    else if level == "WARN" then Some("33")
    else if level == "ERROR" then Some("31")
    else None
  }

  /** The level, wrapped in its colour and a reset when it has one. */
  function Colorize(level: string): string {
    match ColorCode(level)
    case Some(code) => [Esc] + "[" + code + "m" + level + [Esc] + "[0m"
    case None => level
  }

  /** The text between the coloured level and the message. */
  function Stamp(timestamp: string, timezone: string): string {
    " [" + timestamp + "] " + timezone + " "
  }

  /** `formatConsoleMessage`, with the clock reading and the timezone label
      passed in: the message is the verbatim tail of the line and the
      coloured level its head. */
  function FormatConsoleMessage(level: string, msg: string, timestamp: string, timezone: string): (line: string)
    ensures HasSuffix(line, msg)
    ensures HasPrefix(line, Colorize(level))
  {
    var head := Colorize(level) + Stamp(timestamp, timezone);
    assert (head + msg)[|head|..] == msg;
    assert (head + msg)[..|Colorize(level)|] == Colorize(level);
    head + msg
  }

  /** The message `colorConsoleEncoder.EncodeEntry` hands to the base
      console encoder for an entry at level `l`. */
  function EncodeEntryMessage(l: Level, msg: string, timestamp: string, timezone: string): (line: string)
    ensures ColorCode(Upper(Name(l))).Some?
    ensures HasPrefix(line, Colorize(Upper(Name(l)))) && HasSuffix(line, msg)
  {
    UpperNames();
    FormatConsoleMessage(Upper(Name(l)), msg, timestamp, timezone)
  }

  /** The upper-cased level names. */
  lemma UpperNames()
    ensures Upper("debug") == "DEBUG" && Upper("info") == "INFO"
    ensures Upper("warn") == "WARN" && Upper("error") == "ERROR"
  {
  }

  /** `s` after `c`'s first occurrence; empty when `c` does not occur. */
  function DropThrough(s: string, c: char): (r: string)
    ensures |r| < |s| || s == []
  {
    if |s| == 0 then [] else if s[0] == c then s[1..] else DropThrough(s[1..], c)
  }

  /** The text a terminal shows: every escape sequence, from ESC through the
      'm' that ends it, removed. */
  function Visible(s: string): string
    decreases |s|
  {
    if |s| == 0 then []
    else if s[0] == Esc then Visible(DropThrough(s[1..], 'm'))
    else [s[0]] + Visible(s[1..])
  }

  lemma {:induction false} DropThroughPast(p: string, c: char, rest: string)
    requires c !in p
    ensures DropThrough(p + [c] + rest, c) == rest
  {
    if |p| > 0 {
      assert (p + [c] + rest)[1..] == p[1..] + [c] + rest;
      DropThroughPast(p[1..], c, rest);
    } else {
      assert p + [c] + rest == [c] + rest;
    }
  }

  /** Text free of escapes shows as itself in front of whatever follows. */
  lemma {:induction false} VisiblePlain(x: string, y: string)
    requires Esc !in x
    ensures Visible(x + y) == x + Visible(y)
  {
    if |x| > 0 {
      assert (x + y)[0] == x[0];
      assert (x + y)[1..] == x[1..] + y;
      VisiblePlain(x[1..], y);
      assert [x[0]] + x[1..] == x;
    } else {
      assert x + y == y;
    }
  }

  lemma VisibleEscape(x: string)
    ensures Visible([Esc] + x) == Visible(DropThrough(x, 'm'))
  {
    assert ([Esc] + x)[0] == Esc;
    assert ([Esc] + x)[1..] == x;
  }

  /** A coloured level shows as the bare level. */
  lemma VisibleColored(code: string, level: string, rest: string)
    requires 'm' !in code && Esc !in level
    ensures Visible([Esc] + "[" + code + "m" + level + [Esc] + "[0m" + rest) == level + Visible(rest)
  {
    var reset := [Esc] + ("[0" + ['m'] + rest);
    var tail := level + reset;
    assert [Esc] + "[" + code + "m" + level + [Esc] + "[0m" + rest == [Esc] + (("[" + code) + ['m'] + tail);
    VisibleEscape(("[" + code) + ['m'] + tail);
    DropThroughPast("[" + code, 'm', tail);
    VisiblePlain(level, reset);
    VisibleEscape("[0" + ['m'] + rest);
    DropThroughPast("[0", 'm', rest);
  }

  /** Colouring never changes what a terminal shows of the level. */
  lemma ColorizeThen(level: string, rest: string)
    requires Esc !in level
    ensures Visible(Colorize(level) + rest) == level + Visible(rest)
  {
    match ColorCode(level)
    case None =>
      VisiblePlain(level, rest);
    case Some(code) =>
      VisibleColored(code, level, rest);
  }

  /** Putting `a` in front of a left-nested concatenation re-nests it. */
  lemma PrependReassociates(a: string, b: string, c: string, d: string, e: string, f: string, g: string)
    ensures a + (b + c + d + e + f + g) == a + b + c + d + e + f + g
  {
    ConcatAssoc(a, b, c);
    ConcatAssoc(a, b + c, d);
    ConcatAssoc(a, b + c + d, e);
    ConcatAssoc(a, b + c + d + e, f);
    ConcatAssoc(a, b + c + d + e + f, g);
  }

  /** The stamp and the message carry no escape of their own. */
  lemma StampPlain(timestamp: string, timezone: string, msg: string)
    requires Esc !in msg && Esc !in timestamp && Esc !in timezone
    ensures Esc !in Stamp(timestamp, timezone) + msg
  {
    assert Esc !in " [" && Esc !in "] " && Esc !in " ";
    var s := Stamp(timestamp, timezone) + msg;
    forall i | 0 <= i < |s|
      ensures s[i] != Esc
    {
    }
  }

  /** The stamp and message show as they are. */
  lemma StampShows(timestamp: string, timezone: string, msg: string)
    requires Esc !in msg && Esc !in timestamp && Esc !in timezone
    ensures Visible(Stamp(timestamp, timezone) + msg) == Stamp(timestamp, timezone) + msg
  {
    var rest := Stamp(timestamp, timezone) + msg;
    StampPlain(timestamp, timezone, msg);
    VisiblePlain(rest, []);
    assert rest + [] == rest;
  }

  lemma FormatSplits(level: string, msg: string, timestamp: string, timezone: string)
    ensures FormatConsoleMessage(level, msg, timestamp, timezone) == Colorize(level) + (Stamp(timestamp, timezone) + msg)
  {
    ConcatAssoc(Colorize(level), Stamp(timestamp, timezone), msg);
  }

  /** The coloured level shows bare, and the stamp and message as they are. */
  lemma FormatShows(level: string, msg: string, timestamp: string, timezone: string)
    requires Esc !in level && Esc !in msg && Esc !in timestamp && Esc !in timezone
    ensures Visible(FormatConsoleMessage(level, msg, timestamp, timezone)) == level + (Stamp(timestamp, timezone) + msg)
  {
    var rest := Stamp(timestamp, timezone) + msg;
    FormatSplits(level, msg, timestamp, timezone);
    ColorizeThen(level, rest);
    StampShows(timestamp, timezone, msg);
  }

  /** A console line shows as `LEVEL [timestamp] timezone message`, the
      line schema the logger promises, whatever the colour. */
  lemma ConsoleLineShows(level: string, msg: string, timestamp: string, timezone: string)
    requires Esc !in level && Esc !in msg && Esc !in timestamp && Esc !in timezone
    ensures Visible(FormatConsoleMessage(level, msg, timestamp, timezone))
         == level + " [" + timestamp + "] " + timezone + " " + msg
  {
    FormatShows(level, msg, timestamp, timezone);
    PrependReassociates(level, " [", timestamp, "] ", timezone, " ", msg);
  }

  /** Every level the logger emits reaches the formatter upper-cased and is
      coloured: DEBUG green (32), INFO blue (34), WARN yellow (33), ERROR
      red (31); a level string outside these four is printed unchanged. */
  lemma LevelColors(l: Level, other: string)
    ensures ColorCode(Upper(Name(l))) == Some(match l
      case Debug => "32" case Info => "34" case Warn => "33" case Error => "31")
    ensures Visible(Colorize(Upper(Name(l)))) == Upper(Name(l))
    ensures ColorCode(other).None? ==> Colorize(other) == other
  {
    UpperNames();
    ColorizeThen(Upper(Name(l)), []);
    assert Colorize(Upper(Name(l))) + [] == Colorize(Upper(Name(l)));
  }

  /** Two lines with the same level, timestamp and timezone are equal
      exactly when their messages are: the line loses nothing of the message. */
  lemma MessageDeterminesLine(level: string, m1: string, m2: string, timestamp: string, timezone: string)
    ensures FormatConsoleMessage(level, m1, timestamp, timezone) == FormatConsoleMessage(level, m2, timestamp, timezone)
        <==> m1 == m2
  {
    var head := Colorize(level) + Stamp(timestamp, timezone);
    assert FormatConsoleMessage(level, m1, timestamp, timezone) == head + m1;
    assert FormatConsoleMessage(level, m2, timestamp, timezone) == head + m2;
    if head + m1 == head + m2 {
      assert m1 == (head + m1)[|head|..];
      assert m2 == (head + m2)[|head|..];
    }
  }
}
