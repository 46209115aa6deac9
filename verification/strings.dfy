/** The parts of Go's `strings` and `path/filepath` packages the logger
    relies on, over `string` = `seq<char>` (one char per code point). */
module Strings {

  /** Go's `strings.HasPrefix`. */
  predicate HasPrefix(s: string, prefix: string) {
    |prefix| <= |s| && s[..|prefix|] == prefix
  }

  /** Go's `strings.HasSuffix`. */
  predicate HasSuffix(s: string, suffix: string) {
    |suffix| <= |s| && s[|s| - |suffix|..] == suffix
  }

  /** `s` has suffix `t` exactly when `s` is some text followed by `t`. */
  lemma SuffixMeansConcat(s: string, t: string)
    ensures HasSuffix(s, t) <==> exists p: string :: s == p + t
  {
    if HasSuffix(s, t) {
      var p := s[..|s| - |t|];
      assert s == p + t;
    }
    if exists p: string :: s == p + t {
      var p: string :| s == p + t;
      assert s[|s| - |t|..] == t;
    }
  }

  /** Concatenation is associative. */
  lemma ConcatAssoc<T>(x: seq<T>, y: seq<T>, z: seq<T>)
    ensures x + (y + z) == (x + y) + z
  {
  }

  /** Go's `unicode.ToLower` on one code point, exact for every code point
      whose lower case is an ASCII letter: 'A'..'Z', U+0130 (capital I with
      dot above, lowered to 'i') and U+212A (Kelvin sign, lowered to 'k').
      Any other code point is returned unchanged. */
  function LowerChar(c: char): char {
    if 'A' <= c <= 'Z' then (c as int + 32) as char
    else if c == '\U{0130}' then 'i'
    else if c == '\U{212A}' then 'k'
    else c
  }

  /** Go's `unicode.ToUpper` on one code point, exact for every code point
      whose upper case is an ASCII letter: 'a'..'z', U+0131 (dotless i,
      raised to 'I') and U+017F (long s, raised to 'S'). Any other code
      point is returned unchanged. */
  function UpperChar(c: char): char {
    if 'a' <= c <= 'z' then (c as int - 32) as char
    else if c == '\U{0131}' then 'I'
    else if c == '\U{017F}' then 'S'
    else c
  }

  /** `strings.ToLower` restricted to the code points whose lower case is an
      ASCII letter: each ASCII capital becomes its small letter, U+0130 'i'
      and U+212A 'k', and every other code point stays as it is. */
  function Lower(s: string): (r: string)
    ensures |r| == |s|
    ensures forall i | 0 <= i < |r| :: !('A' <= r[i] <= 'Z')
    ensures forall i | 0 <= i < |r| && 'A' <= s[i] <= 'Z' :: r[i] as int == s[i] as int + 32
    ensures forall i | 0 <= i < |r| :: r[i] == s[i] || 'A' <= s[i] <= 'Z' || s[i] == '\U{0130}' || s[i] == '\U{212A}'
  {
    seq(|s|, i requires 0 <= i < |s| => LowerChar(s[i]))
  }

  /** `strings.ToUpper` restricted to the code points whose upper case is an
      ASCII letter: each ASCII small letter becomes its capital, U+0131 'I'
      and U+017F 'S', and every other code point stays as it is. */
  function Upper(s: string): (r: string)
    ensures |r| == |s|
    ensures forall i | 0 <= i < |r| :: !('a' <= r[i] <= 'z')
    ensures forall i | 0 <= i < |r| && 'a' <= s[i] <= 'z' :: r[i] as int == s[i] as int - 32
    ensures forall i | 0 <= i < |r| :: r[i] == s[i] || 'a' <= s[i] <= 'z' || s[i] == '\U{0131}' || s[i] == '\U{017F}'
  {
    seq(|s|, i requires 0 <= i < |s| => UpperChar(s[i]))
  }

  /** In this model, lower-casing forgets an earlier upper-casing, except for
      the two code points that raise to an ASCII letter but are not its lower
      case. */
  lemma LowerOfUpper(s: string)
    requires '\U{0131}' !in s && '\U{017F}' !in s
    ensures Lower(Upper(s)) == Lower(s)
  {
    assert forall i | 0 <= i < |s| :: LowerChar(UpperChar(s[i])) == LowerChar(s[i]);
  }

  /** Upper-casing the dotless i or the long s and lowering the result gives
      a plain ASCII letter, not the code point started from. */
  lemma UpperLowerMovesDotless()
    ensures Lower(Upper("\U{0131}")) == "i" != Lower("\U{0131}")
    ensures Lower(Upper("\U{017F}")) == "s" != Lower("\U{017F}")
  {
    assert Upper("\U{0131}") == "I";
    assert Upper("\U{017F}") == "S";
    assert Lower("\U{0131}")[0] == '\U{0131}';
    assert Lower("\U{017F}")[0] == '\U{017F}';
  }

  /** `strings.Split(s, string(sep))[0]`: the text before the first `sep`,
      or all of `s` when it has none. */
  function BeforeFirst(s: string, sep: char): (r: string)
    ensures r <= s
    ensures sep !in r
    ensures r == s || s[|r|] == sep
  {
    if |s| == 0 || s[0] == sep then [] else [s[0]] + BeforeFirst(s[1..], sep)
  }

  /** The text after the last `sep`, or all of `s` when it has none. This
      is `filepath.Base` only on a non-empty path that does not end in the
      separator: `filepath.Base` turns "" into "." and drops trailing
      separators first, where this returns "". */
  function AfterLast(s: string, sep: char): (r: string)
    ensures HasSuffix(s, r)
    ensures sep !in r
    ensures r == s || s[|s| - |r| - 1] == sep
  {
    if |s| == 0 || s[|s| - 1] == sep then []
    else AfterLast(s[..|s| - 1], sep) + [s[|s| - 1]]
  }

  /** A stem without the separator is recovered in front of the separator. */
  lemma {:induction false} BeforeFirstOfStem(stem: string, sep: char, rest: string)
    requires sep !in stem
    ensures BeforeFirst(stem + [sep] + rest, sep) == stem
  {
    if |stem| > 0 {
      assert (stem + [sep] + rest)[1..] == stem[1..] + [sep] + rest;
      BeforeFirstOfStem(stem[1..], sep, rest);
    } else {
      assert (stem + [sep] + rest)[0] == sep;
    }
  }

  /** The base name of `dir + name`, where `dir` ends in the separator and
      `name` holds none, is `name`. */
  lemma {:induction false} AfterLastOfJoin(dir: string, name: string, sep: char)
    requires |dir| > 0 && dir[|dir| - 1] == sep
    requires sep !in name
    ensures AfterLast(dir + name, sep) == name
  {
    var s := dir + name;
    if |name| == 0 {
      assert s == dir;
    } else {
      var init := name[..|name| - 1];
      assert s[..|s| - 1] == dir + init;
      assert s[|s| - 1] == name[|name| - 1];
      AfterLastOfJoin(dir, init, sep);
      assert init + [name[|name| - 1]] == name;
    }
  }

  /** Concatenation cancels a shared prefix and suffix. */
  lemma ConcatCancel(a: string, x: string, y: string, b: string)
    requires a + x + b == a + y + b
    ensures x == y
  {
    var s := a + x + b;
    assert |x| == |y|;
    assert x == s[|a|..|a| + |x|];
    assert y == (a + y + b)[|a|..|a| + |y|];
  }

  function DigitChar(d: nat): char
    requires d < 10
  {
    ('0' as int + d) as char
  }

  /** Decimal notation of a natural number. */
  function Decimal(n: nat): string {
    if n < 10 then [DigitChar(n)] else Decimal(n / 10) + [DigitChar(n % 10)]
  }
}
