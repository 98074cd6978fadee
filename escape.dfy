/**
 * `escape`, which the C++ source writer applies to every key character and
 * every neighbour token before placing it inside a string literal: every
 * backslash is doubled, then every double quote gets a backslash in front.
 */
module Escape {
  import opened Text

  /** `s.replace(c, sub)` for a one-character pattern: every `c` becomes `sub`, left to right. */
  function ReplaceChar(s: string, c: char, sub: string): string {
    if s == [] then [] else (if s[0] == c then sub else [s[0]]) + ReplaceChar(s[1..], c, sub)
  }

  /** `x.replace("\\", "\\\\").replace("\"", "\\\"")`. */
  function EscapeString(s: string): string {
    ReplaceChar(ReplaceChar(s, '\\', "\\\\"), '"', "\\\"")
  }

  /** How one character is written inside a C++ string literal. */
  function EscapeChar(ch: char): string {
    if ch == '\\' then "\\\\" else if ch == '"' then "\\\"" else [ch]
  }

  /** Reading an escaped literal back: a backslash takes the next character as it is. */
  function Unescape(t: string): string
    decreases |t|
  {
    if t == [] then []
    else if t[0] == '\\' && |t| >= 2 then [t[1]] + Unescape(t[2..])
    else [t[0]] + Unescape(t[1..])
  }

  /** Replacing works piecewise. */
  lemma {:induction false} ReplaceAppend(a: string, b: string, c: char, sub: string)
    ensures ReplaceChar(a + b, c, sub) == ReplaceChar(a, c, sub) + ReplaceChar(b, c, sub)
  {
    if a != [] {
      assert (a + b)[1..] == a[1..] + b;
      ReplaceAppend(a[1..], b, c, sub);
    } else {
      assert a + b == b;
    }
  }

  /** Each `c` grows by `|sub| - 1` characters; everything else stays one character. */
  lemma {:induction false} ReplaceLength(s: string, c: char, sub: string)
    ensures |ReplaceChar(s, c, sub)| == |s| + Count(s, c) * (|sub| - 1)
  {
    if s != [] {
      ReplaceLength(s[1..], c, sub);
    }
  }

  /**
   * The two chained replacements escape character by character: the second
   * replacement never touches the backslashes the first one wrote.
   */
  lemma {:induction false} EscapeCons(ch: char, s: string)
    ensures EscapeString([ch] + s) == EscapeChar(ch) + EscapeString(s)
  {
    ReplaceAppend([ch], s, '\\', "\\\\");
    var inner := ReplaceChar([ch], '\\', "\\\\");
    ReplaceAppend(inner, ReplaceChar(s, '\\', "\\\\"), '"', "\\\"");
    if ch == '\\' {
      assert inner == "\\\\";
      assert ReplaceChar(inner, '"', "\\\"") == "\\\\";
    } else {
      assert inner == [ch];
      assert ReplaceChar(inner, '"', "\\\"") == EscapeChar(ch);
    }
  }

  /** The output is the input plus one backslash per backslash and per double quote. */
  lemma {:induction false} EscapeLength(s: string)
    ensures |EscapeString(s)| == |s| + Count(s, '\\') + Count(s, '"')
  {
    if s != [] {
      assert s == [s[0]] + s[1..];
      EscapeCons(s[0], s[1..]);
      EscapeLength(s[1..]);
    }
  }

  /** Escaping loses nothing: reading the literal back gives the original characters. */
  lemma {:induction false} UnescapeEscape(s: string)
    ensures Unescape(EscapeString(s)) == s
  {
    if s != [] {
      assert s == [s[0]] + s[1..];
      EscapeCons(s[0], s[1..]);
      UnescapeEscape(s[1..]);
      var t := EscapeString(s);
      if s[0] == '\\' || s[0] == '"' {
        assert t[2..] == EscapeString(s[1..]);
      } else {
        assert t[1..] == EscapeString(s[1..]);
      }
    }
  }
}
