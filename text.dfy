/**
 * The three Python string operations the graph builder relies on:
 * `str.split()` (whitespace splitting), `str.split('\n')` (line splitting)
 * and `str.index(sub)` (first occurrence of a substring).
 * Diagrams are ASCII, so whitespace is Python's ASCII whitespace set.
 */
module Text {
  import opened Wrappers

  /** Python's `str.isspace` restricted to ASCII: space, \t \n \v \f \r and \x1c..\x1f. */
  predicate IsSpace(c: char) {
    c == ' ' || ('\t' <= c <= '\r') || ('\U{1C}' <= c <= '\U{1F}')
  }

  predicate NoSpace(s: string) {
    forall i :: 0 <= i < |s| ==> !IsSpace(s[i])
  }

  /** Length of the longest prefix of `s` that holds no whitespace. */
  function WordLength(s: string): (n: nat)
    ensures n <= |s|
    ensures NoSpace(s[..n])
    ensures n < |s| ==> IsSpace(s[n])
  {
    if s == [] || IsSpace(s[0]) then 0 else 1 + WordLength(s[1..])
  }

  /** `s.split()`: the maximal runs of non-whitespace characters, in order. */
  function Words(s: string): (ws: seq<string>)
    ensures forall i :: 0 <= i < |ws| ==> ws[i] != [] && NoSpace(ws[i])
    decreases |s|
  {
    if s == [] then []
    else if IsSpace(s[0]) then Words(s[1..])
    else
      var n := WordLength(s);
      [s[..n]] + Words(s[n..])
  }

  function Count(s: string, c: char): nat {
    if s == [] then 0 else (if s[0] == c then 1 else 0) + Count(s[1..], c)
  }

  /** `s.split('\n')`: the pieces between newlines; there is always one more piece than newlines. */
  function Lines(s: string): (ls: seq<string>)
    ensures |ls| == Count(s, '\n') + 1
    ensures forall i :: 0 <= i < |ls| ==> '\n' !in ls[i]
  {
    if s == [] then [""]
    else
      var rest := Lines(s[1..]);
      if s[0] == '\n' then [""] + rest else [[s[0]] + rest[0]] + rest[1..]
  }

  /** `'\n'.join(ls)`, the inverse of `Lines`. */
  function JoinLines(ls: seq<string>): string
    requires ls != []
  {
    if |ls| == 1 then ls[0] else ls[0] + "\n" + JoinLines(ls[1..])
  }

  /** Splitting at newlines loses nothing: joining the lines gives back the text. */
  lemma {:induction false} JoinLinesOfLines(s: string)
    ensures JoinLines(Lines(s)) == s
  {
    if s != [] {
      var rest := Lines(s[1..]);
      JoinLinesOfLines(s[1..]);
      if s[0] == '\n' {
        assert Lines(s) == [""] + rest;
        assert Lines(s)[1..] == rest;
      } else {
        var ls := Lines(s);
        assert ls == [[s[0]] + rest[0]] + rest[1..];
        if |rest| == 1 {
          assert ls == [[s[0]] + rest[0]];
        } else {
          assert ls[1..] == rest[1..];
          assert JoinLines(rest) == rest[0] + "\n" + JoinLines(rest[1..]);
          assert JoinLines(ls) == [s[0]] + rest[0] + "\n" + JoinLines(rest[1..]);
        }
      }
    }
  }

  /** `t` is found in `s` at index `i`. */
  predicate OccursAt(s: string, t: string, i: nat) {
    i + |t| <= |s| && s[i..i + |t|] == t
  }

  /** The scan behind `s.index(t)`, from index `from` on. */
  function IndexFrom(s: string, t: string, from: nat): Option<nat>
    requires from <= |s|
    decreases |s| - from
  {
    if from + |t| > |s| then None
    else if s[from..from + |t|] == t then Some(from)
    else if from == |s| then None
    else IndexFrom(s, t, from + 1)
  }

  /** The scan finds the first index at or after `from` where `t` occurs, and None when there is none. */
  lemma {:induction false} IndexFromFirst(s: string, t: string, from: nat)
    requires from <= |s|
    ensures IndexFrom(s, t, from).Some? ==> from <= IndexFrom(s, t, from).value && OccursAt(s, t, IndexFrom(s, t, from).value)
    ensures IndexFrom(s, t, from).Some? ==> forall j :: from <= j < IndexFrom(s, t, from).value ==> !OccursAt(s, t, j)
    ensures IndexFrom(s, t, from).None? ==> forall j :: from <= j ==> !OccursAt(s, t, j)
    decreases |s| - from
  {
    if from + |t| <= |s| && s[from..from + |t|] != t && from < |s| {
      IndexFromFirst(s, t, from + 1);
    }
  }

  /** `s.index(t)`: the first occurrence of `t` in `s`; None where Python raises ValueError. */
  function IndexOf(s: string, t: string): Option<nat> {
    IndexFrom(s, t, 0)
  }

  /** Every word of `s.split()` occurs somewhere in `s`... */
  lemma {:induction false} WordsOccur(s: string, k: nat)
    requires k < |Words(s)|
    ensures exists i :: OccursAt(s, Words(s)[k], i)
    decreases |s|
  {
    if IsSpace(s[0]) {
      WordsOccur(s[1..], k);
      var i: nat :| OccursAt(s[1..], Words(s[1..])[k], i);
      assert s == s[..1] + s[1..];
      OccursShift(s[..1], s[1..], Words(s)[k], i);
    } else {
      var n := WordLength(s);
      if k == 0 {
        assert OccursAt(s, Words(s)[0], 0);
      } else {
        WordsOccur(s[n..], k - 1);
        var i: nat :| OccursAt(s[n..], Words(s[n..])[k - 1], i);
        assert s == s[..n] + s[n..];
        OccursShift(s[..n], s[n..], Words(s)[k], i);
      }
    }
  }

  /** ...so `line.index(token)` never raises for a token of `line.split()`. */
  lemma WordsFound(s: string, k: nat)
    requires k < |Words(s)|
    ensures IndexOf(s, Words(s)[k]).Some?
  {
    WordsOccur(s, k);
    IndexFromFirst(s, Words(s)[k], 0);
  }

  // ---------------------------------------------------------------------------
  // How the splits behave on concatenated text.

  /** A whitespace character ends the first word. */
  lemma {:induction false} WordLengthStops(a: string, sp: char, b: string)
    requires IsSpace(sp)
    ensures WordLength(a + [sp] + b) == WordLength(a)
    decreases |a|
  {
    if a != [] && !IsSpace(a[0]) {
      assert (a + [sp] + b)[1..] == a[1..] + [sp] + b;
      WordLengthStops(a[1..], sp, b);
    }
  }

  /** Whitespace separates: `(a + sp + b).split() == a.split() + b.split()`. */
  lemma {:induction false} WordsSplit(a: string, sp: char, b: string)
    requires IsSpace(sp)
    ensures Words(a + [sp] + b) == Words(a) + Words(b)
    decreases |a|
  {
    var s := a + [sp] + b;
    if a == [] {
      assert s[1..] == b;
    } else if IsSpace(a[0]) {
      assert s[1..] == a[1..] + [sp] + b;
      WordsSplit(a[1..], sp, b);
    } else {
      WordLengthStops(a, sp, b);
      var n := WordLength(a);
      assert s[..n] == a[..n];
      assert s[n..] == a[n..] + [sp] + b;
      WordsSplit(a[n..], sp, b);
    }
  }

  /** A single non-empty word without whitespace splits into itself. */
  lemma WordsOfWord(t: string)
    requires t != [] && NoSpace(t)
    ensures Words(t) == [t]
  {
    assert WordLength(t) == |t|;
    assert t[..|t|] == t && t[|t|..] == [];
  }

  /** Leading whitespace is skipped. */
  lemma {:induction false} WordsSkip(a: string, s: string)
    requires forall i :: 0 <= i < |a| ==> IsSpace(a[i])
    ensures Words(a + s) == Words(s)
    decreases |a|
  {
    if a != [] {
      assert (a + s)[0] == a[0] && IsSpace(a[0]);
      assert (a + s)[1..] == a[1..] + s;
      assert Words(a + s) == Words(a[1..] + s);
      WordsSkip(a[1..], s);
    } else {
      assert a + s == s;
    }
  }

  /** The words of every line, in order. */
  function LineWords(ls: seq<string>): seq<string> {
    if ls == [] then [] else Words(ls[0]) + LineWords(ls[1..])
  }

  /** Splitting joined lines on whitespace is splitting each line. */
  lemma {:induction false} WordsOfJoinLines(ls: seq<string>)
    requires ls != []
    ensures Words(JoinLines(ls)) == LineWords(ls)
  {
    if |ls| == 1 {
      assert LineWords(ls[1..]) == [];
    } else {
      WordsOfJoinLines(ls[1..]);
      WordsSplit(ls[0], '\n', JoinLines(ls[1..]));
      assert ls[0] + "\n" + JoinLines(ls[1..]) == ls[0] + ['\n'] + JoinLines(ls[1..]);
    }
  }

  /** `layout.split()` sees exactly the tokens of `line.split()` for every line, in order. */
  lemma WordsOfLines(s: string)
    ensures Words(s) == LineWords(Lines(s))
  {
    JoinLinesOfLines(s);
    WordsOfJoinLines(Lines(s));
  }

  /** A line without a newline is one piece. */
  lemma {:induction false} LinesPlain(a: string)
    requires '\n' !in a
    ensures Lines(a) == [a]
  {
    if a != [] {
      LinesPlain(a[1..]);
      assert [a[0]] + a[1..] == a;
    }
  }

  /** The first newline ends the first piece. */
  lemma {:induction false} LinesAppend(a: string, b: string)
    requires '\n' !in a
    ensures Lines(a + "\n" + b) == [a] + Lines(b)
  {
    var s := a + "\n" + b;
    if a == [] {
      assert s[1..] == b;
    } else {
      assert s[1..] == a[1..] + "\n" + b;
      LinesAppend(a[1..], b);
      assert [a[0]] + a[1..] == a;
    }
  }

  /** Joining lines that hold no newline and splitting again gives the lines back. */
  lemma {:induction false} LinesOfJoinLines(ls: seq<string>)
    requires ls != []
    requires forall i :: 0 <= i < |ls| ==> '\n' !in ls[i]
    ensures Lines(JoinLines(ls)) == ls
  {
    if |ls| == 1 {
      LinesPlain(ls[0]);
    } else {
      LinesOfJoinLines(ls[1..]);
      LinesAppend(ls[0], JoinLines(ls[1..]));
    }
  }

  /** Occurrences in `b` are the occurrences in `a + b` shifted by `|a|`. */
  lemma OccursShift(a: string, b: string, t: string, j: nat)
    ensures OccursAt(a + b, t, |a| + j) <==> OccursAt(b, t, j)
  {
    if j + |t| <= |b| {
      assert (a + b)[|a| + j..|a| + j + |t|] == b[j..j + |t|];
    }
  }

  /** An occurrence with none before it is what `s.index(t)` returns. */
  lemma FirstOccurrence(s: string, t: string, i: nat)
    requires OccursAt(s, t, i)
    requires forall j :: 0 <= j < i ==> !OccursAt(s, t, j)
    ensures IndexOf(s, t) == Some(i)
  {
    IndexFromFirst(s, t, 0);
  }
}
