/**
 * The string operations the SCPI console relies on, as Java performs them on the patterns that
 * occur there: replaceFirst with a pattern free of regular-expression metacharacters (a literal
 * first-occurrence replace), replaceAll of a single character, Collectors.joining, and the
 * "%-20s %s" column layout of String.format. Lines splits a text at every line feed; it is the
 * inverse of joining with "\n" and is used to state what the listings print.
 */
module ScpiStrings {
  import opened Wrappers

  /** `pat` occurs in `s` starting at index `j`. */
  predicate OccursAt(s: string, pat: string, j: int)
  {
    0 <= j && j + |pat| <= |s| && s[j..j + |pat|] == pat
  }

  /** The first occurrence of `pat` in `s` at or after index `k`. */
  function FindFrom(s: string, pat: string, k: nat): (r: Option<nat>)
    ensures r.Some? ==> k <= r.value && OccursAt(s, pat, r.value)
    ensures r.Some? ==> forall j :: k <= j < r.value ==> !OccursAt(s, pat, j)
    ensures r.None? ==> forall j :: k <= j ==> !OccursAt(s, pat, j)
    decreases |s| - k
  {
    if k + |pat| > |s| then None
    else if s[k..k + |pat|] == pat then Some(k)
    else FindFrom(s, pat, k + 1)
  }

  /** String.indexOf: the first occurrence of `pat` in `s`. */
  function FindFirst(s: string, pat: string): (r: Option<nat>)
    ensures r.Some? ==> OccursAt(s, pat, r.value) && forall j :: 0 <= j < r.value ==> !OccursAt(s, pat, j)
    ensures r.None? <==> forall j :: 0 <= j ==> !OccursAt(s, pat, j)
  {
    FindFrom(s, pat, 0)
  }

  /** String.replaceFirst for a pattern that matches only itself. */
  function ReplaceFirst(s: string, pat: string, rep: string): string
  {
    match FindFirst(s, pat)
    case None => s
    case Some(i) => s[..i] + rep + s[i + |pat|..]
  }

  /** String.replaceAll of the one-character pattern `c` by the empty string. */
  function RemoveAll(s: string, c: char): (r: string)
    ensures forall x :: x in r <==> x in s && x != c
    ensures multiset(r) == multiset(s)[c := 0]
    ensures |r| <= |s|
  {
    if s == [] then []
    else
      assert s == [s[0]] + s[1..];
      if s[0] == c then RemoveAll(s[1..], c)
      else [s[0]] + RemoveAll(s[1..], c)
  }

  predicate NoLineBreak(s: string)
  {
    '\r' !in s && '\n' !in s
  }

  /** `s` holds no line feed. */
  predicate OneLine(s: string)
  {
    forall i :: 0 <= i < |s| ==> s[i] != '\n'
  }

  /** The two replaceAll calls of Command.execute: every carriage return, then every line feed. */
  function Strip(s: string): (r: string)
    ensures NoLineBreak(r)
    ensures forall x :: x in r <==> x in s && x != '\r' && x != '\n'
    ensures multiset(r) == multiset(s)['\r' := 0]['\n' := 0]
  {
    RemoveAll(RemoveAll(s, '\r'), '\n')
  }

  /** Collectors.joining(sep). */
  function Join(xs: seq<string>, sep: string): string
  {
    if |xs| == 0 then ""
    else if |xs| == 1 then xs[0]
    else xs[0] + sep + Join(xs[1..], sep)
  }

  /** A header line above lines joined with "\n". */
  function UnderHeader(h: string, rows: seq<string>): string
  {
    h + "\n" + Join(rows, "\n")
  }

  /** The lines of `s`: the pieces between line feeds (a trailing line feed leaves an empty last line). */
  function Lines(s: string): (r: seq<string>)
    ensures |r| >= 1
  {
    if s == [] then [""]
    else
      var rest := Lines(s[1..]);
      if s[0] == '\n' then [""] + rest
      else [[s[0]] + rest[0]] + rest[1..]
  }

  function Spaces(n: nat): (r: string)
    ensures |r| == n && forall i :: 0 <= i < n ==> r[i] == ' '
  {
    seq(n, _ => ' ')
  }

  /** String.format("%-20s %s", a, b): `a` left-aligned in a field of 20, a space, then `b`. */
  function Column(a: string, b: string): string
  {
    a + Spaces(if |a| < 20 then 20 - |a| else 0) + " " + b
  }

  // ---------------------------------------------------------------- properties

  /** Replacing a prefix of `s` removes exactly that prefix. */
  lemma ReplaceFirstAtStart(s: string, pat: string, rep: string)
    requires pat <= s
    ensures ReplaceFirst(s, pat, rep) == rep + s[|pat|..]
  {
    assert OccursAt(s, pat, 0);
  }

  /** Without an occurrence of the pattern, replaceFirst leaves the text alone. */
  lemma ReplaceFirstAbsent(s: string, pat: string, rep: string)
    requires forall j :: 0 <= j ==> !OccursAt(s, pat, j)
    ensures ReplaceFirst(s, pat, rep) == s
  {
  }

  lemma {:induction false} RemoveAllAbsent(s: string, c: char)
    requires c !in s
    ensures RemoveAll(s, c) == s
  {
    if s != [] {
      assert c !in s[1..];
      RemoveAllAbsent(s[1..], c);
      assert s == [s[0]] + s[1..];
    }
  }

  /** RemoveAll works character by character: the text's pieces are cleaned independently and kept in order. */
  lemma {:induction false} RemoveAllAppend(a: string, b: string, c: char)
    ensures RemoveAll(a + b, c) == RemoveAll(a, c) + RemoveAll(b, c)
  {
    if a == [] {
      assert a + b == b;
    } else {
      assert (a + b)[0] == a[0] && (a + b)[1..] == a[1..] + b;
      RemoveAllAppend(a[1..], b, c);
    }
  }

  /** A single character is dropped when it is `c` and kept otherwise. */
  lemma RemoveAllChar(x: char, c: char)
    ensures RemoveAll([x], c) == if x == c then [] else [x]
  {
  }

  /** Strip works piece by piece as well, and on one character it drops exactly a line break. */
  lemma StripAppend(a: string, b: string)
    ensures Strip(a + b) == Strip(a) + Strip(b)
  {
    RemoveAllAppend(a, b, '\r');
    RemoveAllAppend(RemoveAll(a, '\r'), RemoveAll(b, '\r'), '\n');
  }

  lemma StripChar(x: char)
    ensures Strip([x]) == if x == '\r' || x == '\n' then [] else [x]
  {
    RemoveAllChar(x, '\r');
    if x != '\r' {
      RemoveAllChar(x, '\n');
    }
  }

  /** A text without line breaks goes through Strip unchanged, and Strip is idempotent. */
  lemma StripClean(s: string)
    requires NoLineBreak(s)
    ensures Strip(s) == s
  {
    RemoveAllAbsent(s, '\r');
    RemoveAllAbsent(s, '\n');
  }

  lemma StripIdempotent(s: string)
    ensures Strip(Strip(s)) == Strip(s)
  {
    StripClean(Strip(s));
  }

  /** Lines of a text without line feeds: the text itself. */
  lemma {:induction false} LinesOfLine(a: string)
    requires OneLine(a)
    ensures Lines(a) == [a]
  {
    if a != [] {
      assert OneLine(a[1..]);
      LinesOfLine(a[1..]);
      assert a == [a[0]] + a[1..];
    }
  }

  /** A line feed after a line without line feeds ends that line. */
  lemma {:induction false} LinesAppend(a: string, b: string)
    requires OneLine(a)
    ensures Lines(a + "\n" + b) == [a] + Lines(b)
  {
    if a == [] {
      assert a + "\n" + b == ['\n'] + b;
      assert (['\n'] + b)[1..] == b;
    } else {
      var s := a + "\n" + b;
      assert s[0] == a[0] && s[1..] == a[1..] + "\n" + b;
      assert OneLine(a[1..]);
      LinesAppend(a[1..], b);
      assert [a[0]] + a[1..] == a;
    }
  }

  /** Splitting at line feeds undoes joining with "\n": each joined piece is one line. */
  lemma {:induction false} LinesOfJoin(xs: seq<string>)
    requires |xs| >= 1
    requires forall i :: 0 <= i < |xs| ==> OneLine(xs[i])
    ensures Lines(Join(xs, "\n")) == xs
  {
    if |xs| == 1 {
      LinesOfLine(xs[0]);
    } else {
      LinesOfJoin(xs[1..]);
      LinesAppend(xs[0], Join(xs[1..], "\n"));
      assert xs == [xs[0]] + xs[1..];
    }
  }

  /** A one-line header above lines joined with "\n". */
  lemma LinesUnderHeader(h: string, rows: seq<string>)
    requires OneLine(h) && |rows| >= 1
    requires forall i :: 0 <= i < |rows| ==> OneLine(rows[i])
    ensures Lines(UnderHeader(h, rows)) == [h] + rows
  {
    LinesOfJoin(rows);
    LinesAppend(h, Join(rows, "\n"));
  }

  /** The lines of joined rows: the rows, or one empty line when there are none. */
  lemma LinesOfRows(rows: seq<string>)
    requires forall i :: 0 <= i < |rows| ==> OneLine(rows[i])
    ensures Lines(Join(rows, "\n")) == if rows == [] then [""] else rows
  {
    if rows != [] {
      LinesOfJoin(rows);
    }
  }

  /** A title line, a column-header line, then the rows joined with "\n" (one empty line when there are none). */
  lemma LinesOfTable(title: string, head: string, rows: seq<string>)
    requires OneLine(title) && OneLine(head)
    requires forall i :: 0 <= i < |rows| ==> OneLine(rows[i])
    ensures Lines(UnderHeader(title, [head, Join(rows, "\n")])) == [title] + ([head] + (if rows == [] then [""] else rows))
  {
    var body := if rows == [] then [""] else rows;
    LinesOfRows(rows);
    var under := head + "\n" + Join(rows, "\n");
    assert Join([head, Join(rows, "\n")], "\n") == under;
    LinesAppend(head, Join(rows, "\n"));
    LinesAppend(title, under);
  }

  /** The column layout: `a`, padding spaces up to the width of 20, one space, then `b`. */
  lemma ColumnLayout(a: string, b: string)
    ensures var r := Column(a, b);
      |r| == (if |a| < 20 then 20 else |a|) + 1 + |b| &&
      r[..|a|] == a && r[|r| - |b|..] == b &&
      forall k :: |a| <= k < |r| - |b| ==> r[k] == ' '
  {
  }

  /** A column built from two one-line texts is one line. */
  lemma ColumnOneLine(a: string, b: string)
    requires OneLine(a) && OneLine(b)
    ensures OneLine(Column(a, b))
  {
  }
}
