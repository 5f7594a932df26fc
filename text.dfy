/** The .NET string operations the bot relies on: `String.Split(char)`,
    `String.Join(char or string, ...)`, `TrimEnd(chars)` and `Trim(chars)`. */
module Text {

  /** `s.Split(sep)`: every separator closes a segment and empty segments are kept,
      so the result is never empty (`"".Split(' ')` is `[""]`). */
  function Split(s: string, sep: char): (parts: seq<string>)
    ensures |parts| >= 1
    ensures forall i :: 0 <= i < |parts| ==> sep !in parts[i]
    decreases |s|
  {
    if |s| == 0 then [""]
    else
      var rest := Split(s[1..], sep);
      if s[0] == sep then [""] + rest
      else [[s[0]] + rest[0]] + rest[1..]
  }

  /** `String.Join(sep, parts)`: the parts with one separator between neighbours. */
  function Join(parts: seq<string>, sep: char): (s: string)
    ensures |parts| == 0 ==> s == ""
    ensures |parts| > 0 ==> parts[0] <= s
    decreases |parts|
  {
    if |parts| == 0 then ""
    else if |parts| == 1 then parts[0]
    else parts[0] + [sep] + Join(parts[1..], sep)
  }

  /** `s.TrimEnd(cs)`: drops every trailing character that belongs to `cs`. */
  function TrimEnd(s: string, cs: set<char>): (r: string)
    ensures |r| <= |s| && r == s[..|r|]
    ensures |r| > 0 ==> r[|r| - 1] !in cs
    ensures forall i :: |r| <= i < |s| ==> s[i] in cs
    decreases |s|
  {
    if |s| > 0 && s[|s| - 1] in cs then TrimEnd(s[..|s| - 1], cs) else s
  }

  /** `s.TrimStart(cs)`: drops every leading character that belongs to `cs`. */
  function TrimStart(s: string, cs: set<char>): (r: string)
    ensures |r| <= |s| && r == s[|s| - |r|..]
    ensures |r| > 0 ==> r[0] !in cs
    ensures forall i :: 0 <= i < |s| - |r| ==> s[i] in cs
    decreases |s|
  {
    if |s| > 0 && s[0] in cs then TrimStart(s[1..], cs) else s
  }

  /** `s.Trim(cs)`: trims both ends. */
  function Trim(s: string, cs: set<char>): (r: string)
    ensures |r| <= |s|
    ensures |r| > 0 ==> r[0] !in cs && r[|r| - 1] !in cs
  {
    var t := TrimEnd(s, cs);
    var r := TrimStart(t, cs);
    TrimStartKeepsLast(t, cs);
    r
  }

  /** Trimming the start of a non-empty result keeps the last character. */
  lemma TrimStartKeepsLast(t: string, cs: set<char>)
    ensures var r := TrimStart(t, cs); |r| > 0 ==> r[|r| - 1] == t[|t| - 1]
  {
    var r := TrimStart(t, cs);
    if |r| > 0 {
      assert r == t[|t| - |r|..];
    }
  }

  /** Splitting and joining again gives back the original string. */
  lemma {:induction false} JoinSplit(s: string, sep: char)
    ensures Join(Split(s, sep), sep) == s
    decreases |s|
  {
    if |s| > 0 {
      var rest := Split(s[1..], sep);
      JoinSplit(s[1..], sep);
      if s[0] == sep {
        assert ([""] + rest)[1..] == rest;
        assert [sep] + s[1..] == s;
      } else {
        var parts := [[s[0]] + rest[0]] + rest[1..];
        assert parts[1..] == rest[1..];
        if |rest| == 1 {
          assert Join(rest, sep) == rest[0];
        } else {
          assert Join(rest, sep) == rest[0] + [sep] + Join(rest[1..], sep);
          assert Join(parts, sep) == [s[0]] + rest[0] + [sep] + Join(rest[1..], sep);
        }
        assert [s[0]] + s[1..] == s;
      }
    }
  }

  /** A segment free of the separator followed by the separator splits off as one part. */
  lemma {:induction false} SplitCons(a: string, sep: char, b: string)
    requires sep !in a
    ensures Split(a + [sep] + b, sep) == [a] + Split(b, sep)
    decreases |a|
  {
    var s := a + [sep] + b;
    if |a| == 0 {
      assert s[1..] == b;
    } else {
      assert s[1..] == a[1..] + [sep] + b;
      SplitCons(a[1..], sep, b);
      assert [a[0]] + a[1..] == a;
    }
  }

  /** Three separator-free fields and the rest of the text. */
  lemma SplitThree(a: string, b: string, c: string, rest: string, sep: char)
    requires sep !in a && sep !in b && sep !in c
    ensures Split(a + [sep] + (b + [sep] + (c + [sep] + rest)), sep) == [a, b, c] + Split(rest, sep)
  {
    SplitCons(c, sep, rest);
    SplitCons(b, sep, c + [sep] + rest);
    SplitCons(a, sep, b + [sep] + (c + [sep] + rest));
  }

  /** A string without the separator is a single part. */
  lemma {:induction false} SplitNoSep(a: string, sep: char)
    requires sep !in a
    ensures Split(a, sep) == [a]
    decreases |a|
  {
    if |a| > 0 {
      SplitNoSep(a[1..], sep);
      assert [a[0]] + a[1..] == a;
    }
  }

  /** Joining separator-free parts and splitting again gives back the parts. */
  lemma {:induction false} SplitJoin(parts: seq<string>, sep: char)
    requires |parts| > 0
    requires forall i :: 0 <= i < |parts| ==> sep !in parts[i]
    ensures Split(Join(parts, sep), sep) == parts
    decreases |parts|
  {
    if |parts| == 1 {
      SplitNoSep(parts[0], sep);
    } else {
      SplitJoin(parts[1..], sep);
      SplitCons(parts[0], sep, Join(parts[1..], sep));
      assert [parts[0]] + parts[1..] == parts;
    }
  }

  /** A string whose last character is not trimmed is left unchanged. */
  lemma TrimEndNoop(s: string, cs: set<char>)
    requires |s| == 0 || s[|s| - 1] !in cs
    ensures TrimEnd(s, cs) == s
  {
  }

  /** A string with no trimmed character at either end is left unchanged by `Trim`. */
  lemma TrimNoop(s: string, cs: set<char>)
    requires |s| == 0 || (s[0] !in cs && s[|s| - 1] !in cs)
    ensures Trim(s, cs) == s
  {
  }

  /** A string with no trimmed character at its start is left unchanged by `TrimStart`. */
  lemma TrimStartNoop(s: string, cs: set<char>)
    requires |s| == 0 || s[0] !in cs
    ensures TrimStart(s, cs) == s
  {
  }

  lemma TrimEndDrop(s: string, c: char, cs: set<char>)
    requires c in cs
    ensures TrimEnd(s + [c], cs) == TrimEnd(s, cs)
  {
    assert (s + [c])[..|s|] == s;
  }

  lemma TrimStartDrop(c: char, s: string, cs: set<char>)
    requires c in cs
    ensures TrimStart([c] + s, cs) == TrimStart(s, cs)
  {
    assert ([c] + s)[1..] == s;
  }
}
