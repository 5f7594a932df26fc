/** The log tailer of `LogReader` (and of the static `_file`/`_lastMaxOffset` pair in the
    older root `Program`): an active file and an offset into it. Startup and every
    file-creation notification point the tailer at a file and move the offset to that
    file's current length; every poll tick reads whatever lies past the offset, line by
    line, and moves the offset to where the read stopped. A file is its path, its last
    write time and its text; the directory is the listing of the `*.log` files. */
module LogReading {
  import opened Common
  import opened Text

  datatype LogFile = LogFile(path: string, lastWriteTime: int, content: string)

  /** The `*.log` files of the watched directory, in the order the listing returns them. */
  type Directory = seq<LogFile>

  /** The text of the file at `path`, or `None` when no such file exists. */
  function Lookup(dir: Directory, path: string): (r: Option<string>)
    ensures r.None? <==> forall i :: 0 <= i < |dir| ==> dir[i].path != path
    ensures r.Some? ==> exists i :: 0 <= i < |dir| && dir[i].path == path && dir[i].content == r.value
    decreases |dir|
  {
    if |dir| == 0 then None
    else if dir[0].path == path then Some(dir[0].content)
    else Lookup(dir[1..], path)
  }

  // ---------------------------------------------------------------------------
  // Reading lines: `StreamReader.ReadLine`

  predicate IsLineBreak(c: char)
  {
    c == '\n' || c == '\r'
  }

  /** The index of the first line break at or after `pos`, or the end of the text. */
  function LineEnd(s: string, pos: nat): (e: nat)
    requires pos <= |s|
    ensures pos <= e <= |s|
    ensures e < |s| ==> IsLineBreak(s[e])
    decreases |s| - pos
  {
    if pos == |s| || IsLineBreak(s[pos]) then pos else LineEnd(s, pos + 1)
  }

  /** No line break comes before `LineEnd`: it is the first one. */
  lemma {:induction false} LineHasNoBreak(s: string, pos: nat)
    requires pos <= |s|
    ensures '\n' !in s[pos..LineEnd(s, pos)] && '\r' !in s[pos..LineEnd(s, pos)]
    decreases |s| - pos
  {
    if pos < |s| && !IsLineBreak(s[pos]) {
      LineHasNoBreak(s, pos + 1);
      assert s[pos..LineEnd(s, pos)] == [s[pos]] + s[pos + 1..LineEnd(s, pos + 1)];
    }
  }

  /** `StreamReader.ReadLine()` with the reader at `pos`: the text up to the next `\n`,
      `\r` or `\r\n`, without the terminator, and the position just past the terminator.
      At the end of the text the unterminated rest is a line too. */
  function ReadLine(s: string, pos: nat): (r: (string, nat))
    requires pos < |s|
    ensures pos < r.1 <= |s|
    ensures |r.0| <= |s| - pos && r.0 == s[pos..pos + |r.0|]
    ensures '\n' !in r.0 && '\r' !in r.0
  {
    var e := LineEnd(s, pos);
    LineHasNoBreak(s, pos);
    var next :=
      if e == |s| then e
      else if s[e] == '\r' && e + 1 < |s| && s[e + 1] == '\n' then e + 2
      else e + 1;
    (s[pos..e], next)
  }

  /** Every line `ReadLine` returns from `pos` until it returns `null` at the end. */
  function LinesFrom(s: string, pos: nat): (lines: seq<string>)
    decreases |s| - pos
  {
    if pos >= |s| then []
    else
      var (line, next) := ReadLine(s, pos);
      [line] + LinesFrom(s, next)
  }

  /** Splitting on newlines, the reference reading of a text: a final newline ends the
      last line rather than starting an empty one, and an empty text has no lines. */
  function SplitLines(s: string): seq<string>
  {
    if |s| == 0 then []
    else if s[|s| - 1] == '\n' then Split(s[..|s| - 1], '\n')
    else Split(s, '\n')
  }

  /** A line without a newline is read as itself. */
  lemma SplitLinesSingle(a: string)
    requires |a| > 0 && '\n' !in a
    ensures SplitLines(a) == [a]
  {
    SplitNoSep(a, '\n');
  }

  /** A line followed by a newline and more text. */
  lemma SplitLinesCons(a: string, b: string)
    requires '\n' !in a
    ensures SplitLines(a + ['\n'] + b) == [a] + SplitLines(b)
  {
    var t := a + ['\n'] + b;
    if |b| == 0 {
      assert t[..|t| - 1] == a;
      SplitNoSep(a, '\n');
    } else if b[|b| - 1] == '\n' {
      assert t[..|t| - 1] == a + ['\n'] + b[..|b| - 1];
      SplitCons(a, '\n', b[..|b| - 1]);
    } else {
      SplitCons(a, '\n', b);
    }
  }

  /** One step of reading: the line at `pos`, then the lines after its terminator. */
  lemma LinesFromUnfold(s: string, pos: nat)
    requires pos < |s|
    ensures LinesFrom(s, pos) == [ReadLine(s, pos).0] + LinesFrom(s, ReadLine(s, pos).1)
  {
  }

  /** One pass of the reading loop keeps the lines so far, followed by the lines still
      to read, equal to every line from the start: the line read is left as it is by
      `TrimEnd('\n')` and is the first line still to read. */
  lemma ReadStep(s: string, start: nat, pos: nat, lines: seq<string>)
    requires pos < |s| && lines + LinesFrom(s, pos) == LinesFrom(s, start)
    ensures lines + [TrimEnd(ReadLine(s, pos).0, {'\n'})] + LinesFrom(s, ReadLine(s, pos).1)
            == LinesFrom(s, start)
  {
    var r := ReadLine(s, pos);
    NewlineFreeKept(r.0);
    LinesFromUnfold(s, pos);
    assert lines + [r.0] + LinesFrom(s, r.1) == lines + ([r.0] + LinesFrom(s, r.1));
  }

  /** `TrimEnd('\n')` leaves a line without a newline as it is. */
  lemma NewlineFreeKept(line: string)
    requires '\n' !in line
    ensures TrimEnd(line, {'\n'}) == line
  {
    assert |line| == 0 || line[|line| - 1] != '\n';
    TrimEndNoop(line, {'\n'});
  }

  /** Each read consumes at least one character, so there are at most as many lines
      as characters left, and at least one while any are left. */
  lemma {:induction false} LinesFromCount(s: string, pos: nat)
    ensures pos >= |s| ==> LinesFrom(s, pos) == []
    ensures pos < |s| ==> 1 <= |LinesFrom(s, pos)| <= |s| - pos
    decreases |s| - pos
  {
    if pos < |s| {
      var next := ReadLine(s, pos).1;
      LinesFromCount(s, next);
    }
  }

  /** Without carriage returns, a line that runs to the end of the text is the last. */
  lemma LinesFromLast(s: string, pos: nat)
    requires pos < |s| && LineEnd(s, pos) == |s|
    ensures LinesFrom(s, pos) == [s[pos..]]
  {
    LinesFromUnfold(s, pos);
    assert ReadLine(s, pos).1 == |s|;
    assert ReadLine(s, pos).0 == s[pos..|s|] == s[pos..];
    assert LinesFrom(s, |s|) == [];
  }

  /** Without carriage returns, a line that ends before the end of the text ends at a
      newline, and reading resumes just past it. */
  lemma LinesFromNext(s: string, pos: nat)
    requires pos < |s| && LineEnd(s, pos) < |s| && '\r' !in s[pos..]
    ensures s[LineEnd(s, pos)] == '\n'
    ensures '\r' !in s[LineEnd(s, pos) + 1..]
    ensures LinesFrom(s, pos) == [s[pos..LineEnd(s, pos)]] + LinesFrom(s, LineEnd(s, pos) + 1)
  {
    var e := LineEnd(s, pos);
    assert s[e] == s[pos..][e - pos];
    assert s[e + 1..] == s[pos..][e + 1 - pos..];
    LinesFromUnfold(s, pos);
    assert ReadLine(s, pos) == (s[pos..e], e + 1);
  }

  /** Splitting a text whose first newline is at `e`. */
  lemma SplitLinesAt(s: string, pos: nat, e: nat)
    requires pos <= e < |s| && s[e] == '\n' && '\n' !in s[pos..e]
    ensures SplitLines(s[pos..]) == [s[pos..e]] + SplitLines(s[e + 1..])
  {
    assert s[pos..] == s[pos..e] + ['\n'] + s[e + 1..];
    SplitLinesCons(s[pos..e], s[e + 1..]);
  }

  /** The last line, when it has no terminator, is read and split alike. */
  lemma LastLineAgrees(s: string, pos: nat)
    requires pos < |s| && LineEnd(s, pos) == |s|
    ensures LinesFrom(s, pos) == SplitLines(s[pos..])
  {
    LineHasNoBreak(s, pos);
    LinesFromLast(s, pos);
    assert s[pos..LineEnd(s, pos)] == s[pos..];
    SplitLinesSingle(s[pos..]);
  }

  /** A line ended by a newline is read and split alike, given that the text after the
      newline is. */
  lemma NextLineAgrees(s: string, pos: nat)
    requires pos < |s| && LineEnd(s, pos) < |s| && '\r' !in s[pos..]
    requires LinesFrom(s, LineEnd(s, pos) + 1) == SplitLines(s[LineEnd(s, pos) + 1..])
    ensures LinesFrom(s, pos) == SplitLines(s[pos..])
  {
    var e := LineEnd(s, pos);
    LinesFromNext(s, pos);
    LineHasNoBreak(s, pos);
    SplitLinesAt(s, pos, e);
  }

  /** At the end of the text there is nothing left to read. */
  lemma EndAgrees(s: string, pos: nat)
    requires pos == |s|
    ensures LinesFrom(s, pos) == SplitLines(s[pos..])
  {
    assert s[pos..] == [];
  }

  /** On text without carriage returns, reading line by line is splitting on newlines;
      a trailing segment without a newline is returned as a line of its own. */
  lemma {:induction false} LinesFromIsSplitLines(s: string, pos: nat)
    requires pos <= |s| && '\r' !in s[pos..]
    ensures LinesFrom(s, pos) == SplitLines(s[pos..])
    decreases |s| - pos
  {
    if pos == |s| {
      EndAgrees(s, pos);
    } else if LineEnd(s, pos) == |s| {
      LastLineAgrees(s, pos);
    } else {
      LinesFromNext(s, pos);
      LinesFromIsSplitLines(s, LineEnd(s, pos) + 1);
      NextLineAgrees(s, pos);
    }
  }

  /** Where a line ends depends only on the text from the reading position on. */
  lemma {:induction false} LineEndShift(s: string, pos: nat, t: string, k: nat)
    requires pos <= |s| && k <= |t| && s[pos..] == t[k..]
    ensures LineEnd(s, pos) - pos == LineEnd(t, k) - k
    decreases |s| - pos
  {
    if pos < |s| {
      assert s[pos] == s[pos..][0] == t[k..][0] == t[k];
      if !IsLineBreak(s[pos]) {
        assert s[pos + 1..] == s[pos..][1..] == t[k..][1..] == t[k + 1..];
        LineEndShift(s, pos + 1, t, k + 1);
      }
    }
  }

  /** Two texts that agree from `pos` and `k` on agree at every later position. */
  lemma SuffixAt(s: string, pos: nat, t: string, k: nat, i: nat)
    requires pos <= i <= |s| && k <= |t| && s[pos..] == t[k..]
    ensures k + (i - pos) <= |t| && s[i..] == t[k + (i - pos)..]
    ensures i < |s| ==> s[i] == t[k + (i - pos)]
  {
    assert |s| - pos == |t| - k;
    assert s[i..] == s[pos..][i - pos..];
    assert t[k + (i - pos)..] == t[k..][i - pos..];
    if i < |s| {
      assert s[i] == s[pos..][i - pos];
      assert t[k + (i - pos)] == t[k..][i - pos];
    }
  }

  /** Two texts that agree from `pos` and `k` on agree on every stretch that follows. */
  lemma PrefixAt(s: string, pos: nat, t: string, k: nat, e: nat)
    requires pos <= e <= |s| && k <= |t| && s[pos..] == t[k..]
    ensures k + (e - pos) <= |t| && s[pos..e] == t[k..k + (e - pos)]
  {
    assert |s| - pos == |t| - k;
    assert s[pos..e] == s[pos..][..e - pos];
    assert t[k..k + (e - pos)] == t[k..][..e - pos];
  }

  /** The line read at `pos` and the distance to the next line depend only on the text
      from `pos` on. */
  lemma ReadLineShift(s: string, pos: nat, t: string, k: nat)
    requires pos < |s| && k <= |t| && s[pos..] == t[k..]
    ensures k < |t|
    ensures ReadLine(s, pos).0 == ReadLine(t, k).0
    ensures ReadLine(s, pos).1 - pos == ReadLine(t, k).1 - k
    ensures s[ReadLine(s, pos).1..] == t[ReadLine(t, k).1..]
  {
    LineEndShift(s, pos, t, k);
    var e := LineEnd(s, pos);
    PrefixAt(s, pos, t, k, e);
    SuffixAt(s, pos, t, k, e);
    if e + 1 <= |s| {
      SuffixAt(s, pos, t, k, e + 1);
    }
    SuffixAt(s, pos, t, k, ReadLine(s, pos).1);
  }

  /** The lines read from `pos` depend only on the text from `pos` on. */
  lemma {:induction false} LinesFromShift(s: string, pos: nat, t: string, k: nat)
    requires pos <= |s| && k <= |t| && s[pos..] == t[k..]
    ensures LinesFrom(s, pos) == LinesFrom(t, k)
    decreases |s| - pos
  {
    assert |s| - pos == |t| - k;
    if pos < |s| {
      ReadLineShift(s, pos, t, k);
      LinesFromUnfold(s, pos);
      LinesFromUnfold(t, k);
      LinesFromShift(s, ReadLine(s, pos).1, t, ReadLine(t, k).1);
    }
  }

  // ---------------------------------------------------------------------------
  // Choosing the active file

  datatype TailError = NoLogFile | FileNotFound(path: string)

  /** `GetLastLogFile` as written: the `OrderBy(LastWriteTime)` result is discarded, so
      `Files.Last()` is the last file of the listing, and on an empty listing `Last()`
      throws. */
  function GetLastLogFile(dir: Directory): (r: Result<string, TailError>)
    ensures r.Err? <==> |dir| == 0
    ensures r.Ok? ==> r.value == dir[|dir| - 1].path
  {
    if |dir| == 0 then Err(NoLogFile) else Ok(dir[|dir| - 1].path)
  }

  /** The choice of the file with the latest write time ignores write times entirely:
      two listings that name the same files in the same order give the same choice. */
  lemma GetLastLogFileIgnoresWriteTime(d1: Directory, d2: Directory)
    requires |d1| == |d2|
    requires forall i :: 0 <= i < |d1| ==> d1[i].path == d2[i].path
    ensures GetLastLogFile(d1) == GetLastLogFile(d2)
  {
  }

  /** The position of `Files.OrderBy(f => f.LastWriteTime).Last()`: a file with the
      latest write time, and since the sort is stable, the last such file of the listing. */
  function NewestIndex(dir: Directory): (k: nat)
    requires |dir| > 0
    ensures k < |dir|
    ensures forall j :: 0 <= j < |dir| ==> dir[j].lastWriteTime <= dir[k].lastWriteTime
    ensures forall j :: k < j < |dir| ==> dir[j].lastWriteTime < dir[k].lastWriteTime
    decreases |dir|
  {
    if |dir| == 1 then 0
    else
      var k := NewestIndex(dir[..|dir| - 1]);
      if dir[|dir| - 1].lastWriteTime >= dir[k].lastWriteTime then |dir| - 1 else k
  }

  /** The most recently written log file, which is what the discarded sort was for. */
  function NewestLogFile(dir: Directory): (r: Result<string, TailError>)
    ensures r.Err? <==> |dir| == 0
    ensures r.Ok? ==> exists k :: 0 <= k < |dir| && dir[k].path == r.value
                         && (forall j :: 0 <= j < |dir| ==> dir[j].lastWriteTime <= dir[k].lastWriteTime)
  {
    if |dir| == 0 then Err(NoLogFile) else Ok(dir[NewestIndex(dir)].path)
  }

  /** A listing on which the two choices differ: the newest file is listed first. */
  lemma LastListedIsNotNewest()
    ensures var dir := [LogFile("new.log", 2, ""), LogFile("old.log", 1, "")];
            GetLastLogFile(dir) == Ok("old.log") && NewestLogFile(dir) == Ok("new.log")
  {
    var dir := [LogFile("new.log", 2, ""), LogFile("old.log", 1, "")];
    assert NewestIndex(dir[..1]) == 0;
  }

  // ---------------------------------------------------------------------------
  // The tailer's state machine

  /** `_file` (by path) and `_lastMaxOffset`. */
  datatype TailState = TailState(file: Option<string>, offset: nat)

  /** `ReadFile(path)`, which is also all of `OnCreated`: `_file` is set first, then
      `_file.Length` is read into the offset; on a missing file that read throws and
      the offset keeps its old value. */
  function ReadFileStep(st: TailState, path: string, dir: Directory): (r: (TailState, Outcome<TailError>))
    ensures r.0.file == Some(path)
    ensures r.1.Pass? <==> Lookup(dir, path).Some?
    ensures r.1.Pass? ==> r.0.offset == |Lookup(dir, path).value|
    ensures r.1.Fail? ==> r.0.offset == st.offset && r.1.error == FileNotFound(path)
  {
    match Lookup(dir, path)
    case None => (TailState(Some(path), st.offset), Fail(FileNotFound(path)))
    case Some(content) => (TailState(Some(path), |content|), Pass)
  }

  /** `WatchDirectory` at construction, starting from the fields' initial values: the
      active file is the newest log file and the offset skips everything already in it.
      (The listing's own last file, the choice as written, is `GetLastLogFile`.) */
  function WatchDirectoryStep(dir: Directory): (r: Result<TailState, TailError>)
    ensures r.Err? <==> |dir| == 0
    ensures r.Err? ==> r.error == NoLogFile
    ensures r.Ok? ==> NewestLogFile(dir).Ok? && r.value.file == Some(NewestLogFile(dir).value)
                      && Lookup(dir, NewestLogFile(dir).value).Some?
                      && r.value.offset == |Lookup(dir, NewestLogFile(dir).value).value|
  {
    match NewestLogFile(dir)
    case Err(e) => Err(e)
    case Ok(path) =>
      var (st, out) := ReadFileStep(TailState(None, 0), path, dir);
      match out
      case Pass => Ok(st)
      case Fail(e) => Err(e)
  }

  /** `WatchDirectory` at construction exactly as written: the active file is the last
      file of the listing, whatever the write times, and the offset skips everything
      already in it. */
  function WatchDirectoryAsWritten(dir: Directory): (r: Result<TailState, TailError>)
    ensures r.Err? <==> |dir| == 0
    ensures r.Err? ==> r.error == NoLogFile
    ensures r.Ok? ==> r.value.file == Some(dir[|dir| - 1].path)
                      && Lookup(dir, dir[|dir| - 1].path).Some?
                      && r.value.offset == |Lookup(dir, dir[|dir| - 1].path).value|
  {
    match GetLastLogFile(dir)
    case Err(e) => Err(e)
    case Ok(path) =>
      var (st, out) := ReadFileStep(TailState(None, 0), path, dir);
      match out
      case Pass => Ok(st)
      case Fail(e) => Err(e)
  }

  /** One poll tick of `ReadAsync`: no active file is an idle tick; a missing active file
      throws; an unchanged length is an idle tick; otherwise every line past the offset
      is read and the offset moves to where reading stopped, which is the end of the
      file, or the old offset itself when the file has shrunk below it. */
  function TickStep(st: TailState, dir: Directory): (r: (TailState, Result<seq<string>, TailError>))
    ensures r.0.file == st.file
    ensures r.1.Err? <==> st.file.Some? && Lookup(dir, st.file.value).None?
    ensures r.1.Err? ==> r.0 == st && r.1.error == FileNotFound(st.file.value)
    ensures st.offset <= r.0.offset
    ensures r.1.Ok? && st.file.Some? ==> |Lookup(dir, st.file.value).value| <= r.0.offset
  {
    match st.file
    case None => (st, Ok([]))
    case Some(path) =>
      match Lookup(dir, path)
      case None => (st, Err(FileNotFound(path)))
      case Some(content) =>
        if |content| == st.offset then (st, Ok([]))
        else
          var next := if st.offset <= |content| then |content| else st.offset;
          (TailState(st.file, next), Ok(LinesFrom(content, st.offset)))
  }

  /** A tick on an active file whose length differs from the offset reads every line
      from the offset on. */
  lemma TickStepReads(st: TailState, dir: Directory, path: string, s: string)
    requires st.file == Some(path) && Lookup(dir, path) == Some(s) && |s| != st.offset
    ensures TickStep(st, dir) == (TailState(Some(path), if st.offset <= |s| then |s| else st.offset),
                                  Ok(LinesFrom(s, st.offset)))
  {
  }

  /** A tick on an active file that has not shrunk below the offset moves the offset to
      the file's length and consumes the text in between. */
  lemma TickOnGrowth(st: TailState, dir: Directory, path: string)
    requires st.file == Some(path) && Lookup(dir, path).Some?
    requires st.offset <= |Lookup(dir, path).value|
    ensures TickStep(st, dir).0 == TailState(Some(path), |Lookup(dir, path).value|)
    ensures TickRead(st, dir) == Lookup(dir, path).value[st.offset..]
  {
  }

  /** The text a tick consumes: what lies past the offset in the active file. */
  function TickRead(st: TailState, dir: Directory): string
  {
    if st.file.Some? && Lookup(dir, st.file.value).Some? && st.offset < |Lookup(dir, st.file.value).value|
    then Lookup(dir, st.file.value).value[st.offset..]
    else ""
  }

  /** A tick yields exactly the lines of the text past the offset, and moves the offset
      by exactly the length of that text: nothing is skipped and nothing is read twice. */
  lemma TickYieldsLinesOfNewText(st: TailState, dir: Directory)
    ensures TickStep(st, dir).1.Ok? ==>
              TickStep(st, dir).1.value == LinesFrom(TickRead(st, dir), 0)
              && TickStep(st, dir).0.offset == st.offset + |TickRead(st, dir)|
    ensures TickStep(st, dir).1.Ok? && '\r' !in TickRead(st, dir) ==>
              TickStep(st, dir).1.value == SplitLines(TickRead(st, dir))
  {
    var read := TickRead(st, dir);
    if st.file.Some? && Lookup(dir, st.file.value).Some? {
      var content := Lookup(dir, st.file.value).value;
      if st.offset < |content| {
        LinesFromShift(content, st.offset, read, 0);
      }
    }
    if '\r' !in read {
      assert read[0..] == read;
      LinesFromIsSplitLines(read, 0);
    }
  }

  /** Polling again with nothing written in between yields nothing and changes nothing. */
  lemma SecondTickIsIdle(st: TailState, dir: Directory)
    requires TickStep(st, dir).1.Ok?
    ensures TickStep(TickStep(st, dir).0, dir) == (TickStep(st, dir).0, Ok([]))
    ensures TickRead(TickStep(st, dir).0, dir) == ""
  {
  }

  /** The text consumed by a run of ticks over successive snapshots of the directory. */
  function RunRead(st: TailState, dirs: seq<Directory>): string
    decreases |dirs|
  {
    if |dirs| == 0 then ""
    else TickRead(st, dirs[0]) + RunRead(TickStep(st, dirs[0]).0, dirs[1..])
  }

  /** The state after a run of ticks. */
  function RunState(st: TailState, dirs: seq<Directory>): TailState
    decreases |dirs|
  {
    if |dirs| == 0 then st else RunState(TickStep(st, dirs[0]).0, dirs[1..])
  }

  /** The active file exists in every snapshot and only grows from one to the next. */
  ghost predicate AppendOnly(path: string, dirs: seq<Directory>)
  {
    (forall i :: 0 <= i < |dirs| ==> Lookup(dirs[i], path).Some?)
    && (forall i :: 0 <= i < |dirs| - 1 ==> Lookup(dirs[i], path).value <= Lookup(dirs[i + 1], path).value)
  }

  /** A run of snapshots that only grow keeps doing so without its first snapshot. */
  lemma AppendOnlyTail(path: string, dirs: seq<Directory>)
    requires |dirs| > 1 && AppendOnly(path, dirs)
    ensures AppendOnly(path, dirs[1..])
    ensures Lookup(dirs[0], path).value <= Lookup(dirs[1..][0], path).value
  {
    var rest := dirs[1..];
    forall i | 0 <= i < |rest| - 1
      ensures Lookup(rest[i], path).value <= Lookup(rest[i + 1], path).value
    {
      assert rest[i] == dirs[i + 1] && rest[i + 1] == dirs[i + 2];
    }
  }

  /** Text read up to a prefix, then past it, is the text read from the start. */
  lemma PrefixSlices(a: string, b: string, c: string, k: nat)
    requires a <= b && b <= c && k <= |a|
    ensures a <= c
    ensures a[k..] + c[|a|..] == c[k..]
  {
    assert a == c[..|a|];
  }

  /** While the game only appends to the active file, the ticks together consume the
      file's final text from the starting offset on, each character exactly once, and
      end with the offset at the file's final length. */
  lemma {:induction false} AppendOnlyRunReadsEverythingOnce(st: TailState, path: string, dirs: seq<Directory>)
    requires st.file == Some(path) && |dirs| > 0 && AppendOnly(path, dirs)
    requires st.offset <= |Lookup(dirs[0], path).value|
    ensures Lookup(dirs[0], path).value <= Lookup(dirs[|dirs| - 1], path).value
    ensures RunRead(st, dirs) == Lookup(dirs[|dirs| - 1], path).value[st.offset..]
    ensures RunState(st, dirs) == TailState(Some(path), |Lookup(dirs[|dirs| - 1], path).value|)
    decreases |dirs|
  {
    var c0 := Lookup(dirs[0], path).value;
    var st' := TickStep(st, dirs[0]).0;
    TickOnGrowth(st, dirs[0], path);
    if |dirs| > 1 {
      var rest := dirs[1..];
      AppendOnlyTail(path, dirs);
      AppendOnlyRunReadsEverythingOnce(st', path, rest);
      assert rest[|rest| - 1] == dirs[|dirs| - 1];
      PrefixSlices(c0, Lookup(rest[0], path).value, Lookup(dirs[|dirs| - 1], path).value, st.offset);
    }
  }

  /** After startup, the first tick that sees new text in the chosen file yields the lines
      of the appended text only: the history already in the file is never replayed. */
  lemma StartupSkipsHistory(dir: Directory, later: Directory, appended: string)
    requires WatchDirectoryStep(dir).Ok?
    requires var path := WatchDirectoryStep(dir).value.file.value;
             Lookup(later, path) == Some(Lookup(dir, path).value + appended)
    ensures TickStep(WatchDirectoryStep(dir).value, later).1 == Ok(LinesFrom(appended, 0))
  {
    var st := WatchDirectoryStep(dir).value;
    TickAfterContent(st, Lookup(dir, st.file.value).value, later, appended);
  }

  /** The same holds for the startup as written, for whichever file it chose. */
  lemma StartupSkipsHistoryAsWritten(dir: Directory, later: Directory, appended: string)
    requires WatchDirectoryAsWritten(dir).Ok?
    requires var path := WatchDirectoryAsWritten(dir).value.file.value;
             Lookup(later, path) == Some(Lookup(dir, path).value + appended)
    ensures TickStep(WatchDirectoryAsWritten(dir).value, later).1 == Ok(LinesFrom(appended, 0))
  {
    var st := WatchDirectoryAsWritten(dir).value;
    TickAfterContent(st, Lookup(dir, st.file.value).value, later, appended);
  }

  /** A tick whose offset stands at the end of `c`, on a file that now holds `c` followed
      by `appended`, yields the lines of `appended`. */
  lemma TickAfterContent(st: TailState, c: string, later: Directory, appended: string)
    requires st.file.Some? && st.offset == |c|
    requires Lookup(later, st.file.value) == Some(c + appended)
    ensures TickStep(st, later).1 == Ok(LinesFrom(appended, 0))
  {
    var s := c + appended;
    assert s[|c|..] == appended;
    LinesFromShift(s, |c|, appended, 0);
  }

  /** The tailer object: the file it follows and how far into it it has read. */
  class LogReader {
    var file: Option<string>
    var lastMaxOffset: nat

    function State(): TailState
      reads this
    {
      TailState(file, lastMaxOffset)
    }

    /** Field initial values, before `WatchDirectory` runs. */
    constructor ()
      ensures State() == TailState(None, 0)
    {
      file := None;
      lastMaxOffset := 0;
    }

    /** `new LogReader(path)`: construction runs `WatchDirectory`, whose exception on an
        empty listing (or a vanished file) escapes the constructor. */
    static method Open(dir: Directory) returns (r: Result<LogReader, TailError>)
      ensures r.Ok? ==> fresh(r.value) && WatchDirectoryStep(dir) == Ok(r.value.State())
      ensures r.Err? ==> WatchDirectoryStep(dir) == Err(r.error)
    {
      var reader := new LogReader();
      var chosen := NewestLogFile(dir);
      if chosen.Err? {
        return Err(chosen.error);
      }
      var out := reader.ReadFile(chosen.value, dir);
      if out.Fail? {
        return Err(out.error);
      }
      return Ok(reader);
    }

    /** `ReadFile(path)`: follow `path` from its current end. */
    method ReadFile(path: string, dir: Directory) returns (out: Outcome<TailError>)
      modifies this
      ensures (State(), out) == ReadFileStep(old(State()), path, dir)
    {
      file := Some(path);
      var found := Lookup(dir, path);
      if found.None? {
        return Fail(FileNotFound(path));
      }
      lastMaxOffset := |found.value|;
      return Pass;
    }

    /** `OnCreated`: a newly created log file becomes the active file. */
    method OnCreated(path: string, dir: Directory) returns (out: Outcome<TailError>)
      modifies this
      ensures (State(), out) == ReadFileStep(old(State()), path, dir)
    {
      out := ReadFile(path, dir);
    }

    /** One tick of `ReadAsync`: the lines it yields, in order. */
    method Tick(dir: Directory) returns (r: Result<seq<string>, TailError>)
      modifies this
      ensures (State(), r) == TickStep(old(State()), dir)
    {
      if file.None? {
        return Ok([]);
      }
      var path := file.value;
      var found := Lookup(dir, path);
      if found.None? {
        return Err(FileNotFound(path));
      }
      var s := found.value;
      if |s| == lastMaxOffset {
        return Ok([]);
      }
      TickStepReads(State(), dir, path, s);
      var lines, pos := ReadLines(s, lastMaxOffset);
      lastMaxOffset := pos;
      return Ok(lines);
    }
  }

  /** The reading loop of `ReadAsync`: `ReadLine` until it returns `null`, each line
      with `TrimEnd('\n')` applied, and the stream position where reading stopped. */
  method ReadLines(s: string, start: nat) returns (lines: seq<string>, pos: nat)
    ensures lines == LinesFrom(s, start)
    ensures pos == if start <= |s| then |s| else start
  {
    pos := start;
    lines := [];
    while pos < |s|
      invariant pos <= |s| || pos == start
      invariant lines + LinesFrom(s, pos) == LinesFrom(s, start)
      decreases |s| - pos
    {
      ReadStep(s, start, pos, lines);
      var (line, next) := ReadLine(s, pos);
      lines := lines + [TrimEnd(line, {'\n'})];
      pos := next;
    }
    assert LinesFrom(s, pos) == [];
  }
}
