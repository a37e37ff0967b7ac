/** Scanning one file against the pattern list: `searchFileWithRegexes`, together with the
    record `printMatches` prints for each match (main.go). */
module Search {
  import opened Wrappers
  import opened Text

  /** The regular-expression engine, abstracted: whether a pattern compiles, and whether a
      compiled pattern finds at least one match anywhere in a line. */
  datatype Engine = Engine(compiles: string -> bool, matches: (string, string) -> bool)

  /** The precision of `%.100s`: how many characters of a matching line are printed. */
  const DisplayWidth: nat := 100

  /** What is printed for one match: the file, the 1-based line number and the line's text
      cut to `DisplayWidth` characters. */
  datatype MatchRecord = MatchRecord(path: string, lineNumber: nat, text: string)

  /** The record printed for the line at 0-based position `index`. */
  function RecordFor(path: string, index: nat, line: string): MatchRecord
  {
    MatchRecord(path, index + 1, Truncate(line, DisplayWidth))
  }

  /** `n` copies of `r`. */
  function Repeat(r: MatchRecord, n: nat): (rs: seq<MatchRecord>)
    ensures |rs| == n
    ensures forall k :: 0 <= k < n ==> rs[k] == r
  {
    if n == 0 then [] else Repeat(r, n - 1) + [r]
  }

  /** How many entries of `patterns` match `line`; an entry counts once however often it
      matches, and a pattern listed twice counts twice. */
  function LineHits(eng: Engine, line: string, patterns: seq<string>): nat
  {
    if patterns == [] then 0
    else
      var last := |patterns| - 1;
      LineHits(eng, line, patterns[..last]) + (if eng.matches(patterns[last], line) then 1 else 0)
  }

  /** The findings of a whole file: the pattern hits of every line. */
  function FileHits(eng: Engine, lines: seq<string>, patterns: seq<string>): nat
  {
    if lines == [] then 0
    else
      var last := |lines| - 1;
      FileHits(eng, lines[..last], patterns) + LineHits(eng, lines[last], patterns)
  }

  /** The records printed while scanning `lines`: for each line, one record per hit. */
  function FileRecords(eng: Engine, path: string, lines: seq<string>, patterns: seq<string>): seq<MatchRecord>
  {
    if lines == [] then []
    else
      var last := |lines| - 1;
      FileRecords(eng, path, lines[..last], patterns)
        + Repeat(RecordFor(path, last, lines[last]), LineHits(eng, lines[last], patterns))
  }

  /** The number of leading patterns that compile: the position of the first one that does not,
      or the length of the list when all do. */
  function LeadingValid(eng: Engine, patterns: seq<string>): (n: nat)
    ensures n <= |patterns|
    ensures forall k :: 0 <= k < n ==> eng.compiles(patterns[k])
    ensures n < |patterns| ==> !eng.compiles(patterns[n])
  {
    if patterns == [] || !eng.compiles(patterns[0]) then 0
    else 1 + LeadingValid(eng, patterns[1..])
  }

  /** Every pattern of the list compiles. */
  predicate AllCompile(eng: Engine, patterns: seq<string>)
  {
    forall k :: 0 <= k < |patterns| ==> eng.compiles(patterns[k])
  }

  /** The outcome of scanning one file: the count returned, the error returned, and the records
      printed on the way. */
  datatype ScanResult = ScanResult(count: nat, err: Option<Error>, records: seq<MatchRecord>)

  /** What `searchFileWithRegexes` does with a file whose read gave `content`. The first line is
      scanned before any other, so a pattern that does not compile stops the scan during the
      first line, after the matches of the patterns before it on that line were printed. */
  function Scan(eng: Engine, path: string, content: Option<string>, patterns: seq<string>): ScanResult
  {
    match content
    case None => ScanResult(0, Some(ReadError(path)), [])
    case Some(text) =>
      var lines := Split(text);
      var valid := LeadingValid(eng, patterns);
      if valid < |patterns| then
        ScanResult(0, Some(SyntaxError(patterns[valid])),
                   Repeat(RecordFor(path, 0, lines[0]), LineHits(eng, lines[0], patterns[..valid])))
      else
        ScanResult(FileHits(eng, lines, patterns), None, FileRecords(eng, path, lines, patterns))
  }

  /** `searchFileWithRegexes`: every line, then every pattern in order, is compiled and tried;
      a match adds one finding and prints one record; a compile error returns at once. */
  method SearchFileWithRegexes(eng: Engine, path: string, content: Option<string>, patterns: seq<string>)
    returns (count: nat, err: Option<Error>, records: seq<MatchRecord>)
    ensures ScanResult(count, err, records) == Scan(eng, path, content, patterns)
  {
    if content.None? {
      return 0, Some(ReadError(path)), [];
    }
    var lines := Split(content.value);
    var findings: nat := 0;
    records := [];
    var lineNum := 0;
    while lineNum < |lines|
      invariant 0 <= lineNum <= |lines|
      invariant 0 < lineNum ==> LeadingValid(eng, patterns) == |patterns|
      invariant findings == FileHits(eng, lines[..lineNum], patterns)
      invariant records == FileRecords(eng, path, lines[..lineNum], patterns)
    {
      var line := lines[lineNum];
      var record := RecordFor(path, lineNum, line);
      var j := 0;
      while j < |patterns|
        invariant 0 <= j <= |patterns|
        invariant j <= LeadingValid(eng, patterns)
        invariant findings == FileHits(eng, lines[..lineNum], patterns) + LineHits(eng, line, patterns[..j])
        invariant records == FileRecords(eng, path, lines[..lineNum], patterns)
                             + Repeat(record, LineHits(eng, line, patterns[..j]))
      {
        if !eng.compiles(patterns[j]) {
          return 0, Some(SyntaxError(patterns[j])), records;
        }
        assert patterns[..j + 1][..j] == patterns[..j];
        if eng.matches(patterns[j], line) {
          findings := findings + 1;
          records := records + [record];
        }
        j := j + 1;
      }
      assert patterns[..j] == patterns;
      assert lines[..lineNum + 1][..lineNum] == lines[..lineNum];
      lineNum := lineNum + 1;
    }
    assert lines[..lineNum] == lines;
    return findings, None, records;
  }

  /** The records printed for a file are exactly as many as its findings. */
  lemma {:induction false} RecordsPerFinding(eng: Engine, path: string, lines: seq<string>, patterns: seq<string>)
    ensures |FileRecords(eng, path, lines, patterns)| == FileHits(eng, lines, patterns)
    decreases |lines|
  {
    if lines != [] {
      RecordsPerFinding(eng, path, lines[..|lines| - 1], patterns);
    }
  }

  /** A line has a hit exactly when some pattern of the list matches it. */
  lemma {:induction false} LineHitsPositive(eng: Engine, line: string, patterns: seq<string>)
    ensures LineHits(eng, line, patterns) > 0 <==>
            exists j :: 0 <= j < |patterns| && eng.matches(patterns[j], line)
    decreases |patterns|
  {
    if patterns != [] {
      var last := |patterns| - 1;
      LineHitsPositive(eng, line, patterns[..last]);
      if LineHits(eng, line, patterns) == 0 {
        forall j | 0 <= j < |patterns| && eng.matches(patterns[j], line)
          ensures false
        {
        }
      }
    }
  }

  /** `r` names the file, one of its lines that some pattern matches, and that line's text cut
      to `DisplayWidth` characters. */
  predicate DescribesMatchingLine(eng: Engine, path: string, lines: seq<string>, patterns: seq<string>, r: MatchRecord)
  {
    && r.path == path
    && 1 <= r.lineNumber <= |lines|
    && r.text == Truncate(lines[r.lineNumber - 1], DisplayWidth)
    && LineHits(eng, lines[r.lineNumber - 1], patterns) > 0
  }

  /** Every record describes a matching line, and the records come in line order. */
  lemma {:induction false} RecordsDescribeMatchingLines(eng: Engine, path: string, lines: seq<string>, patterns: seq<string>)
    ensures forall k :: 0 <= k < |FileRecords(eng, path, lines, patterns)| ==>
      DescribesMatchingLine(eng, path, lines, patterns, FileRecords(eng, path, lines, patterns)[k])
    ensures forall a, b :: 0 <= a <= b < |FileRecords(eng, path, lines, patterns)| ==>
      FileRecords(eng, path, lines, patterns)[a].lineNumber <= FileRecords(eng, path, lines, patterns)[b].lineNumber
    decreases |lines|
  {
    if lines != [] {
      var last := |lines| - 1;
      var front := lines[..last];
      RecordsDescribeMatchingLines(eng, path, front, patterns);
      var before := FileRecords(eng, path, front, patterns);
      var hits := LineHits(eng, lines[last], patterns);
      var recs := FileRecords(eng, path, lines, patterns);
      assert recs == before + Repeat(RecordFor(path, last, lines[last]), hits);
      forall k | 0 <= k < |recs|
        ensures DescribesMatchingLine(eng, path, lines, patterns, recs[k])
        ensures k < |before| ==> recs[k].lineNumber <= last
        ensures k >= |before| ==> recs[k].lineNumber == |lines|
      {
        if k < |before| {
          assert recs[k] == before[k];
          assert DescribesMatchingLine(eng, path, front, patterns, before[k]);
          assert front[before[k].lineNumber - 1] == lines[before[k].lineNumber - 1];
        } else {
          assert recs[k] == RecordFor(path, last, lines[last]);
        }
      }
    }
  }

  /** The records of line `i` (0-based) fill the positions from the findings of the lines
      before it up to the findings of the lines up to it. */
  lemma {:induction false} RecordsOfLine(eng: Engine, path: string, lines: seq<string>, patterns: seq<string>, i: nat, k: nat)
    requires i < |lines|
    requires FileHits(eng, lines[..i], patterns) <= k < FileHits(eng, lines[..i + 1], patterns)
    ensures k < |FileRecords(eng, path, lines, patterns)|
    ensures FileRecords(eng, path, lines, patterns)[k] == RecordFor(path, i, lines[i])
    decreases |lines|
  {
    var last := |lines| - 1;
    var front := lines[..last];
    RecordsPerFinding(eng, path, front, patterns);
    if i == last {
      assert lines[..i + 1] == lines;
      assert lines[..i + 1][..i] == front;
    } else {
      assert front[..i] == lines[..i] && front[..i + 1] == lines[..i + 1];
      RecordsOfLine(eng, path, front, patterns, i, k);
      RecordsPerFinding(eng, path, front[..i + 1], patterns);
    }
  }

  /** The (line, pattern) positions where the pattern matches the line. */
  function MatchingPairs(eng: Engine, lines: seq<string>, patterns: seq<string>): set<(int, int)>
  {
    set i, j | 0 <= i < |lines| && 0 <= j < |patterns| && eng.matches(patterns[j], lines[i]) :: (i, j)
  }

  /** The matching positions on the line at position `i`. */
  function RowPairs(eng: Engine, i: int, line: string, patterns: seq<string>): set<(int, int)>
  {
    set j | 0 <= j < |patterns| && eng.matches(patterns[j], line) :: (i, j)
  }

  lemma {:induction false} RowPairsCount(eng: Engine, i: int, line: string, patterns: seq<string>)
    ensures |RowPairs(eng, i, line, patterns)| == LineHits(eng, line, patterns)
    decreases |patterns|
  {
    if patterns != [] {
      var last := |patterns| - 1;
      var front := patterns[..last];
      RowPairsCount(eng, i, line, front);
      var added: set<(int, int)> := if eng.matches(patterns[last], line) then {(i, last)} else {};
      assert RowPairs(eng, i, line, patterns) == RowPairs(eng, i, line, front) + added by {
        forall x | x in RowPairs(eng, i, line, patterns)
          ensures x in RowPairs(eng, i, line, front) + added
        {
          if x.1 < last {
            assert front[x.1] == patterns[x.1];
          }
        }
      }
      assert RowPairs(eng, i, line, front) * added == {};
    } else {
      assert RowPairs(eng, i, line, patterns) == {};
    }
  }

  /** A file's findings are the number of (line, pattern) positions at which the pattern
      matches the line: a line matched by two patterns counts twice, and a pattern matching
      a line several times counts once. */
  lemma {:induction false} FindingsAreMatchingPairs(eng: Engine, lines: seq<string>, patterns: seq<string>)
    ensures FileHits(eng, lines, patterns) == |MatchingPairs(eng, lines, patterns)|
    decreases |lines|
  {
    if lines != [] {
      var last := |lines| - 1;
      var front := lines[..last];
      FindingsAreMatchingPairs(eng, front, patterns);
      RowPairsCount(eng, last, lines[last], patterns);
      var row := RowPairs(eng, last, lines[last], patterns);
      assert MatchingPairs(eng, lines, patterns) == MatchingPairs(eng, front, patterns) + row by {
        forall x | x in MatchingPairs(eng, lines, patterns)
          ensures x in MatchingPairs(eng, front, patterns) + row
        {
          if x.0 < last {
            assert front[x.0] == lines[x.0];
          }
        }
        forall x | x in MatchingPairs(eng, front, patterns)
          ensures x in MatchingPairs(eng, lines, patterns)
        {
          assert front[x.0] == lines[x.0];
        }
      }
      assert MatchingPairs(eng, front, patterns) * row == {};
    } else {
      assert MatchingPairs(eng, lines, patterns) == {};
    }
  }

  /** A scan fails exactly when the file cannot be read or some pattern does not compile, and
      then it returns no findings: never a partial count. A read failure prints nothing; a
      compile failure names the first pattern that does not compile and has printed only records
      of the first line, at most one per pattern before that one. */
  lemma ScanFailsAsAWhole(eng: Engine, path: string, content: Option<string>, patterns: seq<string>)
    ensures var r := Scan(eng, path, content, patterns);
      && (r.err.Some? <==> content.None? || exists k :: 0 <= k < |patterns| && !eng.compiles(patterns[k]))
      && (r.err.Some? ==> r.count == 0)
      && (content.None? ==> r.err == Some(ReadError(path)) && r.records == [])
    ensures var r := Scan(eng, path, content, patterns);
      content.Some? && r.err.Some? ==>
        exists k :: 0 <= k < |patterns| && !eng.compiles(patterns[k])
          && (forall m :: 0 <= m < k ==> eng.compiles(patterns[m]))
          && r.err == Some(SyntaxError(patterns[k]))
          && |r.records| <= k
          && forall m :: 0 <= m < |r.records| ==> r.records[m].lineNumber == 1
  {
    var r := Scan(eng, path, content, patterns);
    if content.Some? && r.err.Some? {
      var valid := LeadingValid(eng, patterns);
      LineHitsBound(eng, Split(content.value)[0], patterns[..valid]);
    }
  }

  lemma {:induction false} LineHitsBound(eng: Engine, line: string, patterns: seq<string>)
    ensures LineHits(eng, line, patterns) <= |patterns|
    decreases |patterns|
  {
    if patterns != [] {
      LineHitsBound(eng, line, patterns[..|patterns| - 1]);
    }
  }

  /** A successful scan returns the number of matching (line, pattern) positions of the file's
      lines and prints one record per finding. */
  lemma ScanCountsMatchingPairs(eng: Engine, path: string, content: string, patterns: seq<string>)
    requires AllCompile(eng, patterns)
    ensures var r := Scan(eng, path, Some(content), patterns);
      && r.err == None
      && r.count == |MatchingPairs(eng, Split(content), patterns)|
      && |r.records| == r.count
  {
    FindingsAreMatchingPairs(eng, Split(content), patterns);
    RecordsPerFinding(eng, path, Split(content), patterns);
  }

  /** A scan that counts something read its file, compiled every pattern, and found a line
      that one of them matches. */
  lemma PositiveCountHasMatch(eng: Engine, path: string, content: Option<string>, patterns: seq<string>)
    requires Scan(eng, path, content, patterns).count > 0
    ensures content.Some? && AllCompile(eng, patterns)
    ensures exists i, j :: 0 <= i < |Split(content.value)| && 0 <= j < |patterns|
                        && eng.matches(patterns[j], Split(content.value)[i])
  {
    ScanFailsAsAWhole(eng, path, content, patterns);
    ScanCountsMatchingPairs(eng, path, content.value, patterns);
    var pair :| pair in MatchingPairs(eng, Split(content.value), patterns);
  }

  /** An engine in which every pattern compiles and matches where it occurs literally. */
  function LiteralEngine(): Engine
  {
    Engine(p => true, (p, line) => Contains(line, p))
  }

  /** A line matching two different patterns counts twice. */
  lemma TwoPatternsOneLine()
    ensures Scan(LiteralEngine(), "f", Some("foobar"), ["foo", "bar"]).count == 2
  {
    var eng := LiteralEngine();
    var ps := ["foo", "bar"];
    SplitSingleLine("foobar");
    assert LeadingValid(eng, ps) == |ps|;
    assert Contains("foobar", "foo");
    assert Contains("foobar", "bar");
    assert ps[..1] == ["foo"] && ps[..1][..0] == [];
    assert LineHits(eng, "foobar", ps[..1]) == 1;
    assert LineHits(eng, "foobar", ps) == 2;
    assert ["foobar"][..0] == [];
  }

  /** A pattern matching a line several times counts once. */
  lemma RepeatedMatchCountsOnce()
    ensures Scan(LiteralEngine(), "f", Some("foo foo"), ["foo"]).count == 1
  {
    var eng := LiteralEngine();
    SplitSingleLine("foo foo");
    assert LeadingValid(eng, ["foo"]) == 1;
    assert Contains("foo foo", "foo");
    assert ["foo"][..0] == [];
    assert LineHits(eng, "foo foo", ["foo"]) == 1;
    assert ["foo foo"][..0] == [];
  }

  lemma SplitTwoLines()
    ensures Split("foo bar\nbaz") == ["foo bar", "baz"]
  {
    assert "foo bar\nbaz" == "foo bar" + "\n" + "baz";
    SplitAtNewline("foo bar", "baz");
    SplitSingleLine("baz");
  }

  lemma FirstLineHits()
    ensures LineHits(LiteralEngine(), "foo bar", ["foo", "baz"]) == 1
  {
    var ps := ["foo", "baz"];
    assert ps[..1] == ["foo"] && ps[..1][..0] == [];
    assert Contains("foo bar", "foo");
    assert !Contains("foo bar", "baz");
  }

  lemma SecondLineHits()
    ensures LineHits(LiteralEngine(), "baz", ["foo", "baz"]) == 1
  {
    var ps := ["foo", "baz"];
    assert ps[..1] == ["foo"] && ps[..1][..0] == [];
    assert !Contains("baz", "foo");
    assert Contains("baz", "baz");
  }

  /** Each line of a two-line file matching one pattern gives two findings in all. */
  lemma TwoLinesTwoFindings()
    ensures Scan(LiteralEngine(), "a.txt", Some("foo bar\nbaz"), ["foo", "baz"]).count == 2
  {
    var eng := LiteralEngine();
    var ps := ["foo", "baz"];
    var lines := ["foo bar", "baz"];
    SplitTwoLines();
    FirstLineHits();
    SecondLineHits();
    assert LeadingValid(eng, ps) == |ps|;
    assert lines[..1] == ["foo bar"] && lines[..1][..0] == [];
    assert FileHits(eng, lines, ps) == 2;
  }
}
