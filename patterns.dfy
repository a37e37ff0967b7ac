/** Loading the pattern list: `readRegexFile` (main.go). The file's lines are given as input;
    `None` stands for a file that could not be opened or whose scan failed. */
module Patterns {
  import opened Wrappers

  /** The non-empty lines of `lines`, in their original order. */
  function NonEmptyLines(lines: seq<string>): seq<string>
  {
    if lines == [] then []
    else
      var kept := NonEmptyLines(lines[..|lines| - 1]);
      if lines[|lines| - 1] != "" then kept + [lines[|lines| - 1]] else kept
  }

  /** `readRegexFile`: keeps the non-empty lines in order; a failure to open or to read the file
      yields the error and no list at all, even when some lines were already read. */
  method ReadRegexFile(filename: string, file: Option<seq<string>>) returns (r: Result<seq<string>, Error>)
    ensures file.None? ==> r == Err(ReadError(filename))
    ensures file.Some? ==> r == Ok(NonEmptyLines(file.value))
  {
    if file.None? {
      return Err(ReadError(filename));
    }
    var lines := file.value;
    var regexList: seq<string> := [];
    var i := 0;
    while i < |lines|
      invariant 0 <= i <= |lines|
      invariant regexList == NonEmptyLines(lines[..i])
    {
      assert lines[..i + 1][..i] == lines[..i];
      if lines[i] != "" {
        regexList := regexList + [lines[i]];
      }
      i := i + 1;
    }
    assert lines[..|lines|] == lines;
    return Ok(regexList);
  }

  /** No pattern is the empty string, and there are at most as many patterns as lines. */
  lemma {:induction false} NonEmptyLinesBounds(lines: seq<string>)
    ensures |NonEmptyLines(lines)| <= |lines|
    ensures forall k :: 0 <= k < |NonEmptyLines(lines)| ==> NonEmptyLines(lines)[k] != ""
    decreases |lines|
  {
    if lines != [] {
      NonEmptyLinesBounds(lines[..|lines| - 1]);
    }
  }

  /** The kept lines are exactly the non-empty input lines, in their original order: the
      `k`-th pattern is line `idx[k]`, the positions `idx` increase, and every non-empty line's
      position is among them. */
  lemma {:induction false} NonEmptyLinesInOrder(lines: seq<string>) returns (idx: seq<nat>)
    ensures |idx| == |NonEmptyLines(lines)|
    ensures forall k :: 0 <= k < |idx| ==> idx[k] < |lines| && NonEmptyLines(lines)[k] == lines[idx[k]]
    ensures forall k, m :: 0 <= k < m < |idx| ==> idx[k] < idx[m]
    ensures forall i :: 0 <= i < |lines| && lines[i] != "" ==> i in idx
    decreases |lines|
  {
    if lines == [] {
      idx := [];
    } else {
      var n := |lines| - 1;
      var front := lines[..n];
      var prev := NonEmptyLinesInOrder(front);
      if lines[n] != "" {
        idx := prev + [n];
      } else {
        idx := prev;
      }
      forall i | 0 <= i < |lines| && lines[i] != ""
        ensures i in idx
      {
        if i < n {
          assert front[i] == lines[i];
          assert i in prev;
        }
      }
    }
  }

  /** A pattern file holding only blank lines yields no patterns. */
  lemma {:induction false} BlankFileNoPatterns(lines: seq<string>)
    requires forall i :: 0 <= i < |lines| ==> lines[i] == ""
    ensures NonEmptyLines(lines) == []
    decreases |lines|
  {
    if lines != [] {
      BlankFileNoPatterns(lines[..|lines| - 1]);
    }
  }
}
