/** The walk over the directory tree and the aggregation of the per-file counts: `fileIter`
    (main.go). */
module Crawl {
  import opened Wrappers
  import opened Text
  import opened Filter
  import opened Search

  /** The paths the walk callback keeps, in walk order: those of the entries `isText` accepts. */
  function TextFiles(entries: seq<WalkEntry>): seq<string>
  {
    if entries == [] then []
    else
      var last := |entries| - 1;
      TextFiles(entries[..last]) + (if IsText(entries[last]) then [entries[last].path] else [])
  }

  /** The count one file contributes; `fs` gives the result of reading each path. A file whose
      scan fails contributes the 0 returned with the error. */
  function FileFindings(eng: Engine, fs: string -> Option<string>, path: string, patterns: seq<string>): nat
  {
    Scan(eng, path, fs(path), patterns).count
  }

  /** The sum of the counts of `paths`. */
  function TotalFindings(eng: Engine, fs: string -> Option<string>, paths: seq<string>, patterns: seq<string>): nat
  {
    if paths == [] then 0
    else
      var last := |paths| - 1;
      TotalFindings(eng, fs, paths[..last], patterns) + FileFindings(eng, fs, paths[last], patterns)
  }

  /** `fileIter`: collect the text files during the walk, then scan each one and add its count.
      Every collected file is counted as crawled, whether or not its scan fails. */
  method FileIter(eng: Engine, entries: seq<WalkEntry>, fs: string -> Option<string>, patterns: seq<string>)
    returns (findingCount: nat, filesCrawled: nat)
    ensures filesCrawled == |TextFiles(entries)|
    ensures findingCount == TotalFindings(eng, fs, TextFiles(entries), patterns)
  {
    var textFiles: seq<string> := [];
    var i := 0;
    while i < |entries|
      invariant 0 <= i <= |entries|
      invariant textFiles == TextFiles(entries[..i])
    {
      assert entries[..i + 1][..i] == entries[..i];
      if IsText(entries[i]) {
        textFiles := textFiles + [entries[i].path];
      }
      i := i + 1;
    }
    assert entries[..i] == entries;

    findingCount := 0;
    filesCrawled := 0;
    var f := 0;
    while f < |textFiles|
      invariant 0 <= f <= |textFiles|
      invariant filesCrawled == f
      invariant findingCount == TotalFindings(eng, fs, textFiles[..f], patterns)
    {
      var fPath := textFiles[f];
      filesCrawled := filesCrawled + 1;
      var count, err, records := SearchFileWithRegexes(eng, fPath, fs(fPath), patterns);
      assert textFiles[..f + 1][..f] == textFiles[..f];
      findingCount := findingCount + count;
      f := f + 1;
    }
    assert textFiles[..f] == textFiles;
  }

  /** The collected paths are exactly the paths of the accepted entries: each comes from an
      accepted entry, each accepted entry contributes its path, none contains a denylist entry,
      and there are at most as many as entries. */
  lemma {:induction false} TextFilesAreAccepted(entries: seq<WalkEntry>)
    ensures |TextFiles(entries)| <= |entries|
    ensures forall k :: 0 <= k < |TextFiles(entries)| ==> !IsWrongExtension(TextFiles(entries)[k])
    ensures forall p :: p in TextFiles(entries) <==> exists e :: e in entries && IsText(e) && e.path == p
    decreases |entries|
  {
    if entries != [] {
      var last := |entries| - 1;
      var front := entries[..last];
      TextFilesAreAccepted(front);
      forall p
        ensures p in TextFiles(entries) <==> exists e :: e in entries && IsText(e) && e.path == p
      {
        if p in TextFiles(entries) {
          if p in TextFiles(front) {
            var e :| e in front && IsText(e) && e.path == p;
            assert e in entries;
          } else {
            assert entries[last] in entries;
          }
        }
        if exists e :: e in entries && IsText(e) && e.path == p {
          var e :| e in entries && IsText(e) && e.path == p;
          if e != entries[last] {
            var j :| 0 <= j < |entries| && entries[j] == e;
            assert front[j] == e;
          }
        }
      }
    }
  }

  /** The collected paths are one per accepted entry, in walk order: the `k`-th path is that of
      entry `idx[k]`, which is accepted, the positions `idx` increase, and every accepted
      entry's position is among them. So `|TextFiles(entries)|` is the number of accepted
      entries. */
  lemma {:induction false} TextFilesInOrder(entries: seq<WalkEntry>) returns (idx: seq<nat>)
    ensures |idx| == |TextFiles(entries)|
    ensures forall k :: 0 <= k < |idx| ==>
      idx[k] < |entries| && IsText(entries[idx[k]]) && TextFiles(entries)[k] == entries[idx[k]].path
    ensures forall k, m :: 0 <= k < m < |idx| ==> idx[k] < idx[m]
    ensures forall i :: 0 <= i < |entries| && IsText(entries[i]) ==> i in idx
    decreases |entries|
  {
    if entries == [] {
      idx := [];
    } else {
      var n := |entries| - 1;
      var front := entries[..n];
      var prev := TextFilesInOrder(front);
      if IsText(entries[n]) {
        idx := prev + [n];
      } else {
        idx := prev;
      }
      forall k | 0 <= k < |prev|
        ensures entries[prev[k]] == front[prev[k]]
      {
      }
      forall i | 0 <= i < |entries| && IsText(entries[i])
        ensures i in idx
      {
        if i < n {
          assert front[i] == entries[i];
          assert i in prev;
        }
      }
    }
  }

  lemma {:induction false} TotalAppend(eng: Engine, fs: string -> Option<string>, a: seq<string>, b: seq<string>, patterns: seq<string>)
    ensures TotalFindings(eng, fs, a + b, patterns) ==
            TotalFindings(eng, fs, a, patterns) + TotalFindings(eng, fs, b, patterns)
    decreases |b|
  {
    if b == [] {
      assert a + b == a;
    } else {
      var last := |b| - 1;
      assert (a + b)[..|a + b| - 1] == a + b[..last];
      TotalAppend(eng, fs, a, b[..last], patterns);
    }
  }

  /** The total does not depend on the order in which the files are scanned: the goroutines may
      finish in any order, and adding their counts in any order gives the same sum. */
  lemma {:induction false} TotalPermutation(eng: Engine, fs: string -> Option<string>, a: seq<string>, b: seq<string>, patterns: seq<string>)
    requires multiset(a) == multiset(b)
    ensures TotalFindings(eng, fs, a, patterns) == TotalFindings(eng, fs, b, patterns)
    decreases |a|
  {
    if a == [] {
      assert |b| == |multiset(b)| == 0;
    } else {
      var last := |a| - 1;
      var x := a[last];
      assert a == a[..last] + [x];
      assert x in multiset(b);
      var j :| 0 <= j < |b| && b[j] == x;
      var rest := b[..j] + b[j + 1..];
      assert b == b[..j] + [x] + b[j + 1..];
      calc {
        multiset(a[..last]);
        multiset(a) - multiset{x};
        multiset(b) - multiset{x};
        multiset(b[..j]) + multiset(b[j + 1..]);
        multiset(rest);
      }
      TotalPermutation(eng, fs, a[..last], rest, patterns);
      TotalAppend(eng, fs, b[..j] + [x], b[j + 1..], patterns);
      TotalAppend(eng, fs, b[..j], [x], patterns);
      TotalAppend(eng, fs, b[..j], b[j + 1..], patterns);
      assert [x][..0] == [];
    }
  }

  /** A pattern that does not compile makes every file's scan fail, so the total is 0. */
  lemma {:induction false} InvalidPatternNoFindings(eng: Engine, fs: string -> Option<string>, paths: seq<string>, patterns: seq<string>)
    requires exists k :: 0 <= k < |patterns| && !eng.compiles(patterns[k])
    ensures TotalFindings(eng, fs, paths, patterns) == 0
    decreases |paths|
  {
    if paths != [] {
      InvalidPatternNoFindings(eng, fs, paths[..|paths| - 1], patterns);
      ScanFailsAsAWhole(eng, paths[|paths| - 1], fs(paths[|paths| - 1]), patterns);
    }
  }

  /** A pattern file of blank lines gives no patterns, and no patterns find nothing in any
      directory. */
  lemma {:induction false} NoPatternsNoFindings(eng: Engine, fs: string -> Option<string>, paths: seq<string>)
    ensures TotalFindings(eng, fs, paths, []) == 0
    decreases |paths|
  {
    if paths != [] {
      var p := paths[|paths| - 1];
      NoPatternsNoFindings(eng, fs, paths[..|paths| - 1]);
      if fs(p).Some? {
        FindingsAreMatchingPairs(eng, Split(fs(p).value), []);
      }
    }
  }

  /** Files that cannot be read add nothing to the total. */
  lemma {:induction false} UnreadableFilesNoFindings(eng: Engine, fs: string -> Option<string>, paths: seq<string>, patterns: seq<string>)
    requires forall k :: 0 <= k < |paths| ==> fs(paths[k]).None?
    ensures TotalFindings(eng, fs, paths, patterns) == 0
    decreases |paths|
  {
    if paths != [] {
      UnreadableFilesNoFindings(eng, fs, paths[..|paths| - 1], patterns);
    }
  }

  /** Every file of the total is scanned against the same patterns, so a total exceeding 0 means
      some file has a line that some pattern matches. */
  lemma {:induction false} FindingsNeedAMatch(eng: Engine, fs: string -> Option<string>, paths: seq<string>, patterns: seq<string>)
    requires TotalFindings(eng, fs, paths, patterns) > 0
    ensures exists k :: 0 <= k < |paths| && FileFindings(eng, fs, paths[k], patterns) > 0
    decreases |paths|
  {
    var last := |paths| - 1;
    if FileFindings(eng, fs, paths[last], patterns) == 0 {
      FindingsNeedAMatch(eng, fs, paths[..last], patterns);
      var k :| 0 <= k < last && FileFindings(eng, fs, paths[..last][k], patterns) > 0;
      assert paths[..last][k] == paths[k];
    }
  }

  /** A walk over a directory holding a text file and an image. */
  function SampleWalk(): seq<WalkEntry>
  {
    [WalkEntry(".", true, false), WalkEntry("a.txt", false, false), WalkEntry("b.png", false, false)]
  }

  /** The contents of the sample walk's files. */
  function SampleFiles(): string -> Option<string>
  {
    (p: string) => if p == "a.txt" then Some("foo bar\nbaz") else None
  }

  lemma SampleTextAccepted()
    ensures IsText(WalkEntry("a.txt", false, false))
  {
    IncludedExample();
  }

  lemma SampleImageSkipped()
    ensures Classify(WalkEntry("b.png", false, false)) == Skipped
  {
    assert Denylist[2] == ".png";
    ContainsAnyAt("b.png", Denylist, 2);
  }

  lemma TextFilesOfThree(e0: WalkEntry, e1: WalkEntry, e2: WalkEntry)
    requires !IsText(e0) && IsText(e1) && !IsText(e2)
    ensures TextFiles([e0, e1, e2]) == [e1.path]
  {
    var entries := [e0, e1, e2];
    assert entries[..2][..1] == entries[..1] == [e0];
    assert [e0][..0] == [];
    assert TextFiles([e0]) == [];
    assert entries[..2] == [e0, e1];
    assert TextFiles([e0, e1]) == [e1.path];
    assert entries[..|entries| - 1] == [e0, e1];
  }

  /** Neither the directory nor the image is scanned. */
  lemma SampleWalkTextFiles()
    ensures TextFiles(SampleWalk()) == ["a.txt"]
  {
    SampleTextAccepted();
    SampleImageSkipped();
    TextFilesOfThree(WalkEntry(".", true, false), WalkEntry("a.txt", false, false), WalkEntry("b.png", false, false));
  }

  /** One file is crawled, and its two lines each match one pattern. */
  lemma SampleWalkFindings()
    ensures |TextFiles(SampleWalk())| == 1
    ensures TotalFindings(LiteralEngine(), SampleFiles(), TextFiles(SampleWalk()), ["foo", "baz"]) == 2
  {
    SampleWalkTextFiles();
    TwoLinesTwoFindings();
    assert SampleFiles()("a.txt") == Some("foo bar\nbaz");
    assert ["a.txt"][..0] == [];
  }
}
