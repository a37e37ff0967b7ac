/** Which walked paths are scanned: `isText` and `isWrongExtension` (main.go). */
module Filter {
  import opened Text

  /** The fixed list of markers whose presence anywhere in a path excludes it. */
  const Denylist: seq<string> := [
    ".exe", ".dll", ".png", ".md", ".ico",
    ".jpeg", ".zip", ".gz", ".7z", ".ttf",
    ".woff", ".woff2", ".eot", ".svg", ".gif",
    ".jpg", ".pdf", ".doc", ".docx", ".xls",
    ".xlsx", ".ppt", ".pptx", ".mp3", ".mp4",
    ".avi", ".mov", ".wav", ".flac",
    ".webm", ".webp", "lock.json",
    ".lock", ".pack", ".tar", ".tar.gz",
    ".tar.xz", ".git"
  ]

  /** Some marker of `markers` is contained in `path`; the markers are tried in order and the
      first one found decides, as the loop with its early return does. */
  predicate ContainsAny(path: string, markers: seq<string>)
  {
    |markers| > 0 && (Contains(path, markers[0]) || ContainsAny(path, markers[1..]))
  }

  /** `isWrongExtension`: substring containment against the denylist, not suffix matching. */
  predicate IsWrongExtension(path: string)
  {
    ContainsAny(path, Denylist)
  }

  lemma {:induction false} ContainsAnyIffSome(path: string, markers: seq<string>)
    ensures ContainsAny(path, markers) <==> exists k :: 0 <= k < |markers| && Contains(path, markers[k])
    decreases |markers|
  {
    if |markers| > 0 {
      ContainsAnyIffSome(path, markers[1..]);
      if !Contains(path, markers[0]) && !ContainsAny(path, markers[1..]) {
        forall k | 0 <= k < |markers| && Contains(path, markers[k])
          ensures false
        {
        }
      }
    }
  }

  lemma {:induction false} ContainsAnyAt(path: string, markers: seq<string>, k: nat)
    requires k < |markers| && Contains(path, markers[k])
    ensures ContainsAny(path, markers)
    decreases k
  {
    if 0 < k {
      ContainsAnyAt(path, markers[1..], k - 1);
    }
  }

  /** A path is excluded exactly when some denylist entry occurs in it at some position. */
  lemma WrongExtensionIffOccurs(path: string)
    ensures IsWrongExtension(path) <==>
            exists k: nat, i: nat :: k < |Denylist| && OccursAt(path, Denylist[k], i)
  {
    ContainsAnyIffSome(path, Denylist);
    if IsWrongExtension(path) {
      var k :| 0 <= k < |Denylist| && Contains(path, Denylist[k]);
      ContainsIffOccurs(path, Denylist[k]);
      var i: nat :| OccursAt(path, Denylist[k], i);
      assert k < |Denylist| && OccursAt(path, Denylist[k], i);
    } else {
      forall k: nat, i: nat | k < |Denylist| && OccursAt(path, Denylist[k], i)
        ensures false
      {
        ContainsIffOccurs(path, Denylist[k]);
      }
    }
  }

  /** One entry reported by the directory walk: its path, whether it is a directory, and
      whether the walk reported an error for it. */
  datatype WalkEntry = WalkEntry(path: string, isDir: bool, walkError: bool)

  /** The branch `isText` takes; `Skipped` is the one that logs "Skipping file". */
  datatype Verdict = WalkFailed | Directory | Skipped | Accepted

  function Classify(e: WalkEntry): Verdict
  {
    if e.walkError then WalkFailed
    else if e.isDir then Directory
    else if IsWrongExtension(e.path) then Skipped
    else Accepted
  }

  /** `isText`. */
  predicate IsText(e: WalkEntry)
  {
    Classify(e) == Accepted
  }

  /** `isText` accepts exactly the entries without a walk error that are not directories and
      whose path contains no denylist entry; the skip is logged exactly for entries rejected
      only because of the denylist. */
  lemma IsTextIff(e: WalkEntry)
    ensures IsText(e) <==> !e.walkError && !e.isDir && !IsWrongExtension(e.path)
    ensures Classify(e) == Skipped <==> !e.walkError && !e.isDir && IsWrongExtension(e.path)
  {
  }

  lemma {:induction false} ContainsAnyConcat(path: string, a: seq<string>, b: seq<string>)
    ensures ContainsAny(path, a + b) <==> ContainsAny(path, a) || ContainsAny(path, b)
    decreases |a|
  {
    if |a| > 0 {
      assert (a + b)[0] == a[0] && (a + b)[1..] == a[1..] + b;
      ContainsAnyConcat(path, a[1..], b);
    } else {
      assert a + b == b;
    }
  }

  /** Markers found anywhere in the path exclude it, not only at its end. */
  lemma ExcludedMidName()
    ensures IsWrongExtension("a.png.txt")
  {
    assert Denylist[2] == ".png";
    ContainsAnyAt("a.png.txt", Denylist, 2);
  }

  /** Everything under a `.git` or `.github` directory is excluded. */
  lemma GitPathsExcluded(path: string)
    requires Contains(path, ".git")
    ensures IsWrongExtension(path)
  {
    assert Denylist[37] == ".git";
    ContainsAnyAt(path, Denylist, 37);
  }

  lemma ExcludedUnderGitDirectory()
    ensures IsWrongExtension("src/.github/x.yml")
  {
    GitPathsExcluded("src/.github/x.yml");
  }

  /** The denylist is the concatenation of the rows in which main.go lays it out. */
  lemma DenylistRows()
    ensures Denylist ==
      [".exe", ".dll", ".png", ".md", ".ico"] +
      [".jpeg", ".zip", ".gz", ".7z", ".ttf"] +
      [".woff", ".woff2", ".eot", ".svg", ".gif"] +
      [".jpg", ".pdf", ".doc", ".docx", ".xls"] +
      [".xlsx", ".ppt", ".pptx", ".mp3", ".mp4"] +
      [".avi", ".mov", ".wav", ".flac"] +
      [".webm", ".webp", "lock.json"] +
      [".lock", ".pack", ".tar", ".tar.gz"] +
      [".tar.xz", ".git"]
  {
  }

  lemma TxtAvoidsRow0()
    ensures !ContainsAny("a.txt", [".exe", ".dll", ".png", ".md", ".ico"])
  {
  }

  lemma TxtAvoidsRow1()
    ensures !ContainsAny("a.txt", [".jpeg", ".zip", ".gz", ".7z", ".ttf"])
  {
  }

  lemma TxtAvoidsRow2()
    ensures !ContainsAny("a.txt", [".woff", ".woff2", ".eot", ".svg", ".gif"])
  {
  }

  lemma TxtAvoidsRow3()
    ensures !ContainsAny("a.txt", [".jpg", ".pdf", ".doc", ".docx", ".xls"])
  {
  }

  lemma TxtAvoidsRow4()
    ensures !ContainsAny("a.txt", [".xlsx", ".ppt", ".pptx", ".mp3", ".mp4"])
  {
  }

  lemma TxtAvoidsRow5()
    ensures !ContainsAny("a.txt", [".avi", ".mov", ".wav", ".flac"])
  {
  }

  lemma TxtAvoidsRow6()
    ensures !ContainsAny("a.txt", [".webm", ".webp", "lock.json"])
  {
  }

  lemma TxtAvoidsRow7()
    ensures !ContainsAny("a.txt", [".lock", ".pack", ".tar", ".tar.gz"])
  {
  }

  lemma TxtAvoidsRow8()
    ensures !ContainsAny("a.txt", [".tar.xz", ".git"])
  {
  }

  /** A plain text file name is kept. */
  lemma IncludedExample()
    ensures !IsWrongExtension("a.txt")
  {
    DenylistRows();
    TxtAvoidsRow0(); TxtAvoidsRow1(); TxtAvoidsRow2(); TxtAvoidsRow3(); TxtAvoidsRow4();
    TxtAvoidsRow5(); TxtAvoidsRow6(); TxtAvoidsRow7(); TxtAvoidsRow8();
    ContainsAnyConcat("a.txt",
      [".exe", ".dll", ".png", ".md", ".ico"],
      [".jpeg", ".zip", ".gz", ".7z", ".ttf"]);
    ContainsAnyConcat("a.txt",
      [".exe", ".dll", ".png", ".md", ".ico"] +
      [".jpeg", ".zip", ".gz", ".7z", ".ttf"],
      [".woff", ".woff2", ".eot", ".svg", ".gif"]);
    ContainsAnyConcat("a.txt",
      [".exe", ".dll", ".png", ".md", ".ico"] +
      [".jpeg", ".zip", ".gz", ".7z", ".ttf"] +
      [".woff", ".woff2", ".eot", ".svg", ".gif"],
      [".jpg", ".pdf", ".doc", ".docx", ".xls"]);
    ContainsAnyConcat("a.txt",
      [".exe", ".dll", ".png", ".md", ".ico"] +
      [".jpeg", ".zip", ".gz", ".7z", ".ttf"] +
      [".woff", ".woff2", ".eot", ".svg", ".gif"] +
      [".jpg", ".pdf", ".doc", ".docx", ".xls"],
      [".xlsx", ".ppt", ".pptx", ".mp3", ".mp4"]);
    ContainsAnyConcat("a.txt",
      [".exe", ".dll", ".png", ".md", ".ico"] +
      [".jpeg", ".zip", ".gz", ".7z", ".ttf"] +
      [".woff", ".woff2", ".eot", ".svg", ".gif"] +
      [".jpg", ".pdf", ".doc", ".docx", ".xls"] +
      [".xlsx", ".ppt", ".pptx", ".mp3", ".mp4"],
      [".avi", ".mov", ".wav", ".flac"]);
    ContainsAnyConcat("a.txt",
      [".exe", ".dll", ".png", ".md", ".ico"] +
      [".jpeg", ".zip", ".gz", ".7z", ".ttf"] +
      [".woff", ".woff2", ".eot", ".svg", ".gif"] +
      [".jpg", ".pdf", ".doc", ".docx", ".xls"] +
      [".xlsx", ".ppt", ".pptx", ".mp3", ".mp4"] +
      [".avi", ".mov", ".wav", ".flac"],
      [".webm", ".webp", "lock.json"]);
    ContainsAnyConcat("a.txt",
      [".exe", ".dll", ".png", ".md", ".ico"] +
      [".jpeg", ".zip", ".gz", ".7z", ".ttf"] +
      [".woff", ".woff2", ".eot", ".svg", ".gif"] +
      [".jpg", ".pdf", ".doc", ".docx", ".xls"] +
      [".xlsx", ".ppt", ".pptx", ".mp3", ".mp4"] +
      [".avi", ".mov", ".wav", ".flac"] +
      [".webm", ".webp", "lock.json"],
      [".lock", ".pack", ".tar", ".tar.gz"]);
    ContainsAnyConcat("a.txt",
      [".exe", ".dll", ".png", ".md", ".ico"] +
      [".jpeg", ".zip", ".gz", ".7z", ".ttf"] +
      [".woff", ".woff2", ".eot", ".svg", ".gif"] +
      [".jpg", ".pdf", ".doc", ".docx", ".xls"] +
      [".xlsx", ".ppt", ".pptx", ".mp3", ".mp4"] +
      [".avi", ".mov", ".wav", ".flac"] +
      [".webm", ".webp", "lock.json"] +
      [".lock", ".pack", ".tar", ".tar.gz"],
      [".tar.xz", ".git"]);
  }
}
