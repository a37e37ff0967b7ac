# reg-detector, modelled in Dafny

reg-detector is a command-line tool. It reads a file of regular expressions, one per line, and
walks a directory tree. Every file whose path contains none of a fixed list of binary-file
markers (`.png`, `.zip`, `.git`, …) is scanned line by line. Each (line, pattern) pair where
the pattern matches prints one record `path:line Match: text`, with the text cut to 100
characters, and adds one finding. At the end the tool reports how many files were crawled and
how many findings there were in all.

This project models the core of `main.go` and proves properties of the model.

- `wrappers.dfy` (`Wrappers`): `Option`, `Result` and the two error kinds, a read failure and
  a pattern that does not compile.
- `text.dfy` (`Text`): substring containment as `strings.Contains` defines it, and splitting on
  `"\n"` as `strings.Split` does, with its inverse `Join`. It also holds the `%.100s`
  truncation.
- `filter.dfy` (`Filter`): `isWrongExtension` and `isText`, as predicates over a walk entry.
- `patterns.dfy` (`Patterns`): `readRegexFile`, a method with a loop that keeps the non-empty
  lines.
- `search.dfy` (`Search`): `searchFileWithRegexes`, a method with nested loops. It is proved
  equal to a specification function `Scan` that gives the count, the error and the records
  printed. The regex engine is an `Engine` parameter: whether a pattern compiles, and whether
  it matches a line at least once.
- `crawl.dfy` (`Crawl`): `fileIter`, a method that collects the text files in walk order and
  adds up their counts. The lemmas show that the sum does not depend on the order in which the
  files are scanned.

File-system access is replaced by values:
- The walk is the sequence of entries it visits, each with the walk's error flag and the
  directory flag.
- Reading a file is a function from path to `Option<string>`.
- The pattern file is the scanner's lines, or `None` when it cannot be opened or read.

What the code counts and when it fails:
- A count is the number of (line, pattern) pairs where the pattern matches, not the number of
  matching lines (main.go:98-110). A line matched by two patterns counts twice.
- One record is printed per matching pair, so such a line is printed twice (main.go:106-110).
- A pattern that does not compile makes `searchFileWithRegexes` return `(0, err)` while it scans
  the first line (main.go:99-103). This happens for every file that can be read, so the total
  is 0 whenever one pattern is invalid. A file that cannot be read fails earlier, at the read
  (main.go:90-93), and also adds 0.

## Model

| member | source | states |
|---|---|---|
| Text.ContainsIffOccurs | main.go:132-136 | `strings.Contains(s, sub)` holds exactly when `sub` occurs in `s` at some position |
| Text.StartsWithIffPrefix | main.go:132-136 | the prefix test behind containment is the same as `prefix` being no longer than `s` and equal to its first characters |
| Text.Split | main.go:96 | `strings.Split` on `"\n"` always gives at least one line |
| Text.SplitCount | main.go:96 | a content with k newlines splits into k + 1 lines |
| Text.SplitLinesHaveNoNewline | main.go:96 | no line of the split contains a newline |
| Text.JoinSplit | main.go:96 | rejoining the lines with `"\n"` gives back the content |
| Text.SplitJoin | main.go:96 | splitting the join of lines that have no newline gives back those lines |
| Text.SplitSingleLine | main.go:96 | content without a newline is one line |
| Text.SplitAtNewline | main.go:96 | the text before the first newline is the first line, and the rest splits on its own |
| Text.Truncate | main.go:144-151 | `%.100s` prints the first 100 characters of a longer line and all of a shorter one, and they are a prefix of the line |
| Filter.ContainsAnyIffSome | main.go:132-137 | the early-return loop returns true exactly when some listed marker is contained in the path |
| Filter.ContainsAnyAt | main.go:132-136 | a marker found at any position of the list makes the loop return true |
| Filter.ContainsAnyConcat | main.go:118-128 | testing a list split into rows is the same as testing the rows one after the other |
| Filter.WrongExtensionIffOccurs | main.go:117-138 | a path is excluded exactly when some denylist entry occurs in it at some position: containment, not suffix matching |
| Filter.ExcludedMidName | main.go:117-138 | `a.png.txt` is excluded although it ends in `.txt` |
| Filter.GitPathsExcluded | main.go:127-136 | every path containing `.git`, such as everything under `.git/` or `.github/`, is excluded |
| Filter.ExcludedUnderGitDirectory | main.go:127-136 | `src/.github/x.yml` is excluded |
| Filter.IncludedExample | main.go:117-138 | `a.txt` is not excluded: it contains none of the markers of any of the nine rows of main.go:119-127 |
| Filter.IsTextIff | main.go:42-54 | `isText` accepts exactly the entries with no walk error that are not directories and not excluded; "Skipping file" is logged exactly for entries rejected only by the denylist |
| Patterns.ReadRegexFile | main.go:153-173 | an unopenable or unreadable file gives an error and no list; otherwise the result is the file's non-empty lines in order |
| Patterns.NonEmptyLinesBounds | main.go:161-167 | the pattern list has no more entries than the file has lines, and none of them is empty |
| Patterns.NonEmptyLinesInOrder | main.go:161-167 | the pattern list is the subsequence of non-empty lines: each entry is a line at a strictly increasing position, and every non-empty line is kept |
| Patterns.BlankFileNoPatterns | main.go:161-167 | a file of blank lines gives no patterns |
| Search.LeadingValid | main.go:98-104 | the scan reaches the first pattern that does not compile, and every pattern before it compiles |
| Search.Repeat | main.go:106-110 | a line matched by n patterns prints n copies of its record |
| Search.SearchFileWithRegexes | main.go:89-115 | the method returns the count, the error and the printed records that `Scan` gives, covering read failure, compile failure and success |
| Search.RecordsPerFinding | main.go:106-110 | a successful scan prints exactly one record per finding |
| Search.LineHitsPositive | main.go:99-110 | a line adds a finding exactly when some pattern matches it |
| Search.LineHitsBound | main.go:99-110 | a line adds at most one finding per pattern |
| Search.RecordsDescribeMatchingLines | main.go:98-110 | records come in line order; each names the file, the 1-based number of a line some pattern matches, and that line cut to 100 characters |
| Search.RecordsOfLine | main.go:98-110 | the records of line i fill exactly the positions between the findings before line i and those up to it |
| Search.RowPairsCount | main.go:99-110 | a line's findings are its matching (line, pattern) pairs |
| Search.FindingsAreMatchingPairs | main.go:98-114 | a file's findings are the number of (line, pattern) pairs where the pattern matches: a line matched by two patterns counts twice |
| Search.ScanFailsAsAWhole | main.go:90-103 | a scan fails exactly when the read fails or some pattern does not compile, and then returns 0, never a partial count; a compile failure names the first bad pattern and has printed only line-1 records |
| Search.ScanCountsMatchingPairs | main.go:89-115 | a successful scan returns the number of matching pairs and prints that many records |
| Search.PositiveCountHasMatch | main.go:89-115 | a positive count means the file was read, every pattern compiled, and some pattern matched some line |
| Search.TwoPatternsOneLine | main.go:99-110 | `foobar` against `foo` and `bar` counts 2 |
| Search.RepeatedMatchCountsOnce | main.go:106-110 | `foo foo` against `foo` counts 1: several matches on one line are one finding |
| Search.SplitTwoLines | main.go:96 | `"foo bar\nbaz"` splits into its two lines |
| Search.FirstLineHits | main.go:99-110 | `foo bar` matches `foo` only |
| Search.SecondLineHits | main.go:99-110 | `baz` matches `baz` only |
| Search.TwoLinesTwoFindings | main.go:89-115 | a two-line file whose lines each match one pattern counts 2 |
| Crawl.FileIter | main.go:56-87 | `filesCrawled` is the number of files `isText` accepted during the walk, and `findingCount` is the sum of their counts, with a failed file adding 0 |
| Crawl.TextFilesAreAccepted | main.go:62-67 | the collected paths are exactly the paths of accepted entries, none of them excluded, and there are no more of them than entries |
| Crawl.TextFilesInOrder | main.go:62-67 | the collected paths are one per accepted entry, in walk order, and every accepted entry is collected: `filesCrawled` is the number of accepted entries |
| Crawl.TotalAppend | main.go:71-85 | the total over two groups of files is the sum of the two totals |
| Crawl.TotalPermutation | main.go:71-85 | the total is the same for any order in which the goroutines finish |
| Crawl.InvalidPatternNoFindings | main.go:71-85 | one pattern that does not compile makes the total 0 |
| Crawl.NoPatternsNoFindings | main.go:71-85 | an empty pattern list finds nothing in any directory; a pattern file of blank lines gives that list |
| Crawl.UnreadableFilesNoFindings | main.go:71-85 | files that cannot be read add nothing |
| Crawl.FindingsNeedAMatch | main.go:71-85 | a positive total comes from some file with a positive count |
| Crawl.TextFilesOfThree | main.go:62-67 | of three entries, the walk keeps exactly the path of the one that is accepted |
| Crawl.SampleTextAccepted | main.go:42-54 | a plain `a.txt` file is accepted |
| Crawl.SampleImageSkipped | main.go:42-54 | `b.png` is skipped by the denylist |
| Crawl.SampleWalkTextFiles | main.go:62-67 | a walk over a directory, `a.txt` and `b.png` collects only `a.txt` |
| Crawl.SampleWalkFindings | main.go:56-87 | that walk crawls one file, and patterns `foo` and `baz` find 2 matches in `a.txt` holding `"foo bar\nbaz"` |

## Left out

- `main` (main.go:18-40) is not modelled: flag parsing, the usage message, `os.Exit` and the
  final summary lines. The summary reports `filesCrawled`, the number of patterns and
  `findingCount`, all of which the model computes.
- Colour output and the `--no-color` flag (main.go:16, 145-150) are not modelled. Both branches
  print the same record, and the model keeps only the record.
- The regex engine (`regexp.Compile`, `findRegexMatches` at main.go:140-142) is not modelled.
  It is the `Engine` parameter: a compile predicate and an "at least one match" predicate.
- File-system I/O is not modelled. `filepath.Walk` is the sequence of entries it visits,
  `os.ReadFile` is a function from path to contents, and the pattern file is its scanner lines.
  The walk callback never stops the walk, so passing in the entries loses nothing.
- `bufio.Scanner` details are not modelled: stripping a trailing `\r` and the 64 KiB token
  limit. An over-long pattern line shows up as the read error.
- Crawl.FileIter: the goroutines, mutex and WaitGroup are not modelled. Files are scanned one
  after the other in walk order. Crawl.TotalPermutation shows that any completion order gives
  the same total.
- Crawl.FileIter: `filesCrawled++` at main.go:75 runs unsynchronised in every goroutine. It is
  a data race, and the printed value can come out lower. The model gives the intended value,
  the number of text files.
- Crawl.FileIter: the records and error lines of different files interleave in an arbitrary
  order on stdout. The model keeps each file's records separate, in `Search.Scan`.
- The log lines "Searching in directory", "Skipping file" and "Error: …" are not modelled as
  output. The skip case is the `Skipped` verdict of `Filter.Classify`, and errors are the
  `err` result of `Search.SearchFileWithRegexes`.
- Text.Truncate: `%.100s` counts runes, and `os.ReadFile` gives bytes. The model works on
  characters, so for multi-byte text its 100 is 100 characters.
