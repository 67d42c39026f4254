/**
 * Where a tracker writes: `os.path.join` on POSIX, the experiment directory
 * `experiment_results/<story>/<timestamp>_<experiment>` and the report file in it.
 */
module Paths {

  const ResultsRoot: string := "experiment_results"
  const ReportFileName: string := "parameters_and_results.txt"

  /**
   * `posixpath.join(a, b)`: an absolute `b` replaces `a`; otherwise a `/` is put
   * between the two unless `a` is empty or already ends with one.
   */
  function Join(a: string, b: string): string
  {
    if |b| > 0 && b[0] == '/' then b
    else if a == [] || a[|a| - 1] == '/' then a + b
    else a + "/" + b
  }

  /** The experiment directory the constructor composes from its fixed parts. */
  function DirectoryPath(story: string, timestamp: string, experiment: string): string
  {
    Join(Join(ResultsRoot, story), timestamp + "_" + experiment)
  }

  /** The file `save` opens. */
  function ReportPath(directory: string): string
  {
    Join(directory, ReportFileName)
  }

  /** A story without slashes gives the three nested levels, each under the previous. */
  lemma DirectoryLayout(story: string, timestamp: string, experiment: string)
    requires story != [] && '/' !in story
    requires timestamp == [] || timestamp[0] != '/'
    ensures DirectoryPath(story, timestamp, experiment)
         == ResultsRoot + "/" + story + "/" + timestamp + "_" + experiment
  {
  }

  /** An empty story adds no level of its own. */
  lemma DirectoryEmptyStory(timestamp: string, experiment: string)
    requires timestamp == [] || timestamp[0] != '/'
    ensures DirectoryPath("", timestamp, experiment) == ResultsRoot + "/" + timestamp + "_" + experiment
  {
  }

  /** An absolute story replaces the results root: the directory is outside it. */
  lemma DirectoryAbsoluteStory(story: string, timestamp: string, experiment: string)
    requires story != [] && story[0] == '/'
    ensures DirectoryPath(story, timestamp, experiment) == Join(story, timestamp + "_" + experiment)
    ensures |DirectoryPath(story, timestamp, experiment)| > 0
    ensures DirectoryPath(story, timestamp, experiment)[0] == '/'
  {
  }

  /** The report of a directory that does not end in `/` is the file named inside it. */
  lemma ReportInDirectory(directory: string)
    requires directory != [] && directory[|directory| - 1] != '/'
    ensures ReportPath(directory) == directory + "/" + ReportFileName
  {
  }

  /** A separator that occurs in neither head splits a concatenation in one way only. */
  lemma {:induction false} SplitAtSeparator(h1: string, r1: string, h2: string, r2: string, c: char)
    requires c !in h1 && c !in h2
    requires h1 + [c] + r1 == h2 + [c] + r2
    ensures h1 == h2 && r1 == r2
  {
    var x := h1 + [c] + r1;
    var y := h2 + [c] + r2;
    assert x[|h1|] == c && y[|h2|] == c;
    assert forall k :: 0 <= k < |h1| ==> x[k] == h1[k] != c;
    assert forall k :: 0 <= k < |h2| ==> y[k] == h2[k] != c;
    assert |h1| == |h2|;
    assert h1 == x[..|h1|] && h2 == y[..|h2|];
    assert r1 == x[|h1| + 1..] && r2 == y[|h2| + 1..];
  }

  /**
   * Two trackers share a directory only when story, timestamp and experiment all
   * agree (for slash-free stories and timestamps of one fixed width, as the
   * timestamp format gives).
   */
  lemma DirectoryInjective(s1: string, t1: string, e1: string, s2: string, t2: string, e2: string)
    requires s1 != [] && '/' !in s1 && s2 != [] && '/' !in s2
    requires t1 == [] || t1[0] != '/'
    requires t2 == [] || t2[0] != '/'
    requires |t1| == |t2|
    requires DirectoryPath(s1, t1, e1) == DirectoryPath(s2, t2, e2)
    ensures s1 == s2 && t1 == t2 && e1 == e2
  {
    var r1 := t1 + "_" + e1;
    var r2 := t2 + "_" + e2;
    assert r1[0] != '/' && r2[0] != '/';
    assert s1[|s1| - 1] != '/' && s2[|s2| - 1] != '/';
    var p := ResultsRoot + "/";
    assert DirectoryPath(s1, t1, e1) == p + (s1 + "/" + r1);
    assert DirectoryPath(s2, t2, e2) == p + (s2 + "/" + r2);
    assert s1 + "/" + r1 == s2 + "/" + r2 by {
      assert s1 + "/" + r1 == (p + (s1 + "/" + r1))[|p|..];
      assert s2 + "/" + r2 == (p + (s2 + "/" + r2))[|p|..];
    }
    SplitAtSeparator(s1, r1, s2, r2, '/');
    assert t1 == r1[..|t1|] && t2 == r2[..|t2|];
    assert e1 == r1[|t1| + 1..] && e2 == r2[|t2| + 1..];
  }
}
