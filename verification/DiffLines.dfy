/**
 Which lines of any text the scanner counts, read off the lines in front of
 them: no text is malformed, so this holds beyond what git renders.
 */
module DiffLines {
  import opened Options
  import opened UnifiedDiff
  import opened EffectiveLines

  predicate IsTitle(line: string) {
    "diff --git " <= line
  }

  /** Line `j` opens a hunk that still lasts at line `k`: no title came since. */
  predicate Opens(lines: seq<string>, j: nat, k: nat) {
    j < k <= |lines| && "@@ " <= lines[j] && forall i :: j < i < k ==> !IsTitle(lines[i])
  }

  predicate InHunk(lines: seq<string>, k: nat) {
    exists j :: 0 <= j < k && Opens(lines, j, k)
  }

  /** Line `k` names the file of the lines that follow. */
  predicate NamesFile(lines: seq<string>, k: nat) {
    k < |lines| && "+++ " <= lines[k] && !InHunk(lines, k)
  }

  /** The path that the last title or file name before line `k` leaves. */
  function PathAt(lines: seq<string>, k: nat): Option<string>
    requires k <= |lines|
  {
    if k == 0 then None
    else if IsTitle(lines[k - 1]) then None
    else if NamesFile(lines, k - 1) then NormalizeDiffPath(lines[k - 1][4..])
    else PathAt(lines, k - 1)
  }

  /** A plus counts anywhere but in a file name, a minus anywhere but in the old file name. */
  predicate IsAdded(lines: seq<string>, k: nat) {
    k < |lines| && "+" <= lines[k] && !NamesFile(lines, k)
  }

  predicate IsDeleted(lines: seq<string>, k: nat) {
    k < |lines| && "-" <= lines[k] && ("--- " <= lines[k] ==> InHunk(lines, k))
  }

  function AddedBefore(lines: seq<string>, k: nat): seq<AddedLine>
    requires k <= |lines|
  {
    if k == 0 then []
    else AddedBefore(lines, k - 1)
         + if IsAdded(lines, k - 1) then [AddedLine(PathAt(lines, k - 1), lines[k - 1][1..])] else []
  }

  function DeletedBefore(lines: seq<string>, k: nat): nat
    requires k <= |lines|
  {
    if k == 0 then 0 else DeletedBefore(lines, k - 1) + if IsDeleted(lines, k - 1) then 1 else 0
  }

  lemma HunkNext(lines: seq<string>, k: nat)
    requires k < |lines|
    ensures InHunk(lines, k + 1) <==> "@@ " <= lines[k] || (InHunk(lines, k) && !IsTitle(lines[k]))
  {
    if "@@ " <= lines[k] {
      assert Opens(lines, k, k + 1);
    }
    if InHunk(lines, k) && !IsTitle(lines[k]) {
      var j :| 0 <= j < k && Opens(lines, j, k);
      assert Opens(lines, j, k + 1);
    }
    if InHunk(lines, k + 1) && !("@@ " <= lines[k]) {
      var j :| 0 <= j < k + 1 && Opens(lines, j, k + 1);
      assert Opens(lines, j, k);
    }
  }

  lemma MarkersDiffer(line: string)
    ensures IsTitle(line) ==> line[0] == 'd'
    ensures "@@ " <= line ==> line[0] == '@'
    ensures "+" <= line <==> line != "" && line[0] == '+'
    ensures "-" <= line <==> line != "" && line[0] == '-'
    ensures "+++ " <= line ==> "+" <= line
    ensures "--- " <= line ==> "-" <= line
  {
  }

  /** What the scanner knows after some lines of any text. */
  lemma {:induction false} ScanReads(lines: seq<string>, k: nat)
    requires k <= |lines|
    ensures ScanLines(START, lines[..k])
         == Scan(PathAt(lines, k), InHunk(lines, k), AddedBefore(lines, k), DeletedBefore(lines, k))
  {
    hide NormalizeDiffPath, InHunk, IsTitle;
    if k == 0 {
      NoHunkYet(lines);
    } else {
      ScanReads(lines, k - 1);
      HunkNext(lines, k - 1);
      MarkersDiffer(lines[k - 1]);
      TitleMeans(lines[k - 1]);
      assert lines[..k][..k - 1] == lines[..k - 1];
      hide ScanLines;
    }
  }

  lemma NoHunkYet(lines: seq<string>)
    ensures !InHunk(lines, 0)
  {
  }

  lemma TitleMeans(line: string)
    ensures IsTitle(line) <==> HasPrefix(line, "diff --git ")
  {
  }

  /** What added lines contribute, in order. */
  function Contributions(added: seq<AddedLine>, alphanumeric: char -> bool): seq<Fingerprint> {
    if added == [] then []
    else
      var last := added[|added| - 1];
      Contributions(added[..|added| - 1], alphanumeric) + Contribution(last.path, last.text, alphanumeric)
  }

  lemma {:induction false} ContributionsAreFingerprints(added: seq<AddedLine>, alphanumeric: char -> bool)
    ensures Fingerprints(added, alphanumeric) == Contributions(added, alphanumeric)
  {
    if added != [] {
      var last := added[|added| - 1];
      ContributionsAreFingerprints(added[..|added| - 1], alphanumeric);
      LineContributes(last.path, last.text, alphanumeric);
    }
  }

  /** The summary of any text, read off its lines. */
  function ReadSummary(lines: seq<string>, alphanumeric: char -> bool): Summary {
    var added := AddedBefore(lines, |lines|);
    Summary(|added|, DeletedBefore(lines, |lines|), Contributions(added, alphanumeric))
  }

  lemma SummaryReads(diff: string, alphanumeric: char -> bool)
    ensures SummaryOf(ScanDiff(diff), alphanumeric) == ReadSummary(Lines(diff), alphanumeric)
  {
    hide Lines, ScanLines, AddedBefore, DeletedBefore, Fingerprints, Contributions, PathAt, InHunk;
    var lines := Lines(diff);
    ScanReads(lines, |lines|);
    assert lines[..|lines|] == lines;
    ContributionsAreFingerprints(AddedBefore(lines, |lines|), alphanumeric);
  }
}
