/** The accepted-line scanner as it runs: one pass over the lines with counters updated in place. */
module LineScanner {
  import opened Options
  import opened UnifiedDiff
  import opened EffectiveLines
  import opened DiffLines
  import opened DiffRendering

  method PushFingerprint(fingerprints: seq<Fingerprint>, path: Option<string>, text: string,
      alphanumeric: char -> bool) returns (extended: seq<Fingerprint>)
    ensures extended == fingerprints + Contribution(path, text, alphanumeric)
  {
    LineContributes(path, text, alphanumeric);
    extended := fingerprints;
    if path.Some? {
      var normalized := NormalizeEffectiveLine(text, alphanumeric);
      if normalized.Some? {
        extended := extended + [Fingerprint(path.value, normalized.value)];
      }
    }
  }

  lemma NothingScanned(lines: seq<string>, alphanumeric: char -> bool)
    ensures ScanLines(START, lines[..0]) == START && Fingerprints([], alphanumeric) == []
  {
  }

  lemma ScanNext(lines: seq<string>, k: nat)
    requires k < |lines|
    ensures ScanLines(START, lines[..k + 1]) == ScanLine(ScanLines(START, lines[..k]), lines[k])
  {
    assert lines[..k + 1][..k] == lines[..k];
  }

  lemma FingerprintNext(added: seq<AddedLine>, row: AddedLine, alphanumeric: char -> bool)
    ensures Fingerprints(added + [row], alphanumeric)
         == Fingerprints(added, alphanumeric) + Contribution(row.path, row.text, alphanumeric)
  {
    assert (added + [row])[..|added|] == added;
    LineContributes(row.path, row.text, alphanumeric);
  }

  /** The scanner as the source runs it: one pass with counters updated in place. */
  method AcceptedLineFingerprints(diff: string, alphanumeric: char -> bool) returns (summary: Summary)
    ensures summary == SummaryOf(ScanDiff(diff), alphanumeric) == ReadSummary(Lines(diff), alphanumeric)
    ensures forall ps :: GitPatches(ps) && diff == Render(ps) ==> summary == Expected(ps, alphanumeric)
  {
    hide NormalizeDiffPath, GitPatches, Render, Expected, ReadSummary, Lines, ScanLines, Fingerprints, Contribution;
    SummaryReads(diff, alphanumeric);
    var lines := Lines(diff);
    var currentPath: Option<string>, inHunk := None, false;
    var added, deleted := 0, 0;
    var fingerprints: seq<Fingerprint> := [];
    ghost var scan := START;
    NothingScanned(lines, alphanumeric);
    for k := 0 to |lines|
      invariant scan == ScanLines(START, lines[..k])
      invariant scan == Scan(currentPath, inHunk, scan.added, deleted)
      invariant added == |scan.added|
      invariant fingerprints == Fingerprints(scan.added, alphanumeric)
    {
      var line := lines[k];
      ScanNext(lines, k);
      ghost var before := scan.added;
      scan := ScanLine(scan, line);
      if HasPrefix(line, "diff --git ") {
        currentPath, inHunk := None, false;
      } else if HasPrefix(line, "@@ ") {
        inHunk := true;
      } else if !inHunk && HasPrefix(line, "+++ ") {
        currentPath := NormalizeDiffPath(line[4..]);
      } else if !inHunk && HasPrefix(line, "--- ") {
      } else if HasPrefix(line, "+") {
        added := added + 1;
        fingerprints := PushFingerprint(fingerprints, currentPath, line[1..], alphanumeric);
        FingerprintNext(before, AddedLine(currentPath, line[1..]), alphanumeric);
      } else if HasPrefix(line, "-") {
        deleted := deleted + 1;
      }
    }
    assert lines[..|lines|] == lines;
    summary := Summary(added, deleted, fingerprints);
    forall ps | GitPatches(ps) && diff == Render(ps) ensures summary == Expected(ps, alphanumeric) {
      SummaryInvertsRender(ps, alphanumeric);
    }
  }
}
