/**
 Rendering git file patches as text, and the proof that scanning inverts it.

 The renderer is the reference: it says what a diff of some patches looks like,
 without mentioning the scanner. Content is arbitrary apart from newlines.
 */
module DiffRendering {
  import opened Options
  import opened UnifiedDiff
  import opened EffectiveLines

  datatype HunkLine =
    | Added(text: string)
    | Removed(text: string)
    | Context(text: string)
    | Remark(text: string)  // "\ No newline at end of file"

  datatype Hunk = Hunk(range: string, lines: seq<HunkLine>)

  /** One side of a file patch: a path below the repository root, or no file. */
  datatype Side = Absent | File(path: string)

  /** `title` follows "diff --git "; `headers` are the extended header lines. */
  datatype FilePatch = FilePatch(title: string, headers: seq<string>, before: Side, after: Side, hunks: seq<Hunk>)

  // -------------------------------------------------------------- renderer

  function SideName(prefix: string, side: Side): string {
    match side
    case Absent => "/dev/null"
    case File(path) => prefix + path
  }

  function HunkRow(line: HunkLine): string {
    match line
    case Added(text) => "+" + text
    case Removed(text) => "-" + text
    case Context(text) => " " + text
    case Remark(text) => "\\" + text
  }

  function HunkRows(lines: seq<HunkLine>): seq<string> {
    if lines == [] then [] else [HunkRow(lines[0])] + HunkRows(lines[1..])
  }

  function HunksRows(hunks: seq<Hunk>): seq<string> {
    if hunks == [] then []
    else ["@@ " + hunks[0].range] + HunkRows(hunks[0].lines) + HunksRows(hunks[1..])
  }

  /** A patch without hunks (a mode change, a pure rename) has no "---" and "+++" lines. */
  function NameRows(p: FilePatch): seq<string> {
    if p.hunks == [] then [] else ["--- " + SideName("a/", p.before), "+++ " + SideName("b/", p.after)]
  }

  function PatchRows(p: FilePatch): seq<string> {
    ["diff --git " + p.title] + p.headers + NameRows(p) + HunksRows(p.hunks)
  }

  function PatchesRows(ps: seq<FilePatch>): seq<string> {
    if ps == [] then [] else PatchRows(ps[0]) + PatchesRows(ps[1..])
  }

  function Unlines(rows: seq<string>): string {
    if rows == [] then "" else rows[0] + "\n" + Unlines(rows[1..])
  }

  function Render(ps: seq<FilePatch>): string {
    Unlines(PatchesRows(ps))
  }

  // --------------------------------------------------------- well-formedness

  predicate OneLine(s: string) {
    '\n' !in s
  }

  /** An extended header line ("index ...", "new file mode ...", "rename from ..."). */
  predicate ExtendedHeader(h: string) {
    && OneLine(h)
    && !HasPrefix(h, "diff --git ") && !HasPrefix(h, "@@ ") && !HasPrefix(h, "+") && !HasPrefix(h, "-")
  }

  predicate OneLineSide(side: Side) {
    side.File? ==> OneLine(side.path)
  }

  predicate OneLineHunk(h: Hunk) {
    OneLine(h.range) && forall i :: 0 <= i < |h.lines| ==> OneLine(h.lines[i].text)
  }

  predicate GitPatch(p: FilePatch) {
    && OneLine(p.title) && OneLineSide(p.before) && OneLineSide(p.after)
    && (forall i :: 0 <= i < |p.headers| ==> ExtendedHeader(p.headers[i]))
    && (forall i :: 0 <= i < |p.hunks| ==> OneLineHunk(p.hunks[i]))
  }

  predicate GitPatches(ps: seq<FilePatch>) {
    forall i :: 0 <= i < |ps| ==> GitPatch(ps[i])
  }

  // --------------------------------------------- what the patches contain

  /** The path a reader of the diff would name: the new path up to trailing whitespace. */
  function PatchPath(p: FilePatch): Option<string> {
    match p.after
    case Absent => None
    case File(path) => Some(TrimEnd(path))
  }

  function AddedIn(path: Option<string>, lines: seq<HunkLine>): seq<AddedLine> {
    if lines == [] then []
    else if lines[0].Added? then [AddedLine(path, StripCr(lines[0].text))] + AddedIn(path, lines[1..])
    else AddedIn(path, lines[1..])
  }

  function RemovedIn(lines: seq<HunkLine>): nat {
    if lines == [] then 0 else (if lines[0].Removed? then 1 else 0) + RemovedIn(lines[1..])
  }

  /** All hunk lines of a patch, in order. */
  function Flatten(hunks: seq<Hunk>): seq<HunkLine> {
    if hunks == [] then [] else hunks[0].lines + Flatten(hunks[1..])
  }

  function AddedByAll(ps: seq<FilePatch>): seq<AddedLine> {
    if ps == [] then [] else AddedIn(PatchPath(ps[0]), Flatten(ps[0].hunks)) + AddedByAll(ps[1..])
  }

  function RemovedByAll(ps: seq<FilePatch>): nat {
    if ps == [] then 0 else RemovedIn(Flatten(ps[0].hunks)) + RemovedByAll(ps[1..])
  }

  // --------------------------------------------------------- text and lines

  function StripCrs(rows: seq<string>): seq<string> {
    seq(|rows|, i requires 0 <= i < |rows| => StripCr(rows[i]))
  }

  lemma {:induction false} LineEndUnique(text: string, n: nat)
    requires n < |text| && text[n] == '\n' && '\n' !in text[..n]
    ensures LineEnd(text) == n
  {
    if n > 0 {
      assert text[..n][0] == text[0] && text[1..][..n - 1] == text[..n][1..];
      LineEndUnique(text[1..], n - 1);
    }
  }

  lemma LineEndOf(row: string, rest: string)
    requires OneLine(row)
    ensures LineEnd(row + "\n" + rest) == |row|
  {
    assert (row + "\n" + rest)[..|row|] == row;
    LineEndUnique(row + "\n" + rest, |row|);
  }

  /** Splitting into lines undoes joining rows, up to a carriage return before each newline. */
  lemma {:induction false} LinesOfUnlines(rows: seq<string>)
    requires forall i :: 0 <= i < |rows| ==> OneLine(rows[i])
    ensures Lines(Unlines(rows)) == StripCrs(rows)
  {
    if rows != [] {
      LinesCons(rows[0], Unlines(rows[1..]));
      LinesOfUnlines(rows[1..]);
      assert StripCrs(rows) == [StripCr(rows[0])] + StripCrs(rows[1..]);
    }
  }

  lemma {:induction false} UnlinesAppend(a: seq<string>, b: seq<string>)
    ensures Unlines(a + b) == Unlines(a) + Unlines(b)
  {
    if a == [] {
      assert a + b == b;
    } else {
      assert (a + b)[1..] == a[1..] + b;
      UnlinesAppend(a[1..], b);
    }
  }

  lemma StripCrKeepsPrefix(prefix: string, s: string)
    requires '\r' !in prefix
    ensures StripCr(prefix + s) == prefix + StripCr(s)
  {
    if s != "" {
      assert (prefix + s)[..|prefix + s| - 1] == prefix + s[..|s| - 1];
    } else {
      assert prefix + s == prefix;
    }
  }

  lemma StripCrsAppend(a: seq<string>, b: seq<string>)
    ensures StripCrs(a + b) == StripCrs(a) + StripCrs(b)
  {
  }

  lemma LinesCons(row: string, rest: string)
    requires OneLine(row)
    ensures Lines(row + "\n" + rest) == [StripCr(row)] + Lines(rest)
  {
    var text := row + "\n" + rest;
    LineEndOf(row, rest);
    assert text[..|row|] == row && text[|row| + 1..] == rest;
  }

  predicate Complete(text: string) {
    text == "" || text[|text| - 1] == '\n'
  }

  lemma FirstLine(a: string) returns (row: string, rest: string)
    requires Complete(a) && a != ""
    ensures a == row + "\n" + rest && OneLine(row) && Complete(rest) && |rest| < |a|
  {
    var n := LineEnd(a);
    assert n < |a| by {
      assert a[..|a|] == a;
    }
    row, rest := a[..n], a[n + 1..];
  }

  lemma LinesAppendCons(row: string, rest: string, b: string)
    requires OneLine(row)
    requires Lines(rest + b) == Lines(rest) + Lines(b)
    ensures Lines(row + "\n" + rest + b) == Lines(row + "\n" + rest) + Lines(b)
  {
    var first := [StripCr(row)];
    calc {
      Lines(row + "\n" + rest + b);
      { assert row + "\n" + rest + b == row + "\n" + (rest + b); }
      Lines(row + "\n" + (rest + b));
      { LinesCons(row, rest + b); }
      first + (Lines(rest) + Lines(b));
      first + Lines(rest) + Lines(b);
      { LinesCons(row, rest); }
      Lines(row + "\n" + rest) + Lines(b);
    }
  }

  /** Text that ends with a newline is a list of complete lines. */
  lemma {:induction false} LinesAppend(a: string, b: string)
    requires Complete(a)
    ensures Lines(a + b) == Lines(a) + Lines(b)
    decreases |a|
  {
    if a == "" {
      assert a + b == b;
    } else {
      var row, rest := FirstLine(a);
      LinesAppend(rest, b);
      LinesAppendCons(row, rest, b);
    }
  }

  // -------------------------------------------------------------- scanning

  lemma {:induction false} ScanAppend(s: Scan, a: seq<string>, b: seq<string>)
    ensures ScanLines(s, a + b) == ScanLines(ScanLines(s, a), b)
  {
    if b == [] {
      assert a + b == a;
    } else {
      assert (a + b)[..|a + b| - 1] == a + b[..|b| - 1];
      ScanAppend(s, a, b[..|b| - 1]);
    }
  }

  function More(s: Scan, added: seq<AddedLine>, deleted: nat): Scan {
    s.(added := s.added + added, deleted := s.deleted + deleted)
  }

  lemma MoreMore(s: Scan, a: seq<AddedLine>, m: nat, b: seq<AddedLine>, n: nat)
    ensures More(More(s, a, m), b, n) == More(s, a + b, m + n)
  {
    assert s.added + a + b == s.added + (a + b);
  }

  /** What `Lines` makes of a hunk row keeps its marker. */
  lemma ScanHunkRow(s: Scan, line: HunkLine)
    requires s.inHunk
    ensures ScanLine(s, StripCr(HunkRow(line))) == More(s, AddedIn(s.path, [line]), RemovedIn([line]))
  {
    var row := StripCr(HunkRow(line));
    match line
    case Added(text) =>
      StripCrKeepsPrefix("+", text);
      assert row[0] == '+' && row[1..] == StripCr(text);
    case Removed(text) =>
      StripCrKeepsPrefix("-", text);
      assert row[0] == '-';
    case Context(text) =>
      StripCrKeepsPrefix(" ", text);
      assert row[0] == ' ';
    case Remark(text) =>
      StripCrKeepsPrefix("\\", text);
      assert row[0] == '\\';
  }

  lemma {:induction false} ScanHunkRows(s: Scan, lines: seq<HunkLine>)
    requires s.inHunk
    ensures ScanLines(s, StripCrs(HunkRows(lines))) == More(s, AddedIn(s.path, lines), RemovedIn(lines))
    decreases lines
  {
    if lines != [] {
      var first, rest := [HunkRow(lines[0])], lines[1..];
      StripCrsAppend(first, HunkRows(rest));
      ScanAppend(s, StripCrs(first), StripCrs(HunkRows(rest)));
      ScanOne(s, HunkRow(lines[0]));
      ScanHunkRow(s, lines[0]);
      ScanHunkRows(ScanLine(s, StripCr(HunkRow(lines[0]))), rest);
      assert lines == [lines[0]] + rest;
      AddedInAppend(s.path, [lines[0]], rest);
      MoreMore(s, AddedIn(s.path, [lines[0]]), RemovedIn([lines[0]]), AddedIn(s.path, rest), RemovedIn(rest));
    }
  }

  lemma ScanOne(s: Scan, row: string)
    ensures ScanLines(s, StripCrs([row])) == ScanLine(s, StripCr(row))
  {
    var rows := StripCrs([row]);
    assert rows == [StripCr(row)];
    assert ScanLines(s, rows[..0]) == s;
  }

  lemma {:induction false} AddedInAppend(path: Option<string>, a: seq<HunkLine>, b: seq<HunkLine>)
    ensures AddedIn(path, a + b) == AddedIn(path, a) + AddedIn(path, b)
    ensures RemovedIn(a + b) == RemovedIn(a) + RemovedIn(b)
  {
    if a == [] {
      assert a + b == b;
    } else {
      assert (a + b)[1..] == a[1..] + b;
      AddedInAppend(path, a[1..], b);
    }
  }

  lemma ScanHunk(s: Scan, hunk: Hunk)
    ensures ScanLines(s, StripCrs(["@@ " + hunk.range] + HunkRows(hunk.lines)))
         == More(s.(inHunk := true), AddedIn(s.path, hunk.lines), RemovedIn(hunk.lines))
  {
    var head, body := ["@@ " + hunk.range], HunkRows(hunk.lines);
    StripCrsAppend(head, body);
    ScanAppend(s, StripCrs(head), StripCrs(body));
    ScanHunkHeader(s, hunk.range);
    ScanHunkRows(s.(inHunk := true), hunk.lines);
  }

  lemma {:induction false} ScanHunks(s: Scan, hunks: seq<Hunk>)
    ensures ScanLines(s, StripCrs(HunksRows(hunks)))
         == More(s.(inHunk := s.inHunk || hunks != []), AddedIn(s.path, Flatten(hunks)), RemovedIn(Flatten(hunks)))
    decreases hunks
  {
    if hunks != [] {
      var hunk, rest := hunks[0], hunks[1..];
      var rows := ["@@ " + hunk.range] + HunkRows(hunk.lines);
      StripCrsAppend(rows, HunksRows(rest));
      ScanAppend(s, StripCrs(rows), StripCrs(HunksRows(rest)));
      ScanHunk(s, hunk);
      ScanHunks(ScanLines(s, StripCrs(rows)), rest);
      AddedInAppend(s.path, hunk.lines, Flatten(rest));
      MoreMore(s.(inHunk := true), AddedIn(s.path, hunk.lines), RemovedIn(hunk.lines),
               AddedIn(s.path, Flatten(rest)), RemovedIn(Flatten(rest)));
    }
  }

  lemma ScanHunkHeader(s: Scan, range: string)
    ensures ScanLines(s, StripCrs(["@@ " + range])) == s.(inHunk := true)
  {
    ScanOne(s, "@@ " + range);
    StripCrKeepsPrefix("@@ ", range);
    assert ("@@ " + StripCr(range))[0] == '@';
  }

  lemma {:induction false} ScanHeaders(s: Scan, headers: seq<string>)
    requires forall i :: 0 <= i < |headers| ==> ExtendedHeader(headers[i])
    ensures ScanLines(s, StripCrs(headers)) == s
  {
    if headers != [] {
      var front, last := headers[..|headers| - 1], headers[|headers| - 1];
      ScanHeaders(s, front);
      StripCrsAppend(front, [last]);
      assert headers == front + [last];
      ScanAppend(s, StripCrs(front), StripCrs([last]));
      ScanOne(s, last);
      assert StripCr(last) <= last;
    }
  }

  lemma TrimEndStripCr(s: string)
    ensures TrimEnd(StripCr(s)) == TrimEnd(s)
  {
  }

  lemma {:induction false} TrimEndKeepsPrefix(prefix: string, s: string)
    requires prefix != "" && !IsWhitespace(prefix[|prefix| - 1])
    ensures TrimEnd(prefix + s) == prefix + TrimEnd(s)
  {
    if s == "" {
      assert prefix + s == prefix;
    } else if IsWhitespace(s[|s| - 1]) {
      assert (prefix + s)[..|prefix + s| - 1] == prefix + s[..|s| - 1];
      TrimEndKeepsPrefix(prefix, s[..|s| - 1]);
    }
  }

  /** The "+++" row names the new path; "/dev/null" names none. */
  lemma AfterPath(side: Side)
    ensures NormalizeDiffPath(StripCr(SideName("b/", side)))
         == match side case Absent => None case File(path) => Some(TrimEnd(path))
  {
    var raw := StripCr(SideName("b/", side));
    match side
    case Absent =>
      assert raw == "/dev/null" && TrimStart(raw) == raw && TrimEnd(raw) == raw;
    case File(path) =>
      StripCrKeepsPrefix("b/", path);
      assert raw == "b/" + StripCr(path) && TrimStart(raw) == raw;
      TrimEndKeepsPrefix("b/", StripCr(path));
      TrimEndStripCr(path);
      assert TrimEnd(raw)[0] == 'b' && "/dev/null"[0] == '/';
  }

  lemma ScanNames(s: Scan, p: FilePatch)
    requires !s.inHunk && s.path == None
    ensures ScanLines(s, StripCrs(NameRows(p))) == if p.hunks == [] then s else s.(path := PatchPath(p))
  {
    if p.hunks != [] {
      var source, target := SideName("a/", p.before), SideName("b/", p.after);
      StripCrsAppend(["--- " + source], ["+++ " + target]);
      assert NameRows(p) == ["--- " + source] + ["+++ " + target];
      ScanAppend(s, StripCrs(["--- " + source]), StripCrs(["+++ " + target]));
      ScanOne(s, "--- " + source);
      ScanOne(s, "+++ " + target);
      StripCrKeepsPrefix("--- ", source);
      StripCrKeepsPrefix("+++ ", target);
      assert ("--- " + StripCr(source))[0] == '-';
      assert ("+++ " + StripCr(target))[0] == '+' && ("+++ " + StripCr(target))[4..] == StripCr(target);
      AfterPath(p.after);
    }
  }

  function AfterPatch(s: Scan, p: FilePatch): Scan {
    var lines := Flatten(p.hunks);
    Scan(if p.hunks == [] then None else PatchPath(p), p.hunks != [],
         s.added + AddedIn(PatchPath(p), lines), s.deleted + RemovedIn(lines))
  }

  /** Scanning one rendered patch, from any state: the title line forgets what came before. */
  lemma ScanPatch(s: Scan, p: FilePatch)
    requires GitPatch(p)
    ensures ScanLines(s, StripCrs(PatchRows(p))) == AfterPatch(s, p)
  {
    var title, names, hunks := ["diff --git " + p.title], NameRows(p), HunksRows(p.hunks);
    StripCrsAppend(title + p.headers + names, hunks);
    StripCrsAppend(title + p.headers, names);
    StripCrsAppend(title, p.headers);
    ScanAppend(s, StripCrs(title + p.headers + names), StripCrs(hunks));
    ScanAppend(s, StripCrs(title + p.headers), StripCrs(names));
    ScanAppend(s, StripCrs(title), StripCrs(p.headers));
    var reset := s.(path := None, inHunk := false);
    ScanTitle(s, p.title);
    ScanHeaders(reset, p.headers);
    ScanNames(reset, p);
    ScanHunks(ScanLines(reset, StripCrs(names)), p.hunks);
  }

  lemma ScanTitle(s: Scan, title: string)
    ensures ScanLines(s, StripCrs(["diff --git " + title])) == s.(path := None, inHunk := false)
  {
    ScanOne(s, "diff --git " + title);
    StripCrKeepsPrefix("diff --git ", title);
  }

  lemma ScanPatchThen(s: Scan, p: FilePatch, rest: seq<string>)
    requires GitPatch(p)
    ensures ScanLines(s, StripCrs(PatchRows(p) + rest)) == ScanLines(AfterPatch(s, p), StripCrs(rest))
  {
    StripCrsAppend(PatchRows(p), rest);
    ScanAppend(s, StripCrs(PatchRows(p)), StripCrs(rest));
    ScanPatch(s, p);
  }

  lemma {:induction false} ScanPatches(s: Scan, ps: seq<FilePatch>)
    requires GitPatches(ps)
    ensures ScanLines(s, StripCrs(PatchesRows(ps))).added == s.added + AddedByAll(ps)
    ensures ScanLines(s, StripCrs(PatchesRows(ps))).deleted == s.deleted + RemovedByAll(ps)
    decreases ps
  {
    if ps == [] {
      assert StripCrs(PatchesRows(ps)) == [];
    } else {
      ScanPatchThen(s, ps[0], PatchesRows(ps[1..]));
      ScanPatches(AfterPatch(s, ps[0]), ps[1..]);
      AddedByAllCons(s.added, ps);
    }
  }

  lemma AddedByAllCons(before: seq<AddedLine>, ps: seq<FilePatch>)
    requires ps != []
    ensures before + AddedByAll(ps)
         == (before + AddedIn(PatchPath(ps[0]), Flatten(ps[0].hunks))) + AddedByAll(ps[1..])
  {
  }

  // ------------------------------------------------------------ OneLine rows

  lemma {:induction false} HunkRowsOneLine(lines: seq<HunkLine>)
    requires forall i :: 0 <= i < |lines| ==> OneLine(lines[i].text)
    ensures forall row :: row in HunkRows(lines) ==> OneLine(row)
  {
    if lines != [] {
      HunkRowsOneLine(lines[1..]);
    }
  }

  lemma {:induction false} HunksRowsOneLine(hunks: seq<Hunk>)
    requires forall i :: 0 <= i < |hunks| ==> OneLineHunk(hunks[i])
    ensures forall row :: row in HunksRows(hunks) ==> OneLine(row)
  {
    if hunks != [] {
      HunkRowsOneLine(hunks[0].lines);
      HunksRowsOneLine(hunks[1..]);
    }
  }

  lemma {:induction false} PatchesRowsOneLine(ps: seq<FilePatch>)
    requires GitPatches(ps)
    ensures forall row :: row in PatchesRows(ps) ==> OneLine(row)
  {
    if ps != [] {
      PatchRowsOneLine(ps[0]);
      PatchesRowsOneLine(ps[1..]);
      hide OneLine, PatchRows;
    }
  }

  lemma PatchRowsOneLine(p: FilePatch)
    requires GitPatch(p)
    ensures forall row :: row in PatchRows(p) ==> OneLine(row)
  {
    HunksRowsOneLine(p.hunks);
    hide HunksRows;
  }

  // ------------------------------------------------------------ main results

  /**
   Scanning the text of any patches finds exactly their added lines, each under
   its file's path and in order, and exactly the number of their removed lines.
   */
  lemma ScanInvertsRender(ps: seq<FilePatch>)
    requires GitPatches(ps)
    ensures ScanDiff(Render(ps)).added == AddedByAll(ps)
    ensures ScanDiff(Render(ps)).deleted == RemovedByAll(ps)
  {
    PatchesRowsOneLine(ps);
    LinesOfUnlines(PatchesRows(ps));
    ScanPatches(START, ps);
  }

  /** A whole diff followed by another is scanned as the two apart. */
  lemma ScanSplitsAtFiles(a: string, b: string)
    requires Complete(a)
    requires HasPrefix(b, "diff --git ")
    ensures ScanDiff(a + b).added == ScanDiff(a).added + ScanDiff(b).added
    ensures ScanDiff(a + b).deleted == ScanDiff(a).deleted + ScanDiff(b).deleted
  {
    LinesAppend(a, b);
    ScanAppend(START, Lines(a), Lines(b));
    FirstLineKeepsPrefix(b);
    ScanForgets(ScanDiff(a), Lines(b));
  }

  lemma FirstLineKeepsPrefix(b: string)
    requires HasPrefix(b, "diff --git ")
    ensures Lines(b) != [] && HasPrefix(Lines(b)[0], "diff --git ")
  {
    var n := LineEnd(b);
    var prefix := "diff --git ";
    assert |prefix| <= n by {
      assert forall i :: 0 <= i < |prefix| ==> b[i] == prefix[i] && prefix[i] != '\n';
    }
    assert prefix <= b[..n];
    StripCrKeepsPrefix(prefix, b[|prefix|..n]);
    assert b[..n] == prefix + b[|prefix|..n];
  }

  /** The totals of both scans, in the position of the second. */
  function Joined(s: Scan, alone: Scan): Scan {
    Scan(alone.path, alone.inHunk, s.added + alone.added, s.deleted + alone.deleted)
  }

  /** After a title line the earlier state matters only through the totals. */
  lemma {:induction false} ScanForgets(s: Scan, lines: seq<string>)
    requires lines != [] && HasPrefix(lines[0], "diff --git ")
    ensures ScanLines(s, lines) == Joined(s, ScanLines(START, lines))
  {
    if |lines| == 1 {
      assert lines[..0] == [];
    } else {
      assert lines[..|lines| - 1][0] == lines[0];
      ScanForgets(s, lines[..|lines| - 1]);
    }
  }

  lemma {:induction false} AddedInPaths(path: Option<string>, lines: seq<HunkLine>)
    ensures |AddedIn(path, lines)| == CountAdded(lines)
    ensures forall i :: 0 <= i < |AddedIn(path, lines)| ==> AddedIn(path, lines)[i].path == path
  {
    if lines != [] {
      AddedInPaths(path, lines[1..]);
    }
  }

  /** Scanning the diff of one file finds each of its added lines under the path up to trailing whitespace. */
  lemma PathFound(p: FilePatch)
    requires GitPatch(p) && p.after.File?
    ensures |ScanDiff(Render([p])).added| == CountAdded(Flatten(p.hunks))
    ensures forall i :: 0 <= i < |ScanDiff(Render([p])).added| ==>
              ScanDiff(Render([p])).added[i].path == Some(TrimEnd(p.after.path))
  {
    hide ScanDiff, Render, GitPatch;
    ScanInvertsRender([p]);
    AddedInPaths(PatchPath(p), Flatten(p.hunks));
    assert AddedByAll([p]) == AddedIn(PatchPath(p), Flatten(p.hunks)) + AddedByAll([p][1..]);
    assert AddedByAll([p][1..]) == [];
  }

  predicate KeepsPath(p: FilePatch)
    requires p.after.File?
  {
    var added := ScanDiff(Render([p])).added;
    forall i :: 0 <= i < |added| ==> added[i].path == Some(p.after.path)
  }

  /** The scanner keeps the path of a file with added lines exactly when the path does not end in whitespace. */
  lemma PathSurvives(p: FilePatch)
    requires GitPatch(p) && p.after.File? && CountAdded(Flatten(p.hunks)) > 0
    ensures KeepsPath(p) <==> p.after.path == "" || !IsWhitespace(p.after.path[|p.after.path| - 1])
  {
    hide ScanDiff, Render, GitPatch;
    PathFound(p);
    assert ScanDiff(Render([p])).added[0].path == Some(TrimEnd(p.after.path));
    TrimEndKeeps(p.after.path);
  }

  lemma TrimEndKeeps(s: string)
    ensures TrimEnd(s) == s <==> s == "" || !IsWhitespace(s[|s| - 1])
  {
    if s != "" && IsWhitespace(s[|s| - 1]) {
      TrimEndShorter(s[..|s| - 1]);
    }
  }

  // A file called "notes " with one added line.
  const SPACED := FilePatch("a/notes  b/notes ", [], Absent, File("notes "), [Hunk("-0,0 +1 @@", [Added("text")])])

  /** Its line is found under another path. */
  lemma SpacedPathIsLost()
    ensures GitPatch(SPACED) && !KeepsPath(SPACED)
  {
    hide ScanDiff, Render;
    assert Flatten(SPACED.hunks) == [Added("text")] by {
      assert SPACED.hunks[1..] == [];
      assert Flatten(SPACED.hunks) == SPACED.hunks[0].lines + Flatten(SPACED.hunks[1..]);
    }
    assert CountAdded([Added("text")]) == 1 + CountAdded([Added("text")][1..]);
    PathSurvives(SPACED);
  }

  lemma TrimEndShorter(s: string)
    ensures |TrimEnd(s)| <= |s|
  {
  }

  /** A carriage return that `Lines` drops cannot change the fingerprint of the line. */
  lemma FingerprintIgnoresCr(path: Option<string>, text: string, alphanumeric: char -> bool)
    ensures FingerprintOf(AddedLine(path, StripCr(text)), alphanumeric)
         == FingerprintOf(AddedLine(path, text), alphanumeric)
  {
    if StripCr(text) != text {
      WordsIgnoreTrailing(StripCr(text), '\r');
      assert text == StripCr(text) + ['\r'];
    }
  }

  // ------------------------------------------------------- the whole summary

  function CountAdded(lines: seq<HunkLine>): nat {
    if lines == [] then 0 else (if lines[0].Added? then 1 else 0) + CountAdded(lines[1..])
  }

  function EffectiveIn(path: Option<string>, lines: seq<HunkLine>, alphanumeric: char -> bool): seq<Fingerprint> {
    if lines == [] then []
    else if lines[0].Added? then
      Contribution(path, lines[0].text, alphanumeric) + EffectiveIn(path, lines[1..], alphanumeric)
    else EffectiveIn(path, lines[1..], alphanumeric)
  }

  /** What a diff of these patches should report, read off the patches themselves. */
  function Expected(ps: seq<FilePatch>, alphanumeric: char -> bool): Summary {
    if ps == [] then Summary(0, 0, [])
    else
      var lines, rest := Flatten(ps[0].hunks), Expected(ps[1..], alphanumeric);
      Summary(CountAdded(lines) + rest.added, RemovedIn(lines) + rest.deleted,
              EffectiveIn(PatchPath(ps[0]), lines, alphanumeric) + rest.fingerprints)
  }

  lemma {:induction false} FingerprintsAppend(a: seq<AddedLine>, b: seq<AddedLine>, alphanumeric: char -> bool)
    ensures Fingerprints(a + b, alphanumeric) == Fingerprints(a, alphanumeric) + Fingerprints(b, alphanumeric)
  {
    if b == [] {
      assert a + b == a;
    } else {
      assert (a + b)[..|a + b| - 1] == a + b[..|b| - 1];
      FingerprintsAppend(a, b[..|b| - 1], alphanumeric);
    }
  }

  lemma FingerprintsOne(row: AddedLine, alphanumeric: char -> bool)
    ensures Fingerprints([row], alphanumeric) == FingerprintOf(row, alphanumeric)
  {
    assert [row][..0] == [];
    assert Fingerprints([row][..0], alphanumeric) == [];
  }

  lemma FingerprintsCons(path: Option<string>, text: string, rest: seq<AddedLine>, alphanumeric: char -> bool)
    ensures Fingerprints([AddedLine(path, StripCr(text))] + rest, alphanumeric)
         == FingerprintOf(AddedLine(path, text), alphanumeric) + Fingerprints(rest, alphanumeric)
  {
    var row := AddedLine(path, StripCr(text));
    FingerprintsAppend([row], rest, alphanumeric);
    FingerprintsOne(row, alphanumeric);
    FingerprintIgnoresCr(path, text, alphanumeric);
  }

  lemma {:induction false} AddedInSummary(path: Option<string>, lines: seq<HunkLine>, alphanumeric: char -> bool)
    ensures Fingerprints(AddedIn(path, lines), alphanumeric) == EffectiveIn(path, lines, alphanumeric)
  {
    if lines != [] {
      AddedInSummary(path, lines[1..], alphanumeric);
      if lines[0].Added? {
        FingerprintsCons(path, lines[0].text, AddedIn(path, lines[1..]), alphanumeric);
        LineContributes(path, lines[0].text, alphanumeric);
      }
    }
  }

  lemma {:induction false} AddedByAllSummary(ps: seq<FilePatch>, alphanumeric: char -> bool)
    ensures |AddedByAll(ps)| == Expected(ps, alphanumeric).added
    ensures RemovedByAll(ps) == Expected(ps, alphanumeric).deleted
    ensures Fingerprints(AddedByAll(ps), alphanumeric) == Expected(ps, alphanumeric).fingerprints
  {
    if ps != [] {
      var path, lines := PatchPath(ps[0]), Flatten(ps[0].hunks);
      AddedInPaths(path, lines);
      AddedInSummary(path, lines, alphanumeric);
      FingerprintsAppend(AddedIn(path, lines), AddedByAll(ps[1..]), alphanumeric);
      AddedByAllSummary(ps[1..], alphanumeric);
    }
  }

  /** The summary of a rendered diff is the one the patches call for. */
  lemma SummaryInvertsRender(ps: seq<FilePatch>, alphanumeric: char -> bool)
    requires GitPatches(ps)
    ensures SummaryOf(ScanDiff(Render(ps)), alphanumeric) == Expected(ps, alphanumeric)
  {
    ScanInvertsRender(ps);
    AddedByAllSummary(ps, alphanumeric);
  }
}
