/**
 The accepted-line scanner: counting the added and deleted lines of a unified
 diff and collecting the fingerprint of each effective added line.

 A fingerprint is kept as the (path, line) pair that gets hashed, and the
 Unicode "alphanumeric" class is a parameter.
 */
module UnifiedDiff {
  import opened Options

  /** An added line, under the path that was current when it was read. */
  datatype AddedLine = AddedLine(path: Option<string>, text: string)

  datatype Fingerprint = Fingerprint(path: string, line: string)

  datatype Summary = Summary(added: nat, deleted: nat, fingerprints: seq<Fingerprint>)

  /** What the scanner knows after some lines. */
  datatype Scan = Scan(path: Option<string>, inHunk: bool, added: seq<AddedLine>, deleted: nat)

  const START := Scan(None, false, [], 0)

  // ---------------------------------------------------------------- lines

  /** The position of the first newline, or the length when there is none. */
  function LineEnd(text: string): (n: nat)
    ensures n <= |text|
    ensures '\n' !in text[..n]
    ensures n < |text| ==> text[n] == '\n'
  {
    if text == "" || text[0] == '\n' then 0 else 1 + LineEnd(text[1..])
  }

  function StripCr(line: string): string {
    if line != "" && line[|line| - 1] == '\r' then line[..|line| - 1] else line
  }

  /** Splitting at "\n" or "\r\n"; a last line without newline keeps its carriage return. */
  function Lines(text: string): seq<string>
    decreases |text|
  {
    if text == "" then []
    else
      var n := LineEnd(text);
      if n == |text| then [text] else [StripCr(text[..n])] + Lines(text[n + 1..])
  }

  // ----------------------------------------------------------- whitespace

  /** The Unicode White_Space characters. */
  predicate IsWhitespace(c: char) {
    var u := c as int;
    0x09 <= u <= 0x0D || u == 0x20 || u == 0x85 || u == 0xA0 || u == 0x1680
    || 0x2000 <= u <= 0x200A || u == 0x2028 || u == 0x2029 || u == 0x202F || u == 0x205F || u == 0x3000
  }

  function TrimStart(s: string): string {
    if s != "" && IsWhitespace(s[0]) then TrimStart(s[1..]) else s
  }

  function TrimEnd(s: string): string {
    if s != "" && IsWhitespace(s[|s| - 1]) then TrimEnd(s[..|s| - 1]) else s
  }

  /** The length of the leading run of non-whitespace characters. */
  function WordEnd(s: string): (n: nat)
    ensures n <= |s|
  {
    if s == "" || IsWhitespace(s[0]) then 0 else 1 + WordEnd(s[1..])
  }

  /** The maximal whitespace-free pieces of a line. */
  function Words(s: string): seq<string>
    decreases |s|
  {
    if s == "" then []
    else if IsWhitespace(s[0]) then Words(s[1..])
    else
      var n := WordEnd(s);
      [s[..n]] + Words(s[n..])
  }

  function Join(words: seq<string>): string {
    if words == [] then ""
    else if |words| == 1 then words[0]
    else words[0] + " " + Join(words[1..])
  }

  /** The number of bytes of a character in UTF-8. */
  function Utf8Width(c: char): nat {
    var u := c as int;
    if u < 0x80 then 1 else if u < 0x800 then 2 else if u < 0x1_0000 then 3 else 4
  }

  function Utf8Length(s: string): nat {
    if s == "" then 0 else Utf8Width(s[0]) + Utf8Length(s[1..])
  }

  // --------------------------------------------------------- normalisation

  predicate HasPrefix(s: string, prefix: string) {
    prefix <= s
  }

  function NormalizeDiffPath(raw: string): Option<string> {
    var path := TrimEnd(TrimStart(raw));
    if path == "/dev/null" then None
    else if HasPrefix(path, "b/") || HasPrefix(path, "a/") then Some(path[2..])
    else Some(path)
  }

  function NormalizeEffectiveLine(line: string, alphanumeric: char -> bool): Option<string> {
    var normalized := Join(Words(line));
    if Utf8Length(normalized) <= 3 then None
    else if !exists i :: 0 <= i < |normalized| && (alphanumeric(normalized[i]) || normalized[i] == '_') then None
    else Some(normalized)
  }

  /** The fingerprint of an added line, if it has a path and an effective text. */
  function FingerprintOf(row: AddedLine, alphanumeric: char -> bool): seq<Fingerprint> {
    var line := NormalizeEffectiveLine(row.text, alphanumeric);
    if row.path.Some? && line.Some? then [Fingerprint(row.path.value, line.value)] else []
  }

  /** The fingerprints of added lines, in order. */
  function Fingerprints(added: seq<AddedLine>, alphanumeric: char -> bool): seq<Fingerprint> {
    if added == [] then []
    else Fingerprints(added[..|added| - 1], alphanumeric) + FingerprintOf(added[|added| - 1], alphanumeric)
  }

  // --------------------------------------------------------------- scanner

  function ScanLine(s: Scan, line: string): Scan {
    if HasPrefix(line, "diff --git ") then s.(path := None, inHunk := false)
    else if HasPrefix(line, "@@ ") then s.(inHunk := true)
    else if !s.inHunk && HasPrefix(line, "+++ ") then s.(path := NormalizeDiffPath(line[4..]))
    else if !s.inHunk && HasPrefix(line, "--- ") then s
    else if HasPrefix(line, "+") then s.(added := s.added + [AddedLine(s.path, line[1..])])
    else if HasPrefix(line, "-") then s.(deleted := s.deleted + 1)
    else s
  }

  function ScanLines(s: Scan, lines: seq<string>): Scan {
    if lines == [] then s
    else ScanLine(ScanLines(s, lines[..|lines| - 1]), lines[|lines| - 1])
  }

  function ScanDiff(diff: string): Scan {
    ScanLines(START, Lines(diff))
  }

  function SummaryOf(scan: Scan, alphanumeric: char -> bool): Summary {
    Summary(|scan.added|, scan.deleted, Fingerprints(scan.added, alphanumeric))
  }
}
