/**
 What the scanner makes of paths and added lines, read off the characters:
 which lines are effective, and which text stands for them.
 */
module EffectiveLines {
  import opened Options
  import opened UnifiedDiff

  // ---------------------------------------------------------------- blanks

  /** The code points with the Unicode property White_Space. */
  const BLANKS: set<int> := {
    0x09, 0x0A, 0x0B, 0x0C, 0x0D, 0x20, 0x85, 0xA0, 0x1680, 0x2000, 0x2001, 0x2002, 0x2003, 0x2004, 0x2005, 0x2006,
    0x2007, 0x2008, 0x2009, 0x200A, 0x2028, 0x2029, 0x202F, 0x205F, 0x3000}

  predicate Blank(c: char)
    ensures Blank(c) <==> IsWhitespace(c)
  {
    c as int in BLANKS
  }

  predicate EndsBlank(s: string) {
    s != "" && Blank(s[|s| - 1])
  }

  // ---------------------------------------------------------------- the text

  /** The text so far, and whether a blank has been seen since its last character. */
  datatype Squeezing = Squeezing(text: string, gap: bool)

  /** Each run of blanks becomes one space; those at the ends disappear. */
  function Squeeze(s: string): Squeezing {
    if s == "" then Squeezing("", false)
    else
      var front, c := Squeeze(s[..|s| - 1]), s[|s| - 1];
      if Blank(c) then Squeezing(front.text, front.text != "")
      else Squeezing(front.text + (if front.gap then " " else "") + [c], false)
  }

  lemma {:induction false} WordEndMeans(s: string)
    ensures forall i :: 0 <= i < WordEnd(s) ==> !Blank(s[i])
    ensures WordEnd(s) < |s| ==> Blank(s[WordEnd(s)])
  {
    if s != "" && !Blank(s[0]) {
      WordEndMeans(s[1..]);
    }
  }

  lemma {:induction false} WordEndUnique(s: string, n: nat)
    requires n <= |s| && (forall i :: 0 <= i < n ==> !Blank(s[i])) && (n < |s| ==> Blank(s[n]))
    ensures WordEnd(s) == n
  {
    if n > 0 {
      WordEndUnique(s[1..], n - 1);
    }
  }

  /** A blank at the end adds no word. */
  lemma {:induction false} WordsIgnoreTrailing(s: string, c: char)
    requires Blank(c)
    ensures Words(s + [c]) == Words(s)
    decreases |s|
  {
    if s == "" {
      assert (s + [c])[1..] == "";
    } else if Blank(s[0]) {
      assert (s + [c])[1..] == s[1..] + [c];
      WordsIgnoreTrailing(s[1..], c);
    } else {
      var n := WordEnd(s);
      WordEndMeans(s);
      WordEndUnique(s + [c], n);
      assert (s + [c])[..n] == s[..n] && (s + [c])[n..] == s[n..] + [c];
      WordsIgnoreTrailing(s[n..], c);
    }
  }

  function Extended(words: seq<string>, c: char): seq<string>
    requires words != []
  {
    words[..|words| - 1] + [words[|words| - 1] + [c]]
  }

  lemma ExtendedCons(word: string, words: seq<string>, c: char)
    requires words != []
    ensures Extended([word] + words, c) == [word] + Extended(words, c)
  {
  }

  /** A word at the start of a line, up to the first blank or the end. */
  lemma WordsCons(word: string, rest: string)
    requires word != "" && (forall i :: 0 <= i < |word| ==> !Blank(word[i])) && (rest != "" ==> Blank(rest[0]))
    ensures Words(word + rest) == [word] + Words(rest)
  {
    hide Blank, IsWhitespace;
    var s := word + rest;
    WordEndUnique(s, |word|);
    assert s[..|word|] == word && s[|word|..] == rest;
  }

  /** The words after one more character: it begins a word after a blank and extends the last one otherwise. */
  function Grown(s: string, c: char): seq<string> {
    if s == "" || EndsBlank(s) || Words(s) == [] then Words(s) + [[c]] else Extended(Words(s), c)
  }

  lemma {:induction false} WordsGrow(s: string, c: char)
    requires !Blank(c)
    ensures s != "" && !EndsBlank(s) ==> Words(s) != []
    ensures Words(s + [c]) == Grown(s, c)
    decreases |s|
  {
    hide Blank, IsWhitespace;
    if s == "" {
      WordsCons([c], "");
      assert s + [c] == [c] + "";
    } else if Blank(s[0]) {
      WordsGrow(s[1..], c);
      BlankThenGrown(s, c);
    } else {
      WordEndMeans(s);
      var word, rest := s[..WordEnd(s)], s[WordEnd(s)..];
      assert s == word + rest;
      WordsCons(word, rest);
      hide Words, WordEnd;
      if rest == "" {
        assert word == s;
        OneWordGrows(word, c);
      } else {
        WordsGrow(rest, c);
        WordsCons(word, rest + [c]);
        assert s + [c] == word + (rest + [c]);
        GrownCons(word, rest, c);
      }
    }
  }

  lemma NoWords()
    ensures Words("") == []
  {
  }

  lemma WordsSkip(s: string)
    requires s != "" && Blank(s[0])
    ensures Words(s) == Words(s[1..])
  {
  }

  lemma BlankThenGrown(s: string, c: char)
    requires s != "" && Blank(s[0]) && Words(s[1..] + [c]) == Grown(s[1..], c)
    requires s[1..] != "" && !EndsBlank(s[1..]) ==> Words(s[1..]) != []
    ensures Words(s + [c]) == Grown(s, c)
    ensures !EndsBlank(s) ==> Words(s) != []
  {
    hide Blank, IsWhitespace, WordEnd, Words, Extended;
    assert (s + [c])[1..] == s[1..] + [c];
    WordsSkip(s);
    WordsSkip(s + [c]);
  }

  lemma OneWordGrows(word: string, c: char)
    requires word != "" && !Blank(c) && forall i :: 0 <= i < |word| ==> !Blank(word[i])
    ensures Words(word) == [word] && Words(word + [c]) == Grown(word, c)
  {
    NoWords();
    hide Blank, IsWhitespace, WordEnd, Words;
    assert word + "" == word && word + [c] + "" == word + [c];
    WordsCons(word, "");
    WordsCons(word + [c], "");
  }

  lemma GrownCons(word: string, rest: string, c: char)
    requires rest != "" && Words(word + rest) == [word] + Words(rest) && (!EndsBlank(rest) ==> Words(rest) != [])
    ensures Grown(word + rest, c) == [word] + Grown(rest, c)
  {
    hide Blank, IsWhitespace, Words;
    if EndsBlank(rest) {
      assert [word] + Words(rest) + [[c]] == [word] + (Words(rest) + [[c]]);
    } else {
      ExtendedCons(word, Words(rest), c);
    }
  }

  lemma {:induction false} JoinSnoc(words: seq<string>, word: string)
    ensures Join(words + [word]) == if words == [] then word else Join(words) + " " + word
  {
    if |words| > 0 {
      assert (words + [word])[1..] == words[1..] + [word];
      JoinSnoc(words[1..], word);
    }
  }

  lemma JoinExtended(words: seq<string>, c: char)
    requires words != []
    ensures Join(Extended(words, c)) == Join(words) + [c]
  {
    var front, last := words[..|words| - 1], words[|words| - 1];
    assert words == front + [last];
    JoinSnoc(front, last);
    JoinSnoc(front, last + [c]);
  }

  lemma {:induction false} JoinIsEmpty(words: seq<string>)
    requires forall i :: 0 <= i < |words| ==> words[i] != ""
    ensures Join(words) == "" <==> words == []
  {
  }

  lemma {:induction false} WordsAreNonempty(s: string)
    ensures forall i :: 0 <= i < |Words(s)| ==> Words(s)[i] != ""
    decreases |s|
  {
    if s != "" {
      if Blank(s[0]) {
        WordsAreNonempty(s[1..]);
      } else {
        WordsAreNonempty(s[WordEnd(s)..]);
      }
    }
  }

  /** Joining the words of a line with single spaces squeezes it. */
  lemma {:induction false} JoinSqueezes(s: string)
    ensures Squeeze(s) == Squeezing(Join(Words(s)), EndsBlank(s) && Words(s) != [])
  {
    if s != "" {
      var front, c := s[..|s| - 1], s[|s| - 1];
      assert s == front + [c];
      JoinSqueezes(front);
      WordsAreNonempty(front);
      JoinIsEmpty(Words(front));
      if Blank(c) {
        WordsIgnoreTrailing(front, c);
      } else {
        WordsGrow(front, c);
        JoinSnoc(Words(front), [c]);
        if Words(front) != [] {
          JoinExtended(Words(front), c);
        }
      }
    }
  }

  /** Spaces are the only blanks, none is at an end and no two are next to each other. */
  predicate Tidy(text: string) {
    && (text != "" ==> !Blank(text[0]) && !Blank(text[|text| - 1]))
    && forall i :: 0 <= i < |text| && Blank(text[i]) ==> text[i] == ' ' && i + 1 < |text| && !Blank(text[i + 1])
  }

  lemma {:induction false} SqueezeIsTidy(s: string)
    ensures Tidy(Squeeze(s).text) && (Squeeze(s).gap ==> Squeeze(s).text != "")
  {
    assert Blank(' ');
    hide Blank, IsWhitespace;
    if s != "" {
      SqueezeIsTidy(s[..|s| - 1]);
    }
  }

  /** The squeezed text of a line is tidy and has the words of the line, in order. */
  lemma {:induction false} SqueezeKeepsWords(s: string)
    ensures Tidy(Squeeze(s).text) && Words(Squeeze(s).text) == Words(s)
  {
    hide Blank, IsWhitespace, Tidy;
    SqueezeIsTidy(s);
    if s != "" {
      var front, c := s[..|s| - 1], s[|s| - 1];
      assert s == front + [c];
      SqueezeKeepsWords(front);
      if Blank(c) {
        WordsIgnoreTrailing(front, c);
      } else {
        WordsGrow(front, c);
        WordsOfGrown(front, c);
      }
    }
  }

  lemma WordsOfGrown(front: string, c: char)
    requires !Blank(c) && Words(Squeeze(front).text) == Words(front)
    ensures var before := Squeeze(front);
            Words(before.text + (if before.gap then " " else "") + [c]) == Words(front + [c])
  {
    assert Blank(' ');
    hide Blank, IsWhitespace;
    var text := Squeeze(front).text;
    SqueezeIsTidy(front);
    JoinSqueezes(front);
    WordsAreNonempty(front);
    JoinIsEmpty(Words(front));
    WordsGrow(front, c);
    WordsGrow(text, c);
    WordsIgnoreTrailing(text, ' ');
    WordsGrow(text + " ", c);
    assert text + "" == text;
    hide Squeeze, Words, Join;
  }

  // ----------------------------------------------------------- effective lines

  type Byte = b: int | 0 <= b < 0x100

  /** The UTF-8 encoding of a character. */
  function Encoded(c: char): seq<Byte> {
    var u := c as int;
    if u < 0x80 then [u]
    else if u < 0x800 then [0xC0 + u / 0x40, 0x80 + u % 0x40]
    else if u < 0x1_0000 then [0xE0 + u / 0x1000, 0x80 + u / 0x40 % 0x40, 0x80 + u % 0x40]
    else [0xF0 + u / 0x4_0000, 0x80 + u / 0x1000 % 0x40, 0x80 + u / 0x40 % 0x40, 0x80 + u % 0x40]
  }

  function Utf8(s: string): seq<Byte> {
    if s == "" then [] else Encoded(s[0]) + Utf8(s[1..])
  }

  lemma {:induction false} Utf8IsMeasured(s: string)
    ensures |Utf8(s)| == Utf8Length(s)
  {
    if s != "" {
      Utf8IsMeasured(s[1..]);
    }
  }

  /** More than three bytes, one character of them a letter, a digit or an underscore. */
  predicate Effective(text: string, alphanumeric: char -> bool) {
    |Utf8(text)| > 3 && exists c :: c in text && (alphanumeric(c) || c == '_')
  }

  /** What the line contributes under a path, read off its characters. */
  function Contribution(path: Option<string>, line: string, alphanumeric: char -> bool): seq<Fingerprint> {
    var text := Squeeze(line).text;
    if path.Some? && Effective(text, alphanumeric) then [Fingerprint(path.value, text)] else []
  }

  /** An added line gives one fingerprint when it has a path and is effective, and none otherwise. */
  lemma LineContributes(path: Option<string>, line: string, alphanumeric: char -> bool)
    ensures FingerprintOf(AddedLine(path, line), alphanumeric) == Contribution(path, line, alphanumeric)
  {
    hide Words, Join, Squeeze, Utf8, Utf8Length;
    var text := Squeeze(line).text;
    JoinSqueezes(line);
    Utf8IsMeasured(text);
    if i :| 0 <= i < |text| && (alphanumeric(text[i]) || text[i] == '_') {
      assert text[i] in text;
    }
    if c :| c in text && (alphanumeric(c) || c == '_') {
      var i :| 0 <= i < |text| && text[i] == c;
    }
  }

  // ------------------------------------------------------------------- paths

  predicate AllBlank(s: string) {
    forall i :: 0 <= i < |s| ==> Blank(s[i])
  }

  predicate Unpadded(s: string) {
    s != "" ==> !Blank(s[0]) && !Blank(s[|s| - 1])
  }

  lemma {:induction false} TrimEndDrops(s: string, after: string)
    requires !EndsBlank(s) && AllBlank(after)
    ensures TrimEnd(s + after) == s
  {
    hide Blank, IsWhitespace;
    if after == "" {
      assert s + after == s;
    } else {
      assert (s + after)[..|s + after| - 1] == s + after[..|after| - 1];
      TrimEndDrops(s, after[..|after| - 1]);
    }
  }

  lemma {:induction false} TrimStartDrops(before: string, s: string)
    requires AllBlank(before) && (s != "" ==> !Blank(s[0]))
    ensures TrimStart(before + s) == s
  {
    hide Blank, IsWhitespace;
    if before == "" {
      assert before + s == s;
    } else {
      assert (before + s)[1..] == before[1..] + s;
      TrimStartDrops(before[1..], s);
    }
  }

  lemma SidePrefix(path: string)
    ensures "a/" <= path || "b/" <= path <==> |path| >= 2 && path[0] in "ab" && path[1] == '/'
  {
  }

  /** Blanks around a path do not count, "/dev/null" is no path, and one leading "a/" or "b/" is dropped. */
  lemma PathIsNormalized(before: string, path: string, after: string)
    requires AllBlank(before) && Unpadded(path) && AllBlank(after)
    ensures NormalizeDiffPath(before + path + after)
            == if path == "/dev/null" then None
               else if |path| >= 2 && path[0] in "ab" && path[1] == '/' then Some(path[2..])
               else Some(path)
  {
    hide Blank, IsWhitespace;
    if path == "" {
      TrimStartDrops(before + path + after, "");
      assert before + path + after + "" == before + path + after;
    } else {
      TrimStartDrops(before, path + after);
      assert before + path + after == before + (path + after);
      TrimEndDrops(path, after);
    }
    hide TrimStart, TrimEnd;
    SidePrefix(path);
  }
}
