/**
 Which texts are accepted as a version and what each of them becomes, written
 out in text: the accepted spellings, the tag of each version, and one spelling
 that nobody would expect to be accepted.
 */
module ReleaseSpellings {
  import opened Options
  import opened ReleaseVersion

  // -------------------------------------------------------------- spellings

  /** A text that ends in a number, with or without a dot in front of it. */
  predicate Numbered(text: string, head: string, number: string) {
    text == head + number || text == head + "." + number
  }

  /** A hotfix of an alpha, as release tags write it. */
  predicate SpellsHotfix(text: string, v: Version) {
    IsHotfix(v) && exists dot :: dot in {"", "."} && text == HotfixText(v, dot)
  }

  function HotfixText(v: Version, dot: string): string
    requires IsHotfix(v)
  {
    v.base + "-alpha" + dot + v.pre.value.number + "." + v.post.value
  }

  function LongName(kind: Kind): string {
    match kind case Alpha => "-alpha" case Beta => "-beta" case Candidate => "-rc"
  }

  /** A pre-release, as release tags write it. */
  predicate SpellsPrerelease(text: string, v: Version) {
    IsPrerelease(v) && Numbered(text, v.base + LongName(v.pre.value.kind), v.pre.value.number)
  }

  /** The remains of one name in front of another: the first substitution makes up the second one's. */
  predicate SpellsByAccident(text: string, v: Version) {
    IsPrerelease(v) && v.pre.value.kind.Beta? && Numbered(text, v.base + "-bet-alpha", v.pre.value.number)
  }

  predicate Spells(text: string, v: Version) {
    text == Render(v) || SpellsHotfix(text, v) || SpellsPrerelease(text, v) || SpellsByAccident(text, v)
  }

  // ------------------------------------------------------ spellings are read

  lemma NumberedHasDot(text: string, head: string, number: string) returns (dot: string)
    requires Numbered(text, head, number)
    ensures OptionalDot(dot) && text == head + dot + number
  {
    dot := if text == head + number then "" else ".";
    assert head + "" == head;
  }

  lemma PrereleaseIsRead(text: string, v: Version)
    requires WellFormed(v) && SpellsPrerelease(text, v)
    ensures Substituted(text) == Render(v)
  {
    var kind, number := v.pre.value.kind, v.pre.value.number;
    RenderedText(v);
    PrereleaseTexts(v);
    assert v.base + LongName(kind) == v.base + "-" + Name(kind);
    hide Render, Substituted, IsRelease;
    var dot := NumberedHasDot(text, v.base + LongName(kind), number);
    SubstitutedKind(v.base, kind, dot, number);
  }

  lemma HotfixIsRead(text: string, v: Version)
    requires WellFormed(v) && SpellsHotfix(text, v)
    ensures Substituted(text) == Render(v)
  {
    hide IsRelease, SubHotfix, SubKind, Render;
    var dot :| dot in {"", "."} && text == HotfixText(v, dot);
    SubHotfixOf(v.base, dot, v.pre.value.number, v.post.value);
    HotfixTexts(v);
    RenderedText(v);
    SubstitutionIdle(Render(v));
  }

  lemma AccidentIsRead(text: string, v: Version)
    requires WellFormed(v) && SpellsByAccident(text, v)
    ensures Substituted(text) == Render(v)
  {
    hide IsRelease, SubHotfix, SubKind, Render;
    var base, number := v.base, v.pre.value.number;
    var dot := NumberedHasDot(text, base + "-bet-alpha", number);
    assert text == (base + "-bet") + "-" + Name(Alpha) + dot + number;
    SubHotfixIdle(base + "-bet", Alpha, dot, number);
    SubKindOf(base + "-bet", Alpha, dot, number);
    var between := base + "-" + Name(Beta) + "" + number;
    assert (base + "-bet") + Letters(Alpha) + number == between;
    SubKindOf(base, Beta, "", number);
    PrereleaseTexts(v);
    RenderedText(v);
    SubstitutionIdle(Render(v));
  }

  /** Every spelling of a version is rewritten into its PEP 440 form. */
  lemma SpellingIsRead(text: string, v: Version)
    requires WellFormed(v) && Spells(text, v)
    ensures Substituted(text) == Render(v)
  {
    if text == Render(v) {
      RenderedText(v);
      SubstitutionIdle(text);
    } else {
      hide Substituted, Render, IsRelease;
      if SpellsHotfix(text, v) {
        HotfixIsRead(text, v);
      } else if SpellsPrerelease(text, v) {
        PrereleaseIsRead(text, v);
      } else {
        AccidentIsRead(text, v);
      }
    }
  }

  // ------------------------------------------------------ nothing else is read

  /** A text splits in one way into a head that does not end in a digit and a number. */
  lemma HeadsAgree(x: string, m: string, y: string, n: string)
    requires Undigited(x) && Undigited(y) && Digits(m) && Digits(n) && x + m == y + n
    ensures x == y && m == n
  {
    DigitRunOf(x, m);
    DigitRunOf(y, n);
  }

  lemma UndotInverse(s: string) returns (dot: string)
    ensures OptionalDot(dot) && s == Undot(s) + dot
  {
    dot := if EndsWith(s, ".") then "." else "";
    if EndsWith(s, ".") {
      ChopEnd(s, ".");
    } else {
      assert s + "" == s;
    }
  }

  lemma SubKindInverse(s: string, kind: Kind) returns (base: string, dot: string, number: string)
    requires SubKind(s, kind) != s
    ensures OptionalDot(dot) && Digits(number) && s == base + "-" + Name(kind) + dot + number
    ensures SubKind(s, kind) == base + Letters(kind) + number
  {
    hide DigitRun, EndsWith, Digits, Undot;
    var n := DigitRun(s);
    DigitsOfRun(s);
    var head := Undot(Chop(s, n));
    dot := UndotInverse(Chop(s, n));
    ChopEnd(head, "-" + Name(kind));
    base, number := Chop(head, 1 + |Name(kind)|), s[|s| - n..];
    assert head == base + ("-" + Name(kind)) == base + "-" + Name(kind);
  }

  lemma SubHotfixInverse(s: string) returns (base: string, dot: string, number: string, post: string)
    requires SubHotfix(s) != s
    ensures OptionalDot(dot) && Digits(number) && Digits(post)
    ensures s == base + "-alpha" + dot + number + "." + post
    ensures SubHotfix(s) == base + "a" + number + ".post" + post
  {
    hide DigitRun, EndsWith, Digits, Undot;
    var m := DigitRun(s);
    DigitsOfRun(s);
    ChopEnd(Chop(s, m), ".");
    var outer := Chop(s, m + 1);
    assert Chop(Chop(s, m), 1) == outer;
    var n := DigitRun(outer);
    DigitsOfRun(outer);
    var head := Undot(Chop(outer, n));
    dot := UndotInverse(Chop(outer, n));
    ChopEnd(head, "-alpha");
    base, number, post := Chop(head, 6), outer[|outer| - n..], s[|s| - m..];
  }

  lemma OneKind(base: string, kind: Kind, number: string, other: Kind, post: Option<string>)
    requires Digits(number) && IsOfKind(base + Letters(kind) + number, other)
    ensures other == kind
    ensures OfKind(base + Letters(kind) + number, other, post) == Version(base, Some(Pre(kind, number)), post)
  {
    var head := base + Letters(kind);
    KindHead(base, kind);
    DigitRunOf(head, number);
    hide IsRelease, DigitRun, EndsWith, Letters;
    assert Chop(head + number, |number| + |Letters(kind)|) == base;
  }

  lemma NoPlainRelease(base: string, kind: Kind, number: string)
    requires Digits(number)
    ensures !IsRelease(base + Letters(kind) + number)
  {
    var head := base + Letters(kind);
    KindHead(base, kind);
    DigitRunOf(head, number);
    hide DigitRun, EndsWith;
    if IsRelease(head + number) {
      BaseHead(head + number);
      hide IsRelease;
    }
  }

  /** What the letters of a kind and a number stand for, when they stand for a version at all. */
  lemma KindIsRead(base: string, kind: Kind, number: string, post: Option<string>)
    requires Digits(number) && ParsePre(base + Letters(kind) + number, post).Some?
    ensures ParsePre(base + Letters(kind) + number, post) == Some(Version(base, Some(Pre(kind, number)), post))
  {
    hide IsRelease, IsOfKind, OfKind;
    var s := base + Letters(kind) + number;
    NoPlainRelease(base, kind, number);
    forall other | IsOfKind(s, other) ensures OfKind(s, other, post) == Version(base, Some(Pre(kind, number)), post) {
      OneKind(base, kind, number, other, post);
    }
  }

  lemma PrereleaseOf(v: Version, base: string, kind: Kind, number: string)
    requires WellFormed(v) && Digits(number) && Render(v) == base + Letters(kind) + number
    ensures v == Version(base, Some(Pre(kind, number)), None)
  {
    hide IsRelease, ParsePre;
    ParseInvertsRender(v);
    KindHead(base, kind);
    DigitRunOf(base + Letters(kind), number);
    KindIsRead(base, kind, number, None);
  }

  lemma HotfixOf(v: Version, base: string, number: string, post: string)
    requires WellFormed(v) && Digits(number) && Digits(post) && Render(v) == base + "a" + number + ".post" + post
    ensures v == Version(base, Some(Pre(Alpha, number)), Some(post))
  {
    hide IsRelease, ParsePre;
    ParseInvertsRender(v);
    var head := base + Letters(Alpha) + number;
    assert Render(v) == head + ".post" + post;
    DigitRunOf(head + ".post", post);
    EndsWithOf(head, ".post");
    KindIsRead(base, Alpha, number, Some(post));
  }

  function Hyphened(base: string, kind: Kind, dot: string, number: string): string {
    base + "-" + Name(kind) + dot + number
  }

  lemma HyphenedHead(base: string, kind: Kind, dot: string)
    requires OptionalDot(dot)
    ensures var head := base + "-" + Name(kind) + dot;
            && Undigited(head) && head != ""
            && head[|head| - 1] == if dot == "." then '.' else if kind.Candidate? then 'c' else 'a'
  {
  }

  /** The substitution for hotfixes leaves no text that the others apply to. */
  lemma HotfixComesAlone(s: string, base: string, kind: Kind, dot: string, number: string)
    requires Digits(number) && OptionalDot(dot) && SubHotfix(s) == Hyphened(base, kind, dot, number)
    ensures SubHotfix(s) == s
  {
    hide SubHotfix, Digits;
    if SubHotfix(s) != s {
      var other, _, middle, post := SubHotfixInverse(s);
      HyphenedHead(base, kind, dot);
      HeadsAgree(other + "a" + middle + ".post", post, base + "-" + Name(kind) + dot, number);
    }
  }

  /** Nor does the one for betas leave a candidate. */
  lemma BetaComesAlone(s: string, base: string, dot: string, number: string)
    requires Digits(number) && OptionalDot(dot) && SubKind(s, Beta) == Hyphened(base, Candidate, dot, number)
    ensures SubKind(s, Beta) == s
  {
    hide SubKind, Digits;
    if SubKind(s, Beta) != s {
      var other, _, last := SubKindInverse(s, Beta);
      HyphenedHead(base, Candidate, dot);
      HeadsAgree(other + "b", last, base + "-" + Name(Candidate) + dot, number);
    }
  }

  lemma BetaRemains(other: string, base: string, kind: Kind, dot: string)
    requires OptionalDot(dot) && (kind.Beta? || kind.Candidate?) && other + "a" == base + "-" + Name(kind) + dot
    ensures kind.Beta? && other == base + "-bet"
  {
    HyphenedHead(base, kind, dot);
    var head := base + "-" + Name(kind) + dot;
    assert (other + "a")[|other|] == 'a' && (other + "a")[..|other|] == other;
    assert head == base + "-bet" + "a" && head[..|head| - 1] == base + "-bet";
  }

  /** The one for alphas leaves a beta in one way only, and no candidate. */
  lemma AlphaLeavesBeta(s: string, base: string, kind: Kind, dot: string, number: string)
    requires Digits(number) && OptionalDot(dot) && SubKind(s, Alpha) == Hyphened(base, kind, dot, number)
    requires kind.Beta? || kind.Candidate?
    ensures SubKind(s, Alpha) == s || (kind.Beta? && Numbered(s, base + "-bet-alpha", number))
  {
    hide SubKind, Digits;
    if SubKind(s, Alpha) != s {
      var other, gap, last := SubKindInverse(s, Alpha);
      HyphenedHead(base, kind, dot);
      HeadsAgree(other + "a", last, base + "-" + Name(kind) + dot, number);
      BetaRemains(other, base, kind, dot);
      assert other + "-" + Name(Alpha) == base + "-bet-alpha";
      assert base + "-bet-alpha" + "" == base + "-bet-alpha";
    }
  }

  lemma CandidateWasSpelled(text: string, v: Version)
    requires WellFormed(v) && Substituted(text) == Render(v)
    requires var s := SubKind(SubKind(SubHotfix(text), Alpha), Beta); SubKind(s, Candidate) != s
    ensures SpellsPrerelease(text, v)
  {
    hide SubKind, SubHotfix, IsRelease, Digits, Render;
    var one := SubHotfix(text);
    var two := SubKind(one, Alpha);
    var base, dot, number := SubKindInverse(SubKind(two, Beta), Candidate);
    PrereleaseOf(v, base, Candidate, number);
    BetaComesAlone(two, base, dot, number);
    AlphaLeavesBeta(one, base, Candidate, dot, number);
    HotfixComesAlone(text, base, Candidate, dot, number);
    assert base + "-" + Name(Candidate) == base + LongName(Candidate);
    assert base + LongName(Candidate) + "" == base + LongName(Candidate);
  }

  lemma BetaWasSpelled(text: string, v: Version)
    requires WellFormed(v)
    requires var s := SubKind(SubHotfix(text), Alpha); SubKind(s, Beta) == Render(v) != s
    ensures SpellsPrerelease(text, v) || SpellsByAccident(text, v)
  {
    hide SubKind, SubHotfix, IsRelease, Digits, Render;
    var one := SubHotfix(text);
    var base, dot, number := SubKindInverse(SubKind(one, Alpha), Beta);
    PrereleaseOf(v, base, Beta, number);
    AlphaLeavesBeta(one, base, Beta, dot, number);
    if SubKind(one, Alpha) == one {
      HotfixComesAlone(text, base, Beta, dot, number);
      assert base + "-" + Name(Beta) == base + LongName(Beta);
      assert base + LongName(Beta) + "" == base + LongName(Beta);
    } else {
      var gap := NumberedHasDot(one, base + "-bet-alpha", number);
      assert one == Hyphened(base + "-bet", Alpha, gap, number);
      HotfixComesAlone(text, base + "-bet", Alpha, gap, number);
    }
  }

  lemma AlphaWasSpelled(text: string, v: Version)
    requires WellFormed(v)
    requires var s := SubHotfix(text); SubKind(s, Alpha) == Render(v) != s
    ensures SpellsPrerelease(text, v)
  {
    hide SubKind, SubHotfix, IsRelease, Digits, Render;
    var base, dot, number := SubKindInverse(SubHotfix(text), Alpha);
    PrereleaseOf(v, base, Alpha, number);
    HotfixComesAlone(text, base, Alpha, dot, number);
    assert base + "-" + Name(Alpha) == base + LongName(Alpha);
    assert base + LongName(Alpha) + "" == base + LongName(Alpha);
  }

  /** No text but the spellings of a version is rewritten into its PEP 440 form. */
  lemma OnlySpellingsAreRead(text: string, v: Version)
    requires WellFormed(v) && Substituted(text) == Render(v)
    ensures Spells(text, v)
  {
    hide SubKind, SubHotfix, IsRelease, Digits, Render;
    var one := SubHotfix(text);
    var two := SubKind(one, Alpha);
    var three := SubKind(two, Beta);
    if SubKind(three, Candidate) != three {
      CandidateWasSpelled(text, v);
    } else if three != two {
      BetaWasSpelled(text, v);
    } else if two != one {
      AlphaWasSpelled(text, v);
    } else if one != text {
      var base, dot, number, post := SubHotfixInverse(text);
      HotfixOf(v, base, number, post);
      assert text == HotfixText(v, dot);
    }
  }

  // ------------------------------------------------------------ whole versions

  /** The code points that Python strips: those with the property White_Space, and four separators. */
  const SPACES: set<int> := {
    0x09, 0x0A, 0x0B, 0x0C, 0x0D, 0x1C, 0x1D, 0x1E, 0x1F, 0x20, 0x85, 0xA0, 0x1680, 0x2000, 0x2001, 0x2002, 0x2003,
    0x2004, 0x2005, 0x2006, 0x2007, 0x2008, 0x2009, 0x200A, 0x2028, 0x2029, 0x202F, 0x205F, 0x3000}

  predicate Strippable(c: char)
    ensures Strippable(c) <==> IsSpace(c)
  {
    c as int in SPACES
  }

  predicate AllSpace(s: string) {
    forall i :: 0 <= i < |s| ==> Strippable(s[i])
  }

  predicate IsPrefix(prefix: string) {
    prefix == "" || prefix == "v" || prefix == "rust-v"
  }

  /** A spelling of the version, possibly with a prefix, possibly with blanks around it. */
  predicate Writes(before: string, prefix: string, text: string, after: string, v: Version) {
    AllSpace(before) && IsPrefix(prefix) && AllSpace(after) && WellFormed(v) && Spells(text, v)
  }

  lemma {:induction false} StripRightOf(s: string, after: string)
    requires AllSpace(after) && (s == "" || !IsSpace(s[|s| - 1]))
    ensures StripRight(s + after) == s
  {
    hide IsSpace, Strippable;
    if after == "" {
      assert s + after == s;
    } else {
      assert (s + after)[..|s + after| - 1] == s + after[..|after| - 1];
      StripRightOf(s, after[..|after| - 1]);
    }
  }

  lemma {:induction false} StripLeftOf(before: string, s: string)
    requires AllSpace(before) && (s == "" || !IsSpace(s[0]))
    ensures StripLeft(before + s) == s
  {
    hide IsSpace, Strippable;
    if before == "" {
      assert before + s == s;
    } else {
      assert (before + s)[1..] == before[1..] + s;
      StripLeftOf(before[1..], s);
    }
  }

  lemma {:induction false} StripRightSplits(s: string) returns (after: string)
    ensures AllSpace(after) && s == StripRight(s) + after
  {
    hide IsSpace, Strippable;
    if s != "" && Strippable(s[|s| - 1]) {
      var rest := StripRightSplits(s[..|s| - 1]);
      after := rest + [s[|s| - 1]];
      assert s == StripRight(s) + rest + [s[|s| - 1]];
    } else {
      after := "";
      assert s + "" == s;
    }
  }

  lemma {:induction false} StripLeftSplits(s: string) returns (before: string)
    ensures AllSpace(before) && s == before + StripLeft(s)
  {
    hide IsSpace, Strippable;
    if s != "" && Strippable(s[0]) {
      var rest := StripLeftSplits(s[1..]);
      before := [s[0]] + rest;
      assert s == [s[0]] + s[1..] == [s[0]] + (rest + StripLeft(s)) == before + StripLeft(s);
    } else {
      before := "";
    }
  }

  /** A spelling begins and ends with a digit. */
  lemma SpellingEnds(text: string, v: Version)
    requires WellFormed(v) && Spells(text, v)
    ensures text != "" && IsDigit(text[0]) && IsDigit(text[|text| - 1])
  {
    hide IsRelease;
    RenderedText(v);
    BaseText(v.base);
    hide Render, LongName;
  }

  lemma StrippedVersion(before: string, prefix: string, text: string, after: string)
    requires AllSpace(before) && IsPrefix(prefix) && AllSpace(after)
    requires text != "" && IsDigit(text[0]) && IsDigit(text[|text| - 1])
    ensures Unprefixed(StripRight(StripLeft(before + prefix + text + after))) == text
  {
    hide IsSpace, Strippable, StripLeft, StripRight, IsPrefix, AllSpace, IsDigit, Unprefixed;
    var body := prefix + text;
    BodyIsUnpadded(prefix, text);
    assert before + prefix + text + after == before + (body + after);
    assert (body + after)[0] == body[0];
    StripLeftOf(before, body + after);
    StripRightOf(body, after);
    PrefixDrops(prefix, text);
  }

  lemma BodyIsUnpadded(prefix: string, text: string)
    requires IsPrefix(prefix) && text != "" && IsDigit(text[0]) && IsDigit(text[|text| - 1])
    ensures var body := prefix + text; !IsSpace(body[0]) && !IsSpace(body[|body| - 1])
  {
  }

  lemma PrefixDrops(prefix: string, text: string)
    requires IsPrefix(prefix) && text != "" && IsDigit(text[0])
    ensures Unprefixed(prefix + text) == text
  {
    var s := prefix + text;
    assert s[|prefix|..] == text;
    assert s[0] == if prefix == "" then text[0] else prefix[0];
    assert "rust-v" <= s ==> s[0] == 'r';
    assert "v" <= s ==> s[0] == 'v';
  }

  lemma UnprefixedSplits(s: string) returns (prefix: string)
    ensures IsPrefix(prefix) && s == prefix + Unprefixed(s)
  {
    prefix := if "rust-v" <= s then "rust-v" else if "v" <= s then "v" else "";
    assert "" + s == s;
  }

  /** Every spelling of a version is accepted, as its PEP 440 form. */
  lemma NormalizeAccepts(before: string, prefix: string, text: string, after: string, v: Version)
    requires Writes(before, prefix, text, after, v)
    ensures Normalize(before + prefix + text + after) == Some(Render(v))
  {
    SpellingEnds(text, v);
    StrippedVersion(before, prefix, text, after);
    SpellingIsRead(text, v);
    ParseInvertsRender(v);
    hide Unprefixed, StripLeft, StripRight, Substituted, ParseVersion, Render, IsRelease;
  }

  /** Nothing else is accepted. */
  lemma NormalizeExplains(version: string)
    returns (before: string, prefix: string, text: string, after: string, v: Version)
    requires Normalize(version).Some?
    ensures Writes(before, prefix, text, after, v) && version == before + prefix + text + after
    ensures Normalize(version) == Some(Render(v))
  {
    hide Unprefixed, StripLeft, StripRight, Substituted, ParseVersion, Render, IsRelease, Spells, IsSpace, Strippable;
    var left := StripLeft(version);
    var body := StripRight(left);
    before := StripLeftSplits(version);
    after := StripRightSplits(left);
    prefix := UnprefixedSplits(body);
    text := Unprefixed(body);
    ParsesExactlyTheGrammar(Normalize(version).value);
    v := ParseVersion(Normalize(version).value).value;
    OnlySpellingsAreRead(text, v);
    assert version == before + (prefix + text + after) == before + prefix + text + after;
  }

  // --------------------------------------------------------------------- tags

  lemma TagOf(v: Version)
    requires WellFormed(v)
    ensures CodexReleaseTag(Render(v)) == Some("rust-v" + ReleaseOf(v))
  {
    hide Normalize, ReleaseOf, IsRelease;
    ParseInvertsRender(v);
    NormalFormsAreFixed(Render(v));
    hide Render, ParseVersion;
  }

  /** The tag of every version, written out. */
  lemma TagIsWrittenOut(base: string, number: string, post: string)
    requires IsRelease(base) && Digits(number) && Digits(post)
    ensures CodexReleaseTag(base) == Some("rust-v" + base)
    ensures CodexReleaseTag(base + "a" + number) == Some("rust-v" + base + "-alpha." + number)
    ensures CodexReleaseTag(base + "b" + number) == Some("rust-v" + base + "-beta." + number)
    ensures CodexReleaseTag(base + "rc" + number) == Some("rust-v" + base + "-rc." + number)
    ensures CodexReleaseTag(base + ".post" + post) == Some("rust-v" + base + ".post" + post)
    ensures CodexReleaseTag(base + "a" + number + ".post" + post)
         == Some("rust-v" + base + "-alpha." + number + "." + post)
    ensures CodexReleaseTag(base + "b" + number + ".post" + post)
         == Some("rust-v" + base + "b" + number + ".post" + post)
    ensures CodexReleaseTag(base + "rc" + number + ".post" + post)
         == Some("rust-v" + base + "rc" + number + ".post" + post)
  {
    hide CodexReleaseTag, IsRelease;
    PlainTags(base, post);
    KindTag(base, Alpha, number);
    KindTag(base, Beta, number);
    KindTag(base, Candidate, number);
    HotfixTag(base, number, post);
    PostTag(base, Beta, number, post);
    PostTag(base, Candidate, number, post);
    var tag := "rust-v" + base;
    assert tag + "-alpha" + "." == tag + "-alpha." && tag + "-beta" + "." == tag + "-beta.";
    assert tag + "-rc" + "." == tag + "-rc.";
  }

  lemma PlainTags(base: string, post: string)
    requires IsRelease(base) && Digits(post)
    ensures CodexReleaseTag(base) == Some("rust-v" + base)
    ensures CodexReleaseTag(base + ".post" + post) == Some("rust-v" + base + ".post" + post)
  {
    hide CodexReleaseTag, IsRelease;
    var v, w := Version(base, None, None), Version(base, None, Some(post));
    TagOf(v);
    TagOf(w);
    assert Render(v) == base && Render(w) == base + ".post" + post;
    assert "rust-v" + Render(w) == "rust-v" + base + ".post" + post;
  }

  lemma KindTag(base: string, kind: Kind, number: string)
    requires IsRelease(base) && Digits(number)
    ensures CodexReleaseTag(base + Letters(kind) + number) == Some("rust-v" + base + LongName(kind) + "." + number)
  {
    hide CodexReleaseTag, IsRelease;
    var v := Version(base, Some(Pre(kind, number)), None);
    TagOf(v);
    PrereleaseTexts(v);
    assert "rust-v" + (base + "-" + Name(kind) + "." + number) == "rust-v" + base + LongName(kind) + "." + number;
  }

  lemma HotfixTag(base: string, number: string, post: string)
    requires IsRelease(base) && Digits(number) && Digits(post)
    ensures CodexReleaseTag(base + "a" + number + ".post" + post)
         == Some("rust-v" + base + "-alpha." + number + "." + post)
  {
    hide CodexReleaseTag, IsRelease, Render, ReleaseOf, Digits;
    var v := Version(base, Some(Pre(Alpha, number)), Some(post));
    TagOf(v);
    HotfixTexts(v);
    assert "rust-v" + (base + "-alpha." + number + "." + post) == "rust-v" + base + "-alpha." + number + "." + post;
  }

  lemma PostTag(base: string, kind: Kind, number: string, post: string)
    requires IsRelease(base) && Digits(number) && Digits(post) && !kind.Alpha?
    ensures CodexReleaseTag(base + Letters(kind) + number + ".post" + post)
         == Some("rust-v" + base + Letters(kind) + number + ".post" + post)
  {
    hide CodexReleaseTag, IsRelease, Digits, Letters;
    var v := Version(base, Some(Pre(kind, number)), Some(post));
    TagOf(v);
    assert Render(v) == base + Letters(kind) + number + ".post" + post == ReleaseOf(v);
    hide Render, ReleaseOf;
    assert "rust-v" + (base + Letters(kind) + number + ".post" + post)
        == "rust-v" + base + Letters(kind) + number + ".post" + post;
  }

  /** The tag depends on the version alone, not on its spelling. */
  lemma TagOfSpelling(before: string, prefix: string, text: string, after: string, v: Version)
    requires Writes(before, prefix, text, after, v)
    ensures CodexReleaseTag(before + prefix + text + after) == CodexReleaseTag(Render(v))
  {
    NormalizeAccepts(before, prefix, text, after, v);
    ParseInvertsRender(v);
    NormalFormsAreFixed(Render(v));
    hide Normalize, Render, ReleaseOf, ParseVersion;
  }

  /** A text that names no kind of release is taken for a beta. */
  lemma AccidentIsAccepted(base: string, number: string)
    requires IsRelease(base) && Digits(number)
    ensures Normalize(base + "-bet-alpha" + number) == Some(base + "b" + number)
  {
    hide Normalize, IsRelease;
    var text, v := base + "-bet-alpha" + number, Version(base, Some(Pre(Beta, number)), None);
    assert SpellsByAccident(text, v);
    NormalizeAccepts("", "", text, "", v);
    assert "" + "" + text + "" == text;
    PrereleaseTexts(v);
  }

  // ------------------------------------------------------------------- numbers

  /** Numbers with dots between them. */
  function Dotted(numbers: seq<string>): string
    requires numbers != []
  {
    if |numbers| == 1 then numbers[0]
    else Dotted(numbers[..|numbers| - 1]) + "." + numbers[|numbers| - 1]
  }

  predicate AllDigits(numbers: seq<string>) {
    numbers != [] && forall i :: 0 <= i < |numbers| ==> Digits(numbers[i])
  }

  lemma AllDigitsFront(numbers: seq<string>)
    requires AllDigits(numbers) && |numbers| > 1
    ensures AllDigits(numbers[..|numbers| - 1]) && Digits(numbers[|numbers| - 1])
  {
  }

  /** Numbers with dots between them are a release. */
  lemma {:induction false} DottedIsRelease(numbers: seq<string>)
    requires AllDigits(numbers)
    ensures IsRelease(Dotted(numbers)) && Dots(Dotted(numbers)) == |numbers| - 1
  {
    if |numbers| == 1 {
      DigitRunOf("", numbers[0]);
      assert "" + numbers[0] == numbers[0];
      NoDots(numbers[0]);
    } else {
      var front, last := numbers[..|numbers| - 1], numbers[|numbers| - 1];
      AllDigitsFront(numbers);
      DottedIsRelease(front);
      ReleaseGrows(Dotted(front), last);
    }
  }

  lemma ReleaseGrows(s: string, number: string)
    requires IsRelease(s) && Digits(number)
    ensures IsRelease(s + "." + number) && Dots(s + "." + number) == Dots(s) + 1
  {
    LastNumber(s, number);
    assert Chop(Chop(s + "." + number, |number|), 1) == s;
    DotsAppend(s + ".", number);
    DotsAppend(s, ".");
    NoDots(number);
    assert Dots(".") == 1 + Dots("."[1..]);
  }

  lemma {:induction false} DotsAppend(a: string, b: string)
    ensures Dots(a + b) == Dots(a) + Dots(b)
  {
    if a == "" {
      assert a + b == b;
    } else {
      assert (a + b)[1..] == a[1..] + b;
      DotsAppend(a[1..], b);
    }
  }

  lemma {:induction false} NoDots(digits: string)
    requires forall i :: 0 <= i < |digits| ==> IsDigit(digits[i])
    ensures Dots(digits) == 0
  {
    if digits != "" {
      NoDots(digits[1..]);
    }
  }

  /** Every release is numbers with dots between them. */
  lemma {:induction false} ReleaseIsDotted(s: string) returns (numbers: seq<string>)
    requires IsRelease(s)
    ensures AllDigits(numbers) && s == Dotted(numbers)
  {
    var n := DigitRun(s);
    DigitsOfRun(s);
    if n == |s| {
      numbers := [s];
      assert s[|s| - n..] == s;
    } else {
      var rest := Chop(s, n);
      ChopEnd(rest, ".");
      var front := ReleaseIsDotted(Chop(rest, 1));
      numbers := front + [s[|s| - n..]];
      assert numbers[..|numbers| - 1] == front;
    }
  }

  // ---------------------------------------------------------- runtime versions

  /** Three numbers with dots between them, then nothing, an alpha or a hotfix of an alpha. */
  predicate IsRuntimeText(s: string, x: string, y: string, z: string, pre: Option<string>, post: Option<string>) {
    && AllDigits([x, y, z]) && (pre.Some? ==> Digits(pre.value)) && (post.Some? ==> pre.Some? && Digits(post.value))
    && s == x + "." + y + "." + z
            + (if pre.Some? then "a" + pre.value else "") + (if post.Some? then ".post" + post.value else "")
  }

  function RuntimeOf(base: string, pre: Option<string>, post: Option<string>): Version {
    Version(base, if pre.Some? then Some(Pre(Alpha, pre.value)) else None, post)
  }

  lemma ThreeDotted(x: string, y: string, z: string)
    ensures Dotted([x, y, z]) == x + "." + y + "." + z
  {
    assert [x, y, z][..2] == [x, y] && [x, y][..1] == [x];
    assert Dotted([x, y]) == Dotted([x, y][..1]) + "." + y;
  }

  lemma RuntimeTextParses(s: string, x: string, y: string, z: string, pre: Option<string>, post: Option<string>)
    requires IsRuntimeText(s, x, y, z, pre, post)
    ensures IsRuntimeVersion(s)
  {
    hide IsRelease, Digits;
    var base := Dotted([x, y, z]);
    DottedIsRelease([x, y, z]);
    ThreeDotted(x, y, z);
    var v := RuntimeOf(base, pre, post);
    assert AllDigits([x, y, z]);
    hide Dotted, Dots, AllDigits;
    ParseInvertsRender(v);
    assert s == Render(v);
    hide ParseVersion, Render;
  }

  /** The runtime versions are exactly the texts with three numbers and an optional alpha, hotfixed or not. */
  lemma RuntimeVersionsAreExact(s: string)
    ensures IsRuntimeVersion(s) <==> exists x, y, z, pre, post :: IsRuntimeText(s, x, y, z, pre, post)
  {
    hide ParseVersion, IsRelease, Render;
    if IsRuntimeVersion(s) {
      var v := ParseVersion(s).value;
      ParsesExactlyTheGrammar(s);
      var numbers := ReleaseIsDotted(v.base);
      DottedIsRelease(numbers);
      RuntimeRead(s, v, numbers);
    }
    if x, y, z, pre, post :| IsRuntimeText(s, x, y, z, pre, post) {
      RuntimeTextParses(s, x, y, z, pre, post);
    }
  }

  lemma RuntimeRead(s: string, v: Version, numbers: seq<string>)
    requires WellFormed(v) && s == Render(v) && AllDigits(numbers) && |numbers| == 3 && v.base == Dotted(numbers)
    requires if v.pre.Some? then v.pre.value.kind.Alpha? else v.post.None?
    ensures exists x, y, z, pre, post :: IsRuntimeText(s, x, y, z, pre, post)
  {
    hide IsRelease, Digits;
    var x, y, z := numbers[0], numbers[1], numbers[2];
    assert numbers == [x, y, z];
    ThreeDotted(x, y, z);
    hide Dotted;
    assert IsRuntimeText(s, x, y, z, if v.pre.Some? then Some(v.pre.value.number) else None, v.post);
  }
}
