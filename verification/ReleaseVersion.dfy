/**
 Translating Codex versions between their release tags and PEP 440, and the
 proof that the two forms determine each other.

 The regular expressions of the source are given as right-to-left parsers. Each
 of them is anchored at the end of the text and every group it captures is
 delimited by a character it cannot contain, so it matches in one way at most.
 */
module ReleaseVersion {
  import opened Options

  datatype Kind = Alpha | Beta | Candidate

  datatype Pre = Pre(kind: Kind, number: string)

  /** `base`, an optional pre-release and an optional post-release, as PEP 440 writes them. */
  datatype Version = Version(base: string, pre: Option<Pre>, post: Option<string>)

  // ------------------------------------------------------------------- text

  predicate IsDigit(c: char) {
    '0' <= c <= '9'
  }

  predicate Digits(s: string) {
    s != "" && forall i :: 0 <= i < |s| ==> IsDigit(s[i])
  }

  /** The length of the longest run of digits at the end. */
  function DigitRun(s: string): (n: nat)
    ensures n <= |s|
    ensures forall i :: |s| - n <= i < |s| ==> IsDigit(s[i])
  {
    if s != "" && IsDigit(s[|s| - 1]) then 1 + DigitRun(s[..|s| - 1]) else 0
  }

  predicate EndsWith(s: string, suffix: string): (ends: bool)
    ensures ends ==> |suffix| <= |s|
  {
    |suffix| <= |s| && s[|s| - |suffix|..] == suffix
  }

  function Chop(s: string, n: nat): string
    requires n <= |s|
  {
    s[..|s| - n]
  }

  /** What `str.strip` takes for whitespace. */
  predicate IsSpace(c: char) {
    var u := c as int;
    0x09 <= u <= 0x0D || 0x1C <= u <= 0x20 || u == 0x85 || u == 0xA0 || u == 0x1680
    || 0x2000 <= u <= 0x200A || u == 0x2028 || u == 0x2029 || u == 0x202F || u == 0x205F || u == 0x3000
  }

  function StripLeft(s: string): string {
    if s != "" && IsSpace(s[0]) then StripLeft(s[1..]) else s
  }

  function StripRight(s: string): string {
    if s != "" && IsSpace(s[|s| - 1]) then StripRight(s[..|s| - 1]) else s
  }

  // ---------------------------------------------------------------- versions

  /** `[0-9]+(\.[0-9]+)*` */
  predicate IsRelease(s: string) {
    var n := DigitRun(s);
    n > 0 && (n == |s| || (var rest := Chop(s, n); EndsWith(rest, ".") && IsRelease(Chop(rest, 1))))
  }

  function Letters(kind: Kind): string {
    match kind case Alpha => "a" case Beta => "b" case Candidate => "rc"
  }

  function Name(kind: Kind): string {
    match kind case Alpha => "alpha" case Beta => "beta" case Candidate => "rc"
  }

  predicate WellFormed(v: Version) {
    && IsRelease(v.base)
    && (v.pre.Some? ==> Digits(v.pre.value.number))
    && (v.post.Some? ==> Digits(v.post.value))
  }

  function RenderPre(v: Version): string {
    v.base + if v.pre.Some? then Letters(v.pre.value.kind) + v.pre.value.number else ""
  }

  function Render(v: Version): string {
    RenderPre(v) + if v.post.Some? then ".post" + v.post.value else ""
  }

  /** The text is a release, the letters of the kind and a number. */
  predicate IsOfKind(s: string, kind: Kind) {
    var n, letters := DigitRun(s), Letters(kind);
    n > 0 && EndsWith(Chop(s, n), letters) && IsRelease(Chop(s, n + |letters|))
  }

  function OfKind(s: string, kind: Kind, post: Option<string>): Version
    requires IsOfKind(s, kind)
  {
    var n, letters := DigitRun(s), Letters(kind);
    Version(Chop(s, n + |letters|), Some(Pre(kind, s[|s| - n..])), post)
  }

  /** The base and optional pre-release that make up a text. */
  function ParsePre(s: string, post: Option<string>): Option<Version> {
    if IsOfKind(s, Alpha) then Some(OfKind(s, Alpha, post))
    else if IsOfKind(s, Beta) then Some(OfKind(s, Beta, post))
    else if IsOfKind(s, Candidate) then Some(OfKind(s, Candidate, post))
    else if IsRelease(s) then Some(Version(s, None, post))
    else None
  }

  /** The full match of a normalised version. */
  function ParseVersion(s: string): Option<Version> {
    var n := DigitRun(s);
    var head := Chop(s, n);
    if n > 0 && EndsWith(head, ".post") then ParsePre(Chop(head, 5), Some(s[|s| - n..])) else ParsePre(s, None)
  }

  // ------------------------------------------------------------- translation

  /** `-alpha\.?([0-9]+)\.([0-9]+)$` becomes an alpha with a post-release. */
  function SubHotfix(s: string): string {
    var m := DigitRun(s);
    if m == 0 || !EndsWith(Chop(s, m), ".") then s
    else
      var outer := Chop(s, m + 1);
      var n := DigitRun(outer);
      if n == 0 then s
      else
        var head := Undot(Chop(outer, n));
        if EndsWith(head, "-alpha") then
          Chop(head, 6) + "a" + outer[|outer| - n..] + ".post" + s[|s| - m..]
        else s
  }

  function Undot(s: string): string {
    if EndsWith(s, ".") then Chop(s, 1) else s
  }

  /** `-name\.?([0-9]+)$` becomes the PEP 440 letters of the kind. */
  function SubKind(s: string, kind: Kind): string {
    var n := DigitRun(s);
    var head := Undot(Chop(s, n));
    if n > 0 && EndsWith(head, "-" + Name(kind)) then
      Chop(head, 1 + |Name(kind)|) + Letters(kind) + s[|s| - n..]
    else s
  }

  function Unprefixed(s: string): string {
    if "rust-v" <= s then s[6..] else if "v" <= s then s[1..] else s
  }

  function Substituted(s: string): string {
    SubKind(SubKind(SubKind(SubHotfix(s), Alpha), Beta), Candidate)
  }

  function Normalize(version: string): Option<string> {
    var normalized := Substituted(Unprefixed(StripRight(StripLeft(version))));
    if ParseVersion(normalized).Some? then Some(normalized) else None
  }

  /** The release form of a version that has been parsed. */
  function ReleaseOf(v: Version): string {
    if v.pre.Some? && v.pre.value.kind.Alpha? && v.post.Some? then
      v.base + "-alpha." + v.pre.value.number + "." + v.post.value
    else if v.pre.Some? && v.post.None? then v.base + "-" + Name(v.pre.value.kind) + "." + v.pre.value.number
    else Render(v)
  }

  function CodexReleaseVersion(version: string): Option<string> {
    var normalized := Normalize(version);
    if normalized.None? then None else Some(ReleaseOf(ParseVersion(normalized.value).value))
  }

  function CodexReleaseTag(version: string): Option<string> {
    var release := CodexReleaseVersion(version);
    if release.None? then None else Some("rust-v" + release.value)
  }

  function Dots(s: string): nat {
    if s == "" then 0 else (if s[0] == '.' then 1 else 0) + Dots(s[1..])
  }

  /** `[0-9]+\.[0-9]+\.[0-9]+(a[0-9]+(\.post[0-9]+)?)?` */
  predicate IsRuntimeVersion(s: string) {
    var parsed := ParseVersion(s);
    && parsed.Some? && Dots(parsed.value.base) == 2
    && if parsed.value.pre.Some? then parsed.value.pre.value.kind.Alpha? else parsed.value.post.None?
  }

  function ResolvePythonRuntimeRelease(pythonVersion: string): Option<(string, string)> {
    var tag := CodexReleaseTag(pythonVersion);
    if IsRuntimeVersion(pythonVersion) && tag.Some? then Some((pythonVersion, tag.value)) else None
  }

  // ------------------------------------------------------------ text lemmas

  predicate Undigited(s: string) {
    s == "" || !IsDigit(s[|s| - 1])
  }

  lemma {:induction false} DigitRunOf(head: string, digits: string)
    requires Undigited(head) && forall i :: 0 <= i < |digits| ==> IsDigit(digits[i])
    ensures DigitRun(head + digits) == |digits|
    ensures Chop(head + digits, |digits|) == head && (head + digits)[|head|..] == digits
  {
    var s := head + digits;
    if digits == "" {
      assert s == head;
    } else {
      assert s[..|s| - 1] == head + digits[..|digits| - 1];
      DigitRunOf(head, digits[..|digits| - 1]);
    }
  }

  lemma EndsWithOf(head: string, suffix: string)
    ensures EndsWith(head + suffix, suffix) && Chop(head + suffix, |suffix|) == head
  {
  }

  lemma EndsAlike(s: string, suffix: string)
    requires EndsWith(s, suffix) && suffix != ""
    ensures s != "" && s[|s| - 1] == suffix[|suffix| - 1] && suffix[0] in s
  {
    assert s[|s| - |suffix|..][|suffix| - 1] == s[|s| - 1];
    assert s[|s| - |suffix|..][0] == s[|s| - |suffix|];
  }

  /** A text with another character `k` places from its end does not end with the suffix. */
  lemma EndsOtherwise(s: string, suffix: string, k: nat := 0)
    requires k < |suffix| && (|s| <= k || s[|s| - 1 - k] != suffix[|suffix| - 1 - k])
    ensures !EndsWith(s, suffix)
  {
    assert k < |s| && |suffix| <= |s| ==> s[|s| - |suffix|..][|suffix| - 1 - k] == s[|s| - 1 - k];
  }

  lemma ChopEnd(s: string, suffix: string)
    requires EndsWith(s, suffix)
    ensures s == Chop(s, |suffix|) + suffix
  {
  }

  predicate NoHyphen(s: string) {
    '-' !in s
  }

  /** A release ends in a digit, begins with one and has only digits and dots. */
  lemma {:induction false} BaseText(s: string)
    requires IsRelease(s)
    ensures s != "" && IsDigit(s[0]) && IsDigit(s[|s| - 1])
    ensures forall i :: 0 <= i < |s| ==> IsDigit(s[i]) || s[i] == '.'
  {
    var n := DigitRun(s);
    if n < |s| {
      var rest := Chop(s, n);
      assert rest[|rest| - 1..] == ".";
      assert rest[|rest| - 1] == '.';
      BaseText(Chop(rest, 1));
      assert forall i :: 0 <= i < |s| - n - 1 ==> s[i] == Chop(rest, 1)[i];
    }
  }

  // ------------------------------------------------------------- the grammar

  lemma ParseKind(base: string, kind: Kind, number: string, post: Option<string>)
    requires IsRelease(base) && Digits(number)
    ensures ParsePre(base + Letters(kind) + number, post) == Some(Version(base, Some(Pre(kind, number)), post))
    ensures var s := base + Letters(kind) + number; !EndsWith(Chop(s, DigitRun(s)), ".post")
  {
    hide IsRelease, DigitRun, EndsWith, Letters;
    var head := base + Letters(kind);
    KindHead(base, kind);
    DigitRunOf(head, number);
    assert Chop(head + number, |number| + |Letters(kind)|) == base;
    assert forall other :: IsOfKind(head + number, other) <==> other == kind;
  }

  lemma ParsePlain(base: string, post: Option<string>)
    requires IsRelease(base)
    ensures ParsePre(base, post) == Some(Version(base, None, post))
    ensures !EndsWith(Chop(base, DigitRun(base)), ".post")
  {
    hide IsRelease, DigitRun, EndsWith;
    BaseHead(base);
    assert Letters(Alpha) == "a" && Letters(Beta) == "b" && Letters(Candidate) == "rc";
    assert forall kind :: !IsOfKind(base, kind);
  }

  lemma ParsePreOf(v: Version)
    requires WellFormed(v)
    ensures ParsePre(RenderPre(v), v.post) == Some(v)
    ensures var s := RenderPre(v); !EndsWith(Chop(s, DigitRun(s)), ".post")
  {
    hide IsRelease, ParsePre, DigitRun, EndsWith, Letters;
    if v.pre.Some? {
      ParseKind(v.base, v.pre.value.kind, v.pre.value.number, v.post);
      assert RenderPre(v) == v.base + Letters(v.pre.value.kind) + v.pre.value.number;
    } else {
      ParsePlain(v.base, v.post);
      assert RenderPre(v) == v.base;
    }
  }

  lemma KindHead(base: string, kind: Kind)
    ensures var head := base + Letters(kind);
            && !EndsWith(head, ".post") && Undigited(head)
            && forall other :: EndsWith(head, Letters(other)) <==> other == kind
  {
    var head := base + Letters(kind);
    EndsWithOf(base, Letters(kind));
    EndsOtherwise(head, ".post");
    forall other: Kind | other != kind ensures !EndsWith(head, Letters(other)) {
      EndsOtherwise(head, Letters(other));
    }
  }

  lemma HeadEndsInDot(base: string)
    requires IsRelease(base)
    ensures var head := Chop(base, DigitRun(base)); head == "" || head[|head| - 1] == '.'
  {
    var head := Chop(base, DigitRun(base));
    if head != "" {
      EndsAlike(head, ".");
    }
  }

  /** What a release leaves when its last number is taken off ends neither in letters nor in `.post`. */
  lemma BaseHead(base: string)
    requires IsRelease(base)
    ensures var head := Chop(base, DigitRun(base));
            !EndsWith(head, "rc") && !EndsWith(head, "a") && !EndsWith(head, "b") && !EndsWith(head, ".post")
  {
    HeadEndsInDot(base);
    hide IsRelease, DigitRun, EndsWith;
    var head := Chop(base, DigitRun(base));
    EndsOtherwise(head, "rc");
    EndsOtherwise(head, "a");
    EndsOtherwise(head, "b");
    EndsOtherwise(head, ".post");
  }

  /** Every version is read back from the way it is written. */
  lemma ParseInvertsRender(v: Version)
    requires WellFormed(v)
    ensures ParseVersion(Render(v)) == Some(v)
  {
    hide IsRelease, ParsePre;
    ParsePreOf(v);
    if v.post.Some? {
      var head := RenderPre(v) + ".post";
      assert Render(v) == head + v.post.value;
      DigitRunOf(head, v.post.value);
      EndsWithOf(RenderPre(v), ".post");
    } else {
      assert Render(v) == RenderPre(v);
    }
  }

  /** The version accounts for all of the text, and for a post-release found behind it. */
  predicate Accounts(v: Version, s: string, post: Option<string>) {
    && v.post == post && RenderPre(v) == s && IsRelease(v.base)
    && (v.pre.Some? ==> Digits(v.pre.value.number))
  }

  lemma OfKindIsSound(s: string, kind: Kind, post: Option<string>)
    requires IsOfKind(s, kind)
    ensures Accounts(OfKind(s, kind, post), s, post)
  {
    hide IsRelease, DigitRun, Letters, EndsWith, Digits;
    var n, letters := DigitRun(s), Letters(kind);
    var head := Chop(s, n);
    DigitsOfRun(s);
    ChopEnd(head, letters);
    assert Chop(head, |letters|) == Chop(s, n + |letters|);
    hide Chop;
  }

  lemma ParsePreIsSound(s: string, post: Option<string>)
    requires ParsePre(s, post).Some?
    ensures Accounts(ParsePre(s, post).value, s, post)
  {
    forall kind | IsOfKind(s, kind) ensures Accounts(OfKind(s, kind, post), s, post) {
      OfKindIsSound(s, kind, post);
    }
    assert IsRelease(s) ==> Accounts(Version(s, None, post), s, post);
    hide IsRelease, IsOfKind, OfKind, Accounts;
  }

  lemma DigitsOfRun(s: string)
    ensures var n := DigitRun(s); s == Chop(s, n) + s[|s| - n..] && (n > 0 ==> Digits(s[|s| - n..]))
  {
  }

  /** The parser accepts exactly the texts of the grammar, and finds the one version each of them writes. */
  lemma ParsesExactlyTheGrammar(s: string)
    ensures ParseVersion(s).Some? <==> exists v :: WellFormed(v) && Render(v) == s
    ensures ParseVersion(s).Some? ==> WellFormed(ParseVersion(s).value) && Render(ParseVersion(s).value) == s
  {
    hide IsRelease, ParsePre;
    if v :| WellFormed(v) && Render(v) == s {
      ParseInvertsRender(v);
    }
    if ParseVersion(s).Some? {
      var n := DigitRun(s);
      var head := Chop(s, n);
      if n > 0 && EndsWith(head, ".post") {
        ParsePreIsSound(Chop(head, 5), Some(s[|s| - n..]));
        assert s == Chop(head, 5) + ".post" + s[|s| - n..];
      } else {
        ParsePreIsSound(s, None);
      }
      assert Render(ParseVersion(s).value) == s;
    }
  }

  // -------------------------------------------------------------- round trip

  lemma RenderedText(v: Version)
    requires WellFormed(v)
    ensures Render(v) != "" && IsDigit(Render(v)[0]) && IsDigit(Render(v)[|Render(v)| - 1])
    ensures NoHyphen(Render(v)) && NoHyphen(v.base)
  {
    hide IsRelease;
    BaseText(v.base);
  }

  /** Nothing is substituted in a text without a hyphen. */
  lemma SubstitutionIdle(s: string)
    requires NoHyphen(s)
    ensures SubHotfix(s) == s && forall kind :: SubKind(s, kind) == s
    ensures Substituted(s) == s
  {
    if SubHotfix(s) != s {
      var outer := Chop(s, DigitRun(s) + 1);
      EndsAlike(Undot(Chop(outer, DigitRun(outer))), "-alpha");
    }
    forall kind ensures SubKind(s, kind) == s {
      if SubKind(s, kind) != s {
        EndsAlike(Undot(Chop(s, DigitRun(s))), "-" + Name(kind));
      }
    }
  }

  /** The dot in front of a number may be left out. */
  predicate OptionalDot(dot: string) {
    dot == "" || dot == "."
  }

  lemma UndotOf(bare: string, dot: string)
    requires OptionalDot(dot) && bare != "" && bare[|bare| - 1] != '.'
    ensures Undot(bare + dot) == bare
  {
    if dot == "." {
      EndsWithOf(bare, ".");
    } else {
      assert bare + dot == bare;
      EndsOtherwise(bare, ".");
    }
  }

  lemma SubKindOf(base: string, kind: Kind, dot: string, number: string)
    requires Digits(number) && OptionalDot(dot)
    ensures SubKind(base + "-" + Name(kind) + dot + number, kind) == base + Letters(kind) + number
  {
    var bare := base + ("-" + Name(kind));
    assert base + "-" + Name(kind) + dot + number == bare + dot + number;
    DigitRunOf(bare + dot, number);
    UndotOf(bare, dot);
    EndsWithOf(base, "-" + Name(kind));
  }

  lemma SubOtherIdle(base: string, kind: Kind, dot: string, number: string, other: Kind)
    requires Digits(number) && OptionalDot(dot) && kind != other
    ensures SubKind(base + "-" + Name(kind) + dot + number, other) == base + "-" + Name(kind) + dot + number
  {
    var bare := base + "-" + Name(kind);
    DigitRunOf(bare + dot, number);
    UndotOf(bare, dot);
    EndsOtherwise(bare, "-" + Name(other), if kind.Candidate? || other.Candidate? then 0 else 1);
  }

  /** A text with a dot and a number at its end. */
  lemma LastNumber(outer: string, number: string)
    requires Digits(number)
    ensures var s := outer + "." + number;
            && DigitRun(s) == |number| && EndsWith(Chop(s, |number|), ".") && Chop(s, |number| + 1) == outer
            && s[|s| - |number|..] == number
  {
    DigitRunOf(outer + ".", number);
    EndsWithOf(outer, ".");
    assert Chop(outer + "." + number, |number| + 1) == outer;
  }

  /** A text with a number at its end that may have a dot in front. */
  lemma KindNumber(bare: string, dot: string, number: string)
    requires Digits(number) && OptionalDot(dot) && Undigited(bare) && bare != "" && bare[|bare| - 1] != '.'
    ensures var s := bare + dot + number;
            && DigitRun(s) == |number| && Undot(Chop(s, |number|)) == bare && s[|s| - |number|..] == number
  {
    DigitRunOf(bare + dot, number);
    UndotOf(bare, dot);
  }

  lemma NotAHotfix(bare: string, dot: string, number: string)
    requires Digits(number) && OptionalDot(dot) && Undigited(bare) && bare != "" && bare[|bare| - 1] != '.'
    ensures SubHotfix(bare + dot + number) == bare + dot + number
  {
    hide DigitRun;
    if dot == "." {
      LastNumber(bare, number);
      DigitRunOf(bare, "");
      assert bare + "" == bare;
    } else {
      KindNumber(bare, dot, number);
      assert bare + dot == bare;
      DigitRunOf(bare, number);
      EndsOtherwise(bare, ".");
    }
  }

  lemma SubHotfixIdle(base: string, kind: Kind, dot: string, number: string)
    requires Digits(number) && OptionalDot(dot)
    ensures SubHotfix(base + "-" + Name(kind) + dot + number) == base + "-" + Name(kind) + dot + number
  {
    hide SubHotfix;
    NotAHotfix(base + "-" + Name(kind), dot, number);
  }

  lemma SubHotfixOf(base: string, dot: string, number: string, post: string)
    requires Digits(number) && OptionalDot(dot) && Digits(post)
    ensures SubHotfix(base + "-alpha" + dot + number + "." + post) == base + "a" + number + ".post" + post
  {
    var bare := base + "-alpha";
    EndsWithOf(base, "-alpha");
    hide DigitRun, Undot, EndsWith, Chop;
    LastNumber(bare + dot + number, post);
    KindNumber(bare, dot, number);
  }

  lemma SubstitutedKind(base: string, kind: Kind, dot: string, number: string)
    requires Digits(number) && OptionalDot(dot) && NoHyphen(base + Letters(kind) + number)
    ensures Substituted(base + "-" + Name(kind) + dot + number) == base + Letters(kind) + number
  {
    hide SubHotfix, SubKind;
    SubHotfixIdle(base, kind, dot, number);
    SubKindOf(base, kind, dot, number);
    SubstitutionIdle(base + Letters(kind) + number);
    forall other | other != kind
      ensures SubKind(base + "-" + Name(kind) + dot + number, other) == base + "-" + Name(kind) + dot + number
    {
      SubOtherIdle(base, kind, dot, number, other);
    }
    hide Name, Letters;
  }

  predicate IsHotfix(v: Version) {
    v.pre.Some? && v.pre.value.kind.Alpha? && v.post.Some?
  }

  predicate IsPrerelease(v: Version) {
    v.pre.Some? && v.post.None?
  }

  lemma HotfixTexts(v: Version)
    requires IsHotfix(v)
    ensures Render(v) == v.base + "a" + v.pre.value.number + ".post" + v.post.value
    ensures ReleaseOf(v) == v.base + "-alpha." + v.pre.value.number + "." + v.post.value
  {
  }

  lemma PrereleaseTexts(v: Version)
    requires IsPrerelease(v)
    ensures Render(v) == v.base + Letters(v.pre.value.kind) + v.pre.value.number
    ensures ReleaseOf(v) == v.base + "-" + Name(v.pre.value.kind) + "." + v.pre.value.number
  {
  }

  lemma HotfixSubstituted(v: Version)
    requires WellFormed(v) && IsHotfix(v)
    ensures SubHotfix(ReleaseOf(v)) == Render(v)
  {
    hide SubHotfix, IsRelease, ReleaseOf, Render;
    HotfixTexts(v);
    SubHotfixOf(v.base, ".", v.pre.value.number, v.post.value);
    assert v.base + "-alpha." == v.base + "-alpha" + ".";
  }

  /** The release form of a version is rewritten into its PEP 440 form. */
  lemma ReleaseSubstituted(v: Version)
    requires WellFormed(v)
    ensures Substituted(ReleaseOf(v)) == Render(v)
  {
    hide SubHotfix, SubKind, IsRelease, Name, Letters, Render;
    RenderedText(v);
    SubstitutionIdle(Render(v));
    if IsHotfix(v) {
      hide ReleaseOf;
      HotfixSubstituted(v);
    } else if IsPrerelease(v) {
      hide Substituted, ReleaseOf;
      PrereleaseTexts(v);
      SubstitutedKind(v.base, v.pre.value.kind, ".", v.pre.value.number);
    }
  }

  lemma ReleaseFormText(v: Version)
    requires WellFormed(v)
    ensures ReleaseOf(v) != "" && IsDigit(ReleaseOf(v)[0]) && IsDigit(ReleaseOf(v)[|ReleaseOf(v)| - 1])
  {
    hide IsRelease;
    RenderedText(v);
    BaseText(v.base);
  }

  lemma NormalizeRewrites(s: string, v: Version)
    requires WellFormed(v) && Substituted(s) == Render(v)
    requires s != "" && IsDigit(s[0]) && IsDigit(s[|s| - 1])
    ensures Normalize(s) == Normalize("rust-v" + s) == Normalize("v" + s) == Some(Render(v))
  {
    hide IsRelease, Substituted, ParseVersion, Render;
    ParseInvertsRender(v);
    assert StripRight(StripLeft(s)) == s;
    assert ("rust-v" + s)[6..] == s && ("v" + s)[1..] == s;
  }

  /** A version that normalises keeps its normal form through normalisation, release form and tag. */
  lemma NormalFormSurvives(version: string)
    requires Normalize(version).Some?
    ensures Normalize(Normalize(version).value) == Normalize(version)
    ensures CodexReleaseVersion(version).Some? && CodexReleaseTag(version).Some?
    ensures Normalize(CodexReleaseVersion(version).value) == Normalize(version)
    ensures Normalize(CodexReleaseTag(version).value) == Normalize(version)
  {
    hide IsRelease, Substituted, ParseVersion, Render, ReleaseOf;
    var normalized := Normalize(version).value;
    ParsesExactlyTheGrammar(normalized);
    var v := ParseVersion(normalized).value;
    NormalFormsAreFixed(normalized);
    ReleaseSubstituted(v);
    ReleaseFormText(v);
    NormalizeRewrites(ReleaseOf(v), v);
  }

  /** Two versions share a release tag exactly when they are the same PEP 440 version. */
  lemma TagsAreInjective(a: string, b: string)
    requires Normalize(a).Some? && Normalize(b).Some?
    ensures CodexReleaseTag(a) == CodexReleaseTag(b) <==> Normalize(a) == Normalize(b)
  {
    hide Normalize, ParseVersion, ReleaseOf;
    NormalFormSurvives(a);
    NormalFormSurvives(b);
  }

  /** Whatever is written in the grammar is its own normal form. */
  lemma NormalFormsAreFixed(s: string)
    requires ParseVersion(s).Some?
    ensures Normalize(s) == Some(s)
  {
    hide IsRelease, Substituted, ParseVersion, Render;
    ParsesExactlyTheGrammar(s);
    var v := ParseVersion(s).value;
    RenderedText(v);
    SubstitutionIdle(s);
    NormalizeRewrites(s, v);
  }

  /** A runtime version always resolves, to itself and a tag that normalises back to it. */
  lemma RuntimeReleaseResolves(s: string)
    requires IsRuntimeVersion(s)
    ensures CodexReleaseTag(s).Some? && ResolvePythonRuntimeRelease(s) == Some((s, CodexReleaseTag(s).value))
    ensures Normalize(CodexReleaseTag(s).value) == Some(s)
  {
    hide Normalize, ParseVersion, CodexReleaseTag;
    NormalFormsAreFixed(s);
    NormalFormSurvives(s);
  }

  /** No two runtime versions resolve to one tag. */
  lemma RuntimeTagsAreDistinct(a: string, b: string)
    requires ResolvePythonRuntimeRelease(a).Some? && ResolvePythonRuntimeRelease(b).Some?
    ensures ResolvePythonRuntimeRelease(a).value.1 == ResolvePythonRuntimeRelease(b).value.1 ==> a == b
  {
    hide Normalize, IsRuntimeVersion, CodexReleaseTag;
    RuntimeReleaseResolves(a);
    RuntimeReleaseResolves(b);
  }
}
