/**
 The identifiers by which an allowlist names differences: when they tell the
 differences of a comparison apart.
 */
module DifferenceIds {
  import opened Options
  import opened SortedNames
  import opened FeatureManifest
  import opened ManifestViolations

  // ------------------------------------------------------------- identifiers

  predicate Colonless(s: string) {
    ':' !in s
  }

  /** Section names and frozen fields are fixed and hold no colon; the owners are platforms and integrations. */
  predicate Proper(b: Manifest, v: Violation) {
    match v
    case Gone(section, _) => Colonless(section) && section != "platform" && section != "integration-path"
    case GoneFrom(group, owner, _) =>
      || (group == "platform" && owner in b.platforms.paths)
      || (group == "integration-path" && owner in b.integrations)
    case FieldChanged(section, _, field) => section in FROZEN && Colonless(section) && Colonless(field)
    case ContentChanged(_) => true
    case CommandUnbound(_) => true
  }

  /** An identifier is a section or group without a colon, a colon and the rest. */
  function First(v: Violation): string {
    match v
    case Gone(section, _) => section
    case GoneFrom(group, _, _) => group
    case FieldChanged(section, _, _) => section
    case ContentChanged(_) => "migration"
    case CommandUnbound(_) => "integration"
  }

  function Rest(v: Violation): string {
    match v
    case Gone(_, name) => "missing:" + name
    case GoneFrom(_, owner, name) => owner + ":missing:" + name
    case FieldChanged(_, name, field) => "changed:" + name + ":" + field
    case ContentChanged(path) => "changed:" + path
    case CommandUnbound(name) => "unbound:" + name
  }

  lemma MissingId(section: string, name: string)
    ensures section + ":missing:" + name == section + ":" + ("missing:" + name)
  {
  }

  lemma OwnedId(group: string, owner: string, name: string)
    ensures group + ":" + owner + ":missing:" + name == group + ":" + (owner + ":missing:" + name)
  {
  }

  lemma ChangedId(section: string, name: string, field: string)
    ensures section + ":changed:" + name + ":" + field == section + ":" + ("changed:" + name + ":" + field)
  {
  }

  lemma MigrationId(path: string)
    ensures "migration:changed:" + path == "migration" + ":" + ("changed:" + path)
  {
  }

  lemma UnboundId(name: string)
    ensures "integration:unbound:" + name == "integration" + ":" + ("unbound:" + name)
  {
  }

  lemma IdIsJoin(b: Manifest, c: Manifest, v: Violation)
    ensures DifferenceFor(b, c, v).id == First(v) + ":" + Rest(v)
  {
    hide ValueOf, Section, CommandOf;
    match v
    case Gone(section, name) => MissingId(section, name);
    case GoneFrom(group, owner, name) => OwnedId(group, owner, name);
    case FieldChanged(section, name, field) => ChangedId(section, name, field);
    case ContentChanged(path) => MigrationId(path);
    case CommandUnbound(name) => UnboundId(name);
  }

  lemma NoEarlierColon(a: string, x: string)
    requires Colonless(a)
    ensures var s := a + ":" + x; s[|a|] == ':' && forall i :: 0 <= i < |a| ==> s[i] != ':'
  {
  }

  lemma FirstColon(a: string, x: string, b: string, y: string)
    requires Colonless(a) && Colonless(b) && a + ":" + x == b + ":" + y
    ensures a == b && x == y
  {
    var s, t := a + ":" + x, b + ":" + y;
    NoEarlierColon(a, x);
    NoEarlierColon(b, y);
    assert |a| == |b|;
    assert a == s[..|a|] && b == t[..|b|] && x == s[|a| + 1..] && y == t[|b| + 1..];
  }

  lemma NoLaterColon(x: string, a: string)
    requires Colonless(a)
    ensures var s := x + ":" + a; s[|x|] == ':' && forall i :: |x| < i < |s| ==> s[i] != ':'
  {
    var s := x + ":" + a;
    forall i | |x| < i < |s| ensures s[i] != ':' {
      assert s[i] == a[i - |x| - 1];
    }
  }

  lemma LastColon(x: string, a: string, y: string, b: string)
    requires Colonless(a) && Colonless(b) && x + ":" + a == y + ":" + b
    ensures a == b && x == y
  {
    var s, t := x + ":" + a, y + ":" + b;
    NoLaterColon(x, a);
    NoLaterColon(y, b);
    assert |x| == |y|;
    assert x == s[..|x|] && y == t[..|y|] && a == s[|x| + 1..] && b == t[|y| + 1..];
  }

  const MARK := ":missing:"

  /** No name, followed by the mark, begins another name followed by the mark. */
  predicate Unambiguous(names: set<string>) {
    forall p, q :: p in names && q in names && p != q ==> !(p + MARK <= q + MARK)
  }

  /** No platform and no integration of the manifest can be mistaken for another with a longer name. */
  predicate PlainNames(m: Manifest) {
    Unambiguous(m.platforms.paths.Keys) && Unambiguous(m.integrations.Keys)
  }

  lemma ShorterOwner(p: string, n: string, q: string, m: string)
    requires p + MARK + n == q + MARK + m && |p| <= |q|
    ensures p + MARK <= q + MARK
  {
    var s := p + MARK + n;
    assert p + MARK == s[..|p| + |MARK|] && q + MARK == s[..|q| + |MARK|];
  }

  lemma OwnersDecide(names: set<string>, p: string, n: string, q: string, m: string)
    requires Unambiguous(names) && p in names && q in names && p + MARK + n == q + MARK + m
    ensures p == q && n == m
  {
    if |p| <= |q| {
      ShorterOwner(p, n, q, m);
    } else {
      ShorterOwner(q, m, p, n);
    }
    assert p == q;
    assert n == (p + MARK + n)[|p| + |MARK|..] && m == (q + MARK + m)[|q| + |MARK|..];
  }

  lemma ChangedDecides(x: string, a: string, y: string, b: string)
    requires Colonless(a) && Colonless(b) && "changed:" + x + ":" + a == "changed:" + y + ":" + b
    ensures a == b && x == y
  {
    LastColon("changed:" + x, a, "changed:" + y, b);
    assert x == ("changed:" + x)[8..] && y == ("changed:" + y)[8..];
  }

  lemma TailDecides(prefix: string, x: string, y: string)
    requires prefix + x == prefix + y
    ensures x == y
  {
    assert x == (prefix + x)[|prefix|..] && y == (prefix + y)[|prefix|..];
  }

  lemma RestStarts(v: Violation)
    requires !v.GoneFrom?
    ensures Rest(v) != "" && Rest(v)[0] == if v.Gone? then 'm' else if v.CommandUnbound? then 'u' else 'c'
  {
  }

  lemma PartsDecide(b: Manifest, v: Violation, w: Violation)
    requires PlainNames(b) && Proper(b, v) && Proper(b, w) && First(v) == First(w) && Rest(v) == Rest(w)
    ensures v == w
  {
    hide Unambiguous;
    if v.GoneFrom? && w.GoneFrom? {
      OwnersDecide(if v.group == "platform" then b.platforms.paths.Keys else b.integrations.Keys,
                   v.owner, v.name, w.owner, w.name);
    } else if !v.GoneFrom? && !w.GoneFrom? {
      RestStarts(v);
      RestStarts(w);
      match v
      case Gone(_, name) => TailDecides("missing:", name, w.name);
      case FieldChanged(_, name, field) => ChangedDecides(name, field, w.name, w.field);
      case ContentChanged(path) => TailDecides("changed:", path, w.path);
      case CommandUnbound(name) => TailDecides("unbound:", name, w.name);
    }
  }

  predicate AllColonless(fields: seq<string>) {
    forall i :: 0 <= i < |fields| ==> Colonless(fields[i])
  }

  lemma FewColonless()
    ensures AllColonless(["crate"]) && AllColonless(["variant", "description", "hidden"])
  {
  }

  lemma SlashColonless()
    ensures AllColonless(["variant", "aliases", "description", "supports_inline_args", "available_during_task",
                          "available_in_side_conversation"])
  {
  }

  lemma ModelColonless()
    ensures AllColonless(["input_modalities", "context_window", "max_context_window", "default_reasoning_level",
                          "supported_reasoning_levels", "service_tiers", "available_in_plans", "visibility",
                          "supported_in_api"])
  {
  }

  lemma FieldsAreColonless(section: string)
    ensures AllColonless(Fields(section))
  {
    FewColonless();
    SlashColonless();
    ModelColonless();
    hide AllColonless;
  }

  lemma ViolatedIsProper(b: Manifest, c: Manifest, v: Violation)
    requires Violated(b, c, v)
    ensures Proper(b, v)
  {
    hide EntryGone, EntryChanged, Fields, Colonless;
    match v
    case Gone(section, _) => SectionIsColonless(b, c, v);
    case FieldChanged(section, _, field) =>
      SectionIsColonless(b, c, v);
      FieldsAreColonless(section);
    case _ =>
  }

  lemma SectionIsColonless(b: Manifest, c: Manifest, v: Violation)
    requires Violated(b, c, v) && (v.Gone? || v.FieldChanged?)
    ensures Colonless(v.section) && v.section != "platform" && v.section != "integration-path"
  {
    hide EntryGone, EntryChanged, Fields;
  }

  // ------------------------------------------------- names that tell apart

  /** An identifier belongs to one difference of the comparison only, when no owner can be mistaken for another. */
  lemma IdsAreDistinct(b: Manifest, c: Manifest, d: Difference, e: Difference)
    requires PlainNames(b) && Differences(b, c).Some?
    requires d in Differences(b, c).value && e in Differences(b, c).value && d.id == e.id
    ensures d == e
  {
    hide Differences, PlainNames, DifferenceFor, Violated, Proper;
    ReportIsExact(b, c, d);
    ReportIsExact(b, c, e);
    var v :| Reports(b, c, v, d);
    var w :| Reports(b, c, w, e);
    ViolatedIsProper(b, c, v);
    ViolatedIsProper(b, c, w);
    IdDecides(b, c, v, w);
  }

  lemma IdDecides(b: Manifest, c: Manifest, v: Violation, w: Violation)
    requires PlainNames(b) && Proper(b, v) && Proper(b, w)
    requires DifferenceFor(b, c, v).id == DifferenceFor(b, c, w).id
    ensures v == w
  {
    FirstIsColonless(b, v);
    FirstIsColonless(b, w);
    hide PlainNames, Proper, DifferenceFor, Rest, First, Colonless;
    IdIsJoin(b, c, v);
    IdIsJoin(b, c, w);
    FirstColon(First(v), Rest(v), First(w), Rest(w));
    PartsDecide(b, v, w);
  }

  lemma FirstIsColonless(b: Manifest, v: Violation)
    requires Proper(b, v)
    ensures Colonless(First(v))
  {
  }

  // ------------------------------------------------------ names that collide

  const NOTHING := Manifest([], [], [], [], [], [], [], Artifacts([], map[]), map[])

  type Paths = map<string, seq<string>>

  function Artifact(paths: Paths): Platforms {
    assert Elements(Sorted(paths.Keys)) == paths.Keys;
    Artifacts(Sorted(paths.Keys), paths)
  }

  /** A manifest with these artifacts for its platforms and these paths for its integrations. */
  function Owning(platforms: Paths, integrations: Paths): Manifest {
    NOTHING.(
    platforms := Artifact(platforms),
    integrations := map name | name in integrations :: Integration(Some(Command(["dispatch"])), integrations[name]))
  }

  function NoPaths(names: set<string>): Paths {
    map name | name in names :: []
  }

  /** One path for each of two names. */
  function TwoPaths(names: set<string>, p: string, n: string, q: string, m: string): Paths {
    map name | name in names :: if name == p then [n] else if name == q then [m] else []
  }

  lemma OwningIsCompared(platforms: Paths, integrations: Paths, platforms': Paths, integrations': Paths)
    ensures Differences(Owning(platforms, integrations), Owning(platforms', integrations')).Some?
  {
    hide Missing, Each, IntegrationsReport, Artifact;
  }

  lemma SharedId(b: Manifest, c: Manifest, group: string, p: string, n: string, q: string, m: string)
    requires p != q && p + MARK + n == q + MARK + m
    ensures var d, e := DifferenceFor(b, c, GoneFrom(group, p, n)), DifferenceFor(b, c, GoneFrom(group, q, m));
            d != e && d.id == e.id
  {
    assert group + ":" + p + MARK + n == group + ":" + (p + MARK + n);
    assert group + ":" + q + MARK + m == group + ":" + (q + MARK + m);
    assert (group + ":" + p)[|group| + 1..] == p && (group + ":" + q)[|group| + 1..] == q;
  }

  lemma BothReported(b: Manifest, c: Manifest, v: Violation, w: Violation)
    requires Differences(b, c).Some? && Violated(b, c, v) && Violated(b, c, w)
    requires DifferenceFor(b, c, v) != DifferenceFor(b, c, w) && DifferenceFor(b, c, v).id == DifferenceFor(b, c, w).id
    ensures !TellsApart(b, c)
  {
    hide Differences, Violated, DifferenceFor;
    var d, e := DifferenceFor(b, c, v), DifferenceFor(b, c, w);
    assert Reports(b, c, v, d) && Reports(b, c, w, e);
    ReportIsExact(b, c, d);
    ReportIsExact(b, c, e);
  }

  lemma CommonTail(p: string, q: string) returns (n: string)
    requires p + MARK <= q + MARK
    ensures p + MARK + n == q + MARK + "x"
  {
    n := (q + MARK + "x")[|p| + |MARK|..];
  }

  // ------------------------------------------------------------ main results

  ghost predicate HasOwners(m: Manifest, platforms: set<string>, integrations: set<string>) {
    m.platforms.paths.Keys == platforms && m.integrations.Keys == integrations
  }

  /** No two differences of a comparison share an identifier. */
  ghost predicate TellsApart(b: Manifest, c: Manifest) {
    var all := Differences(b, c);
    all.Some? ==> forall d, e :: d in all.value && e in all.value && d.id == e.id ==> d == e
  }

  lemma PlatformsCollide(platforms: set<string>, integrations: set<string>, p: string, q: string)
    returns (b: Manifest, c: Manifest)
    requires p in platforms && q in platforms && p != q && p + MARK <= q + MARK
    ensures HasOwners(b, platforms, integrations) && !TellsApart(b, c)
  {
    hide Differences, DifferenceFor;
    var n := CommonTail(p, q);
    var before := TwoPaths(platforms, p, n, q, "x");
    b, c := Owning(before, NoPaths(integrations)), Owning(NoPaths(platforms), NoPaths(integrations));
    OwningIsCompared(before, NoPaths(integrations), NoPaths(platforms), NoPaths(integrations));
    SharedId(b, c, "platform", p, n, q, "x");
    BothReported(b, c, GoneFrom("platform", p, n), GoneFrom("platform", q, "x"));
  }

  lemma IntegrationsCollide(platforms: set<string>, integrations: set<string>, p: string, q: string)
    returns (b: Manifest, c: Manifest)
    requires p in integrations && q in integrations && p != q && p + MARK <= q + MARK
    ensures HasOwners(b, platforms, integrations) && !TellsApart(b, c)
  {
    hide Differences, DifferenceFor;
    var n := CommonTail(p, q);
    var before := TwoPaths(integrations, p, n, q, "x");
    b, c := Owning(NoPaths(platforms), before), Owning(NoPaths(platforms), NoPaths(integrations));
    OwningIsCompared(NoPaths(platforms), before, NoPaths(platforms), NoPaths(integrations));
    SharedId(b, c, "integration-path", p, n, q, "x");
    BothReported(b, c, GoneFrom("integration-path", p, n), GoneFrom("integration-path", q, "x"));
  }

  /**
   Names of platforms and integrations are unambiguous exactly when identifiers tell the
   differences of every comparison apart whose baseline has those platforms and integrations.
   */
  lemma IdsAreDistinctExactly(platforms: set<string>, integrations: set<string>)
    ensures Unambiguous(platforms) && Unambiguous(integrations)
            <==> forall b, c :: HasOwners(b, platforms, integrations) ==> TellsApart(b, c)
  {
    hide Differences;
    if Unambiguous(platforms) && Unambiguous(integrations) {
      forall b, c | HasOwners(b, platforms, integrations) ensures TellsApart(b, c) {
        var all := Differences(b, c);
        forall d, e | all.Some? && d in all.value && e in all.value && d.id == e.id ensures d == e {
          IdsAreDistinct(b, c, d, e);
        }
      }
    } else if !Unambiguous(platforms) {
      var p, q :| p in platforms && q in platforms && p != q && p + MARK <= q + MARK;
      var b, c := PlatformsCollide(platforms, integrations, p, q);
    } else {
      var p, q :| p in integrations && q in integrations && p != q && p + MARK <= q + MARK;
      var b, c := IntegrationsCollide(platforms, integrations, p, q);
    }
  }
}
