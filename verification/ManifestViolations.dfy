/**
 What a comparison is about: the ways in which a candidate can fall short of
 a released manifest. A comparison reports exactly these, each in its own words.
 */
module ManifestViolations {
  import opened Options
  import opened SortedNames
  import opened FeatureManifest
  import opened ManifestCompatibility

  datatype Violation =
    | Gone(section: string, name: string)
    | GoneFrom(group: string, owner: string, name: string)  // an artifact of a platform, a path of an integration
    | FieldChanged(section: string, name: string, field: string)
    | ContentChanged(path: string)
    | CommandUnbound(name: string)

  // ------------------------------------------------------ when it is violated

  predicate EntryGone(before: seq<Entry>, after: seq<Entry>, key: string, name: string) {
    var b, c := Keyed(before, key), Keyed(after, key);
    b.Some? && c.Some? && name in b.value && name !in c.value
  }

  predicate EntryChanged(before: seq<Entry>, after: seq<Entry>, key: string, name: string, field: string) {
    var b, c := Keyed(before, key), Keyed(after, key);
    b.Some? && c.Some? && name in b.value && name in c.value && !FieldKept(b.value[name], c.value[name], field)
  }

  /** The sections whose entries have frozen fields. */
  const FROZEN := {"binary", "cli", "slash", "model"}

  /** The fields of a section that must not change. */
  function Fields(section: string): seq<string> {
    if section == "binary" then ["crate"]
    else if section == "cli" then ["variant", "description", "hidden"]
    else if section == "slash" then
      ["variant", "aliases", "description", "supports_inline_args", "available_during_task",
       "available_in_side_conversation"]
    else
      ["input_modalities", "context_window", "max_context_window", "default_reasoning_level",
       "supported_reasoning_levels", "service_tiers", "available_in_plans", "visibility", "supported_in_api"]
  }

  /** The entries of such a section, and the field that is their key. */
  function Section(m: Manifest, section: string): (seq<Entry>, string) {
    if section == "binary" then (m.binaries, "name")
    else if section == "cli" then (m.cliSubcommands, "command")
    else if section == "slash" then (m.slashCommands, "command")
    else (m.models, "slug")
  }

  predicate NameGone(b: Manifest, c: Manifest, section: string, name: string) {
    || (section in FROZEN && EntryGone(Section(b, section).0, Section(c, section).0, Section(b, section).1, name))
    || (section == "migration" && EntryGone(b.migrations, c.migrations, "path", name))
    || (section == "config" && name in b.propertyPaths && name !in c.propertyPaths)
    || (section == "app-server" && name in b.methods && name !in c.methods)
    || (section == "integration" && name in b.integrations && name !in c.integrations)
  }

  predicate ArtifactGone(b: Platforms, c: Platforms, platform: string, name: string) {
    && platform in b.paths && name in b.paths[platform]
    && !(platform in c.paths && name in c.paths[platform])
  }

  predicate PathGone(b: map<string, Integration>, c: map<string, Integration>, owner: string, name: string) {
    && owner in b && owner in c
    && name in b[owner].implementationPaths && name !in c[owner].implementationPaths
  }

  predicate Violated(b: Manifest, c: Manifest, v: Violation) {
    match v
    case Gone(section, name) => NameGone(b, c, section, name)
    case GoneFrom(group, owner, name) =>
      || (group == "platform" && ArtifactGone(b.platforms, c.platforms, owner, name))
      || (group == "integration-path" && PathGone(b.integrations, c.integrations, owner, name))
    case FieldChanged(section, name, field) =>
      && section in FROZEN && field in Fields(section)
      && EntryChanged(Section(b, section).0, Section(c, section).0, Section(b, section).1, name, field)
    case ContentChanged(path) => EntryChanged(b.migrations, c.migrations, "path", path, "sha256")
    case CommandUnbound(name) => name in b.integrations && name in c.integrations && !Dispatched(c.integrations[name])
  }

  // -------------------------------------------------------- how it is reported

  /** The value of a field of the entry with a name. */
  function ValueOf(entries: seq<Entry>, key: string, name: string, field: string): Value {
    var keyed := Keyed(entries, key);
    if keyed.Some? && name in keyed.value && field in keyed.value[name] then keyed.value[name][field] else Null
  }

  function CommandOf(all: map<string, Integration>, name: string): Option<Command> {
    if name in all then all[name].slashCommand else None
  }

  /** The difference that reports a violation. */
  function DifferenceFor(b: Manifest, c: Manifest, v: Violation): Difference {
    match v
    case Gone(section, name) =>
      Difference(section + ":missing:" + name, section, "released " + section + " entry is missing",
                 Name(name), Nothing)
    case GoneFrom(group, owner, name) =>
      Difference(group + ":" + owner + ":missing:" + name, group + ":" + owner,
                 "released " + group + ":" + owner + " entry is missing", Name(name), Nothing)
    case FieldChanged(section, name, field) =>
      Difference(section + ":changed:" + name + ":" + field, section, "released " + section + " field changed",
                 Field(ValueOf(Section(b, section).0, Section(b, section).1, name, field)),
                 Field(ValueOf(Section(c, section).0, Section(c, section).1, name, field)))
    case ContentChanged(path) =>
      Difference("migration:changed:" + path, "migration", "released migration content changed",
                 Field(ValueOf(b.migrations, "path", path, "sha256")),
                 Field(ValueOf(c.migrations, "path", path, "sha256")))
    case CommandUnbound(name) =>
      Difference("integration:unbound:" + name, "integration",
                 "protected integration has no slash-command dispatch binding",
                 Binding(CommandOf(b.integrations, name)), Binding(CommandOf(c.integrations, name)))
  }

  predicate Reports(b: Manifest, c: Manifest, v: Violation, d: Difference) {
    Violated(b, c, v) && d == DifferenceFor(b, c, v)
  }

  // --------------------------------------------------------- section by section

  lemma OwnedMissing(group: string, owner: string, name: string)
    ensures MissingOf(group + ":" + owner, name)
            == Difference(group + ":" + owner + ":missing:" + name, group + ":" + owner,
                          "released " + group + ":" + owner + " entry is missing", Name(name), Nothing)
  {
    assert "released " + (group + ":" + owner) + " entry is missing"
        == "released " + group + ":" + owner + " entry is missing";
  }

  lemma MissingName(b: Manifest, c: Manifest, section: string, name: string)
    ensures DifferenceFor(b, c, Gone(section, name)) == MissingOf(section, name)
  {
  }

  lemma ChangedField(b: Manifest, c: Manifest, section: string, name: string, field: string)
    requires section in FROZEN
    requires EntryChanged(Section(b, section).0, Section(c, section).0, Section(b, section).1, name, field)
    ensures var before, after := Keyed(Section(b, section).0, Section(b, section).1).value[name],
                                 Keyed(Section(c, section).0, Section(c, section).1).value[name];
            DifferenceFor(b, c, FieldChanged(section, name, field)) == ChangedOf(section, name, before, after, field)
  {
    hide Keyed, FieldKept;
  }

  /** A section of names reports exactly the names that are gone. */
  lemma NamesReported(b: Manifest, c: Manifest, section: string, before: set<string>, after: set<string>, d: Difference)
    requires forall name :: NameGone(b, c, section, name) <==> name in before && name !in after
    ensures d in Missing(section, before, after) <==> exists name :: Reports(b, c, Gone(section, name), d)
  {
    hide Missing, NameGone, DifferenceFor, MissingOf;
    MissingReports(section, before, after, d);
    forall name ensures Reports(b, c, Gone(section, name), d) <==> IsLoss(section, before, after, name, d) {
      MissingName(b, c, section, name);
    }
  }

  /** The difference reports an entry that is gone from a section, or a field of it that changed. */
  ghost predicate InSection(b: Manifest, c: Manifest, section: string, d: Difference) {
    || (exists name :: Reports(b, c, Gone(section, name), d))
    || exists name, field :: Reports(b, c, FieldChanged(section, name, field), d)
  }

  /** A section of keyed entries reports exactly the entries that are gone and the frozen fields that changed. */
  lemma EntriesReported(b: Manifest, c: Manifest, section: string, d: Difference)
    requires section in FROZEN
    requires KeyedReport(section, Section(b, section).0, Section(c, section).0, Section(b, section).1,
                         Fields(section)).Some?
    ensures d in KeyedReport(section, Section(b, section).0, Section(c, section).0, Section(b, section).1,
                             Fields(section)).value
            <==> InSection(b, c, section, d)
  {
    hide Keyed, Missing, Each, EntryReporter, DifferenceFor, Fields, MissingOf, ChangedOf, FieldKept;
    var key := Section(b, section).1;
    var before, after := Keyed(Section(b, section).0, key).value, Keyed(Section(c, section).0, key).value;
    KeyedReportIsExact(section, Section(b, section).0, Section(c, section).0, key, Fields(section), d);
    forall name ensures Reports(b, c, Gone(section, name), d) <==> IsLoss(section, before.Keys, after.Keys, name, d) {
      MissingName(b, c, section, name);
    }
    ChangesAreViolations(b, c, section, before, after, d);
  }

  lemma ChangesAreViolations(
    b: Manifest, c: Manifest, section: string, before: map<string, Entry>, after: map<string, Entry>, d: Difference)
    requires section in FROZEN
    requires Keyed(Section(b, section).0, Section(b, section).1) == Some(before)
    requires Keyed(Section(c, section).0, Section(b, section).1) == Some(after)
    ensures IsAChange(section, before, after, Fields(section), d)
            <==> exists name, field :: Reports(b, c, FieldChanged(section, name, field), d)
  {
    hide Keyed, DifferenceFor, Fields, ChangedOf, FieldKept;
    forall name, field
      ensures Reports(b, c, FieldChanged(section, name, field), d)
              <==> && name in before && name in after && field in Fields(section)
                   && !FieldKept(before[name], after[name], field)
                   && d == ChangedOf(section, name, before[name], after[name], field)
    {
      if EntryChanged(Section(b, section).0, Section(c, section).0, Section(b, section).1, name, field) {
        ChangedField(b, c, section, name, field);
      }
    }
    hide Reports;
    if IsAChange(section, before, after, Fields(section), d) {
      var name :| IsChange(section, before, after, Fields(section), name, d);
      var field :| && field in Fields(section) && !FieldKept(before[name], after[name], field)
                   && d == ChangedOf(section, name, before[name], after[name], field);
      assert Reports(b, c, FieldChanged(section, name, field), d);
    }
    if name, field :| Reports(b, c, FieldChanged(section, name, field), d) {
      assert IsChange(section, before, after, Fields(section), name, d);
    }
  }

  lemma ContentIsViolation(b: Manifest, c: Manifest, path: string, d: Difference)
    requires MigrationsReport(b.migrations, c.migrations).Some?
    ensures var before, after := Keyed(b.migrations, "path").value, Keyed(c.migrations, "path").value;
            path in before && path in after && d in MigrationReport(before, after, path)
            <==> Reports(b, c, ContentChanged(path), d)
  {
    hide Keyed, Missing, Each, Same, FieldKept;
    var before, after := Keyed(b.migrations, "path").value, Keyed(c.migrations, "path").value;
    if path in before && path in after {
      assert path in before.Keys * after.Keys;
      assert "sha256" in At(before, path) && "sha256" in At(after, path);
      SameMeansKept(before[path], after[path], "sha256");
    }
  }

  /** The migrations report exactly those that are gone and those whose content changed. */
  lemma MigrationsReported(b: Manifest, c: Manifest, d: Difference)
    requires MigrationsReport(b.migrations, c.migrations).Some?
    ensures d in MigrationsReport(b.migrations, c.migrations).value
            <==> || (exists path :: Reports(b, c, Gone("migration", path), d))
                 || exists path :: Reports(b, c, ContentChanged(path), d)
  {
    hide Keyed, Missing, Each, Hashed, MigrationReport, Reports;
    var before, after := Keyed(b.migrations, "path").value, Keyed(c.migrations, "path").value;
    var names := Sorted(before.Keys * after.Keys);
    var missing := Missing("migration", before.Keys, after.Keys);
    var changed := Each(MigrationReporter(before, after), names);
    assert d in missing + changed <==> d in missing || d in changed;
    NamesReported(b, c, "migration", before.Keys, after.Keys, d);
    EachReports(MigrationReporter(before, after), names, d);
    forall path
      ensures path in names && d in MigrationReporter(before, after)(path) <==> Reports(b, c, ContentChanged(path), d)
    {
      ContentIsViolation(b, c, path, d);
    }
  }

  /** The difference reports something that a platform or an integration lost. */
  ghost predicate Takes(b: Manifest, c: Manifest, group: string, owner: string, d: Difference) {
    exists name :: Reports(b, c, GoneFrom(group, owner, name), d)
  }

  lemma OwnedReported(
    b: Manifest, c: Manifest, group: string, owner: string, before: set<string>, after: set<string>, d: Difference)
    requires forall name :: Violated(b, c, GoneFrom(group, owner, name)) <==> name in before && name !in after
    ensures d in Missing(group + ":" + owner, before, after)
            <==> Takes(b, c, group, owner, d)
  {
    hide Missing, MissingOf, Violated;
    var category := group + ":" + owner;
    MissingReports(category, before, after, d);
    forall name ensures Reports(b, c, GoneFrom(group, owner, name), d) <==> IsLoss(category, before, after, name, d) {
      OwnedMissing(group, owner, name);
    }
    hide Reports, IsLoss;
  }

  lemma PlatformReported(b: Manifest, c: Manifest, platform: string, d: Difference)
    ensures platform in b.platforms.order && d in PlatformReport(b.platforms, c.platforms, platform)
            <==> Takes(b, c, "platform", platform, d)
  {
    hide Missing;
    assert platform in b.platforms.order <==> platform in b.platforms.paths;
    if platform in b.platforms.paths {
      assert "platform:" + platform == "platform" + ":" + platform;
      OwnedReported(b, c, "platform", platform,
                    Elements(b.platforms.Of(platform)), Elements(c.platforms.Of(platform)), d);
    }
  }

  /** The platforms report exactly the artifacts that are gone. */
  lemma PlatformsReported(b: Manifest, c: Manifest, d: Difference)
    ensures d in Each(PlatformReporter(b.platforms, c.platforms), b.platforms.order)
            <==> exists platform :: Takes(b, c, "platform", platform, d)
  {
    hide PlatformReport, Takes, Each;
    EachReports(PlatformReporter(b.platforms, c.platforms), b.platforms.order, d);
    forall platform
      ensures platform in b.platforms.order && d in PlatformReporter(b.platforms, c.platforms)(platform)
              <==> Takes(b, c, "platform", platform, d)
    {
      PlatformReported(b, c, platform, d);
    }
  }

  lemma PathsReported(b: Manifest, c: Manifest, owner: string, d: Difference)
    requires owner in b.integrations && owner in c.integrations
    ensures var before, after := b.integrations[owner].implementationPaths, c.integrations[owner].implementationPaths;
            d in Missing("integration-path:" + owner, Elements(before), Elements(after))
            <==> Takes(b, c, "integration-path", owner, d)
  {
    hide Missing;
    var before, after := b.integrations[owner].implementationPaths, c.integrations[owner].implementationPaths;
    assert "integration-path:" + owner == "integration-path" + ":" + owner;
    OwnedReported(b, c, "integration-path", owner, Elements(before), Elements(after), d);
  }

  lemma OneIntegrationReported(b: Manifest, c: Manifest, name: string, d: Difference)
    ensures name in b.integrations && name in c.integrations
            && d in IntegrationReport(name, Member(b.integrations, name), Member(c.integrations, name))
            <==> || Reports(b, c, CommandUnbound(name), d)
                 || Takes(b, c, "integration-path", name, d)
  {
    hide Missing;
    if name in b.integrations && name in c.integrations {
      PathsReported(b, c, name, d);
    }
  }

  /** The integrations report exactly those that are gone or unbound, and the paths that are gone. */
  lemma IntegrationsReported(b: Manifest, c: Manifest, d: Difference)
    ensures d in IntegrationsReport(b.integrations, c.integrations)
            <==> || (exists name :: Reports(b, c, Gone("integration", name), d))
                 || (exists name :: Reports(b, c, CommandUnbound(name), d))
                 || exists name :: Takes(b, c, "integration-path", name, d)
  {
    hide Missing, Each, IntegrationReport, Reports, Takes;
    var before, after := b.integrations, c.integrations;
    NamesReported(b, c, "integration", before.Keys, after.Keys, d);
    EachReports(IntegrationReporter(before, after), Sorted(before.Keys * after.Keys), d);
    forall name
      ensures name in Sorted(before.Keys * after.Keys) && d in IntegrationReporter(before, after)(name)
              <==> || Reports(b, c, CommandUnbound(name), d)
                   || Takes(b, c, "integration-path", name, d)
    {
      OneIntegrationReported(b, c, name, d);
    }
  }

  // -------------------------------------------------------------- main result

  lemma EntryPointsReported(b: Manifest, c: Manifest, d: Difference)
    requires EntryPointsReport(b, c).Some?
    ensures d in EntryPointsReport(b, c).value
            <==> InSection(b, c, "binary", d) || InSection(b, c, "cli", d) || InSection(b, c, "slash", d)
  {
    hide KeyedReport, InSection;
    var binary := KeyedReport("binary", b.binaries, c.binaries, "name", ["crate"]);
    var cli := KeyedReport("cli", b.cliSubcommands, c.cliSubcommands, "command", CLI_FIELDS);
    var slash := KeyedReport("slash", b.slashCommands, c.slashCommands, "command", SLASH_FIELDS);
    assert EntryPointsReport(b, c).value == binary.value + cli.value + slash.value;
    EntriesReported(b, c, "binary", d);
    EntriesReported(b, c, "cli", d);
    EntriesReported(b, c, "slash", d);
  }

  /** Every part of the report, in one list. */
  lemma PartsReported(b: Manifest, c: Manifest, d: Difference)
    requires Differences(b, c).Some?
    ensures EntryPointsReport(b, c).Some? && MigrationsReport(b.migrations, c.migrations).Some?
    ensures KeyedReport("model", b.models, c.models, "slug", MODEL_FIELDS).Some?
    ensures d in Differences(b, c).value
            <==> || d in EntryPointsReport(b, c).value
                 || d in Missing("config", Elements(b.propertyPaths), Elements(c.propertyPaths))
                 || d in MigrationsReport(b.migrations, c.migrations).value
                 || d in KeyedReport("model", b.models, c.models, "slug", MODEL_FIELDS).value
                 || d in Missing("app-server", Elements(b.methods), Elements(c.methods))
                 || d in Each(PlatformReporter(b.platforms, c.platforms), b.platforms.order)
                 || d in IntegrationsReport(b.integrations, c.integrations)
  {
    hide EntryPointsReport, KeyedReport, MigrationsReport, Missing, Each, IntegrationsReport;
  }

  lemma ListsReported(b: Manifest, c: Manifest, d: Difference)
    ensures d in Missing("config", Elements(b.propertyPaths), Elements(c.propertyPaths))
            <==> exists name :: Reports(b, c, Gone("config", name), d)
    ensures d in Missing("app-server", Elements(b.methods), Elements(c.methods))
            <==> exists name :: Reports(b, c, Gone("app-server", name), d)
  {
    hide Missing, Reports;
    NamesReported(b, c, "config", Elements(b.propertyPaths), Elements(c.propertyPaths), d);
    NamesReported(b, c, "app-server", Elements(b.methods), Elements(c.methods), d);
  }

  /** The difference reports a violation in one of the parts of a manifest. */
  ghost predicate InSomePart(b: Manifest, c: Manifest, d: Difference) {
    || InSection(b, c, "binary", d) || InSection(b, c, "cli", d) || InSection(b, c, "slash", d)
    || InSection(b, c, "model", d)
    || (exists name :: Reports(b, c, Gone("config", name), d))
    || (exists name :: Reports(b, c, Gone("app-server", name), d))
    || (exists path :: Reports(b, c, Gone("migration", path), d))
    || (exists path :: Reports(b, c, ContentChanged(path), d))
    || (exists platform :: Takes(b, c, "platform", platform, d))
    || (exists name :: Reports(b, c, Gone("integration", name), d))
    || (exists name :: Reports(b, c, CommandUnbound(name), d))
    || exists name :: Takes(b, c, "integration-path", name, d)
  }

  lemma EveryPartReported(b: Manifest, c: Manifest, d: Difference)
    requires Differences(b, c).Some?
    ensures d in Differences(b, c).value <==> InSomePart(b, c, d)
  {
    hide Differences, EntryPointsReport, KeyedReport, MigrationsReport, Missing, Each, IntegrationsReport;
    hide InSection, Takes, Reports;
    PartsReported(b, c, d);
    EntryPointsReported(b, c, d);
    EntriesReported(b, c, "model", d);
    ListsReported(b, c, d);
    MigrationsReported(b, c, d);
    PlatformsReported(b, c, d);
    IntegrationsReported(b, c, d);
  }

  lemma ViolationHasPart(b: Manifest, c: Manifest, v: Violation, d: Difference)
    requires Reports(b, c, v, d)
    ensures InSomePart(b, c, d)
  {
    hide DifferenceFor, EntryGone, EntryChanged, ArtifactGone, PathGone;
    match v
    case Gone(section, _) => assert section in FROZEN ==> InSection(b, c, section, d);
    case GoneFrom(group, owner, _) => assert Takes(b, c, group, owner, d);
    case FieldChanged(section, _, _) => assert InSection(b, c, section, d);
    case ContentChanged(_) =>
    case CommandUnbound(_) =>
  }

  /** A comparison reports exactly the violations, each in its own words. */
  lemma ReportIsExact(b: Manifest, c: Manifest, d: Difference)
    requires Differences(b, c).Some?
    ensures d in Differences(b, c).value <==> exists v :: Reports(b, c, v, d)
  {
    hide Differences, Reports;
    EveryPartReported(b, c, d);
    if v :| Reports(b, c, v, d) {
      ViolationHasPart(b, c, v, d);
    }
  }

  // ------------------------------------------------------------------ failure

  predicate AllKeyed(m: Manifest) {
    && (forall i :: 0 <= i < |m.binaries| ==> HasKey(m.binaries[i], "name"))
    && (forall i :: 0 <= i < |m.cliSubcommands| ==> HasKey(m.cliSubcommands[i], "command"))
    && (forall i :: 0 <= i < |m.slashCommands| ==> HasKey(m.slashCommands[i], "command"))
    && (forall i :: 0 <= i < |m.models| ==> HasKey(m.models[i], "slug"))
    && (forall i :: 0 <= i < |m.migrations| ==> HasKey(m.migrations[i], "path"))
  }

  predicate CommonHashed(b: Manifest, c: Manifest) {
    var before, after := Keyed(b.migrations, "path"), Keyed(c.migrations, "path");
    before.Some? && after.Some? ==>
      forall path :: path in before.value && path in after.value ==>
        "sha256" in before.value[path] && "sha256" in after.value[path]
  }

  lemma SectionsAreKeyed(m: Manifest)
    ensures AllKeyed(m)
            <==> && Keyed(m.binaries, "name").Some? && Keyed(m.cliSubcommands, "command").Some?
                 && Keyed(m.slashCommands, "command").Some? && Keyed(m.models, "slug").Some?
                 && Keyed(m.migrations, "path").Some?
  {
    hide Keyed;
    KeyedNeedsKeys(m.binaries, "name");
    KeyedNeedsKeys(m.cliSubcommands, "command");
    KeyedNeedsKeys(m.slashCommands, "command");
    KeyedNeedsKeys(m.models, "slug");
    KeyedNeedsKeys(m.migrations, "path");
  }

  /** A comparison goes through exactly when every entry has its key and every migration in both has its hash. */
  lemma ComparisonSucceeds(b: Manifest, c: Manifest)
    ensures Differences(b, c).Some? <==> AllKeyed(b) && AllKeyed(c) && CommonHashed(b, c)
  {
    SectionsAreKeyed(b);
    SectionsAreKeyed(c);
    hide Keyed, AllKeyed, Missing, Each, IntegrationsReport;
    if Keyed(b.migrations, "path").Some? && Keyed(c.migrations, "path").Some? {
      CommonAreHashed(b, c);
    }
    hide CommonHashed, Hashed;
  }

  lemma CommonAreHashed(b: Manifest, c: Manifest)
    requires Keyed(b.migrations, "path").Some? && Keyed(c.migrations, "path").Some?
    ensures var before, after := Keyed(b.migrations, "path").value, Keyed(c.migrations, "path").value;
            CommonHashed(b, c)
            <==> Hashed(before, before.Keys * after.Keys) && Hashed(after, before.Keys * after.Keys)
  {
    hide Keyed;
    var before, after := Keyed(b.migrations, "path").value, Keyed(c.migrations, "path").value;
    forall path | path in before && path in after ensures path in before.Keys * after.Keys {
    }
  }
}
