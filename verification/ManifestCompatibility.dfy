/** What a comparison without differences means, and why it carries over a chain of releases. */
module ManifestCompatibility {
  import opened Options
  import opened SortedNames
  import opened FeatureManifest

  // ------------------------------------------------------------ the relation

  /** Two values of one sort that hold the same; a truth value is of the sort of the numbers one and zero. */
  predicate Agrees(a: Value, b: Value) {
    match a
    case Null => b.Null?
    case Text(text) => b.Text? && b.text == text
    case Flag(flag) => if b.Flag? then b.flag == flag else b.Number? && b.number == if flag then 1.0 else 0.0
    case Number(number) => if b.Flag? then number == (if b.flag then 1.0 else 0.0) else b.Number? && b.number == number
    case Items(items) =>
      && b.Items? && |items| == |b.items|
      && forall i :: 0 <= i < |items| ==> Agrees(items[i], b.items[i])
    case Record(fields) =>
      && b.Record? && fields.Keys == b.fields.Keys
      && forall name :: name in fields ==> Agrees(fields[name], b.fields[name])
  }

  /** A field keeps its value; a field that is not there reads as null. */
  predicate FieldKept(before: Entry, after: Entry, field: string) {
    Agrees(if field in before then before[field] else Null, if field in after then after[field] else Null)
  }

  /** Every released entry is still there and agrees on the fields that must not change. */
  predicate EntriesKept(baseline: seq<Entry>, candidate: seq<Entry>, key: string, fields: seq<string>) {
    var b, c := Keyed(baseline, key), Keyed(candidate, key);
    && b.Some? && c.Some?
    && forall name :: name in b.value ==> name in c.value && FieldsKept(b.value[name], c.value[name], fields)
  }

  predicate FieldsKept(before: Entry, after: Entry, fields: seq<string>) {
    forall field :: field in fields ==> FieldKept(before, after, field)
  }

  /** Every released migration is still there, with the same content. */
  predicate MigrationsKept(baseline: seq<Entry>, candidate: seq<Entry>) {
    var b, c := Keyed(baseline, "path"), Keyed(candidate, "path");
    && b.Some? && c.Some?
    && forall path :: path in b.value ==> path in c.value && ContentKept(b.value[path], c.value[path])
  }

  predicate ContentKept(before: Entry, after: Entry) {
    "sha256" in before && "sha256" in after && Agrees(before["sha256"], after["sha256"])
  }

  predicate PathsKept(baseline: seq<string>, candidate: seq<string>) {
    forall path :: path in baseline ==> path in candidate
  }

  predicate PlatformsKept(b: Platforms, c: Platforms) {
    forall platform :: platform in b.paths ==>
      PathsKept(b.paths[platform], if platform in c.paths then c.paths[platform] else [])
  }

  /** Some command of the integration dispatches to it. */
  predicate Dispatched(i: Integration) {
    i.slashCommand.Some? && |i.slashCommand.value.dispatchBindings| > 0
  }

  /** Every released integration is still there, bound to a command, with its implementation. */
  predicate IntegrationsKept(b: map<string, Integration>, c: map<string, Integration>) {
    forall name :: name in b ==>
      && name in c && Dispatched(c[name])
      && PathsKept(b[name].implementationPaths, c[name].implementationPaths)
  }

  predicate EntryPointsKept(b: Manifest, c: Manifest) {
    && EntriesKept(b.binaries, c.binaries, "name", ["crate"])
    && EntriesKept(b.cliSubcommands, c.cliSubcommands, "command", ["variant", "description", "hidden"])
    && EntriesKept(b.slashCommands, c.slashCommands, "command",
                   ["variant", "aliases", "description", "supports_inline_args", "available_during_task",
                    "available_in_side_conversation"])
  }

  predicate ModelsKept(b: Manifest, c: Manifest) {
    EntriesKept(b.models, c.models, "slug",
                ["input_modalities", "context_window", "max_context_window", "default_reasoning_level",
                 "supported_reasoning_levels", "service_tiers", "available_in_plans", "visibility",
                 "supported_in_api"])
  }

  predicate Compatible(b: Manifest, c: Manifest) {
    && EntryPointsKept(b, c)
    && PathsKept(b.propertyPaths, c.propertyPaths)
    && MigrationsKept(b.migrations, c.migrations)
    && ModelsKept(b, c)
    && PathsKept(b.methods, c.methods)
    && PlatformsKept(b.platforms, c.platforms)
    && IntegrationsKept(b.integrations, c.integrations)
  }

  // --------------------------------------------------------------- equality

  /** Python's equality, sort by sort. */
  lemma {:induction false} SameMeansAgrees(a: Value, b: Value)
    ensures Same(a, b) <==> Agrees(a, b)
    decreases a, 1
  {
    if a.Items? && b.Items? {
      ListsAgree(a, b);
    } else if a.Record? && b.Record? {
      RecordsAgree(a, b);
    }
  }

  lemma {:induction false} ListsAgree(a: Value, b: Value)
    requires a.Items? && b.Items?
    ensures Same(a, b) <==> Agrees(a, b)
    decreases a, 0
  {
    var x, y := Canonical(a).items, Canonical(b).items;
    assert |x| == |a.items| && |y| == |b.items|;
    if |x| == |y| {
      forall i | 0 <= i < |x| ensures x[i] == y[i] <==> Agrees(a.items[i], b.items[i]) {
        SameMeansAgrees(a.items[i], b.items[i]);
      }
      assert x == y <==> forall i :: 0 <= i < |x| ==> x[i] == y[i];
    }
  }

  lemma {:induction false} RecordsAgree(a: Value, b: Value)
    requires a.Record? && b.Record?
    ensures Same(a, b) <==> Agrees(a, b)
    decreases a, 0
  {
    var x, y := Canonical(a).fields, Canonical(b).fields;
    assert x.Keys == a.fields.Keys && y.Keys == b.fields.Keys;
    if a.fields.Keys == b.fields.Keys {
      forall name | name in a.fields ensures x[name] == y[name] <==> Agrees(a.fields[name], b.fields[name]) {
        SameMeansAgrees(a.fields[name], b.fields[name]);
      }
      assert x == y <==> forall name :: name in x ==> x[name] == y[name];
    }
  }

  lemma SameMeansKept(before: Entry, after: Entry, field: string)
    ensures Same(Get(before, field), Get(after, field)) <==> FieldKept(before, after, field)
  {
    SameMeansAgrees(Get(before, field), Get(after, field));
  }

  // -------------------------------------------------------- no differences

  lemma {:induction false} EachIsEmpty(report: string -> seq<Difference>, names: seq<string>)
    ensures Each(report, names) == [] <==> forall name :: name in names ==> report(name) == []
  {
    if names != [] {
      var front, last := names[..|names| - 1], names[|names| - 1];
      assert names == front + [last];
      EachIsEmpty(report, front);
    }
  }

  lemma NoneMissing(category: string, b: set<string>, c: set<string>)
    ensures Missing(category, b, c) == [] <==> b <= c
  {
    EachIsEmpty(MissingReporter(category), Sorted(b - c));
    if Missing(category, b, c) == [] {
      forall name | name in b ensures name in c {
        assert name in b - c ==> name in Sorted(b - c);
      }
    }
  }

  lemma NoFieldReports(category: string, name: string, before: Entry, after: Entry, fields: seq<string>)
    ensures FieldReports(category, name, before, after, fields) == [] <==> FieldsKept(before, after, fields)
  {
    hide Same, FieldKept;
    EachIsEmpty(FieldReporter(category, name, before, after), fields);
    forall field
      ensures FieldReport(category, name, before, after, field) == [] <==> FieldKept(before, after, field)
    {
      SameMeansKept(before, after, field);
    }
  }

  lemma NoEntryReports(
    category: string, b: map<string, Entry>, c: map<string, Entry>, fields: seq<string>, names: seq<string>)
    ensures Each(EntryReporter(category, b, c, fields), names) == []
            <==> forall name :: name in names ==> FieldsKept(At(b, name), At(c, name), fields)
  {
    hide FieldsKept, FieldReports;
    EachIsEmpty(EntryReporter(category, b, c, fields), names);
    forall name
      ensures FieldReports(category, name, At(b, name), At(c, name), fields) == []
              <==> FieldsKept(At(b, name), At(c, name), fields)
    {
      NoFieldReports(category, name, At(b, name), At(c, name), fields);
    }
  }

  lemma CommonNames(b: set<string>, c: set<string>)
    requires b <= c
    ensures b * c == b && forall name :: name in Sorted(b * c) <==> name in b
  {
    assert b * c == b;
  }

  lemma NoCommonReports(category: string, b: map<string, Entry>, c: map<string, Entry>, fields: seq<string>)
    requires b.Keys <= c.Keys
    ensures Each(EntryReporter(category, b, c, fields), Sorted(b.Keys * c.Keys)) == []
            <==> forall name :: name in b ==> FieldsKept(b[name], c[name], fields)
  {
    hide FieldsKept, EntryReporter, Each;
    var names := Sorted(b.Keys * c.Keys);
    CommonNames(b.Keys, c.Keys);
    NoEntryReports(category, b, c, fields, names);
    forall name | name in b ensures name in names && At(b, name) == b[name] && At(c, name) == c[name] {
    }
  }

  lemma NoKeyedReport(category: string, baseline: seq<Entry>, candidate: seq<Entry>, key: string, fields: seq<string>)
    ensures KeyedReport(category, baseline, candidate, key, fields) == Some([])
            <==> EntriesKept(baseline, candidate, key, fields)
  {
    hide FieldsKept, Keyed, EntryReporter, Missing, Each;
    if Keyed(baseline, key).Some? && Keyed(candidate, key).Some? {
      var b, c := Keyed(baseline, key).value, Keyed(candidate, key).value;
      NoneMissing(category, b.Keys, c.Keys);
      var missing, rest := Missing(category, b.Keys, c.Keys),
        Each(EntryReporter(category, b, c, fields), Sorted(b.Keys * c.Keys));
      assert KeyedReport(category, baseline, candidate, key, fields) == Some(missing + rest);
      assert |missing + rest| == |missing| + |rest|;
      if b.Keys <= c.Keys {
        NoCommonReports(category, b, c, fields);
        assert forall name :: name in b ==> name in c;
      } else {
        var name :| name in b.Keys && name !in c.Keys;
        assert name in b && name !in c;
      }
    }
  }

  lemma NoMigrationReports(b: map<string, Entry>, c: map<string, Entry>)
    requires b.Keys <= c.Keys
    ensures Hashed(b, b.Keys * c.Keys) && Hashed(c, b.Keys * c.Keys)
            && Each(MigrationReporter(b, c), Sorted(b.Keys * c.Keys)) == []
            <==> forall path :: path in b ==> ContentKept(b[path], c[path])
  {
    hide Same, Agrees;
    var names := Sorted(b.Keys * c.Keys);
    CommonNames(b.Keys, c.Keys);
    EachIsEmpty(MigrationReporter(b, c), names);
    hide Each;
    forall path | path in b
      ensures && path in names && At(b, path) == b[path] && At(c, path) == c[path]
              && (ContentKept(b[path], c[path])
                  <==> "sha256" in b[path] && "sha256" in c[path] && MigrationReporter(b, c)(path) == [])
    {
      SameMeansAgrees(Get(b[path], "sha256"), Get(c[path], "sha256"));
    }
  }

  lemma NoMigrationsReport(baseline: seq<Entry>, candidate: seq<Entry>)
    ensures MigrationsReport(baseline, candidate) == Some([]) <==> MigrationsKept(baseline, candidate)
  {
    hide ContentKept, Keyed, MigrationReporter, Missing, Each, Hashed;
    if Keyed(baseline, "path").Some? && Keyed(candidate, "path").Some? {
      var b, c := Keyed(baseline, "path").value, Keyed(candidate, "path").value;
      NoneMissing("migration", b.Keys, c.Keys);
      var missing, rest := Missing("migration", b.Keys, c.Keys), Each(MigrationReporter(b, c), Sorted(b.Keys * c.Keys));
      assert |missing + rest| == |missing| + |rest|;
      if b.Keys <= c.Keys {
        NoMigrationReports(b, c);
        assert forall path :: path in b ==> path in c;
      } else {
        var path :| path in b.Keys && path !in c.Keys;
        assert path in b && path !in c;
      }
    }
  }

  lemma NonePathsMissing(category: string, b: seq<string>, c: seq<string>)
    ensures Missing(category, Elements(b), Elements(c)) == [] <==> PathsKept(b, c)
  {
    NoneMissing(category, Elements(b), Elements(c));
  }

  lemma NoIntegrationReport(name: string, before: Integration, after: Integration)
    ensures IntegrationReport(name, before, after) == []
            <==> Dispatched(after) && PathsKept(before.implementationPaths, after.implementationPaths)
  {
    hide Missing, PathsKept;
    NonePathsMissing("integration-path:" + name, before.implementationPaths, after.implementationPaths);
  }

  lemma NoIntegrationsReport(b: map<string, Integration>, c: map<string, Integration>)
    ensures IntegrationsReport(b, c) == [] <==> IntegrationsKept(b, c)
  {
    hide Missing, Each, IntegrationReport, PathsKept, Dispatched;
    NoneMissing("integration", b.Keys, c.Keys);
    EachIsEmpty(IntegrationReporter(b, c), Sorted(b.Keys * c.Keys));
    forall name | name in b && name in c
      ensures IntegrationReport(name, b[name], c[name]) == []
              <==> Dispatched(c[name]) && PathsKept(b[name].implementationPaths, c[name].implementationPaths)
    {
      NoIntegrationReport(name, b[name], c[name]);
    }
    if b.Keys <= c.Keys {
      CommonNames(b.Keys, c.Keys);
    }
  }

  lemma NoPlatformReports(b: Platforms, c: Platforms)
    ensures Each(PlatformReporter(b, c), b.order) == [] <==> PlatformsKept(b, c)
  {
    hide Missing;
    EachIsEmpty(PlatformReporter(b, c), b.order);
    forall platform ensures PlatformReport(b, c, platform) == [] <==> PathsKept(b.Of(platform), c.Of(platform)) {
      NonePathsMissing("platform:" + platform, b.Of(platform), c.Of(platform));
    }
    assert forall platform :: platform in b.order <==> platform in b.paths;
  }

  lemma NoEntryPointsReport(b: Manifest, c: Manifest)
    ensures EntryPointsReport(b, c) == Some([]) <==> EntryPointsKept(b, c)
  {
    hide KeyedReport, EntriesKept;
    NoKeyedReport("binary", b.binaries, c.binaries, "name", ["crate"]);
    NoKeyedReport("cli", b.cliSubcommands, c.cliSubcommands, "command", CLI_FIELDS);
    NoKeyedReport("slash", b.slashCommands, c.slashCommands, "command", SLASH_FIELDS);
  }

  /** A comparison reports nothing exactly when the candidate keeps everything that was released. */
  lemma NothingReported(b: Manifest, c: Manifest)
    ensures Differences(b, c) == Some([]) <==> Compatible(b, c)
  {
    hide EntryPointsReport, KeyedReport, MigrationsReport, Missing, IntegrationsReport, Each;
    hide EntryPointsKept, EntriesKept, MigrationsKept, PathsKept, PlatformsKept, IntegrationsKept;
    NoEntryPointsReport(b, c);
    NonePathsMissing("config", b.propertyPaths, c.propertyPaths);
    NoMigrationsReport(b.migrations, c.migrations);
    NoKeyedReport("model", b.models, c.models, "slug", MODEL_FIELDS);
    NonePathsMissing("app-server", b.methods, c.methods);
    NoPlatformReports(b.platforms, c.platforms);
    NoIntegrationsReport(b.integrations, c.integrations);
  }

  // -------------------------------------------------------------- transitivity

  lemma AgreesTransitive(a: Value, b: Value, c: Value)
    requires Agrees(a, b) && Agrees(b, c)
    ensures Agrees(a, c)
  {
    SameMeansAgrees(a, b);
    SameMeansAgrees(b, c);
    SameMeansAgrees(a, c);
  }

  lemma EntriesKeptTransitive(a: seq<Entry>, b: seq<Entry>, c: seq<Entry>, key: string, fields: seq<string>)
    requires EntriesKept(a, b, key, fields) && EntriesKept(b, c, key, fields)
    ensures EntriesKept(a, c, key, fields)
  {
    hide Keyed, Agrees;
    forall x, y, z | Agrees(x, y) && Agrees(y, z) ensures Agrees(x, z) {
      AgreesTransitive(x, y, z);
    }
  }

  lemma MigrationsKeptTransitive(a: seq<Entry>, b: seq<Entry>, c: seq<Entry>)
    requires MigrationsKept(a, b) && MigrationsKept(b, c)
    ensures MigrationsKept(a, c)
  {
    hide Keyed, Agrees;
    forall x, y, z | Agrees(x, y) && Agrees(y, z) ensures Agrees(x, z) {
      AgreesTransitive(x, y, z);
    }
  }

  lemma PlatformsKeptTransitive(a: Platforms, b: Platforms, c: Platforms)
    requires PlatformsKept(a, b) && PlatformsKept(b, c)
    ensures PlatformsKept(a, c)
  {
    forall platform | platform in a.paths ensures PathsKept(a.paths[platform], c.Of(platform)) {
      assert PathsKept(a.paths[platform], b.Of(platform));
      if platform in b.paths {
        assert PathsKept(b.paths[platform], c.Of(platform));
      }
    }
  }

  lemma CompatibleTransitive(a: Manifest, b: Manifest, c: Manifest)
    requires Compatible(a, b) && Compatible(b, c)
    ensures Compatible(a, c)
  {
    EntriesKeptTransitive(a.binaries, b.binaries, c.binaries, "name", ["crate"]);
    EntriesKeptTransitive(a.cliSubcommands, b.cliSubcommands, c.cliSubcommands, "command", CLI_FIELDS);
    EntriesKeptTransitive(a.slashCommands, b.slashCommands, c.slashCommands, "command", SLASH_FIELDS);
    EntriesKeptTransitive(a.models, b.models, c.models, "slug", MODEL_FIELDS);
    MigrationsKeptTransitive(a.migrations, b.migrations, c.migrations);
    PlatformsKeptTransitive(a.platforms, b.platforms, c.platforms);
    hide EntriesKept, MigrationsKept, PlatformsKept;
  }

  /** Releases that were each compared with the one before them. */
  predicate Chain(releases: seq<Manifest>) {
    forall i :: 0 < i < |releases| ==> Differences(releases[i - 1], releases[i]) == Some([])
  }

  /** In such a chain, comparing any release with any later one reports nothing either. */
  lemma {:induction false} ChainIsCompatible(releases: seq<Manifest>, i: nat, j: nat)
    requires Chain(releases) && i < j < |releases|
    ensures Differences(releases[i], releases[j]) == Some([])
    decreases j - i
  {
    hide Differences, Compatible;
    if i + 1 < j {
      ChainIsCompatible(releases, i + 1, j);
      assert Differences(releases[i + 1 - 1], releases[i + 1]) == Some([]);
      NothingReported(releases[i], releases[i + 1]);
      NothingReported(releases[i + 1], releases[j]);
      CompatibleTransitive(releases[i], releases[i + 1], releases[j]);
      NothingReported(releases[i], releases[j]);
    } else {
      assert j - 1 == i && Differences(releases[j - 1], releases[j]) == Some([]);
    }
  }

  /** Every entry has its key, every migration its hash and every integration a bound command. */
  predicate Complete(m: Manifest) {
    && Keyed(m.binaries, "name").Some? && Keyed(m.cliSubcommands, "command").Some?
    && Keyed(m.slashCommands, "command").Some? && Keyed(m.models, "slug").Some?
    && Keyed(m.migrations, "path").Some?
    && Hashed(Keyed(m.migrations, "path").value, Keyed(m.migrations, "path").value.Keys)
    && forall name :: name in m.integrations ==> Dispatched(m.integrations[name])
  }

  lemma IsSameAsItself(v: Value)
    ensures Same(v, v)
  {
  }

  /** A manifest agrees with itself exactly when it is complete: a protected integration must be bound. */
  lemma SelfComparison(m: Manifest)
    ensures Differences(m, m) == Some([]) <==> Complete(m)
  {
    hide Differences, Keyed, Agrees, Same;
    NothingReported(m, m);
    forall v ensures Agrees(v, v) {
      SameMeansAgrees(v, v);
      IsSameAsItself(v);
    }
  }

  const UNBOUND := Manifest([], [], [], [], [], [], [], Artifacts([], map[]), map["wallet" := Integration(None, [])])

  /** A manifest with one integration that no command dispatches to differs from itself. */
  lemma UnboundDiffersFromItself()
    ensures Differences(UNBOUND, UNBOUND) != Some([])
  {
    hide Differences;
    assert "wallet" in UNBOUND.integrations && !Dispatched(UNBOUND.integrations["wallet"]);
    SelfComparison(UNBOUND);
  }

  // ------------------------------------------------------- what is reported

  lemma {:induction false} EachReports(report: string -> seq<Difference>, names: seq<string>, d: Difference)
    ensures d in Each(report, names) <==> exists name :: name in names && d in report(name)
  {
    if names != [] {
      var front, last := names[..|names| - 1], names[|names| - 1];
      assert names == front + [last];
      EachReports(report, front, d);
    }
  }

  /** The difference says that a name of the baseline is gone. */
  ghost predicate IsALoss(category: string, b: set<string>, c: set<string>, d: Difference) {
    exists name :: IsLoss(category, b, c, name, d)
  }

  predicate IsLoss(category: string, b: set<string>, c: set<string>, name: string, d: Difference) {
    name in b && name !in c && d == MissingOf(category, name)
  }

  lemma MissingReports(category: string, b: set<string>, c: set<string>, d: Difference)
    ensures d in Missing(category, b, c) <==> IsALoss(category, b, c, d)
  {
    hide MissingOf;
    EachReports(MissingReporter(category), Sorted(b - c), d);
    forall name
      ensures name in Sorted(b - c) && d in MissingReporter(category)(name) <==> IsLoss(category, b, c, name, d) {
    }
  }

  lemma FieldsReported(category: string, name: string, before: Entry, after: Entry, fields: seq<string>, d: Difference)
    ensures d in FieldReports(category, name, before, after, fields)
            <==> exists field :: && field in fields && !FieldKept(before, after, field)
                                 && d == ChangedOf(category, name, before, after, field)
  {
    hide Same, ChangedOf, FieldKept;
    EachReports(FieldReporter(category, name, before, after), fields, d);
    forall field
      ensures d in FieldReport(category, name, before, after, field)
              <==> !FieldKept(before, after, field) && d == ChangedOf(category, name, before, after, field)
    {
      SameMeansKept(before, after, field);
    }
  }

  /** The difference says that a field of a common entry changed. */
  ghost predicate IsAChange(
    category: string, b: map<string, Entry>, c: map<string, Entry>, fields: seq<string>, d: Difference
  ) {
    exists name :: IsChange(category, b, c, fields, name, d)
  }

  predicate IsChange(
    category: string, b: map<string, Entry>, c: map<string, Entry>, fields: seq<string>, name: string, d: Difference
  ) {
    && name in b && name in c
    && exists field :: && field in fields && !FieldKept(b[name], c[name], field)
                       && d == ChangedOf(category, name, b[name], c[name], field)
  }

  lemma ChangesReported(
    category: string, b: map<string, Entry>, c: map<string, Entry>, fields: seq<string>, d: Difference)
    ensures d in Each(EntryReporter(category, b, c, fields), Sorted(b.Keys * c.Keys))
            <==> IsAChange(category, b, c, fields, d)
  {
    hide FieldReports, FieldKept, ChangedOf;
    var report, names := EntryReporter(category, b, c, fields), Sorted(b.Keys * c.Keys);
    EachReports(report, names, d);
    forall name ensures name in names && d in report(name) <==> IsChange(category, b, c, fields, name, d) {
      if name in b && name in c {
        FieldsReported(category, name, b[name], c[name], fields, d);
      }
    }
    hide IsChange, EntryReporter;
  }

  /** Keyed entries report each released name that is gone and each frozen field that changed, and nothing else. */
  lemma KeyedReportIsExact(
    category: string, baseline: seq<Entry>, candidate: seq<Entry>, key: string, fields: seq<string>, d: Difference)
    requires KeyedReport(category, baseline, candidate, key, fields).Some?
    ensures var b, c := Keyed(baseline, key).value, Keyed(candidate, key).value;
            d in KeyedReport(category, baseline, candidate, key, fields).value
            <==> IsALoss(category, b.Keys, c.Keys, d) || IsAChange(category, b, c, fields, d)
  {
    hide Keyed, Missing, EntryReporter, Each, IsALoss, IsAChange;
    var b, c := Keyed(baseline, key).value, Keyed(candidate, key).value;
    var missing, changed := Missing(category, b.Keys, c.Keys),
      Each(EntryReporter(category, b, c, fields), Sorted(b.Keys * c.Keys));
    assert KeyedReport(category, baseline, candidate, key, fields).value == missing + changed;
    assert d in missing + changed <==> d in missing || d in changed;
    MissingReports(category, b.Keys, c.Keys, d);
    ChangesReported(category, b, c, fields, d);
  }

  // ------------------------------------------------------------ keyed entries

  /** The entry has a text for its key. */
  predicate HasKey(entry: Entry, field: string) {
    field in entry && entry[field].Text?
  }

  predicate Named(entry: Entry, field: string, name: string) {
    field in entry && entry[field] == Text(name)
  }

  /** Entries can be looked up by key exactly when each of them has one. */
  lemma {:induction false} KeyedNeedsKeys(items: seq<Entry>, field: string)
    ensures Keyed(items, field).Some? <==> forall i :: 0 <= i < |items| ==> HasKey(items[i], field)
  {
    if items != [] {
      var front := items[..|items| - 1];
      KeyedNeedsKeys(front, field);
      assert forall i :: 0 <= i < |front| ==> items[i] == front[i];
    }
  }

  /** The keyed entry of a name is the last of the list with that key. */
  lemma {:induction false} KeyedFindsLast(items: seq<Entry>, field: string, name: string)
    requires Keyed(items, field).Some?
    ensures name in Keyed(items, field).value
            <==> exists i :: 0 <= i < |items| && Named(items[i], field, name)
    ensures name in Keyed(items, field).value ==>
              exists i :: 0 <= i < |items| && IsLast(items, field, name, i)
                          && Keyed(items, field).value[name] == items[i]
  {
    if items != [] {
      var front, last := items[..|items| - 1], |items| - 1;
      KeyedFindsLast(front, field, name);
      if Named(items[last], field, name) {
        assert IsLast(items, field, name, last);
      } else if name in Keyed(front, field).value {
        var i :| 0 <= i < |front| && IsLast(front, field, name, i) && Keyed(front, field).value[name] == front[i];
        assert IsLast(items, field, name, i);
        assert Named(items[i], field, name);
      } else {
        assert forall i :: 0 <= i < |items| ==> !Named(items[i], field, name) by {
          assert forall i :: 0 <= i < |front| ==> items[i] == front[i];
        }
      }
    }
  }

  predicate IsLast(items: seq<Entry>, field: string, name: string, i: nat) {
    && i < |items| && Named(items[i], field, name)
    && forall j :: i < j < |items| ==> !Named(items[j], field, name)
  }
}
