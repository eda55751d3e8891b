/** The comparison itself: a list of differences that each comparison appends to. */
module ManifestReport {
  import opened Options
  import opened SortedNames
  import opened FeatureManifest

  class Report {
    var differences: seq<Difference>

    constructor ()
      ensures differences == []
    {
      differences := [];
    }

    method MissingValues(category: string, baseline: set<string>, candidate: set<string>)
      modifies this
      ensures differences == old(differences) + Missing(category, baseline, candidate)
    {
      var names := Sorted(baseline - candidate);
      ghost var report := MissingReporter(category);
      for i := 0 to |names|
        invariant differences == old(differences) + Each(report, names[..i])
      {
        EachNext(report, names, i);
        differences := differences + [MissingOf(category, names[i])];
      }
      assert names[..|names|] == names;
    }

    method CompareFields(category: string, name: string, before: Entry, after: Entry, fields: seq<string>)
      modifies this
      ensures differences == old(differences) + FieldReports(category, name, before, after, fields)
    {
      hide Same;
      ghost var report := FieldReporter(category, name, before, after);
      for i := 0 to |fields|
        invariant differences == old(differences) + Each(report, fields[..i])
      {
        EachNext(report, fields, i);
        var field := fields[i];
        if !Same(Get(before, field), Get(after, field)) {
          differences := differences + [ChangedOf(category, name, before, after, field)];
        }
      }
      assert fields[..|fields|] == fields;
    }

    method CompareEntries(
      category: string, b: map<string, Entry>, c: map<string, Entry>, fields: seq<string>, names: seq<string>)
      requires forall name :: name in names ==> name in b && name in c
      modifies this
      ensures differences == old(differences) + Each(EntryReporter(category, b, c, fields), names)
    {
      hide FieldReports;
      ghost var report := EntryReporter(category, b, c, fields);
      for i := 0 to |names|
        invariant differences == old(differences) + Each(report, names[..i])
      {
        EachNext(report, names, i);
        assert names[i] in names;
        CompareFields(category, names[i], b[names[i]], c[names[i]], fields);
      }
      assert names[..|names|] == names;
    }

    method CompareKeyedEntries(
      category: string, baseline: seq<Entry>, candidate: seq<Entry>, key: string, fields: seq<string>)
      returns (ok: bool)
      modifies this
      ensures ok == KeyedReport(category, baseline, candidate, key, fields).Some?
      ensures ok ==> differences == old(differences) + KeyedReport(category, baseline, candidate, key, fields).value
    {
      hide Missing, EntryReporter, Keyed, Each;
      var b, c := Keyed(baseline, key), Keyed(candidate, key);
      ok := b.Some? && c.Some?;
      if ok {
        MissingValues(category, b.value.Keys, c.value.Keys);
        CompareEntries(category, b.value, c.value, fields, Sorted(b.value.Keys * c.value.Keys));
      }
    }

    method CompareHashes(b: map<string, Entry>, c: map<string, Entry>, names: seq<string>) returns (ok: bool)
      requires forall name :: name in names ==> name in b && name in c
      modifies this
      ensures ok == (Hashed(b, Elements(names)) && Hashed(c, Elements(names)))
      ensures ok ==> differences == old(differences) + Each(MigrationReporter(b, c), names)
    {
      hide Same;
      ghost var report := MigrationReporter(b, c);
      for i := 0 to |names|
        invariant forall j :: 0 <= j < i ==> "sha256" in At(b, names[j]) && "sha256" in At(c, names[j])
        invariant differences == old(differences) + Each(report, names[..i])
      {
        EachNext(report, names, i);
        var path := names[i];
        assert path in names;
        if "sha256" !in b[path] || "sha256" !in c[path] {
          return false;
        }
        var before, after := b[path]["sha256"], c[path]["sha256"];
        if !Same(before, after) {
          differences := differences + [Difference("migration:changed:" + path, "migration",
                                                   "released migration content changed", Field(before), Field(after))];
        }
      }
      assert names[..|names|] == names;
      ok := true;
    }

    method CompareMigrations(baseline: seq<Entry>, candidate: seq<Entry>) returns (ok: bool)
      modifies this
      ensures ok == MigrationsReport(baseline, candidate).Some?
      ensures ok ==> differences == old(differences) + MigrationsReport(baseline, candidate).value
    {
      hide Missing, Keyed, Each, MigrationReporter;
      var b, c := Keyed(baseline, "path"), Keyed(candidate, "path");
      ok := b.Some? && c.Some?;
      if ok {
        var names := Sorted(b.value.Keys * c.value.Keys);
        assert Elements(names) == b.value.Keys * c.value.Keys;
        MissingValues("migration", b.value.Keys, c.value.Keys);
        ok := CompareHashes(b.value, c.value, names);
      }
    }

    method CompareIntegrations(b: map<string, Integration>, c: map<string, Integration>)
      modifies this
      ensures differences == old(differences) + IntegrationsReport(b, c)
    {
      hide Missing, Each, IntegrationReporter;
      MissingValues("integration", b.Keys, c.Keys);
      CompareCommon(b, c, Sorted(b.Keys * c.Keys));
    }

    method CompareCommon(b: map<string, Integration>, c: map<string, Integration>, names: seq<string>)
      requires forall name :: name in names ==> name in b && name in c
      modifies this
      ensures differences == old(differences) + Each(IntegrationReporter(b, c), names)
    {
      hide IntegrationReport;
      ghost var report := IntegrationReporter(b, c);
      for i := 0 to |names|
        invariant differences == old(differences) + Each(report, names[..i])
      {
        EachNext(report, names, i);
        assert names[i] in names;
        CompareIntegration(names[i], b[names[i]], c[names[i]]);
      }
      assert names[..|names|] == names;
    }

    method CompareIntegration(name: string, before: Integration, after: Integration)
      modifies this
      ensures differences == old(differences) + IntegrationReport(name, before, after)
    {
      hide Missing;
      if after.slashCommand.None? || after.slashCommand.value.dispatchBindings == [] {
        differences := differences + [Difference("integration:unbound:" + name, "integration",
                                                 "protected integration has no slash-command dispatch binding",
                                                 Binding(before.slashCommand), Binding(after.slashCommand))];
      }
      MissingValues("integration-path:" + name,
                    Elements(before.implementationPaths), Elements(after.implementationPaths));
    }

    method ComparePlatform(b: Platforms, c: Platforms, platform: string)
      modifies this
      ensures differences == old(differences) + PlatformReport(b, c, platform)
    {
      hide Missing;
      MissingValues("platform:" + platform, Elements(b.Of(platform)), Elements(c.Of(platform)));
    }

    method ComparePlatforms(b: Platforms, c: Platforms)
      modifies this
      ensures differences == old(differences) + Each(PlatformReporter(b, c), b.order)
    {
      hide PlatformReport;
      ghost var report := PlatformReporter(b, c);
      for i := 0 to |b.order|
        invariant differences == old(differences) + Each(report, b.order[..i])
      {
        EachNext(report, b.order, i);
        ComparePlatform(b, c, b.order[i]);
      }
      assert b.order[..|b.order|] == b.order;
    }
  }

  lemma EachNext(report: string -> seq<Difference>, names: seq<string>, i: nat)
    requires i < |names|
    ensures Each(report, names[..i + 1]) == Each(report, names[..i]) + report(names[i])
  {
    assert names[..i + 1][..i] == names[..i];
  }

  method CompareManifests(b: Manifest, c: Manifest) returns (result: Option<seq<Difference>>)
    ensures result == Differences(b, c)
  {
    hide KeyedReport, MigrationsReport, Missing, IntegrationsReport, Each;
    var report := new Report();
    var ok := report.CompareKeyedEntries("binary", b.binaries, c.binaries, "name", ["crate"]);
    if !ok { return None; }
    ok := report.CompareKeyedEntries("cli", b.cliSubcommands, c.cliSubcommands, "command", CLI_FIELDS);
    if !ok { return None; }
    ok := report.CompareKeyedEntries("slash", b.slashCommands, c.slashCommands, "command", SLASH_FIELDS);
    if !ok { return None; }
    ghost var points := EntryPointsReport(b, c);
    assert points.Some? && report.differences == points.value;
    report.MissingValues("config", Elements(b.propertyPaths), Elements(c.propertyPaths));
    ok := report.CompareMigrations(b.migrations, c.migrations);
    if !ok { return None; }
    ok := report.CompareKeyedEntries("model", b.models, c.models, "slug", MODEL_FIELDS);
    if !ok { return None; }
    ghost var entries := report.differences;
    assert entries
           == points.value + Missing("config", Elements(b.propertyPaths), Elements(c.propertyPaths))
              + MigrationsReport(b.migrations, c.migrations).value
              + KeyedReport("model", b.models, c.models, "slug", MODEL_FIELDS).value;
    report.MissingValues("app-server", Elements(b.methods), Elements(c.methods));
    report.ComparePlatforms(b.platforms, c.platforms);
    report.CompareIntegrations(b.integrations, c.integrations);
    assert report.differences
           == entries + (Missing("app-server", Elements(b.methods), Elements(c.methods))
                         + Each(PlatformReporter(b.platforms, c.platforms), b.platforms.order)
                         + IntegrationsReport(b.integrations, c.integrations));
    result := Some(report.differences);
  }
}
