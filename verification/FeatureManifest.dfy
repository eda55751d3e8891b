/** Feature manifests, and what comparing that of a release candidate with a released one reports. */
module FeatureManifest {
  import opened Options
  import opened SortedNames

  // ----------------------------------------------------------------- entries

  datatype Value =
    | Null
    | Flag(flag: bool)
    | Number(number: real)
    | Text(text: string)
    | Items(items: seq<Value>)
    | Record(fields: map<string, Value>)

  /** Python counts a truth value as the number one or zero. */
  function Canonical(v: Value): Value {
    match v
    case Flag(flag) => Number(if flag then 1.0 else 0.0)
    case Items(items) => Items(seq(|items|, i requires 0 <= i < |items| => Canonical(items[i])))
    case Record(fields) => Record(map name | name in fields :: Canonical(fields[name]))
    case _ => v
  }

  /** Equality of values as Python decides it. */
  predicate Same(a: Value, b: Value) {
    Canonical(a) == Canonical(b)
  }

  type Entry = map<string, Value>

  function Get(entry: Entry, field: string): Value {
    if field in entry then entry[field] else Null
  }

  function Key(entry: Entry, field: string): Option<string> {
    if field in entry && entry[field].Text? then Some(entry[field].text) else None
  }

  /** The entries by their key; of several with one key the last is kept. */
  function Keyed(items: seq<Entry>, field: string): Option<map<string, Entry>> {
    if items == [] then Some(map[])
    else
      var front, last := Keyed(items[..|items| - 1], field), items[|items| - 1];
      if front.None? || Key(last, field).None? then None else Some(front.value[Key(last, field).value := last])
  }

  function At(entries: map<string, Entry>, name: string): Entry {
    if name in entries then entries[name] else map[]
  }

  function Elements(s: seq<string>): (r: set<string>)
    ensures forall x :: x in r <==> x in s
  {
    set x | x in s
  }

  // --------------------------------------------------------------- manifests

  datatype Command = Command(dispatchBindings: seq<string>)

  datatype Integration = Integration(slashCommand: Option<Command>, implementationPaths: seq<string>)

  /** A dictionary in the order its keys were written. */
  datatype Artifacts = Artifacts(order: seq<string>, paths: map<string, seq<string>>) {
    predicate Listed() {
      Elements(order) == paths.Keys
    }

    function Of(platform: string): seq<string> {
      if platform in paths then paths[platform] else []
    }
  }

  type Platforms = a: Artifacts | a.Listed() witness Artifacts([], map[])

  datatype Manifest = Manifest(
    binaries: seq<Entry>,
    cliSubcommands: seq<Entry>,
    slashCommands: seq<Entry>,
    propertyPaths: seq<string>,
    migrations: seq<Entry>,
    models: seq<Entry>,
    methods: seq<string>,
    platforms: Platforms,
    integrations: map<string, Integration>)

  datatype Evidence = Nothing | Name(name: string) | Field(value: Value) | Binding(command: Option<Command>)

  datatype Difference = Difference(
    id: string, category: string, message: string, baseline: Evidence, candidate: Evidence)

  const CLI_FIELDS := ["variant", "description", "hidden"]
  const SLASH_FIELDS := ["variant", "aliases", "description", "supports_inline_args", "available_during_task",
                         "available_in_side_conversation"]
  const MODEL_FIELDS := ["input_modalities", "context_window", "max_context_window", "default_reasoning_level",
                         "supported_reasoning_levels", "service_tiers", "available_in_plans", "visibility",
                         "supported_in_api"]

  // ------------------------------------------------------------- differences

  /** What each name gives rise to, in the order of the names. */
  function Each(report: string -> seq<Difference>, names: seq<string>): seq<Difference> {
    if names == [] then [] else Each(report, names[..|names| - 1]) + report(names[|names| - 1])
  }

  function MissingOf(category: string, name: string): Difference {
    Difference(category + ":missing:" + name, category, "released " + category + " entry is missing",
               Name(name), Nothing)
  }

  function Missing(category: string, baseline: set<string>, candidate: set<string>): seq<Difference> {
    Each(MissingReporter(category), Sorted(baseline - candidate))
  }

  function MissingReporter(category: string): string -> seq<Difference> {
    name => [MissingOf(category, name)]
  }

  function ChangedOf(category: string, name: string, before: Entry, after: Entry, field: string): Difference {
    Difference(category + ":changed:" + name + ":" + field, category, "released " + category + " field changed",
               Field(Get(before, field)), Field(Get(after, field)))
  }

  function FieldReport(category: string, name: string, before: Entry, after: Entry, field: string): seq<Difference> {
    if Same(Get(before, field), Get(after, field)) then [] else [ChangedOf(category, name, before, after, field)]
  }

  function FieldReports(
    category: string, name: string, before: Entry, after: Entry, fields: seq<string>
  ): seq<Difference> {
    Each(FieldReporter(category, name, before, after), fields)
  }

  function FieldReporter(category: string, name: string, before: Entry, after: Entry): string -> seq<Difference> {
    field => FieldReport(category, name, before, after, field)
  }

  function EntryReporter(
    category: string, b: map<string, Entry>, c: map<string, Entry>, fields: seq<string>
  ): string -> seq<Difference> {
    name => FieldReports(category, name, At(b, name), At(c, name), fields)
  }

  /** The differences of keyed entries, or nothing when an entry lacks its key. */
  function KeyedReport(
    category: string, baseline: seq<Entry>, candidate: seq<Entry>, key: string, fields: seq<string>
  ): Option<seq<Difference>> {
    var b, c := Keyed(baseline, key), Keyed(candidate, key);
    if b.None? || c.None? then None
    else
      Some(Missing(category, b.value.Keys, c.value.Keys)
           + Each(EntryReporter(category, b.value, c.value, fields), Sorted(b.value.Keys * c.value.Keys)))
  }

  predicate Hashed(entries: map<string, Entry>, names: set<string>) {
    forall name :: name in names ==> "sha256" in At(entries, name)
  }

  function MigrationReport(b: map<string, Entry>, c: map<string, Entry>, path: string): seq<Difference> {
    var before, after := Get(At(b, path), "sha256"), Get(At(c, path), "sha256");
    if Same(before, after) then []
    else [Difference("migration:changed:" + path, "migration", "released migration content changed",
                     Field(before), Field(after))]
  }

  function MigrationsReport(baseline: seq<Entry>, candidate: seq<Entry>): Option<seq<Difference>> {
    var b, c := Keyed(baseline, "path"), Keyed(candidate, "path");
    if b.None? || c.None? then None
    else
      var common := b.value.Keys * c.value.Keys;
      if !Hashed(b.value, common) || !Hashed(c.value, common) then None
      else Some(Missing("migration", b.value.Keys, c.value.Keys)
                + Each(MigrationReporter(b.value, c.value), Sorted(common)))
  }

  function MigrationReporter(b: map<string, Entry>, c: map<string, Entry>): string -> seq<Difference> {
    path => MigrationReport(b, c, path)
  }

  predicate Bound(after: Integration) {
    after.slashCommand.Some? && after.slashCommand.value.dispatchBindings != []
  }

  function IntegrationReport(name: string, before: Integration, after: Integration): seq<Difference> {
    (if Bound(after) then []
     else [Difference("integration:unbound:" + name, "integration",
                      "protected integration has no slash-command dispatch binding",
                      Binding(before.slashCommand), Binding(after.slashCommand))])
    + Missing("integration-path:" + name, Elements(before.implementationPaths), Elements(after.implementationPaths))
  }

  function Member(all: map<string, Integration>, name: string): Integration {
    if name in all then all[name] else Integration(None, [])
  }

  function IntegrationsReport(b: map<string, Integration>, c: map<string, Integration>): seq<Difference> {
    Missing("integration", b.Keys, c.Keys)
    + Each(IntegrationReporter(b, c), Sorted(b.Keys * c.Keys))
  }

  function IntegrationReporter(b: map<string, Integration>, c: map<string, Integration>): string -> seq<Difference> {
    name => IntegrationReport(name, Member(b, name), Member(c, name))
  }

  function PlatformReport(b: Platforms, c: Platforms, platform: string): seq<Difference> {
    Missing("platform:" + platform, Elements(b.Of(platform)), Elements(c.Of(platform)))
  }

  function PlatformReporter(b: Platforms, c: Platforms): string -> seq<Difference> {
    platform => PlatformReport(b, c, platform)
  }

  function Joined(a: Option<seq<Difference>>, b: Option<seq<Difference>>): Option<seq<Difference>> {
    if a.None? || b.None? then None else Some(a.value + b.value)
  }

  function EntryPointsReport(b: Manifest, c: Manifest): Option<seq<Difference>> {
    Joined(Joined(KeyedReport("binary", b.binaries, c.binaries, "name", ["crate"]),
                  KeyedReport("cli", b.cliSubcommands, c.cliSubcommands, "command", CLI_FIELDS)),
           KeyedReport("slash", b.slashCommands, c.slashCommands, "command", SLASH_FIELDS))
  }

  /** Everything the comparison reports, in order, or nothing when an entry lacks a field it must have. */
  function Differences(b: Manifest, c: Manifest): Option<seq<Difference>> {
    Joined(
      Joined(
        Joined(
          Joined(EntryPointsReport(b, c),
                 Some(Missing("config", Elements(b.propertyPaths), Elements(c.propertyPaths)))),
          MigrationsReport(b.migrations, c.migrations)),
        KeyedReport("model", b.models, c.models, "slug", MODEL_FIELDS)),
      Some(Missing("app-server", Elements(b.methods), Elements(c.methods))
           + Each(PlatformReporter(b.platforms, c.platforms), b.platforms.order)
           + IntegrationsReport(b.integrations, c.integrations)))
  }
}
