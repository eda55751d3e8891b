/**
 The argument canonicaliser of the argument-comment lint wrapper: parsing the
 user's arguments, adding the defaults that are missing, and the proof that
 doing so twice changes nothing.
 */
module LintArguments {
  import opened Options

  const SEPARATOR := "--"

  datatype Slot = ManifestValue | PackageValue | LibraryValue

  /** What an argument before the separator means when it is not taken as a value. */
  datatype Kind =
    | Wants(slot: Slot)       // an option whose value is the next argument
    | Gives(slot: Slot)       // an option with its value inline, or `--workspace`
    | Fix
    | NoDeps
    | Other

  function KindOf(arg: string): Kind {
    if arg == "--manifest-path" then Wants(ManifestValue)
    else if "--manifest-path=" <= arg then Gives(ManifestValue)
    else if arg == "-p" || arg == "--package" then Wants(PackageValue)
    else if "--package=" <= arg then Gives(PackageValue)
    else if arg == "--fix" then Fix
    else if arg == "--workspace" then Gives(PackageValue)
    else if arg == "--no-deps" then NoDeps
    else if arg == "--lib" || arg == "--lib-path" then Wants(LibraryValue)
    else if "--lib=" <= arg || "--lib-path=" <= arg then Gives(LibraryValue)
    else Other
  }

  /** The arguments after the separator that choose cargo targets. */
  predicate SelectsTarget(arg: string) {
    || arg in {"--all-targets", "--lib", "--bins", "--tests", "--examples", "--benches", "--doc"}
    || arg in {"--bin", "--test", "--example", "--bench"}
    || "--bin=" <= arg || "--test=" <= arg || "--example=" <= arg || "--bench=" <= arg
  }

  datatype Flags = Flags(manifest: bool, package: bool, noDeps: bool, library: bool, fix: bool)

  datatype Parsed = Parsed(lint: seq<string>, cargo: seq<string>, flags: Flags, target: bool)

  datatype Scan = Scan(parsed: Parsed, afterSeparator: bool, slot: Option<Slot>)

  const NO_FLAGS := Flags(false, false, false, false, false)
  const START := Scan(Parsed([], [], NO_FLAGS, false), false, None)

  // ----------------------------------------------------------------- parsing

  function Provide(flags: Flags, slot: Slot): Flags {
    match slot
    case ManifestValue => flags.(manifest := true)
    case PackageValue => flags.(package := true)
    case LibraryValue => flags.(library := true)
  }

  function Note(flags: Flags, kind: Kind): Flags {
    match kind
    case Wants(_) => flags
    case Gives(slot) => Provide(flags, slot)
    case Fix => flags.(fix := true)
    case NoDeps => flags.(noDeps := true)
    case Other => flags
  }

  function TakeLint(s: Scan, arg: string): Scan {
    var lint := s.parsed.lint + [arg];
    if s.slot.Some? then
      s.(parsed := s.parsed.(lint := lint, flags := Provide(s.parsed.flags, s.slot.value)), slot := None)
    else
      var kind := KindOf(arg);
      s.(parsed := s.parsed.(lint := lint, flags := Note(s.parsed.flags, kind)),
         slot := if kind.Wants? then Some(kind.slot) else None)
  }

  function TakeCargo(s: Scan, arg: string): Scan {
    s.(parsed := s.parsed.(cargo := s.parsed.cargo + [arg], target := s.parsed.target || SelectsTarget(arg)))
  }

  function Take(s: Scan, arg: string): Scan {
    if s.afterSeparator then TakeCargo(s, arg)
    else if arg == SEPARATOR then s.(afterSeparator := true)
    else TakeLint(s, arg)
  }

  function ScanArgs(s: Scan, argv: seq<string>): Scan {
    if argv == [] then s else Take(ScanArgs(s, argv[..|argv| - 1]), argv[|argv| - 1])
  }

  function Parse(argv: seq<string>): Parsed {
    ScanArgs(START, argv).parsed
  }

  method ParseWrapperArgs(argv: seq<string>) returns (parsed: Parsed)
    ensures parsed == Parse(argv)
  {
    hide KindOf, SelectsTarget;
    var lint: seq<string>, cargo: seq<string> := [], [];
    var flags, target := NO_FLAGS, false;
    var afterSeparator, slot: Option<Slot> := false, None;
    for k := 0 to |argv|
      invariant ScanArgs(START, argv[..k]) == Scan(Parsed(lint, cargo, flags, target), afterSeparator, slot)
    {
      var arg := argv[k];
      assert argv[..k + 1][..k] == argv[..k];
      if afterSeparator {
        cargo := cargo + [arg];
        if SelectsTarget(arg) {
          target := true;
        }
        continue;
      }
      if arg == SEPARATOR {
        afterSeparator := true;
        continue;
      }
      lint := lint + [arg];
      if slot.Some? {
        flags := Provide(flags, slot.value);
        slot := None;
        continue;
      }
      match KindOf(arg) {
        case Wants(wanted) => slot := Some(wanted);
        case Gives(given) => flags := Provide(flags, given);
        case Fix => flags := flags.(fix := true);
        case NoDeps => flags := flags.(noDeps := true);
        case Other =>
      }
    }
    assert argv[..|argv|] == argv;
    parsed := Parsed(lint, cargo, flags, target);
  }

  // ---------------------------------------------------------------- building

  function ManifestDefault(flags: Flags, manifestPath: string): seq<string> {
    if flags.manifest then [] else ["--manifest-path", manifestPath]
  }

  function WorkspaceDefault(flags: Flags): seq<string> {
    if flags.package || flags.manifest then [] else ["--workspace"]
  }

  function NoDepsDefault(flags: Flags): seq<string> {
    if flags.noDeps then [] else ["--no-deps"]
  }

  function Defaults(flags: Flags, manifestPath: string): seq<string> {
    ManifestDefault(flags, manifestPath) + WorkspaceDefault(flags) + NoDepsDefault(flags)
  }

  function ExtraCargo(p: Parsed): seq<string> {
    if p.flags.fix || p.target then [] else ["--all-targets"]
  }

  function Tail(cargo: seq<string>): seq<string> {
    if cargo == [] then [] else [SEPARATOR] + cargo
  }

  function Build(p: Parsed, manifestPath: string): seq<string> {
    Defaults(p.flags, manifestPath) + p.lint + Tail(p.cargo + ExtraCargo(p))
  }

  method BuildFinalArgs(parsed: Parsed, manifestPath: string) returns (finalArgs: seq<string>)
    ensures finalArgs == Build(parsed, manifestPath)
  {
    finalArgs := [];
    var cargoArgs := parsed.cargo;
    if !parsed.flags.manifest {
      finalArgs := finalArgs + ["--manifest-path", manifestPath];
    }
    assert finalArgs == ManifestDefault(parsed.flags, manifestPath);
    if !parsed.flags.package && !parsed.flags.manifest {
      finalArgs := finalArgs + ["--workspace"];
    }
    assert finalArgs == ManifestDefault(parsed.flags, manifestPath) + WorkspaceDefault(parsed.flags);
    hide ManifestDefault, WorkspaceDefault;
    if !parsed.flags.noDeps {
      finalArgs := finalArgs + ["--no-deps"];
    }
    assert finalArgs == Defaults(parsed.flags, manifestPath);
    hide Defaults;
    if !parsed.flags.fix && !parsed.target {
      cargoArgs := cargoArgs + ["--all-targets"];
    }
    assert cargoArgs == parsed.cargo + ExtraCargo(parsed);
    finalArgs := finalArgs + parsed.lint;
    if cargoArgs != [] {
      finalArgs := finalArgs + ([SEPARATOR] + cargoArgs);
    }
  }

  function Canonical(argv: seq<string>, manifestPath: string): seq<string> {
    Build(Parse(argv), manifestPath)
  }

  // ------------------------------------------------------------- scan lemmas

  lemma {:induction false} ScanAppend(s: Scan, a: seq<string>, b: seq<string>)
    ensures ScanArgs(s, a + b) == ScanArgs(ScanArgs(s, a), b)
  {
    hide Take;
    if b == [] {
      assert a + b == a;
    } else {
      assert (a + b)[..|a + b| - 1] == a + b[..|b| - 1];
      ScanAppend(s, a, b[..|b| - 1]);
    }
  }

  lemma ScanOne(s: Scan, arg: string)
    ensures ScanArgs(s, [arg]) == Take(s, arg)
  {
    hide Take;
    assert [arg][..0] == [];
    assert ScanArgs(s, [arg][..0]) == s;
  }

  function Or(a: Flags, b: Flags): Flags {
    Flags(a.manifest || b.manifest, a.package || b.package, a.noDeps || b.noDeps,
          a.library || b.library, a.fix || b.fix)
  }

  /** A scan of lint arguments that starts with some already taken. */
  function Shifted(lint: seq<string>, flags: Flags, s: Scan): Scan {
    s.(parsed := s.parsed.(lint := lint + s.parsed.lint, flags := Or(flags, s.parsed.flags)))
  }

  lemma OrProvide(a: Flags, b: Flags, slot: Slot)
    ensures Provide(Or(a, b), slot) == Or(a, Provide(b, slot))
  {
  }

  lemma OrNote(a: Flags, b: Flags, kind: Kind)
    ensures Note(Or(a, b), kind) == Or(a, Note(b, kind))
  {
    hide Provide;
    if kind.Gives? {
      OrProvide(a, b, kind.slot);
    }
  }

  lemma TakeShifts(lint: seq<string>, flags: Flags, s: Scan, arg: string)
    requires !s.afterSeparator && arg != SEPARATOR
    ensures Take(Shifted(lint, flags, s), arg) == Shifted(lint, flags, Take(s, arg))
    ensures !Take(s, arg).afterSeparator
    ensures Take(s, arg).parsed == s.parsed.(lint := s.parsed.lint + [arg], flags := Take(s, arg).parsed.flags)
  {
    hide KindOf, Or, Provide, Note;
    assert lint + (s.parsed.lint + [arg]) == lint + s.parsed.lint + [arg];
    OrNote(flags, s.parsed.flags, KindOf(arg));
    if s.slot.Some? {
      OrProvide(flags, s.parsed.flags, s.slot.value);
    }
  }

  lemma {:induction false} ScanShifts(lint: seq<string>, flags: Flags, args: seq<string>)
    requires SEPARATOR !in args
    ensures ScanArgs(START.(parsed := START.parsed.(lint := lint, flags := flags)), args)
         == Shifted(lint, flags, ScanArgs(START, args))
    ensures !ScanArgs(START, args).afterSeparator
    ensures ScanArgs(START, args).parsed.lint == args && ScanArgs(START, args).parsed.cargo == []
    ensures !ScanArgs(START, args).parsed.target
  {
    hide Take;
    if args == [] {
      assert lint + [] == lint;
    } else {
      var front, last := args[..|args| - 1], args[|args| - 1];
      ScanShifts(lint, flags, front);
      TakeShifts(lint, flags, ScanArgs(START, front), last);
      assert args == front + [last];
    }
  }

  predicate AnyTarget(cargo: seq<string>) {
    exists i :: 0 <= i < |cargo| && SelectsTarget(cargo[i])
  }

  lemma {:induction false} ScanCargo(s: Scan, cargo: seq<string>)
    requires s.afterSeparator
    ensures ScanArgs(s, cargo)
         == s.(parsed := s.parsed.(cargo := s.parsed.cargo + cargo, target := s.parsed.target || AnyTarget(cargo)))
  {
    hide KindOf, SelectsTarget;
    if cargo != [] {
      var front, last := cargo[..|cargo| - 1], cargo[|cargo| - 1];
      ScanCargo(s, front);
      assert cargo == front + [last];
      assert AnyTarget(cargo) <==> AnyTarget(front) || SelectsTarget(last) by {
        if AnyTarget(front) {
          var i :| 0 <= i < |front| && SelectsTarget(front[i]);
          assert cargo[i] == front[i];
        }
        assert cargo[|front|] == last;
      }
    }
  }

  /** The flags of lint arguments read from the start. */
  function LintFlags(lint: seq<string>): Flags {
    ScanArgs(START, lint).parsed.flags
  }

  /** Parsing arguments that are known to be split. */
  lemma ParseSplit(lint: seq<string>, cargo: seq<string>)
    requires SEPARATOR !in lint
    ensures Parse(lint + Tail(cargo)) == Parsed(lint, cargo, LintFlags(lint), AnyTarget(cargo))
  {
    hide KindOf, SelectsTarget, Take;
    ScanShifts([], NO_FLAGS, lint);
    if cargo == [] {
      assert lint + Tail(cargo) == lint;
    } else {
      var s := ScanArgs(START, lint);
      ScanAppend(START, lint, [SEPARATOR] + cargo);
      ScanAppend(s, [SEPARATOR], cargo);
      ScanOne(s, SEPARATOR);
      assert Take(s, SEPARATOR) == s.(afterSeparator := true) by { TakeSeparator(s); }
      ScanCargo(s.(afterSeparator := true), cargo);
    }
  }

  lemma TakeSeparator(s: Scan)
    requires !s.afterSeparator
    ensures Take(s, SEPARATOR) == s.(afterSeparator := true)
  {
  }

  /** The arguments before the first separator, and those after it. */
  function Before(argv: seq<string>): (before: seq<string>)
    ensures SEPARATOR !in before && before <= argv
    ensures before == argv || (|before| < |argv| && argv[|before|] == SEPARATOR)
  {
    if argv == [] || argv[0] == SEPARATOR then [] else [argv[0]] + Before(argv[1..])
  }

  function AfterSeparator(argv: seq<string>): seq<string> {
    if Before(argv) == argv then [] else argv[|Before(argv)| + 1..]
  }

  /** What parsing finds: the arguments on each side of the first separator, untouched. */
  lemma ParseFinds(argv: seq<string>)
    ensures Parse(argv)
         == Parsed(Before(argv), AfterSeparator(argv), LintFlags(Before(argv)), AnyTarget(AfterSeparator(argv)))
  {
    hide ScanArgs, AnyTarget;
    var lint, cargo := Before(argv), AfterSeparator(argv);
    if lint == argv {
      ParseSplit(lint, []);
      assert lint + Tail([]) == argv;
    } else if cargo == [] {
      ParseTrailingSeparator(lint);
      assert argv == lint + [SEPARATOR];
    } else {
      ParseSplit(lint, cargo);
      assert argv == lint + Tail(cargo);
    }
  }

  lemma ParseTrailingSeparator(lint: seq<string>)
    requires SEPARATOR !in lint
    ensures Parse(lint + [SEPARATOR]) == Parsed(lint, [], LintFlags(lint), AnyTarget([]))
  {
    hide KindOf, SelectsTarget, Take;
    ScanShifts([], NO_FLAGS, lint);
    var s := ScanArgs(START, lint);
    ScanAppend(START, lint, [SEPARATOR]);
    ScanOne(s, SEPARATOR);
    TakeSeparator(s);
  }

  // ----------------------------------------------------- what the flags mean

  /** Whether an argument is the value of the option before it. */
  predicate ValueAt(lint: seq<string>, i: nat)
    requires i < |lint|
  {
    i > 0 && !ValueAt(lint, i - 1) && KindOf(lint[i - 1]).Wants?
  }

  /** The flags that arguments before the separator can set. */
  datatype Flag = ValueFlag(slot: Slot) | FixFlag | NoDepsFlag

  /** What an argument sets when it is not taken as a value. */
  function KindFor(flag: Flag): Kind {
    match flag
    case ValueFlag(slot) => Gives(slot)
    case FixFlag => Fix
    case NoDepsFlag => NoDeps
  }

  /** An argument sets a flag: as the value of an option that wants one, or by itself. */
  predicate ProvidesAt(lint: seq<string>, i: nat, flag: Flag)
    requires i < |lint|
  {
    if ValueAt(lint, i) then flag.ValueFlag? && KindOf(lint[i - 1]) == Wants(flag.slot)
    else KindOf(lint[i]) == KindFor(flag)
  }

  predicate FlagOf(flags: Flags, flag: Flag) {
    match flag
    case ValueFlag(ManifestValue) => flags.manifest
    case ValueFlag(PackageValue) => flags.package
    case ValueFlag(LibraryValue) => flags.library
    case FixFlag => flags.fix
    case NoDepsFlag => flags.noDeps
  }

  lemma {:induction false} ValueAtPrefix(lint: seq<string>, more: seq<string>, i: nat)
    requires i < |lint|
    ensures ValueAt(lint + more, i) == ValueAt(lint, i)
  {
    hide KindOf;
    if i > 0 {
      ValueAtPrefix(lint, more, i - 1);
    }
  }

  lemma {:induction false} SlotMeans(lint: seq<string>)
    requires SEPARATOR !in lint
    ensures ScanArgs(START, lint).slot
         == if lint != [] && !ValueAt(lint, |lint| - 1) && KindOf(lint[|lint| - 1]).Wants?
            then Some(KindOf(lint[|lint| - 1]).slot) else None
    ensures !ScanArgs(START, lint).afterSeparator
  {
    hide KindOf, Note, Provide;
    if lint != [] {
      var front, last := lint[..|lint| - 1], lint[|lint| - 1];
      SlotMeans(front);
      assert lint == front + [last];
      if front != [] {
        ValueAtPrefix(front, [last], |front| - 1);
      }
    }
  }

  /** A flag is set exactly when some argument provides it; a dangling option or a swallowed flag does not. */
  lemma {:induction false} FlagsMean(lint: seq<string>, flag: Flag)
    requires SEPARATOR !in lint
    ensures FlagOf(LintFlags(lint), flag) <==> exists i :: 0 <= i < |lint| && ProvidesAt(lint, i, flag)
  {
    hide KindOf, ProvidesAt;
    if lint != [] {
      var front, last := lint[..|lint| - 1], lint[|lint| - 1];
      assert lint == front + [last];
      FlagsMean(front, flag);
      LastProvides(front, last, flag);
      forall i | 0 <= i < |front|
        ensures ProvidesAt(lint, i, flag) == ProvidesAt(front, i, flag)
      {
        ProvidesPrefix(front, [last], i, flag);
      }
      if exists i :: 0 <= i < |front| && ProvidesAt(front, i, flag) {
        var i :| 0 <= i < |front| && ProvidesAt(front, i, flag);
        assert ProvidesAt(lint, i, flag);
      }
    }
  }

  lemma ProvidesPrefix(lint: seq<string>, more: seq<string>, i: nat, flag: Flag)
    requires i < |lint|
    ensures ProvidesAt(lint + more, i, flag) == ProvidesAt(lint, i, flag)
  {
    hide KindOf;
    ValueAtPrefix(lint, more, i);
  }

  lemma TakeProvides(s: Scan, arg: string, flag: Flag)
    requires !s.afterSeparator && arg != SEPARATOR
    ensures FlagOf(Take(s, arg).parsed.flags, flag)
         == (FlagOf(s.parsed.flags, flag)
             || if s.slot.Some? then flag == ValueFlag(s.slot.value) else KindOf(arg) == KindFor(flag))
  {
    hide KindOf;
  }

  lemma LastProvides(front: seq<string>, last: string, flag: Flag)
    requires SEPARATOR !in front && last != SEPARATOR
    ensures FlagOf(LintFlags(front + [last]), flag)
         == (FlagOf(LintFlags(front), flag) || ProvidesAt(front + [last], |front|, flag))
  {
    hide KindOf, Take, FlagOf;
    var lint := front + [last];
    assert lint[..|front|] == front;
    SlotMeans(front);
    TakeProvides(ScanArgs(START, front), last, flag);
    if front != [] {
      ValueAtPrefix(front, [last], |front| - 1);
    }
  }

  // ------------------------------------------------------------ main results

  /** The parsed form of the rebuilt arguments. */
  function Rebuilt(p: Parsed, manifestPath: string): Parsed {
    Parsed(Defaults(p.flags, manifestPath) + p.lint, p.cargo + ExtraCargo(p),
           Or(LintFlags(Defaults(p.flags, manifestPath)), p.flags), AnyTarget(p.cargo + ExtraCargo(p)))
  }

  /** The defaults leave nothing awaited, so they cannot swallow the user's first argument. */
  lemma DefaultsScan(flags: Flags, manifestPath: string)
    requires manifestPath != SEPARATOR
    ensures SEPARATOR !in Defaults(flags, manifestPath)
    ensures ScanArgs(START, Defaults(flags, manifestPath)).slot.None?
    ensures var f := LintFlags(Defaults(flags, manifestPath));
            && f.manifest == !flags.manifest && f.package == !(flags.package || flags.manifest)
            && f.noDeps == !flags.noDeps && !f.library && !f.fix
  {
    var m, w, n := ManifestDefault(flags, manifestPath), WorkspaceDefault(flags), NoDepsDefault(flags);
    ScanAppend(START, m + w, n);
    ScanAppend(START, m, w);
    ScanManifest(flags, manifestPath);
    var s1 := ScanArgs(START, m);
    var s2 := ScanArgs(s1, w);
    if w != [] {
      ScanOne(s1, "--workspace");
    }
    if n != [] {
      ScanOne(s2, "--no-deps");
    }
  }

  lemma ScanManifest(flags: Flags, manifestPath: string)
    requires manifestPath != SEPARATOR
    ensures var s := ScanArgs(START, ManifestDefault(flags, manifestPath));
            && s.slot.None? && !s.afterSeparator
            && s.parsed.flags == NO_FLAGS.(manifest := !flags.manifest)
  {
    if !flags.manifest {
      assert ["--manifest-path", manifestPath] == ["--manifest-path"] + [manifestPath];
      ScanAppend(START, ["--manifest-path"], [manifestPath]);
      ScanOne(START, "--manifest-path");
      ScanOne(Take(START, "--manifest-path"), manifestPath);
    }
  }

  lemma FlagsOfDefaulted(lint: seq<string>, flags: Flags, manifestPath: string)
    requires manifestPath != SEPARATOR && SEPARATOR !in lint
    ensures SEPARATOR !in Defaults(flags, manifestPath) + lint
    ensures LintFlags(Defaults(flags, manifestPath) + lint)
         == Or(LintFlags(Defaults(flags, manifestPath)), LintFlags(lint))
  {
    hide Take, Defaults;
    var d := Defaults(flags, manifestPath);
    DefaultsScan(flags, manifestPath);
    ScanShifts([], NO_FLAGS, d);
    ScanAppend(START, d, lint);
    ScanShifts(d, LintFlags(d), lint);
  }

  /** Parsing the canonical form finds the user's arguments, in order, behind the defaults. */
  lemma ParseCanonical(argv: seq<string>, manifestPath: string)
    requires manifestPath != SEPARATOR
    ensures Parse(Canonical(argv, manifestPath)) == Rebuilt(Parse(argv), manifestPath)
  {
    hide ScanArgs, Defaults, AnyTarget, ExtraCargo, Tail;
    ParseFinds(argv);
    var p := Parse(argv);
    FlagsOfDefaulted(p.lint, p.flags, manifestPath);
    ParseSplit(Defaults(p.flags, manifestPath) + p.lint, p.cargo + ExtraCargo(p));
  }

  lemma RebuiltIsComplete(p: Parsed, manifestPath: string)
    requires manifestPath != SEPARATOR && p.target == AnyTarget(p.cargo)
    ensures var r := Rebuilt(p, manifestPath);
            Defaults(r.flags, manifestPath) == [] && ExtraCargo(r) == []
  {
    hide ScanArgs, LintFlags;
    DefaultsScan(p.flags, manifestPath);
    var cargo := p.cargo + ExtraCargo(p);
    if p.target {
      var i :| 0 <= i < |p.cargo| && SelectsTarget(p.cargo[i]);
      assert cargo[i] == p.cargo[i];
    } else if !p.flags.fix {
      assert SelectsTarget(cargo[|p.cargo|]);
    }
  }

  /** The exact condition for canonicalising twice to be canonicalising once. */
  lemma CanonicalIsIdempotent(argv: seq<string>, manifestPath: string)
    ensures Canonical(Canonical(argv, manifestPath), manifestPath) == Canonical(argv, manifestPath)
       <==> manifestPath != SEPARATOR || Parse(argv).flags.manifest
  {
    hide ScanArgs, Defaults, AnyTarget, ExtraCargo, Tail;
    ParseFinds(argv);
    var p := Parse(argv);
    if manifestPath != SEPARATOR {
      ParseCanonical(argv, manifestPath);
      RebuiltIsComplete(p, manifestPath);
      CompleteRebuild(p, manifestPath);
    } else if p.flags.manifest {
      // The path is not used: any other would give the same arguments.
      UnusedManifest(p.flags);
      ParseCanonical(argv, "Cargo.toml");
      RebuiltIsComplete(p, "Cargo.toml");
      CompleteRebuild(p, "Cargo.toml");
      UnusedManifest(Parse(Canonical(argv, "Cargo.toml")).flags);
    } else {
      SeparatorGrows(argv);
    }
  }

  lemma UnusedManifest(flags: Flags)
    requires flags.manifest
    ensures Defaults(flags, SEPARATOR) == Defaults(flags, "Cargo.toml")
  {
  }

  lemma CompleteRebuild(p: Parsed, manifestPath: string)
    requires var r := Rebuilt(p, manifestPath); Defaults(r.flags, manifestPath) == [] && ExtraCargo(r) == []
    ensures Build(Rebuilt(p, manifestPath), manifestPath) == Build(p, manifestPath)
    ensures Rebuilt(p, manifestPath).flags.manifest
  {
    hide Defaults, ExtraCargo, AnyTarget, LintFlags, Tail, Or;
    var r := Rebuilt(p, manifestPath);
    assert [] + r.lint == r.lint && r.cargo + [] == r.cargo;
    NoDefaultsMeansManifest(r.flags, manifestPath);
  }

  lemma NoDefaultsMeansManifest(flags: Flags, manifestPath: string)
    requires Defaults(flags, manifestPath) == []
    ensures flags.manifest
  {
    assert |ManifestDefault(flags, manifestPath)| <= |Defaults(flags, manifestPath)|;
  }

  /** With the separator itself as manifest path, the defaults move behind it and a new set is added. */
  lemma SeparatorGrows(argv: seq<string>)
    requires !Parse(argv).flags.manifest
    ensures |Canonical(Canonical(argv, SEPARATOR), SEPARATOR)| > |Canonical(argv, SEPARATOR)|
  {
    hide ScanArgs, AnyTarget;
    var p := Parse(argv);
    var once := Canonical(argv, SEPARATOR);
    var rest := WorkspaceDefault(p.flags) + NoDepsDefault(p.flags) + p.lint + Tail(p.cargo + ExtraCargo(p));
    assert once == ["--manifest-path", SEPARATOR] + rest;
    assert Before(once) == ["--manifest-path"] && AfterSeparator(once) == rest by {
      assert once[0] == "--manifest-path" && once[1..][0] == SEPARATOR;
      assert Before(once[1..]) == [];
      assert once[2..] == rest;
    }
    ParseFinds(once);
    DanglingManifest();
    var q := Parse(once);
    assert q.lint == ["--manifest-path"] && q.cargo == rest && !q.flags.manifest;
  }

  lemma DanglingManifest()
    ensures !LintFlags(["--manifest-path"]).manifest
  {
    ScanOne(START, "--manifest-path");
  }
}
