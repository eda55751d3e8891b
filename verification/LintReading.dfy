/**
 What the lint wrapper's arguments say, read off the arguments themselves,
 and the arguments that come of it, written out.
 */
module LintReading {
  import opened LintArguments

  // ---------------------------------------------------------------- reading

  predicate TakesValue(arg: string) {
    arg == "--manifest-path" || arg == "-p" || arg == "--package" || arg == "--lib" || arg == "--lib-path"
  }

  /** The argument is the value of the option in front of it, which is not a value itself. */
  predicate IsValue(lint: seq<string>, i: nat)
    requires i < |lint|
  {
    i > 0 && TakesValue(lint[i - 1]) && !IsValue(lint, i - 1)
  }

  predicate ManifestAt(lint: seq<string>, i: nat) {
    i < |lint| && if IsValue(lint, i) then lint[i - 1] == "--manifest-path" else "--manifest-path=" <= lint[i]
  }

  predicate PackageAt(lint: seq<string>, i: nat) {
    && i < |lint|
    && if IsValue(lint, i) then lint[i - 1] == "-p" || lint[i - 1] == "--package"
       else "--package=" <= lint[i] || lint[i] == "--workspace"
  }

  predicate LibraryAt(lint: seq<string>, i: nat) {
    && i < |lint|
    && if IsValue(lint, i) then lint[i - 1] == "--lib" || lint[i - 1] == "--lib-path"
       else "--lib=" <= lint[i] || "--lib-path=" <= lint[i]
  }

  predicate NoDepsAt(lint: seq<string>, i: nat) {
    i < |lint| && !IsValue(lint, i) && lint[i] == "--no-deps"
  }

  predicate FixAt(lint: seq<string>, i: nat) {
    i < |lint| && !IsValue(lint, i) && lint[i] == "--fix"
  }

  /** Whether an argument sets a flag, read off the argument and the one in front of it. */
  predicate SaidAt(lint: seq<string>, i: nat, flag: Flag) {
    match flag
    case ValueFlag(ManifestValue) => ManifestAt(lint, i)
    case ValueFlag(PackageValue) => PackageAt(lint, i)
    case ValueFlag(LibraryValue) => LibraryAt(lint, i)
    case FixFlag => FixAt(lint, i)
    case NoDepsFlag => NoDepsAt(lint, i)
  }

  predicate SaidIn(lint: seq<string>, flag: Flag) {
    exists i :: 0 <= i < |lint| && SaidAt(lint, i, flag)
  }

  /** What the arguments say by themselves. */
  function Said(lint: seq<string>): Flags {
    Flags(SaidIn(lint, ValueFlag(ManifestValue)), SaidIn(lint, ValueFlag(PackageValue)), SaidIn(lint, NoDepsFlag),
          SaidIn(lint, ValueFlag(LibraryValue)), SaidIn(lint, FixFlag))
  }

  /** The cargo options that take the name of one target. */
  const NAMED := ["--bin", "--test", "--example", "--bench"]

  predicate IsTarget(arg: string) {
    || arg == "--all-targets" || arg == "--lib" || arg == "--bins" || arg == "--tests" || arg == "--examples"
    || arg == "--benches" || arg == "--doc"
    || exists i :: 0 <= i < |NAMED| && (arg == NAMED[i] || NAMED[i] + "=" <= arg)
  }

  predicate SaysTarget(cargo: seq<string>) {
    exists i :: 0 <= i < |cargo| && IsTarget(cargo[i])
  }

  // ------------------------------------------------------------------ tables

  /** Options with a value inline differ from each other and from those without. */
  lemma InlineDiffers(arg: string)
    ensures "--manifest-path=" <= arg ==> |arg| > 15 && arg[2] == 'm'
    ensures "--package=" <= arg ==> |arg| > 9 && arg[2] == 'p' && arg[9] == '='
    ensures "--lib=" <= arg ==> |arg| > 5 && arg[2] == 'l' && arg[5] == '='
    ensures "--lib-path=" <= arg ==> |arg| > 10 && arg[2] == 'l' && arg[5] == '-'
  {
  }

  lemma WantsReads(arg: string)
    ensures KindOf(arg).Wants? <==> TakesValue(arg)
    ensures KindOf(arg) == Wants(ManifestValue) <==> arg == "--manifest-path"
    ensures KindOf(arg) == Wants(PackageValue) <==> arg == "-p" || arg == "--package"
    ensures KindOf(arg) == Wants(LibraryValue) <==> arg == "--lib" || arg == "--lib-path"
  {
    InlineDiffers(arg);
  }

  lemma GivesReads(arg: string)
    ensures KindOf(arg) == Gives(ManifestValue) <==> "--manifest-path=" <= arg
    ensures KindOf(arg) == Gives(PackageValue) <==> "--package=" <= arg || arg == "--workspace"
    ensures KindOf(arg) == Gives(LibraryValue) <==> "--lib=" <= arg || "--lib-path=" <= arg
    ensures KindOf(arg) == Fix <==> arg == "--fix"
    ensures KindOf(arg) == NoDeps <==> arg == "--no-deps"
  {
    InlineDiffers(arg);
  }

  lemma TargetReads(arg: string)
    ensures SelectsTarget(arg) <==> IsTarget(arg)
  {
    assert NAMED[0] + "=" == "--bin=" && NAMED[1] + "=" == "--test=";
    assert NAMED[2] + "=" == "--example=" && NAMED[3] + "=" == "--bench=";
  }

  // ------------------------------------------------------------------- flags

  lemma {:induction false} ValueReads(lint: seq<string>, i: nat)
    requires i < |lint|
    ensures ValueAt(lint, i) <==> IsValue(lint, i)
  {
    hide KindOf, TakesValue;
    if i > 0 {
      WantsReads(lint[i - 1]);
      ValueReads(lint, i - 1);
    }
  }

  lemma ProvidesReads(lint: seq<string>, i: nat, flag: Flag)
    requires i < |lint|
    ensures ProvidesAt(lint, i, flag) <==> SaidAt(lint, i, flag)
  {
    hide KindOf, TakesValue, ValueAt, IsValue;
    ValueReads(lint, i);
    GivesReads(lint[i]);
    if i > 0 {
      WantsReads(lint[i - 1]);
    } else {
      FirstIsNoValue(lint);
    }
  }

  lemma FirstIsNoValue(lint: seq<string>)
    requires lint != []
    ensures !ValueAt(lint, 0)
  {
  }

  lemma FlagReads(lint: seq<string>, flag: Flag)
    requires SEPARATOR !in lint
    ensures FlagOf(LintFlags(lint), flag) <==> SaidIn(lint, flag)
  {
    hide ProvidesAt, SaidAt, LintFlags, FlagOf;
    FlagsMean(lint, flag);
    forall i | 0 <= i < |lint| ensures ProvidesAt(lint, i, flag) <==> SaidAt(lint, i, flag) {
      ProvidesReads(lint, i, flag);
    }
  }

  /** The flags that parsing finds are what the arguments say. */
  lemma FlagsRead(lint: seq<string>)
    requires SEPARATOR !in lint
    ensures LintFlags(lint) == Said(lint)
  {
    hide LintFlags, SaidIn;
    FlagReads(lint, ValueFlag(ManifestValue));
    FlagReads(lint, ValueFlag(PackageValue));
    FlagReads(lint, ValueFlag(LibraryValue));
    FlagReads(lint, FixFlag);
    FlagReads(lint, NoDepsFlag);
  }

  lemma TargetsRead(cargo: seq<string>)
    ensures AnyTarget(cargo) <==> SaysTarget(cargo)
  {
    hide SelectsTarget, IsTarget;
    forall arg ensures SelectsTarget(arg) <==> IsTarget(arg) {
      TargetReads(arg);
    }
  }

  /** What parsing finds, without the parser. */
  lemma ParseReads(argv: seq<string>)
    ensures Parse(argv)
         == Parsed(Before(argv), AfterSeparator(argv), Said(Before(argv)), SaysTarget(AfterSeparator(argv)))
  {
    hide ScanArgs, AnyTarget, SaysTarget, LintFlags, Said;
    ParseFinds(argv);
    FlagsRead(Before(argv));
    TargetsRead(AfterSeparator(argv));
  }

  // --------------------------------------------------------------- the result

  /** The arguments for cargo, with every target unless some are chosen or fixes are asked for. */
  function CargoArguments(cargo: seq<string>, said: Flags): seq<string> {
    if said.fix || SaysTarget(cargo) then cargo else cargo + ["--all-targets"]
  }

  /** The canonical arguments, written out. */
  function WrittenOut(lint: seq<string>, cargo: seq<string>, manifestPath: string): seq<string> {
    var said := Said(lint);
    (if said.manifest then [] else ["--manifest-path", manifestPath])
    + (if said.manifest || said.package then [] else ["--workspace"])
    + (if said.noDeps then [] else ["--no-deps"])
    + lint
    + (var rest := CargoArguments(cargo, said); if rest == [] then [] else ["--"] + rest)
  }

  /** Each default is added exactly when the arguments do not say otherwise, and nothing is changed or moved. */
  lemma CanonicalIsWrittenOut(argv: seq<string>, manifestPath: string)
    ensures Canonical(argv, manifestPath) == WrittenOut(Before(argv), AfterSeparator(argv), manifestPath)
  {
    hide Parse, Said, SaysTarget;
    ParseReads(argv);
    var p := Parse(argv);
    assert p.cargo + ExtraCargo(p) == CargoArguments(p.cargo, p.flags);
  }
}
