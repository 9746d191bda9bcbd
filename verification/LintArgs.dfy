/**
 Argument normalization of the lint wrapper (tools/argument-comment-lint/wrapper_common.py).
 The parsing loop is proved against a split at the first separator and a fold over the part
 before it; building is proved against one closed form.
 */
module LintArgs {
  datatype Pending = Nothing | ManifestPath | PackageSelection | LibrarySelection

  datatype Parsed = Parsed(lintArgs: seq<string>, cargoArgs: seq<string>, manifestPath: bool, packageSelection: bool,
                           noDeps: bool, librarySelection: bool, targetSelection: bool, fix: bool)

  predicate IsBareTarget(arg: string) {
    arg in {"--all-targets", "--lib", "--bins", "--tests", "--examples", "--benches", "--doc"}
  }

  predicate IsTargetWithValue(arg: string) {
    arg in {"--bin", "--test", "--example", "--bench"}
  }

  predicate HasTargetPrefix(arg: string) {
    "--bin=" <= arg || "--test=" <= arg || "--example=" <= arg || "--bench=" <= arg
  }

  predicate IsTarget(arg: string) {
    IsBareTarget(arg) || IsTargetWithValue(arg) || HasTargetPrefix(arg)
  }

  // ------------------------------------------------------------- what parsing means

  function Separator(argv: seq<string>): (n: nat)
    ensures n <= |argv| && "--" !in argv[..n] && (n < |argv| ==> argv[n] == "--")
  {
    if argv == [] || argv[0] == "--" then 0 else 1 + Separator(argv[1..])
  }

  function Lint(argv: seq<string>): seq<string> {
    argv[..Separator(argv)]
  }

  function Cargo(argv: seq<string>): seq<string> {
    if Separator(argv) < |argv| then argv[Separator(argv) + 1..] else []
  }

  datatype Flags = Flags(pending: Pending, manifestPath: bool, packageSelection: bool, noDeps: bool,
                         librarySelection: bool, fix: bool)

  const NO_FLAGS := Flags(Nothing, false, false, false, false, false)

  datatype Word =
    Opens(pending: Pending) | ManifestPathValue | SelectsPackage | SelectsLibrary | Fix | NoDeps | Other

  // How an argument reads where no value is pending.
  function WordOf(arg: string): Word {
    if arg == "--manifest-path" then Opens(ManifestPath)
    else if "--manifest-path=" <= arg then ManifestPathValue
    else if arg == "-p" || arg == "--package" then Opens(PackageSelection)
    else if "--package=" <= arg || arg == "--workspace" then SelectsPackage
    else if arg == "--fix" then Fix
    else if arg == "--no-deps" then NoDeps
    else if arg == "--lib" || arg == "--lib-path" then Opens(LibrarySelection)
    else if "--lib=" <= arg || "--lib-path=" <= arg then SelectsLibrary
    else Other
  }

  // A value that was pending is taken whatever it looks like.
  function Taken(p: Pending): Word {
    match p
    case ManifestPath => ManifestPathValue
    case PackageSelection => SelectsPackage
    case LibrarySelection => SelectsLibrary
    case Nothing => Other
  }

  function Apply(f: Flags, w: Word): Flags {
    Flags(if w.Opens? then w.pending else Nothing,
          f.manifestPath || w == ManifestPathValue, f.packageSelection || w == SelectsPackage, f.noDeps || w == NoDeps,
          f.librarySelection || w == SelectsLibrary, f.fix || w == Fix)
  }

  function Note(f: Flags, arg: string): Flags {
    Apply(f, if f.pending == Nothing then WordOf(arg) else Taken(f.pending))
  }

  function Noted(f: Flags, args: seq<string>): Flags {
    if args == [] then f else Note(Noted(f, args[..|args| - 1]), args[|args| - 1])
  }

  predicate SelectsTarget(args: seq<string>) {
    exists i :: 0 <= i < |args| && IsTarget(args[i])
  }

  function Parse(argv: seq<string>): Parsed {
    var f := Noted(NO_FLAGS, Lint(argv));
    Parsed(Lint(argv), Cargo(argv), f.manifestPath, f.packageSelection, f.noDeps, f.librarySelection,
           SelectsTarget(Cargo(argv)), f.fix)
  }

  // ------------------------------------------------------------- parsing and building

  class ParsedWrapperArgs {
    var lintArgs: seq<string>
    var cargoArgs: seq<string>
    var hasManifestPath: bool
    var hasPackageSelection: bool
    var hasNoDeps: bool
    var hasLibrarySelection: bool
    var hasCargoTargetSelection: bool
    var hasFix: bool

    constructor ()
      ensures Value() == Parsed([], [], false, false, false, false, false, false)
    {
      lintArgs, cargoArgs := [], [];
      hasManifestPath, hasPackageSelection, hasNoDeps := false, false, false;
      hasLibrarySelection, hasCargoTargetSelection, hasFix := false, false, false;
    }

    function Value(): Parsed
      reads this
    {
      Parsed(lintArgs, cargoArgs, hasManifestPath, hasPackageSelection, hasNoDeps, hasLibrarySelection,
             hasCargoTargetSelection, hasFix)
    }

    function FlagsWith(pending: Pending): Flags
      reads this
    {
      Flags(pending, hasManifestPath, hasPackageSelection, hasNoDeps, hasLibrarySelection, hasFix)
    }

    method TakeCargoArg(arg: string)
      modifies this`cargoArgs, this`hasCargoTargetSelection
      ensures cargoArgs == old(cargoArgs) + [arg]
      ensures hasCargoTargetSelection == (old(hasCargoTargetSelection) || IsTarget(arg))
    {
      hide IsBareTarget, IsTargetWithValue, HasTargetPrefix;
      cargoArgs := cargoArgs + [arg];
      if IsBareTarget(arg) || IsTargetWithValue(arg) {
        hasCargoTargetSelection := true;
      } else if HasTargetPrefix(arg) {
        hasCargoTargetSelection := true;
      }
    }

    method TakeValue(pending: Pending)
      requires pending != Nothing
      modifies this`hasManifestPath, this`hasPackageSelection, this`hasLibrarySelection
      ensures FlagsWith(Nothing) == Apply(old(FlagsWith(pending)), Taken(pending))
    {
      if pending == ManifestPath {
        hasManifestPath := true;
      } else if pending == PackageSelection {
        hasPackageSelection := true;
      } else if pending == LibrarySelection {
        hasLibrarySelection := true;
      }
    }

    method ReadFlag(arg: string) returns (pending: Pending)
      modifies this`hasManifestPath, this`hasPackageSelection, this`hasNoDeps, this`hasLibrarySelection, this`hasFix
      ensures FlagsWith(pending) == Apply(old(FlagsWith(Nothing)), WordOf(arg))
    {
      pending := Nothing;
      if arg == "--manifest-path" {
        pending := ManifestPath;
      } else if "--manifest-path=" <= arg {
        hasManifestPath := true;
      } else if arg == "-p" || arg == "--package" {
        pending := PackageSelection;
      } else if "--package=" <= arg {
        hasPackageSelection := true;
      } else if arg == "--fix" {
        hasFix := true;
      } else if arg == "--workspace" {
        hasPackageSelection := true;
      } else if arg == "--no-deps" {
        hasNoDeps := true;
      } else if arg == "--lib" || arg == "--lib-path" {
        pending := LibrarySelection;
      } else if "--lib=" <= arg || "--lib-path=" <= arg {
        hasLibrarySelection := true;
      }
    }
  }

  lemma SeparatorIs(argv: seq<string>, n: nat)
    requires n <= |argv| && "--" !in argv[..n] && (n < |argv| ==> argv[n] == "--")
    ensures Separator(argv) == n
  {
  }

  lemma SplitSnoc(a: seq<string>, x: string)
    ensures var b := a + [x];
      if "--" in a then Lint(b) == Lint(a) && Cargo(b) == Cargo(a) + [x]
      else Cargo(b) == [] && Lint(b) == if x == "--" then a else b
    ensures "--" !in a ==> Lint(a) == a && Cargo(a) == []
  {
    var n, b := Separator(a), a + [x];
    if "--" in a {
      assert n < |a|;
      assert b[..n] == a[..n];
      SeparatorIs(b, n);
      assert b[n + 1..] == a[n + 1..] + [x];
    } else {
      SeparatorIs(a, |a|);
      assert b[..|a|] == a;
      if x == "--" {
        SeparatorIs(b, |a|);
      } else {
        SeparatorIs(b, |b|);
      }
    }
  }

  lemma NotedSnoc(f: Flags, a: seq<string>, x: string)
    ensures Noted(f, a + [x]) == Note(Noted(f, a), x)
  {
    assert (a + [x])[..|a|] == a;
  }

  lemma SelectsSnoc(a: seq<string>, x: string)
    ensures SelectsTarget(a + [x]) <==> SelectsTarget(a) || IsTarget(x)
  {
    if SelectsTarget(a) {
      var i :| 0 <= i < |a| && IsTarget(a[i]);
      assert (a + [x])[i] == a[i];
    }
    assert (a + [x])[|a|] == x;
  }

  // One argument before the separator.
  lemma LintStep(a: seq<string>, x: string)
    requires "--" !in a && x != "--"
    ensures var f := Noted(NO_FLAGS, Lint(a));
      var g := Apply(f, if f.pending == Nothing then WordOf(x) else Taken(f.pending));
      && Noted(NO_FLAGS, Lint(a + [x])) == g
      && Parse(a + [x]) == Parsed(Parse(a).lintArgs + [x], Parse(a).cargoArgs, g.manifestPath, g.packageSelection,
                                  g.noDeps, g.librarySelection, Parse(a).targetSelection, g.fix)
  {
    hide WordOf, Taken, Apply;
    SplitSnoc(a, x);
    NotedSnoc(NO_FLAGS, a, x);
  }

  // One argument after it.
  lemma CargoStep(a: seq<string>, x: string)
    requires "--" in a
    ensures Lint(a + [x]) == Lint(a)
    ensures Parse(a + [x]) == Parse(a).(cargoArgs := Parse(a).cargoArgs + [x],
                                        targetSelection := Parse(a).targetSelection || IsTarget(x))
  {
    hide IsTarget;
    SplitSnoc(a, x);
    SelectsSnoc(Cargo(a), x);
  }

  lemma SeparatorStep(a: seq<string>)
    requires "--" !in a
    ensures Lint(a + ["--"]) == Lint(a) && Parse(a + ["--"]) == Parse(a)
  {
    SplitSnoc(a, "--");
  }

  method ParseWrapperArgs(argv: seq<string>) returns (parsed: ParsedWrapperArgs)
    ensures fresh(parsed) && parsed.Value() == Parse(argv)
  {
    hide Parse, Noted, Lint, IsTarget, WordOf, Taken, Apply;
    NothingParsed();
    parsed := new ParsedWrapperArgs();
    var afterSeparator, pending := false, Nothing;
    for i := 0 to |argv|
      invariant fresh(parsed)
      invariant afterSeparator <==> "--" in argv[..i]
      invariant parsed.Value() == Parse(argv[..i])
      invariant parsed.FlagsWith(pending) == Noted(NO_FLAGS, Lint(argv[..i]))
    {
      var arg := argv[i];
      assert argv[..i + 1] == argv[..i] + [arg];
      if afterSeparator {
        CargoStep(argv[..i], arg);
        parsed.TakeCargoArg(arg);
        continue;
      }
      if arg == "--" {
        SeparatorStep(argv[..i]);
        afterSeparator := true;
        continue;
      }
      LintStep(argv[..i], arg);
      parsed.lintArgs := parsed.lintArgs + [arg];
      if pending != Nothing {
        parsed.TakeValue(pending);
        pending := Nothing;
        continue;
      }
      pending := parsed.ReadFlag(arg);
    }
    assert argv[..|argv|] == argv;
  }

  lemma NothingParsed()
    ensures Parse([]) == Parsed([], [], false, false, false, false, false, false)
    ensures Noted(NO_FLAGS, Lint([])) == NO_FLAGS
  {
  }

  // What is put before the user's lint arguments, and after the user's cargo arguments.
  function Before(p: Parsed, path: string): seq<string> {
    (if p.manifestPath then [] else ["--manifest-path", path])
    + (if p.packageSelection || p.manifestPath then [] else ["--workspace"])
    + (if p.noDeps then [] else ["--no-deps"])
  }

  function After(p: Parsed): seq<string> {
    if p.fix || p.targetSelection then [] else ["--all-targets"]
  }

  function Joined(lint: seq<string>, cargo: seq<string>): seq<string> {
    if cargo == [] then lint else lint + (["--"] + cargo)
  }

  function Build(p: Parsed, path: string): seq<string> {
    Joined(Before(p, path) + p.lintArgs, p.cargoArgs + After(p))
  }

  method BuildFinalArgs(parsed: ParsedWrapperArgs, manifestPath: string) returns (finalArgs: seq<string>)
    ensures finalArgs == Build(parsed.Value(), manifestPath)
  {
    finalArgs := [];
    var cargoArgs := parsed.cargoArgs;
    if !parsed.hasManifestPath {
      finalArgs := finalArgs + ["--manifest-path", manifestPath];
    }
    if !parsed.hasPackageSelection && !parsed.hasManifestPath {
      finalArgs := finalArgs + ["--workspace"];
    }
    if !parsed.hasNoDeps {
      finalArgs := finalArgs + ["--no-deps"];
    }
    if !parsed.hasFix && !parsed.hasCargoTargetSelection {
      cargoArgs := cargoArgs + ["--all-targets"];
    }
    assert finalArgs == Before(parsed.Value(), manifestPath);
    assert cargoArgs == parsed.cargoArgs + After(parsed.Value());
    finalArgs := finalArgs + parsed.lintArgs;
    if cargoArgs != [] {
      finalArgs := finalArgs + (["--"] + cargoArgs);
    }
  }

  // What the wrapper passes on.
  function Normalized(argv: seq<string>, path: string): seq<string> {
    Build(Parse(argv), path)
  }

  // ------------------------------------------------------------- idempotence

  lemma SplitJoined(lint: seq<string>, cargo: seq<string>)
    requires "--" !in lint
    ensures Lint(Joined(lint, cargo)) == lint && Cargo(Joined(lint, cargo)) == cargo
  {
    var a := Joined(lint, cargo);
    assert a[..|lint|] == lint;
    SeparatorIs(a, |lint|);
    if cargo != [] {
      assert a[|lint| + 1..] == cargo;
    }
  }

  function Either(f: Flags, g: Flags): Flags {
    Flags(g.pending, f.manifestPath || g.manifestPath, f.packageSelection || g.packageSelection, f.noDeps || g.noDeps,
          f.librarySelection || g.librarySelection, f.fix || g.fix)
  }

  // Flags only accumulate: what was noted before does not change what the rest notes.
  lemma {:induction false} NotedAfter(f: Flags, a: seq<string>, b: seq<string>)
    requires Noted(f, a).pending == Nothing
    ensures Noted(f, a + b) == Either(Noted(f, a), Noted(NO_FLAGS, b))
  {
    if b == [] {
      assert a + b == a;
    } else {
      var c, x := b[..|b| - 1], b[|b| - 1];
      NotedAfter(f, a, c);
      assert (a + b)[..|a + b| - 1] == a + c;
      NoteEither(Noted(f, a), Noted(NO_FLAGS, c), x);
    }
  }

  lemma NoteEither(f: Flags, g: Flags, x: string)
    ensures Note(Either(f, g), x) == Either(f, Note(g, x))
  {
    hide WordOf, Apply;
    ApplyEither(f, g, if g.pending == Nothing then WordOf(x) else Taken(g.pending));
  }

  lemma ApplyEither(f: Flags, g: Flags, w: Word)
    ensures Apply(Either(f, g), w) == Either(f, Apply(g, w))
  {
  }

  lemma NotedOne(f: Flags, x: string)
    ensures Noted(f, [x]) == Note(f, x)
  {
    assert [x][..0] == [];
  }

  lemma NotedPath(path: string)
    ensures Noted(NO_FLAGS, ["--manifest-path", path]) == NO_FLAGS.(manifestPath := true)
  {
    NotedOne(NO_FLAGS, "--manifest-path");
    NotedSnoc(NO_FLAGS, ["--manifest-path"], path);
    assert ["--manifest-path"] + [path] == ["--manifest-path", path];
  }

  // The arguments put in front set exactly the flags they stand for, and leave no value open.
  lemma NotedBefore(p: Parsed, path: string)
    ensures Noted(NO_FLAGS, Before(p, path))
      == Flags(Nothing, !p.manifestPath, !p.packageSelection && !p.manifestPath, !p.noDeps, false, false)
  {
    hide Noted;
    var a := if p.manifestPath then [] else ["--manifest-path", path];
    var b := if p.packageSelection || p.manifestPath then [] else ["--workspace"];
    var c := if p.noDeps then [] else ["--no-deps"];
    NotedPath(path);
    NotedNone(NO_FLAGS);
    NotedOne(NO_FLAGS, "--workspace");
    NotedOne(NO_FLAGS, "--no-deps");
    NotedAfter(NO_FLAGS, a, b);
    NotedAfter(NO_FLAGS, a + b, c);
  }

  lemma NotedNone(f: Flags)
    ensures Noted(f, []) == f
  {
  }

  lemma BeforeHasNoSeparator(p: Parsed, path: string)
    requires path != "--" || p.manifestPath
    ensures "--" !in Before(p, path)
  {
  }

  lemma LintHasNoSeparator(argv: seq<string>)
    ensures "--" !in Lint(argv)
  {
  }

  lemma SelectsAfter(cargo: seq<string>, p: Parsed)
    ensures SelectsTarget(cargo + After(p)) <==> SelectsTarget(cargo) || !(p.fix || p.targetSelection)
  {
    if p.fix || p.targetSelection {
      assert cargo + After(p) == cargo;
    } else {
      SelectsSnoc(cargo, "--all-targets");
      assert IsTarget("--all-targets");
    }
  }

  // What parsing finds in a normalized argument list.
  lemma ParseNormalized(argv: seq<string>, path: string)
    requires path != "--" || Parse(argv).manifestPath
    ensures var p, q := Parse(argv), Parse(Normalized(argv, path));
      && q.lintArgs == Before(p, path) + p.lintArgs
      && q.cargoArgs == p.cargoArgs + After(p)
      && q.manifestPath && q.noDeps
      && (q.packageSelection <==> p.packageSelection || !p.manifestPath)
      && q.librarySelection == p.librarySelection && q.fix == p.fix
      && (q.targetSelection <==> p.targetSelection || !p.fix)
  {
    hide Noted, Lint, Cargo, SelectsTarget, Joined, Before, After;
    var p := Parse(argv);
    BeforeHasNoSeparator(p, path);
    LintHasNoSeparator(argv);
    SplitJoined(Before(p, path) + p.lintArgs, p.cargoArgs + After(p));
    NotedBefore(p, path);
    NotedAfter(NO_FLAGS, Before(p, path), p.lintArgs);
    SelectsAfter(p.cargoArgs, p);
  }

  lemma IdempotentWhen(argv: seq<string>, path: string)
    requires path != "--" || Parse(argv).manifestPath
    ensures Normalized(Normalized(argv, path), path) == Normalized(argv, path)
  {
    hide Parse, Joined;
    var q := Parse(Normalized(argv, path));
    ParseNormalized(argv, path);
    assert Before(q, path) == [] && After(q) == [];
    assert [] + q.lintArgs == q.lintArgs && q.cargoArgs + [] == q.cargoArgs;
  }

  // With "--" for a path the path itself is taken for the separator, and every pass adds to the list.
  lemma GrowsWithSeparatorPath(argv: seq<string>)
    requires !Parse(argv).manifestPath
    ensures |Normalized(Normalized(argv, "--"), "--")| > |Normalized(argv, "--")|
  {
    hide Parse;
    var n := Normalized(argv, "--");
    var q := Parse(n);
    SeparatorPathParse(argv);
    assert |Before(q, "--")| == 4;
  }

  lemma SeparatorPathParse(argv: seq<string>)
    requires !Parse(argv).manifestPath
    ensures var n := Normalized(argv, "--");
      var q := Parse(n);
      |n| >= 2 && q.lintArgs == ["--manifest-path"] && q.cargoArgs == n[2..]
      && !q.manifestPath && !q.packageSelection && !q.noDeps && !q.fix
  {
    hide Noted, SelectsTarget;
    var n := Normalized(argv, "--");
    assert n[0] == "--manifest-path" && n[1] == "--";
    assert n[..1] == ["--manifest-path"];
    SeparatorIs(n, 1);
    NotedOne(NO_FLAGS, "--manifest-path");
  }

  // Normalizing again changes nothing, except for one path value.
  lemma IdempotentIff(argv: seq<string>, path: string)
    ensures Normalized(Normalized(argv, path), path) == Normalized(argv, path)
      <==> path != "--" || Parse(argv).manifestPath
  {
    hide Normalized, Parse;
    if path != "--" || Parse(argv).manifestPath {
      IdempotentWhen(argv, path);
    } else {
      GrowsWithSeparatorPath(argv);
    }
  }

  // Where a run of arguments stands in a list.
  ghost predicate StandsAt(run: seq<string>, args: seq<string>, k: nat) {
    k + |run| <= |args| && args[k..k + |run|] == run
  }

  // The user's lint and cargo arguments stay whole and in order, whatever the path.
  lemma UserArgumentsInOrder(argv: seq<string>, path: string)
    ensures var n := Normalized(argv, path);
      exists k: nat, m: nat :: StandsAt(Lint(argv), n, k) && k + |Lint(argv)| <= m && StandsAt(Cargo(argv), n, m)
  {
    hide Noted, SelectsTarget, Lint, Cargo, Before, After;
    var p, n := Parse(argv), Normalized(argv, path);
    var before, tail := Before(p, path), Cargo(argv) + After(p);
    var k := |before|;
    var m := k + |Lint(argv)| + if tail == [] then 0 else 1;
    assert n == before + Lint(argv) + if tail == [] then [] else ["--"] + tail;
    assert StandsAt(Lint(argv), n, k);
    assert StandsAt(Cargo(argv), n, m);
  }

  predicate AllAdded(args: seq<string>, path: string) {
    forall x :: x in args ==> x in {"--manifest-path", path, "--workspace", "--no-deps"}
  }

  // And the parser reads them so: the lint arguments it finds end in the user's, the
  // cargo arguments begin with the user's, and all the rest is what the wrapper adds.
  lemma UserArgumentsSurvive(argv: seq<string>, path: string)
    requires path != "--" || Parse(argv).manifestPath
    ensures var n := Normalized(argv, path);
      && |Lint(argv)| <= |Lint(n)| && Lint(n)[|Lint(n)| - |Lint(argv)|..] == Lint(argv)
      && AllAdded(Lint(n)[..|Lint(n)| - |Lint(argv)|], path)
      && Cargo(argv) <= Cargo(n) && Cargo(n)[|Cargo(argv)|..] in {[], ["--all-targets"]}
  {
    hide Noted, SelectsTarget, Lint, Cargo, Normalized;
    ParseNormalized(argv, path);
  }

  lemma ArgvSplits(argv: seq<string>)
    ensures argv == Lint(argv) + (if "--" in argv then ["--"] + Cargo(argv) else [])
  {
    var i := Separator(argv);
    if i < |argv| {
      assert argv == argv[..i] + ([argv[i]] + argv[i + 1..]);
    }
  }

  ghost predicate IsNormal(argv: seq<string>) {
    var p := Parse(argv);
    p.manifestPath && p.noDeps && (p.fix || p.targetSelection) && ("--" in argv ==> p.cargoArgs != [])
  }

  lemma NormalIsFixed(argv: seq<string>, path: string)
    requires IsNormal(argv)
    ensures Normalized(argv, path) == argv
  {
    hide Noted, SelectsTarget, Lint, Cargo;
    ArgvSplits(argv);
    var p := Parse(argv);
    assert Before(p, path) == [] && After(p) == [];
    assert [] + p.lintArgs == p.lintArgs && p.cargoArgs + [] == p.cargoArgs;
    if "--" !in argv {
      SplitSnoc(argv, "");
    }
  }

  lemma FixedIsNormal(argv: seq<string>, path: string)
    requires Normalized(argv, path) == argv
    ensures IsNormal(argv)
  {
    hide Normalized, Parse;
    IdempotentIff(argv, path);
    ParseNormalized(argv, path);
    SeparatorNeeded(argv, path);
  }

  lemma SeparatorNeeded(argv: seq<string>, path: string)
    requires Normalized(argv, path) == argv && (path != "--" || Parse(argv).manifestPath)
    ensures "--" in argv ==> Parse(argv).cargoArgs != []
  {
    hide Noted, SelectsTarget, Lint, Cargo, Before;
    BeforeHasNoSeparator(Parse(argv), path);
    LintHasNoSeparator(argv);
    ParseNormalized(argv, path);
  }

  // The argument lists that are left alone.
  lemma FixedIff(argv: seq<string>, path: string)
    ensures var p := Parse(argv);
      Normalized(argv, path) == argv
      <==> p.manifestPath && p.noDeps && (p.fix || p.targetSelection) && ("--" in argv ==> p.cargoArgs != [])
  {
    hide Normalized, Parse;
    if IsNormal(argv) {
      NormalIsFixed(argv, path);
    } else if Normalized(argv, path) == argv {
      FixedIsNormal(argv, path);
    }
  }
}
