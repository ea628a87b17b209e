/**
 `GetVersion` chains the three stages; `run` is the command-line behaviour:
 the exit code and the text written to standard output and standard error.
 */
module Gover {
  import opened Outcomes
  import opened GoSyntax
  import opened GoStrings
  import opened Host
  import opened Locator
  import opened TreeBuilder
  import opened Extractor

  /** gover's own version, printed by `-v`. */
  const GoverVersion: string := "0.1.2"

  const Usage: string := "usage: gover <package>"

  /**
   Locate, then build the tree, then extract. The first failing stage's
   outcome is returned unchanged and no later stage is run.
   */
  function GetVersion(host: Host, pkg: string): (r: Result<string>)
    ensures PackageDir(host, pkg).IsFailure() ==> r == PackageDir(host, pkg).PropagateFailure()
    ensures PackageDir(host, pkg).Ok? && SyntaxTree(host, PackageDir(host, pkg).value).IsFailure()
            ==> r == SyntaxTree(host, PackageDir(host, pkg).value).PropagateFailure()
    ensures r.Ok? ==> PackageDir(host, pkg).Ok? && SyntaxTree(host, PackageDir(host, pkg).value).Ok?
    ensures r.Ok? ==> Unfringed(r.value, Quote)
  {
    var pkgDir :- PackageDir(host, pkg);
    var tree :- SyntaxTree(host, pkgDir);
    FoundVersionUnquoted(tree);
    VersionFromAST(tree)
  }

  /** A failed lookup never consults the parser, the base-name function or the merger. */
  lemma LocateFailureStopsPipeline(host: Host, pkg: string, parseDir: string -> Fallible<map<string, Package>>,
                                   base: string -> string, merge: Package -> seq<Decl>)
    requires PackageDir(host, pkg).IsFailure()
    ensures GetVersion(host.(parseDir := parseDir, base := base, merge := merge), pkg) == GetVersion(host, pkg)
  {
  }

  /**
   End to end: when both stages succeed, the version is the trimmed text of
   the first Version literal of the merged package; a non-literal first
   Version is an error whatever follows, and a first Version without a value
   panics.
   */
  lemma GetVersionFindsFirstBinding(host: Host, pkg: string, dir: string, tree: seq<Decl>, k: nat)
    requires PackageDir(host, pkg) == Ok(dir) && SyntaxTree(host, dir) == Ok(tree)
    requires IsFirstVersion(Bindings(tree), k)
    ensures Bindings(tree)[k].slot.Bound? && Bindings(tree)[k].slot.expr.BasicLit? ==>
              GetVersion(host, pkg) == Ok(Trim(Bindings(tree)[k].slot.expr.value, Quote))
    ensures Bindings(tree)[k].slot == Bound(OtherExpr) ==> GetVersion(host, pkg) == Err(NotBasicLiteral)
    ensures Bindings(tree)[k].slot.Missing? ==>
              GetVersion(host, pkg) == Panic(Bindings(tree)[k].slot.index, Bindings(tree)[k].slot.length)
  {
    FirstVersionDecides(tree, k);
  }

  /** A tree with no top-level value binding named Version yields "no Version declaration found". */
  lemma GetVersionNoDeclaration(host: Host, pkg: string, dir: string, tree: seq<Decl>)
    requires PackageDir(host, pkg) == Ok(dir) && SyntaxTree(host, dir) == Ok(tree)
    requires NoVersion(Bindings(tree))
    ensures GetVersion(host, pkg) == Err(NoVersionDeclaration)
  {
    NoDeclarationIffNoBinding(tree);
  }

  /** What the process does: an exit, or a crash on the unchecked index. */
  datatype Outcome =
    | Exit(code: int, stdout: string, stderr: string)
    | Crash(index: nat, length: nat)

  /**
   `run` after flag parsing: `showVersion` is `-v`, `args` the positional
   arguments. Each `Fprintln` ends its line with a newline.
   */
  function Run(host: Host, showVersion: bool, args: seq<string>): (r: Outcome)
    // -v answers with gover's own version and succeeds
    ensures showVersion ==> r == Exit(0, "gover version " + GoverVersion + "\n", "")
    // without a package reference: usage on stderr, exit 1
    ensures !showVersion && |args| == 0 ==> r == Exit(1, "", Usage + "\n")
    // exit 0 exactly when -v is given or the lookup succeeds, exit 2 exactly when it fails
    ensures r.Exit? && r.code == 0 <==> showVersion || (|args| > 0 && GetVersion(host, args[0]).Ok?)
    ensures r.Exit? && r.code == 2 <==> !showVersion && |args| > 0 && GetVersion(host, args[0]).Err?
    ensures r.Crash? <==> !showVersion && |args| > 0 && GetVersion(host, args[0]).Panic?
    // success writes only to stdout, failure only to stderr
    ensures r.Exit? ==> (r.code == 0 <==> r.stderr == []) && (r.code == 0 <==> r.stdout != [])
    // on a successful lookup stdout is the version, on a failed one stderr is the error
    ensures r.Exit? && r.code == 0 && !showVersion ==> r.stdout == GetVersion(host, args[0]).value + "\n"
    ensures r.Exit? && r.code == 2 ==> r.stderr == "gover: " + Message(GetVersion(host, args[0]).error) + "\n"
  {
    if showVersion then
      Exit(0, "gover version " + GoverVersion + "\n", "")
    else if |args| < 1 then
      Exit(1, "", Usage + "\n")
    else
      match GetVersion(host, args[0])
      case Err(e) => Exit(2, "", "gover: " + Message(e) + "\n")
      case Panic(i, n) => Crash(i, n)
      case Ok(ver) => Exit(0, ver + "\n", "")
  }

  /** `-v` never looks at the host or at the arguments. */
  lemma VersionFlagIgnoresPipeline(h1: Host, h2: Host, args1: seq<string>, args2: seq<string>)
    ensures Run(h1, true, args1) == Run(h2, true, args2)
  {
  }

  /** Only the first positional argument is used. */
  lemma OnlyFirstArgument(host: Host, showVersion: bool, args: seq<string>)
    requires |args| > 0
    ensures Run(host, showVersion, args) == Run(host, showVersion, args[..1])
  {
  }

  /**
   A failed lookup of the directory ends with exit code 2 and the library's
   error text: the stat error for a path that does not exist, on either
   branch, or the error of Abs for a `.` reference.
   */
  lemma MissingPackageExitsTwo(host: Host, pkg: string)
    ensures !IsRelative(pkg) && host.stat(GopathDir(host, pkg)).Some? ==>
              Run(host, false, [pkg]) == Exit(2, "", "gover: " + host.stat(GopathDir(host, pkg)).value + "\n")
    ensures IsRelative(pkg) && host.abs(pkg).Done? && host.stat(host.abs(pkg).value).Some? ==>
              Run(host, false, [pkg]) == Exit(2, "", "gover: " + host.stat(host.abs(pkg).value).value + "\n")
    ensures IsRelative(pkg) && host.abs(pkg).Failed? ==>
              Run(host, false, [pkg]) == Exit(2, "", "gover: " + host.abs(pkg).msg + "\n")
  {
  }

  /**
   A directory that holds neither package `main` nor the package named after
   it ends with exit code 2 and an error naming both.
   */
  lemma NoPackageExitsTwo(host: Host, pkg: string, dir: string)
    requires PackageDir(host, pkg) == Ok(dir) && host.parseDir(dir).Done?
    requires MainPackage !in host.parseDir(dir).value && host.base(dir) !in host.parseDir(dir).value
    ensures Run(host, false, [pkg])
            == Exit(2, "", "gover: cannot find package main or " + host.base(dir) + " in " + dir + "\n")
  {
    var e := PackageNotFound(host.base(dir), dir);
    assert SyntaxTree(host, dir) == Err(e);
    assert GetVersion(host, pkg) == Err(e);
    assert Run(host, false, [pkg]) == Exit(2, "", "gover: " + Message(e) + "\n");
    assert "gover: " + "cannot find package main or " == "gover: cannot find package main or ";
  }

  /**
   The process crashes only on the unchecked index: the located and parsed
   package's first Version binding has no value, and the crash reports that
   binding's position and the number of values in its spec.
   */
  lemma CrashOnlyOnMissingValue(host: Host, pkg: string) returns (dir: string, tree: seq<Decl>, k: nat)
    requires Run(host, false, [pkg]).Crash?
    ensures PackageDir(host, pkg) == Ok(dir) && SyntaxTree(host, dir) == Ok(tree)
    ensures IsFirstVersion(Bindings(tree), k)
    ensures Bindings(tree)[k].slot == Missing(Run(host, false, [pkg]).index, Run(host, false, [pkg]).length)
  {
    dir := PackageDir(host, pkg).value;
    tree := SyntaxTree(host, dir).value;
    k := PanicOnlyAtFirstVersion(tree);
  }
}
