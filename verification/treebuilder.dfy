/**
 `syntaxTree`: parses the directory, picks the package named `main` or else
 the one named after the directory, and merges its files into one
 declaration list.
 */
module TreeBuilder {
  import opened Outcomes
  import opened GoSyntax
  import opened Host

  const MainPackage: string := "main"

  /**
   The package to read: `main` when present, else the one named `pkgName`
   (the base name of `pkgDir`), else an error naming both.
   */
  function SelectPackage(packages: map<string, Package>, pkgDir: string, pkgName: string): (r: Result<Package>)
    ensures r.Ok? <==> MainPackage in packages || pkgName in packages
    ensures MainPackage in packages ==> r == Ok(packages[MainPackage])
    ensures r.Ok? && MainPackage !in packages ==> r.value == packages[pkgName]
    ensures !r.Ok? ==> r == Err(PackageNotFound(pkgName, pkgDir))
  {
    if MainPackage in packages then Ok(packages[MainPackage])
    else if pkgName in packages then Ok(packages[pkgName])
    else Err(PackageNotFound(pkgName, pkgDir))
  }

  /** No package other than `main` and `pkgName` is ever looked at: changing it changes nothing. */
  lemma OtherPackagesIgnored(packages: map<string, Package>, pkgDir: string, pkgName: string, k: string, p: Package)
    requires k != MainPackage && k != pkgName
    ensures SelectPackage(packages[k := p], pkgDir, pkgName) == SelectPackage(packages, pkgDir, pkgName)
    ensures SelectPackage(packages - {k}, pkgDir, pkgName) == SelectPackage(packages, pkgDir, pkgName)
  {
  }

  function SyntaxTree(host: Host, pkgDir: string): (r: Result<seq<Decl>>)
    // a parse failure is returned with its own text
    ensures host.parseDir(pkgDir).Failed? ==> r == Err(ParseError(host.parseDir(pkgDir).msg))
    // otherwise the tree exists exactly when package main or the directory's package exists ...
    ensures host.parseDir(pkgDir).Done? ==>
              (r.Ok? <==> MainPackage in host.parseDir(pkgDir).value
                          || host.base(pkgDir) in host.parseDir(pkgDir).value)
    // ... and it is the merge of that package
    ensures r.Ok? ==> host.parseDir(pkgDir).Done?
    ensures r.Ok? ==> var pkgs := host.parseDir(pkgDir).value;
              r.value == host.merge(if MainPackage in pkgs then pkgs[MainPackage] else pkgs[host.base(pkgDir)])
    // ... and when neither exists the error names the base name and the directory
    ensures host.parseDir(pkgDir).Done? && !r.Ok? ==> r == Err(PackageNotFound(host.base(pkgDir), pkgDir))
    // building the tree never panics
    ensures !r.Panic?
  {
    match host.parseDir(pkgDir)
    case Failed(msg) => Err(ParseError(msg))
    case Done(packages) =>
      var pkgAst :- SelectPackage(packages, pkgDir, host.base(pkgDir));
      Ok(host.merge(pkgAst))
  }
}
