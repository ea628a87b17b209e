/**
 `packageDir`: turns a package reference into the directory to parse. A
 reference starting with `.` is a file-system path made absolute against the
 working directory; anything else is an import path under `$GOPATH/src`.
 */
module Locator {
  import opened Outcomes
  import opened GoStrings
  import opened Host

  /** `os.Stat(d)` as gover uses it: `d` itself when the stat succeeds. */
  function Stat(host: Host, d: string): (r: Result<string>)
    ensures r.Ok? <==> host.stat(d).None?
    ensures r.Ok? ==> r.value == d
    ensures host.stat(d).Some? ==> r == Err(OsError(host.stat(d).value))
  {
    match host.stat(d)
    case None => Ok(d)
    case Some(msg) => Err(OsError(msg))
  }

  /** The reference names a file-system path rather than an import path. */
  predicate IsRelative(pkg: string) {
    HasPrefix(pkg, ".")
  }

  /** The path gover would look under `$GOPATH/src` for an import path. */
  function GopathDir(host: Host, pkg: string): string {
    host.join(host.gopath, "src", pkg)
  }

  function PackageDir(host: Host, pkg: string): (r: Result<string>)
    // the directory found is one that exists ...
    ensures r.Ok? ==> host.stat(r.value).None?
    // ... obtained from Abs for a `.` reference and from GOPATH otherwise
    ensures r.Ok? && IsRelative(pkg) ==> host.abs(pkg) == Done(r.value)
    ensures r.Ok? && !IsRelative(pkg) ==> r.value == GopathDir(host, pkg)
    // a failing Abs is reported with its own text, and Stat is then never consulted
    ensures IsRelative(pkg) && host.abs(pkg).Failed? ==> r == Err(OsError(host.abs(pkg).msg))
    // a failing Stat on the chosen path is reported with its own text
    ensures IsRelative(pkg) && host.abs(pkg).Done? && host.stat(host.abs(pkg).value).Some?
            ==> r == Err(OsError(host.stat(host.abs(pkg).value).value))
    ensures !IsRelative(pkg) && host.stat(GopathDir(host, pkg)).Some?
            ==> r == Err(OsError(host.stat(GopathDir(host, pkg)).value))
    // a passing Stat on the chosen path gives that path
    ensures IsRelative(pkg) && host.abs(pkg).Done? && host.stat(host.abs(pkg).value).None?
            ==> r == Ok(host.abs(pkg).value)
    ensures !IsRelative(pkg) && host.stat(GopathDir(host, pkg)).None? ==> r == Ok(GopathDir(host, pkg))
    // locating a package never panics
    ensures !r.Panic?
  {
    var d := GopathDir(host, pkg);
    if IsRelative(pkg) then
      match host.abs(pkg)
      case Failed(msg) => Err(OsError(msg))
      case Done(abs) => Stat(host, abs)
    else
      Stat(host, d)
  }

  /** A `.` reference never depends on GOPATH or on Join. */
  lemma RelativeIgnoresGopath(host: Host, pkg: string, gopath: string, join: (string, string, string) -> string)
    requires IsRelative(pkg)
    ensures PackageDir(host.(gopath := gopath, join := join), pkg) == PackageDir(host, pkg)
  {
  }

  /** Any other reference, absolute paths included, never depends on Abs. */
  lemma ImportPathIgnoresAbs(host: Host, pkg: string, abs: string -> Fallible<string>)
    requires !IsRelative(pkg)
    ensures PackageDir(host.(abs := abs), pkg) == PackageDir(host, pkg)
  {
  }

  /** Which branch some typical references take. */
  lemma PathChoiceExamples()
    ensures IsRelative("./mypackage") && IsRelative("..") && IsRelative(".hidden")
    ensures !IsRelative("/abs/path") && !IsRelative("github.com/bcandrea/gover") && !IsRelative("")
  {
    assert "/abs/path"[..1][0] == '/';
    assert "github.com/bcandrea/gover"[..1][0] == 'g';
  }
}
