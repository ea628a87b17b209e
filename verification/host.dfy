/**
 The process environment, file system and Go library calls that gover
 consults, as uninterpreted functions. Each field stands for one call.
 */
module Host {
  import opened Outcomes
  import opened GoSyntax

  datatype Host = Host(
    gopath: string,                                   // os.Getenv("GOPATH")
    join: (string, string, string) -> string,         // filepath.Join(a, b, c)
    abs: string -> Fallible<string>,                  // filepath.Abs (reads the working directory)
    stat: string -> Option<string>,                   // os.Stat: None on success, Some(error text) on failure
    base: string -> string,                           // filepath.Base
    parseDir: string -> Fallible<map<string, Package>>, // parser.ParseDir: packages keyed by package name
    merge: Package -> seq<Decl>                       // ast.MergePackageFiles(pkg, 0).Decls
  )
}
