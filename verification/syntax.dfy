/**
 The part of Go's syntax tree (package go/ast) that gover looks at.
 */
module GoSyntax {

  /** An expression bound in a value spec: a literal token (its raw text,
      quotes included) or anything else (identifier, call, composite, ...). */
  datatype Expr = BasicLit(value: string) | OtherExpr

  /** A spec of a general declaration. Only value specs (`const`/`var`)
      bind names to expressions; `Values` may be shorter than `Names`
      (`var Version string`, an iota-repeated const, `var a, b = f()`). */
  datatype Spec =
    | ValueSpec(names: seq<string>, values: seq<Expr>)
    | TypeSpec(name: string)
    | ImportSpec(name: string)

  /** A top-level declaration. A function keeps the value specs declared in
      its body as `locals`; gover never looks inside them. */
  datatype Decl =
    | GenDecl(specs: seq<Spec>)
    | FuncDecl(name: string, locals: seq<Spec>)
    | BadDecl

  /** A parsed package: its name and the top-level declarations of each file. */
  datatype Package = Package(name: string, files: map<string, seq<Decl>>)
}
