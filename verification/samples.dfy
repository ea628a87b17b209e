/**
 Concrete declaration lists and what versionFromAST makes of them, matching
 the outcomes gover's tests expect and the edge cases of the scan.
 */
module ExtractorExamples {
  import opened Outcomes
  import opened GoSyntax
  import opened GoStrings
  import opened Extractor

  function ConstDecl(name: string, e: Expr): Decl {
    GenDecl([ValueSpec([name], [e])])
  }

  /** `const Version = "0.4.2"` yields 0.4.2 without quotes. */
  lemma QuotedConst()
    ensures VersionFromAST([ConstDecl("Version", BasicLit("\"0.4.2\""))]) == Ok("0.4.2")
  {
    var text := "\"0.4.2\"";
    assert text == ['"'] + "0.4.2" + ['"'];
    TrimCharacterization(['"'], "0.4.2", ['"'], Quote);
  }

  /** `var Version = 12` yields the token text 12. */
  lemma IntegerLiteral()
    ensures VersionFromAST([GenDecl([ValueSpec(["Version"], [BasicLit("12")])])]) == Ok("12")
  {
    TrimKeepsUnfringed("12", Quote);
  }

  /** A Version declared only in a function body is never found. */
  lemma FunctionLocalIgnored()
    ensures VersionFromAST([GenDecl([ImportSpec("fmt")]),
                            FuncDecl("main", [ValueSpec(["Version"], [BasicLit("\"1.0\"")])])])
            == Err(NoVersionDeclaration)
  {
  }

  /** `type Version string` is not a value spec and is skipped. */
  lemma TypeNamedVersionSkipped()
    ensures VersionFromAST([GenDecl([TypeSpec("Version")]), ConstDecl("Version", BasicLit("7"))]) == Ok("7")
  {
    TrimKeepsUnfringed("7", Quote);
  }

  /** `var Version = v` followed by `const Version = "1"`: no fallback to the literal. */
  lemma NonLiteralShadowsLaterLiteral()
    ensures VersionFromAST([ConstDecl("Version", OtherExpr), ConstDecl("Version", BasicLit("\"1\""))])
            == Err(NotBasicLiteral)
  {
  }

  /** `var Version string` has no value: `Values[0]` panics. */
  lemma UninitialisedVersionPanics()
    ensures VersionFromAST([GenDecl([ValueSpec(["Version"], [])])]) == Panic(0, 0)
  {
  }

  /** `var a, Version = f()`: one value for two names, so `Values[1]` panics. */
  lemma MultiValueCallPanics()
    ensures VersionFromAST([GenDecl([ValueSpec(["a", "Version"], [OtherExpr])])]) == Panic(1, 1)
  {
  }

  /** Only double quotes are trimmed: a raw string keeps its back quotes. */
  lemma RawStringKeepsBackQuotes()
    ensures VersionFromAST([ConstDecl("Version", BasicLit("`1.0`"))]) == Ok("`1.0`")
  {
    TrimKeepsUnfringed("`1.0`", Quote);
  }
}
