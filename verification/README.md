# gover in Dafny

gover answers "what version does this Go package declare?" without running
the package. It turns a package reference into a directory, parses the
directory, keeps the package named `main` (or else the one named after the
directory), merges its files, and reports the value of the first top-level
`const`/`var` binding of the name `Version`, with double quotes trimmed off.

This project models that decision logic as pure Dafny functions over small
datatypes and proves what it promises:

- `outcomes.dfy` (`Outcomes`): the error values and a `Result` type for Go's
  `(value, error)` returns. `Result` has a third case, `Panic(index, length)`.
  It stands for the runtime panic of the unchecked `Values[i]` at main.go:81.
  A panic passes through every caller unchanged, as it does in Go. The host
  calls that can fail never return a `Result`. `filepath.Abs` and
  `parser.ParseDir` return a separate `Fallible` type, which holds a value
  or an error text. `os.Stat` returns `None` on success or `Some` with the
  error text. So no host call can panic or produce one of gover's own
  errors, and the extractor is the only source of a `Panic`.
- `syntax.dfy` (`GoSyntax`): the part of `go/ast` that gover inspects.
  Declarations are general declarations, functions or bad declarations.
  Specs are value, type or import specs. An expression is a basic literal or
  something else. A function keeps the specs of its body so that "never
  entered" can be stated.
- `strings.dfy` (`GoStrings`): `strings.HasPrefix`, and `strings.Trim` with a
  one-character cutset.
- `extractor.dfy` (`Extractor`): `versionFromAST` as the three nested
  first-match loops of the source. The model also gives it an independent
  reference meaning: flatten the tree into the sequence of bindings the scan
  visits, then look at the first one named `Version`.
- `host.dfy` (`Host`): the environment, the file system and the library calls
  as uninterpreted functions. These are `os.Getenv("GOPATH")`,
  `filepath.Join/Abs/Base`, `os.Stat`, `parser.ParseDir` and
  `ast.MergePackageFiles`.
- `locator.dfy` (`Locator`): `packageDir`.
- `treebuilder.dfy` (`TreeBuilder`): `syntaxTree` and its package selection.
- `gover.dfy` (`Gover`): `GetVersion` and `run`. `run` gives the exit code and
  the text on stdout and stderr, or a crash when the lookup panics.
- `samples.dfy` (`ExtractorExamples`): concrete trees and their outcomes. They
  match the outcomes the repository's tests expect, plus the scan's edge cases.

Notes on the code's behaviour:
- `strings.Trim` is called with the cutset `"` (main.go:87), so only double
  quotes are removed. A raw-string literal keeps its back quotes, and a
  character literal keeps its single quotes.
- A reference that names a single file passes `os.Stat` (main.go:31), and
  what happens next is up to `parser.ParseDir`, which the model leaves to
  the host.
- Every stage returns the error it received as it is (main.go:27, 32, 43,
  101, 106). No stage information is added.
- The scan panics when the first `Version` name's position in its spec is
  at or past the number of values in that spec (main.go:81). Examples are
  `var Version string`, an iota-repeated constant, and `var a, Version = f()`.
  In `var Version, x = f()` the name has a value, the call, so the result is
  the "should be a basic literal" error.

## Model

| member | source | states |
|---|---|---|
| GoStrings.Trim | main.go:87 | the trimmed literal neither starts nor ends with `"`, and it is the middle of the input with nothing but `"` on either side |
| GoStrings.TrimCharacterization | main.go:87 | Trim returns exactly the middle of any text made of a run of `"`, a middle that neither starts nor ends with `"`, and another run of `"` |
| GoStrings.TrimIdempotent | main.go:87 | trimming an already trimmed version changes nothing |
| GoStrings.TrimKeepsUnfringed | main.go:87 | text without a `"` at either end, such as the integer token `12`, is returned unchanged |
| Extractor.FirstFoundNone | main.go:77-80 | over the flattened bindings, the reference finds nothing exactly when no binding is named Version |
| Extractor.FirstFoundAt | main.go:77-88 | otherwise the reference's outcome is fixed by the first binding named Version, whatever follows it |
| Extractor.ScanMatchesReference | main.go:64-93 | the nested decl/spec/name scan with early return equals the reference meaning: look at the first Version in the flattened binding sequence |
| Extractor.FirstVersionDecides | main.go:64-91 | the first top-level value binding named Version decides the result: its value's trimmed text if it is a literal, the "should be a basic literal" error if not, and the index panic if the spec has no value for it |
| Extractor.NoDeclarationIffNoBinding | main.go:92 | "no Version declaration found" is reported exactly when no top-level value binding is named Version |
| Extractor.FoundVersionUnquoted | main.go:87-88 | a version that is found never starts or ends with `"` |
| Extractor.FirstMatchWins | main.go:77-89 | two trees whose bindings agree up to and including the first Version binding give the same result, whatever follows |
| Extractor.PrefixDecides | main.go:65-91 | declarations after a prefix that binds Version never change the result |
| Extractor.PrefixTransparent | main.go:65-92 | a prefix that binds no Version is skipped as if absent |
| Extractor.MergeOrderIrrelevant | main.go:65-92 | when only one of two files binds Version, the order in which their declarations are merged does not matter |
| Extractor.NoFallbackAfterNonLiteral | main.go:81-86 | a first Version bound to a non-literal gives the "should be a basic literal" error, even if a literal Version follows |
| Extractor.IgnoresNonGenDecl | main.go:66-70 | inserting a function or bad declaration anywhere, whatever its body declares, never changes the result |
| Extractor.IgnoresNonValueSpec | main.go:72-76 | inserting a type or import spec anywhere in a general declaration, even one named Version, never changes the result |
| Extractor.PanicOnlyAtFirstVersion | main.go:77-81 | a panic happens only at the first binding named Version, when its spec has no value at that name's position, and it carries that position and the number of values |
| Extractor.NoPanicWhenInitialised | main.go:81 | the unchecked index cannot panic when every value spec has a value for each of its names |
| ExtractorExamples.QuotedConst | main_test.go:5-13 | `const Version = "0.4.2"` yields `0.4.2` |
| ExtractorExamples.IntegerLiteral | main_test.go:43-51 | `var Version = 12` yields `12` |
| ExtractorExamples.FunctionLocalIgnored | main_test.go:36-41 | a Version declared only inside a function body gives "no Version declaration found" |
| ExtractorExamples.TypeNamedVersionSkipped | main.go:72-76 | `type Version string` is skipped and a later constant is found |
| ExtractorExamples.NonLiteralShadowsLaterLiteral | main.go:82-86 | a non-literal Version before a literal one is an error |
| ExtractorExamples.UninitialisedVersionPanics | main.go:81 | `var Version string` panics with index 0 and length 0 |
| ExtractorExamples.MultiValueCallPanics | main.go:81 | `var a, Version = f()` panics with index 1 and length 1 |
| ExtractorExamples.RawStringKeepsBackQuotes | main.go:87 | a raw-string literal keeps its back quotes |
| Locator.Stat | main.go:30-34 | the path is returned exactly when the stat succeeds, and otherwise the stat's own error is returned |
| Locator.PackageDir | main.go:22-34 | the chosen path is Abs of a `.` reference and GOPATH/src joined with any other reference. It is returned exactly when its stat passes. A failing Abs or a failing stat on the chosen path is returned as the error, with its own text. Locating never panics |
| Locator.RelativeIgnoresGopath | main.go:23-29 | a `.` reference does not depend on GOPATH or Join |
| Locator.ImportPathIgnoresAbs | main.go:23-24 | any other reference, including an absolute path or the empty string, does not depend on Abs |
| Locator.PathChoiceExamples | main.go:24 | `./x`, `..` and `.hidden` are relative. `/abs/path`, an import path and the empty string are not |
| TreeBuilder.SelectPackage | main.go:46-57 | a package is chosen exactly when `main` or the directory's base name is a key. `main` has priority. Failure gives the error naming both |
| TreeBuilder.OtherPackagesIgnored | main.go:48-54 | changing or removing any package other than `main` and the base name never changes the selection |
| TreeBuilder.SyntaxTree | main.go:39-60 | a parse failure is returned with its own text. Otherwise a tree exists exactly when `main` or the base-name package exists, and the tree is that package merged. If neither exists, the error names the base name and the directory. Building the tree never panics |
| Gover.GetVersion | main.go:98-110 | the first failing stage's outcome is returned unchanged. Success needs every stage to succeed, and a found version never starts or ends with `"` |
| Gover.LocateFailureStopsPipeline | main.go:99-102 | after a failed lookup of the directory, the parser, the base-name function and the merger are never consulted |
| Gover.GetVersionFindsFirstBinding | main.go:98-110 | end to end, the version is the trimmed text of the first Version literal of the selected package. A non-literal first Version is an error, and a first Version without a value panics with its position and the number of values |
| Gover.GetVersionNoDeclaration | main.go:92 | end to end, a package with no top-level value binding named Version gives "no Version declaration found" |
| Gover.Run | main.go:118-133 | `-v` prints `gover version 0.1.2` and exits 0. With no argument, usage goes to stderr and the exit code is 1. Exit 0 happens exactly on `-v` or a successful lookup, and the version then goes to stdout. Exit 2 happens exactly on a failed lookup, with `gover: <error>` on stderr. A panic is a crash. Success writes only to stdout and failure only to stderr |
| Gover.VersionFlagIgnoresPipeline | main.go:118-121 | with `-v` the outcome depends neither on the host nor on the arguments |
| Gover.OnlyFirstArgument | main.go:123-127 | positional arguments after the first never change the outcome |
| Gover.MissingPackageExitsTwo | main.go:127-131 | a reference whose chosen directory does not exist ends with exit code 2 and the stat error on stderr. This holds for an import path and for a `.` reference alike. A failing Abs ends the same way with its own error text |
| Gover.NoPackageExitsTwo | main.go:46-56 | a located directory that holds neither `main` nor the package named after it ends with exit code 2. stderr then reads `gover: cannot find package main or <base> in <dir>` |
| Gover.CrashOnlyOnMissingValue | main.go:77-81 | the process crashes only when the located and parsed package's first Version binding has no value. The crash reports that binding's position and the number of values in its spec |

## Left out

- Flag parsing (main.go:114-116). `run` is modelled after parsing, with the `-v` flag and the positional arguments as inputs. `ExitOnError`, the flag set's own usage output, and Go's rule that flags stop at the first positional argument are not modelled.
- The `io.Writer` plumbing and `main`/`os.Exit` (main.go:136-138). Output is modelled as the text written, and write errors are ignored, as in the source.
- `os.Getenv`, `filepath.Join`, `filepath.Abs`, `filepath.Base` and `os.Stat` are uninterpreted host functions. Path cleaning and the working directory are not modelled.
- `parser.ParseDir` and the Go parser are an uninterpreted host function. It returns the packages keyed by name, or an error text, which gover passes on as a parse error.
- `ast.MergePackageFiles` is an uninterpreted host function. The model states no file order.
- Runtime failures inside the library calls, such as a panic in the parser or an out-of-memory error, are not modelled. Each call yields its value or an error text.
- Locator.PackageDir: Go also returns a path together with an error. The only caller drops that path, so the model returns the error alone.
- Gover.Run: when the lookup panics, the model reports only a crash with the index and length. Go's panic message, goroutine trace and exit status are not modelled.
- The tests' on-disk fixture packages are not modelled. Their expected outcomes appear as concrete trees in `ExtractorExamples`.
