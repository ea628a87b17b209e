/**
 `versionFromAST`: finds the first top-level value binding of the name
 `Version` in a merged declaration list and reports its literal text.

 The scan (`VersionFromAST`) follows the three nested loops of the Go code,
 returning as soon as a name matches. Its meaning is given independently by
 flattening the declarations into the sequence of bindings the scan visits
 (`Bindings`) and looking at the first one named `Version`.
 */
module Extractor {
  import opened Outcomes
  import opened GoSyntax
  import opened GoStrings

  const VersionName: string := "Version"

  /** What `Values[i]` yields: the bound expression, or the index panic when
      the spec has fewer values than names. */
  datatype Slot = Bound(expr: Expr) | Missing(index: nat, length: nat)

  function SlotAt(values: seq<Expr>, i: nat): Slot {
    if i < |values| then Bound(values[i]) else Missing(i, |values|)
  }

  /** The outcome once the first `Version` name is found, with `slot` the value bound to it. */
  function Examine(slot: Slot): Result<string> {
    match slot
    case Missing(i, n) => Panic(i, n)
    case Bound(BasicLit(text)) => Ok(Trim(text, Quote))
    case Bound(OtherExpr) => Err(NotBasicLiteral)
  }

  // ---------------------------------------------------------------------
  // The scan as written: decls, then specs, then names, first match returns.
  // `None` means "keep scanning".
  // ---------------------------------------------------------------------

  function ScanNames(names: seq<string>, values: seq<Expr>, i: nat): Option<Result<string>>
    requires i <= |names|
    decreases |names| - i
  {
    if i == |names| then None
    else if names[i] == VersionName then Some(Examine(SlotAt(values, i)))
    else ScanNames(names, values, i + 1)
  }

  function ScanSpec(s: Spec): Option<Result<string>> {
    match s
    case ValueSpec(names, values) => ScanNames(names, values, 0)
    case _ => None
  }

  function ScanSpecs(specs: seq<Spec>): Option<Result<string>> {
    if |specs| == 0 then None
    else
      var found := ScanSpec(specs[0]);
      if found.Some? then found else ScanSpecs(specs[1..])
  }

  function ScanDecl(d: Decl): Option<Result<string>> {
    match d
    case GenDecl(specs) => ScanSpecs(specs)
    case _ => None
  }

  function VersionFromAST(decls: seq<Decl>): Result<string> {
    if |decls| == 0 then Err(NoVersionDeclaration)
    else
      var found := ScanDecl(decls[0]);
      if found.Some? then found.value else VersionFromAST(decls[1..])
  }

  // ---------------------------------------------------------------------
  // Reference semantics: the bindings the scan can see, in scan order.
  // ---------------------------------------------------------------------

  datatype Binding = Binding(name: string, slot: Slot)

  function SpecBindings(s: Spec): seq<Binding> {
    match s
    case ValueSpec(names, values) =>
      seq(|names|, k requires 0 <= k < |names| => Binding(names[k], SlotAt(values, k)))
    case _ => []
  }

  function SpecsBindings(specs: seq<Spec>): seq<Binding> {
    if |specs| == 0 then [] else SpecBindings(specs[0]) + SpecsBindings(specs[1..])
  }

  function DeclBindings(d: Decl): seq<Binding> {
    match d
    case GenDecl(specs) => SpecsBindings(specs)
    case _ => []
  }

  /** Every top-level value binding, in declaration, spec and name order. */
  function Bindings(decls: seq<Decl>): seq<Binding> {
    if |decls| == 0 then [] else DeclBindings(decls[0]) + Bindings(decls[1..])
  }

  /** No binding in `bs` is named Version. */
  ghost predicate NoVersion(bs: seq<Binding>) {
    forall j :: 0 <= j < |bs| ==> bs[j].name != VersionName
  }

  /** `k` is the position of the first binding named Version. */
  ghost predicate IsFirstVersion(bs: seq<Binding>, k: int) {
    0 <= k < |bs| && bs[k].name == VersionName
    && forall j :: 0 <= j < k ==> bs[j].name != VersionName
  }

  /** Outcome decided by the first Version binding in `bs`, `None` when there is none. */
  function FirstFound(bs: seq<Binding>): Option<Result<string>> {
    if |bs| == 0 then None
    else if bs[0].name == VersionName then Some(Examine(bs[0].slot))
    else FirstFound(bs[1..])
  }

  /** FirstFound finds nothing exactly when no binding is named Version. */
  lemma {:induction false} FirstFoundNone(bs: seq<Binding>)
    ensures FirstFound(bs).None? <==> NoVersion(bs)
  {
    if |bs| > 0 && bs[0].name != VersionName {
      FirstFoundNone(bs[1..]);
      assert NoVersion(bs) <==> NoVersion(bs[1..]) by {
        assert forall j :: 0 < j < |bs| ==> bs[j] == bs[1..][j - 1];
      }
    }
  }

  /** Otherwise it reports the first binding named Version. */
  lemma {:induction false} FirstFoundAt(bs: seq<Binding>, k: nat)
    requires IsFirstVersion(bs, k)
    ensures FirstFound(bs) == Some(Examine(bs[k].slot))
  {
    if k > 0 {
      assert IsFirstVersion(bs[1..], k - 1);
      FirstFoundAt(bs[1..], k - 1);
    }
  }

  function Decide(found: Option<Result<string>>): Result<string> {
    match found
    case Some(r) => r
    case None => Err(NoVersionDeclaration)
  }

  // ---------------------------------------------------------------------
  // The scan agrees with the reference semantics.
  // ---------------------------------------------------------------------

  lemma {:induction false} FirstFoundAppend(a: seq<Binding>, b: seq<Binding>)
    ensures FirstFound(a + b) == if FirstFound(a).Some? then FirstFound(a) else FirstFound(b)
    decreases |a|
  {
    if |a| == 0 {
      assert a + b == b;
    } else {
      assert (a + b)[0] == a[0];
      assert (a + b)[1..] == a[1..] + b;
      FirstFoundAppend(a[1..], b);
    }
  }

  lemma {:induction false} ScanNamesMatches(names: seq<string>, values: seq<Expr>, i: nat)
    requires i <= |names|
    ensures ScanNames(names, values, i) == FirstFound(SpecBindings(ValueSpec(names, values))[i..])
    decreases |names| - i
  {
    var bs := SpecBindings(ValueSpec(names, values));
    if i < |names| {
      assert bs[i..][0] == Binding(names[i], SlotAt(values, i));
      assert bs[i..][1..] == bs[i + 1..];
      ScanNamesMatches(names, values, i + 1);
    }
  }

  lemma {:induction false} ScanSpecsMatches(specs: seq<Spec>)
    ensures ScanSpecs(specs) == FirstFound(SpecsBindings(specs))
    decreases |specs|
  {
    if |specs| > 0 {
      if specs[0].ValueSpec? {
        ScanNamesMatches(specs[0].names, specs[0].values, 0);
        assert SpecBindings(specs[0])[0..] == SpecBindings(specs[0]);
      }
      ScanSpecsMatches(specs[1..]);
      FirstFoundAppend(SpecBindings(specs[0]), SpecsBindings(specs[1..]));
    }
  }

  lemma {:induction false} ScanMatchesReference(decls: seq<Decl>)
    ensures VersionFromAST(decls) == Decide(FirstFound(Bindings(decls)))
    decreases |decls|
  {
    if |decls| > 0 {
      if decls[0].GenDecl? {
        ScanSpecsMatches(decls[0].specs);
      }
      ScanMatchesReference(decls[1..]);
      FirstFoundAppend(DeclBindings(decls[0]), Bindings(decls[1..]));
    }
  }

  lemma {:induction false} BindingsAppend(a: seq<Decl>, b: seq<Decl>)
    ensures Bindings(a + b) == Bindings(a) + Bindings(b)
    decreases |a|
  {
    if |a| == 0 {
      assert a + b == b;
    } else {
      assert (a + b)[0] == a[0];
      assert (a + b)[1..] == a[1..] + b;
      BindingsAppend(a[1..], b);
    }
  }

  lemma {:induction false} SpecsBindingsAppend(a: seq<Spec>, b: seq<Spec>)
    ensures SpecsBindings(a + b) == SpecsBindings(a) + SpecsBindings(b)
    decreases |a|
  {
    if |a| == 0 {
      assert a + b == b;
    } else {
      assert (a + b)[0] == a[0];
      assert (a + b)[1..] == a[1..] + b;
      SpecsBindingsAppend(a[1..], b);
    }
  }

  // ---------------------------------------------------------------------
  // Properties of versionFromAST.
  // ---------------------------------------------------------------------

  /**
   The meaning of versionFromAST: the first top-level value binding named
   Version decides the outcome.
   */
  lemma FirstVersionDecides(decls: seq<Decl>, k: nat)
    requires IsFirstVersion(Bindings(decls), k)
    ensures VersionFromAST(decls) == Examine(Bindings(decls)[k].slot)
  {
    ScanMatchesReference(decls);
    FirstFoundAt(Bindings(decls), k);
  }

  /** "no Version declaration found" is reported exactly when no top-level value binding is named Version. */
  lemma NoDeclarationIffNoBinding(decls: seq<Decl>)
    ensures VersionFromAST(decls) == Err(NoVersionDeclaration) <==> NoVersion(Bindings(decls))
  {
    ScanMatchesReference(decls);
    var bs := Bindings(decls);
    FirstFoundNone(bs);
    if !NoVersion(bs) {
      var j :| 0 <= j < |bs| && bs[j].name == VersionName;
      var k := FirstVersionAt(bs, j);
      FirstFoundAt(bs, k);
    }
  }

  /** A version that is found never starts or ends with a double quote. */
  lemma FoundVersionUnquoted(decls: seq<Decl>)
    ensures VersionFromAST(decls).Ok? ==> Unfringed(VersionFromAST(decls).value, Quote)
  {
    ScanMatchesReference(decls);
    var bs := Bindings(decls);
    if !NoVersion(bs) {
      var j :| 0 <= j < |bs| && bs[j].name == VersionName;
      var k := FirstVersionAt(bs, j);
      FirstFoundAt(bs, k);
    } else {
      FirstFoundNone(bs);
    }
  }

  /**
   The scan panics only on the first Version binding, and only when its spec
   has no value at that name's position; the panic carries the position and
   the number of values.
   */
  lemma PanicOnlyAtFirstVersion(decls: seq<Decl>) returns (k: nat)
    requires VersionFromAST(decls).Panic?
    ensures IsFirstVersion(Bindings(decls), k)
    ensures Bindings(decls)[k].slot == Missing(VersionFromAST(decls).index, VersionFromAST(decls).length)
  {
    NoDeclarationIffNoBinding(decls);
    var bs := Bindings(decls);
    var j :| 0 <= j < |bs| && bs[j].name == VersionName;
    k := FirstVersionAt(bs, j);
    FirstVersionDecides(decls, k);
  }

  /** Some binding at or before `j` is the first Version binding. */
  lemma {:induction false} FirstVersionAt(bs: seq<Binding>, j: nat) returns (k: nat)
    requires j < |bs| && bs[j].name == VersionName
    ensures k <= j && IsFirstVersion(bs, k)
    decreases j
  {
    if forall i :: 0 <= i < j ==> bs[i].name != VersionName {
      k := j;
    } else {
      var i :| 0 <= i < j && bs[i].name == VersionName;
      k := FirstVersionAt(bs, i);
    }
  }

  /**
   First match wins: two declaration lists whose bindings agree up to and
   including the first Version binding of one give the same result, whatever
   follows in either.
   */
  lemma FirstMatchWins(a: seq<Decl>, b: seq<Decl>, k: nat)
    requires IsFirstVersion(Bindings(a), k)
    requires k < |Bindings(b)| && Bindings(b)[..k + 1] == Bindings(a)[..k + 1]
    ensures VersionFromAST(b) == VersionFromAST(a)
  {
    var ba, bb := Bindings(a), Bindings(b);
    forall j | 0 <= j <= k
      ensures bb[j] == ba[j]
    {
      assert bb[..k + 1][j] == ba[..k + 1][j];
    }
    assert IsFirstVersion(bb, k);
    FirstVersionDecides(a, k);
    FirstVersionDecides(b, k);
  }

  /** Declarations after a prefix that binds Version never change the result. */
  lemma PrefixDecides(prefix: seq<Decl>, suffix: seq<Decl>)
    requires !NoVersion(Bindings(prefix))
    ensures VersionFromAST(prefix + suffix) == VersionFromAST(prefix)
  {
    BindingsAppend(prefix, suffix);
    FirstFoundAppend(Bindings(prefix), Bindings(suffix));
    FirstFoundNone(Bindings(prefix));
    ScanMatchesReference(prefix + suffix);
    ScanMatchesReference(prefix);
  }

  /** A prefix that binds no Version is skipped over entirely. */
  lemma PrefixTransparent(prefix: seq<Decl>, suffix: seq<Decl>)
    requires NoVersion(Bindings(prefix))
    ensures VersionFromAST(prefix + suffix) == VersionFromAST(suffix)
  {
    BindingsAppend(prefix, suffix);
    FirstFoundAppend(Bindings(prefix), Bindings(suffix));
    FirstFoundNone(Bindings(prefix));
    ScanMatchesReference(prefix + suffix);
    ScanMatchesReference(suffix);
  }

  /**
   When only one of two files binds Version, the order in which their
   declarations are merged does not matter.
   */
  lemma MergeOrderIrrelevant(a: seq<Decl>, b: seq<Decl>)
    requires NoVersion(Bindings(a)) || NoVersion(Bindings(b))
    ensures VersionFromAST(a + b) == VersionFromAST(b + a)
  {
    if NoVersion(Bindings(a)) {
      PrefixTransparent(a, b);
      if NoVersion(Bindings(b)) {
        PrefixTransparent(b, a);
        assert [] + a == a && [] + b == b;
        PrefixTransparent(a, []);
        PrefixTransparent(b, []);
        assert a + [] == a && b + [] == b;
      } else {
        PrefixDecides(b, a);
      }
    } else {
      PrefixDecides(a, b);
      PrefixTransparent(b, a);
    }
  }

  /**
   No fallback: when the first Version binding is not a literal the result is
   the "should be a basic literal" error, even if a literal Version follows.
   */
  lemma NoFallbackAfterNonLiteral(decls: seq<Decl>, k: nat)
    requires IsFirstVersion(Bindings(decls), k)
    requires Bindings(decls)[k].slot == Bound(OtherExpr)
    ensures VersionFromAST(decls) == Err(NotBasicLiteral)
  {
    FirstVersionDecides(decls, k);
  }

  /** The result depends on the tree only through its bindings. */
  lemma SameBindingsSameResult(x: seq<Decl>, y: seq<Decl>)
    requires Bindings(x) == Bindings(y)
    ensures VersionFromAST(x) == VersionFromAST(y)
  {
    ScanMatchesReference(x);
    ScanMatchesReference(y);
  }

  lemma BindingsAround(before: seq<Decl>, d: Decl, after: seq<Decl>)
    ensures Bindings(before + [d] + after) == Bindings(before) + DeclBindings(d) + Bindings(after)
  {
    assert before + [d] + after == before + ([d] + after);
    assert ([d] + after)[0] == d && ([d] + after)[1..] == after;
    BindingsAppend(before, [d] + after);
  }

  /** A declaration that is not a general declaration, e.g. a function with a Version local, is ignored. */
  lemma IgnoresNonGenDecl(before: seq<Decl>, d: Decl, after: seq<Decl>)
    requires !d.GenDecl?
    ensures VersionFromAST(before + [d] + after) == VersionFromAST(before + after)
  {
    var x, y := before + [d] + after, before + after;
    BindingsAround(before, d, after);
    BindingsAppend(before, after);
    assert DeclBindings(d) == [];
    assert Bindings(before) + DeclBindings(d) == Bindings(before);
    assert Bindings(x) == Bindings(y);
    SameBindingsSameResult(x, y);
  }

  lemma SpecsBindingsSkip(a: seq<Spec>, s: Spec, b: seq<Spec>)
    requires !s.ValueSpec?
    ensures SpecsBindings(a + [s] + b) == SpecsBindings(a + b)
  {
    SpecsBindingsAppend(a + [s], b);
    SpecsBindingsAppend(a, [s]);
    SpecsBindingsAppend(a, b);
    assert SpecsBindings([s]) == [];
    assert SpecsBindings(a) + [] == SpecsBindings(a);
  }

  /** A spec that is not a value spec, e.g. `type Version string`, is ignored. */
  lemma IgnoresNonValueSpec(before: seq<Decl>, a: seq<Spec>, s: Spec, b: seq<Spec>, after: seq<Decl>)
    requires !s.ValueSpec?
    ensures VersionFromAST(before + [GenDecl(a + [s] + b)] + after)
         == VersionFromAST(before + [GenDecl(a + b)] + after)
  {
    SpecsBindingsSkip(a, s, b);
    var d1, d2 := GenDecl(a + [s] + b), GenDecl(a + b);
    assert DeclBindings(d1) == DeclBindings(d2);
    var x, y := before + [d1] + after, before + [d2] + after;
    BindingsAround(before, d1, after);
    BindingsAround(before, d2, after);
    assert Bindings(x) == Bindings(y);
    SameBindingsSameResult(x, y);
  }

  /** Every value spec of every general declaration has a value for each name. */
  ghost predicate Initialised(decls: seq<Decl>) {
    forall i, j :: 0 <= i < |decls| && decls[i].GenDecl? && 0 <= j < |decls[i].specs| ==>
      (decls[i].specs[j].ValueSpec? ==> |decls[i].specs[j].names| <= |decls[i].specs[j].values|)
  }

  lemma {:induction false} InitialisedSpecsBound(specs: seq<Spec>)
    requires forall j :: 0 <= j < |specs| && specs[j].ValueSpec? ==> |specs[j].names| <= |specs[j].values|
    ensures forall n :: 0 <= n < |SpecsBindings(specs)| ==> SpecsBindings(specs)[n].slot.Bound?
    decreases |specs|
  {
    if |specs| > 0 {
      InitialisedSpecsBound(specs[1..]);
    }
  }

  lemma {:induction false} InitialisedBound(decls: seq<Decl>)
    requires Initialised(decls)
    ensures forall n :: 0 <= n < |Bindings(decls)| ==> Bindings(decls)[n].slot.Bound?
    decreases |decls|
  {
    if |decls| > 0 {
      if decls[0].GenDecl? {
        InitialisedSpecsBound(decls[0].specs);
      }
      assert Initialised(decls[1..]) by {
        forall i, j | 0 <= i < |decls[1..]| && decls[1..][i].GenDecl? && 0 <= j < |decls[1..][i].specs|
          ensures decls[1..][i].specs[j].ValueSpec? ==> |decls[1..][i].specs[j].names| <= |decls[1..][i].specs[j].values|
        {
          assert decls[1..][i] == decls[i + 1];
        }
      }
      InitialisedBound(decls[1..]);
    }
  }

  /**
   The unchecked `Values[i]` panics only when a value spec has fewer values
   than names: a tree where every value spec is fully initialised never panics.
   */
  lemma NoPanicWhenInitialised(decls: seq<Decl>)
    requires Initialised(decls)
    ensures !VersionFromAST(decls).Panic?
  {
    InitialisedBound(decls);
    ScanMatchesReference(decls);
    var bs := Bindings(decls);
    FirstFoundNone(bs);
    if !NoVersion(bs) {
      var j :| 0 <= j < |bs| && bs[j].name == VersionName;
      var k := FirstVersionAt(bs, j);
      FirstFoundAt(bs, k);
      assert bs[k].slot.Bound?;
    }
  }
}
