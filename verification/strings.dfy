/**
 The two functions of Go's `strings` package that gover calls:
 `HasPrefix`, and `Trim` with a cutset of one character.
 */
module GoStrings {

  /** The only cutset gover passes to `strings.Trim`. */
  const Quote: char := '"'

  predicate HasPrefix(s: string, prefix: string) {
    |prefix| <= |s| && s[..|prefix|] == prefix
  }

  /** Every character of `s` is `c`. */
  predicate AllAre(s: string, c: char) {
    forall i :: 0 <= i < |s| ==> s[i] == c
  }

  /** `s` neither starts nor ends with `c`. */
  predicate Unfringed(s: string, c: char) {
    s == [] || (s[0] != c && s[|s| - 1] != c)
  }

  /** `strings.TrimLeft(s, string(c))`: drops the longest run of `c` at the front. */
  function TrimLeft(s: string, c: char): (r: string)
    ensures |r| <= |s| && r == s[|s| - |r|..]
    ensures AllAre(s[..|s| - |r|], c)
    ensures r == [] || r[0] != c
    decreases |s|
  {
    if |s| > 0 && s[0] == c then
      var r := TrimLeft(s[1..], c);
      assert s[1..][..|s| - 1 - |r|] == s[1..|s| - |r|];
      r
    else
      s
  }

  /** `strings.TrimRight(s, string(c))`: drops the longest run of `c` at the back. */
  function TrimRight(s: string, c: char): (r: string)
    ensures |r| <= |s| && r == s[..|r|]
    ensures AllAre(s[|r|..], c)
    ensures r == [] || r[|r| - 1] != c
    decreases |s|
  {
    if |s| > 0 && s[|s| - 1] == c then
      var r := TrimRight(s[..|s| - 1], c);
      assert s[..|s| - 1][|r|..] == s[|r|..|s| - 1];
      r
    else
      s
  }

  /**
   `strings.Trim(s, string(c))`: the middle part of `s` left once every
   leading and every trailing `c` is removed.
   */
  function Trim(s: string, c: char): (r: string)
    ensures Unfringed(r, c)
    ensures exists i :: 0 <= i <= |s| - |r| && r == s[i..i + |r|]
                        && AllAre(s[..i], c) && AllAre(s[i + |r|..], c)
  {
    var l := TrimLeft(s, c);
    var r := TrimRight(l, c);
    var i := |s| - |l|;
    assert r == s[i..i + |r|];
    assert s[i + |r|..] == l[|r|..];
    r
  }

  /** A run of `c` at the front of a text that does not start with `c` is exactly what TrimLeft drops. */
  lemma {:induction false} TrimLeftDropsRun(a: string, m: string, c: char)
    requires AllAre(a, c)
    requires m == [] || m[0] != c
    ensures TrimLeft(a + m, c) == m
    decreases |a|
  {
    if |a| > 0 {
      assert (a + m)[1..] == a[1..] + m;
      TrimLeftDropsRun(a[1..], m, c);
    } else {
      assert a + m == m;
    }
  }

  /** A run of `c` at the back of a text that does not end with `c` is exactly what TrimRight drops. */
  lemma {:induction false} TrimRightDropsRun(m: string, b: string, c: char)
    requires AllAre(b, c)
    requires m == [] || m[|m| - 1] != c
    ensures TrimRight(m + b, c) == m
    decreases |b|
  {
    if |b| > 0 {
      assert (m + b)[..|m + b| - 1] == m + b[..|b| - 1];
      TrimRightDropsRun(m, b[..|b| - 1], c);
    } else {
      assert m + b == m;
    }
  }

  /**
   Trim is determined by its contract: whenever `s` is a run of `c`, then a
   middle that neither starts nor ends with `c`, then another run of `c`,
   Trim returns that middle.
   */
  lemma TrimCharacterization(a: string, m: string, b: string, c: char)
    requires AllAre(a, c) && AllAre(b, c)
    requires Unfringed(m, c)
    ensures Trim(a + m + b, c) == m
  {
    if m == [] {
      assert a + m + b == a + b;
      TrimLeftDropsRun(a + b, [], c);
      assert a + b + [] == a + b;
      TrimRightDropsRun([], [], c);
    } else {
      assert a + m + b == a + (m + b);
      TrimLeftDropsRun(a, m + b, c);
      TrimRightDropsRun(m, b, c);
    }
  }

  /** Trimming twice is trimming once. */
  lemma TrimIdempotent(s: string, c: char)
    ensures Trim(Trim(s, c), c) == Trim(s, c)
  {
    var r := Trim(s, c);
    assert [] + r + [] == r;
    TrimCharacterization([], r, [], c);
  }

  /** A text that neither starts nor ends with `c` comes back unchanged, e.g. an integer literal. */
  lemma TrimKeepsUnfringed(s: string, c: char)
    requires Unfringed(s, c)
    ensures Trim(s, c) == s
  {
    assert [] + s + [] == s;
    TrimCharacterization([], s, [], c);
  }
}
