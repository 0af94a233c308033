/** String helpers the application relies on: prefix and substring tests,
    JavaScript's `trim`, and the default `Array.prototype.sort` order on
    strings. */
module Text {

  import opened Seqs

  /** `s.startsWith(p)`. */
  predicate StartsWith(s: string, p: string) {
    |p| <= |s| && s[..|p|] == p
  }

  /** `sub` occurs in `s` starting at position `i`. */
  predicate OccursAt(s: string, sub: string, i: int) {
    0 <= i <= |s| - |sub| && s[i..i + |sub|] == sub
  }

  /** `s.includes(sub)`. */
  function Contains(s: string, sub: string): (r: bool)
    ensures r <==> exists i :: OccursAt(s, sub, i)
  {
    ContainsFrom(s, sub, 0)
  }

  /** Scans the start positions from `i` on. */
  function ContainsFrom(s: string, sub: string, i: nat): (r: bool)
    ensures r <==> exists k :: i <= k && OccursAt(s, sub, k)
    decreases |s| - i
  {
    if i + |sub| > |s| then false
    else if OccursAt(s, sub, i) then true
    else ContainsFrom(s, sub, i + 1)
  }

  // ---------------------------------------------------------------------
  // trim

  /** The characters JavaScript's `String.prototype.trim` removes: the
      WhiteSpace and LineTerminator code points of ECMAScript. */
  predicate IsJsSpace(c: char) {
    c == '\t' || c == '\n' || c == '\U{B}' || c == '\U{C}' || c == '\r' || c == ' '
    || c == '\U{A0}' || c == '\U{1680}' || ('\U{2000}' <= c <= '\U{200A}')
    || c == '\U{2028}' || c == '\U{2029}' || c == '\U{202F}' || c == '\U{205F}'
    || c == '\U{3000}' || c == '\U{FEFF}'
  }

  predicate AllSpace(s: string) {
    forall i :: 0 <= i < |s| ==> IsJsSpace(s[i])
  }

  /** Where the run of spaces starting at `i` ends. */
  function SpaceRunEnd(s: string, i: nat): (j: nat)
    requires i <= |s|
    ensures i <= j <= |s|
    ensures forall k :: i <= k < j ==> IsJsSpace(s[k])
    ensures j == |s| || !IsJsSpace(s[j])
    decreases |s| - i
  {
    if i < |s| && IsJsSpace(s[i]) then SpaceRunEnd(s, i + 1) else i
  }

  /** Where the run of spaces ending at `j` starts, not going below `lo`. */
  function SpaceRunStart(s: string, lo: nat, j: nat): (i: nat)
    requires lo <= j <= |s|
    ensures lo <= i <= j
    ensures forall k :: i <= k < j ==> IsJsSpace(s[k])
    ensures i == lo || !IsJsSpace(s[i - 1])
    decreases j
  {
    if j > lo && IsJsSpace(s[j - 1]) then SpaceRunStart(s, lo, j - 1) else j
  }

  /** The piece of `s` that `trim` keeps, as `[i, j)`: everything outside it
      is a space, and it neither starts nor ends with one. */
  function TrimBounds(s: string): (b: (nat, nat))
    ensures 0 <= b.0 <= b.1 <= |s|
    ensures forall k :: 0 <= k < b.0 ==> IsJsSpace(s[k])
    ensures forall k :: b.1 <= k < |s| ==> IsJsSpace(s[k])
    ensures b.0 < b.1 ==> !IsJsSpace(s[b.0]) && !IsJsSpace(s[b.1 - 1])
  {
    var i := SpaceRunEnd(s, 0);
    (i, SpaceRunStart(s, i, |s|))
  }

  /** `s.trim()`. */
  function Trim(s: string): (r: string)
    ensures |r| <= |s|
    ensures r == [] <==> AllSpace(s)
  {
    var b := TrimBounds(s);
    s[b.0..b.1]
  }

  // ---------------------------------------------------------------------
  // string order

  /** `a <= b` in the code-point lexicographic order that JavaScript's default
      `sort` uses: a proper prefix comes first. */
  predicate Below(a: string, b: string)
    decreases |a|
  {
    |a| == 0 || (|b| > 0 && (a[0] < b[0] || (a[0] == b[0] && Below(a[1..], b[1..]))))
  }

  lemma {:induction false} BelowReflexive(a: string)
    ensures Below(a, a)
    decreases |a|
  {
    if |a| > 0 { BelowReflexive(a[1..]); }
  }

  lemma {:induction false} BelowTotal(a: string, b: string)
    ensures Below(a, b) || Below(b, a)
    decreases |a|
  {
    if |a| > 0 && |b| > 0 && a[0] == b[0] { BelowTotal(a[1..], b[1..]); }
  }

  lemma {:induction false} BelowAntisymmetric(a: string, b: string)
    requires Below(a, b) && Below(b, a)
    ensures a == b
    decreases |a|
  {
    if |a| > 0 {
      BelowAntisymmetric(a[1..], b[1..]);
      assert a == [a[0]] + a[1..] && b == [b[0]] + b[1..];
    }
  }

  lemma {:induction false} BelowTransitive(a: string, b: string, c: string)
    requires Below(a, b) && Below(b, c)
    ensures Below(a, c)
    decreases |a|
  {
    if |a| > 0 && a[0] == b[0] && b[0] == c[0] { BelowTransitive(a[1..], b[1..], c[1..]); }
  }

  /** Ascending in `Below`, adjacent pairs and hence all pairs. */
  predicate Ascending(s: seq<string>) {
    forall i, j :: 0 <= i < j < |s| ==> Below(s[i], s[j])
  }

  /** Strictly ascending: sorted with no two entries equal. */
  predicate StrictlyAscending(s: seq<string>) {
    forall i, j :: 0 <= i < j < |s| ==> Below(s[i], s[j]) && s[i] != s[j]
  }

  /** Insert `x` into an ascending list before the first entry above it. */
  function InsertAscending(x: string, s: seq<string>): (r: seq<string>)
    requires Ascending(s)
    ensures Ascending(r)
    ensures multiset(r) == multiset(s) + multiset{x}
    ensures forall k :: 0 <= k < |r| ==> r[k] == x || r[k] in s
  {
    if s == [] then [x]
    else if Below(x, s[0]) then
      assert forall j :: 0 < j < |s| ==> Below(x, s[j]) by {
        forall j | 0 < j < |s| ensures Below(x, s[j]) { BelowTransitive(x, s[0], s[j]); }
      }
      [x] + s
    else
      BelowTotal(x, s[0]);
      var t := InsertAscending(x, s[1..]);
      InsertAfterFirst(x, s, t);
      [s[0]] + t
  }

  /** The case of `InsertAscending` where `x` goes after the first entry. */
  lemma InsertAfterFirst(x: string, s: seq<string>, t: seq<string>)
    requires Ascending(s) && s != [] && Below(s[0], x)
    requires Ascending(t) && multiset(t) == multiset(s[1..]) + multiset{x}
    requires forall k :: 0 <= k < |t| ==> t[k] == x || t[k] in s[1..]
    ensures Ascending([s[0]] + t)
    ensures multiset([s[0]] + t) == multiset(s) + multiset{x}
    ensures forall k :: 0 <= k < |[s[0]] + t| ==> ([s[0]] + t)[k] == x || ([s[0]] + t)[k] in s
  {
    assert forall y :: y in s[1..] ==> Below(s[0], y) by {
      forall y | y in s[1..] ensures Below(s[0], y) {
        var j :| 0 <= j < |s[1..]| && s[1..][j] == y;
        assert s[j + 1] == y;
      }
    }
    var r := [s[0]] + t;
    forall i, j | 0 <= i < j < |r| ensures Below(r[i], r[j]) {
      if i > 0 {
        assert r[i] == t[i - 1] && r[j] == t[j - 1];
      } else {
        assert r[j] == t[j - 1];
      }
    }
    assert s == [s[0]] + s[1..];
  }

  /** `xs.sort()` on strings: an ascending permutation of `xs`. */
  function SortStrings(xs: seq<string>): (r: seq<string>)
    ensures Ascending(r)
    ensures multiset(r) == multiset(xs)
  {
    if xs == [] then []
    else
      assert xs == xs[..|xs| - 1] + [xs[|xs| - 1]];
      InsertAscending(xs[|xs| - 1], SortStrings(xs[..|xs| - 1]))
  }

  /** On an ascending list, Distinct yields a strictly ascending one. */
  lemma {:induction false} DistinctOfAscending(xs: seq<string>)
    requires Ascending(xs)
    ensures StrictlyAscending(Distinct(xs))
    decreases |xs|
  {
    if xs != [] {
      var init := xs[..|xs| - 1];
      var x := xs[|xs| - 1];
      assert Ascending(init);
      DistinctOfAscending(init);
      var d := Distinct(init);
      if x !in d {
        forall i | 0 <= i < |d| ensures Below(d[i], x) {
          assert d[i] in init;
          var k :| 0 <= k < |init| && init[k] == d[i];
          assert xs[k] == d[i];
        }
      }
    }
  }

  /** Sorting a duplicate-free list keeps it duplicate-free. */
  lemma SortKeepsNoDuplicates(xs: seq<string>)
    requires NoDuplicates(xs)
    ensures StrictlyAscending(SortStrings(xs))
  {
    var r := SortStrings(xs);
    forall i, j | 0 <= i < j < |r| ensures r[i] != r[j] {
      if r[i] == r[j] {
        TwoOccurrences(r, i, j);
        MultisetAtMostOnce(xs, r[i]);
      }
    }
  }
}
