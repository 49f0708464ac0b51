/**
 * File URLs as lists of path components, the name rules that FileItem and the
 * controller apply to them, and the name order used to sort every listing.
 *
 * A path is the list of its components below the root: `/Users/me` is
 * `["Users", "me"]` and the root `/` is `[]`. Paths are taken to be
 * standardized already (no `.` or `..` components), so `standardized` is the
 * identity here.
 */
module Paths {

  type Name = string
  type Path = seq<Name>

  /** The root directory `/`. */
  const Root: Path := []

  /** `URL.lastPathComponent`: the final component, and "/" for the root. */
  function LastPathComponent(p: Path): (r: string)
    ensures p != Root ==> r == p[|p| - 1]
    ensures p == Root ==> r == "/"
  {
    if p == [] then "/" else p[|p| - 1]
  }

  /** `URL.deletingLastPathComponent()`; the parent of the root is the root. */
  function Parent(p: Path): (r: Path)
    ensures p != Root ==> |r| == |p| - 1 && p == r + [LastPathComponent(p)]
    ensures r == p <==> p == Root
  {
    if p == [] then [] else p[..|p| - 1]
  }

  /**
   * `pathExtension` of a file name: the text after its last dot, where a dot
   * in first position (a hidden file such as ".app") does not start an
   * extension. A name with no such dot has the empty extension.
   */
  function Extension(name: Name): (r: string)
    ensures '.' !in r
    ensures r != "" ==> |r| + 1 < |name| && name[|name| - |r| - 1] == '.' && r == name[|name| - |r|..]
  {
    ExtensionFrom(name, |name|)
  }

  /** Looks for the last dot among positions 1 .. k-1 of `name`; none lies at k or beyond. */
  function ExtensionFrom(name: Name, k: nat): (r: string)
    requires k <= |name|
    requires forall i :: k <= i < |name| ==> name[i] != '.'
    ensures '.' !in r
    ensures r != "" ==> |r| + 1 < |name| && name[|name| - |r| - 1] == '.' && r == name[|name| - |r|..]
    decreases k
  {
    if k <= 1 then ""
    else if name[k - 1] == '.' then name[k..]
    else ExtensionFrom(name, k - 1)
  }

  /** The extension that marks an application bundle. */
  const AppExtension: string := "app"

  /** `fileURL.pathExtension == "app"`, as the controller decides `isAppBundle`. */
  predicate IsAppBundlePath(p: Path) {
    Extension(LastPathComponent(p)) == AppExtension
  }

  /** Any name of the form `<stem>.app` with a non-empty stem names an app bundle. */
  lemma AppSuffixIsBundle(stem: Name)
    requires |stem| > 0
    ensures Extension(stem + ".app") == AppExtension
  {
    var name := stem + ".app";
    assert name[|stem|..] == ".app";
    ExtensionAfterLastDot(name, |stem|, |name|);
  }

  /**
   * A dot past the first position with no dot after it starts the extension:
   * the extension is the text after the last dot.
   */
  lemma {:induction false} ExtensionAfterLastDot(name: Name, d: nat, k: nat)
    requires 1 <= d < k <= |name| && name[d] == '.'
    requires forall i :: d < i < |name| ==> name[i] != '.'
    ensures ExtensionFrom(name, k) == name[d + 1..]
    decreases k
  {
    if k - 1 > d {
      ExtensionAfterLastDot(name, d, k - 1);
    }
  }

  // ---------------------------------------------------------------------------
  // Name order

  /**
   * Lexicographic order on names by character code, standing for Swift's
   * `lastPathComponent < lastPathComponent` comparison (non-strict here).
   */
  predicate NameLessEq(a: Name, b: Name)
    decreases |a|
  {
    |a| == 0 || (|b| > 0 && (a[0] < b[0] || (a[0] == b[0] && NameLessEq(a[1..], b[1..]))))
  }

  lemma {:induction false} NameLessEqReflexive(a: Name)
    ensures NameLessEq(a, a)
    decreases |a|
  {
    if |a| > 0 {
      NameLessEqReflexive(a[1..]);
    }
  }

  lemma {:induction false} NameLessEqTotal(a: Name, b: Name)
    ensures NameLessEq(a, b) || NameLessEq(b, a)
    decreases |a|
  {
    if |a| > 0 && |b| > 0 && a[0] == b[0] {
      NameLessEqTotal(a[1..], b[1..]);
    }
  }

  lemma {:induction false} NameLessEqTransitive(a: Name, b: Name, c: Name)
    requires NameLessEq(a, b) && NameLessEq(b, c)
    ensures NameLessEq(a, c)
    decreases |a|
  {
    if |a| > 0 && a[0] == b[0] && b[0] == c[0] {
      NameLessEqTransitive(a[1..], b[1..], c[1..]);
    }
  }

  lemma {:induction false} NameLessEqAntisymmetric(a: Name, b: Name)
    requires NameLessEq(a, b) && NameLessEq(b, a)
    ensures a == b
    decreases |a|
  {
    if |a| > 0 {
      NameLessEqAntisymmetric(a[1..], b[1..]);
      assert a == [a[0]] + a[1..] && b == [b[0]] + b[1..];
    }
  }

  /** Ascending by name: every earlier name is at most every later one. */
  ghost predicate Sorted(s: seq<Name>) {
    forall i, j :: 0 <= i < j < |s| ==> NameLessEq(s[i], s[j])
  }

  /** Inserts `x` into a sorted list, after every name smaller than it. */
  function Insert(x: Name, s: seq<Name>): (r: seq<Name>)
    requires Sorted(s)
    ensures Sorted(r)
    ensures multiset(r) == multiset(s) + multiset{x}
    ensures |r| == |s| + 1
  {
    if s == [] then [x]
    else if NameLessEq(x, s[0]) then
      InsertFrontSorted(x, s);
      [x] + s
    else
      SortedTail(s);
      var t := Insert(x, s[1..]);
      InsertBehindSorted(x, s, t);
      assert s == [s[0]] + s[1..];
      [s[0]] + t
  }

  lemma InsertFrontSorted(x: Name, s: seq<Name>)
    requires Sorted(s) && s != [] && NameLessEq(x, s[0])
    ensures Sorted([x] + s)
  {
    forall i, j | 0 <= i < j < |s| + 1 ensures NameLessEq(([x] + s)[i], ([x] + s)[j]) {
      if i == 0 {
        if j > 1 {
          NameLessEqTransitive(x, s[0], s[j - 1]);
        }
      } else {
        assert ([x] + s)[i] == s[i - 1] && ([x] + s)[j] == s[j - 1];
      }
    }
  }

  lemma InsertBehindSorted(x: Name, s: seq<Name>, t: seq<Name>)
    requires Sorted(s) && s != [] && !NameLessEq(x, s[0])
    requires Sorted(t) && multiset(t) == multiset(s[1..]) + multiset{x}
    ensures Sorted([s[0]] + t)
  {
    NameLessEqTotal(x, s[0]);
    forall k | 0 <= k < |t| ensures NameLessEq(s[0], t[k]) {
      assert t[k] in multiset(t);
      if t[k] != x {
        assert t[k] in multiset(s[1..]);
        var j :| 0 <= j < |s[1..]| && s[1..][j] == t[k];
        assert s[j + 1] == t[k];
      }
    }
    forall i, j | 0 <= i < j < |t| + 1 ensures NameLessEq(([s[0]] + t)[i], ([s[0]] + t)[j]) {
      if i > 0 {
        assert ([s[0]] + t)[i] == t[i - 1] && ([s[0]] + t)[j] == t[j - 1];
      }
    }
  }

  /** `sorted(by: { $0.lastPathComponent < $1.lastPathComponent })` on names. */
  function Sort(s: seq<Name>): (r: seq<Name>)
    ensures Sorted(r)
    ensures multiset(r) == multiset(s)
    ensures |r| == |s|
  {
    if s == [] then []
    else
      assert s == [s[0]] + s[1..];
      Insert(s[0], Sort(s[1..]))
  }

  /** Sorting neither adds nor drops a name. */
  lemma SortKeepsNames(s: seq<Name>, n: Name)
    ensures n in Sort(s) <==> n in s
  {
    assert n in Sort(s) <==> n in multiset(Sort(s));
    assert n in s <==> n in multiset(s);
  }

  /** Sorting fixes the order completely: any sorted arrangement of the same names is the result. */
  lemma {:induction false} SortUnique(s: seq<Name>, t: seq<Name>)
    requires Sorted(t) && multiset(t) == multiset(s)
    ensures Sort(s) == t
  {
    SortedPermutationsEqual(Sort(s), t);
  }

  lemma {:induction false} SortedPermutationsEqual(a: seq<Name>, b: seq<Name>)
    requires Sorted(a) && Sorted(b) && multiset(a) == multiset(b)
    ensures a == b
    decreases |a|
  {
    assert |a| == |multiset(a)| == |multiset(b)| == |b|;
    if |a| > 0 {
      SortedHeadsEqual(a, b);
      SortedTail(a);
      SortedTail(b);
      MultisetTail(a);
      MultisetTail(b);
      SortedPermutationsEqual(a[1..], b[1..]);
      assert a == [a[0]] + a[1..] && b == [b[0]] + b[1..];
    }
  }

  /** Two sorted arrangements of the same names start with the same name, their minimum. */
  lemma SortedHeadsEqual(a: seq<Name>, b: seq<Name>)
    requires Sorted(a) && Sorted(b) && multiset(a) == multiset(b) && |a| > 0
    ensures |b| > 0 && a[0] == b[0]
  {
    assert a[0] in multiset(b);
    var j :| 0 <= j < |b| && b[j] == a[0];
    assert b[0] in multiset(a);
    var i :| 0 <= i < |a| && a[i] == b[0];
    NameLessEqReflexive(a[0]);
    assert NameLessEq(b[0], a[0]) by { if j > 0 { assert NameLessEq(b[0], b[j]); } }
    assert NameLessEq(a[0], b[0]) by { if i > 0 { assert NameLessEq(a[0], a[i]); } }
    NameLessEqAntisymmetric(a[0], b[0]);
  }

  lemma SortedTail(a: seq<Name>)
    requires Sorted(a) && |a| > 0
    ensures Sorted(a[1..])
  {
    forall i, j | 0 <= i < j < |a| - 1 ensures NameLessEq(a[1..][i], a[1..][j]) {
      assert a[1..][i] == a[i + 1] && a[1..][j] == a[j + 1];
    }
  }

  lemma MultisetTail(a: seq<Name>)
    requires |a| > 0
    ensures multiset(a[1..]) == multiset(a) - multiset{a[0]}
  {
    assert a == [a[0]] + a[1..];
    assert multiset(a) == multiset{a[0]} + multiset(a[1..]);
  }

  /** The ordering example: "b.txt", "A.txt", "c" list as "A.txt", "b.txt", "c". */
  lemma SortExample()
    ensures Sort(["b.txt", "A.txt", "c"]) == ["A.txt", "b.txt", "c"]
  {
    var t := ["A.txt", "b.txt", "c"];
    assert NameLessEq("A.txt", "b.txt") && NameLessEq("b.txt", "c") && NameLessEq("A.txt", "c");
    assert Sorted(t);
    assert multiset(t) == multiset(["b.txt", "A.txt", "c"]);
    SortUnique(["b.txt", "A.txt", "c"], t);
  }
}
