/** Python's ordering of strings (code point by code point, a proper prefix
    first) and `sorted(set(xs))` over a list of strings. */
module Sorting {

  /** Python's `a < b` on `str`. */
  predicate Less(a: string, b: string)
    decreases |a|
  {
    if |a| == 0 then |b| > 0
    else if |b| == 0 then false
    else if a[0] != b[0] then a[0] < b[0]
    else Less(a[1..], b[1..])
  }

  /** `a` and `b` agree below index `k` and differ upward at `k`. */
  predicate FirstDifferenceAt(a: string, b: string, k: int) {
    0 <= k < |a| && k < |b| && a[..k] == b[..k] && a[k] < b[k]
  }

  /** The textbook definition of lexicographic order: `a` is a proper prefix of
      `b`, or the first code point where they differ is smaller in `a`. */
  lemma {:induction false} LessIsLexicographic(a: string, b: string)
    ensures Less(a, b) <==>
      (|a| < |b| && a == b[..|a|]) || exists k :: FirstDifferenceAt(a, b, k)
    decreases |a|
  {
    if |a| > 0 && |b| > 0 {
      LessIsLexicographic(a[1..], b[1..]);
      if a[0] == b[0] {
        if exists k :: FirstDifferenceAt(a[1..], b[1..], k) {
          var k :| FirstDifferenceAt(a[1..], b[1..], k);
          assert a[..k + 1] == [a[0]] + a[1..][..k];
          assert b[..k + 1] == [b[0]] + b[1..][..k];
          assert FirstDifferenceAt(a, b, k + 1);
        }
        if exists k :: FirstDifferenceAt(a, b, k) {
          var k :| FirstDifferenceAt(a, b, k);
          assert k > 0;
          assert a[1..][..k - 1] == a[..k][1..];
          assert b[1..][..k - 1] == b[..k][1..];
          assert FirstDifferenceAt(a[1..], b[1..], k - 1);
        }
        assert a == [a[0]] + a[1..] && b == [b[0]] + b[1..];
        assert (|a| < |b| && a == b[..|a|]) <==>
          (|a[1..]| < |b[1..]| && a[1..] == b[1..][..|a[1..]|]);
      } else {
        if a[0] < b[0] {
          assert FirstDifferenceAt(a, b, 0);
        } else {
          assert !exists k :: FirstDifferenceAt(a, b, k);
        }
        assert |a| < |b| ==> a[0] != b[..|a|][0];
      }
    } else if |a| == 0 {
      assert a == b[..0];
    }
  }

  lemma {:induction false} LessIrreflexive(a: string)
    ensures !Less(a, a)
    decreases |a|
  {
    if |a| > 0 { LessIrreflexive(a[1..]); }
  }

  lemma {:induction false} LessTransitive(a: string, b: string, c: string)
    requires Less(a, b) && Less(b, c)
    ensures Less(a, c)
    decreases |a|
  {
    if |a| > 0 && a[0] == b[0] && b[0] == c[0] {
      LessTransitive(a[1..], b[1..], c[1..]);
    }
  }

  /** Any two different strings are ordered one way or the other. */
  lemma {:induction false} LessTotal(a: string, b: string)
    requires a != b
    ensures Less(a, b) || Less(b, a)
    decreases |a|
  {
    if |a| > 0 && |b| > 0 && a[0] == b[0] {
      assert a == [a[0]] + a[1..] && b == [b[0]] + b[1..];
      LessTotal(a[1..], b[1..]);
    }
  }

  lemma LessAsymmetric(a: string, b: string)
    requires Less(a, b)
    ensures !Less(b, a)
  {
    if Less(b, a) {
      LessTransitive(a, b, a);
      LessIrreflexive(a);
    }
  }

  /** The empty string comes before every other string. */
  lemma EmptyIsLeast(a: string)
    requires a != ""
    ensures Less("", a) && !Less(a, "")
  {
  }

  predicate StrictlyIncreasing(s: seq<string>) {
    forall i, j :: 0 <= i < j < |s| ==> Less(s[i], s[j])
  }

  /** The set of items of a list: Python's `set(xs)`. */
  function Elems<T>(xs: seq<T>): set<T> {
    set x | x in xs
  }

  predicate Distinct<T(==)>(xs: seq<T>) {
    forall i, j :: 0 <= i < j < |xs| ==> xs[i] != xs[j]
  }

  /** Inserts `x` into a strictly increasing list unless it is already there. */
  function Insert(x: string, s: seq<string>): (r: seq<string>)
    requires StrictlyIncreasing(s)
    ensures StrictlyIncreasing(r)
    ensures Elems(r) == Elems(s) + {x}
  {
    if s == [] then [x]
    else if x == s[0] then
      ElemsCons(s);
      s
    else if Less(x, s[0]) then
      InsertFront(x, s);
      [x] + s
    else
      var t := Insert(x, s[1..]);
      InsertLater(x, s, t);
      [s[0]] + t
  }

  lemma ElemsCons<T>(s: seq<T>)
    requires s != []
    ensures Elems(s) == {s[0]} + Elems(s[1..])
  {
    assert s == [s[0]] + s[1..];
  }

  lemma InsertFront(x: string, s: seq<string>)
    requires StrictlyIncreasing(s) && s != [] && Less(x, s[0])
    ensures StrictlyIncreasing([x] + s)
    ensures Elems([x] + s) == Elems(s) + {x}
  {
    forall j | 0 < j < |s| ensures Less(x, s[j]) {
      LessTransitive(x, s[0], s[j]);
    }
    ElemsCons([x] + s);
    assert ([x] + s)[1..] == s;
  }

  lemma InsertLater(x: string, s: seq<string>, t: seq<string>)
    requires StrictlyIncreasing(s) && s != [] && x != s[0] && !Less(x, s[0])
    requires StrictlyIncreasing(t) && Elems(t) == Elems(s[1..]) + {x}
    ensures StrictlyIncreasing([s[0]] + t)
    ensures Elems([s[0]] + t) == Elems(s) + {x}
  {
    LessTotal(x, s[0]);
    forall y | y in t ensures Less(s[0], y) {
      assert y in Elems(t);
    }
    ElemsCons(s);
    ElemsCons([s[0]] + t);
    assert ([s[0]] + t)[1..] == t;
  }

  /** `sorted(set(xs))`: the items of `xs`, each once, in increasing order. */
  function SortedSet(xs: seq<string>): (r: seq<string>)
    ensures StrictlyIncreasing(r)
    ensures Elems(r) == Elems(xs)
  {
    if xs == [] then []
    else
      var init := xs[..|xs| - 1];
      assert Elems(xs) == Elems(init) + {xs[|xs| - 1]} by {
        assert xs == init + [xs[|xs| - 1]];
      }
      Insert(xs[|xs| - 1], SortedSet(init))
  }

  /** A strictly increasing list is determined by its set of items; so any
      sorting algorithm applied to `set(xs)` yields `SortedSet(xs)`. */
  lemma {:induction false} IncreasingIsDeterminedBySet(a: seq<string>, b: seq<string>)
    requires StrictlyIncreasing(a) && StrictlyIncreasing(b)
    requires Elems(a) == Elems(b)
    ensures a == b
    decreases |a|
  {
    if a != [] && b != [] {
      assert a[0] == b[0] by {
        if a[0] != b[0] {
          assert a[0] in Elems(b) && b[0] in Elems(a);
          var i :| 0 <= i < |b| && b[i] == a[0];
          var j :| 0 <= j < |a| && a[j] == b[0];
          assert i > 0 && j > 0;
          assert Less(b[0], a[0]) && Less(a[0], b[0]);
          LessAsymmetric(a[0], b[0]);
        }
      }
      assert Elems(a[1..]) == Elems(b[1..]) by {
        assert a == [a[0]] + a[1..] && b == [b[0]] + b[1..];
        forall y | y in Elems(a[1..]) ensures y in Elems(b[1..]) {
          TailElem(a, b, y);
        }
        forall y | y in Elems(b[1..]) ensures y in Elems(a[1..]) {
          TailElem(b, a, y);
        }
      }
      IncreasingIsDeterminedBySet(a[1..], b[1..]);
      assert a == [a[0]] + a[1..] && b == [b[0]] + b[1..];
    } else {
      ElemsEmpty(a);
      ElemsEmpty(b);
    }
  }

  lemma ElemsEmpty<T>(xs: seq<T>)
    ensures Elems(xs) == {} <==> xs == []
  {
    if xs != [] { assert xs[0] in Elems(xs); }
  }

  lemma TailElem(a: seq<string>, b: seq<string>, y: string)
    requires StrictlyIncreasing(a) && StrictlyIncreasing(b)
    requires Elems(a) == Elems(b) && a != [] && b != [] && a[0] == b[0]
    requires y in a[1..]
    ensures y in b[1..]
  {
    var j :| 0 <= j < |a[1..]| && a[1..][j] == y;
    assert y in Elems(b);
    var i :| 0 <= i < |b| && b[i] == y;
    if i == 0 {
      assert Less(a[0], a[j + 1]);
      LessIrreflexive(a[0]);
    } else {
      assert b[1..][i - 1] == y;
    }
  }

  lemma IncreasingIsDistinct(s: seq<string>)
    requires StrictlyIncreasing(s)
    ensures Distinct(s)
  {
    forall i, j | 0 <= i < j < |s| ensures s[i] != s[j] {
      if s[i] == s[j] { LessIrreflexive(s[i]); }
    }
  }

  /** A list has at most as many different items as it has items, and exactly
      as many when no item repeats. */
  lemma {:induction false} ElemsCardinality<T>(xs: seq<T>)
    ensures |Elems(xs)| <= |xs|
    ensures |Elems(xs)| == |xs| <==> Distinct(xs)
  {
    if xs != [] {
      var t := xs[1..];
      ElemsCardinality(t);
      ElemsCons(xs);
      if xs[0] in t {
        assert xs[0] in Elems(t);
        assert Elems(xs) == Elems(t);
        RepeatedHead(xs);
      } else {
        assert xs[0] !in Elems(t);
        assert |Elems(xs)| == |Elems(t)| + 1;
        DistinctCons(xs);
      }
    }
  }

  lemma RepeatedHead<T>(xs: seq<T>)
    requires xs != [] && xs[0] in xs[1..]
    ensures !Distinct(xs)
  {
    var j :| 0 <= j < |xs[1..]| && xs[1..][j] == xs[0];
    assert xs[0] == xs[j + 1];
  }

  lemma DistinctCons<T>(xs: seq<T>)
    requires xs != [] && xs[0] !in xs[1..]
    ensures Distinct(xs) <==> Distinct(xs[1..])
  {
    var t := xs[1..];
    if Distinct(t) {
      forall i, j | 0 <= i < j < |xs| ensures xs[i] != xs[j] {
        if i > 0 { assert xs[i] == t[i - 1] && xs[j] == t[j - 1]; }
        else { assert xs[j] == t[j - 1]; }
      }
    }
    if Distinct(xs) {
      forall i, j | 0 <= i < j < |t| ensures t[i] != t[j] {
        assert t[i] == xs[i + 1] && t[j] == xs[j + 1];
      }
    }
  }

  /** `sorted(set(xs))` has as many items as `xs` has different items. */
  lemma SortedSetLength(xs: seq<string>)
    ensures |SortedSet(xs)| == |Elems(xs)| <= |xs|
    ensures |SortedSet(xs)| == |xs| <==> Distinct(xs)
  {
    var r := SortedSet(xs);
    IncreasingIsDistinct(r);
    ElemsCardinality(r);
    ElemsCardinality(xs);
  }

  /** When `""` is among the items it comes first in `sorted(set(xs))`. */
  lemma EmptyStringFirst(xs: seq<string>)
    requires "" in xs
    ensures SortedSet(xs) != [] && SortedSet(xs)[0] == ""
  {
    var r := SortedSet(xs);
    assert "" in Elems(xs);
    var k :| 0 <= k < |r| && r[k] == "";
  }
}
