/** The Python string and list builtins the core relies on: `str.strip()`,
    `str.lstrip(chars)`, `str.split(sep)`, `sep.join(xs)` and slicing `xs[:n]`.
    Strings are sequences of Unicode code points, as Python's are. */
module PyStr {

  /** Python's `str.isspace()` on one code point; `str.strip()` with no
      argument removes exactly these characters. */
  predicate IsSpace(c: char) {
    || '\t' <= c <= '\r' || '\U{1C}' <= c <= '\U{1F}' || c == ' '
    || c == '\U{85}' || c == '\U{A0}' || c == '\U{1680}'
    || '\U{2000}' <= c <= '\U{200A}'
    || c == '\U{2028}' || c == '\U{2029}' || c == '\U{202F}' || c == '\U{205F}' || c == '\U{3000}'
  }

  /** The `chars` argument of `lstrip`/`rstrip`/`strip`: omitted (whitespace)
      or a set of characters. */
  datatype StripChars = Whitespace | Chars(chars: set<char>)

  predicate Strippable(c: char, which: StripChars) {
    match which
    case Whitespace => IsSpace(c)
    case Chars(cs) => c in cs
  }

  /** No leading and no trailing whitespace. */
  predicate IsTrimmed(s: string) {
    s == [] || (!IsSpace(s[0]) && !IsSpace(s[|s| - 1]))
  }

  /** `r` occurs in `s` as a contiguous substring starting at index `i`. */
  predicate OccursAt(r: string, s: string, i: int) {
    0 <= i <= |s| - |r| && s[i..i + |r|] == r
  }

  predicate IsInfix(r: string, s: string) {
    exists i :: 0 <= i <= |s| && OccursAt(r, s, i)
  }

  lemma InfixTransitive(a: string, b: string, c: string, i: int, j: int)
    requires OccursAt(a, b, i) && OccursAt(b, c, j)
    ensures OccursAt(a, c, i + j) && IsInfix(a, c)
  {
    forall k | 0 <= k < |a| ensures c[i + j + k] == a[k] {
      assert a[k] == b[i + k] == c[j + i + k];
    }
    assert c[i + j..i + j + |a|] == a;
    assert 0 <= i + j <= |c| && OccursAt(a, c, i + j);
  }

  /** How many characters at the front of `s` are in `chars`: the run stops
      at the end of `s` or at the first character not in `chars`. */
  function LeadingRun(s: string, chars: StripChars): (n: nat)
    ensures n <= |s|
    ensures n == |s| || !Strippable(s[n], chars)
  {
    if s == [] || !Strippable(s[0], chars) then 0 else 1 + LeadingRun(s[1..], chars)
  }

  /** Every character of the leading run is in `chars`. */
  lemma {:induction false} LeadingRunStrippable(s: string, chars: StripChars)
    ensures forall i :: 0 <= i < LeadingRun(s, chars) ==> Strippable(s[i], chars)
  {
    if s != [] && Strippable(s[0], chars) {
      LeadingRunStrippable(s[1..], chars);
      forall i | 0 < i < LeadingRun(s, chars) ensures Strippable(s[i], chars) {
        assert s[i] == s[1..][i - 1];
      }
    }
  }

  /** How many characters at the back of `s` are in `chars`. */
  function TrailingRun(s: string, chars: StripChars): (n: nat)
    ensures n <= |s|
    ensures n == |s| || !Strippable(s[|s| - 1 - n], chars)
  {
    if s == [] || !Strippable(s[|s| - 1], chars) then 0 else 1 + TrailingRun(s[..|s| - 1], chars)
  }

  /** Every character of the trailing run is in `chars`. */
  lemma {:induction false} TrailingRunStrippable(s: string, chars: StripChars)
    ensures forall i :: |s| - TrailingRun(s, chars) <= i < |s| ==> Strippable(s[i], chars)
  {
    if s != [] && Strippable(s[|s| - 1], chars) {
      TrailingRunStrippable(s[..|s| - 1], chars);
    }
  }

  /** `s.lstrip(chars)`: `s` without its leading run. */
  function LStrip(s: string, chars: StripChars): (r: string)
    ensures OccursAt(r, s, LeadingRun(s, chars)) && |r| == |s| - LeadingRun(s, chars)
    ensures r == [] || !Strippable(r[0], chars)
  {
    s[LeadingRun(s, chars)..]
  }

  /** `s.rstrip(chars)`: `s` without its trailing run. */
  function RStrip(s: string, chars: StripChars): (r: string)
    ensures OccursAt(r, s, 0) && |r| == |s| - TrailingRun(s, chars)
    ensures r == [] || !Strippable(r[|r| - 1], chars)
  {
    s[..|s| - TrailingRun(s, chars)]
  }

  /** `s.strip(chars)`, by default `s.strip()`: `s` without its leading and
      trailing runs; it begins where the leading run ends and neither of its
      ends is in `chars`. */
  function Strip(s: string, chars: StripChars := Whitespace): (r: string)
    ensures OccursAt(r, s, LeadingRun(s, chars))
    ensures r == [] || (!Strippable(r[0], chars) && !Strippable(r[|r| - 1], chars))
  {
    var l := LStrip(s, chars);
    var r := RStrip(l, chars);
    assert r == [] || r[0] == l[0];
    InfixTransitive(r, l, s, 0, LeadingRun(s, chars));
    r
  }

  /** `strip` cuts off only characters in `chars`, and yields `""` exactly
      when every character of `s` is in `chars`. */
  lemma StripRemovesOnlyStrippable(s: string, chars: StripChars)
    ensures var r := Strip(s, chars);
      && (forall k :: 0 <= k < LeadingRun(s, chars) ==> Strippable(s[k], chars))
      && (forall k :: LeadingRun(s, chars) + |r| <= k < |s| ==> Strippable(s[k], chars))
      && (r == [] <==> forall k :: 0 <= k < |s| ==> Strippable(s[k], chars))
  {
    var i := LeadingRun(s, chars);
    var l := LStrip(s, chars);
    var r := Strip(s, chars);
    LeadingRunStrippable(s, chars);
    TrailingRunStrippable(l, chars);
    forall k | i + |r| <= k < |s| ensures Strippable(s[k], chars) {
      assert s[k] == l[k - i];
    }
  }

  /** `s.strip()` leaves no whitespace at either end. */
  lemma StripIsTrimmed(s: string)
    ensures IsTrimmed(Strip(s))
  {
  }

  /** `strip()` leaves an already trimmed string as it is. */
  lemma StripTrimmed(s: string)
    requires IsTrimmed(s)
    ensures Strip(s) == s
  {
    assert LeadingRun(s, Whitespace) == 0;
    assert TrailingRun(s, Whitespace) == 0;
  }

  /** A leading character in `chars` makes no difference to `strip`. */
  lemma StripDropsLeading(c: char, s: string, chars: StripChars)
    requires Strippable(c, chars)
    ensures Strip([c] + s, chars) == Strip(s, chars)
  {
    assert ([c] + s)[1..] == s;
    assert LStrip([c] + s, chars) == LStrip(s, chars);
  }

  /** Number of occurrences of `c` in `s`. */
  function Count(s: string, c: char): nat {
    if s == [] then 0 else (if s[0] == c then 1 else 0) + Count(s[1..], c)
  }

  lemma {:induction false} CountZero(s: string, c: char)
    ensures Count(s, c) == 0 <==> c !in s
  {
    if s != [] {
      CountZero(s[1..], c);
      assert c in s <==> s[0] == c || c in s[1..];
    }
  }

  /** `s.split(sep)` for a one-character separator: `Count(s, sep) + 1`
      pieces, none containing `sep`. */
  function Split(s: string, sep: char): (r: seq<string>)
    ensures |r| == Count(s, sep) + 1
    ensures forall i :: 0 <= i < |r| ==> sep !in r[i]
    decreases |s|
  {
    if s == [] then [""]
    else
      var rest := Split(s[1..], sep);
      if s[0] == sep then [""] + rest
      else [[s[0]] + rest[0]] + rest[1..]
  }

  /** Every piece of a split is a contiguous piece of the string, the first
      one at its start. */
  lemma {:induction false} SplitPiecesAreInfixes(s: string, sep: char)
    ensures OccursAt(Split(s, sep)[0], s, 0)
    ensures forall i :: 0 <= i < |Split(s, sep)| ==> IsInfix(Split(s, sep)[i], s)
    decreases |s|
  {
    var r := Split(s, sep);
    if s == [] {
      assert OccursAt(r[0], s, 0);
    } else {
      var t := s[1..];
      var rest := Split(t, sep);
      SplitPiecesAreInfixes(t, sep);
      assert OccursAt(t, s, 1);
      forall i | 0 <= i < |rest| ensures IsInfix(rest[i], s) {
        var j :| 0 <= j <= |t| && OccursAt(rest[i], t, j);
        InfixTransitive(rest[i], t, s, j, 1);
      }
      if s[0] == sep {
        assert OccursAt(r[0], s, 0);
        forall i | 0 < i < |r| ensures IsInfix(r[i], s) {
          assert r[i] == rest[i - 1];
        }
      } else {
        assert s[..1 + |rest[0]|] == [s[0]] + t[..|rest[0]|];
        assert OccursAt(r[0], s, 0);
        forall i | 0 < i < |r| ensures IsInfix(r[i], s) {
          assert r[i] == rest[i];
        }
      }
    }
  }

  /** `sep.join(xs)`. */
  function Join(sep: string, xs: seq<string>): string {
    if |xs| == 0 then ""
    else if |xs| == 1 then xs[0]
    else xs[0] + sep + Join(sep, xs[1..])
  }

  function TotalLength(xs: seq<string>): nat {
    if xs == [] then 0 else |xs[0]| + TotalLength(xs[1..])
  }

  /** A join holds every item once and one separator between each two. */
  lemma {:induction false} JoinLength(sep: string, xs: seq<string>)
    ensures xs != [] ==> |Join(sep, xs)| == TotalLength(xs) + |sep| * (|xs| - 1)
  {
    if |xs| > 1 {
      JoinLength(sep, xs[1..]);
    }
  }

  lemma JoinConsHead(sep: string, a: string, b: string, t: seq<string>)
    ensures Join(sep, [a + b] + t) == a + Join(sep, [b] + t)
  {
    if t != [] {
      assert ([a + b] + t)[1..] == t == ([b] + t)[1..];
    }
  }

  /** Joining the pieces of a split with the separator gives back the string. */
  lemma {:induction false} SplitJoin(s: string, sep: char)
    ensures Join([sep], Split(s, sep)) == s
    decreases |s|
  {
    if s != [] {
      var rest := Split(s[1..], sep);
      SplitJoin(s[1..], sep);
      if s[0] == sep {
        assert ([""] + rest)[1..] == rest;
        assert s == [sep] + s[1..];
      } else {
        JoinConsHead([sep], [s[0]], rest[0], rest[1..]);
        assert [rest[0]] + rest[1..] == rest;
        assert s == [s[0]] + s[1..];
      }
    }
  }

  lemma {:induction false} SplitNoSeparatorPrefix(a: string, t: string, sep: char)
    requires sep !in a
    ensures Split(a + t, sep) == [a + Split(t, sep)[0]] + Split(t, sep)[1..]
    decreases |a|
  {
    if a != [] {
      assert (a + t)[0] == a[0] && (a + t)[1..] == a[1..] + t;
      SplitNoSeparatorPrefix(a[1..], t, sep);
      assert [a[0]] + (a[1..] + Split(t, sep)[0]) == a + Split(t, sep)[0];
    } else {
      assert a + t == t && a + Split(t, sep)[0] == Split(t, sep)[0];
      assert [Split(t, sep)[0]] + Split(t, sep)[1..] == Split(t, sep);
    }
  }

  /** Splitting a join of separator-free pieces gives back the pieces. */
  lemma {:induction false} JoinSplit(xs: seq<string>, sep: char)
    requires xs != []
    requires forall i :: 0 <= i < |xs| ==> sep !in xs[i]
    ensures Split(Join([sep], xs), sep) == xs
  {
    if |xs| == 1 {
      SplitNoSeparatorPrefix(xs[0], "", sep);
      assert xs[0] + "" == xs[0];
    } else {
      var j := Join([sep], xs[1..]);
      JoinSplit(xs[1..], sep);
      assert Split([sep] + j, sep) == [""] + xs[1..] by {
        assert ([sep] + j)[1..] == j;
      }
      assert Join([sep], xs) == xs[0] + ([sep] + j);
      SplitNoSeparatorPrefix(xs[0], [sep] + j, sep);
      assert xs[0] + "" == xs[0];
      assert [xs[0]] + xs[1..] == xs;
    }
  }

  /** A join begins with its first item's first character and ends with its
      last item's last character. */
  lemma {:induction false} JoinEnds(sep: string, xs: seq<string>)
    requires xs != [] && forall i :: 0 <= i < |xs| ==> xs[i] != []
    ensures var j := Join(sep, xs);
      j != [] && j[0] == xs[0][0] && j[|j| - 1] == xs[|xs| - 1][|xs[|xs| - 1]| - 1]
  {
    if |xs| > 1 {
      var rest := xs[1..];
      assert rest[|rest| - 1] == xs[|xs| - 1];
      assert forall i :: 0 <= i < |rest| ==> rest[i] == xs[i + 1];
      JoinEnds(sep, rest);
      var tail := Join(sep, rest);
      var j := xs[0] + sep + tail;
      assert Join(sep, xs) == j;
      assert j[0] == xs[0][0];
      assert j[|j| - 1] == tail[|tail| - 1];
    }
  }

  /** A string that ends with the separator splits into pieces the last of
      which is empty. */
  lemma {:induction false} SplitTrailingSeparator(s: string, sep: char)
    requires s != [] && s[|s| - 1] == sep
    ensures Split(s, sep)[|Split(s, sep)| - 1] == ""
    decreases |s|
  {
    var rest := Split(s[1..], sep);
    if |s| == 1 {
      assert rest == [""];
    } else {
      SplitTrailingSeparator(s[1..], sep);
      assert sep in s[1..] by { assert s[1..][|s| - 2] == sep; }
      CountZero(s[1..], sep);
    }
  }

  /** The lists of `xss` one after another: what repeated `extend` builds. */
  function Flatten<T>(xss: seq<seq<T>>): seq<T> {
    if xss == [] then [] else Flatten(xss[..|xss| - 1]) + xss[|xss| - 1]
  }

  /** Flattening distributes over concatenation. */
  lemma {:induction false} FlattenAppend<T>(a: seq<seq<T>>, b: seq<seq<T>>)
    ensures Flatten(a + b) == Flatten(a) + Flatten(b)
    decreases |b|
  {
    if b == [] {
      assert a + b == a;
    } else {
      var b0, last := b[..|b| - 1], b[|b| - 1];
      FlattenAppend(a, b0);
      assert (a + b)[..|a + b| - 1] == a + b0;
      var fa, fb0 := Flatten(a), Flatten(b0);
      assert fa + fb0 + last == fa + (fb0 + last);
    }
  }

  /** An item is in the flattened list exactly when it is in one of the lists. */
  lemma {:induction false} FlattenMembership<T>(xss: seq<seq<T>>, x: T)
    ensures x in Flatten(xss) <==> exists i :: 0 <= i < |xss| && x in xss[i]
  {
    if xss != [] {
      var init := xss[..|xss| - 1];
      FlattenMembership(init, x);
      if exists i :: 0 <= i < |xss| && x in xss[i] {
        var i :| 0 <= i < |xss| && x in xss[i];
        if i < |xss| - 1 {
          assert xss[i] == init[i];
        }
      }
    }
  }

  /** When no list is empty, there are at least as many items as lists. */
  lemma {:induction false} FlattenLength<T>(xss: seq<seq<T>>)
    requires forall i :: 0 <= i < |xss| ==> xss[i] != []
    ensures |Flatten(xss)| >= |xss|
  {
    if xss != [] {
      FlattenLength(xss[..|xss| - 1]);
    }
  }

  /** `xs[:n]`: the first `n` items, or all of them when there are fewer. */
  function Take<T>(xs: seq<T>, n: nat): (r: seq<T>)
    ensures |r| == if |xs| < n then |xs| else n
    ensures r == xs[..|r|]
  {
    if |xs| <= n then xs else xs[..n]
  }
}
