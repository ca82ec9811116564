/** The legal-term dictionary builder: every article title of the customs act
    is split on ',', each piece is trimmed, the pieces of all titles are
    pooled, and the dictionary is the pooled pieces without repeats in
    increasing code-point order, with three counts alongside.

    Reading the act from its JSON file, writing the dictionary, the creation
    time stamp and the console report are not part of this model: the
    titles are the input and the dictionary value is the output. */
module LawTerms {
  import opened PyStr
  import opened Sorting

  /** The counts stored next to the term list. */
  datatype Metadata = Metadata(articleCount: nat, pooledTermCount: nat, uniqueTermCount: nat)

  datatype Dictionary = Dictionary(metadata: Metadata, terms: seq<string>)

  /** The terms of one title: its comma-separated pieces, each trimmed.
      Empty pieces are kept. */
  function TitleTerms(title: string): (r: seq<string>)
    ensures |r| == Count(title, ',') + 1
  {
    var pieces := Split(title, ',');
    seq(|pieces|, i requires 0 <= i < |pieces| => Strip(pieces[i]))
  }

  /** Every term is trimmed and holds no ','. */
  lemma TitleTermsAreTrimmed(title: string)
    ensures forall t :: t in TitleTerms(title) ==> IsTrimmed(t) && ',' !in t
  {
    var pieces := Split(title, ',');
    forall i | 0 <= i < |pieces| ensures IsTrimmed(Strip(pieces[i])) && ',' !in Strip(pieces[i]) {
      StripIsTrimmed(pieces[i]);
    }
  }

  /** Each term is a contiguous piece of its title: trimming and splitting
      only cut text, they never rewrite it. */
  lemma TitleTermsAreInfixes(title: string)
    ensures forall t :: t in TitleTerms(title) ==> IsInfix(t, title)
  {
    var pieces := Split(title, ',');
    SplitPiecesAreInfixes(title, ',');
    forall i | 0 <= i < |pieces| ensures IsInfix(Strip(pieces[i]), title) {
      var j :| 0 <= j <= |title| && OccursAt(pieces[i], title, j);
      InfixTransitive(Strip(pieces[i]), pieces[i], title, LeadingRun(pieces[i], Whitespace), j);
    }
  }

  /** A title written the usual way, terms joined by ", ", gives back its
      terms, provided none has surrounding whitespace or a comma. */
  lemma {:induction false} TitleTermsOfJoin(terms: seq<string>)
    requires terms != []
    requires forall i :: 0 <= i < |terms| ==> IsTrimmed(terms[i]) && ',' !in terms[i]
    ensures TitleTerms(Join(", ", terms)) == terms
  {
    var spaced := Spaced(terms);
    JoinSpaced(terms);
    forall i | 0 <= i < |spaced| ensures ',' !in spaced[i] {
      if i > 0 { assert spaced[i] == " " + terms[i]; }
    }
    JoinSplit(spaced, ',');
    var r := TitleTerms(Join(", ", terms));
    forall i | 0 <= i < |terms| ensures r[i] == terms[i] {
      StripTrimmed(terms[i]);
      if i > 0 {
        assert spaced[i] == [' '] + terms[i];
        StripDropsLeading(' ', terms[i], Whitespace);
      }
    }
  }

  /** The comma-separated pieces of a ", "-joined list: every term after the
      first keeps the space that followed its comma. */
  function Spaced(terms: seq<string>): (r: seq<string>)
    requires terms != []
    ensures |r| == |terms| && r[0] == terms[0]
    ensures forall i :: 0 < i < |terms| ==> r[i] == " " + terms[i]
  {
    [terms[0]] + seq(|terms| - 1, i requires 0 <= i < |terms| - 1 => " " + terms[i + 1])
  }

  lemma {:induction false} JoinSpaced(terms: seq<string>)
    requires terms != []
    ensures Join(", ", terms) == Join(",", Spaced(terms))
    decreases |terms|
  {
    if |terms| > 1 {
      var rest := terms[1..];
      JoinSpaced(rest);
      var sr := Spaced(rest);
      var s := Spaced(terms);
      assert s[1..] == [" " + rest[0]] + sr[1..];
      assert [rest[0]] + sr[1..] == sr;
      JoinConsHead(",", " ", rest[0], sr[1..]);
      assert Join(",", s[1..]) == " " + Join(",", sr);
      assert Join(", ", terms) == terms[0] + ", " + Join(", ", rest);
      assert Join(",", s) == terms[0] + "," + Join(",", s[1..]);
    }
  }

  /** An empty title gives the single term "". */
  lemma EmptyTitle()
    ensures TitleTerms("") == [""]
  {
    assert Split("", ',') == [""];
    StripTrimmed("");
  }

  /** A title ending in ',' gives "" as its last term. */
  lemma TrailingCommaGivesEmptyTerm(title: string)
    requires title != [] && title[|title| - 1] == ','
    ensures TitleTerms(title)[|TitleTerms(title)| - 1] == ""
  {
    SplitTrailingSeparator(title, ',');
    StripTrimmed("");
  }

  /** Each title's terms, title by title. */
  function TermLists(titles: seq<string>): (r: seq<seq<string>>)
    ensures |r| == |titles| && forall i :: 0 <= i < |titles| ==> r[i] == TitleTerms(titles[i])
  {
    seq(|titles|, i requires 0 <= i < |titles| => TitleTerms(titles[i]))
  }

  /** All titles' terms, title after title: the list the source extends in
      its loop. */
  function Pooled(titles: seq<string>): seq<string> {
    Flatten(TermLists(titles))
  }

  /** Every title gives at least one term, so there are at least as many
      pooled terms as titles. */
  lemma PooledLength(titles: seq<string>)
    ensures |Pooled(titles)| >= |titles|
  {
    FlattenLength(TermLists(titles));
  }

  /** Pooling distributes over concatenating the title lists. */
  lemma PooledAppend(a: seq<string>, b: seq<string>)
    ensures Pooled(a + b) == Pooled(a) + Pooled(b)
  {
    assert TermLists(a + b) == TermLists(a) + TermLists(b);
    FlattenAppend(TermLists(a), TermLists(b));
  }

  /** A term is pooled exactly when some title has it among its terms. */
  lemma PooledMembership(titles: seq<string>, x: string)
    ensures x in Pooled(titles) <==> exists i :: 0 <= i < |titles| && x in TitleTerms(titles[i])
  {
    FlattenMembership(TermLists(titles), x);
  }

  /** The pooling loop of the source: extend the list with each title's terms. */
  method PoolTerms(titles: seq<string>) returns (all: seq<string>)
    ensures all == Pooled(titles)
  {
    all := [];
    for t := 0 to |titles|
      invariant all == Pooled(titles[..t])
    {
      assert TermLists(titles[..t + 1])[..t] == TermLists(titles[..t]);
      all := all + TitleTerms(titles[t]);
    }
    assert titles[..|titles|] == titles;
  }

  /** `extract_law_terms` without its file I/O: the dictionary of the titles. */
  method ExtractLawTerms(titles: seq<string>) returns (d: Dictionary)
    ensures d.terms == SortedSet(Pooled(titles))
    ensures StrictlyIncreasing(d.terms) && Elems(d.terms) == Elems(Pooled(titles))
    ensures d.metadata.articleCount == |titles|
    ensures d.metadata.pooledTermCount == |Pooled(titles)|
    ensures d.metadata.uniqueTermCount == |d.terms|
    ensures d.metadata.articleCount <= d.metadata.pooledTermCount
    ensures d.metadata.uniqueTermCount <= d.metadata.pooledTermCount
    ensures d.metadata.uniqueTermCount == d.metadata.pooledTermCount <==> Distinct(Pooled(titles))
    ensures "" in Pooled(titles) ==> d.terms != [] && d.terms[0] == ""
  {
    var all := PoolTerms(titles);
    PooledLength(titles);
    var unique := SortedSet(all);
    SortedSetLength(all);
    if "" in all {
      EmptyStringFirst(all);
    }
    d := Dictionary(Metadata(|titles|, |all|, |unique|), unique);
  }
}
