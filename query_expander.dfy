/** Query expansion: the two prompts built around a slice of the legal-term
    dictionary, the parser that turns the model's text into a list of lines,
    the normalisation of that list for similar questions (exactly three) and
    key terms (at most five), and the assembly of the keyword group.

    The hosted model is a function from a request to a reply; a reply is the
    response text or a failure (any exception raised by the client call). */
module QueryExpander {
  import opened PyStr

  datatype Option<T> = None | Some(value: T)

  datatype Reply = Text(text: string) | Failed

  /** The sampling settings passed with a request. */
  datatype GenerationConfig = GenerationConfig(
    model: string, temperature: real, topK: nat, topP: real, maxOutputTokens: nat)

  datatype Request = Request(config: GenerationConfig, prompt: string)

  const SimilarQuestionsConfig := GenerationConfig("gemini-2.0-flash", 0.7, 10, 0.9, 500)
  const KeyTermsConfig := GenerationConfig("gemini-2.0-flash-exp", 0.3, 5, 0.8, 300)

  /** Only this many dictionary terms are put into a prompt. */
  const PromptTermLimit: nat := 200
  const SimilarQuestionCount: nat := 3
  const MaxKeyTerms: nat := 5

  /** The fixed wording of a prompt: the text before the term list, between the
      term list and the user's query, and after the query. */
  datatype Template = Template(preamble: string, beforeQuery: string, trailer: string)

  datatype PromptTemplates = PromptTemplates(similarQuestions: Template, keyTerms: Template)

  /** What `expand_query` returns. */
  datatype Expansion = Expansion(
    originalQuery: string,
    similarQuestions: seq<string>,
    keyTerms: seq<string>,
    keywordGroup: seq<string>)

  // ---------------------------------------------------------------- prompts

  /** The dictionary terms as they appear in both prompts: the first 200,
      separated by ", ". */
  function TermSegment(lawTerms: seq<string>): (r: string)
    ensures lawTerms == [] ==> r == ""
    ensures lawTerms != [] ==>
      |r| == TotalLength(Take(lawTerms, PromptTermLimit)) + 2 * (|Take(lawTerms, PromptTermLimit)| - 1)
  {
    var shown := Take(lawTerms, PromptTermLimit);
    JoinLength(", ", shown);
    Join(", ", shown)
  }

  function Prompt(template: Template, lawTerms: seq<string>, query: string): string {
    template.preamble + TermSegment(lawTerms) + template.beforeQuery + query + template.trailer
  }

  /** The prompt holds the term segment right after the preamble and the
      query after that; beyond this it is the template's fixed text. */
  lemma PromptLayout(template: Template, lawTerms: seq<string>, query: string)
    ensures var p := Prompt(template, lawTerms, query);
      var seg := TermSegment(lawTerms);
      var q0 := |template.preamble| + |seg| + |template.beforeQuery|;
      && |p| == q0 + |query| + |template.trailer|
      && p[..|template.preamble|] == template.preamble
      && p[|template.preamble|..|template.preamble| + |seg|] == seg
      && p[q0..q0 + |query|] == query
  {
    var seg := TermSegment(lawTerms);
    var p := Prompt(template, lawTerms, query);
    var q0 := |template.preamble| + |seg| + |template.beforeQuery|;
    assert p == template.preamble + seg + template.beforeQuery + query + template.trailer;
    assert p[|template.preamble|..|template.preamble| + |seg|] == seg;
    assert p[q0..q0 + |query|] == query;
  }

  /** Terms past the 200th never reach a prompt: two dictionaries that agree on
      their first 200 terms give the same prompt. */
  lemma PromptIgnoresTermsPastLimit(template: Template, a: seq<string>, b: seq<string>, query: string)
    requires |a| >= PromptTermLimit && |b| >= PromptTermLimit
    requires a[..PromptTermLimit] == b[..PromptTermLimit]
    ensures Prompt(template, a, query) == Prompt(template, b, query)
  {
  }

  function SimilarQuestionsRequest(template: Template, query: string, lawTerms: seq<string>): Request {
    Request(SimilarQuestionsConfig, Prompt(template, lawTerms, query))
  }

  function KeyTermsRequest(template: Template, query: string, lawTerms: seq<string>): Request {
    Request(KeyTermsConfig, Prompt(template, lawTerms, query))
  }

  // ---------------------------------------------------------------- parser

  /** The characters stripped from the front of a line as list numbering. */
  const NumberingChars := Chars({'0', '1', '2', '3', '4', '5', '6', '7', '8', '9', '.', '-', ')', ' '})

  /** One line of the model's text: trimmed; dropped when blank or when it
      starts with '#'; otherwise its leading numbering run is cut off and the
      rest trimmed again, and an empty remainder is dropped too. */
  function ParseLine(line: string): (r: Option<string>)
    ensures r.Some? ==> r.value != [] && IsTrimmed(r.value)
  {
    var t := Strip(line);
    if t == [] || t[0] == '#' then None
    else
      var cleaned := Strip(LStrip(t, NumberingChars));
      StripIsTrimmed(LStrip(t, NumberingChars));
      if cleaned == [] then None else Some(cleaned)
  }

  /** An item is a piece of its line: the parser only cuts characters off the
      ends, it never rewrites or joins text. */
  lemma ParseLineIsInfix(line: string)
    requires ParseLine(line).Some?
    ensures IsInfix(ParseLine(line).value, line)
  {
    var t := Strip(line);
    var numbered := LStrip(t, NumberingChars);
    var cleaned := Strip(numbered);
    var i := LeadingRun(numbered, Whitespace);
    var j := LeadingRun(t, NumberingChars);
    InfixTransitive(cleaned, numbered, t, i, j);
    InfixTransitive(cleaned, t, line, i + j, LeadingRun(line, Whitespace));
  }

  /** The values held by a list of options, in order. */
  function Values<T>(ps: seq<Option<T>>): (r: seq<T>)
    ensures |r| <= |ps|
  {
    if ps == [] then []
    else
      var init := Values(ps[..|ps| - 1]);
      match ps[|ps| - 1]
      case Some(v) => init + [v]
      case None => init
  }

  /** The positions holding a value, in increasing order. */
  function Origins<T>(ps: seq<Option<T>>): (r: seq<nat>)
    ensures forall k :: 0 <= k < |r| ==> r[k] < |ps| && ps[r[k]].Some?
    ensures forall k, m :: 0 <= k < m < |r| ==> r[k] < r[m]
    ensures forall i :: 0 <= i < |ps| && ps[i].Some? ==> i in r
  {
    if ps == [] then []
    else
      var o := Origins(ps[..|ps| - 1]);
      if ps[|ps| - 1].Some? then o + [|ps| - 1] else o
  }

  /** The k-th value is the one held at the k-th position that holds one. */
  lemma {:induction false} ValuesFollowOrigins<T>(ps: seq<Option<T>>)
    ensures |Origins(ps)| == |Values(ps)|
    ensures forall k :: 0 <= k < |Origins(ps)| ==> ps[Origins(ps)[k]] == Some(Values(ps)[k])
  {
    if ps != [] {
      var init := ps[..|ps| - 1];
      ValuesFollowOrigins(init);
    }
  }

  /** Each line's parse, line by line. */
  function ParseEach(lines: seq<string>): (r: seq<Option<string>>)
    ensures |r| == |lines|
    ensures forall i :: 0 <= i < |lines| ==> r[i] == ParseLine(lines[i])
  {
    seq(|lines|, i requires 0 <= i < |lines| => ParseLine(lines[i]))
  }

  /** The items parsed from a list of lines, in line order; each is non-empty
      and trimmed. */
  function CleanLines(lines: seq<string>): (r: seq<string>)
    ensures |r| <= |lines|
    ensures forall i :: 0 <= i < |r| ==> r[i] != [] && IsTrimmed(r[i])
  {
    var ps := ParseEach(lines);
    ValuesFollowOrigins(ps);
    Values(ps)
  }

  /** The parser shared by the similar-questions and the key-terms paths:
      trim the whole text, split it on '\n', parse each line. */
  function ParseLines(text: string): (r: seq<string>)
    ensures |r| <= Count(Strip(text), '\n') + 1
    ensures forall i :: 0 <= i < |r| ==> r[i] != [] && IsTrimmed(r[i])
  {
    CleanLines(Split(Strip(text), '\n'))
  }

  /** `ParseLines` in terms of the lines of the trimmed text: the k-th item is
      the parse of the k-th line that yields an item, and every line that
      yields an item is used. */
  lemma ParseLinesOrder(text: string)
    ensures var lines := Split(Strip(text), '\n');
      var items := ParseLines(text);
      var o := Origins(ParseEach(lines));
      && |o| == |items| <= |lines|
      && (forall k :: 0 <= k < |o| ==> o[k] < |lines| && ParseLine(lines[o[k]]) == Some(items[k]))
      && (forall k, m :: 0 <= k < m < |o| ==> o[k] < o[m])
      && (forall i :: 0 <= i < |lines| && ParseLine(lines[i]).Some? ==> i in o)
  {
    ValuesFollowOrigins(ParseEach(Split(Strip(text), '\n')));
  }

  /** A line the parser leaves exactly as it is: non-empty, trimmed, on one
      line, and starting with neither '#' nor a numbering character. */
  predicate CleanItem(s: string) {
    BareLine(s) && s[0] != '#'
  }

  /** A non-empty trimmed line that does not start with a numbering character. */
  predicate BareLine(s: string) {
    s != [] && IsTrimmed(s) && '\n' !in s && !Strippable(s[0], NumberingChars)
  }

  lemma CleanItemParsesToItself(s: string)
    requires CleanItem(s)
    ensures ParseLine(s) == Some(s)
  {
    StripTrimmed(s);
    assert LeadingRun(s, NumberingChars) == 0;
    assert LStrip(s, NumberingChars) == s;
  }

  /** Re-parsing the parser's output, joined with '\n', gives it back
      whenever every item is clean. */
  lemma ParseLinesOfJoin(items: seq<string>)
    requires forall i :: 0 <= i < |items| ==> CleanItem(items[i])
    ensures ParseLines(Join("\n", items)) == items
  {
    if items == [] {
      ParseLinesEmpty();
    } else {
      ParseLinesOfNonEmptyJoin(items);
    }
  }

  lemma ParseLinesOfNonEmptyJoin(items: seq<string>)
    requires items != []
    requires forall i :: 0 <= i < |items| ==> CleanItem(items[i])
    ensures ParseLines(Join("\n", items)) == items
  {
    forall i | 0 <= i < |items| ensures ParseLine(items[i]) == Some(items[i]) {
      CleanItemParsesToItself(items[i]);
    }
    ParseLinesOfJoinedLines(items, items);
  }

  /** A text made of non-empty trimmed lines, each yielding an item, parses
      to those items in order. */
  lemma ParseLinesOfJoinedLines(lines: seq<string>, items: seq<string>)
    requires lines != [] && |lines| == |items|
    requires forall i :: 0 <= i < |lines| ==> lines[i] != [] && IsTrimmed(lines[i]) && '\n' !in lines[i]
    requires forall i :: 0 <= i < |lines| ==> ParseLine(lines[i]) == Some(items[i])
    ensures ParseLines(Join("\n", lines)) == items
  {
    var text := Join("\n", lines);
    JoinOfTrimmedIsTrimmed(lines);
    JoinSplit(lines, '\n');
    CleanLinesOfParsed(lines, items);
    ParseLinesOf(text, text, lines);
  }

  lemma JoinOfTrimmedIsTrimmed(lines: seq<string>)
    requires lines != []
    requires forall i :: 0 <= i < |lines| ==> lines[i] != [] && IsTrimmed(lines[i])
    ensures Strip(Join("\n", lines)) == Join("\n", lines)
  {
    JoinEnds("\n", lines);
    StripTrimmed(Join("\n", lines));
  }

  lemma CleanLinesOfParsed(lines: seq<string>, items: seq<string>)
    requires |lines| == |items|
    requires forall i :: 0 <= i < |lines| ==> ParseLine(lines[i]) == Some(items[i])
    ensures CleanLines(lines) == items
  {
    ValuesOfAllSome(ParseEach(lines), items);
  }

  /** Empty text yields no items. */
  lemma ParseLinesEmpty()
    ensures ParseLines("") == []
  {
    var none: seq<Option<string>> := [None];
    assert ParseEach([""]) == none;
    assert Values(none) == [];
    ParseLinesOf("", "", [""]);
  }

  lemma ParseLinesOf(text: string, trimmed: string, lines: seq<string>)
    requires Strip(text) == trimmed && Split(trimmed, '\n') == lines
    ensures ParseLines(text) == CleanLines(lines)
  {
  }

  lemma {:induction false} ValuesOfAllSome<T>(ps: seq<Option<T>>, vs: seq<T>)
    requires |ps| == |vs|
    requires forall i :: 0 <= i < |ps| ==> ps[i] == Some(vs[i])
    ensures Values(ps) == vs
  {
    if ps != [] {
      ValuesOfAllSome(ps[..|ps| - 1], vs[..|vs| - 1]);
      assert vs == vs[..|vs| - 1] + [vs[|vs| - 1]];
    }
  }

  /** A trimmed one-line text that yields an item is parsed as that item. */
  lemma ParseOneLine(text: string, item: string)
    requires IsTrimmed(text) && '\n' !in text
    requires ParseLine(text) == Some(item)
    ensures ParseLines(text) == [item]
  {
    StripTrimmed(text);
    JoinSplit([text], '\n');
    assert ParseEach([text]) == [Some(item)];
    ValuesOfAllSome([Some(item)], [item]);
    ParseLinesOf(text, text, [text]);
  }

  /** The parser can return an item that starts with '#': the '#' check looks
      at the line before its numbering is cut off. */
  lemma HashItemAfterNumbering()
    ensures ParseLines("1. " + "#x") == ["#x"]
  {
    NumberedLine("1. ", "#x");
    ParseOneLine("1. " + "#x", "#x");
  }

  /** Parsing is not idempotent: an item can itself look numbered, because a
      tab stops the numbering run but is then trimmed away. */
  lemma ReparseChangesItem()
    ensures var item := "2. " + "a";
      && ParseLines("1.\t" + item) == [item]
      && ParseLines(Join("\n", [item])) == ["a"]
  {
    var item := "2. " + "a";
    NumberedLine("2. ", "a");
    TabStopsNumbering(item);
    ParseOneLine(item, "a");
  }

  /** After "1." and a tab, any trimmed one-line text comes back whole, even
      one that starts with numbering of its own. */
  lemma TabStopsNumbering(item: string)
    requires item != [] && IsTrimmed(item) && '\n' !in item
    ensures ParseLines("1.\t" + item) == [item]
  {
    var text := "1.\t" + item;
    TabbedLineIsTrimmed(item);
    TabbedLineNumbering(item);
    StripDropsLeading('\t', item, Whitespace);
    StripTrimmed(item);
    ParseLineSteps(text, text, ['\t'] + item, item);
    ParseOneLine(text, item);
  }

  lemma TabbedLineIsTrimmed(item: string)
    requires item != [] && IsTrimmed(item) && '\n' !in item
    ensures IsTrimmed("1.\t" + item) && '\n' !in "1.\t" + item
    ensures Strip("1.\t" + item) == "1.\t" + item
  {
    var text := "1.\t" + item;
    assert text[|text| - 1] == item[|item| - 1];
    StripTrimmed(text);
  }

  lemma TabbedLineNumbering(item: string)
    ensures LStrip("1.\t" + item, NumberingChars) == ['\t'] + item
  {
    var text := "1.\t" + item;
    assert text[2..] == ['\t'] + item;
    NumberingRun(text, 2);
  }

  /** `ParseLine` spelled out one step at a time, for concrete lines. */
  lemma ParseLineSteps(line: string, trimmed: string, unnumbered: string, cleaned: string)
    requires Strip(line) == trimmed && trimmed != [] && trimmed[0] != '#'
    requires LStrip(trimmed, NumberingChars) == unnumbered
    requires Strip(unnumbered) == cleaned && cleaned != []
    ensures ParseLine(line) == Some(cleaned)
  {
  }

  /** A bare line after list numbering such as "1. ", "2) " or "- " is
      parsed to the item alone. */
  lemma NumberedLine(numbering: string, item: string)
    requires numbering != [] && !IsSpace(numbering[0])
    requires forall i :: 0 <= i < |numbering| ==> Strippable(numbering[i], NumberingChars)
    requires BareLine(item)
    ensures var line := numbering + item;
      line != [] && IsTrimmed(line) && '\n' !in line && ParseLine(line) == Some(item)
  {
    var line := numbering + item;
    NumberedLineIsTrimmed(numbering, item);
    StripTrimmed(line);
    NumberedLineNumbering(numbering, item);
    StripTrimmed(item);
    ParseLineSteps(line, line, item, item);
  }

  lemma NumberedLineIsTrimmed(numbering: string, item: string)
    requires numbering != [] && !IsSpace(numbering[0])
    requires forall i :: 0 <= i < |numbering| ==> Strippable(numbering[i], NumberingChars)
    requires BareLine(item)
    ensures IsTrimmed(numbering + item) && '\n' !in numbering + item
  {
    var line := numbering + item;
    assert '\n' !in numbering by {
      forall i | 0 <= i < |numbering| ensures numbering[i] != '\n' {
        assert Strippable(numbering[i], NumberingChars);
      }
    }
    assert line[|line| - 1] == item[|item| - 1] && line[0] == numbering[0];
  }

  lemma NumberedLineNumbering(numbering: string, item: string)
    requires forall i :: 0 <= i < |numbering| ==> Strippable(numbering[i], NumberingChars)
    requires BareLine(item)
    ensures LStrip(numbering + item, NumberingChars) == item
  {
    var line := numbering + item;
    assert line[|numbering|..] == item;
    NumberingRun(line, |numbering|);
  }

  /** Model text with two numbered questions and one plain one parses to the
      three questions. */
  lemma NumberedQuestionsScenario(a: string, b: string, c: string)
    requires CleanItem(a) && CleanItem(b) && CleanItem(c)
    ensures ParseLines(Join("\n", ["1. " + a, "2. " + b, c])) == [a, b, c]
  {
    NumberedLine("1. ", a);
    NumberedLine("2. ", b);
    CleanItemParsesToItself(c);
    ParseThreeLines("1. " + a, "2. " + b, c, a, b, c);
  }

  /** Three customs-law questions (on applying for a duty refund, the
      import-duty refund procedure and the refund conditions). */
  const RefundQuestion1 := "관세 환급 신청 방법은?"
  const RefundQuestion2 := "수입 관세 환급 절차는?"
  const RefundQuestion3 := "환급 조건은?"

  /** Two numbered questions and one plain one parse to the three
      questions. */
  lemma RefundQuestionsScenario()
    ensures ParseLines("1. " + RefundQuestion1 + "\n" + "2. " + RefundQuestion2 + "\n" + RefundQuestion3)
      == [RefundQuestion1, RefundQuestion2, RefundQuestion3]
  {
    var a, b, c := RefundQuestion1, RefundQuestion2, RefundQuestion3;
    RefundQuestionsAreClean();
    NumberedQuestionsScenario(a, b, c);
    JoinThree("\n", "1. " + a, "2. " + b, c);
    var p := "1. " + a + "\n";
    assert p + "2. " + b == p + ("2. " + b);
  }

  lemma RefundQuestionsAreClean()
    ensures CleanItem(RefundQuestion1) && CleanItem(RefundQuestion2) && CleanItem(RefundQuestion3)
  {
  }

  lemma JoinThree(sep: string, x: string, y: string, z: string)
    ensures Join(sep, [x, y, z]) == x + sep + y + sep + z
  {
    assert [x, y, z][1..] == [y, z];
    assert [y, z][1..] == [z];
    assert Join(sep, [y, z]) == y + sep + z;
    assert x + sep + (y + sep + z) == x + sep + y + sep + z;
  }

  lemma ParseThreeLines(l0: string, l1: string, l2: string, i0: string, i1: string, i2: string)
    requires l0 != [] && IsTrimmed(l0) && '\n' !in l0 && ParseLine(l0) == Some(i0)
    requires l1 != [] && IsTrimmed(l1) && '\n' !in l1 && ParseLine(l1) == Some(i1)
    requires l2 != [] && IsTrimmed(l2) && '\n' !in l2 && ParseLine(l2) == Some(i2)
    ensures ParseLines(Join("\n", [l0, l1, l2])) == [i0, i1, i2]
  {
    var lines, items := [l0, l1, l2], [i0, i1, i2];
    forall i | 0 <= i < 3
      ensures lines[i] != [] && IsTrimmed(lines[i]) && '\n' !in lines[i]
      ensures ParseLine(lines[i]) == Some(items[i])
    {
      if i == 0 {
      } else if i == 1 {
      } else {
      }
    }
    ParseLinesOfJoinedLines(lines, items);
  }

  /** A prefix of numbering characters followed by anything else is exactly
      the run that `lstrip` cuts off. */
  lemma NumberingRun(s: string, n: nat)
    requires n <= |s|
    requires forall i :: 0 <= i < n ==> Strippable(s[i], NumberingChars)
    requires n == |s| || !Strippable(s[n], NumberingChars)
    ensures LeadingRun(s, NumberingChars) == n
    decreases n
  {
    if n > 0 {
      NumberingRun(s[1..], n - 1);
    }
  }

  /** A line that is blank after trimming, or whose trimmed text starts with
      '#', contributes no item: every item comes from a line that is neither. */
  lemma ParseLinesDrops(text: string)
    ensures var lines := Split(Strip(text), '\n');
      var o := Origins(ParseEach(lines));
      forall k :: 0 <= k < |o| ==> Strip(lines[o[k]]) != [] && Strip(lines[o[k]])[0] != '#'
  {
    ParseLinesOrder(text);
  }

  /** The loop of the source: one pass over the lines, appending each item. */
  method ParseResponse(text: string) returns (items: seq<string>)
    ensures items == ParseLines(text)
  {
    items := [];
    var lines := Split(Strip(text), '\n');
    for i := 0 to |lines|
      invariant items == Values(ParseEach(lines[..i]))
    {
      assert ParseEach(lines[..i + 1])[..i] == ParseEach(lines[..i]);
      var line := Strip(lines[i]);
      if line != [] && line[0] != '#' {
        var cleaned := Strip(LStrip(line, NumberingChars));
        if cleaned != [] {
          items := items + [cleaned];
        }
      }
    }
    assert lines[..|lines|] == lines;
  }

  // ---------------------------------------------------------------- normalisation

  /** Three similar questions: the first parsed items, then the user's query
      in every slot left over; the query three times when the model failed. */
  function SimilarQuestions(query: string, reply: Reply): (r: seq<string>)
    ensures |r| == SimilarQuestionCount
    ensures reply.Failed? ==> r == [query, query, query]
    ensures reply.Text? ==> forall k :: 0 <= k < SimilarQuestionCount ==>
      r[k] == if k < |ParseLines(reply.text)| then ParseLines(reply.text)[k] else query
  {
    match reply
    case Failed => [query, query, query]
    case Text(t) =>
      var head := Take(ParseLines(t), SimilarQuestionCount);
      head + seq(SimilarQuestionCount - |head|, _ => query)
  }

  /** At most five key terms: a prefix of the parsed items; none when the model
      failed. */
  function KeyTerms(reply: Reply): (r: seq<string>)
    ensures |r| <= MaxKeyTerms
    ensures reply.Failed? ==> r == []
    ensures reply.Text? ==> r <= ParseLines(reply.text)
    ensures reply.Text? ==> |r| == MaxKeyTerms || r == ParseLines(reply.text)
  {
    match reply
    case Failed => []
    case Text(t) => Take(ParseLines(t), MaxKeyTerms)
  }

  /** Both paths parse a reply the same way: on the same text, the similar
      questions and the key terms agree wherever both come from parsed items. */
  lemma SameParserOnBothPaths(query: string, text: string)
    ensures var sq := SimilarQuestions(query, Text(text));
      var kt := KeyTerms(Text(text));
      forall k :: 0 <= k < |sq| && k < |kt| ==> sq[k] == kt[k]
  {
  }

  /** `generate_similar_questions`: build the prompt, ask the model, parse,
      keep three and pad with the query. */
  method GenerateSimilarQuestions(
    complete: Request -> Reply, template: Template, query: string, lawTerms: seq<string>)
    returns (questions: seq<string>)
    ensures questions == SimilarQuestions(query, complete(SimilarQuestionsRequest(template, query, lawTerms)))
  {
    var reply := complete(Request(SimilarQuestionsConfig, Prompt(template, lawTerms, query)));
    match reply {
      case Failed =>
        questions := [query, query, query];
      case Text(t) =>
        questions := ParseResponse(t);
        questions := Take(questions, SimilarQuestionCount);
        ghost var head := questions;
        while |questions| < SimilarQuestionCount
          invariant |head| <= |questions| <= SimilarQuestionCount
          invariant questions == head + seq(|questions| - |head|, _ => query)
        {
          questions := questions + [query];
        }
    }
  }

  /** `extract_key_terms`: build the prompt, ask the model, parse, keep five. */
  method ExtractKeyTerms(
    complete: Request -> Reply, template: Template, query: string, lawTerms: seq<string>)
    returns (terms: seq<string>)
    ensures terms == KeyTerms(complete(KeyTermsRequest(template, query, lawTerms)))
  {
    var reply := complete(Request(KeyTermsConfig, Prompt(template, lawTerms, query)));
    match reply {
      case Failed =>
        terms := [];
      case Text(t) =>
        terms := ParseResponse(t);
        terms := Take(terms, MaxKeyTerms);
    }
  }

  // ---------------------------------------------------------------- expansion

  /** `expand_query`: the query, its three similar questions and its key
      terms, gathered into one keyword group led by the query. */
  method ExpandQuery(
    complete: Request -> Reply, templates: PromptTemplates, query: string, lawTerms: seq<string>)
    returns (result: Expansion)
    ensures result.originalQuery == query
    ensures result.similarQuestions ==
      SimilarQuestions(query, complete(SimilarQuestionsRequest(templates.similarQuestions, query, lawTerms)))
    ensures result.keyTerms == KeyTerms(complete(KeyTermsRequest(templates.keyTerms, query, lawTerms)))
    ensures result.keywordGroup == [query] + result.similarQuestions + result.keyTerms
    ensures |result.keywordGroup| == 1 + SimilarQuestionCount + |result.keyTerms|
    ensures 4 <= |result.keywordGroup| <= 9 && result.keywordGroup[0] == query
  {
    var similarQuestions := GenerateSimilarQuestions(complete, templates.similarQuestions, query, lawTerms);
    var keyTerms := ExtractKeyTerms(complete, templates.keyTerms, query, lawTerms);
    var keywordGroup := [query] + similarQuestions + keyTerms;
    result := Expansion(query, similarQuestions, keyTerms, keywordGroup);
  }

  /** A key-terms reply holding no text yields no key terms, and the keyword
      group is then the query and its three similar questions. */
  lemma EmptyKeyTermsReply(query: string, similarReply: Reply)
    ensures KeyTerms(Text("")) == []
    ensures |[query] + SimilarQuestions(query, similarReply) + KeyTerms(Text(""))| == 4
  {
    ParseLinesEmpty();
  }

  /** When both model calls fail the keyword group is the query four times. */
  lemma BothCallsFailed(complete: Request -> Reply, templates: PromptTemplates, query: string, lawTerms: seq<string>)
    requires complete(SimilarQuestionsRequest(templates.similarQuestions, query, lawTerms)).Failed?
    requires complete(KeyTermsRequest(templates.keyTerms, query, lawTerms)).Failed?
    ensures var sq := SimilarQuestions(query, complete(SimilarQuestionsRequest(templates.similarQuestions, query, lawTerms)));
      var kt := KeyTerms(complete(KeyTermsRequest(templates.keyTerms, query, lawTerms)));
      [query] + sq + kt == [query, query, query, query]
  {
  }
}
