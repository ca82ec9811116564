# Query expansion and the legal-term dictionary, in Dafny

This project models the two deterministic text transformations of a
customs-law question-answering service and proves properties about them.

* **Query expansion** (`utils/query_expander.py`). A user's query is sent
  twice to a hosted language model. The first prompt asks for three similar
  questions and the second asks for at most five key legal terms. Both
  prompts embed the first 200 dictionary terms joined with `", "`.
  - Both replies go through the same line parser:
    1. Trim the whole text and split it on `'\n'`.
    2. Trim each line.
    3. Drop blank lines and lines starting with `'#'`.
    4. Cut a leading run of `0123456789.-) ` from each remaining line and trim it again.
    5. Keep what is non-empty.
  - Similar questions are then cut to three and padded to three with the
    query. Key terms are cut to five.
  - If a model call fails, the fallback is the query three times for similar
    questions and an empty list for key terms.
  - `expand_query` gathers the query, the similar questions and the key terms
    into one keyword group.
* **The dictionary builder** (`data/extract_law_terms.py`). Every article
  title of the customs act is split on `','` and each piece is trimmed. The
  pieces of all titles are pooled in order. The dictionary is
  `sorted(set(pooled))`, stored with three counts.

Modules:

* `PyStr` (`py_str.dfy`) holds the Python builtins used: `str.strip()`,
  `str.lstrip(chars)`, `str.split(sep)`, `sep.join(xs)`, `list.extend` and
  `xs[:n]`.
* `Sorting` (`sorting.dfy`) holds Python's code-point order on `str` and
  `sorted(set(xs))`.
* `QueryExpander` (`query_expander.dfy`) holds the parser, the
  normalisation and the expansion.
* `LawTerms` (`law_terms.dfy`) holds the dictionary builder.

Modelling choices:

* The hosted model is a parameter `complete: Request -> Reply`. A reply is
  the response text or `Failed`, which stands for any exception raised in
  the `try` block.
* The parse loops, the padding loop and the pooling loop are methods with
  loops. Each is proved equal to a specification function. The properties
  are proved about those functions.

The line parser's behaviour differs from two claims one might expect of it.
The model follows the code on both:

* An item can start with `'#'`. The `'#'` test looks at the line before its
  numbering is cut off (`HashItemAfterNumbering`: `"1. #x"` gives `"#x"`).
* Re-parsing the output is not always a no-op. A tab stops the numbering
  run and is then trimmed away, so `"1.\t2. a"` gives `"2. a"`, which
  re-parses to `"a"` (`ReparseChangesItem`). Re-parsing is a no-op when
  every item is clean (`ParseLinesOfJoin`).

## Model

| member | source | states |
|---|---|---|
| PyStr.IsSpace | utils/query_expander.py:76 | the characters `str.strip()` removes: those for which Python's `str.isspace()` holds |
| PyStr.Strip | utils/query_expander.py:76 | `str.strip()` returns a piece of its input that starts where the leading whitespace run ends, and whose first and last characters are not whitespace |
| PyStr.LStrip | utils/query_expander.py:84 | `lstrip(chars)` drops exactly the maximal leading run of characters from `chars`; the result is the rest of the string and does not start with one of `chars` |
| PyStr.StripRemovesOnlyStrippable | utils/query_expander.py:80 | only whitespace is cut from either end, and the result is empty exactly when the whole line is whitespace |
| PyStr.StripIsTrimmed | utils/query_expander.py:84 | the result of `strip()` has no leading or trailing whitespace |
| PyStr.StripTrimmed | utils/query_expander.py:80 | `strip()` leaves an already trimmed string unchanged |
| PyStr.StripDropsLeading | data/extract_law_terms.py:42 | a leading whitespace character does not change the result of `strip()` |
| PyStr.Split | utils/query_expander.py:76 | `split('\n')` gives one more piece than there are separators, and no piece contains the separator |
| PyStr.SplitJoin | utils/query_expander.py:76 | joining the pieces of `split(sep)` with `sep` gives back the string |
| PyStr.JoinSplit | utils/query_expander.py:76 | splitting a join of separator-free pieces gives back the pieces |
| PyStr.Join | utils/query_expander.py:31 | `sep.join(xs)`: the items in order with `sep` between each two; `JoinLength` gives its length and `JoinSplit` inverts it |
| PyStr.JoinLength | utils/query_expander.py:31 | a join of n strings is as long as the strings together plus n−1 separators |
| PyStr.SplitTrailingSeparator | data/extract_law_terms.py:42 | a string ending in the separator has `""` as its last piece |
| PyStr.Take | utils/query_expander.py:89 | `xs[:n]` is the prefix of `xs` of length min(n, len(xs)) |
| PyStr.FlattenAppend | data/extract_law_terms.py:39-43 | flattening two lists of lists one after the other is concatenating their flattenings |
| PyStr.FlattenMembership | data/extract_law_terms.py:43 | an element is in the pooled list exactly when it is in one of the pooled lists |
| PyStr.FlattenLength | data/extract_law_terms.py:43 | pooling non-empty lists gives at least one element per list |
| PyStr.SplitPiecesAreInfixes | data/extract_law_terms.py:42 | every piece of `split(sep)` is a contiguous piece of the string, the first one at its start |
| Sorting.Less | data/extract_law_terms.py:48 | Python's `<` on `str`, the order `sorted` uses: compare code point by code point, a proper prefix first; `LessIsLexicographic` characterises it |
| Sorting.LessIsLexicographic | data/extract_law_terms.py:48 | Python's `str` `<` holds exactly when `a` is a proper prefix of `b` or at their first difference `a` has the smaller code point |
| Sorting.LessIrreflexive | data/extract_law_terms.py:48 | no string is less than itself |
| Sorting.LessTransitive | data/extract_law_terms.py:48 | the string order is transitive |
| Sorting.LessTotal | data/extract_law_terms.py:48 | any two different strings are ordered one way or the other |
| Sorting.LessAsymmetric | data/extract_law_terms.py:48 | two strings are never less than each other both ways |
| Sorting.EmptyIsLeast | data/extract_law_terms.py:48 | `""` is less than every other string |
| Sorting.Insert | data/extract_law_terms.py:48 | inserting into a strictly increasing list keeps it strictly increasing and adds exactly the new element |
| Sorting.SortedSet | data/extract_law_terms.py:48 | `sorted(set(xs))` is strictly increasing and holds exactly the elements of `xs` |
| Sorting.IncreasingIsDeterminedBySet | data/extract_law_terms.py:48 | two strictly increasing lists with the same elements are equal, so `sorted(set(xs))` does not depend on how it is computed |
| Sorting.IncreasingIsDistinct | data/extract_law_terms.py:48 | a strictly increasing list has no repeated element |
| Sorting.ElemsCardinality | data/extract_law_terms.py:45-49 | a list has at most as many distinct elements as entries, and exactly as many when no entry repeats |
| Sorting.SortedSetLength | data/extract_law_terms.py:45-49 | the number of unique terms is at most the pooled count, and equal to it exactly when no term repeats |
| Sorting.EmptyStringFirst | data/extract_law_terms.py:42-48 | when `""` is among the terms it is the first element of `sorted(set(...))` |
| QueryExpander.TermSegment | utils/query_expander.py:31 | the term segment is empty for an empty dictionary; otherwise its length is that of the first min(200, n) terms plus 2 per separator |
| QueryExpander.Prompt | utils/query_expander.py:33-57 | the prompt f-string: the template's preamble, the term segment, the text before the query, the query and the trailer; `PromptLayout` locates each part |
| QueryExpander.PromptLayout | utils/query_expander.py:33-57 | the prompt holds the term segment right after the preamble and the user's query after the text that follows the segment |
| QueryExpander.PromptIgnoresTermsPastLimit | utils/query_expander.py:106 | dictionaries that agree on their first 200 terms give the same prompt |
| QueryExpander.SimilarQuestionsRequest | utils/query_expander.py:60-69 | the similar-questions call: model `gemini-2.0-flash` with temperature 0.7, top-k 10, top-p 0.9 and 500 output tokens, on the prompt |
| QueryExpander.KeyTermsRequest | utils/query_expander.py:135-144 | the key-terms call: model `gemini-2.0-flash-exp` with temperature 0.3, top-k 5, top-p 0.8 and 300 output tokens, on the prompt |
| QueryExpander.ParseLine | utils/query_expander.py:80-86 | a line yields an item only if the item is non-empty and trimmed |
| QueryExpander.ParseLineIsInfix | utils/query_expander.py:84 | an item is a contiguous piece of its source line |
| QueryExpander.ValuesFollowOrigins | utils/query_expander.py:79-86 | the k-th kept item is the one produced at the k-th position that produced an item |
| QueryExpander.ParseLines | utils/query_expander.py:75-86 | there are at most as many items as lines after the split, and every item is non-empty and trimmed |
| QueryExpander.ParseLinesOrder | utils/query_expander.py:76-86 | items appear in the order of their source lines, each is the parse of its line, and every line that yields an item contributes it |
| QueryExpander.ParseLinesDrops | utils/query_expander.py:80-86 | every item comes from a line that is non-blank after trimming and does not start with `'#'`, so such lines contribute nothing to the parsed list |
| QueryExpander.ParseResponse | utils/query_expander.py:75-86 | the append loop computes `ParseLines` |
| QueryExpander.CleanItemParsesToItself | utils/query_expander.py:80-86 | a trimmed one-line text not starting with `'#'` or a numbering character is its own item |
| QueryExpander.ParseLinesOfJoin | utils/query_expander.py:75-86 | parsing clean items joined with `'\n'` gives them back, so re-parsing such output is a no-op |
| QueryExpander.ParseLinesOfJoinedLines | utils/query_expander.py:75-86 | a text of trimmed lines that each yield an item parses to those items in order |
| QueryExpander.ParseLinesEmpty | utils/query_expander.py:75-86 | an empty reply yields no items |
| QueryExpander.ParseOneLine | utils/query_expander.py:75-86 | a trimmed one-line reply yields exactly the parse of that line |
| QueryExpander.NumberedLine | utils/query_expander.py:84 | list numbering such as `"1. "`, `"2) "` or `"- "` before a bare line is cut off, leaving the line |
| QueryExpander.NumberingRun | utils/query_expander.py:84 | a prefix of numbering characters followed by anything else is exactly what `lstrip` cuts |
| QueryExpander.HashItemAfterNumbering | utils/query_expander.py:82-84 | `"1. #x"` yields the item `"#x"`, which starts with `'#'` |
| QueryExpander.ReparseChangesItem | utils/query_expander.py:84 | `"1.\t2. a"` yields `"2. a"`, and re-parsing that yields `"a"` |
| QueryExpander.TabStopsNumbering | utils/query_expander.py:84 | after `"1."` and a tab, any trimmed one-line text comes back whole, because tab is not a numbering character |
| QueryExpander.NumberedQuestionsScenario | utils/query_expander.py:75-86 | a reply of two numbered questions and one plain one parses to the three questions |
| QueryExpander.RefundQuestionsScenario | utils/query_expander.py:75-86 | the same, for three concrete customs-refund questions in Korean |
| QueryExpander.SimilarQuestions | utils/query_expander.py:89-101 | always three questions: the first parsed items, then the query in every slot left over; the query three times when the call fails |
| QueryExpander.KeyTerms | utils/query_expander.py:163-170 | at most five key terms, forming a prefix of the parsed items that is all of them when there are fewer than five; none when the call fails |
| QueryExpander.SameParserOnBothPaths | utils/query_expander.py:150-160 | on the same reply text, the similar questions and the key terms agree wherever both come from parsed items |
| QueryExpander.GenerateSimilarQuestions | utils/query_expander.py:28-101 | the method, including its padding loop, returns `SimilarQuestions` of the reply to the similar-questions request |
| QueryExpander.ExtractKeyTerms | utils/query_expander.py:104-170 | the method returns `KeyTerms` of the reply to the key-terms request |
| QueryExpander.ExpandQuery | utils/query_expander.py:188-200 | the original query is kept, the keyword group is the query, then the similar questions, then the key terms, and it has 4 to 9 entries with the query first |
| QueryExpander.BothCallsFailed | utils/query_expander.py:98-101 | when both calls fail the keyword group is the query four times |
| QueryExpander.EmptyKeyTermsReply | utils/query_expander.py:150-166 | an empty key-terms reply gives no key terms and a keyword group of four |
| LawTerms.TitleTerms | data/extract_law_terms.py:42 | a title gives one term more than it has commas |
| LawTerms.TitleTermsAreTrimmed | data/extract_law_terms.py:42 | every term is trimmed and contains no comma |
| LawTerms.TitleTermsAreInfixes | data/extract_law_terms.py:42 | every term is a contiguous piece of its title |
| LawTerms.TitleTermsOfJoin | data/extract_law_terms.py:42 | a title written as terms joined by `", "` gives back those terms when none has surrounding whitespace or a comma |
| LawTerms.EmptyTitle | data/extract_law_terms.py:42 | an empty title gives the single term `""` |
| LawTerms.TrailingCommaGivesEmptyTerm | data/extract_law_terms.py:42 | a title ending in `','` gives `""` as its last term; empty pieces are not filtered |
| LawTerms.Pooled | data/extract_law_terms.py:39-43 | `all_terms`: every title's terms, title after title; `PoolTerms` computes it and `PooledMembership` characterises its elements |
| LawTerms.PooledLength | data/extract_law_terms.py:39-45 | there are at least as many pooled terms as titles |
| LawTerms.PooledAppend | data/extract_law_terms.py:39-43 | pooling the titles of two lists is pooling each and concatenating |
| LawTerms.PooledMembership | data/extract_law_terms.py:39-43 | a term is pooled exactly when some title has it among its terms |
| LawTerms.PoolTerms | data/extract_law_terms.py:39-43 | the `extend` loop computes the concatenation of all titles' terms in title order |
| LawTerms.ExtractLawTerms | data/extract_law_terms.py:35-61 | the term list is strictly increasing and holds exactly the pooled terms; the counts are the number of titles, the pooled count and the term-list length; unique ≤ pooled, with equality exactly when no term repeats; `""` comes first when pooled |

## Left out

- `load_law_terms_dictionary` (utils/query_expander.py:12-25) reads a JSON file. The dictionary is an input sequence, and a failed load is just the input `[]`.
- The hosted model client and its `GenerateContentConfig` form a network call. The client is the parameter `complete`. The model names and sampling settings are kept as constants, with the floats as `real`, and play no further part. A reply whose `text` is missing raises in the source, and this is modelled as `Failed`.
- The Korean wording of both prompt templates is not modelled. It is the `Template` parameter: the text before the term segment, between the segment and the query, and after the query.
- All `logging` calls are left out. They have no effect on results.
- In `extract_law_terms`, the following are left out: file paths, JSON reading and writing, the `생성일시` time stamp, the `원본파일` and `추출방식` metadata strings, and the console report. The model reads titles and returns the dictionary value.
- `data/update_moleg_data.py` is not part of this model. It is file I/O around a pandas deduplication and a cleaner class whose source is not available.
- `test_query_expander.py` and `test_query_expansion_live.py` are not part of this model. They are scripts that print fixed data or call the live service. The 8-entry keyword group they show is covered by `ExpandQuery`.
- PyStr.IsSpace follows Python's `str.isspace()` table for the code points it lists. Strings are Dafny `char` sequences, so Python strings holding lone surrogates are not modelled.
