# parco parser combinators in Dafny

A model of the parser-combinator engine of `parco` (`src/index.ts`). A parser
is an immutable value that wraps a function from an input string and a start
index to a result. The result is either `Ok(index, value)` or
`Error(index, expected)`. `expected` is a tree of labels: a string, or a list
of trees. The combinators build new parsers from old ones.

- `results.dfy` (module `Results`) holds the result and label types. It also
  holds JavaScript truthiness for labels, and `JSON.stringify` quoting of
  literal labels written out, with a JSON string reader (section 7 of RFC 8259)
  that every quoted label is proved to read back through.
- `parser.dfy` (module `Parsers`) holds the `Parser` datatype and its method
  combinators: `map`, `filter`, `optional`, `bind`, `then`, `thenSkip`,
  `skipThen`, `between`, `or`, `repeat`, `join`, `chainLeft`, `chainRight`.
  The `repeat` and `join` loops are recursive functions. `RepeatLoop` and
  `JoinLoop` are imperative versions of the same loops, proved equal to them.
  The folds behind `chainLeft`/`chainRight` are also here.
- `primitives.dfy` (module `Primitives`) holds `succeed`, `fail`, `end`,
  `lazy`, `regex` over an abstract matcher, and the n-ary `or`. `OrLoop` is
  the n-ary `or` with its loop.
- `literals.dfy` (module `Literals`) holds `string` for one literal and for a
  list of literals.
- `repetition.dfy`, `alternation.dfy`, `sequencing.dfy` and `folds.dfy` state
  what `repeat`/`join`, `or`, the sequencing combinators and the precedence
  folds compute, without their loops.
- `scenarios.dfy` (module `Scenarios`) holds small grammars, most of them taken from the package's test file
  (`Associativity` and the `\d+` cases of `RegexLabels` are not). Some expected
  results are derived from the general lemmas, the others by unfolding the definitions.

Two rules run through the engine, and the model keeps them apart:

- **Commit on consumption.** `or` and `optional` treat an alternative as
  committed when it succeeds or fails past the start (`r.ok || r.index > index`).
  This is `Results.Commits`.
- **Zero-progress stop.** `repeat` and `join` end normally only on a failure at
  exactly the current index (`r.index === index`). Any other failure is
  returned.

`end` succeeds at any index at or past the end of the input, not only at the
end itself (`index >= input.length`, src/index.ts:220).

## Model

| member | source | states |
|---|---|---|
| Results.Result.Propagate | src/index.ts:27 | a failure is handed on unchanged, the same index and label at another value type, as `return r` does here and at lines 51, 59, 61 and 111; it is defined only on failures |
| Results.Commits | src/index.ts:43 | the commit test of line 43 (`r.ok`, or `r.index > index`): a success, or a failure that moved past the start; the same test as at lines 99, 101, 234 and 244 |
| Results.Truthy | src/index.ts:230 | JavaScript truthiness of an optional label, as `if (expected)` here and the default for `expected_` at line 208 test it: a missing label and the empty string are falsy, every other string and every array, the empty one included, are truthy |
| Results.EscapeJson | src/index.ts:193 | the text `JSON.stringify` writes between the quotes, one `EscapeChar` per character; its meaning is stated by `Results.EscapePlain` and `Results.UnescapeEscape` |
| Results.EscapeChar | src/index.ts:184 | a character other than a quote, a backslash or a control character is written as itself; every other character becomes an escape starting with a backslash |
| Results.Quote | src/index.ts:193 | `JSON.stringify` of a literal; what it means is stated by `Results.QuoteRoundTrip` and `Results.QuotePlain` |
| Results.EscapePlain | src/index.ts:193 | `JSON.stringify` leaves a string without quotes, backslashes or control characters unchanged inside the quotes |
| Results.QuotePlain | src/index.ts:193 | the label of such a literal is the literal between double quotes |
| Results.HexValueOfDigit | src/index.ts:193 | the lower-case hexadecimal digit of `\u00XX` escapes reads back as its value |
| Results.UnescapeChar | src/index.ts:193 | a JSON string reader reads the escape of any one character back as that character and continues after it |
| Results.UnescapeEscape | src/index.ts:193 | the escaped body of any string is a valid JSON string body (no bare quote or control character, only valid escapes) that reads back as the string |
| Results.QuoteRoundTrip | src/index.ts:193 | every label `JSON.stringify(s)` is one JSON string literal that reads back as `s` |
| Parsers.Parser.Parse | src/index.ts:20-22 | runs the wrapped function at the index, 0 by default; every lemma about a parser's `fun` describes it |
| Parsers.Parser.Map | src/index.ts:24-30 | keeps the index and the outcome, transforms only a success's value, and keeps a failure's label |
| Parsers.Parser.Filter | src/index.ts:32-38 | the inner result is returned unless it is a success the predicate rejects, which becomes a failure with the label at the success's index |
| Parsers.Parser.Optional | src/index.ts:40-46 | a success or a failure past the start is returned unchanged; a failure at the start becomes a success at the start with the default |
| Parsers.Parser.Bind | src/index.ts:48-54 | a failure is returned; a success runs the parser chosen from its value at the index where it ended |
| Parsers.Parser.Then | src/index.ts:56-64 | the first failure is returned; the second step starts where the first ended; both values are paired at the second's index |
| Parsers.Parser.ThenSkip | src/index.ts:66-74 | as `then`, keeping the first value |
| Parsers.Parser.SkipThen | src/index.ts:76-82 | a first failure is returned, otherwise the second step's result from where the first ended |
| Parsers.Parser.Between | src/index.ts:84-94 | the three steps run in order, each from where the previous ended; the first failure is returned; the middle value is kept at the third's index |
| Parsers.Parser.Or | src/index.ts:96-104 | a committed first alternative decides; otherwise a committed second; otherwise a failure at the start with both labels, in order |
| Parsers.Parser.Repeat | src/index.ts:106-116 | the loop of `RepeatFrom` from the index; described by `Repetition.RepeatOk`, `Repetition.RepeatEmpty`, `Repetition.RepeatFailure`, `Repetition.RepeatFailureOfChain` and `Repetition.RepeatForward` |
| Parsers.RepeatFrom | src/index.ts:108-114 | the `for (;;)` loop with its accumulator; described by `Repetition.RepeatFromOk`, `Repetition.RepeatFromOfChain`, `Repetition.RepeatFromError` and `Repetition.RepeatFromErrorOfChain`, and run by `Parsers.RepeatLoop` |
| Parsers.Parser.Join | src/index.ts:118-135 | `JoinFrom` from the index; described by `Repetition.JoinOk`, `Repetition.JoinEmpty`, `Repetition.JoinOfSteps`, `Repetition.JoinFailure`, `Repetition.JoinMissingElement` and `Repetition.JoinBrokenDelimiter` |
| Parsers.JoinFrom | src/index.ts:120-124 | the first element of `join`, then `JoinRest`; described by the same lemmas as `join` |
| Parsers.JoinRest | src/index.ts:125-133 | the delimiter/element loop; described by `Repetition.JoinRestOk`, `Repetition.JoinRestOfSteps`, `Repetition.JoinRestError` and `Repetition.JoinRestMissingElement`, and run by `Parsers.JoinLoop` |
| Parsers.Parser.ChainLeft | src/index.ts:137-141 | described by `Folds.ChainOfOperands`, `Folds.ChainLeftOk` and `Folds.ChainFailure` |
| Parsers.Parser.ChainRight | src/index.ts:143-149 | described by `Folds.ChainOfOperands`, `Folds.ChainRightOk` and `Folds.ChainFailure` |
| Parsers.FoldLeft | src/index.ts:138-140 | `reduce` with the head as initial value; left-associative by `Folds.FoldLeftSnoc` |
| Parsers.ReduceRight | src/index.ts:145-148 | `reduceRight` with no initial value; equal to the right fold by `Folds.ReduceRightIsFoldRight` |
| Parsers.ReduceRightFrom | src/index.ts:147-148 | the steps of `reduceRight` from an index down to 0; its invariant is `Folds.ReduceRightFromFolds` |
| Parsers.FoldRight | src/index.ts:143-149 | the right-associative reference fold; `Folds.FoldRightCons` states its associativity |
| Parsers.Operands | src/index.ts:145-146 | the operands after the head, one per operator/operand pair |
| Parsers.RepeatLoop | src/index.ts:106-116 | the `for (;;)` loop that pushes each value returns what `repeat` is specified to return |
| Parsers.JoinLoop | src/index.ts:118-135 | the element/delimiter loop returns what `join` is specified to return |
| Primitives.Succeed | src/index.ts:251-252 | succeeds with the value without moving |
| Primitives.Fail | src/index.ts:254-255 | fails with the label without moving |
| Primitives.End | src/index.ts:218-221 | succeeds exactly when the index is at or past the end of the input, never moves, and fails with "end of input" |
| Primitives.Lazy | src/index.ts:223-224 | the result is that of the parser the supplier gives |
| Primitives.DropStickyGlobal | src/index.ts:207 | the rendered flags hold no `y` and no `g`, every other flag occurs as often as in the input, and they keep their order (a subsequence of the input) |
| Primitives.RegexLabel | src/index.ts:204-208 | a truthy label wins, otherwise `/source/flags`; stated by `Primitives.Regex` and checked by `Scenarios.RegexLabels` |
| Primitives.Regex | src/index.ts:200-216 | a match of length n at the index is a success n characters on carrying the match; no match is a failure at the index with the truthy label or the rendered pattern |
| Primitives.Or | src/index.ts:226-249 | the labelled or the collecting loop, chosen by truthiness of the label; described by `Alternation.OrFirstCommit`, `Alternation.OrNoneCommits`, `Alternation.OrCommitsIff`, `Alternation.OrEmpty` and `Alternation.OrIgnoresLater` |
| Primitives.OrCollect | src/index.ts:240-248 | the collecting loop; described by `Alternation.OrCollectCommits` and `Alternation.OrCollectNone` |
| Primitives.OrLabelled | src/index.ts:229-236 | the labelled loop; described by `Alternation.OrLabelledCommits` and `Alternation.OrLabelledNone` |
| Primitives.OrLoop | src/index.ts:226-249 | the loops over the alternatives return what the n-ary `or` is specified to return, for both the labelled and the collecting form |
| Literals.Slice | src/index.ts:195 | `input.slice(index)` is the rest of the input, and empty past the end |
| Literals.StartsWith | src/index.ts:195 | `s.startsWith(prefix)`: the prefix is no longer than `s` and equals its first characters |
| Literals.MatchesAt | src/index.ts:209-212 | a candidate matches where the sticky regular expression finds it: at `lastIndex = index` within the input, the rest starting with the candidate; related to `startsWith` by `Literals.MatchesAtIsStartsWith` |
| Literals.MatchesAtIsStartsWith | src/index.ts:209-212 | a sticky match is the `startsWith` test on `input.slice(index)` at an index within the input, and never past the end |
| Literals.EmptyLiteralPastEnd | src/index.ts:193-212 | past the end, `string('')` succeeds with "" because `slice` is empty, while the literal set `[""]` fails with its quoted label because the sticky match needs an index within the input |
| Literals.String | src/index.ts:193-197 | succeeds exactly when the rest of the input starts with the literal, then at index plus its length with the literal; otherwise fails at the index with the quoted literal |
| Literals.QuotedLabels | src/index.ts:184 | one quoted label per candidate, in the caller's order |
| Literals.Insert | src/index.ts:186-187 | inserting a candidate adds exactly it to the list's contents |
| Literals.InsertSorted | src/index.ts:187 | inserting into a list sorted longest first keeps it sorted |
| Literals.SortByLength | src/index.ts:185-187 | the sorted copy is a permutation of the candidates, longest first |
| Literals.FirstMatch | src/index.ts:189 | the leftmost alternative of the joined pattern that matches is a candidate that matches; if none is found, none matches |
| Literals.AlternationMatch | src/index.ts:185-191 | the sticky alternation of the sorted candidates finds the longest matching candidate when there is one; with no candidates it matches "" exactly when the index is within the input |
| Literals.StringsAsWritten | src/index.ts:183-192 | the literal set as written: the sorted alternation's match is the success, no match is a failure with the quoted candidates |
| Literals.LongestMatch | src/index.ts:183-192 | a matching candidate no shorter than any other matching one, and none exactly when no candidate matches |
| Literals.Strings | src/index.ts:183-192 | the literal set as intended: the longest matching candidate is the success, no match is a failure with the quoted candidates |
| Literals.SameLengthMatchesAgree | src/index.ts:187-189 | two candidates matching at the same index with the same length are equal, so ties in the sort do not matter |
| Literals.FirstMatchSorted | src/index.ts:187-189 | on a list sorted longest first the leftmost match is a longest match |
| Literals.FirstOfSortedIsLongest | src/index.ts:185-191 | the first match of the sorted alternation is the longest matching candidate |
| Literals.StringsAsWrittenAgrees | src/index.ts:183-192 | with at least one candidate the construction as written is the longest-prefix parser |
| Literals.StringsAsWrittenEmptyList | src/index.ts:183-192 | with no candidates the construction as written succeeds with "" while the intended parser fails with an empty label list |
| Literals.StringsMaximalMunch | src/index.ts:183-192 | a success is a candidate, is the text consumed, and no longer candidate matches at the index |
| Literals.StringsFailure | src/index.ts:183-192 | the literal set fails exactly when no candidate matches, at the index, with the quoted candidates in caller order |
| Literals.StringConsumesLiteral | src/index.ts:195 | a success consumed exactly the literal; past the end only the empty literal succeeds |
| Literals.StringConsuming | src/index.ts:195 | a non-empty literal consumes on every success |
| Literals.StringsConsuming | src/index.ts:183-192 | a set of non-empty literals consumes on every success |
| Literals.LiteralsForward | src/index.ts:182-198 | both literal forms keep results between the index and the end of the input |
| Repetition.RepeatFromOk | src/index.ts:108-114 | a success of the loop extends its accumulator by a run of element successes that ends where the element fails at exactly the index |
| Repetition.RepeatFromOfChain | src/index.ts:108-114 | conversely such a run ended by a zero-progress failure is the loop's success |
| Repetition.RepeatOk | src/index.ts:106-116 | `repeat` succeeds with values vs at j exactly when the element succeeds |vs| times in a row with those values, ending at j, and then fails at exactly j |
| Repetition.RepeatEmpty | src/index.ts:111 | a first element failure at the start gives the empty list at the start |
| Repetition.RepeatFromError | src/index.ts:108-114 | a failure of the loop is an element failure that moved, after a run of successes |
| Repetition.RepeatFromErrorOfChain | src/index.ts:108-114 | conversely such a moved failure after a run of successes is the loop's failure |
| Repetition.RepeatFailure | src/index.ts:106-116 | every failure of `repeat` is an element failure that moved, returned as is, never a partial success |
| Repetition.RepeatFailureOfChain | src/index.ts:106-116 | conversely such a moved failure after a run of successes is what `repeat` returns |
| Repetition.ChainWithin | src/index.ts:108-114 | a run of consuming successes ends at or after its start, and within the input when it is not empty |
| Repetition.RepeatForward | src/index.ts:106-116 | `repeat` of a consuming parser that never moves backwards never moves backwards |
| Repetition.JoinRestOk | src/index.ts:125-133 | a success of the delimiter loop extends its accumulator by delimiter/element pairs, ending where the delimiter fails at exactly the index |
| Repetition.JoinRestOfSteps | src/index.ts:125-133 | conversely such pairs ended by a zero-progress delimiter failure are the loop's success |
| Repetition.JoinOk | src/index.ts:118-135 | a success of `join` is empty exactly when the first element fails at the start; otherwise it is the first element followed by delimiter/element pairs, one more element than delimiters |
| Repetition.JoinEmpty | src/index.ts:122 | a first element failure at the start gives the empty list at the start |
| Repetition.JoinOfSteps | src/index.ts:118-135 | a first element followed by delimiter/element pairs and a zero-progress delimiter failure is `join`'s success |
| Repetition.JoinRestError | src/index.ts:125-133 | a failure of the delimiter loop is a moved delimiter failure or any element failure after a delimiter |
| Repetition.JoinFailure | src/index.ts:118-135 | every failure of `join` is a moved first-element failure, a moved delimiter failure, or an element failure after a delimiter, returned as is |
| Repetition.JoinRestMissingElement | src/index.ts:129-131 | after a delimiter an element failure is returned even when it did not move |
| Repetition.JoinMissingElement | src/index.ts:118-135 | after the first element and a delimiter, a missing element is `join`'s failure, even at zero progress |
| Repetition.JoinBrokenDelimiter | src/index.ts:125-128 | after the first element and any delimiter/element pairs, a delimiter that fails after moving is `join`'s result, returned as is with the collected elements dropped |
| Sequencing.ThenSkipIsThenFirst | src/index.ts:56-74 | `thenSkip` is `then` keeping the first component |
| Sequencing.SkipThenIsThenSecond | src/index.ts:56-82 | `skipThen` is `then` keeping the second component |
| Sequencing.BetweenIsSkipThenThenSkip | src/index.ts:66-94 | `a.between(b, c)` is `b.skipThen(a).thenSkip(c)` |
| Sequencing.ThenIsBind | src/index.ts:48-64 | `then` is `bind` into a second step that ignores the first value |
| Sequencing.MapIsBind | src/index.ts:24-54 | `map` is `bind` into `succeed` |
| Sequencing.FilterIsBind | src/index.ts:32-54 | `filter` is `bind` into `succeed` or `fail` |
| Sequencing.OptionalIsOrSucceed | src/index.ts:40-46 | `optional(d)` is `or(succeed(d))` |
| Sequencing.SequencingForward | src/index.ts:24-104 | every sequencing combinator keeps results between the start and the end of the input when its parts do |
| Sequencing.ThenConsumingFirst | src/index.ts:56-82 | a sequence whose first step consumes consumes |
| Sequencing.ThenConsumingSecond | src/index.ts:56-82 | a sequence whose second step consumes consumes |
| Sequencing.PrimitivesForward | src/index.ts:218-255 | `succeed`, `fail`, `end` and `lazy` never move results out of range |
| Sequencing.RegexForward | src/index.ts:210-215 | an anchored matcher keeps `regex` within the input, and one that never matches the empty string makes it consuming |
| Alternation.Labels | src/index.ts:244-245 | one label per alternative, in order |
| Alternation.OrCollectCommits | src/index.ts:241-247 | the collecting loop returns the first committed alternative's result |
| Alternation.OrLabelledCommits | src/index.ts:231-235 | the labelled loop returns the first committed alternative's result |
| Alternation.OrCollectNone | src/index.ts:241-248 | with nothing committed, the collecting loop fails at the index with every label in order |
| Alternation.OrLabelledNone | src/index.ts:231-236 | with nothing committed, the labelled loop fails at the index with the caller's label |
| Alternation.OrFirstCommit | src/index.ts:226-249 | the first alternative that succeeds or moves decides the result, and later ones do not matter |
| Alternation.OrNoneCommits | src/index.ts:226-249 | when all fail at the start, the failure is at the start with the truthy caller label, or else the list of all labels in order |
| Alternation.OrCommitsIff | src/index.ts:226-249 | `or` commits exactly when one of its alternatives commits |
| Alternation.First | src/index.ts:231-246 | a committed alternative has a first committed one at or before it |
| Alternation.OrIgnoresLater | src/index.ts:231-246 | alternatives after a committed one can be added without changing the result |
| Alternation.OrEmpty | src/index.ts:226-249 | an empty list fails at the index with the caller's truthy label or an empty list |
| Alternation.BinaryOrIsOr | src/index.ts:96-104 | the method `a.or(b)` equals the unlabelled `or([a, b])` |
| Alternation.OrForward | src/index.ts:226-249 | alternatives that never move backwards give an `or` that never does |
| Folds.FoldLeftSnoc | src/index.ts:137-141 | the left fold applies the last operator on top of the fold of the earlier ones, so `chainLeft` is left-associative |
| Folds.ReduceRightFromFolds | src/index.ts:145-148 | each step of `reduceRight` keeps the accumulator equal to the right fold of the operands from that position |
| Folds.ReduceRightIsFoldRight | src/index.ts:143-149 | `reduceRight` with no initial value over the head and operands is the right-associative fold |
| Folds.FoldRightCons | src/index.ts:143-149 | the right fold applies the first operator to the head and the fold of the rest, so `chainRight` is right-associative |
| Folds.ChainOfOperands | src/index.ts:137-149 | an operand then operator/operand pairs under `repeat` rules is the success of `chainLeft` folded left and of `chainRight` folded right |
| Folds.ChainLeftOk | src/index.ts:137-141 | every success of `chainLeft` is such a chain folded from the left |
| Folds.ChainRightOk | src/index.ts:143-149 | every success of `chainRight` is such a chain folded from the right |
| Folds.ChainFailure | src/index.ts:137-149 | both chains fail alike: the first operand's failure, or a pair failure that moved after a run of pairs |
| Scenarios.QuotedA | tests/index.test.ts:809-813 | the labels of the one-character literals used below |
| Scenarios.KeywordPrefix | tests/index.test.ts:67-73 | `string(['foo', 'bar', 'foobar'])` on "foob" takes "foo" |
| Scenarios.KeywordLongest | tests/index.test.ts:75-81 | on "foobar" the longer candidate "foobar" wins over "foo" |
| Scenarios.KeywordFailure | tests/index.test.ts:47-57 | on "f" the failure lists the three quoted candidates in the caller's order |
| Scenarios.NestedOr | tests/index.test.ts:609-650 | nested binary `or` gives nested label lists, in order |
| Scenarios.CommitOnConsumption | tests/index.test.ts:668-703 | `('a' then 'b').or('a')` on "", "a" and "abc" |
| Scenarios.OptionalAB | tests/index.test.ts:339-355 | `('a' then 'b').optional(d)` on "" and "a" |
| Scenarios.RepeatABEmpty | tests/index.test.ts:712-718 | `('a' then 'b').repeat()` on "" is the empty list |
| Scenarios.RepeatABPairs | tests/index.test.ts:757-772 | on "abab" both pairs are collected at index 4; the values are the pairs mapped to "ab", where the test keeps `['a', 'b']` |
| Scenarios.RepeatABBroken | tests/index.test.ts:750-756 | on "aba" the pair broken after "a" is the error, not a partial list |
| Scenarios.ABConsuming | tests/index.test.ts:710 | the repeated pair consumes |
| Scenarios.JoinSemicolonsOk | tests/index.test.ts:781-840 | `'a'` joined by `';;'` on "" and "a;;az" |
| Scenarios.JoinSemicolonsBrokenDelimiter | tests/index.test.ts:808-814 | on "a;" the delimiter that moved is the failure |
| Scenarios.JoinSemicolonsMissingElement | tests/index.test.ts:815-821 | on "a;;" the element missing after a delimiter is the failure |
| Scenarios.SemicolonsConsuming | tests/index.test.ts:781 | the delimiter-then-element step consumes |
| Scenarios.Associativity | src/index.ts:137-149 | `1 - 2 - 3` folds to -4 from the left and to 2 from the right, also through `reduceRight` |
| Scenarios.RegexLabels | tests/index.test.ts:194-213 | rendered regex labels drop the `g` and `y` flags, and a falsy label is replaced; the `\d+` cases are not from the test file |
| Scenarios.EndExamples | tests/index.test.ts:218-234 | `end` at and past the end of the input and before it |

## Left out

- Parsers.Parser.Repeat: requires that the element consumes on every success, because the code loops forever on a success that does not move and a Dafny function must terminate. The requirement is stronger than termination needs in two ways. It also excludes a success that ends past the end of the input. It must hold on every input and at every index, not only where a parse reaches. So `string('a').or(end()).repeat()` is outside the model, though on "ab" the code returns `Ok(1, ['a'])`.
- Parsers.Parser.Join: requires that the delimiter followed by the element consumes, for the same reason and with the same two excess restrictions.
- Parsers.Parser.ChainLeft: requires that an operator followed by an operand consumes, because it is built on `repeat`.
- Parsers.Parser.ChainRight: the same requirement as `chainLeft`.
- Parsers.Parser.Or: both alternatives have one value type. The code gives a union type `A | B`. The same holds for `optional`'s default.
- Primitives.Regex: the regular-expression engine is not modelled. A compiled sticky pattern run with `lastIndex = index` is an abstract matcher passed as a parameter. Its anchoring is a hypothesis (`Anchored`) of the lemmas about it. The mutation of `lastIndex` is hidden inside the matcher.
- `escapeRegex` and the regex syntax of the literal-set pattern are not modelled. The alternation is modelled by what it matches.
- `lazy` is modelled, but recursive grammars through it are not. Dafny closures must be well-founded.
- The overloaded `p` entry point and `pipe` are not modelled. They only dispatch on the argument's run-time type or apply a function.
- The example grammars and the benchmark are not modelled. Their floating-point arithmetic and regex-based tokens are outside the engine.
- Indices are natural numbers. Negative or fractional start indices passed to `parse` are not modelled.
- Characters are Dafny characters. JavaScript strings are UTF-16 code units, and surrogate pairs are not treated specially.
- `JSON.stringify` is modelled only on strings, which is the only use here. Lone surrogates are not escaped the way JavaScript escapes them.
- Stack overflow on deeply nested input is not modelled.
- There is no `try` combinator and no bounded `repeat` in src/index.ts, so neither is modelled.

## Findings

| source | as written | input that shows it | evidently intended | confidence | as-written member | corrected member |
|---|---|---|---|---|---|---|
| src/index.ts:183-191 | `string([])` joins no alternatives into the empty pattern, which matches the empty string at any index within the input | `string([]).parse("x")` gives `Ok(0, "")`, and "" is not one of the candidates, which breaks the cast to `Parser<A>` | with no candidates nothing matches, so the result is `Error(0, [])` | not executed | Literals.StringsAsWritten (Literals.StringsAsWrittenEmptyList) | Literals.Strings (Literals.StringsMaximalMunch) |
