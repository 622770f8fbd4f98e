/**
 * Small grammars, most of them from the package's test file (`Associativity`
 * and the `\d+` cases of `RegexLabels` are not). Some results are derived
 * from the general lemmas, the others by unfolding the definitions.
 */
module Scenarios {
  import opened Results
  import opened Parsers
  import opened Primitives
  import opened Literals
  import opened Repetition
  import opened Sequencing
  import opened Folds

  /** The label of a literal without characters that need escaping. */
  lemma QuotedA()
    ensures Quote("a") == "\"a\"" && Quote("b") == "\"b\"" && Quote(";") == "\";\""
  {
  }

  /** The candidates of the keyword example, in the caller's order. */
  function Keywords(): seq<string> {
    ["foo", "bar", "foobar"]
  }

  /** `string(['foo', 'bar', 'foobar'])` on "foob": only "foo" is a prefix. */
  lemma KeywordPrefix()
    ensures Strings(Keywords()).fun("foob", 0) == Ok(3, "foo")
  {
    var cs := Keywords();
    assert MatchesAt(cs[0], "foob", 0) && !MatchesAt(cs[1], "foob", 0) && !MatchesAt(cs[2], "foob", 0);
    StringsMaximalMunch(cs, "foob", 0);
  }

  /** On "foobar" both "foo" and "foobar" are prefixes, and the longer one wins. */
  lemma KeywordLongest()
    ensures Strings(Keywords()).fun("foobar", 0) == Ok(6, "foobar")
  {
    var cs := Keywords();
    assert MatchesAt(cs[2], "foobar", 0);
    StringsMaximalMunch(cs, "foobar", 0);
    var r := Strings(cs).fun("foobar", 0);
    assert |r.value| >= 6;
  }

  /** On "f" no candidate is a prefix, and the failure lists all three, quoted, in order. */
  lemma KeywordFailure()
    ensures Strings(Keywords()).fun("f", 0) ==
      Error(0, Many([Label(Quote("foo")), Label(Quote("bar")), Label(Quote("foobar"))]))
  {
    var cs := Keywords();
    assert !MatchesAt(cs[0], "f", 0) && !MatchesAt(cs[1], "f", 0) && !MatchesAt(cs[2], "f", 0);
    StringsFailure(cs, "f", 0);
    assert QuotedLabels(cs) == [Label(Quote("foo")), Label(Quote("bar")), Label(Quote("foobar"))];
  }

  /**
   * `'a' then 'b'`, as one string. Only the test of `or` maps the pair to "ab";
   * the tests of `optional` and `repeat` keep the pair `['a', 'b']` as the
   * value, so `RepeatABPairs` expects `["ab", "ab"]` where they expect
   * `[['a', 'b'], ['a', 'b']]`. Indices and failures are the same either way.
   */
  function AB(): Parser<string> {
    String("a").Then(String("b")).Map((v: (string, string)) => v.0 + v.1)
  }

  /** `ab.or('a')`: after "a" the first alternative has consumed, so the second is never tried. */
  lemma CommitOnConsumption()
    ensures AB().Or(String("a")).fun("a", 0) == Error(1, Label(Quote("b")))
    ensures AB().Or(String("a")).fun("", 0) == Error(0, Many([Label(Quote("a")), Label(Quote("a"))]))
    ensures AB().Or(String("a")).fun("abc", 0) == Ok(2, "ab")
  {
    assert StartsWith(Slice("a", 0), "a") && !StartsWith(Slice("a", 1), "b");
    assert !StartsWith(Slice("", 0), "a");
    assert StartsWith(Slice("abc", 0), "a") && StartsWith(Slice("abc", 1), "b");
    assert "a" + "b" == "ab";
  }

  /**
   * `'a'.or('b').or('c')`: the labels of nested alternations nest, in order.
   * The test's third alternative is the regular expression `/c/i`; here it is
   * the literal "c", so its label is the quoted literal instead of "/c/i".
   */
  lemma NestedOr()
    ensures String("a").Or(String("b")).Or(String("c")).fun("", 0) ==
      Error(0, Many([Many([Label(Quote("a")), Label(Quote("b"))]), Label(Quote("c"))]))
    ensures String("a").Or(String("b")).Or(String("c")).fun("ba", 0) == Ok(1, "b")
  {
  }

  /** `ab.optional(d)`: nothing is the default, a consumed "a" without "b" is the error. */
  lemma OptionalAB(d: string)
    ensures AB().Optional(d).fun("", 0) == Ok(0, d)
    ensures AB().Optional(d).fun("a", 0) == Error(1, Label(Quote("b")))
  {
  }

  /** `ab.repeat()` on "": nothing is the empty list. */
  lemma RepeatABEmpty()
    requires AB().Consuming()
    ensures AB().Repeat().fun("", 0) == Ok(0, [])
  {
    assert !StartsWith(Slice("", 0), "a");
    RepeatEmpty(AB(), "", 0);
  }

  /** `ab.repeat()` on "abab": both complete pairs are collected. */
  lemma RepeatABPairs()
    requires AB().Consuming()
    ensures AB().Repeat().fun("abab", 0) == Ok(4, ["ab", "ab"])
  {
    assert StartsWith(Slice("abab", 0), "a") && StartsWith(Slice("abab", 1), "b");
    assert StartsWith(Slice("abab", 2), "a") && StartsWith(Slice("abab", 3), "b");
    assert !StartsWith(Slice("abab", 4), "a");
    assert "a" + "b" == "ab";
    assert ["ab", "ab"][1..] == ["ab"] && ["ab"][1..] == [];
    assert Chain(AB(), "abab", 2, ["ab"], 4);
    RepeatOk(AB(), "abab", 0, 4, ["ab", "ab"]);
  }

  /** `ab.repeat()` on "aba": the pair broken after its "a" is the error, not a partial list. */
  lemma RepeatABBroken()
    requires AB().Consuming()
    ensures AB().Repeat().fun("aba", 0) == Error(3, Label(Quote("b")))
  {
    assert StartsWith(Slice("aba", 0), "a") && StartsWith(Slice("aba", 1), "b");
    assert StartsWith(Slice("aba", 2), "a") && !StartsWith(Slice("aba", 3), "b");
    assert "a" + "b" == "ab";
    assert Chain(AB(), "aba", 0, ["ab"], 2);
    RepeatFailureOfChain(AB(), "aba", 0, ["ab"], 2);
  }

  /** The pair of literals is consuming, so the repetition above is well defined. */
  lemma ABConsuming()
    ensures AB().Consuming()
  {
  }

  /**
   * `'a'.join(';' then ';')`. The test file writes this grammar as
   * `repeat({ join: ... })`, but `repeat` takes no argument; the outputs it
   * expects are those of `join`.
   */
  function Semicolons(): Parser<seq<string>>
    requires String(";").Then(String(";")).SkipThen(String("a")).Consuming()
  {
    String("a").Join(String(";").Then(String(";")))
  }

  /** The empty input is the empty list, and a second element is collected after a full delimiter. */
  lemma JoinSemicolonsOk()
    requires String(";").Then(String(";")).SkipThen(String("a")).Consuming()
    ensures Semicolons().fun("", 0) == Ok(0, [])
    ensures Semicolons().fun("a;;az", 0) == Ok(4, ["a", "a"])
  {
    var p, d := String("a"), String(";").Then(String(";"));
    assert !StartsWith(Slice("", 0), "a");
    JoinEmpty(p, d, "", 0);
    var s := "a;;az";
    assert StartsWith(Slice(s, 0), "a") && StartsWith(Slice(s, 1), ";") && StartsWith(Slice(s, 2), ";");
    assert StartsWith(Slice(s, 3), "a") && !StartsWith(Slice(s, 4), ";");
    assert d.fun(s, 1) == Ok(3, (";", ";"));
    assert [(";", ";")][1..] == [] && ["a"][1..] == [];
    assert JoinSteps(p, d, s, 4, [], [], 4);
    assert JoinSteps(p, d, s, 1, [(";", ";")], ["a"], 4);
    JoinOfSteps(p, d, s, 0, [(";", ";")], ["a"], 4);
    assert p.fun(s, 0) == Ok(1, "a") && ["a"] + ["a"] == ["a", "a"];
  }

  /** A delimiter broken after its first ";" is an error. */
  lemma JoinSemicolonsBrokenDelimiter()
    requires String(";").Then(String(";")).SkipThen(String("a")).Consuming()
    ensures Semicolons().fun("a;", 0) == Error(2, Label(Quote(";")))
  {
    var p, d := String("a"), String(";").Then(String(";"));
    assert StartsWith(Slice("a;", 0), "a") && StartsWith(Slice("a;", 1), ";") && !StartsWith(Slice("a;", 2), ";");
    assert d.fun("a;", 1) == Error(2, Label(Quote(";")));
    assert JoinRest(p, d, "a;", 1, ["a"]) == Error(2, Label(Quote(";")));
  }

  /** After a full delimiter the element is mandatory, so a missing one is an error. */
  lemma JoinSemicolonsMissingElement()
    requires String(";").Then(String(";")).SkipThen(String("a")).Consuming()
    ensures Semicolons().fun("a;;", 0) == Error(3, Label(Quote("a")))
  {
    var p, d := String("a"), String(";").Then(String(";"));
    assert StartsWith(Slice("a;;", 0), "a") && StartsWith(Slice("a;;", 1), ";") && StartsWith(Slice("a;;", 2), ";");
    assert !StartsWith(Slice("a;;", 3), "a");
    assert d.fun("a;;", 1) == Ok(3, (";", ";"));
    assert JoinRest(p, d, "a;;", 1, ["a"]) == Error(3, Label(Quote("a")));
  }

  /** The delimiter-then-element step is consuming, so the join above is well defined. */
  lemma SemicolonsConsuming()
    ensures String(";").Then(String(";")).SkipThen(String("a")).Consuming()
  {
  }

  /** The subtraction operator, for the associativity examples. */
  function Minus(): Op<int> {
    (l: int, r: int) => l - r
  }

  /** `1 - 2 - 3` folds to (1 - 2) - 3 from the left and to 1 - (2 - 3) from the right. */
  lemma Associativity()
    ensures FoldLeft(1, [(Minus(), 2), (Minus(), 3)]) == -4
    ensures FoldRight(1, [(Minus(), 2), (Minus(), 3)]) == 2
    ensures ReduceRight([1, 2, 3], [(Minus(), 2), (Minus(), 3)]) == 2
  {
  }

  /** Labels of `regex`: the sticky and global flags are dropped from a RegExp's rendering. */
  lemma RegexLabels()
    ensures RegexLabel(RegExp("c", "i"), None) == Label("/c/i")
    ensures RegexLabel(RegExp("foo", "giy"), None) == Label("/foo/i")
    ensures RegexLabel(Source("\\d+"), None) == Label("/\\d+/")
    ensures RegexLabel(Source("\\d+"), Some(Label(""))) == Label("/\\d+/")
    ensures RegexLabel(Source("\\d+"), Some(Label("digits"))) == Label("digits")
  {
  }

  /** `end()` succeeds at the end and past it, and nowhere before it. */
  lemma EndExamples()
    ensures End().fun("", 0) == Ok(0, ()) && End().fun("a", 5) == Ok(5, ())
    ensures End().fun("a", 0) == Error(0, EndOfInput)
  {
  }
}
