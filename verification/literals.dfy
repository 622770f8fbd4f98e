/**
 * The literal matchers of `string` in src/index.ts: one literal, matched on
 * `input.slice(index)`, and a set of literals, matched longest first.
 */
module Literals {
  import opened Results
  import opened Parsers

  /** `input.slice(index)`: the rest of the input, empty once the index is past the end. */
  function Slice(input: string, i: nat): (r: string)
    ensures i <= |input| ==> r == input[i..]
    ensures i > |input| ==> r == []
  {
    if i <= |input| then input[i..] else []
  }

  /** `s.startsWith(prefix)`. */
  predicate StartsWith(s: string, prefix: string) {
    |prefix| <= |s| && s[..|prefix|] == prefix
  }

  /** `string(s)` for one literal: a success |s| characters on exactly when the rest starts with `s`. */
  function String(s: string): (q: Parser<string>)
    ensures forall input: string, i: nat :: q.fun(input, i).Ok? <==> StartsWith(Slice(input, i), s)
    ensures forall input: string, i: nat :: q.fun(input, i).Ok? ==> q.fun(input, i) == Ok(i + |s|, s)
    ensures forall input: string, i: nat :: q.fun(input, i).Error? ==> q.fun(input, i) == Error(i, Label(Quote(s)))
  {
    var expected := Label(Quote(s));
    Parser((input: string, i: nat) =>
      if StartsWith(Slice(input, i), s) then Ok(i + |s|, s) else Error(i, expected))
  }

  /** A candidate matches where the sticky regular expression would: at an index within the input. */
  predicate MatchesAt(c: string, input: string, i: nat) {
    i <= |input| && StartsWith(input[i..], c)
  }

  /** `arg.map(a => JSON.stringify(a))`: the failure labels, in the caller's order. */
  function QuotedLabels(cs: seq<string>): (r: seq<Expected>)
    ensures |r| == |cs| && forall k :: 0 <= k < |cs| ==> r[k] == Label(Quote(cs[k]))
  {
    seq(|cs|, (k: int) requires 0 <= k < |cs| => Label(Quote(cs[k])))
  }

  /** Longest first. */
  ghost predicate SortedByLength(s: seq<string>) {
    forall a, b :: 0 <= a < b < |s| ==> |s[a]| >= |s[b]|
  }

  /** One insertion step of a stable sort by descending length: `x` goes before the first element no longer than it. */
  function Insert(x: string, s: seq<string>): (r: seq<string>)
    ensures multiset(r) == multiset(s) + multiset{x}
    decreases |s|
  {
    if s == [] || |s[0]| <= |x| then [x] + s
    else
      assert s == [s[0]] + s[1..];
      [s[0]] + Insert(x, s[1..])
  }

  lemma {:induction false} InsertSorted(x: string, s: seq<string>)
    requires SortedByLength(s)
    ensures SortedByLength(Insert(x, s))
    decreases |s|
  {
    if s != [] && |s[0]| > |x| {
      var rest := Insert(x, s[1..]);
      InsertSorted(x, s[1..]);
      assert Insert(x, s) == [s[0]] + rest;
      forall k | 0 <= k < |rest| ensures |s[0]| >= |rest[k]| {
        assert rest[k] in multiset(rest);
        if rest[k] != x {
          assert rest[k] in multiset(s[1..]);
          var j :| 0 <= j < |s[1..]| && s[1..][j] == rest[k];
          assert s[j + 1] == rest[k];
        }
      }
    }
  }

  /** `arg.slice().sort((a, b) => b.length - a.length)`: the candidates, longest first, equal lengths in the caller's order. */
  function SortByLength(cs: seq<string>): (r: seq<string>)
    ensures multiset(r) == multiset(cs)
    ensures SortedByLength(r)
    decreases |cs|
  {
    if cs == [] then []
    else
      assert cs == [cs[0]] + cs[1..];
      InsertSorted(cs[0], SortByLength(cs[1..]));
      Insert(cs[0], SortByLength(cs[1..]))
  }

  /** The leftmost alternative of `c1|c2|...` that matches: how the alternation picks. */
  function FirstMatch(alts: seq<string>, input: string, i: nat): (r: Option<string>)
    ensures r.Some? ==> r.value in alts && MatchesAt(r.value, input, i)
    ensures r.None? ==> forall k :: 0 <= k < |alts| ==> !MatchesAt(alts[k], input, i)
    decreases |alts|
  {
    if alts == [] then None
    else if MatchesAt(alts[0], input, i) then Some(alts[0])
    else FirstMatch(alts[1..], input, i)
  }

  /**
   * The pattern `sorted.join('|')` as the sticky regular expression runs it:
   * with no candidates the pattern is empty and matches the empty string.
   */
  function AlternationMatch(cs: seq<string>, input: string, i: nat): (r: Option<string>)
    ensures cs != [] ==> r == LongestMatch(cs, input, i)
    ensures cs == [] ==> (r.Some? <==> i <= |input|) && (r.Some? ==> r.value == "")
  {
    if cs == [] then (if i <= |input| then Some("") else None)
    else
      FirstOfSortedIsLongest(cs, input, i);
      FirstMatch(SortByLength(cs), input, i)
  }

  /** `string(cs)` for a list of literals, as written: the sorted alternation under `regex` with the quoted labels. */
  function StringsAsWritten(cs: seq<string>): (q: Parser<string>)
    ensures forall input: string, i: nat ::
      AlternationMatch(cs, input, i).Some? ==>
        q.fun(input, i) == Ok(i + |AlternationMatch(cs, input, i).value|, AlternationMatch(cs, input, i).value)
    ensures forall input: string, i: nat ::
      AlternationMatch(cs, input, i).None? ==> q.fun(input, i) == Error(i, Many(QuotedLabels(cs)))
  {
    var expected := Many(QuotedLabels(cs));
    Parser((input: string, i: nat) =>
      match AlternationMatch(cs, input, i)
      case Some(text) => Ok(i + |text|, text)
      case None => Error(i, expected))
  }

  /** The longest candidate that matches at the index, if any. */
  function LongestMatch(cs: seq<string>, input: string, i: nat): (r: Option<string>)
    ensures r.Some? ==> r.value in cs && MatchesAt(r.value, input, i)
    ensures r.Some? ==> forall k :: 0 <= k < |cs| && MatchesAt(cs[k], input, i) ==> |cs[k]| <= |r.value|
    ensures r.None? <==> forall k :: 0 <= k < |cs| ==> !MatchesAt(cs[k], input, i)
    decreases |cs|
  {
    if cs == [] then None
    else
      var rest := LongestMatch(cs[1..], input, i);
      assert forall k :: 1 <= k < |cs| ==> cs[k] == cs[1..][k - 1];
      if MatchesAt(cs[0], input, i) && (rest.None? || |rest.value| <= |cs[0]|) then Some(cs[0])
      else rest
  }

  /**
   * `string(cs)` for a list of literals, maximal munch: the longest candidate
   * that is a prefix of the rest of the input; failing that, the quoted
   * candidates in the caller's order.
   */
  function Strings(cs: seq<string>): (q: Parser<string>)
    ensures forall input: string, i: nat ::
      LongestMatch(cs, input, i).Some? ==>
        q.fun(input, i) == Ok(i + |LongestMatch(cs, input, i).value|, LongestMatch(cs, input, i).value)
    ensures forall input: string, i: nat ::
      LongestMatch(cs, input, i).None? ==> q.fun(input, i) == Error(i, Many(QuotedLabels(cs)))
  {
    var expected := Many(QuotedLabels(cs));
    Parser((input: string, i: nat) =>
      match LongestMatch(cs, input, i)
      case Some(text) => Ok(i + |text|, text)
      case None => Error(i, expected))
  }

  /** The sticky match is the `startsWith` test on the rest of the input, restricted to indices within the input. */
  lemma MatchesAtIsStartsWith(c: string, input: string, i: nat)
    ensures MatchesAt(c, input, i) <==> i <= |input| && StartsWith(Slice(input, i), c)
  {
  }

  /**
   * Past the end the two forms part ways: the single empty literal succeeds on
   * the empty rest, while the set holding only "" finds no sticky match.
   */
  lemma EmptyLiteralPastEnd(input: string, i: nat)
    requires i > |input|
    ensures String("").fun(input, i) == Ok(i, "")
    ensures Strings([""]).fun(input, i) == Error(i, Many([Label(Quote(""))]))
  {
    assert StartsWith(Slice(input, i), "");
    assert forall k :: 0 <= k < |[""]| ==> !MatchesAt([""][k], input, i);
    assert LongestMatch([""], input, i).None?;
    assert QuotedLabels([""]) == [Label(Quote(""))];
  }

  /** Two candidates that match at the same index with the same length are the same text. */
  lemma SameLengthMatchesAgree(a: string, b: string, input: string, i: nat)
    requires MatchesAt(a, input, i) && MatchesAt(b, input, i) && |a| == |b|
    ensures a == b
  {
  }

  /** On a list sorted longest first, the leftmost match is a longest match. */
  lemma {:induction false} FirstMatchSorted(alts: seq<string>, input: string, i: nat)
    requires SortedByLength(alts)
    ensures FirstMatch(alts, input, i).Some? ==>
      forall k :: 0 <= k < |alts| && MatchesAt(alts[k], input, i) ==> |alts[k]| <= |FirstMatch(alts, input, i).value|
    decreases |alts|
  {
    if alts != [] && !MatchesAt(alts[0], input, i) {
      var tail := alts[1..];
      assert SortedByLength(tail) by {
        forall a, b | 0 <= a < b < |tail| ensures |tail[a]| >= |tail[b]| {
          assert tail[a] == alts[a + 1] && tail[b] == alts[b + 1];
        }
      }
      FirstMatchSorted(tail, input, i);
      forall k | 1 <= k < |alts| ensures alts[k] == tail[k - 1] { }
    }
  }

  /** Maximal munch of the source's construction: the first match of the sorted alternation is the longest match. */
  lemma FirstOfSortedIsLongest(cs: seq<string>, input: string, i: nat)
    ensures FirstMatch(SortByLength(cs), input, i) == LongestMatch(cs, input, i)
  {
    var sorted := SortByLength(cs);
    var fm, lm := FirstMatch(sorted, input, i), LongestMatch(cs, input, i);
    if fm.None? {
      forall k | 0 <= k < |cs| ensures !MatchesAt(cs[k], input, i) {
        assert cs[k] in multiset(sorted);
        var m :| 0 <= m < |sorted| && sorted[m] == cs[k];
      }
    } else {
      var s := fm.value;
      assert s in multiset(cs);
      var k :| 0 <= k < |cs| && cs[k] == s;
      assert lm.Some?;
      var t := lm.value;
      assert t in multiset(sorted);
      var m :| 0 <= m < |sorted| && sorted[m] == t;
      FirstMatchSorted(sorted, input, i);
      SameLengthMatchesAgree(s, t, input, i);
    }
  }

  /** With at least one candidate, the construction as written is the longest-prefix parser. */
  lemma StringsAsWrittenAgrees(cs: seq<string>, input: string, i: nat)
    requires cs != []
    ensures StringsAsWritten(cs).fun(input, i) == Strings(cs).fun(input, i)
  {
    FirstOfSortedIsLongest(cs, input, i);
  }

  /** The empty candidate list as written: the empty pattern matches, so "" is returned though no candidate exists. */
  lemma StringsAsWrittenEmptyList()
    ensures StringsAsWritten([]).fun("x", 0) == Ok(0, "")
    ensures Strings([]).fun("x", 0) == Error(0, Many([]))
  {
  }

  /** Maximal munch: a success is a candidate, it is the consumed text, and no longer candidate matches there. */
  lemma StringsMaximalMunch(cs: seq<string>, input: string, i: nat)
    requires Strings(cs).fun(input, i).Ok?
    ensures var r := Strings(cs).fun(input, i);
      && r.value in cs
      && i <= r.index <= |input|
      && input[i..r.index] == r.value
      && forall k :: 0 <= k < |cs| && MatchesAt(cs[k], input, i) ==> |cs[k]| <= |r.value|
  {
  }

  /** A literal set fails exactly when no candidate matches, at the index, with the labels in the caller's order. */
  lemma StringsFailure(cs: seq<string>, input: string, i: nat)
    ensures Strings(cs).fun(input, i).Error? <==> forall k :: 0 <= k < |cs| ==> !MatchesAt(cs[k], input, i)
    ensures Strings(cs).fun(input, i).Error? ==> Strings(cs).fun(input, i) == Error(i, Many(QuotedLabels(cs)))
  {
  }

  /** The text a single literal consumes is the literal; past the end only the empty literal succeeds. */
  lemma StringConsumesLiteral(s: string, input: string, i: nat)
    requires String(s).fun(input, i).Ok?
    ensures i <= |input| ==> i + |s| <= |input| && input[i..i + |s|] == s
    ensures i > |input| ==> s == ""
  {
  }

  /** A non-empty literal consumes input on every success, so it may be repeated. */
  lemma StringConsuming(s: string)
    requires s != ""
    ensures String(s).Consuming()
  {
  }

  /** A literal set without the empty candidate consumes input on every success. */
  lemma StringsConsuming(cs: seq<string>)
    requires forall k :: 0 <= k < |cs| ==> cs[k] != ""
    ensures Strings(cs).Consuming()
  {
  }

  /** Both literal forms keep every result between the index and the end of the input. */
  lemma LiteralsForward(s: string, cs: seq<string>)
    ensures String(s).Forward() && Strings(cs).Forward()
  {
  }
}
