/**
 * The free-standing constructors of src/index.ts other than the literal
 * matchers: `regex` over an abstract anchored matcher, `end`, `lazy`, the
 * n-ary `or`, `succeed` and `fail`.
 */
module Primitives {
  import opened Results
  import opened Parsers

  /** `succeed(value)`: succeeds with the value, without moving. */
  function Succeed<A>(value: A): (q: Parser<A>)
    ensures forall input: string, i: nat :: q.fun(input, i).Ok? && q.fun(input, i).index == i
    ensures forall input: string, i: nat :: q.fun(input, i).value == value
  {
    Parser((input: string, i: nat) => Ok(i, value))
  }

  /** `fail(expected)`: fails with the label, without moving. */
  function Fail<A>(expected: Expected): (q: Parser<A>)
    ensures forall input: string, i: nat :: q.fun(input, i).Error? && q.fun(input, i).index == i
    ensures forall input: string, i: nat :: q.fun(input, i).expected == expected
  {
    Parser((input: string, i: nat) => Error(i, expected))
  }

  /** The failure label of `end`. */
  const EndOfInput: Expected := Label("end of input")

  /** `end()`: succeeds, without moving, exactly when the index is at or past the end of the input. */
  function End(): (q: Parser<()>)
    ensures forall input: string, i: nat :: q.fun(input, i).Ok? <==> i >= |input|
    ensures forall input: string, i: nat :: q.fun(input, i).index == i
    ensures forall input: string, i: nat :: q.fun(input, i).Error? ==> q.fun(input, i).expected == EndOfInput
  {
    Parser((input: string, i: nat) => if i >= |input| then Ok(i, ()) else Error(i, EndOfInput))
  }

  /** `lazy(p)`: the supplied parser is obtained only when the result runs, and decides the result. */
  function Lazy<A>(supplier: () -> Parser<A>): (q: Parser<A>)
    ensures forall input: string, i: nat :: q.fun(input, i) == supplier().fun(input, i)
  {
    Parser((input: string, i: nat) => supplier().fun(input, i))
  }

  /**
   * The compiled sticky pattern, run from `lastIndex = index`: the text it
   * matches there, or nothing. The regular-expression engine is not modelled.
   */
  type Matcher = (string, nat) -> Option<string>

  /** A matcher that only ever matches a prefix of the input from the index. */
  ghost predicate Anchored(m: Matcher) {
    forall input: string, i: nat ::
      m(input, i).Some? ==> i + |m(input, i).value| <= |input| && input[i..i + |m(input, i).value|] == m(input, i).value
  }

  /** The two forms `regex` accepts: a pattern string, or a RegExp with its source and flags. */
  datatype Pattern = Source(text: string) | RegExp(source: string, flags: string)

  /** `a` is `b` with some characters removed, the rest kept in order. */
  predicate Subsequence(a: string, b: string)
    decreases |b|
  {
    if a == [] then true
    else if b == [] then false
    else if a[0] == b[0] then Subsequence(a[1..], b[1..])
    else Subsequence(a, b[1..])
  }

  /** `flags.replace(/y|g/g, '')`: every `y` and `g` removed, every other flag kept, in order. */
  function DropStickyGlobal(flags: string): (r: string)
    ensures forall k :: 0 <= k < |r| ==> r[k] != 'y' && r[k] != 'g'
    ensures forall c :: c != 'y' && c != 'g' ==> multiset(r)[c] == multiset(flags)[c]
    ensures Subsequence(r, flags)
    decreases |flags|
  {
    if flags == [] then []
    else
      assert flags == [flags[0]] + flags[1..];
      if flags[0] == 'y' || flags[0] == 'g' then DropStickyGlobal(flags[1..])
      else [flags[0]] + DropStickyGlobal(flags[1..])
  }

  /** `expected_ || `/${source}/${flags}``: a truthy label wins, otherwise the pattern is rendered. */
  function RegexLabel(pattern: Pattern, expected: Option<Expected>): Expected {
    if Truthy(expected) then expected.value
    else
      match pattern
      case Source(text) => Label("/" + text + "/")
      case RegExp(source, flags) => Label("/" + source + "/" + DropStickyGlobal(flags))
  }

  /** `regex(arg, {expected})`: a match of length n at the index is a success n characters on. */
  function Regex(m: Matcher, pattern: Pattern, expected: Option<Expected>): (q: Parser<string>)
    ensures forall input: string, i: nat ::
      m(input, i).Some? ==> q.fun(input, i) == Ok(i + |m(input, i).value|, m(input, i).value)
    ensures forall input: string, i: nat ::
      m(input, i).None? ==> q.fun(input, i) == Error(i, RegexLabel(pattern, expected))
  {
    var onFailure := RegexLabel(pattern, expected);
    Parser((input: string, i: nat) =>
      match m(input, i)
      case Some(text) => Ok(i + |text|, text)
      case None => Error(i, onFailure))
  }

  /** The commit-on-consumption loop of the unlabelled `or`, collecting the labels it passes. */
  function OrCollect<A>(ps: seq<Parser<A>>, k: nat, input: string, index: nat, acc: seq<Expected>): Result<A>
    requires k <= |ps|
    decreases |ps| - k
  {
    if k == |ps| then Error(index, Many(acc))
    else
      var r := ps[k].fun(input, index);
      if Commits(r, index) then r else OrCollect(ps, k + 1, input, index, acc + [r.expected])
  }

  /** The loop of the labelled `or`: the caller's label replaces the collected ones. */
  function OrLabelled<A>(ps: seq<Parser<A>>, k: nat, input: string, index: nat, expected: Expected): Result<A>
    requires k <= |ps|
    decreases |ps| - k
  {
    if k == |ps| then Error(index, expected)
    else
      var r := ps[k].fun(input, index);
      if Commits(r, index) then r else OrLabelled(ps, k + 1, input, index, expected)
  }

  /** `or(ps, {expected})`: a truthy label selects the labelled loop, otherwise labels are collected. */
  function Or<A>(ps: seq<Parser<A>>, expected: Option<Expected>): Parser<A> {
    if Truthy(expected) then
      var onFailure := expected.value;
      Parser((input: string, i: nat) => OrLabelled(ps, 0, input, i, onFailure))
    else
      Parser((input: string, i: nat) => OrCollect(ps, 0, input, i, []))
  }

  /** The imperative closures of `or`: loops over the alternatives, proved equal to Or. */
  method OrLoop<A>(ps: seq<Parser<A>>, expected: Option<Expected>, input: string, index: nat) returns (r: Result<A>)
    ensures r == Or(ps, expected).fun(input, index)
  {
    if Truthy(expected) {
      for k := 0 to |ps|
        invariant OrLabelled(ps, k, input, index, expected.value) == OrLabelled(ps, 0, input, index, expected.value)
      {
        var s := ps[k].fun(input, index);
        if Commits(s, index) {
          return s;
        }
      }
      return Error(index, expected.value);
    }
    var labels: seq<Expected> := [];
    for k := 0 to |ps|
      invariant OrCollect(ps, k, input, index, labels) == OrCollect(ps, 0, input, index, [])
    {
      var s := ps[k].fun(input, index);
      if Commits(s, index) {
        return s;
      }
      labels := labels + [s.expected];
    }
    return Error(index, Many(labels));
  }
}
