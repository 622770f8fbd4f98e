/**
 * The sequencing combinators related to one another and to `bind`, and the
 * position invariants they preserve: results never move backwards, and a
 * consuming step keeps a sequence consuming.
 */
module Sequencing {
  import opened Results
  import opened Parsers
  import opened Primitives

  /** `thenSkip` is `then` keeping the first component. */
  lemma ThenSkipIsThenFirst<A, B>(a: Parser<A>, b: Parser<B>)
    ensures Same(a.ThenSkip(b), a.Then(b).Map((v: (A, B)) => v.0))
  {
  }

  /** `skipThen` is `then` keeping the second component. */
  lemma SkipThenIsThenSecond<A, B>(a: Parser<A>, b: Parser<B>)
    ensures Same(a.SkipThen(b), a.Then(b).Map((v: (A, B)) => v.1))
  {
  }

  /** `a.between(b, c)` is `b.skipThen(a).thenSkip(c)`. */
  lemma BetweenIsSkipThenThenSkip<A, B, C>(a: Parser<A>, b: Parser<B>, c: Parser<C>)
    ensures Same(a.Between(b, c), b.SkipThen(a).ThenSkip(c))
  {
  }

  /** `then` is dependent sequencing with a second step that does not look at the first value. */
  lemma ThenIsBind<A, B>(a: Parser<A>, b: Parser<B>)
    ensures Same(a.Then(b), a.Bind((x: A) => b.Map((y: B) => (x, y))))
  {
  }

  /** `map` is `bind` into `succeed`. */
  lemma MapIsBind<A, B>(a: Parser<A>, f: A -> B)
    ensures Same(a.Map(f), a.Bind((x: A) => Succeed(f(x))))
  {
  }

  /** `filter` is `bind` into `succeed` or `fail`, the failure landing where the value ended. */
  lemma FilterIsBind<A>(a: Parser<A>, pred: A -> bool, expected: Expected)
    ensures Same(a.Filter(pred, expected), a.Bind((x: A) => if pred(x) then Succeed(x) else Fail(expected)))
  {
  }

  /** `optional(d)` is alternation with `succeed(d)`. */
  lemma OptionalIsOrSucceed<A>(a: Parser<A>, default: A)
    ensures Same(a.Optional(default), a.Or(Succeed(default)))
  {
  }

  /** Every sequencing combinator keeps the index between the start and the end of the input. */
  lemma SequencingForward<A, B, C>(a: Parser<A>, b: Parser<B>, c: Parser<C>, f: A -> B, g: A -> Parser<B>,
                                   pred: A -> bool, expected: Expected, default: A, alt: Parser<A>)
    requires a.Forward() && b.Forward() && c.Forward() && alt.Forward()
    requires forall x: A :: g(x).Forward()
    ensures a.Map(f).Forward() && a.Filter(pred, expected).Forward() && a.Optional(default).Forward()
    ensures a.Bind(g).Forward()
    ensures a.Then(b).Forward() && a.ThenSkip(b).Forward() && a.SkipThen(b).Forward()
    ensures a.Between(b, c).Forward() && a.Or(alt).Forward()
  {
    forall input: string, i: nat
      ensures Within(a.Bind(g).fun(input, i), input, i)
      ensures Within(a.Then(b).fun(input, i), input, i)
      ensures Within(a.ThenSkip(b).fun(input, i), input, i)
      ensures Within(a.SkipThen(b).fun(input, i), input, i)
    {
      var r := a.fun(input, i);
      assert Within(r, input, i);
      if r.Ok? {
        assert Within(b.fun(input, r.index), input, r.index);
        assert Within(g(r.value).fun(input, r.index), input, r.index);
      }
    }
    forall input: string, i: nat ensures Within(a.Between(b, c).fun(input, i), input, i) {
      var rb := b.fun(input, i);
      assert Within(rb, input, i);
      if rb.Ok? {
        var r := a.fun(input, rb.index);
        assert Within(r, input, rb.index);
        if r.Ok? {
          assert Within(c.fun(input, r.index), input, r.index);
        }
      }
    }
  }

  /** A sequence whose first step consumes, and whose second does not move backwards, consumes. */
  lemma ThenConsumingFirst<A, B>(a: Parser<A>, b: Parser<B>)
    requires a.Consuming() && b.Forward()
    ensures a.Then(b).Consuming() && a.SkipThen(b).Consuming() && a.ThenSkip(b).Consuming()
  {
  }

  /** A sequence whose first step does not move backwards, and whose second consumes, consumes. */
  lemma ThenConsumingSecond<A, B>(a: Parser<A>, b: Parser<B>)
    requires a.Forward() && b.Consuming()
    ensures a.Then(b).Consuming() && a.SkipThen(b).Consuming() && a.ThenSkip(b).Consuming()
  {
  }

  /** The primitives that never move keep their results within the input. */
  lemma PrimitivesForward<A>(value: A, expected: Expected, supplier: () -> Parser<A>)
    requires supplier().Forward()
    ensures Succeed(value).Forward() && Fail<A>(expected).Forward() && End().Forward()
    ensures Lazy(supplier).Forward()
  {
  }

  /** A regular expression whose engine matches only at the index keeps its results within the input. */
  lemma RegexForward(m: Matcher, pattern: Pattern, expected: Option<Expected>)
    requires Anchored(m)
    ensures Regex(m, pattern, expected).Forward()
    ensures (forall input: string, i: nat :: m(input, i).Some? ==> m(input, i).value != "") ==>
      Regex(m, pattern, expected).Consuming()
  {
  }
}
