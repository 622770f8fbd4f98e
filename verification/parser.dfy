/**
 * The parser abstraction of src/index.ts: an immutable value wrapping a
 * function from (input, start index) to a Result, with the combinators the
 * source attaches to it as methods.
 */
module Parsers {
  import opened Results

  /** The index a result reaches is never before the start, and never past the end when the start was not. */
  predicate Within<A>(r: Result<A>, input: string, i: nat) {
    i <= r.index && (i <= |input| ==> r.index <= |input|)
  }

  /** Two parsers that give the same result on every input and index. */
  ghost predicate Same<A>(p: Parser<A>, q: Parser<A>) {
    forall input: string, i: nat :: p.fun(input, i) == q.fun(input, i)
  }

  /** A binary operator as the precedence folds receive it from the operator parser. */
  type Op<!A> = (A, A) -> A

  datatype Parser<A> = Parser(fun: (string, nat) -> Result<A>)
  {
    /** `parse(input, index = 0)`. */
    function Parse(input: string, index: nat := 0): Result<A> {
      fun(input, index)
    }

    /** Every result stays between the start index and the end of the input. */
    ghost predicate Forward() {
      forall input: string, i: nat :: Within(fun(input, i), input, i)
    }

    /** Every success consumes at least one character and does not pass the end of the input. */
    ghost predicate Consuming() {
      forall input: string, i: nat :: fun(input, i).Ok? ==> i < fun(input, i).index <= |input|
    }

    /** `map`: the index and the outcome are kept, only a success's value is transformed. */
    function Map<B>(f: A -> B): (q: Parser<B>)
      ensures forall input: string, i: nat ::
        q.fun(input, i).index == fun(input, i).index && q.fun(input, i).Ok? == fun(input, i).Ok?
      ensures forall input: string, i: nat ::
        fun(input, i).Ok? ==> q.fun(input, i).value == f(fun(input, i).value)
      ensures forall input: string, i: nat ::
        fun(input, i).Error? ==> q.fun(input, i).expected == fun(input, i).expected
    {
      Parser((input: string, i: nat) =>
        var r := fun(input, i);
        if r.Error? then r.Propagate() else Ok(r.index, f(r.value)))
    }

    /** `filter`: a success whose value fails the predicate becomes a failure at the success's index. */
    function Filter(pred: A -> bool, expected: Expected): (q: Parser<A>)
      ensures forall input: string, i: nat ::
        fun(input, i).Ok? && !pred(fun(input, i).value) ==> q.fun(input, i) == Error(fun(input, i).index, expected)
      ensures forall input: string, i: nat ::
        fun(input, i).Error? || pred(fun(input, i).value) ==> q.fun(input, i) == fun(input, i)
    {
      Parser((input: string, i: nat) =>
        var r := fun(input, i);
        if r.Error? || pred(r.value) then r else Error(r.index, expected))
    }

    /** `optional`: a failure that did not get past the start becomes a success with the default, at the start. */
    function Optional(default: A): (q: Parser<A>)
      ensures forall input: string, i: nat ::
        Commits(fun(input, i), i) ==> q.fun(input, i) == fun(input, i)
      ensures forall input: string, i: nat ::
        !Commits(fun(input, i), i) ==> q.fun(input, i) == Ok(i, default)
    {
      Parser((input: string, i: nat) =>
        var r := fun(input, i);
        if Commits(r, i) then r else Ok(i, default))
    }

    /** `bind`: the parser chosen from the value runs from the index the first one reached. */
    function Bind<B>(f: A -> Parser<B>): (q: Parser<B>)
      ensures forall input: string, i: nat ::
        fun(input, i).Error? ==> q.fun(input, i) == fun(input, i).Propagate()
      ensures forall input: string, i: nat ::
        fun(input, i).Ok? ==> q.fun(input, i) == f(fun(input, i).value).fun(input, fun(input, i).index)
    {
      Parser((input: string, i: nat) =>
        var r := fun(input, i);
        if r.Error? then r.Propagate() else f(r.value).fun(input, r.index))
    }

    /** `then`: both values, the second parser starting where the first stopped. */
    function Then<B>(b: Parser<B>): (q: Parser<(A, B)>)
      ensures forall input: string, i: nat ::
        fun(input, i).Error? ==> q.fun(input, i) == fun(input, i).Propagate()
      ensures forall input: string, i: nat ::
        fun(input, i).Ok? && b.fun(input, fun(input, i).index).Error? ==>
          q.fun(input, i) == b.fun(input, fun(input, i).index).Propagate()
      ensures forall input: string, i: nat ::
        fun(input, i).Ok? && b.fun(input, fun(input, i).index).Ok? ==>
          q.fun(input, i) == Ok(b.fun(input, fun(input, i).index).index,
                                (fun(input, i).value, b.fun(input, fun(input, i).index).value))
    {
      Parser((input: string, i: nat) =>
        var r := fun(input, i);
        if r.Error? then r.Propagate()
        else
          var rb := b.fun(input, r.index);
          if rb.Error? then rb.Propagate() else Ok(rb.index, (r.value, rb.value)))
    }

    /** `thenSkip`: like `then`, keeping the first value. */
    function ThenSkip<B>(b: Parser<B>): (q: Parser<A>)
      ensures forall input: string, i: nat ::
        fun(input, i).Error? ==> q.fun(input, i) == fun(input, i)
      ensures forall input: string, i: nat ::
        fun(input, i).Ok? && b.fun(input, fun(input, i).index).Error? ==>
          q.fun(input, i) == b.fun(input, fun(input, i).index).Propagate()
      ensures forall input: string, i: nat ::
        fun(input, i).Ok? && b.fun(input, fun(input, i).index).Ok? ==>
          q.fun(input, i) == Ok(b.fun(input, fun(input, i).index).index, fun(input, i).value)
    {
      Parser((input: string, i: nat) =>
        var r := fun(input, i);
        if r.Error? then r
        else
          var rb := b.fun(input, r.index);
          if rb.Error? then rb.Propagate() else Ok(rb.index, r.value))
    }

    /** `skipThen`: like `then`, keeping the second value; it is the second parser's result. */
    function SkipThen<B>(b: Parser<B>): (q: Parser<B>)
      ensures forall input: string, i: nat ::
        fun(input, i).Error? ==> q.fun(input, i) == fun(input, i).Propagate()
      ensures forall input: string, i: nat ::
        fun(input, i).Ok? ==> q.fun(input, i) == b.fun(input, fun(input, i).index)
    {
      Parser((input: string, i: nat) =>
        var r := fun(input, i);
        if r.Error? then r.Propagate() else b.fun(input, r.index))
    }

    /** `between(b, c)`: `b`, then this parser, then `c`, keeping this parser's value. */
    function Between<B, C>(b: Parser<B>, c: Parser<C>): (q: Parser<A>)
      ensures forall input: string, i: nat ::
        b.fun(input, i).Error? ==> q.fun(input, i) == b.fun(input, i).Propagate()
      ensures forall input: string, i: nat ::
        b.fun(input, i).Ok? && fun(input, b.fun(input, i).index).Error? ==>
          q.fun(input, i) == fun(input, b.fun(input, i).index)
      ensures forall input: string, i: nat ::
        b.fun(input, i).Ok? && fun(input, b.fun(input, i).index).Ok? ==>
          var r := fun(input, b.fun(input, i).index);
          var rc := c.fun(input, r.index);
          q.fun(input, i) == if rc.Error? then rc.Propagate() else Ok(rc.index, r.value)
    {
      Parser((input: string, i: nat) =>
        var rb := b.fun(input, i);
        if rb.Error? then rb.Propagate()
        else
          var r := fun(input, rb.index);
          if r.Error? then r
          else
            var rc := c.fun(input, r.index);
            if rc.Error? then rc.Propagate() else Ok(rc.index, r.value))
    }

    /**
     * Binary `or`, commit-on-consumption: the second alternative runs only when
     * the first failed without getting past the start; when both do, the two
     * labels are paired, in order, at the start index.
     */
    function Or(b: Parser<A>): (q: Parser<A>)
      ensures forall input: string, i: nat ::
        Commits(fun(input, i), i) ==> q.fun(input, i) == fun(input, i)
      ensures forall input: string, i: nat ::
        !Commits(fun(input, i), i) && Commits(b.fun(input, i), i) ==> q.fun(input, i) == b.fun(input, i)
      ensures forall input: string, i: nat ::
        !Commits(fun(input, i), i) && !Commits(b.fun(input, i), i) ==>
          q.fun(input, i) == Error(i, Many([fun(input, i).expected, b.fun(input, i).expected]))
    {
      Parser((input: string, i: nat) =>
        var r := fun(input, i);
        if Commits(r, i) then r
        else
          var rb := b.fun(input, i);
          if Commits(rb, i) then rb else Error(i, Many([r.expected, rb.expected])))
    }

    /** `repeat`: the loop is RepeatFrom (and RepeatLoop); see module Repetition for its properties. */
    function Repeat(): Parser<seq<A>>
      requires Consuming()
    {
      Parser((input: string, i: nat) => RepeatFrom(this, input, i, []))
    }

    /** `join(d)`: elements separated by `d`; see module Repetition for its properties. */
    function Join<B>(d: Parser<B>): Parser<seq<A>>
      requires d.SkipThen(this).Consuming()
    {
      Parser((input: string, i: nat) => JoinFrom(this, d, input, i))
    }

    /** `chainLeft(op)`: `operand (op operand)*`, folded from the left. */
    function ChainLeft(op: Parser<Op<A>>): Parser<A>
      requires op.Then(this).Consuming()
    {
      Then(op.Then(this).Repeat()).Map((ht: (A, seq<(Op<A>, A)>)) => FoldLeft(ht.0, ht.1))
    }

    /** `chainRight(op)`: `operand (op operand)*`, folded from the right by `reduceRight`. */
    function ChainRight(op: Parser<Op<A>>): Parser<A>
      requires op.Then(this).Consuming()
    {
      Then(op.Then(this).Repeat()).Map((ht: (A, seq<(Op<A>, A)>)) => ReduceRight([ht.0] + Operands(ht.1), ht.1))
    }
  }

  /** The measure the repetition loops decrease. */
  function Remaining(input: string, i: nat): nat {
    if i <= |input| then |input| - i else 0
  }

  /**
   * The `for (;;)` loop of `repeat`: run `p` at `index`; a failure at exactly
   * `index` ends the loop with the values collected so far, any other failure
   * is returned, a success is appended and the loop goes on from its index.
   */
  function RepeatFrom<A>(p: Parser<A>, input: string, index: nat, acc: seq<A>): Result<seq<A>>
    requires p.Consuming()
    decreases Remaining(input, index)
  {
    var r := p.fun(input, index);
    if r.Error? then
      if r.index == index then Ok(index, acc) else r.Propagate()
    else
      RepeatFrom(p, input, r.index, acc + [r.value])
  }

  /**
   * The loop of `join` after the first element: run the delimiter; a failure
   * at exactly `index` ends with the elements so far, any other failure is
   * returned; after a delimiter the element is mandatory.
   */
  function JoinRest<A, B>(p: Parser<A>, d: Parser<B>, input: string, index: nat, acc: seq<A>): Result<seq<A>>
    requires d.SkipThen(p).Consuming()
    decreases Remaining(input, index)
  {
    var rb := d.fun(input, index);
    if rb.Error? then
      if rb.index == index then Ok(index, acc) else rb.Propagate()
    else
      var r := p.fun(input, rb.index);
      assert r == d.SkipThen(p).fun(input, index);
      if r.Error? then r.Propagate()
      else JoinRest(p, d, input, r.index, acc + [r.value])
  }

  /** `join`: the first element, then JoinRest; a first failure at exactly `index` is the empty list. */
  function JoinFrom<A, B>(p: Parser<A>, d: Parser<B>, input: string, index: nat): Result<seq<A>>
    requires d.SkipThen(p).Consuming()
  {
    var r := p.fun(input, index);
    if r.Error? then
      if r.index == index then Ok(index, []) else r.Propagate()
    else
      JoinRest(p, d, input, r.index, [r.value])
  }

  /** `tail.reduce((acc, [op, x]) => op(acc, x), head)`. */
  function FoldLeft<A>(acc: A, tail: seq<(Op<A>, A)>): A
    decreases |tail|
  {
    if tail == [] then acc else FoldLeft(tail[0].0(acc, tail[0].1), tail[1..])
  }

  /** `tail.map(t => t[1])`: the operands after the head. */
  function Operands<A>(tail: seq<(Op<A>, A)>): (xs: seq<A>)
    ensures |xs| == |tail| && forall k :: 0 <= k < |tail| ==> xs[k] == tail[k].1
  {
    seq(|tail|, (k: int) requires 0 <= k < |tail| => tail[k].1)
  }

  /**
   * `xs.reduceRight((acc, a, i) => tail[i][0](a, acc))` with no initial value:
   * the accumulator starts as the last operand and the callback visits the
   * indices from the second-to-last down to 0.
   */
  function ReduceRight<A>(xs: seq<A>, tail: seq<(Op<A>, A)>): A
    requires |xs| == |tail| + 1
  {
    ReduceRightFrom(xs, tail, |tail|, xs[|tail|])
  }

  function ReduceRightFrom<A>(xs: seq<A>, tail: seq<(Op<A>, A)>, k: nat, acc: A): A
    requires |xs| == |tail| + 1 && k <= |tail|
    decreases k
  {
    if k == 0 then acc else ReduceRightFrom(xs, tail, k - 1, tail[k - 1].0(xs[k - 1], acc))
  }

  /** Right-associative reference fold: each operand combined with the fold of everything to its right. */
  function FoldRight<A>(head: A, tail: seq<(Op<A>, A)>): A
    decreases |tail|
  {
    if tail == [] then head else tail[0].0(head, FoldRight(tail[0].1, tail[1..]))
  }

  /** The imperative `repeat` closure: a loop that pushes each value, proved equal to RepeatFrom. */
  method RepeatLoop<A>(p: Parser<A>, input: string, index: nat) returns (r: Result<seq<A>>)
    requires p.Consuming()
    ensures r == p.Repeat().fun(input, index)
  {
    var value: seq<A> := [];
    var i := index;
    while true
      invariant RepeatFrom(p, input, i, value) == RepeatFrom(p, input, index, [])
      decreases Remaining(input, i)
    {
      var s := p.fun(input, i);
      if s.Error? {
        r := if s.index == i then Ok(i, value) else s.Propagate();
        return;
      }
      value := value + [s.value];
      i := s.index;
    }
  }

  /** The imperative `join` closure: first element, then delimiter/element steps, proved equal to JoinFrom. */
  method JoinLoop<A, B>(p: Parser<A>, d: Parser<B>, input: string, index: nat) returns (r: Result<seq<A>>)
    requires d.SkipThen(p).Consuming()
    ensures r == p.Join(d).fun(input, index)
  {
    var value: seq<A> := [];
    var first := p.fun(input, index);
    if first.Error? {
      r := if first.index == index then Ok(index, value) else first.Propagate();
      return;
    }
    value := [first.value];
    var i := first.index;
    while true
      invariant JoinRest(p, d, input, i, value) == JoinFrom(p, d, input, index)
      decreases Remaining(input, i)
    {
      var rb := d.fun(input, i);
      if rb.Error? {
        r := if rb.index == i then Ok(i, value) else rb.Propagate();
        return;
      }
      var s := p.fun(input, rb.index);
      assert s == d.SkipThen(p).fun(input, i);
      if s.Error? {
        r := s.Propagate();
        return;
      }
      value := value + [s.value];
      i := s.index;
    }
  }
}
