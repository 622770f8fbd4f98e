/**
 * The precedence combinators `chainLeft` and `chainRight`: an operand followed
 * by a repetition of operator/operand pairs, folded from the left by `reduce`
 * or from the right by `reduceRight`.
 */
module Folds {
  import opened Results
  import opened Parsers
  import opened Repetition

  /** Folding from the left takes the last pair on top of the fold of the earlier ones. */
  lemma {:induction false} FoldLeftSnoc<A>(acc: A, tail: seq<(Op<A>, A)>, op: Op<A>, x: A)
    ensures FoldLeft(acc, tail + [(op, x)]) == op(FoldLeft(acc, tail), x)
    decreases |tail|
  {
    if tail == [] {
      assert [] + [(op, x)] == [(op, x)];
    } else {
      assert (tail + [(op, x)])[1..] == tail[1..] + [(op, x)];
      FoldLeftSnoc(tail[0].0(acc, tail[0].1), tail[1..], op, x);
    }
  }

  /** The list of operands after the head is the one `reduceRight` walks back over. */
  lemma {:induction false} ReduceRightFromFolds<A>(xs: seq<A>, tail: seq<(Op<A>, A)>, k: nat)
    requires |xs| == |tail| + 1 && k <= |tail|
    requires forall m :: 0 <= m < |tail| ==> xs[m + 1] == tail[m].1
    ensures ReduceRightFrom(xs, tail, k, FoldRight(xs[k], tail[k..])) == FoldRight(xs[0], tail)
    decreases k
  {
    if k == 0 {
      assert tail[0..] == tail;
    } else {
      var acc := FoldRight(xs[k], tail[k..]);
      assert tail[k - 1..][1..] == tail[k..];
      assert tail[k - 1].0(xs[k - 1], acc) == FoldRight(xs[k - 1], tail[k - 1..]);
      ReduceRightFromFolds(xs, tail, k - 1);
    }
  }

  /** The `reduceRight` of `chainRight`, with no initial value, is the right-associative fold. */
  lemma ReduceRightIsFoldRight<A>(head: A, tail: seq<(Op<A>, A)>)
    ensures ReduceRight([head] + Operands(tail), tail) == FoldRight(head, tail)
  {
    var xs := [head] + Operands(tail);
    assert tail[|tail|..] == [];
    ReduceRightFromFolds(xs, tail, |tail|);
  }

  /** Folding from the right takes the first operator on top of the fold of everything after it. */
  lemma FoldRightCons<A>(head: A, op: Op<A>, x: A, tail: seq<(Op<A>, A)>)
    ensures FoldRight(head, [(op, x)] + tail) == op(head, FoldRight(x, tail))
  {
  }

  /**
   * An operand ending at `k`, followed by a run of operator/operand pairs that
   * ends at `j` where the next pair fails without moving, is the whole chain,
   * folded from the left by `chainLeft` and from the right by `chainRight`.
   */
  lemma ChainOfOperands<A>(p: Parser<A>, op: Parser<Op<A>>, input: string, i: nat, k: nat, head: A, tail: seq<(Op<A>, A)>, j: nat)
    requires op.Then(p).Consuming()
    requires p.fun(input, i) == Ok(k, head)
    requires Chain(op.Then(p), input, k, tail, j) && StopsAt(op.Then(p), input, j)
    ensures p.ChainLeft(op).fun(input, i) == Ok(j, FoldLeft(head, tail))
    ensures p.ChainRight(op).fun(input, i) == Ok(j, FoldRight(head, tail))
  {
    RepeatOk(op.Then(p), input, k, j, tail);
    ReduceRightIsFoldRight(head, tail);
  }

  /** Conversely, every success of `chainLeft` is such a chain folded from the left. */
  lemma ChainLeftOk<A>(p: Parser<A>, op: Parser<Op<A>>, input: string, i: nat) returns (k: nat, head: A, tail: seq<(Op<A>, A)>)
    requires op.Then(p).Consuming()
    requires p.ChainLeft(op).fun(input, i).Ok?
    ensures p.fun(input, i) == Ok(k, head)
    ensures Chain(op.Then(p), input, k, tail, p.ChainLeft(op).fun(input, i).index)
    ensures StopsAt(op.Then(p), input, p.ChainLeft(op).fun(input, i).index)
    ensures p.ChainLeft(op).fun(input, i).value == FoldLeft(head, tail)
  {
    var r := p.fun(input, i);
    k, head := r.index, r.value;
    var rr := op.Then(p).Repeat().fun(input, k);
    tail := rr.value;
    RepeatOk(op.Then(p), input, k, rr.index, tail);
  }

  /** Conversely, every success of `chainRight` is such a chain folded from the right. */
  lemma ChainRightOk<A>(p: Parser<A>, op: Parser<Op<A>>, input: string, i: nat) returns (k: nat, head: A, tail: seq<(Op<A>, A)>)
    requires op.Then(p).Consuming()
    requires p.ChainRight(op).fun(input, i).Ok?
    ensures p.fun(input, i) == Ok(k, head)
    ensures Chain(op.Then(p), input, k, tail, p.ChainRight(op).fun(input, i).index)
    ensures StopsAt(op.Then(p), input, p.ChainRight(op).fun(input, i).index)
    ensures p.ChainRight(op).fun(input, i).value == FoldRight(head, tail)
  {
    var r := p.fun(input, i);
    k, head := r.index, r.value;
    var rr := op.Then(p).Repeat().fun(input, k);
    tail := rr.value;
    RepeatOk(op.Then(p), input, k, rr.index, tail);
    ReduceRightIsFoldRight(head, tail);
  }

  /**
   * Both chains fail exactly when the first operand fails, or when after some
   * pairs an operator/operand pair fails past where it started; that failure
   * is the result.
   */
  lemma ChainFailure<A>(p: Parser<A>, op: Parser<Op<A>>, input: string, i: nat) returns (tail: seq<(Op<A>, A)>, j: nat)
    requires op.Then(p).Consuming()
    requires p.ChainLeft(op).fun(input, i).Error? || p.ChainRight(op).fun(input, i).Error?
    ensures p.ChainLeft(op).fun(input, i) == p.ChainRight(op).fun(input, i).Propagate()
    ensures p.fun(input, i).Error? ==> p.ChainLeft(op).fun(input, i) == p.fun(input, i).Propagate()
    ensures p.fun(input, i).Ok? ==>
      Chain(op.Then(p), input, p.fun(input, i).index, tail, j) && BreaksAt(op.Then(p), input, j) &&
      p.ChainLeft(op).fun(input, i) == op.Then(p).fun(input, j).Propagate()
  {
    var r := p.fun(input, i);
    if r.Ok? {
      tail, j := RepeatFailure(op.Then(p), input, r.index);
    } else {
      tail, j := [], i;
    }
  }
}
