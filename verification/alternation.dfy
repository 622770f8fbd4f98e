/**
 * The n-ary `or`: commit-on-consumption means the result is that of the first
 * alternative that succeeds or fails past the start, and only when none does
 * is a failure at the start built from the collected (or the given) label.
 */
module Alternation {
  import opened Results
  import opened Parsers
  import opened Primitives

  /** The labels of the alternatives at one index, in order. */
  function Labels<A>(ps: seq<Parser<A>>, input: string, index: nat): (ls: seq<Expected>)
    ensures |ls| == |ps|
    ensures forall k :: 0 <= k < |ps| ==> ls[k] == ExpectedOf(ps[k].fun(input, index))
  {
    seq(|ps|, (k: int) requires 0 <= k < |ps| => ExpectedOf(ps[k].fun(input, index)))
  }

  /** Alternative `k` commits at the index and none before it, from `k0` on, does. */
  ghost predicate FirstCommit<A>(ps: seq<Parser<A>>, k0: nat, input: string, index: nat, k: nat) {
    k0 <= k < |ps| && Commits(ps[k].fun(input, index), index) &&
    forall m :: k0 <= m < k ==> !Commits(ps[m].fun(input, index), index)
  }

  /** No alternative from `k0` on commits at the index. */
  ghost predicate NoneCommits<A>(ps: seq<Parser<A>>, k0: nat, input: string, index: nat) {
    forall m :: k0 <= m < |ps| ==> !Commits(ps[m].fun(input, index), index)
  }

  lemma {:induction false} OrCollectCommits<A>(ps: seq<Parser<A>>, k0: nat, input: string, index: nat, acc: seq<Expected>, k: nat)
    requires FirstCommit(ps, k0, input, index, k)
    ensures OrCollect(ps, k0, input, index, acc) == ps[k].fun(input, index)
    decreases k - k0
  {
    if k0 < k {
      OrCollectCommits(ps, k0 + 1, input, index, acc + [ps[k0].fun(input, index).expected], k);
    }
  }

  lemma {:induction false} OrLabelledCommits<A>(ps: seq<Parser<A>>, k0: nat, input: string, index: nat, expected: Expected, k: nat)
    requires FirstCommit(ps, k0, input, index, k)
    ensures OrLabelled(ps, k0, input, index, expected) == ps[k].fun(input, index)
    decreases k - k0
  {
    if k0 < k {
      OrLabelledCommits(ps, k0 + 1, input, index, expected, k);
    }
  }

  lemma {:induction false} OrCollectNone<A>(ps: seq<Parser<A>>, k0: nat, input: string, index: nat, acc: seq<Expected>)
    requires k0 <= |ps| && NoneCommits(ps, k0, input, index)
    ensures OrCollect(ps, k0, input, index, acc) == Error(index, Many(acc + Labels(ps, input, index)[k0..]))
    decreases |ps| - k0
  {
    if k0 < |ps| {
      var r := ps[k0].fun(input, index);
      OrCollectNone(ps, k0 + 1, input, index, acc + [r.expected]);
      var ls := Labels(ps, input, index);
      assert ls[k0..] == [r.expected] + ls[k0 + 1..];
      assert acc + [r.expected] + ls[k0 + 1..] == acc + ls[k0..];
    } else {
      assert acc + Labels(ps, input, index)[k0..] == acc;
    }
  }

  lemma {:induction false} OrLabelledNone<A>(ps: seq<Parser<A>>, k0: nat, input: string, index: nat, expected: Expected)
    requires k0 <= |ps| && NoneCommits(ps, k0, input, index)
    ensures OrLabelled(ps, k0, input, index, expected) == Error(index, expected)
    decreases |ps| - k0
  {
    if k0 < |ps| {
      OrLabelledNone(ps, k0 + 1, input, index, expected);
    }
  }

  /** The first alternative that succeeds, or fails past the start, decides the result; later ones never run. */
  lemma OrFirstCommit<A>(ps: seq<Parser<A>>, expected: Option<Expected>, input: string, index: nat, k: nat)
    requires FirstCommit(ps, 0, input, index, k)
    ensures Or(ps, expected).fun(input, index) == ps[k].fun(input, index)
  {
    if Truthy(expected) {
      OrLabelledCommits(ps, 0, input, index, expected.value, k);
    } else {
      OrCollectCommits(ps, 0, input, index, [], k);
    }
  }

  /**
   * When every alternative fails at the start, the result is a failure at the
   * start labelled by the truthy given label, or else by the list of the
   * alternatives' labels in order.
   */
  lemma OrNoneCommits<A>(ps: seq<Parser<A>>, expected: Option<Expected>, input: string, index: nat)
    requires NoneCommits(ps, 0, input, index)
    ensures Or(ps, expected).fun(input, index) ==
      Error(index, if Truthy(expected) then expected.value else Many(Labels(ps, input, index)))
  {
    if Truthy(expected) {
      OrLabelledNone(ps, 0, input, index, expected.value);
    } else {
      OrCollectNone(ps, 0, input, index, []);
      assert [] + Labels(ps, input, index)[0..] == Labels(ps, input, index);
    }
  }

  /** The alternation commits exactly when one of its alternatives does. */
  lemma OrCommitsIff<A>(ps: seq<Parser<A>>, expected: Option<Expected>, input: string, index: nat)
    ensures Commits(Or(ps, expected).fun(input, index), index) <==>
      exists k :: 0 <= k < |ps| && Commits(ps[k].fun(input, index), index)
  {
    if k :| 0 <= k < |ps| && Commits(ps[k].fun(input, index), index) {
      var f := First(ps, input, index, k);
      OrFirstCommit(ps, expected, input, index, f);
    } else {
      OrNoneCommits(ps, expected, input, index);
    }
  }

  /** The first committing alternative at or before `k`, which commits. */
  lemma {:induction false} First<A>(ps: seq<Parser<A>>, input: string, index: nat, k: nat) returns (f: nat)
    requires k < |ps| && Commits(ps[k].fun(input, index), index)
    ensures f <= k && FirstCommit(ps, 0, input, index, f)
    decreases k
  {
    if m :| 0 <= m < k && Commits(ps[m].fun(input, index), index) {
      f := First(ps, input, index, m);
    } else {
      f := k;
    }
  }

  /** Alternatives after a committing one can be added or removed without changing the result. */
  lemma OrIgnoresLater<A>(ps: seq<Parser<A>>, qs: seq<Parser<A>>, expected: Option<Expected>, input: string, index: nat, k: nat)
    requires FirstCommit(ps, 0, input, index, k)
    ensures Or(ps + qs, expected).fun(input, index) == Or(ps, expected).fun(input, index)
  {
    OrFirstCommit(ps, expected, input, index, k);
    assert FirstCommit(ps + qs, 0, input, index, k);
    OrFirstCommit(ps + qs, expected, input, index, k);
  }

  /** With no alternatives, `or` fails at the index with the given label or an empty list. */
  lemma OrEmpty<A>(expected: Option<Expected>, input: string, index: nat)
    ensures Or<A>([], expected).fun(input, index) == Error(index, if Truthy(expected) then expected.value else Many([]))
  {
  }

  /** The binary method `a.or(b)` is the unlabelled `or([a, b])`. */
  lemma BinaryOrIsOr<A>(a: Parser<A>, b: Parser<A>)
    ensures Same(a.Or(b), Or([a, b], None))
  {
    forall input: string, i: nat ensures a.Or(b).fun(input, i) == Or([a, b], None).fun(input, i) {
      var ra, rb := a.fun(input, i), b.fun(input, i);
      if Commits(ra, i) {
        OrFirstCommit([a, b], None, input, i, 0);
      } else if Commits(rb, i) {
        OrFirstCommit([a, b], None, input, i, 1);
      } else {
        OrNoneCommits([a, b], None, input, i);
        assert Labels([a, b], input, i) == [ra.expected, rb.expected];
      }
    }
  }

  /** Alternatives that never move backwards make an alternation that never does. */
  lemma OrForward<A>(ps: seq<Parser<A>>, expected: Option<Expected>)
    requires forall k :: 0 <= k < |ps| ==> ps[k].Forward()
    ensures Or(ps, expected).Forward()
  {
    forall input: string, i: nat ensures Within(Or(ps, expected).fun(input, i), input, i) {
      if k :| 0 <= k < |ps| && Commits(ps[k].fun(input, i), i) {
        var f := First(ps, input, i, k);
        OrFirstCommit(ps, expected, input, i, f);
        assert ps[f].Forward();
      } else {
        OrNoneCommits(ps, expected, input, i);
      }
    }
  }
}
