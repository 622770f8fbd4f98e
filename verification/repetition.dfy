/**
 * What `repeat` and `join` compute, stated without their loops: a run of
 * element successes (and, for `join`, delimiter/element pairs) ended by a
 * failure that did not move.
 */
module Repetition {
  import opened Results
  import opened Parsers

  /** `p` succeeds |vs| times in a row from `i`, producing `vs`, and the last success ends at `j`. */
  ghost predicate Chain<A>(p: Parser<A>, input: string, i: nat, vs: seq<A>, j: nat)
    decreases |vs|
  {
    if vs == [] then j == i
    else
      var r := p.fun(input, i);
      r.Ok? && r.value == vs[0] && Chain(p, input, r.index, vs[1..], j)
  }

  /** `p` fails at exactly `j`: the normal end of a repetition. */
  ghost predicate StopsAt<A>(p: Parser<A>, input: string, j: nat) {
    p.fun(input, j).Error? && p.fun(input, j).index == j
  }

  /** `p` fails at `j` after moving (either way): a failure a repetition must return. */
  ghost predicate BreaksAt<A>(p: Parser<A>, input: string, j: nat) {
    p.fun(input, j).Error? && p.fun(input, j).index != j
  }

  lemma {:induction false} RepeatFromOk<A>(p: Parser<A>, input: string, i: nat, acc: seq<A>, j: nat, vs: seq<A>)
    requires p.Consuming()
    requires RepeatFrom(p, input, i, acc) == Ok(j, vs)
    ensures |acc| <= |vs| && vs[..|acc|] == acc
    ensures Chain(p, input, i, vs[|acc|..], j) && StopsAt(p, input, j)
    decreases Remaining(input, i)
  {
    var r := p.fun(input, i);
    if r.Error? {
      assert vs == acc && vs[|acc|..] == [];
    } else {
      RepeatFromOk(p, input, r.index, acc + [r.value], j, vs);
      var ws := vs[|acc|..];
      assert vs[..|acc| + 1] == acc + [r.value];
      assert vs[..|acc|] == (acc + [r.value])[..|acc|] == acc;
      assert ws[0] == r.value;
      assert ws[1..] == vs[|acc| + 1..];
    }
  }

  lemma {:induction false} RepeatFromOfChain<A>(p: Parser<A>, input: string, i: nat, acc: seq<A>, ws: seq<A>, j: nat)
    requires p.Consuming()
    requires Chain(p, input, i, ws, j) && StopsAt(p, input, j)
    ensures RepeatFrom(p, input, i, acc) == Ok(j, acc + ws)
    decreases |ws|
  {
    if ws == [] {
      assert acc + ws == acc;
    } else {
      var r := p.fun(input, i);
      RepeatFromOfChain(p, input, r.index, acc + [ws[0]], ws[1..], j);
      assert acc + [ws[0]] + ws[1..] == acc + ws;
    }
  }

  /**
   * `repeat` succeeds with `vs` at `j` exactly when the element succeeds |vs|
   * times producing `vs` in order, ending at `j`, and then fails at `j` itself.
   */
  lemma RepeatOk<A>(p: Parser<A>, input: string, i: nat, j: nat, vs: seq<A>)
    requires p.Consuming()
    ensures p.Repeat().fun(input, i) == Ok(j, vs) <==> Chain(p, input, i, vs, j) && StopsAt(p, input, j)
  {
    if p.Repeat().fun(input, i) == Ok(j, vs) {
      RepeatFromOk(p, input, i, [], j, vs);
      assert vs[0..] == vs;
    }
    if Chain(p, input, i, vs, j) && StopsAt(p, input, j) {
      RepeatFromOfChain(p, input, i, [], vs, j);
      assert [] + vs == vs;
    }
  }

  /** A first try that fails without moving gives the empty list at the start. */
  lemma RepeatEmpty<A>(p: Parser<A>, input: string, i: nat)
    requires p.Consuming() && StopsAt(p, input, i)
    ensures p.Repeat().fun(input, i) == Ok(i, [])
  {
  }

  lemma {:induction false} RepeatFromError<A>(p: Parser<A>, input: string, i: nat, acc: seq<A>) returns (vs: seq<A>, j: nat)
    requires p.Consuming() && RepeatFrom(p, input, i, acc).Error?
    ensures Chain(p, input, i, vs, j) && BreaksAt(p, input, j)
    ensures RepeatFrom(p, input, i, acc) == p.fun(input, j).Propagate()
    decreases Remaining(input, i)
  {
    var r := p.fun(input, i);
    if r.Error? {
      vs, j := [], i;
    } else {
      var ws;
      ws, j := RepeatFromError(p, input, r.index, acc + [r.value]);
      vs := [r.value] + ws;
      assert vs[1..] == ws;
    }
  }

  lemma {:induction false} RepeatFromErrorOfChain<A>(p: Parser<A>, input: string, i: nat, acc: seq<A>, vs: seq<A>, j: nat)
    requires p.Consuming() && Chain(p, input, i, vs, j) && BreaksAt(p, input, j)
    ensures RepeatFrom(p, input, i, acc) == p.fun(input, j).Propagate()
    decreases |vs|
  {
    if vs != [] {
      var r := p.fun(input, i);
      RepeatFromErrorOfChain(p, input, r.index, acc + [vs[0]], vs[1..], j);
    }
  }

  /**
   * A failing `repeat` is never a partial success: it is the failure of the
   * element after some run of successes, at an index other than where that
   * attempt started.
   */
  lemma RepeatFailure<A>(p: Parser<A>, input: string, i: nat) returns (vs: seq<A>, j: nat)
    requires p.Consuming() && p.Repeat().fun(input, i).Error?
    ensures Chain(p, input, i, vs, j) && BreaksAt(p, input, j)
    ensures p.Repeat().fun(input, i) == p.fun(input, j).Propagate()
  {
    vs, j := RepeatFromError(p, input, i, []);
  }

  /** Conversely, such a moved failure after a run of successes is what `repeat` returns. */
  lemma RepeatFailureOfChain<A>(p: Parser<A>, input: string, i: nat, vs: seq<A>, j: nat)
    requires p.Consuming() && Chain(p, input, i, vs, j) && BreaksAt(p, input, j)
    ensures p.Repeat().fun(input, i) == p.fun(input, j).Propagate()
  {
    RepeatFromErrorOfChain(p, input, i, [], vs, j);
  }

  /** A run of consuming successes moves forward and stays within the input. */
  lemma {:induction false} ChainWithin<A>(p: Parser<A>, input: string, i: nat, vs: seq<A>, j: nat)
    requires p.Consuming() && Chain(p, input, i, vs, j)
    ensures i <= j
    ensures vs != [] ==> j <= |input|
    decreases |vs|
  {
    if vs != [] {
      ChainWithin(p, input, p.fun(input, i).index, vs[1..], j);
    }
  }

  /** `repeat` keeps a forward element forward. */
  lemma RepeatForward<A>(p: Parser<A>)
    requires p.Consuming() && p.Forward()
    ensures p.Repeat().Forward()
  {
    forall input: string, i: nat ensures Within(p.Repeat().fun(input, i), input, i) {
      var r := p.Repeat().fun(input, i);
      if r.Ok? {
        RepeatOk(p, input, i, r.index, r.value);
        ChainWithin(p, input, i, r.value, r.index);
      } else {
        var vs, j := RepeatFailure(p, input, i);
        ChainWithin(p, input, i, vs, j);
        assert Within(p.fun(input, j), input, j);
      }
    }
  }

  /**
   * After the first element: |vs| delimiter/element pairs from `i`, the
   * delimiters producing `ds` and the elements `vs`, ending at `j`.
   */
  ghost predicate JoinSteps<A, B>(p: Parser<A>, d: Parser<B>, input: string, i: nat, ds: seq<B>, vs: seq<A>, j: nat)
    decreases |vs|
  {
    |ds| == |vs| &&
    if vs == [] then j == i
    else
      var rb := d.fun(input, i);
      rb.Ok? && rb.value == ds[0] &&
      var r := p.fun(input, rb.index);
      r.Ok? && r.value == vs[0] && JoinSteps(p, d, input, r.index, ds[1..], vs[1..], j)
  }

  lemma {:induction false} JoinRestOk<A, B>(p: Parser<A>, d: Parser<B>, input: string, i: nat, acc: seq<A>, j: nat, vs: seq<A>)
    returns (ds: seq<B>)
    requires d.SkipThen(p).Consuming()
    requires JoinRest(p, d, input, i, acc) == Ok(j, vs)
    ensures |acc| <= |vs| && vs[..|acc|] == acc
    ensures JoinSteps(p, d, input, i, ds, vs[|acc|..], j) && StopsAt(d, input, j)
    decreases Remaining(input, i)
  {
    var rb := d.fun(input, i);
    if rb.Error? {
      assert vs == acc && vs[|acc|..] == [];
      ds := [];
    } else {
      var r := p.fun(input, rb.index);
      assert r == d.SkipThen(p).fun(input, i);
      var ds' := JoinRestOk(p, d, input, r.index, acc + [r.value], j, vs);
      ds := [rb.value] + ds';
      var ws := vs[|acc|..];
      assert vs[..|acc| + 1] == acc + [r.value];
      assert vs[..|acc|] == (acc + [r.value])[..|acc|] == acc;
      assert ws[0] == r.value;
      assert ws[1..] == vs[|acc| + 1..];
      assert ds[1..] == ds';
    }
  }

  lemma {:induction false} JoinRestOfSteps<A, B>(p: Parser<A>, d: Parser<B>, input: string, i: nat, acc: seq<A>, ds: seq<B>, ws: seq<A>, j: nat)
    requires d.SkipThen(p).Consuming()
    requires JoinSteps(p, d, input, i, ds, ws, j) && StopsAt(d, input, j)
    ensures JoinRest(p, d, input, i, acc) == Ok(j, acc + ws)
    decreases |ws|
  {
    if ws == [] {
      assert acc + ws == acc;
    } else {
      var rb := d.fun(input, i);
      var r := p.fun(input, rb.index);
      assert r == d.SkipThen(p).fun(input, i);
      JoinRestOfSteps(p, d, input, r.index, acc + [ws[0]], ds[1..], ws[1..], j);
      assert acc + [ws[0]] + ws[1..] == acc + ws;
    }
  }

  /**
   * A successful `join`: either the first element failed without moving and
   * the list is empty at the start, or the first element succeeded and was
   * followed by delimiter/element pairs up to a delimiter that failed without
   * moving; there is one delimiter fewer than elements.
   */
  lemma JoinOk<A, B>(p: Parser<A>, d: Parser<B>, input: string, i: nat, j: nat, vs: seq<A>) returns (ds: seq<B>)
    requires d.SkipThen(p).Consuming()
    requires p.Join(d).fun(input, i) == Ok(j, vs)
    ensures vs == [] <==> StopsAt(p, input, i)
    ensures vs == [] ==> j == i
    ensures vs != [] ==>
      && p.fun(input, i).Ok? && p.fun(input, i).value == vs[0]
      && JoinSteps(p, d, input, p.fun(input, i).index, ds, vs[1..], j)
      && StopsAt(d, input, j)
      && |vs| == |ds| + 1
  {
    var r := p.fun(input, i);
    if r.Error? {
      ds := [];
    } else {
      ds := JoinRestOk(p, d, input, r.index, [r.value], j, vs);
      assert vs[1..] == vs[|[r.value]|..];
    }
  }

  /** A first element that fails without moving makes `join` succeed with no elements. */
  lemma JoinEmpty<A, B>(p: Parser<A>, d: Parser<B>, input: string, i: nat)
    requires d.SkipThen(p).Consuming() && StopsAt(p, input, i)
    ensures p.Join(d).fun(input, i) == Ok(i, [])
  {
  }

  /** Conversely, a first element, pairs, and a delimiter failing without moving make `join` succeed with all elements. */
  lemma JoinOfSteps<A, B>(p: Parser<A>, d: Parser<B>, input: string, i: nat, ds: seq<B>, vs: seq<A>, j: nat)
    requires d.SkipThen(p).Consuming()
    requires p.fun(input, i).Ok?
    requires JoinSteps(p, d, input, p.fun(input, i).index, ds, vs, j) && StopsAt(d, input, j)
    ensures p.Join(d).fun(input, i) == Ok(j, [p.fun(input, i).value] + vs)
  {
    JoinRestOfSteps(p, d, input, p.fun(input, i).index, [p.fun(input, i).value], ds, vs, j);
  }

  lemma {:induction false} JoinRestError<A, B>(p: Parser<A>, d: Parser<B>, input: string, i: nat, acc: seq<A>)
    returns (ds: seq<B>, vs: seq<A>, j: nat)
    requires d.SkipThen(p).Consuming() && JoinRest(p, d, input, i, acc).Error?
    ensures JoinSteps(p, d, input, i, ds, vs, j)
    ensures || (BreaksAt(d, input, j) && JoinRest(p, d, input, i, acc) == d.fun(input, j).Propagate())
            || (d.fun(input, j).Ok? && p.fun(input, d.fun(input, j).index).Error?
                && JoinRest(p, d, input, i, acc) == p.fun(input, d.fun(input, j).index).Propagate())
    decreases Remaining(input, i)
  {
    var rb := d.fun(input, i);
    if rb.Error? {
      ds, vs, j := [], [], i;
    } else {
      var r := p.fun(input, rb.index);
      assert r == d.SkipThen(p).fun(input, i);
      if r.Error? {
        ds, vs, j := [], [], i;
      } else {
        var ds', vs';
        ds', vs', j := JoinRestError(p, d, input, r.index, acc + [r.value]);
        ds, vs := [rb.value] + ds', [r.value] + vs';
        assert ds[1..] == ds' && vs[1..] == vs';
      }
    }
  }

  /**
   * A failing `join` is never a partial success: it is the first element's
   * failure after moving, or, after the first element and some pairs, a
   * delimiter's failure after moving, or the failure (moved or not) of the
   * element that follows a successful delimiter.
   */
  lemma JoinFailure<A, B>(p: Parser<A>, d: Parser<B>, input: string, i: nat) returns (ds: seq<B>, vs: seq<A>, j: nat)
    requires d.SkipThen(p).Consuming() && p.Join(d).fun(input, i).Error?
    ensures p.fun(input, i).Error? ==> BreaksAt(p, input, i) && p.Join(d).fun(input, i) == p.fun(input, i).Propagate()
    ensures p.fun(input, i).Ok? ==> JoinSteps(p, d, input, p.fun(input, i).index, ds, vs, j)
    ensures p.fun(input, i).Ok? ==>
      || (BreaksAt(d, input, j) && p.Join(d).fun(input, i) == d.fun(input, j).Propagate())
      || (d.fun(input, j).Ok? && p.fun(input, d.fun(input, j).index).Error?
          && p.Join(d).fun(input, i) == p.fun(input, d.fun(input, j).index).Propagate())
  {
    var r := p.fun(input, i);
    if r.Error? {
      ds, vs, j := [], [], i;
    } else {
      ds, vs, j := JoinRestError(p, d, input, r.index, [r.value]);
    }
  }

  lemma {:induction false} JoinRestMissingElement<A, B>(p: Parser<A>, d: Parser<B>, input: string, i: nat, acc: seq<A>, ds: seq<B>, vs: seq<A>, j: nat)
    requires d.SkipThen(p).Consuming()
    requires JoinSteps(p, d, input, i, ds, vs, j)
    requires d.fun(input, j).Ok? && p.fun(input, d.fun(input, j).index).Error?
    ensures JoinRest(p, d, input, i, acc) == p.fun(input, d.fun(input, j).index).Propagate()
    decreases |vs|
  {
    if vs != [] {
      var rb := d.fun(input, i);
      var r := p.fun(input, rb.index);
      assert r == d.SkipThen(p).fun(input, i);
      JoinRestMissingElement(p, d, input, r.index, acc + [vs[0]], ds[1..], vs[1..], j);
    }
  }

  lemma {:induction false} JoinRestBrokenDelimiter<A, B>(p: Parser<A>, d: Parser<B>, input: string, i: nat, acc: seq<A>, ds: seq<B>, vs: seq<A>, j: nat)
    requires d.SkipThen(p).Consuming()
    requires JoinSteps(p, d, input, i, ds, vs, j) && BreaksAt(d, input, j)
    ensures JoinRest(p, d, input, i, acc) == d.fun(input, j).Propagate()
    decreases |vs|
  {
    if vs != [] {
      var rb := d.fun(input, i);
      var r := p.fun(input, rb.index);
      assert r == d.SkipThen(p).fun(input, i);
      JoinRestBrokenDelimiter(p, d, input, r.index, acc + [vs[0]], ds[1..], vs[1..], j);
    }
  }

  /**
   * A delimiter that fails after moving, following the first element and some
   * pairs, is `join`'s failure: the elements collected so far are dropped.
   */
  lemma JoinBrokenDelimiter<A, B>(p: Parser<A>, d: Parser<B>, input: string, i: nat, ds: seq<B>, vs: seq<A>, j: nat)
    requires d.SkipThen(p).Consuming()
    requires p.fun(input, i).Ok? && JoinSteps(p, d, input, p.fun(input, i).index, ds, vs, j)
    requires BreaksAt(d, input, j)
    ensures p.Join(d).fun(input, i) == d.fun(input, j).Propagate()
  {
    JoinRestBrokenDelimiter(p, d, input, p.fun(input, i).index, [p.fun(input, i).value], ds, vs, j);
  }

  /** After a successful delimiter the element is mandatory: its failure, even without moving, is returned. */
  lemma JoinMissingElement<A, B>(p: Parser<A>, d: Parser<B>, input: string, i: nat, ds: seq<B>, vs: seq<A>, j: nat)
    requires d.SkipThen(p).Consuming()
    requires p.fun(input, i).Ok? && JoinSteps(p, d, input, p.fun(input, i).index, ds, vs, j)
    requires d.fun(input, j).Ok? && p.fun(input, d.fun(input, j).index).Error?
    ensures p.Join(d).fun(input, i) == p.fun(input, d.fun(input, j).index).Propagate()
  {
    JoinRestMissingElement(p, d, input, p.fun(input, i).index, [p.fun(input, i).value], ds, vs, j);
  }
}
