/** Optional values and results with an error, used wherever the Python code
    returns None, raises, or answers with an error payload. */
module Wrappers {

  datatype Option<+T> = None | Some(value: T) {
    function GetOr(default: T): T {
      match this
      case Some(v) => v
      case None => default
    }
  }

  /** A Python value tested for truth: present and not the empty string. */
  predicate Truthy(o: Option<string>) {
    o.Some? && o.value != ""
  }

  datatype Result<+T, +E> = Ok(value: T) | Err(error: E) {
    predicate IsFailure() {
      Err?
    }

    function PropagateFailure<U>(): Result<U, E>
      requires Err?
    {
      Err(error)
    }

    function Extract(): T
      requires Ok?
    {
      value
    }
  }

  /** Left-to-right fold whose steps may fail: the first failure is the result,
      as a Python loop that raises leaves at the first exception. */
  function FoldResult<S, X, E>(step: (S, X) -> Result<S, E>, seed: S, xs: seq<X>): Result<S, E> {
    if xs == [] then Ok(seed)
    else
      var s :- FoldResult(step, seed, xs[..|xs| - 1]);
      step(s, xs[|xs| - 1])
  }

  /** Once a prefix fails, the whole fold fails the same way. */
  lemma {:induction false} FoldResultSticky<S, X, E>(step: (S, X) -> Result<S, E>, seed: S, xs: seq<X>, i: nat)
    requires i <= |xs| && FoldResult(step, seed, xs[..i]).Err?
    ensures FoldResult(step, seed, xs) == FoldResult(step, seed, xs[..i])
    decreases |xs|
  {
    if i < |xs| {
      var front := xs[..|xs| - 1];
      assert front[..i] == xs[..i];
      FoldResultSticky(step, seed, front, i);
    } else {
      assert xs[..i] == xs;
    }
  }

  /** A step that fails whatever the state fails the whole fold. */
  lemma FoldFailsAt<S, X, E>(step: (S, X) -> Result<S, E>, seed: S, xs: seq<X>, i: nat)
    requires i < |xs| && forall s :: step(s, xs[i]).Err?
    ensures FoldResult(step, seed, xs).Err?
  {
    assert xs[..i + 1][..i] == xs[..i];
    assert FoldResult(step, seed, xs[..i + 1]).Err?;
    FoldResultSticky(step, seed, xs, i + 1);
  }

  /** A fold that succeeds is its last step applied to the fold of the rest. */
  lemma FoldResultSnoc<S, X, E>(step: (S, X) -> Result<S, E>, seed: S, xs: seq<X>)
    requires xs != [] && FoldResult(step, seed, xs).Ok?
    ensures FoldResult(step, seed, xs[..|xs| - 1]).Ok?
    ensures FoldResult(step, seed, xs) == step(FoldResult(step, seed, xs[..|xs| - 1]).value, xs[|xs| - 1])
  {
  }

  /** One more element on a fold that has succeeded so far is one more step. */
  lemma FoldResultStep<S, X, E>(step: (S, X) -> Result<S, E>, seed: S, xs: seq<X>, i: nat, s: S)
    requires i < |xs| && FoldResult(step, seed, xs[..i]) == Ok(s)
    ensures FoldResult(step, seed, xs[..i + 1]) == step(s, xs[i])
  {
    assert xs[..i + 1][..i] == xs[..i];
  }

  /** The same step, for a fold extended by one element. */
  lemma FoldResultAppend<S, X, E>(step: (S, X) -> Result<S, E>, seed: S, xs: seq<X>, x: X, s: S)
    requires FoldResult(step, seed, xs) == Ok(s)
    ensures FoldResult(step, seed, xs + [x]) == step(s, x)
  {
    assert (xs + [x])[..|xs|] == xs;
  }

  /** Applies `f` to every element in order; the first failure is the result. */
  function Traverse<X, R, E>(f: X -> Result<R, E>, xs: seq<X>): Result<seq<R>, E> {
    if xs == [] then Ok([])
    else
      var rs :- Traverse(f, xs[..|xs| - 1]);
      var r :- f(xs[|xs| - 1]);
      Ok(rs + [r])
  }

  /** Once a prefix fails, the whole traversal fails the same way. */
  lemma {:induction false} TraverseSticky<X, R, E>(f: X -> Result<R, E>, xs: seq<X>, i: nat)
    requires i <= |xs| && Traverse(f, xs[..i]).Err?
    ensures Traverse(f, xs) == Traverse(f, xs[..i])
    decreases |xs|
  {
    if i < |xs| {
      var front := xs[..|xs| - 1];
      assert front[..i] == xs[..i];
      TraverseSticky(f, front, i);
    } else {
      assert xs[..i] == xs;
    }
  }

  /** A successful traversal holds one result per element, in order. */
  lemma {:induction false} TraverseOk<X, R, E>(f: X -> Result<R, E>, xs: seq<X>)
    requires Traverse(f, xs).Ok?
    ensures |Traverse(f, xs).value| == |xs|
    ensures forall k :: 0 <= k < |xs| ==> f(xs[k]) == Ok(Traverse(f, xs).value[k])
  {
    if xs != [] {
      var front := xs[..|xs| - 1];
      TraverseOk(f, front);
      forall k | 0 <= k < |front|
        ensures f(xs[k]) == Ok(Traverse(f, xs).value[k])
      {
        assert front[k] == xs[k];
      }
    }
  }

  /** An element that fails makes the traversal fail. */
  lemma TraverseFails<X, R, E>(f: X -> Result<R, E>, xs: seq<X>, k: nat)
    requires k < |xs| && f(xs[k]).Err?
    ensures Traverse(f, xs).Err?
  {
    assert xs[..k + 1][..k] == xs[..k];
    assert Traverse(f, xs[..k + 1]).Err?;
    TraverseSticky(f, xs, k + 1);
  }

  /** Left-to-right fold whose steps cannot fail. */
  function Fold<S, X>(step: (S, X) -> S, seed: S, xs: seq<X>): S {
    if xs == [] then seed else step(Fold(step, seed, xs[..|xs| - 1]), xs[|xs| - 1])
  }

  /** One more element of a prefix is one more step. */
  lemma FoldStep<S, X>(step: (S, X) -> S, seed: S, xs: seq<X>, i: nat)
    requires i < |xs|
    ensures Fold(step, seed, xs[..i + 1]) == step(Fold(step, seed, xs[..i]), xs[i])
  {
    assert xs[..i + 1][..i] == xs[..i];
  }

  /** Folding a concatenation folds the second part from where the first ended. */
  lemma {:induction false} FoldAppend<S, X>(step: (S, X) -> S, seed: S, a: seq<X>, b: seq<X>)
    ensures Fold(step, seed, a + b) == Fold(step, Fold(step, seed, a), b)
    decreases |b|
  {
    if b == [] {
      assert a + b == a;
    } else {
      var init := b[..|b| - 1];
      assert (a + b)[..|a + b| - 1] == a + init;
      assert (a + b)[|a + b| - 1] == b[|b| - 1];
      FoldAppend(step, seed, a, init);
    }
  }

  /** The keys of a sequence of pairs, in order. */
  function Keys<K, V>(entries: seq<(K, V)>): seq<K> {
    seq(|entries|, i requires 0 <= i < |entries| => entries[i].0)
  }

  /** The keys of a pair list that starts with `e`. */
  lemma KeysCons<K, V>(e: (K, V), rest: seq<(K, V)>)
    ensures Keys([e] + rest) == [e.0] + Keys(rest)
  {
    var ks := Keys([e] + rest);
    assert ks[0] == e.0 && ks[1..] == Keys(rest);
  }

  /** First-appearance order without repeats: the key order of a Python dict
      filled from `xs`. */
  function Dedup<T(==)>(xs: seq<T>): seq<T> {
    if xs == [] then []
    else
      var d := Dedup(xs[..|xs| - 1]);
      if xs[|xs| - 1] in d then d else d + [xs[|xs| - 1]]
  }

  /** Dedup keeps every element once and nothing else. */
  lemma {:induction false} DedupFacts<T>(xs: seq<T>)
    ensures forall x :: x in Dedup(xs) <==> x in xs
    ensures forall i, j :: 0 <= i < j < |Dedup(xs)| ==> Dedup(xs)[i] != Dedup(xs)[j]
  {
    if xs != [] {
      DedupFacts(xs[..|xs| - 1]);
      assert xs == xs[..|xs| - 1] + [xs[|xs| - 1]];
    }
  }

  /** The elements `keep` accepts, in their order: a list comprehension with a filter. */
  function Filter<T>(keep: T -> bool, xs: seq<T>): (ys: seq<T>)
    ensures |ys| <= |xs|
  {
    if xs == [] then []
    else
      var last := xs[|xs| - 1];
      Filter(keep, xs[..|xs| - 1]) + (if keep(last) then [last] else [])
  }

  lemma {:induction false} FilterMembers<T>(keep: T -> bool, xs: seq<T>, x: T)
    ensures x in Filter(keep, xs) <==> x in xs && keep(x)
  {
    if xs != [] {
      FilterMembers(keep, xs[..|xs| - 1], x);
      assert xs == xs[..|xs| - 1] + [xs[|xs| - 1]];
    }
  }

  lemma {:induction false} FilterKept<T>(keep: T -> bool, xs: seq<T>)
    ensures forall i :: 0 <= i < |Filter(keep, xs)| ==> keep(Filter(keep, xs)[i]) && Filter(keep, xs)[i] in xs
  {
    if xs != [] {
      FilterKept(keep, xs[..|xs| - 1]);
    }
  }

  /** Filtering one more element extends the result by that element or by nothing. */
  lemma FilterSnoc<T>(keep: T -> bool, xs: seq<T>, x: T)
    ensures Filter(keep, xs + [x]) == Filter(keep, xs) + (if keep(x) then [x] else [])
  {
    assert (xs + [x])[..|xs|] == xs;
  }

  /** Filtering a concatenation filters each part. */
  lemma {:induction false} FilterAppend<T>(keep: T -> bool, a: seq<T>, b: seq<T>)
    ensures Filter(keep, a + b) == Filter(keep, a) + Filter(keep, b)
    decreases |b|
  {
    if b == [] {
      assert a + b == a;
    } else {
      var init := b[..|b| - 1];
      assert (a + b)[..|a + b| - 1] == a + init;
      FilterAppend(keep, a, init);
    }
  }

  /** Nothing is kept when no element is accepted. */
  lemma {:induction false} FilterNone<T>(keep: T -> bool, xs: seq<T>)
    requires forall i :: 0 <= i < |xs| ==> !keep(xs[i])
    ensures Filter(keep, xs) == []
  {
    if xs != [] {
      FilterNone(keep, xs[..|xs| - 1]);
    }
  }

  lemma {:induction false} FilterAll<T>(keep: T -> bool, xs: seq<T>)
    requires forall i :: 0 <= i < |xs| ==> keep(xs[i])
    ensures Filter(keep, xs) == xs
  {
    if xs != [] {
      FilterAll(keep, xs[..|xs| - 1]);
      assert xs == xs[..|xs| - 1] + [xs[|xs| - 1]];
    }
  }

  /** `[f(x, y) for x, y in zip(xs, ys)]` on sequences of equal length. */
  function MapPairs<A, B, C>(f: (A, B) -> C, xs: seq<A>, ys: seq<B>): (zs: seq<C>)
    requires |xs| == |ys|
    ensures |zs| == |xs|
  {
    if xs == [] then []
    else
      var n := |xs| - 1;
      MapPairs(f, xs[..n], ys[..n]) + [f(xs[n], ys[n])]
  }

  lemma {:induction false} MapPairsAt<A, B, C>(f: (A, B) -> C, xs: seq<A>, ys: seq<B>, k: int)
    requires |xs| == |ys| && 0 <= k < |xs|
    ensures MapPairs(f, xs, ys)[k] == f(xs[k], ys[k])
  {
    var n := |xs| - 1;
    if k < n {
      MapPairsAt(f, xs[..n], ys[..n], k);
    }
  }

  lemma MapPairsSnoc<A, B, C>(f: (A, B) -> C, xs: seq<A>, ys: seq<B>, x: A, y: B)
    requires |xs| == |ys|
    ensures MapPairs(f, xs + [x], ys + [y]) == MapPairs(f, xs, ys) + [f(x, y)]
  {
    assert (xs + [x])[..|xs|] == xs;
    assert (ys + [y])[..|ys|] == ys;
  }

  /** The lists `f` gives for each element, concatenated in order. */
  function Concat<T, U>(f: T -> seq<U>, xs: seq<T>): seq<U> {
    if xs == [] then [] else Concat(f, xs[..|xs| - 1]) + f(xs[|xs| - 1])
  }

  lemma {:induction false} ConcatAppend<T, U>(f: T -> seq<U>, a: seq<T>, b: seq<T>)
    ensures Concat(f, a + b) == Concat(f, a) + Concat(f, b)
    decreases |b|
  {
    if b == [] {
      assert a + b == a;
    } else {
      var init := b[..|b| - 1];
      assert (a + b)[..|a + b| - 1] == a + init;
      ConcatAppend(f, a, init);
    }
  }

  lemma PrefixPrefix<T>(xs: seq<T>, i: nat)
    requires i < |xs|
    ensures xs[..i + 1][..i] == xs[..i]
  {
  }

  lemma InitSnoc<T>(xs: seq<T>, x: T)
    ensures (xs + [x])[..|xs|] == xs
  {
  }

  lemma AroundIndex<T>(xs: seq<T>, i: nat)
    requires i < |xs|
    ensures xs[..i] + [xs[i]] + xs[i + 1..] == xs
  {
  }

  lemma TakeAll<T>(xs: seq<T>)
    ensures xs[..|xs|] == xs
  {
  }

  lemma NilAppend<T>(x: seq<T>)
    ensures [] + x == x
  {
  }

  lemma FirstSplit<T>(xs: seq<T>)
    requires xs != []
    ensures [xs[0]] + xs[1..] == xs
  {
  }

  lemma LastSplit<T>(xs: seq<T>)
    requires xs != []
    ensures xs[..|xs| - 1] + [xs[|xs| - 1]] == xs
  {
  }

  lemma AppendNil<T>(x: seq<T>)
    ensures x + [] == x
  {
  }

  /** Concatenation regroups freely; stated once for any element type. */
  lemma AppendAssoc<T>(x: seq<T>, y: seq<T>, z: seq<T>)
    ensures (x + y) + z == x + (y + z)
  {
  }
}
