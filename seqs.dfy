/** Sequence helpers that mirror iterator chains of the solvers. */
module Seqs {
  import opened Wrappers

  /** `xs.iter().map(f)` where `f` panics on a bad element: the first failure aborts with its
      message, otherwise the results in order. */
  function TryMap<A, B>(xs: seq<A>, f: A -> Result<B>): Result<seq<B>> {
    if xs == [] then Ok([])
    else
      var y :- f(xs[0]);
      var ys :- TryMap(xs[1..], f);
      Ok([y] + ys)
  }

  /** Every element is accepted by `f`. */
  ghost predicate AllOk<A, B>(xs: seq<A>, f: A -> Result<B>) {
    forall k :: 0 <= k < |xs| ==> f(xs[k]).Ok?
  }

  /** `TryMap` succeeds exactly when `f` accepts every element, and then maps them pointwise. */
  lemma {:induction false} TryMapOk<A, B>(xs: seq<A>, f: A -> Result<B>)
    ensures TryMap(xs, f).Ok? <==> AllOk(xs, f)
    ensures TryMap(xs, f).Ok? ==>
      |TryMap(xs, f).value| == |xs| && forall k :: 0 <= k < |xs| ==> f(xs[k]) == Ok(TryMap(xs, f).value[k])
  {
    if xs != [] {
      TryMapOk(xs[1..], f);
      assert forall k :: 1 <= k < |xs| ==> xs[k] == xs[1..][k - 1];
    }
  }

  /** On failure the message is that of the first element `f` rejects. */
  lemma {:induction false} TryMapFirstError<A, B>(xs: seq<A>, f: A -> Result<B>) returns (k: nat)
    requires TryMap(xs, f).Err?
    ensures k < |xs| && f(xs[k]) == Err(TryMap(xs, f).msg) && AllOk(xs[..k], f)
  {
    if f(xs[0]).Err? {
      k := 0;
    } else {
      var j := TryMapFirstError(xs[1..], f);
      k := j + 1;
      assert xs[..k] == [xs[0]] + xs[1..][..j];
    }
  }

  /** `TryMap` fails with the message of the first element `f` rejects. */
  lemma {:induction false} TryMapErrAt<A, B>(xs: seq<A>, f: A -> Result<B>, i: nat)
    requires i < |xs| && AllOk(xs[..i], f) && f(xs[i]).Err?
    ensures TryMap(xs, f) == Err(f(xs[i]).msg)
  {
    if i > 0 {
      assert xs[..i][0] == xs[0];
      var rest := xs[1..];
      assert rest[..i - 1] == xs[..i][1..];
      TryMapErrAt(rest, f, i - 1);
    }
  }

  /** Mapping one more accepted element appends its result. */
  lemma {:induction false} TryMapSnoc<A, B>(xs: seq<A>, x: A, f: A -> Result<B>)
    requires TryMap(xs, f).Ok? && f(x).Ok?
    ensures TryMap(xs + [x], f) == Ok(TryMap(xs, f).value + [f(x).value])
  {
    if xs == [] {
      var z := f(x).value;
      assert xs + [x] == [x];
      assert [x][0] == x && [x][1..] == [];
      assert TryMap([x], f) == Ok([z] + []);
      assert [z] + [] == [z] == TryMap(xs, f).value + [z];
    } else {
      var y, ys, z := f(xs[0]).value, TryMap(xs[1..], f).value, f(x).value;
      assert TryMap(xs, f) == Ok([y] + ys);
      assert (xs + [x])[0] == xs[0] && (xs + [x])[1..] == xs[1..] + [x];
      TryMapSnoc(xs[1..], x, f);
      assert TryMap(xs + [x], f) == Ok([y] + (ys + [z]));
      assert [y] + (ys + [z]) == ([y] + ys) + [z];
    }
  }

  /** The `for` loop over `xs` that maps element `i`: either the accepted prefix grows by one
      result, or the whole map fails with element `i`'s message. */
  lemma {:induction false} TryMapStep<A, B>(xs: seq<A>, i: nat, f: A -> Result<B>)
    requires i < |xs| && TryMap(xs[..i], f).Ok?
    ensures f(xs[i]).Ok? ==> TryMap(xs[..i + 1], f) == Ok(TryMap(xs[..i], f).value + [f(xs[i]).value])
    ensures f(xs[i]).Err? ==> TryMap(xs, f) == Err(f(xs[i]).msg)
  {
    assert xs[..i + 1] == xs[..i] + [xs[i]];
    if f(xs[i]).Ok? {
      TryMapSnoc(xs[..i], xs[i], f);
    } else {
      TryMapOk(xs[..i], f);
      TryMapErrAt(xs, f, i);
    }
  }

  /** A failing `TryMap` fails with the message of one of the elements. */
  lemma {:induction false} TryMapErrorOfSome<A, B>(xs: seq<A>, f: A -> Result<B>)
    requires TryMap(xs, f).Err?
    ensures exists k :: 0 <= k < |xs| && f(xs[k]) == Err(TryMap(xs, f).msg)
  {
    var k := TryMapFirstError(xs, f);
  }

  /** `collect` into a map: later pairs overwrite earlier ones with the same key. */
  function ToMap<K, V>(pairs: seq<(K, V)>): map<K, V> {
    if pairs == [] then map[]
    else
      var last := pairs[|pairs| - 1];
      ToMap(pairs[..|pairs| - 1])[last.0 := last.1]
  }

  /** `pairs[k]` is the last entry with its key. */
  ghost predicate LastWith<K, V>(pairs: seq<(K, V)>, k: nat)
    requires k < |pairs|
  {
    forall j :: k < j < |pairs| ==> pairs[j].0 != pairs[k].0
  }

  /** The keys of the map are exactly the keys of the pairs. */
  lemma {:induction false} ToMapKeys<K, V>(pairs: seq<(K, V)>, key: K)
    ensures key in ToMap(pairs) <==> exists k :: 0 <= k < |pairs| && pairs[k].0 == key
  {
    if pairs != [] {
      var init := pairs[..|pairs| - 1];
      ToMapKeys(init, key);
      if key in ToMap(init) {
        var k :| 0 <= k < |init| && init[k].0 == key;
        assert pairs[k] == init[k];
      }
      if exists k :: 0 <= k < |pairs| && pairs[k].0 == key {
        var k :| 0 <= k < |pairs| && pairs[k].0 == key;
        if k < |init| {
          assert init[k] == pairs[k];
        }
      }
    }
  }

  /** Each key maps to the value of the last pair with that key. */
  lemma {:induction false} ToMapLastWins<K, V>(pairs: seq<(K, V)>, k: nat)
    requires k < |pairs| && LastWith(pairs, k)
    ensures pairs[k].0 in ToMap(pairs) && ToMap(pairs)[pairs[k].0] == pairs[k].1
  {
    var init := pairs[..|pairs| - 1];
    if k < |init| {
      assert init[k] == pairs[k];
      assert LastWith(init, k) by {
        forall j | k < j < |init| ensures init[j].0 != init[k].0 {
          assert init[j] == pairs[j];
        }
      }
      ToMapLastWins(init, k);
    }
  }

  /** `filter`: the elements that satisfy `keep`, in order. */
  function Filter<T>(xs: seq<T>, keep: T -> bool): (r: seq<T>)
    ensures |r| <= |xs|
  {
    if xs == [] then []
    else (if keep(xs[0]) then [xs[0]] else []) + Filter(xs[1..], keep)
  }

  /** What filtering keeps: the elements that satisfy `keep`, each one of the input. */
  lemma {:induction false} FilterMembers<T>(xs: seq<T>, keep: T -> bool)
    ensures forall x :: x in Filter(xs, keep) <==> x in xs && keep(x)
  {
    if xs != [] {
      FilterMembers(xs[1..], keep);
      assert xs == [xs[0]] + xs[1..];
    }
  }

  /** Filtering keeps every element that satisfies `keep` as often as it occurs, and no other. */
  lemma {:induction false} FilterCounts<T>(xs: seq<T>, keep: T -> bool)
    ensures forall x :: multiset(Filter(xs, keep))[x] == if keep(x) then multiset(xs)[x] else 0
  {
    if xs != [] {
      FilterCounts(xs[1..], keep);
      assert xs == [xs[0]] + xs[1..];
    }
  }

  /** `idx` lists, in increasing order, the positions of `xs` that `r` takes, one element each. */
  ghost predicate Picks<T>(xs: seq<T>, idx: seq<int>, r: seq<T>) {
    && |idx| == |r|
    && (forall k :: 0 <= k < |idx| ==> 0 <= idx[k] < |xs| && r[k] == xs[idx[k]])
    && (forall k, l :: 0 <= k < l < |idx| ==> idx[k] < idx[l])
  }

  /** Positions into `xs` become positions into `[x] + xs`, one further on. */
  lemma {:induction false} PicksShift<T>(x: T, xs: seq<T>, tail: seq<int>, r: seq<T>) returns (shifted: seq<int>)
    requires Picks(xs, tail, r)
    ensures Picks([x] + xs, shifted, r)
    ensures forall k :: 0 <= k < |shifted| ==> shifted[k] >= 1
    ensures forall i :: 1 <= i <= |xs| ==> (i in shifted <==> i - 1 in tail)
  {
    shifted := seq(|tail|, k requires 0 <= k < |tail| => tail[k] + 1);
    forall i | 1 <= i <= |xs| ensures i in shifted <==> i - 1 in tail {
      if i in shifted {
        var k :| 0 <= k < |shifted| && shifted[k] == i;
        assert tail[k] == i - 1;
      }
      if i - 1 in tail {
        var k :| 0 <= k < |tail| && tail[k] == i - 1;
        assert shifted[k] == i;
      }
    }
  }

  /** Taking the head first, then positions past it, is still in increasing order. */
  lemma {:induction false} PicksCons<T>(x: T, xs: seq<T>, shifted: seq<int>, r: seq<T>)
    requires Picks([x] + xs, shifted, r)
    requires forall k :: 0 <= k < |shifted| ==> shifted[k] >= 1
    ensures Picks([x] + xs, [0] + shifted, [x] + r)
  {
  }

  /** The positions that filtering takes: exactly those whose element passes. */
  lemma {:induction false} FilterIndices<T>(xs: seq<T>, keep: T -> bool) returns (idx: seq<int>)
    ensures Picks(xs, idx, Filter(xs, keep))
    ensures forall i :: 0 <= i < |xs| ==> (keep(xs[i]) <==> i in idx)
  {
    if xs == [] {
      idx := [];
    } else {
      var x, rest := xs[0], xs[1..];
      assert xs == [x] + rest;
      var tail := FilterIndices(rest, keep);
      var shifted := PicksShift(x, rest, tail, Filter(rest, keep));
      assert 0 !in shifted;
      if keep(x) {
        assert Filter(xs, keep) == [x] + Filter(rest, keep);
        PicksCons(x, rest, shifted, Filter(rest, keep));
        idx := [0] + shifted;
        assert forall i :: i in idx <==> i == 0 || i in shifted;
      } else {
        assert Filter(xs, keep) == Filter(rest, keep);
        idx := shifted;
      }
      forall i | 1 <= i < |xs| ensures keep(xs[i]) <==> i in idx {
        assert xs[i] == rest[i - 1];
      }
    }
  }

  /** Filtering keeps its input's order: the result is the input at increasing positions,
      and those positions are exactly the ones whose element passes. */
  lemma {:induction false} FilterInOrder<T>(xs: seq<T>, keep: T -> bool)
    ensures exists idx :: Picks(xs, idx, Filter(xs, keep)) && forall i :: 0 <= i < |xs| ==> (keep(xs[i]) <==> i in idx)
  {
    var idx := FilterIndices(xs, keep);
  }

  /** A filter that keeps every element changes nothing. */
  lemma {:induction false} FilterAll<T>(xs: seq<T>, keep: T -> bool)
    requires forall x :: x in xs ==> keep(x)
    ensures Filter(xs, keep) == xs
  {
    if xs != [] {
      assert xs[0] in xs;
      assert forall x :: x in xs[1..] ==> x in xs;
      FilterAll(xs[1..], keep);
      assert xs == [xs[0]] + xs[1..];
    }
  }

  /** A set that is not empty has an element to pick. */
  lemma {:induction false} Pick<T>(s: set<T>) returns (x: T)
    requires s != {}
    ensures x in s
  {
    if forall y :: y !in s {
      assert false;
    }
    x :| x in s;
  }

  /** `.sum()` */
  function Sum(xs: seq<int>): int {
    if xs == [] then 0 else xs[0] + Sum(xs[1..])
  }

  /** A sum of values that are each between 0 and `bound` is between 0 and `bound` times their number. */
  lemma {:induction false} SumBounds(xs: seq<int>, bound: int)
    requires forall k :: 0 <= k < |xs| ==> 0 <= xs[k] <= bound
    ensures 0 <= Sum(xs) <= bound * |xs|
  {
    if xs != [] {
      SumBounds(xs[1..], bound);
    }
  }

  /** Summing a concatenation sums the parts. */
  lemma {:induction false} SumAppend(xs: seq<int>, ys: seq<int>)
    ensures Sum(xs + ys) == Sum(xs) + Sum(ys)
  {
    if xs == [] {
      assert xs + ys == ys;
    } else {
      SumAppend(xs[1..], ys);
      assert (xs + ys)[1..] == xs[1..] + ys;
    }
  }
}
