/** Backward extrapolation of a history by repeated differences (src/bin/d9p2.rs). */
module DifferenceExtrapolation {
  import opened Wrappers
  import Text
  import Seqs

  predicate AllZero(xs: seq<int>) {
    forall k :: 0 <= k < |xs| ==> xs[k] == 0
  }

  /** `windows(2).map(|w| w[1] - w[0])`: one element shorter (none for fewer than two). */
  function Diffs(xs: seq<int>): (r: seq<int>)
    ensures |r| == if xs == [] then 0 else |xs| - 1
  {
    if |xs| < 2 then [] else [xs[1] - xs[0]] + Diffs(xs[1..])
  }

  /** Entry `k` of the differences is the step from entry `k` to entry `k + 1`. */
  lemma {:induction false} DiffsSpec(xs: seq<int>)
    ensures forall k :: 0 <= k < |Diffs(xs)| ==> Diffs(xs)[k] == xs[k + 1] - xs[k]
  {
    if |xs| >= 2 {
      DiffsSpec(xs[1..]);
    }
  }

  /** `predict`: 0 for an all-zero history (the empty one included), otherwise the first value
      less the prediction for the differences. */
  function Predict(xs: seq<int>): int
    decreases |xs|
  {
    if AllZero(xs) then 0 else xs[0] - Predict(Diffs(xs))
  }

  /** The alternating sum of the first entries of every difference row, down to the empty row:
      the recursion without the all-zero shortcut. */
  function Alternating(xs: seq<int>): int
    decreases |xs|
  {
    if xs == [] then 0 else xs[0] - Alternating(Diffs(xs))
  }

  /** The differences of an all-zero row are all zero, and so is what it predicts. */
  lemma {:induction false} ZeroRow(xs: seq<int>)
    requires AllZero(xs)
    ensures Alternating(xs) == 0
    decreases |xs|
  {
    if xs != [] {
      var ds := Diffs(xs);
      DiffsSpec(xs);
      forall k | 0 <= k < |ds| ensures ds[k] == 0 {
        assert xs[k + 1] == 0 && xs[k] == 0;
      }
      ZeroRow(ds);
    }
  }

  /** The all-zero test only cuts the recursion short: the prediction is the alternating sum. */
  lemma {:induction false} PredictIsAlternating(xs: seq<int>)
    ensures Predict(xs) == Alternating(xs)
    decreases |xs|
  {
    if AllZero(xs) {
      ZeroRow(xs);
    } else {
      PredictIsAlternating(Diffs(xs));
    }
  }

  /** Pointwise sum of two rows of the same length. */
  function Add(xs: seq<int>, ys: seq<int>): (r: seq<int>)
    requires |xs| == |ys|
    ensures |r| == |xs| && forall k :: 0 <= k < |r| ==> r[k] == xs[k] + ys[k]
  {
    seq(|xs|, k requires 0 <= k < |xs| => xs[k] + ys[k])
  }

  /** The prediction is linear: the prediction for the sum of two histories is the sum of
      their predictions. */
  lemma {:induction false} PredictAdds(xs: seq<int>, ys: seq<int>)
    requires |xs| == |ys|
    ensures Predict(Add(xs, ys)) == Predict(xs) + Predict(ys)
  {
    PredictIsAlternating(xs);
    PredictIsAlternating(ys);
    PredictIsAlternating(Add(xs, ys));
    AlternatingAdds(xs, ys);
  }

  lemma {:induction false} AlternatingAdds(xs: seq<int>, ys: seq<int>)
    requires |xs| == |ys|
    ensures Alternating(Add(xs, ys)) == Alternating(xs) + Alternating(ys)
    decreases |xs|
  {
    if xs != [] {
      var zs := Add(xs, ys);
      DiffsSpec(xs);
      DiffsSpec(ys);
      DiffsSpec(zs);
      assert Diffs(zs) == Add(Diffs(xs), Diffs(ys)) by {
        forall k | 0 <= k < |Diffs(zs)| ensures Diffs(zs)[k] == Diffs(xs)[k] + Diffs(ys)[k] {
          assert zs[k + 1] == xs[k + 1] + ys[k + 1] && zs[k] == xs[k] + ys[k];
        }
      }
      AlternatingAdds(Diffs(xs), Diffs(ys));
    }
  }

  /** `a, a + d, a + 2d, ...` */
  function Arithmetic(a: int, d: int, n: nat): (r: seq<int>)
    ensures |r| == n && forall k :: 0 <= k < n ==> r[k] == a + d * k
  {
    seq(n, k requires 0 <= k < n => a + d * k)
  }

  /** The differences of an arithmetic progression are constant. */
  lemma {:induction false} DiffsArithmetic(a: int, d: int, n: nat)
    ensures Diffs(Arithmetic(a, d, n)) == Arithmetic(d, 0, if n == 0 then 0 else n - 1)
  {
    var xs := Arithmetic(a, d, n);
    var ds := Diffs(xs);
    DiffsSpec(xs);
    forall k | 0 <= k < |ds| ensures ds[k] == d {
      assert xs[k + 1] - xs[k] == d * (k + 1) - d * k == d;
    }
  }

  /** A history of two or more values in arithmetic progression extends backwards by one
      step: `a - d`. */
  lemma {:induction false} ArithmeticPredict(a: int, d: int, n: nat)
    requires n >= 2
    ensures Predict(Arithmetic(a, d, n)) == a - d
  {
    var xs := Arithmetic(a, d, n);
    DiffsArithmetic(a, d, n);
    var ds := Arithmetic(d, 0, n - 1);
    DiffsArithmetic(d, 0, n - 1);
    var zs := Arithmetic(0, 0, n - 2);
    assert AllZero(zs);
    if d == 0 {
      assert AllZero(ds);
    } else {
      assert ds[0] != 0;
      assert Predict(ds) == d;
    }
    if a == 0 && d == 0 {
      assert AllZero(xs);
    } else if a != 0 {
      assert xs[0] != 0;
    } else {
      assert xs[1] != 0;
    }
  }

  /** `l.split_whitespace().map(|n| n.parse().expect("not a number"))` */
  function ParseHistory(line: string): (r: Result<seq<int>>)
    ensures r.Err? ==> r.msg == "not a number"
    ensures r.Ok? ==> |r.value| == |Text.SplitWhitespace(line)|
  {
    var words := Text.SplitWhitespace(line);
    var f := (w: string) => Expect(Text.ParseInt(w), "not a number");
    var r := Seqs.TryMap(words, f);
    Seqs.TryMapOk(words, f);
    if r.Err? then
      Seqs.TryMapErrorOfSome(words, f);
      r
    else r
  }

  /** `solve`: the sum of the predictions for every line; a word that is not a number panics. */
  function Solve(puzzle: string): (r: Result<int>)
    ensures r.Ok? <==> Seqs.AllOk(Text.Lines(Text.Trim(puzzle)), ParseHistory)
    ensures r.Err? ==> r.msg == "not a number"
  {
    var lines := Text.Lines(Text.Trim(puzzle));
    Seqs.TryMapOk(lines, ParseHistory);
    var histories := Seqs.TryMap(lines, ParseHistory);
    if histories.Err? then
      Seqs.TryMapErrorOfSome(lines, ParseHistory);
      Err(histories.msg)
    else Ok(SumPredictions(histories.value))
  }

  /** The predictions of all histories, added up. */
  function SumPredictions(histories: seq<seq<int>>): int {
    if histories == [] then 0 else Predict(histories[0]) + SumPredictions(histories[1..])
  }
}

/** The worked example of the day 9 puzzle, part 2. */
module DifferenceExtrapolationExamples {
  import opened DifferenceExtrapolation

  /** Differences checked entry by entry. */
  lemma {:induction false} DiffsOf(xs: seq<int>, ys: seq<int>)
    requires |xs| == |ys| + 1
    requires forall k :: 0 <= k < |ys| ==> ys[k] == xs[k + 1] - xs[k]
    ensures Diffs(xs) == ys
  {
    DiffsSpec(xs);
    assert xs != [] && |Diffs(xs)| == |ys|;
    forall k | 0 <= k < |ys| ensures Diffs(xs)[k] == ys[k] {
      assert Diffs(xs)[k] == xs[k + 1] - xs[k];
    }
  }

  lemma {:induction false} FirstDiffs() ensures Diffs([0, 3, 6, 9, 12, 15]) == [3, 3, 3, 3, 3] && Diffs([3, 3, 3, 3, 3]) == [0, 0, 0, 0] {
    DiffsOf([0, 3, 6, 9, 12, 15], [3, 3, 3, 3, 3]);
    DiffsOf([3, 3, 3, 3, 3], [0, 0, 0, 0]);
  }
  lemma {:induction false} SecondDiffs() ensures Diffs([1, 3, 6, 10, 15, 21]) == [2, 3, 4, 5, 6] && Diffs([2, 3, 4, 5, 6]) == [1, 1, 1, 1] {
    DiffsOf([1, 3, 6, 10, 15, 21], [2, 3, 4, 5, 6]);
    DiffsOf([2, 3, 4, 5, 6], [1, 1, 1, 1]);
  }
  lemma {:induction false} SecondDiffs2() ensures Diffs([1, 1, 1, 1]) == [0, 0, 0] {
    DiffsOf([1, 1, 1, 1], [0, 0, 0]);
  }
  lemma {:induction false} ThirdDiffs() ensures Diffs([10, 13, 16, 21, 30, 45]) == [3, 3, 5, 9, 15] {
    DiffsOf([10, 13, 16, 21, 30, 45], [3, 3, 5, 9, 15]);
  }
  lemma {:induction false} ThirdDiffs1() ensures Diffs([3, 3, 5, 9, 15]) == [0, 2, 4, 6] {
    DiffsOf([3, 3, 5, 9, 15], [0, 2, 4, 6]);
  }
  lemma {:induction false} ThirdDiffs2() ensures Diffs([0, 2, 4, 6]) == [2, 2, 2] && Diffs([2, 2, 2]) == [0, 0] {
    DiffsOf([0, 2, 4, 6], [2, 2, 2]);
    DiffsOf([2, 2, 2], [0, 0]);
  }

  lemma {:induction false} FirstHistory() ensures Predict([0, 3, 6, 9, 12, 15]) == -3 {
    FirstDiffs();
    assert Predict([0, 0, 0, 0]) == 0;
    assert Predict([3, 3, 3, 3, 3]) == 3;
  }

  lemma {:induction false} SecondHistory() ensures Predict([1, 3, 6, 10, 15, 21]) == 0 {
    SecondDiffs();
    SecondDiffs2();
    assert Predict([0, 0, 0]) == 0;
    assert Predict([1, 1, 1, 1]) == 1;
    assert Predict([2, 3, 4, 5, 6]) == 1;
  }

  lemma {:induction false} ThirdHistory() ensures Predict([10, 13, 16, 21, 30, 45]) == 5 {
    ThirdDiffs();
    ThirdDiffs1();
    ThirdDiffs2();
    assert Predict([0, 0]) == 0;
    assert Predict([2, 2, 2]) == 2;
    assert Predict([0, 2, 4, 6]) == -2;
    assert Predict([3, 3, 5, 9, 15]) == 5;
  }

  /** The three histories of the example predict -3, 0 and 5, which sum to 2. */
  lemma {:induction false} ExampleSum()
    ensures SumPredictions([[0, 3, 6, 9, 12, 15], [1, 3, 6, 10, 15, 21], [10, 13, 16, 21, 30, 45]]) == 2
  {
    FirstHistory();
    SecondHistory();
    ThirdHistory();
  }
}
