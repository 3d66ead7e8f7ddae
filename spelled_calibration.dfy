/** Day 1 part 2 (src/bin/d1p2.rs): spelled-out digits count too. Each word is replaced by
    itself, its digit and itself again, so that words sharing letters (`eightwo`) both keep
    their letters; then the digits are read as in part 1. */
module SpelledCalibration {
  import opened Wrappers
  import opened Text
  import Seqs
  import Calibration

  /** The spelled digits, `Words[d - 1]` spelling `d`. */
  const Words: seq<string> := ["one", "two", "three", "four", "five", "six", "seven", "eight", "nine"]

  function DigitChar(d: nat): (c: char)
    requires 1 <= d <= 9
    ensures IsDigit(c) && DigitValue(c) == d
  {
    ('0' as int + d) as char
  }

  /** `.replace("one", "one1one")` and its eight siblings: every occurrence of the word for `d`
      becomes word, digit, word. */
  function Spell(s: string, d: nat): string
    requires 1 <= d <= 9
  {
    Replace(s, Words[d - 1], Words[d - 1] + [DigitChar(d)] + Words[d - 1])
  }

  /** The first `n` replacements of the chain, in the order one, two, ..., nine. */
  function ExpandUpTo(line: string, n: nat): string
    requires n <= 9
  {
    if n == 0 then line else Spell(ExpandUpTo(line, n - 1), n)
  }

  /** The whole chain of nine replacements. */
  function Expand(line: string): string {
    ExpandUpTo(line, 9)
  }

  /** `a` can be obtained from `b` by deleting elements. */
  predicate Subsequence(a: seq<nat>, b: seq<nat>)
    decreases |b|
  {
    a == [] || (b != [] && ((a[0] == b[0] && Subsequence(a[1..], b[1..])) || Subsequence(a, b[1..])))
  }

  lemma {:induction false} SubsequenceRefl(a: seq<nat>)
    ensures Subsequence(a, a)
  {
    if a != [] {
      SubsequenceRefl(a[1..]);
    }
  }

  /** Elements in front of `b` can be skipped. */
  lemma {:induction false} SubsequenceSkip(a: seq<nat>, extra: seq<nat>, b: seq<nat>)
    requires Subsequence(a, b)
    ensures Subsequence(a, extra + b)
    decreases |extra|
  {
    if extra == [] {
      assert extra + b == b;
    } else if a != [] {
      SubsequenceSkip(a, extra[1..], b);
      assert (extra + b)[1..] == extra[1..] + b;
    }
  }

  lemma {:induction false} SubsequenceAppend(a1: seq<nat>, b1: seq<nat>, a2: seq<nat>, b2: seq<nat>)
    requires Subsequence(a1, b1) && Subsequence(a2, b2)
    ensures Subsequence(a1 + a2, b1 + b2)
    decreases |b1|
  {
    if b1 == [] {
      assert a1 + a2 == a2 && b1 + b2 == b2;
    } else {
      assert (b1 + b2)[0] == b1[0] && (b1 + b2)[1..] == b1[1..] + b2;
      if a1 != [] && a1[0] == b1[0] && Subsequence(a1[1..], b1[1..]) {
        SubsequenceAppend(a1[1..], b1[1..], a2, b2);
        assert (a1 + a2)[0] == a1[0] && (a1 + a2)[1..] == a1[1..] + a2;
      } else if a1 == [] {
        SubsequenceSkip(a2, b1, b2);
        assert a1 + a2 == a2;
      } else {
        SubsequenceAppend(a1, b1[1..], a2, b2);
      }
    }
  }

  lemma {:induction false} SubsequenceTrans(a: seq<nat>, b: seq<nat>, c: seq<nat>)
    requires Subsequence(a, b) && Subsequence(b, c)
    ensures Subsequence(a, c)
    decreases |c|
  {
    if a != [] {
      if Subsequence(b, c[1..]) {
        SubsequenceTrans(a, b, c[1..]);
      } else if a[0] == b[0] && Subsequence(a[1..], b[1..]) {
        SubsequenceTrans(a[1..], b[1..], c[1..]);
      } else {
        SubsequenceTrans(a, b[1..], c[1..]);
      }
    }
  }

  lemma {:induction false} SubsequenceHas(a: seq<nat>, b: seq<nat>, x: nat)
    requires Subsequence(a, b) && x in a
    ensures x in b
    decreases |b|
  {
    if a[0] == b[0] && Subsequence(a[1..], b[1..]) {
      if x != a[0] {
        SubsequenceHas(a[1..], b[1..], x);
      }
    } else {
      SubsequenceHas(a, b[1..], x);
    }
  }

  /** Digits inserted between a common prefix and a subsequence keep the subsequence. */
  lemma {:induction false} SubsequenceInsert(x: seq<nat>, a: seq<nat>, extra: seq<nat>, b: seq<nat>)
    requires Subsequence(a, b)
    ensures Subsequence(x + a, x + extra + b)
  {
    SubsequenceSkip(a, extra, b);
    SubsequenceRefl(x);
    SubsequenceAppend(x, x, a, extra + b);
    assert x + (extra + b) == x + extra + b;
  }

  lemma {:induction false} DigitsOfThree(a: string, b: string, c: string)
    ensures Calibration.Digits(a + b + c) == Calibration.Digits(a) + Calibration.Digits(b) + Calibration.Digits(c)
  {
    Calibration.DigitsAppend(a + b, c);
    Calibration.DigitsAppend(a, b);
  }

  /** Replacing a word without digits never loses a digit: the old digits are a subsequence of
      the new ones. */
  lemma {:induction false} ReplaceKeepsDigits(s: string, pat: string, rep: string)
    requires |pat| > 0 && Calibration.Digits(pat) == []
    ensures Subsequence(Calibration.Digits(s), Calibration.Digits(Replace(s, pat, rep)))
    decreases |s|
  {
    if IndexOf(s, pat).None? {
      SubsequenceRefl(Calibration.Digits(s));
    } else {
      var i := IndexOf(s, pat).value;
      var rest := s[i + |pat|..];
      var r := Replace(rest, pat, rep);
      ReplaceUnfold(s, pat, rep);
      DigitsAroundWord(s, pat, i);
      DigitsOfThree(s[..i], rep, r);
      ReplaceKeepsDigits(rest, pat, rep);
      SubsequenceInsert(Calibration.Digits(s[..i]), Calibration.Digits(rest), Calibration.Digits(rep), Calibration.Digits(r));
    }
  }

  lemma {:induction false} DigitsAroundWord(s: string, pat: string, i: nat)
    requires Calibration.Digits(pat) == [] && OccursAt(s, pat, i)
    ensures Calibration.Digits(s) == Calibration.Digits(s[..i]) + Calibration.Digits(s[i + |pat|..])
  {
    var before, rest := s[..i], s[i + |pat|..];
    assert s == before + pat + rest;
    DigitsOfThree(before, pat, rest);
    assert Calibration.Digits(before) + [] + Calibration.Digits(rest) == Calibration.Digits(before) + Calibration.Digits(rest);
  }

  /** A replacement that finds its word puts the digit of that word into the line. */
  lemma {:induction false} ReplaceAddsDigit(s: string, pat: string, rep: string, d: nat)
    requires |pat| > 0 && Contains(s, pat) && d in Calibration.Digits(rep)
    ensures d in Calibration.Digits(Replace(s, pat, rep))
  {
    match IndexOf(s, pat)
    case None =>
      assert false;
    case Some(i) =>
      DigitsOfThree(s[..i], rep, Replace(s[i + |pat|..], pat, rep));
  }

  lemma {:induction false} LettersHaveNoDigits(w: string)
    requires forall k :: 0 <= k < |w| ==> 'a' <= w[k] <= 'z'
    ensures Calibration.Digits(w) == []
  {
    if w != [] {
      LettersHaveNoDigits(w[1..]);
    }
  }

  lemma {:induction false} WordsHaveNoDigits(d: nat)
    requires 1 <= d <= 9
    ensures Calibration.Digits(Words[d - 1]) == []
  {
    var w := Words[d - 1];
    if d == 1 { assert w == "one"; }
    else if d == 2 { assert w == "two"; }
    else if d == 3 { assert w == "three"; }
    else if d == 4 { assert w == "four"; }
    else if d == 5 { assert w == "five"; }
    else if d == 6 { assert w == "six"; }
    else if d == 7 { assert w == "seven"; }
    else if d == 8 { assert w == "eight"; }
    else { assert w == "nine"; }
    LettersHaveNoDigits(w);
  }

  /** The digit characters of the line survive the chain, in order. */
  lemma {:induction false} DigitsSurvive(line: string, n: nat)
    requires n <= 9
    ensures Subsequence(Calibration.Digits(line), Calibration.Digits(ExpandUpTo(line, n)))
  {
    if n == 0 {
      SubsequenceRefl(Calibration.Digits(line));
    } else {
      DigitsSurvive(line, n - 1);
      var s := ExpandUpTo(line, n - 1);
      WordsHaveNoDigits(n);
      ReplaceKeepsDigits(s, Words[n - 1], Words[n - 1] + [DigitChar(n)] + Words[n - 1]);
      SubsequenceTrans(Calibration.Digits(line), Calibration.Digits(s), Calibration.Digits(ExpandUpTo(line, n)));
    }
  }

  /** A word still present when its turn in the chain comes contributes its digit to the
      expanded line. */
  lemma {:induction false} WordGivesDigit(line: string, d: nat)
    requires 1 <= d <= 9 && Contains(ExpandUpTo(line, d - 1), Words[d - 1])
    ensures d in Calibration.Digits(Expand(line))
  {
    var w := Words[d - 1];
    var rep := w + [DigitChar(d)] + w;
    Calibration.DigitsAppend(w + [DigitChar(d)], w);
    Calibration.DigitsAppend(w, [DigitChar(d)]);
    WordsHaveNoDigits(d);
    ReplaceAddsDigit(ExpandUpTo(line, d - 1), w, rep, d);
    LaterStepsKeep(line, d, 9);
    SubsequenceHas(Calibration.Digits(ExpandUpTo(line, d)), Calibration.Digits(Expand(line)), d);
  }

  /** The steps after step `m` keep the digits present after step `m`. */
  lemma {:induction false} LaterStepsKeep(line: string, m: nat, n: nat)
    requires m <= n <= 9
    ensures Subsequence(Calibration.Digits(ExpandUpTo(line, m)), Calibration.Digits(ExpandUpTo(line, n)))
    decreases n
  {
    if n == m {
      SubsequenceRefl(Calibration.Digits(ExpandUpTo(line, m)));
    } else {
      LaterStepsKeep(line, m, n - 1);
      var s := ExpandUpTo(line, n - 1);
      WordsHaveNoDigits(n);
      ReplaceKeepsDigits(s, Words[n - 1], Words[n - 1] + [DigitChar(n)] + Words[n - 1]);
      SubsequenceTrans(Calibration.Digits(ExpandUpTo(line, m)), Calibration.Digits(s), Calibration.Digits(ExpandUpTo(line, n)));
    }
  }

  /** A line in which no digit is spelled out goes through the chain unchanged. */
  lemma {:induction false} NoWordsUnchanged(line: string, n: nat)
    requires n <= 9
    requires forall k :: 0 <= k < 9 ==> !Contains(line, Words[k])
    ensures ExpandUpTo(line, n) == line
  {
    if n > 0 {
      NoWordsUnchanged(line, n - 1);
    }
  }

  /** `one` is replaced first, so a line spelling it gets a 1. */
  lemma {:induction false} SpelledOne(line: string)
    ensures Contains(line, "one") ==> 1 in Calibration.Digits(Expand(line))
  {
    if Contains(line, "one") {
      WordGivesDigit(line, 1);
    }
  }

  lemma {:induction false} Unspelled(line: string)
    ensures (forall k :: 0 <= k < 9 ==> !Contains(line, Words[k])) ==> Expand(line) == line
  {
    if forall k :: 0 <= k < 9 ==> !Contains(line, Words[k]) {
      NoWordsUnchanged(line, 9);
    }
  }

  /** The closure of `main` for one line: part 1's reading of the expanded line. A line with a
      digit character, or spelling `one`, never panics; one without spelled digits reads as
      in part 1. */
  function LineValue(line: string): (r: Result<nat>)
    ensures Calibration.HasDigit(line) || Contains(line, "one") ==> r.Ok?
    ensures (forall k :: 0 <= k < 9 ==> !Contains(line, Words[k])) ==> r == Calibration.LineValue(line)
    ensures r.Err? ==> r.msg == Calibration.UnwrapNone
    ensures r.Ok? ==> r.value <= 99
  {
    var expanded := Expand(line);
    Calibration.NoDigits(line);
    Calibration.NoDigits(expanded);
    DigitsSurvive(line, 9);
    SpelledOne(line);
    Unspelled(line);
    Calibration.LineValue(expanded)
  }

  /** `main` without the file: the sum of the line values; the first line without a digit
      after expansion panics. The total is at most 99 per line. */
  function Solve(puzzle: string): (r: Result<nat>)
    ensures r.Ok? <==> Seqs.AllOk(Lines(puzzle), LineValue)
    ensures r.Err? ==> r.msg == Calibration.UnwrapNone
    ensures r.Ok? ==> r.value <= 99 * |Lines(puzzle)|
  {
    var lines := Lines(puzzle);
    Seqs.TryMapOk(lines, LineValue);
    match Seqs.TryMap(lines, LineValue)
    case Err(msg) =>
      Seqs.TryMapErrorOfSome(lines, LineValue);
      Err(msg)
    case Ok(values) =>
      Seqs.SumBounds(values, 99);
      Ok(Seqs.Sum(values))
  }
}
