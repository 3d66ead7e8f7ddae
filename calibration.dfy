/** Day 1 part 1 (src/bin/d1p1.rs): a line's calibration value is made of its first and last
    decimal digits. */
module Calibration {
  import opened Wrappers
  import opened Text
  import Seqs

  /** `unwrap` on the empty digit iterator of a line without digits. */
  const UnwrapNone := "called `Option::unwrap()` on a `None` value"

  /** `l.chars().map(|c| c.to_digit(10)).filter(..).map(..)`: the values of the decimal digits
      of the line, in order. */
  function Digits(line: string): (r: seq<nat>)
    ensures |r| <= |line|
    ensures forall k :: 0 <= k < |r| ==> r[k] < 10
  {
    if line == [] then []
    else (if IsDigit(line[0]) then [DigitValue(line[0])] else []) + Digits(line[1..])
  }

  /** The digits of a concatenation are those of its parts, in order. */
  lemma {:induction false} DigitsAppend(a: string, b: string)
    ensures Digits(a + b) == Digits(a) + Digits(b)
  {
    if a == [] {
      assert a + b == b;
    } else {
      assert (a + b)[0] == a[0] && (a + b)[1..] == a[1..] + b;
      DigitsAppend(a[1..], b);
    }
  }

  /** A line has no digit values exactly when none of its characters is a decimal digit. */
  lemma {:induction false} NoDigits(line: string)
    ensures Digits(line) == [] <==> forall k :: 0 <= k < |line| ==> !IsDigit(line[k])
  {
    if line != [] {
      NoDigits(line[1..]);
      assert forall k :: 1 <= k < |line| ==> line[k] == line[1..][k - 1];
    }
  }

  /** The line has at least one decimal digit. */
  ghost predicate HasDigit(line: string) {
    exists k :: 0 <= k < |line| && IsDigit(line[k])
  }

  /** `first * 10 + last`, where `first` is the first digit (its absence panics) and `last` the
      last one, which is `first` again when there is only one. */
  function FirstLast(digits: seq<nat>): Result<nat> {
    if digits == [] then Err(UnwrapNone)
    else Ok(digits[0] * 10 + digits[|digits| - 1])
  }

  /** The closure of `main` for one line: at most 99, and a panic exactly for a line without
      digits. */
  function LineValue(line: string): (r: Result<nat>)
    ensures r.Err? <==> !HasDigit(line)
    ensures r.Err? ==> r.msg == UnwrapNone
    ensures r.Ok? ==> r.value <= 99
  {
    NoDigits(line);
    FirstLast(Digits(line))
  }

  /** An independent reading of the value: with the first decimal digit character at `i` and
      the last at `j`, the value is ten times the first plus the last. */
  lemma {:induction false} LineValueMeaning(line: string, i: nat, j: nat)
    requires i <= j < |line| && IsDigit(line[i]) && IsDigit(line[j])
    requires forall k :: 0 <= k < i ==> !IsDigit(line[k])
    requires forall k :: j < k < |line| ==> !IsDigit(line[k])
    ensures LineValue(line) == Ok(10 * DigitValue(line[i]) + DigitValue(line[j]))
  {
    var middle := line[i..j + 1];
    assert NoDigitIn(line, 0, i) && NoDigitIn(line, j + 1, |line|);
    DigitsBetween(line, i, j);
    assert middle[0] == line[i] && middle[|middle| - 1] == line[j];
    EndDigits(middle);
  }

  /** Characters that are not digits contribute nothing: only the stretch from `i` to `j`
      counts. */
  lemma {:induction false} DigitsBetween(line: string, i: nat, j: nat)
    requires i <= j < |line| && NoDigitIn(line, 0, i) && NoDigitIn(line, j + 1, |line|)
    ensures Digits(line) == Digits(line[i..j + 1])
  {
    var before, middle, after := line[0..i], line[i..j + 1], line[j + 1..|line|];
    Split3(line, i, j + 1);
    NoDigitSlice(line, 0, i);
    NoDigitSlice(line, j + 1, |line|);
    DigitsOfPieces(before, middle, after);
  }

  lemma {:induction false} DigitsOfPieces(a: string, b: string, c: string)
    requires Digits(a) == [] && Digits(c) == []
    ensures Digits(a + b + c) == Digits(b)
  {
    DigitsAppend(a + b, c);
    DigitsAppend(a, b);
  }

  lemma {:induction false} Split3(line: string, i: nat, j: nat)
    requires i <= j <= |line|
    ensures line == line[0..i] + line[i..j] + line[j..|line|]
  {
  }

  /** No character from `lo` up to `hi` is a decimal digit. */
  ghost predicate NoDigitIn(line: string, lo: nat, hi: nat)
    requires lo <= hi <= |line|
  {
    forall k :: lo <= k < hi ==> !IsDigit(line[k])
  }

  lemma {:induction false} NoDigitSlice(line: string, lo: nat, hi: nat)
    requires lo <= hi <= |line| && NoDigitIn(line, lo, hi)
    ensures Digits(line[lo..hi]) == []
  {
    var s := line[lo..hi];
    assert forall k :: 0 <= k < |s| ==> s[k] == line[lo + k];
    NoDigits(s);
  }

  /** The digits of a stretch that starts and ends with a digit character start and end with
      their values. */
  lemma {:induction false} EndDigits(s: string)
    requires s != [] && IsDigit(s[0]) && IsDigit(s[|s| - 1])
    ensures Digits(s) != [] && Digits(s)[0] == DigitValue(s[0])
    ensures Digits(s)[|Digits(s)| - 1] == DigitValue(s[|s| - 1])
  {
    var inner := s[..|s| - 1];
    assert s == inner + [s[|s| - 1]];
    DigitsAppend(inner, [s[|s| - 1]]);
    assert Digits([s[|s| - 1]]) == [DigitValue(s[|s| - 1])];
  }

  /** `main` without the file: the sum of the line values; the first line without a digit
      panics. The total is at most 99 per line. */
  function Solve(puzzle: string): (r: Result<nat>)
    ensures r.Ok? <==> forall k :: 0 <= k < |Lines(puzzle)| ==> HasDigit(Lines(puzzle)[k])
    ensures r.Err? ==> r.msg == UnwrapNone
    ensures r.Ok? ==> r.value <= 99 * |Lines(puzzle)|
  {
    var lines := Lines(puzzle);
    Seqs.TryMapOk(lines, LineValue);
    match Seqs.TryMap(lines, LineValue)
    case Err(msg) =>
      Seqs.TryMapErrorOfSome(lines, LineValue);
      Err(msg)
    case Ok(values) =>
      Seqs.SumBounds(values, 99);
      Ok(Seqs.Sum(values))
  }
}

/** The day 1 part 1 example lines. */
module CalibrationExamples {
  import opened Wrappers
  import opened Calibration

  lemma {:induction false} FirstLine()
    ensures LineValue("1abc2") == Ok(12)
  {
    LineValueMeaning("1abc2", 0, 4);
  }

  lemma {:induction false} SecondLine()
    ensures LineValue("pqr3stu8vwx") == Ok(38)
  {
    LineValueMeaning("pqr3stu8vwx", 3, 7);
  }

  lemma {:induction false} FourthLine()
    ensures LineValue("treb7uchet") == Ok(77)
  {
    LineValueMeaning("treb7uchet", 4, 4);
  }
}
