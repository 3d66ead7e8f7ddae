/** Camel cards without jokers (src/bin/d7p1.rs). */
module CamelCardsPlain {
  import opened Wrappers
  import Seqs
  import opened CamelCards

  /** `encode_cards`' map: T, J, Q, K, A become B to F, so that they sort above the digits. */
  function Encode(c: char): char {
    match c
    case 'T' => 'B'
    case 'J' => 'C'
    case 'Q' => 'D'
    case 'K' => 'E'
    case 'A' => 'F'
    case _ => c
  }

  /** The cards from weakest to strongest. */
  const Strength: string := "23456789TJQKA"

  /** After encoding, character order is card strength. */
  lemma {:induction false} EncodeFollowsStrength()
    ensures forall i, j :: 0 <= i < j < |Strength| ==> Encode(Strength[i]) < Encode(Strength[j])
  {
    assert forall k :: 0 <= k < |Strength| - 1 ==> Encode(Strength[k]) < Encode(Strength[k + 1]);
  }

  /** `kind_power` as written: ten times the largest card count, plus the largest count that
      differs from it (0 when every card occurs equally often). The `unwrap` on an empty hand
      panics; `Solve` reports that before sorting, so the 0 given here is never used. */
  function KindPower(cards: string): nat {
    CountsPower(Counts(cards))
  }

  /** The power `kind_power` computes from the frequency values. */
  function CountsPower(counts: seq<nat>): nat {
    10 * Largest(counts) + Largest(OtherThan(counts, Largest(counts)))
  }

  /** `filter(|v| *v != biggest_count)` */
  function OtherThan(counts: seq<nat>, biggest: nat): seq<nat> {
    Seqs.Filter(counts, Differs(biggest))
  }

  function Differs(biggest: nat): nat -> bool {
    (v: nat) => v != biggest
  }

  /** Among counts, the largest that differs from the largest of all is below it, is one of
      them (or 0 when there is none), and is at least every count but the largest. */
  lemma {:induction false} LargestOtherThan(counts: seq<nat>)
    requires counts != [] && forall k :: 0 <= k < |counts| ==> counts[k] > 0
    ensures var second := Largest(OtherThan(counts, Largest(counts)));
      && second < Largest(counts)
      && (second == 0 || second in counts)
      && forall x :: x in counts && x != Largest(counts) ==> x <= second
  {
    var lower := OtherThan(counts, Largest(counts));
    Seqs.FilterMembers(counts, Differs(Largest(counts)));
    if lower != [] {
      assert Largest(lower) in lower;
    }
    forall x | x in lower ensures x < Largest(counts) {
      var k :| 0 <= k < |counts| && counts[k] == x;
    }
    forall x | x in counts && x != Largest(counts) ensures x <= Largest(lower) {
      assert x in lower;
      var k :| 0 <= k < |lower| && lower[k] == x;
    }
  }

  /** What `KindPower` is made of: the largest count of a card in the hand, and the largest
      count of a card that is below it, or 0. */
  lemma {:induction false} KindPowerMeaning(cards: string) returns (biggest: nat, second: nat)
    requires cards != []
    ensures KindPower(cards) == 10 * biggest + second
    ensures (exists c :: c in cards && Count(cards, c) == biggest) && forall c :: c in cards ==> Count(cards, c) <= biggest
    ensures second < biggest
    ensures second == 0 || exists c :: c in cards && Count(cards, c) == second
    ensures forall c :: c in cards && Count(cards, c) != biggest ==> Count(cards, c) <= second
  {
    var counts := Counts(cards);
    biggest := Largest(counts);
    second := Largest(OtherThan(counts, biggest));
    LargestCount(cards);
    CountsOfCards(cards);
    LargestOtherThan(counts);
  }

  /** `kind_power` with its frequency loop: the `unwrap` of the maximum panics on an empty hand. */
  method ComputeKindPower(cards: string) returns (r: Result<nat>)
    ensures cards == [] ==> r == Err("called `Option::unwrap()` on a `None` value")
    ensures cards != [] ==> r == Ok(KindPower(cards))
  {
    var freq := Tally(cards);
    ValuesOfFreq(cards);
    var counts := ValuesOf(freq, Distinct(cards));
    assert counts == Counts(cards);
    assert counts == [] <==> cards == [] by {
      if cards != [] {
        LargestCount(cards);
      }
    }
    if counts == [] {
      return Err("called `Option::unwrap()` on a `None` value");
    }
    var biggest := Largest(counts);
    var second := Largest(OtherThan(counts, biggest));
    return Ok(10 * biggest + second);
  }

  /** The power the comments above `kind_power` list (and the joker solver computes): ten
      times the largest count plus the second entry of the counts sorted from largest down,
      so that two pair (22) beats one pair (21) and high card is 11. */
  function IntendedKindPower(cards: string): nat {
    TopTwoPower(Counts(cards), 0)
  }

  /** Two different cards of the hand occur `n` times each. */
  ghost predicate SharedBy(cards: string, n: nat) {
    exists c, d :: c != d && c in cards && d in cards && Count(cards, c) == n && Count(cards, d) == n
  }

  /** A count appears twice among the counts exactly when two different cards have it. */
  lemma {:induction false} CountsTwice(cards: string, n: nat)
    ensures multiset(Counts(cards))[n] >= 2 <==> SharedBy(cards, n)
  {
    var counts := Counts(cards);
    var dist := Distinct(cards);
    DistinctSpec(cards);
    CountsSpec(cards);
    TwiceIn(counts, n);
    if multiset(counts)[n] >= 2 {
      var i, j :| 0 <= i < j < |counts| && counts[i] == n && counts[j] == n;
      assert dist[i] in dist && dist[j] in dist;
    }
    if SharedBy(cards, n) {
      var c, d :| c != d && c in cards && d in cards && Count(cards, c) == n && Count(cards, d) == n;
      var i :| 0 <= i < |dist| && dist[i] == c;
      var j :| 0 <= j < |dist| && dist[j] == d;
      if i < j {
        assert counts[i] == n && counts[j] == n;
      } else {
        assert counts[j] == n && counts[i] == n;
      }
    }
  }

  /** What `IntendedKindPower` is made of: the largest count of a card in the hand, and the
      second entry of the counts from largest down, which equals the largest exactly when two
      different cards share the largest count. */
  lemma {:induction false} IntendedKindPowerMeaning(cards: string) returns (biggest: nat, second: nat)
    requires cards != []
    ensures IntendedKindPower(cards) == 10 * biggest + second
    ensures (exists c :: c in cards && Count(cards, c) == biggest) && forall c :: c in cards ==> Count(cards, c) <= biggest
    ensures second <= biggest
    ensures second == biggest <==> SharedBy(cards, biggest)
  {
    var counts := Counts(cards);
    biggest := Largest(counts);
    second := SecondLargest(counts);
    LargestCount(cards);
    SecondLargestTies(counts);
    CountsTwice(cards, biggest);
  }

  /** `solve`: parse, sort by (kind power, cards) and sum rank times bid. The comparator runs
      `kind_power` on every hand once there are two hands or more, and panics on an empty one. */
  method Solve(puzzle: string) returns (r: Result<int>)
    ensures ParseHands(puzzle, Encode).Err? ==> r == Err(ParseHands(puzzle, Encode).msg)
    ensures ParseHands(puzzle, Encode).Ok? ==> var hands := ParseHands(puzzle, Encode).value;
      && (|hands| > 1 && (exists h :: h in hands && h.cards == []) ==>
            r == Err("called `Option::unwrap()` on a `None` value"))
      && (!(|hands| > 1 && (exists h :: h in hands && h.cards == [])) ==>
            r.Ok? && exists ranked :: IsRanking(ranked, hands, KindPower) && r.value == Winnings(ranked))
  {
    var parsed := ParseHands(puzzle, Encode);
    if parsed.Err? {
      return Err(parsed.msg);
    }
    var hands := parsed.value;
    if |hands| > 1 && exists h :: h in hands && h.cards == [] {
      return Err("called `Option::unwrap()` on a `None` value");
    }
    var total := Score(hands, KindPower);
    return Ok(total);
  }

  /** `solve` with the intended kind power. */
  method SolveIntended(puzzle: string) returns (r: Result<int>)
    ensures ParseHands(puzzle, Encode).Err? ==> r == Err(ParseHands(puzzle, Encode).msg)
    ensures ParseHands(puzzle, Encode).Ok? ==> var hands := ParseHands(puzzle, Encode).value;
      r.Ok? && exists ranked :: IsRanking(ranked, hands, IntendedKindPower) && r.value == Winnings(ranked)
  {
    var parsed := ParseHands(puzzle, Encode);
    if parsed.Err? {
      return Err(parsed.msg);
    }
    var total := Score(parsed.value, IntendedKindPower);
    return Ok(total);
  }
}

/** Worked hands and examples of the day 7 puzzle, part 1. */
module CamelCardsPlainExamples {
  import opened CamelCards
  import opened CamelCardsPlain

  // The counts of the hands used below: the different cards first, then their counts.

  lemma {:induction false} Distinct23432() ensures Distinct("23432") == "432" { }
  lemma {:induction false} DistinctF23F4() ensures Distinct("F23F4") == "23F4" { }
  lemma {:induction false} Distinct23332() ensures Distinct("23332") == "32" { }
  lemma {:induction false} DistinctBBB98() ensures Distinct("BBB98") == "B98" { }

  lemma {:induction false} CountsOf23432() ensures CountsOf("23432", "432") == [1, 2, 2] { }

  lemma {:induction false} Counts23432() ensures Counts("23432") == [1, 2, 2] {
    Distinct23432();
    CountsOf23432();
  }

  lemma {:induction false} CountsOfF23F4() ensures CountsOf("F23F4", "23F4") == [1, 1, 2, 1] { }

  lemma {:induction false} CountsF23F4() ensures Counts("F23F4") == [1, 1, 2, 1] {
    DistinctF23F4();
    CountsOfF23F4();
  }

  lemma {:induction false} CountsOf23332() ensures CountsOf("23332", "32") == [3, 2] { }

  lemma {:induction false} Counts23332() ensures Counts("23332") == [3, 2] {
    Distinct23332();
    CountsOf23332();
  }

  lemma {:induction false} CountsOfBBB98() ensures CountsOf("BBB98", "B98") == [3, 1, 1] { }

  lemma {:induction false} CountsBBB98() ensures Counts("BBB98") == [3, 1, 1] {
    DistinctBBB98();
    CountsOfBBB98();
  }

  // The powers of those counts.

  lemma {:induction false} PowerOfTwoPair() ensures CountsPower([1, 2, 2]) == 21 { }
  lemma {:induction false} IntendedPowerOfTwoPair() ensures TopTwoPower([1, 2, 2], 0) == 22 { }
  lemma {:induction false} PowerOfOnePair() ensures CountsPower([1, 1, 2, 1]) == 21 { }
  lemma {:induction false} IntendedPowerOfOnePair() ensures TopTwoPower([1, 1, 2, 1], 0) == 21 { }
  lemma {:induction false} PowerOfFullHouse() ensures CountsPower([3, 2]) == 32 { }
  lemma {:induction false} PowerOfThreeOfAKind() ensures CountsPower([3, 1, 1]) == 31 { }

  /** As written, two pair ("23432") and one pair ("A23A4", encoded "F23F4") both score 21,
      where the comments above `kind_power` expect 22 for two pair. */
  lemma {:induction false} TwoPairTiesOnePair()
    ensures KindPower("23432") == 21 && KindPower("F23F4") == 21
  {
    Counts23432();
    CountsF23F4();
    PowerOfTwoPair();
    PowerOfOnePair();
  }

  /** The intended power separates them: 22 for two pair, 21 for one pair. */
  lemma {:induction false} IntendedTwoPairBeatsOnePair()
    ensures IntendedKindPower("23432") == 22 && IntendedKindPower("F23F4") == 21
  {
    Counts23432();
    CountsF23F4();
    IntendedPowerOfTwoPair();
    IntendedPowerOfOnePair();
  }

  /** A full house ("23332") beats three of a kind ("TTT98", encoded "BBB98"). */
  lemma {:induction false} FullHouseBeatsThreeOfAKind()
    ensures KindPower("23332") == 32 && KindPower("BBB98") == 31
  {
    Counts23332();
    CountsBBB98();
    PowerOfFullHouse();
    PowerOfThreeOfAKind();
  }
}
