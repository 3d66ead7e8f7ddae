/** Camel cards with jokers (src/bin/d7p2.rs): `J` is a joker, the weakest card on its own,
    that joins whichever card makes the hand strongest. */
module CamelCardsJoker {
  import opened Wrappers
  import Seqs
  import opened Sorting
  import opened CamelCards
  import CamelCardsPlain

  /** `encode_card`: J becomes 1, below every digit; T, Q, K, A become B, D, E, F. */
  function Encode(c: char): char {
    match c
    case 'J' => '1'
    case 'T' => 'B'
    case 'Q' => 'D'
    case 'K' => 'E'
    case 'A' => 'F'
    case _ => c
  }

  /** The cards from weakest to strongest. */
  const Strength: string := "J23456789TQKA"

  /** After encoding, character order is card strength. */
  lemma {:induction false} EncodeFollowsStrength()
    ensures forall i, j :: 0 <= i < j < |Strength| ==> Encode(Strength[i]) < Encode(Strength[j])
  {
    assert forall k :: 0 <= k < |Strength| - 1 ==> Encode(Strength[k]) < Encode(Strength[k + 1]);
  }

  /** `encode_card('J')` */
  const Joker: char := '1'

  predicate NotJoker(c: char) {
    c != Joker
  }

  /** The cards of a hand other than its jokers. */
  function Plain(cards: string): string {
    Seqs.Filter(cards, NotJoker)
  }

  /** `kind_power`: the counts of the cards other than jokers, from largest down; ten times
      the first (0 when there is none) raised by the number of jokers, plus the second (or 0). */
  function JokerPower(cards: string): nat {
    TopTwoPower(Counts(Plain(cards)), Count(cards, Joker))
  }

  /** `kind_power` with its frequency loop and its count of jokers. */
  method ComputeKindPower(cards: string) returns (r: nat)
    ensures r == JokerPower(cards)
  {
    var plain := Plain(cards);
    var freq := Tally(plain);
    ValuesOfFreq(plain);
    var counts := ValuesOf(freq, Distinct(plain));
    assert counts == Counts(plain);
    var biggest, second := TopTwo(counts);
    var jokers := Count(cards, Joker);
    r := (biggest + jokers) * 10 + second;
  }

  /** The counts sorted from largest down; the first and the second of them, 0 for each one
      missing. */
  method TopTwo(counts: seq<nat>) returns (biggest: nat, second: nat)
    ensures biggest == Largest(counts) && second == SecondLargest(counts)
  {
    var a := new nat[|counts|](i requires 0 <= i < |counts| => counts[i]);
    assert a[..] == counts;
    AtLeastTotal();
    InsertionSort(a, AtLeast);
    SortedDescendingTop(a[..], counts);
    biggest := if a.Length > 0 then a[0] else 0;
    second := if a.Length > 1 then a[1] else 0;
    SecondOfShort(counts);
  }

  lemma {:induction false} AtLeastTotal()
    ensures Total(AtLeast)
  {
  }

  /** With fewer than two counts, the second largest is 0, as `unwrap_or(0)` gives. */
  lemma {:induction false} SecondOfShort(counts: seq<nat>)
    ensures |counts| == 0 ==> Largest(counts) == 0
    ensures |counts| <= 1 ==> SecondLargest(counts) == 0
  {
    var rest := RemoveOne(counts, Largest(counts));
    assert |rest| == |multiset(rest)|;
  }

  /** Counting a card other than the joker among the plain cards counts it in the hand; the
      plain cards and the jokers make up the hand. */
  lemma {:induction false} PlainCounts(cards: string)
    ensures forall c :: c != Joker ==> Count(Plain(cards), c) == Count(cards, c)
    ensures Joker !in Plain(cards)
    ensures |Plain(cards)| + Count(cards, Joker) == |cards|
  {
    var plain := Plain(cards);
    Seqs.FilterCounts(cards, NotJoker);
    Seqs.FilterMembers(cards, NotJoker);
    assert multiset(plain) + multiset{Joker}[Joker := Count(cards, Joker)] == multiset(cards);
    assert |multiset(plain)| == |plain|;
  }

  /** Without jokers the power is the one the comments of the part 1 solver list. */
  lemma {:induction false} NoJokersIsIntendedPower(cards: string)
    requires Joker !in cards
    ensures JokerPower(cards) == CamelCardsPlain.IntendedKindPower(cards)
  {
    Seqs.FilterAll(cards, NotJoker);
    assert Count(cards, Joker) == 0;
  }

  /** What `JokerPower` is made of: the largest count of a card other than the joker, raised by
      the jokers, and the second entry of those counts from largest down, which equals the
      largest exactly when two different cards share it. */
  lemma {:induction false} JokerPowerMeaning(cards: string) returns (biggest: nat, second: nat)
    requires Plain(cards) != []
    ensures JokerPower(cards) == 10 * (biggest + Count(cards, Joker)) + second
    ensures (exists c :: c in cards && c != Joker && Count(cards, c) == biggest)
    ensures forall c :: c in cards && c != Joker ==> Count(cards, c) <= biggest
    ensures second <= biggest
    ensures second == biggest <==> SharedBy(cards, biggest)
  {
    var plain := Plain(cards);
    biggest, second := CamelCardsPlain.IntendedKindPowerMeaning(plain);
    PlainCounts(cards);
    Seqs.FilterMembers(cards, NotJoker);
    PlainShared(cards, biggest);
  }

  /** Two different cards of the hand, neither of them a joker, occur `n` times each. */
  ghost predicate SharedBy(cards: string, n: nat) {
    exists c, d :: c != d && NotJoker(c) && NotJoker(d) && c in cards && d in cards && Count(cards, c) == n && Count(cards, d) == n
  }

  lemma {:induction false} PlainShared(cards: string, n: nat)
    ensures SharedBy(cards, n) <==> CamelCardsPlain.SharedBy(Plain(cards), n)
  {
    PlainCounts(cards);
    Seqs.FilterMembers(cards, NotJoker);
  }

  /** A hand of jokers and copies of one other card is worth five of a kind (ten times its
      length), whatever the mix. */
  lemma {:induction false} OneCardWithJokers(cards: string, c: char)
    requires c != Joker && forall x :: x in cards ==> x == c || x == Joker
    ensures JokerPower(cards) == 10 * |cards|
  {
    var plain := Plain(cards);
    var jokers := Count(cards, Joker);
    PlainCounts(cards);
    if plain == [] {
      assert Counts(plain) == [];
      TopTwoOfNone(jokers);
    } else {
      Seqs.FilterMembers(cards, NotJoker);
      assert forall x :: x in plain ==> x == c;
      SameCard(plain, c);
      assert CountsOf(plain, [c]) == [Count(plain, c)];
      TopTwoOfOne(Count(plain, c), jokers);
    }
  }

  /** No plain card: the jokers alone make the kind. */
  lemma {:induction false} TopTwoOfNone(jokers: nat)
    ensures TopTwoPower([], jokers) == 10 * jokers
  {
    SecondOfShort([]);
  }

  /** A single plain card: its copies and the jokers make the kind, and there is no second. */
  lemma {:induction false} TopTwoOfOne(n: nat, jokers: nat)
    ensures TopTwoPower([n], jokers) == 10 * (n + jokers)
  {
    SecondOfShort([n]);
  }

  /** A hand of copies of one card: a single different card, counted once per card. */
  lemma {:induction false} SameCard(cards: string, c: char)
    requires cards != [] && forall x :: x in cards ==> x == c
    ensures Distinct(cards) == [c]
    ensures Count(cards, c) == |cards|
  {
    var tail := cards[1..];
    assert cards == [cards[0]] + tail;
    assert multiset(cards) == multiset{cards[0]} + multiset(tail);
    assert cards[0] in cards;
    if tail != [] {
      assert tail[0] in tail;
      assert forall x :: x in tail ==> x in cards;
      SameCard(tail, c);
    }
  }

  /** `solve` with jokers; its comparator never panics. */
  method Solve(puzzle: string) returns (r: Result<int>)
    ensures ParseHands(puzzle, Encode).Err? ==> r == Err(ParseHands(puzzle, Encode).msg)
    ensures ParseHands(puzzle, Encode).Ok? ==> var hands := ParseHands(puzzle, Encode).value;
      r.Ok? && exists ranked :: IsRanking(ranked, hands, JokerPower) && r.value == Winnings(ranked)
  {
    var parsed := ParseHands(puzzle, Encode);
    if parsed.Err? {
      return Err(parsed.msg);
    }
    var total := Score(parsed.value, JokerPower);
    return Ok(total);
  }
}

/** The hands of the joker test of the day 7 puzzle, part 2. */
module CamelCardsJokerExamples {
  import opened CamelCards
  import opened CamelCardsJoker

  // JJJJJ, JJJJA, JJJAA, JJAAA, JAAAA and AAAAA (A encoded F) are all worth five of a kind.

  lemma {:induction false} FiveJokers() ensures JokerPower("11111") == 50 { OneCardWithJokers("11111", 'F'); }
  lemma {:induction false} FourJokers() ensures JokerPower("1111F") == 50 { OneCardWithJokers("1111F", 'F'); }
  lemma {:induction false} ThreeJokers() ensures JokerPower("111FF") == 50 { OneCardWithJokers("111FF", 'F'); }
  lemma {:induction false} TwoJokers() ensures JokerPower("11FFF") == 50 { OneCardWithJokers("11FFF", 'F'); }
  lemma {:induction false} OneJoker() ensures JokerPower("1FFFF") == 50 { OneCardWithJokers("1FFFF", 'F'); }
  lemma {:induction false} NoJoker() ensures JokerPower("FFFFF") == 50 { OneCardWithJokers("FFFFF", 'F'); }

  // JJJAK, JJKKA and JKKKA (encoded 111FE, 11EEF and 1EEEF) are all worth four of a kind.

  lemma {:induction false} PlainOf111FE() ensures Plain("111FE") == "FE" && Count("111FE", Joker) == 3 { }
  lemma {:induction false} PlainOf11EEF() ensures Plain("11EEF") == "EEF" && Count("11EEF", Joker) == 2 { }
  lemma {:induction false} PlainOf1EEEF() ensures Plain("1EEEF") == "EEEF" && Count("1EEEF", Joker) == 1 { }

  lemma {:induction false} CountsOfFE() ensures Counts("FE") == [1, 1] { assert Distinct("FE") == "FE"; }
  lemma {:induction false} CountsOfEEF() ensures Counts("EEF") == [2, 1] { assert Distinct("EEF") == "EF"; }
  lemma {:induction false} CountsOfEEEF() ensures Counts("EEEF") == [3, 1] { assert Distinct("EEEF") == "EF"; }

  lemma {:induction false} TopTwoOf11() ensures TopTwoPower([1, 1], 3) == 41 { }
  lemma {:induction false} TopTwoOf21() ensures TopTwoPower([2, 1], 2) == 41 { }
  lemma {:induction false} TopTwoOf31() ensures TopTwoPower([3, 1], 1) == 41 { }

  lemma {:induction false} ThreeJokersMakeFourOfAKind() ensures JokerPower("111FE") == 41 {
    PlainOf111FE();
    CountsOfFE();
    TopTwoOf11();
  }

  lemma {:induction false} TwoJokersMakeFourOfAKind() ensures JokerPower("11EEF") == 41 {
    PlainOf11EEF();
    CountsOfEEF();
    TopTwoOf21();
  }

  lemma {:induction false} OneJokerMakesFourOfAKind() ensures JokerPower("1EEEF") == 41 {
    PlainOf1EEEF();
    CountsOfEEEF();
    TopTwoOf31();
  }
}
