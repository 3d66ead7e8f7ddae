/** The scratchcard copy queue (src/bin/d4p2.rs): every card of the deck, original or copy, is
    scanned once in order; a card with `m` matching numbers appends copies of the `m` original
    cards that follow it, and the answer is the final size of the deck. */
module Scratchcards {
  import opened Wrappers
  import Text
  import Seqs

  datatype Card = Card(id: int, winning: seq<int>, own: seq<int>)

  /** `normalize`: squeeze runs of spaces to one, drop `Card `, and turn `: ` and ` | ` into
      `|`, giving `ID|WINNING|OWN` lines. */
  function Normalize(puzzle: string): string {
    Text.Replace(Text.Replace(Text.Replace(Squeeze(puzzle), "Card ", ""), ": ", "|"), " | ", "|")
  }

  /** The first step of `normalize`: trim, split at every space, drop the empty pieces and
      join the rest with single spaces. */
  function Squeeze(puzzle: string): string {
    Text.Join(Seqs.Filter(Text.Split(Text.Trim(puzzle), " "), NonEmpty), " ")
  }

  predicate NonEmpty(w: string) {
    w != []
  }

  /** No two spaces are adjacent in `s`. */
  predicate SingleSpaced(s: string) {
    forall i :: 0 <= i < |s| - 1 ==> !(s[i] == ' ' && s[i + 1] == ' ')
  }

  /** After the words are joined back no two spaces are adjacent. */
  lemma {:induction false} JoinedWordsSingleSpaced(words: seq<string>)
    requires forall k :: 0 <= k < |words| ==> words[k] != [] && ' ' !in words[k]
    ensures SingleSpaced(Text.Join(words, " "))
  {
    if |words| > 1 {
      var w := words[0];
      var rest := words[1..];
      JoinedWordsSingleSpaced(rest);
      var t := Text.Join(rest, " ");
      var s := Text.Join(words, " ");
      assert s == w + " " + t;
      assert t != [] && t[0] == rest[0][0] by {
        if |rest| > 1 {
          assert t == rest[0] + " " + Text.Join(rest[1..], " ");
        }
      }
      assert rest[0][0] in rest[0];
      forall i | 0 <= i < |s| - 1 ensures !(s[i] == ' ' && s[i + 1] == ' ') {
        if i < |w| {
          assert s[i] == w[i];
          assert w[i] in w;
        } else if i > |w| {
          var j := i - |w| - 1;
          assert s[i] == t[j] && s[i + 1] == t[j + 1];
        } else {
          assert s[i + 1] == t[0];
        }
      }
    }
  }

  /** `normalize` leaves no run of two spaces. */
  lemma {:induction false} SqueezeSingleSpaced(puzzle: string)
    ensures SingleSpaced(Squeeze(puzzle))
  {
    var pieces := Text.Split(Text.Trim(puzzle), " ");
    var words := Seqs.Filter(pieces, NonEmpty);
    Seqs.FilterMembers(pieces, NonEmpty);
    forall k | 0 <= k < |words| ensures words[k] != [] && ' ' !in words[k] {
      assert words[k] in words;
      var j :| 0 <= j < |pieces| && pieces[j] == words[k];
      Text.NoChar(pieces[j], ' ');
    }
    JoinedWordsSingleSpaced(words);
  }

  function ParseNumbers(s: string): Result<seq<int>> {
    Seqs.TryMap(Text.Split(s, " "), (n: string) => Expect(Text.ParseInt(n), "called `Result::unwrap()` on an `Err` value"))
  }

  /** `Card::parse`: `ID|WINNING|OWN`, each part unwrapped. */
  function ParseCard(line: string): Result<Card> {
    var parts := Text.Split(line, "|");
    var id :- Expect(Text.ParseInt(parts[0]), "called `Result::unwrap()` on an `Err` value");
    var winningText :- if |parts| > 1 then Ok(parts[1]) else Err("called `Option::unwrap()` on a `None` value");
    var winning :- ParseNumbers(winningText);
    var ownText :- if |parts| > 2 then Ok(parts[2]) else Err("called `Option::unwrap()` on a `None` value");
    var own :- ParseNumbers(ownText);
    Ok(Card(id, winning, own))
  }

  /** `own_winning_numbers`: the winning numbers that also occur among the card's own numbers. */
  function OwnWinningNumbers(winning: seq<int>, own: seq<int>): (r: seq<int>)
    ensures |r| <= |winning|
  {
    if winning == [] then []
    else (if winning[0] in own then [winning[0]] else []) + OwnWinningNumbers(winning[1..], own)
  }

  /** They are the winning numbers the card holds, in order and with their repetitions: each
      number occurs as often as among the winning numbers when the card holds it, else never. */
  lemma {:induction false} OwnWinningNumbersSpec(winning: seq<int>, own: seq<int>)
    ensures var r := OwnWinningNumbers(winning, own);
      (forall x :: x in r <==> x in winning && x in own)
      && forall x :: multiset(r)[x] == if x in own then multiset(winning)[x] else 0
  {
    if winning != [] {
      OwnWinningNumbersSpec(winning[1..], own);
      assert winning == [winning[0]] + winning[1..];
    }
  }

  function Matches(card: Card): nat {
    |OwnWinningNumbers(card.winning, card.own)|
  }

  /** The index of the first card with the given id. */
  function FirstWithId(cards: seq<Card>, id: int): (r: Option<nat>)
    ensures r.Some? ==> (r.value < |cards| && cards[r.value].id == id
                         && forall j :: 0 <= j < r.value ==> cards[j].id != id)
    ensures r.None? ==> forall j :: 0 <= j < |cards| ==> cards[j].id != id
  {
    if cards == [] then None
    else if cards[0].id == id then Some(0)
    else
      match FirstWithId(cards[1..], id)
      case None => None
      case Some(k) => Some(k + 1)
  }

  /** `skip_while(id differs).skip(1).take(n)`: up to `n` cards right after the first card with
      the id, and none when no card has it. */
  function After(cards: seq<Card>, id: int, n: nat): (r: seq<Card>)
    ensures FirstWithId(cards, id).None? ==> r == []
    ensures FirstWithId(cards, id).Some? ==> var k := FirstWithId(cards, id).value;
      r == cards[k + 1..if k + 1 + n <= |cards| then k + 1 + n else |cards|]
  {
    match FirstWithId(cards, id)
    case None => []
    case Some(k) => cards[k + 1..if k + 1 + n <= |cards| then k + 1 + n else |cards|]
  }

  predicate DistinctIds(cards: seq<Card>) {
    forall i, j :: 0 <= i < j < |cards| ==> cards[i].id != cards[j].id
  }

  /** The deck: the parsed cards, kept unchanged, and the growing list that is scanned. */
  class Deck {
    var originalCards: seq<Card>
    var cards: seq<Card>

    /** `Deck::parse` once the cards are parsed: both lists start as the parsed cards. */
    constructor (parsed: seq<Card>)
      ensures originalCards == parsed && cards == parsed
    {
      originalCards := parsed;
      cards := parsed;
    }

    /** `nextn` */
    function NextN(id: int, n: nat): seq<Card>
      reads this
    {
      After(originalCards, id, n)
    }

    /** `put_card`: one more card at the end; the original cards stay as they are. */
    method PutCard(card: Card)
      modifies this
      ensures cards == old(cards) + [card] && originalCards == old(originalCards)
    {
      cards := cards + [card];
    }

    /** The `for` loop of `solve` that puts each of the copies at the end, one by one. */
    method PutCards(next: seq<Card>)
      modifies this
      ensures cards == old(cards) + next && originalCards == old(originalCards)
    {
      ghost var before := cards;
      for i := 0 to |next|
        invariant originalCards == old(originalCards)
        invariant cards == before + next[..i]
      {
        assert next[..i + 1] == next[..i] + [next[i]];
        PutCard(next[i]);
      }
      assert next[..|next|] == next;
    }

    function Len(): nat
      reads this
    {
      |cards|
    }

    function At(index: nat): Card
      requires index < |cards|
      reads this
    {
      cards[index]
    }
  }

  /** The number of cards that scanning the original card `k` eventually puts in the deck,
      itself included. */
  ghost function Produced(orig: seq<Card>, k: nat): (r: nat)
    requires k < |orig|
    ensures r >= 1
    decreases |orig| - k, 1
  {
    1 + SumProduced(orig, k + 1, Reach(orig, k))
  }

  /** The end of the run of originals that card `k` copies. */
  function Reach(orig: seq<Card>, k: nat): (r: nat)
    requires k < |orig|
    ensures k < r <= |orig|
  {
    if k + 1 + Matches(orig[k]) <= |orig| then k + 1 + Matches(orig[k]) else |orig|
  }

  ghost function SumProduced(orig: seq<Card>, lo: nat, hi: nat): nat
    requires lo <= hi <= |orig|
    decreases |orig| - lo + 1, 0
  {
    if lo == hi then 0 else Produced(orig, lo) + SumProduced(orig, lo + 1, hi)
  }

  /** The final size of the deck built from `orig`. */
  ghost function Total(orig: seq<Card>): nat {
    SumProduced(orig, 0, |orig|)
  }

  /** What a card still waiting in the deck will add, counted through its original. */
  ghost function Weight(orig: seq<Card>, card: Card): nat {
    match FirstWithId(orig, card.id)
    case Some(k) => Produced(orig, k)
    case None => 0
  }

  ghost function Pending(orig: seq<Card>, cards: seq<Card>): nat {
    if cards == [] then 0 else Weight(orig, cards[0]) + Pending(orig, cards[1..])
  }

  lemma {:induction false} PendingAppend(orig: seq<Card>, a: seq<Card>, b: seq<Card>)
    ensures Pending(orig, a + b) == Pending(orig, a) + Pending(orig, b)
  {
    if a == [] {
      assert a + b == b;
    } else {
      assert (a + b)[0] == a[0] && (a + b)[1..] == a[1..] + b;
      PendingAppend(orig, a[1..], b);
    }
  }

  /** With distinct ids, the cards of an original slice weigh what they produce. */
  lemma {:induction false} PendingSlice(orig: seq<Card>, lo: nat, hi: nat)
    requires DistinctIds(orig) && lo <= hi <= |orig|
    ensures Pending(orig, orig[lo..hi]) == SumProduced(orig, lo, hi)
    decreases hi - lo
  {
    if lo < hi {
      assert FirstWithId(orig, orig[lo].id) == Some(lo);
      assert orig[lo..hi][1..] == orig[lo + 1..hi];
      PendingSlice(orig, lo + 1, hi);
    }
  }

  /** Every original card is in the deck at least once. */
  lemma {:induction false} SumProducedAtLeast(orig: seq<Card>, lo: nat, hi: nat)
    requires lo <= hi <= |orig|
    ensures SumProduced(orig, lo, hi) >= hi - lo
    decreases hi - lo
  {
    if lo < hi {
      SumProducedAtLeast(orig, lo + 1, hi);
    }
  }

  /** Every card of `cards` is one of the originals. */
  ghost predicate CopiesOf(orig: seq<Card>, cards: seq<Card>) {
    forall c :: c in cards ==> c in orig
  }

  /** With distinct ids, a card of the deck is found by its id at its own place. */
  lemma {:induction false} FirstWithIdOfMember(orig: seq<Card>, card: Card) returns (k: nat)
    requires DistinctIds(orig) && card in orig
    ensures FirstWithId(orig, card.id) == Some(k) && k < |orig| && orig[k] == card
  {
    k := FirstWithId(orig, card.id).value;
    var j :| 0 <= j < |orig| && orig[j] == card;
    assert !(k < j) && !(j < k);
  }

  /** Scanning one card of the deck: `Pending` moves the card's weight into the count of
      scanned cards and its copies. */
  lemma {:induction false} ScanStep(orig: seq<Card>, cards: seq<Card>, index: nat)
    requires DistinctIds(orig) && index < |cards| && CopiesOf(orig, cards)
    ensures var card := cards[index];
      var added := After(orig, card.id, Matches(card));
      CopiesOf(orig, cards + added)
      && index + 1 + Pending(orig, (cards + added)[index + 1..]) == index + Pending(orig, cards[index..])
  {
    var card := cards[index];
    var k := FirstWithIdOfMember(orig, card);
    var added := After(orig, card.id, Matches(card));
    var hi := Reach(orig, k);
    assert added == orig[k + 1..hi];
    PendingSlice(orig, k + 1, hi);
    assert Weight(orig, card) == Produced(orig, k) == 1 + Pending(orig, added);
    assert (cards + added)[index + 1..] == cards[index + 1..] + added;
    PendingAppend(orig, cards[index + 1..], added);
    assert cards[index..][1..] == cards[index + 1..];
  }

  function ParseDeck(puzzle: string): Result<seq<Card>> {
    Seqs.TryMap(Text.Lines(Normalize(puzzle)), ParseCard)
  }

  /** The loop of `solve`: scan the deck until the scan catches up with its end. With the
      cards numbered apart, as in every puzzle input, the loop stops and the deck then holds
      the total the copying produces. */
  method Play(orig: seq<Card>) returns (n: nat)
    requires DistinctIds(orig)
    ensures n == Total(orig)
  {
    var deck := new Deck(orig);
    var index := 0;
    PendingSlice(orig, 0, |orig|);
    assert orig[0..|orig|] == orig;
    while index < deck.Len()
      invariant deck.originalCards == orig
      invariant index <= |deck.cards|
      invariant CopiesOf(orig, deck.cards)
      invariant index + Pending(orig, deck.cards[index..]) == Total(orig)
      decreases Total(orig) - index
    {
      var card := deck.At(index);
      var matches := |OwnWinningNumbers(card.winning, card.own)|;
      var next := deck.NextN(card.id, matches);
      ghost var before := deck.cards;
      deck.PutCards(next);
      ScanStep(orig, before, index);
      index := index + 1;
    }
    assert deck.cards[index..] == [];
    return deck.Len();
  }

  /** `solve`: parse the deck, the first bad card aborting, and play it. */
  method Solve(puzzle: string) returns (r: Result<nat>)
    requires ParseDeck(puzzle).Ok? ==> DistinctIds(ParseDeck(puzzle).value)
    ensures ParseDeck(puzzle).Err? ==> r == Err(ParseDeck(puzzle).msg)
    ensures ParseDeck(puzzle).Ok? ==> r == Ok(Total(ParseDeck(puzzle).value))
  {
    var parsed := ParseDeck(puzzle);
    if parsed.Err? {
      return Err(parsed.msg);
    }
    var n := Play(parsed.value);
    return Ok(n);
  }
}

/** The worked example of the day 4 puzzle. */
module ScratchcardsExamples {
  import opened Wrappers
  import opened Scratchcards

  function ExampleDeck(): seq<Card> {
    [Card(1, [41, 48, 83, 86, 17], [83, 86, 6, 31, 17, 9, 48, 53]),
     Card(2, [13, 32, 20, 16, 61], [61, 30, 68, 82, 17, 32, 24, 19]),
     Card(3, [1, 21, 53, 59, 44], [69, 82, 63, 72, 16, 21, 14, 1]),
     Card(4, [41, 92, 73, 84, 69], [59, 84, 76, 51, 58, 5, 54, 83]),
     Card(5, [87, 83, 26, 28, 32], [88, 30, 70, 12, 93, 22, 82, 36]),
     Card(6, [31, 18, 13, 56, 72], [74, 77, 10, 23, 35, 67, 36, 11])]
  }

  /** One winning number more adds one match exactly when the card holds it. */
  lemma {:induction false} MatchesCons(x: int, w: seq<int>, own: seq<int>)
    ensures |OwnWinningNumbers([x] + w, own)| == (if x in own then 1 else 0) + |OwnWinningNumbers(w, own)|
  {
    assert ([x] + w)[1..] == w;
  }

  /** The number of matches of five winning numbers, counted one number at a time. */
  lemma {:induction false} MatchesOfFive(a: int, b: int, c: int, d: int, e: int, own: seq<int>)
    ensures |OwnWinningNumbers([a, b, c, d, e], own)|
      == (if a in own then 1 else 0) + (if b in own then 1 else 0) + (if c in own then 1 else 0)
       + (if d in own then 1 else 0) + (if e in own then 1 else 0)
  {
    assert [a, b, c, d, e] == [a] + [b, c, d, e] && [b, c, d, e] == [b] + [c, d, e];
    assert [c, d, e] == [c] + [d, e] && [d, e] == [d] + [e] && [e] == [e] + [];
    MatchesCons(a, [b, c, d, e], own);
    MatchesCons(b, [c, d, e], own);
    MatchesCons(c, [d, e], own);
    MatchesCons(d, [e], own);
    MatchesCons(e, [], own);
  }

  function Held(x: int, own: seq<int>): nat {
    if x in own then 1 else 0
  }

  /** A card with five winning numbers has as many matches as it holds of them. */
  lemma {:induction false} MatchesOfCard(card: Card, a: int, b: int, c: int, d: int, e: int, n: nat)
    requires card.winning == [a, b, c, d, e]
    requires n == Held(a, card.own) + Held(b, card.own) + Held(c, card.own) + Held(d, card.own) + Held(e, card.own)
    ensures Matches(card) == n
  {
    MatchesOfFive(a, b, c, d, e, card.own);
  }

  /** The matching numbers of the six example cards: 4, 2, 2, 1, 0 and 0. */
  lemma {:induction false} Card1()
    ensures Matches(ExampleDeck()[0]) == 4
  {
    var own := [83, 86, 6, 31, 17, 9, 48, 53];
    assert ExampleDeck()[0].own == own;
    assert own[6] == 48 && own[0] == 83 && own[1] == 86 && own[4] == 17;
    MatchesOfCard(ExampleDeck()[0], 41, 48, 83, 86, 17, 4);
  }

  lemma {:induction false} Card2()
    ensures Matches(ExampleDeck()[1]) == 2
  {
    var own := [61, 30, 68, 82, 17, 32, 24, 19];
    assert ExampleDeck()[1].own == own;
    assert own[5] == 32 && own[0] == 61;
    MatchesOfCard(ExampleDeck()[1], 13, 32, 20, 16, 61, 2);
  }

  lemma {:induction false} Card3()
    ensures Matches(ExampleDeck()[2]) == 2
  {
    var own := [69, 82, 63, 72, 16, 21, 14, 1];
    assert ExampleDeck()[2].own == own;
    assert own[7] == 1 && own[5] == 21;
    MatchesOfCard(ExampleDeck()[2], 1, 21, 53, 59, 44, 2);
  }

  lemma {:induction false} Card4()
    ensures Matches(ExampleDeck()[3]) == 1
  {
    var own := [59, 84, 76, 51, 58, 5, 54, 83];
    assert ExampleDeck()[3].own == own;
    assert own[1] == 84;
    MatchesOfCard(ExampleDeck()[3], 41, 92, 73, 84, 69, 1);
  }

  lemma {:induction false} Card5()
    ensures Matches(ExampleDeck()[4]) == 0
  {
    MatchesOfCard(ExampleDeck()[4], 87, 83, 26, 28, 32, 0);
  }

  lemma {:induction false} Card6()
    ensures Matches(ExampleDeck()[5]) == 0
  {
    MatchesOfCard(ExampleDeck()[5], 31, 18, 13, 56, 72, 0);
  }

  /** `nextn(1, 2)` gives cards 2 and 3. */
  lemma {:induction false} NextTwoAfterFirst()
    ensures After(ExampleDeck(), 1, 2) == ExampleDeck()[1..3]
  {
    assert FirstWithId(ExampleDeck(), 1) == Some(0);
  }

  /** Six cards with 4, 2, 2, 1, 0 and 0 matches end as 15, 7, 4, 2, 1 and 1 cards. */
  lemma {:induction false} TotalOfMatches(d: seq<Card>)
    requires |d| == 6
    requires Matches(d[0]) == 4 && Matches(d[1]) == 2 && Matches(d[2]) == 2
    requires Matches(d[3]) == 1 && Matches(d[4]) == 0 && Matches(d[5]) == 0
    ensures Total(d) == 30
  {
    assert Reach(d, 5) == 6 && Reach(d, 4) == 5 && Reach(d, 3) == 5;
    assert Reach(d, 2) == 5 && Reach(d, 1) == 4 && Reach(d, 0) == 5;
    assert Produced(d, 5) == 1 && Produced(d, 4) == 1;
    assert Produced(d, 3) == 2;
    assert Produced(d, 2) == 4;
    assert SumProduced(d, 3, 4) == 2 && SumProduced(d, 2, 4) == 6;
    assert Produced(d, 1) == 7;
    assert SumProduced(d, 4, 5) == 1 && SumProduced(d, 3, 5) == 3;
    assert SumProduced(d, 2, 5) == 7 && SumProduced(d, 1, 5) == 14;
    assert Produced(d, 0) == 15;
    assert SumProduced(d, 5, 6) == 1;
    assert SumProduced(d, 4, 6) == 2;
    assert SumProduced(d, 3, 6) == 4;
    assert SumProduced(d, 2, 6) == 8;
    assert SumProduced(d, 1, 6) == 15;
  }

  /** The example deck ends with 30 cards. */
  lemma {:induction false} ExampleTotal()
    ensures Total(ExampleDeck()) == 30
  {
    Card1(); Card2(); Card3(); Card4(); Card5(); Card6();
    TotalOfMatches(ExampleDeck());
  }
}
