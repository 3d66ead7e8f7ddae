/** What the two camel card solvers (src/bin/d7p1.rs and src/bin/d7p2.rs) share: a hand of
    re-encoded cards with its bid, card frequencies, the order "kind power first, then the
    encoded cards", and the rank-weighted sum of the bids. */
module CamelCards {
  import opened Wrappers
  import Text
  import Seqs
  import opened Sorting

  /** A hand: its cards, re-encoded so that character order is card strength, and its bid. */
  datatype Hand = Hand(cards: string, bid: int)

  /** `encode_cards`: the encoding applied to every card. */
  function EncodeCards(cards: string, encode: char -> char): (r: string)
    ensures |r| == |cards| && forall k :: 0 <= k < |cards| ==> r[k] == encode(cards[k])
  {
    if cards == [] then [] else [encode(cards[0])] + EncodeCards(cards[1..], encode)
  }

  /** `Hand::parse`: the cards before the first space, the bid after it. */
  function ParseHand(line: string, encode: char -> char): Result<Hand> {
    var (cards, bid) :- Expect(Text.SplitOnce(line, " "), "could not split hand in two");
    var bid :- Expect(Text.ParseInt(bid), "bid is not a number");
    Ok(Hand(EncodeCards(cards, encode), bid))
  }

  /** A hand parses exactly when the line has a space and a number after the first one. */
  lemma {:induction false} ParseHandShape(line: string, encode: char -> char)
    ensures !Text.Contains(line, " ") ==> ParseHand(line, encode) == Err("could not split hand in two")
    ensures Text.Contains(line, " ") ==>
      var (cards, bid) := Text.SplitOnce(line, " ").value;
      && cards + " " + bid == line && !Text.Contains(cards, " ")
      && (Text.ParseInt(bid).None? ==> ParseHand(line, encode) == Err("bid is not a number"))
      && (Text.ParseInt(bid).Some? ==>
            ParseHand(line, encode) == Ok(Hand(EncodeCards(cards, encode), Text.ParseInt(bid).value)))
  {
  }

  /** `puzzle.trim().lines().map(Hand::parse)`, the first bad line aborting. */
  function ParseHands(puzzle: string, encode: char -> char): Result<seq<Hand>> {
    Seqs.TryMap(Text.Lines(Text.Trim(puzzle)), (line: string) => ParseHand(line, encode))
  }

  /** How often `c` occurs among the cards. */
  function Count(cards: string, c: char): nat {
    multiset(cards)[c]
  }

  /** The frequency map the `for` loop of `kind_power` fills. */
  function Freq(cards: string): map<char, nat> {
    map c | c in cards :: Count(cards, c)
  }

  lemma {:induction false} FreqSnoc(cards: string, c: char)
    ensures Freq(cards + [c]) == Freq(cards)[c := (if c in Freq(cards) then Freq(cards)[c] else 0) + 1]
  {
    var longer := cards + [c];
    assert multiset(longer) == multiset(cards) + multiset{c};
    assert forall d :: d in longer <==> d in cards || d == c;
  }

  /** `*freq.entry(c).or_insert(0) += 1` for every card. */
  method Tally(cards: string) returns (freq: map<char, nat>)
    ensures freq == Freq(cards)
  {
    freq := map[];
    for i := 0 to |cards|
      invariant freq == Freq(cards[..i])
    {
      var c := cards[i];
      FreqSnoc(cards[..i], c);
      assert cards[..i + 1] == cards[..i] + [c];
      freq := freq[c := (if c in freq then freq[c] else 0) + 1];
    }
    assert cards[..|cards|] == cards;
  }

  /** The different cards of a hand, each once. */
  function Distinct(cards: string): string {
    if cards == [] then []
    else if cards[0] in cards[1..] then Distinct(cards[1..])
    else [cards[0]] + Distinct(cards[1..])
  }

  /** `Distinct` lists every card of the hand, and each only once. */
  lemma {:induction false} DistinctSpec(cards: string)
    ensures forall c :: c in Distinct(cards) <==> c in cards
    ensures forall i, j :: 0 <= i < j < |Distinct(cards)| ==> Distinct(cards)[i] != Distinct(cards)[j]
  {
    if cards != [] {
      DistinctSpec(cards[1..]);
    }
  }

  /** The count of each of `keys`, in order. */
  function CountsOf(cards: string, keys: string): seq<nat> {
    if keys == [] then [] else [Count(cards, keys[0])] + CountsOf(cards, keys[1..])
  }

  /** `freq.values()`: one count per different card (in the order of `Distinct`; the
      hash map's own order is not modelled, and every use below is independent of it). */
  function Counts(cards: string): seq<nat> {
    CountsOf(cards, Distinct(cards))
  }

  lemma {:induction false} CountsOfSpec(cards: string, keys: string)
    ensures |CountsOf(cards, keys)| == |keys|
    ensures forall k :: 0 <= k < |keys| ==> CountsOf(cards, keys)[k] == Count(cards, keys[k])
  {
    if keys != [] {
      CountsOfSpec(cards, keys[1..]);
    }
  }

  /** The counts are one per different card, each that card's count, none of them 0. */
  lemma {:induction false} CountsSpec(cards: string)
    ensures |Counts(cards)| == |Distinct(cards)|
    ensures forall k :: 0 <= k < |Counts(cards)| ==> Counts(cards)[k] == Count(cards, Distinct(cards)[k]) > 0
  {
    var d := Distinct(cards);
    DistinctSpec(cards);
    CountsOfSpec(cards, d);
    forall k | 0 <= k < |d| ensures Count(cards, d[k]) > 0 {
      assert d[k] in d;
      assert d[k] in multiset(cards);
    }
  }

  /** The counts are those of the cards of the hand. */
  lemma {:induction false} CountsOfCards(cards: string)
    ensures forall c :: c in cards ==> Count(cards, c) in Counts(cards)
    ensures forall x :: x in Counts(cards) ==> exists c :: c in cards && Count(cards, c) == x
  {
    var d := Distinct(cards);
    var counts := Counts(cards);
    DistinctSpec(cards);
    CountsSpec(cards);
    forall c | c in cards ensures Count(cards, c) in counts {
      var k :| 0 <= k < |d| && d[k] == c;
      assert counts[k] == Count(cards, c);
    }
    forall x | x in counts ensures exists c :: c in cards && Count(cards, c) == x {
      var k :| 0 <= k < |counts| && counts[k] == x;
      assert d[k] in d;
    }
  }

  /** The counts of a hand with cards are positive, and their largest is the count of a most
      frequent card. */
  lemma {:induction false} LargestCount(cards: string)
    requires cards != []
    ensures Counts(cards) != [] && forall k :: 0 <= k < |Counts(cards)| ==> Counts(cards)[k] > 0
    ensures exists c :: c in cards && Count(cards, c) == Largest(Counts(cards))
    ensures forall c :: c in cards ==> Count(cards, c) <= Largest(Counts(cards))
  {
    DistinctSpec(cards);
    CountsSpec(cards);
    CountsOfCards(cards);
    assert cards[0] in Distinct(cards);
    assert Largest(Counts(cards)) in Counts(cards);
  }

  /** The values of a frequency map, read in the order of `keys`. */
  function ValuesOf(freq: map<char, nat>, keys: string): (r: seq<nat>)
    requires forall c :: c in keys ==> c in freq
    ensures |r| == |keys| && forall k :: 0 <= k < |keys| ==> r[k] == freq[keys[k]]
  {
    seq(|keys|, k requires 0 <= k < |keys| => freq[keys[k]])
  }

  /** Read over the different cards, the tallied frequencies are the counts. */
  lemma {:induction false} ValuesOfFreq(cards: string)
    ensures forall c :: c in Distinct(cards) ==> c in Freq(cards)
    ensures ValuesOf(Freq(cards), Distinct(cards)) == Counts(cards)
  {
    DistinctSpec(cards);
    CountsSpec(cards);
  }

  /** The largest of some counts, 0 when there are none. */
  function Largest(xs: seq<nat>): (r: nat)
    ensures forall k :: 0 <= k < |xs| ==> xs[k] <= r
    ensures xs != [] ==> r in xs
    ensures xs == [] ==> r == 0
  {
    if xs == [] then 0
    else
      var m := Largest(xs[1..]);
      assert forall k :: 1 <= k < |xs| ==> xs[k] == xs[1..][k - 1];
      if xs[0] >= m then xs[0] else m
  }

  /** `xs` with one occurrence of `x` taken out. */
  function RemoveOne(xs: seq<nat>, x: nat): (r: seq<nat>)
    ensures multiset(r) == multiset(xs) - multiset{x}
  {
    if xs == [] then []
    else if xs[0] == x then
      assert xs == [xs[0]] + xs[1..];
      xs[1..]
    else
      assert xs == [xs[0]] + xs[1..];
      [xs[0]] + RemoveOne(xs[1..], x)
  }

  /** The second entry of the counts sorted from largest down (0 when there is none):
      equal to the largest when the largest count occurs twice. */
  function SecondLargest(xs: seq<nat>): nat {
    Largest(RemoveOne(xs, Largest(xs)))
  }

  /** The second largest of positive counts equals the largest exactly when the largest
      occurs twice or more. */
  lemma {:induction false} SecondLargestTies(xs: seq<nat>)
    requires xs != [] && forall k :: 0 <= k < |xs| ==> xs[k] > 0
    ensures SecondLargest(xs) <= Largest(xs)
    ensures SecondLargest(xs) == Largest(xs) <==> multiset(xs)[Largest(xs)] >= 2
  {
    var m := Largest(xs);
    var rest := RemoveOne(xs, m);
    forall x | x in rest ensures x in xs && 0 < x <= m {
      assert x in multiset(rest);
    }
    if rest != [] {
      assert Largest(rest) in rest;
    }
    if multiset(xs)[m] >= 2 {
      assert m in multiset(rest);
    }
  }

  /** A value occurs twice or more in a sequence exactly when two positions hold it. */
  lemma {:induction false} TwiceIn(xs: seq<nat>, v: nat)
    ensures multiset(xs)[v] >= 2 <==> exists i, j :: 0 <= i < j < |xs| && xs[i] == v && xs[j] == v
  {
    if xs != [] {
      var t := xs[1..];
      TwiceIn(t, v);
      assert xs == [xs[0]] + t;
      assert multiset(xs)[v] == (if xs[0] == v then 1 else 0) + multiset(t)[v];
      if exists i, j :: 0 <= i < j < |xs| && xs[i] == v && xs[j] == v {
        var i, j :| 0 <= i < j < |xs| && xs[i] == v && xs[j] == v;
        if i > 0 {
          assert t[i - 1] == v && t[j - 1] == v;
        } else {
          assert t[j - 1] == v;
          assert v in multiset(t);
        }
      }
      if multiset(t)[v] >= 2 {
        var i, j :| 0 <= i < j < |t| && t[i] == v && t[j] == v;
        assert xs[i + 1] == v && xs[j + 1] == v;
      } else if xs[0] == v && multiset(t)[v] >= 1 {
        assert v in t;
        var j :| 0 <= j < |t| && t[j] == v;
        assert xs[j + 1] == v;
      }
    }
  }

  /** The largest count does not depend on the order the counts come in. */
  lemma {:induction false} LargestPermutation(xs: seq<nat>, ys: seq<nat>)
    requires multiset(xs) == multiset(ys)
    ensures Largest(xs) == Largest(ys)
  {
    if xs != [] {
      assert |ys| == |multiset(ys)| == |xs|;
      var a := Largest(xs);
      var b := Largest(ys);
      assert a in multiset(ys) && b in multiset(xs);
      var i :| 0 <= i < |ys| && ys[i] == a;
      var j :| 0 <= j < |xs| && xs[j] == b;
    } else {
      assert |ys| == |multiset(ys)| == 0;
    }
  }

  /** Neither does the second largest. */
  lemma {:induction false} SecondLargestPermutation(xs: seq<nat>, ys: seq<nat>)
    requires multiset(xs) == multiset(ys)
    ensures SecondLargest(xs) == SecondLargest(ys)
  {
    LargestPermutation(xs, ys);
    LargestPermutation(RemoveOne(xs, Largest(xs)), RemoveOne(ys, Largest(ys)));
  }

  /** Counts sorted from largest down start with the largest and the second largest. */
  lemma {:induction false} SortedDescendingTop(s: seq<nat>, xs: seq<nat>)
    requires Sorted(s, AtLeast) && multiset(s) == multiset(xs)
    ensures s != [] ==> s[0] == Largest(xs)
    ensures |s| > 1 ==> s[1] == SecondLargest(xs)
  {
    if s != [] {
      SortedPairwise(s, AtLeast);
      assert s[0] == Largest(s) by {
        assert forall k :: 0 < k < |s| ==> s[0] >= s[k];
      }
      LargestPermutation(s, xs);
      if |s| > 1 {
        SortedTail(s, AtLeast);
        SortedPairwise(s[1..], AtLeast);
        var t := s[1..];
        assert t[0] == Largest(t) by {
          assert forall k :: 0 < k < |t| ==> t[0] >= t[k];
        }
        TailMultiset(s);
        LargestPermutation(t, RemoveOne(xs, Largest(xs)));
      }
    }
  }

  /** `b.cmp(a)` as a relation: counts from largest down. */
  predicate AtLeast(a: nat, b: nat) {
    a >= b
  }

  /** Kind power from the counts sorted from largest down: ten times the first (raised by
      `wild` wild cards) plus the second. */
  function TopTwoPower(counts: seq<nat>, wild: nat): nat {
    (Largest(counts) + wild) * 10 + SecondLargest(counts)
  }

  /** `Vec<char>`'s order: the first differing card decides, and a proper prefix comes first. */
  predicate LexLe(a: string, b: string) {
    a == [] || (b != [] && (a[0] < b[0] || (a[0] == b[0] && LexLe(a[1..], b[1..]))))
  }

  lemma {:induction false} LexLeTotal(a: string, b: string)
    ensures LexLe(a, b) || LexLe(b, a)
  {
    if a != [] && b != [] && a[0] == b[0] {
      LexLeTotal(a[1..], b[1..]);
    }
  }

  lemma {:induction false} LexLeTransitive(a: string, b: string, c: string)
    requires LexLe(a, b) && LexLe(b, c)
    ensures LexLe(a, c)
  {
    if a != [] && b != [] && c != [] && a[0] == b[0] && b[0] == c[0] {
      LexLeTransitive(a[1..], b[1..], c[1..]);
    }
  }

  lemma {:induction false} LexLeAntisymmetric(a: string, b: string)
    requires LexLe(a, b) && LexLe(b, a)
    ensures a == b
  {
    if a != [] && b != [] {
      LexLeAntisymmetric(a[1..], b[1..]);
      assert a == [a[0]] + a[1..] && b == [b[0]] + b[1..];
    }
  }

  /** The comparator of `sort_by`: kind power first, then the encoded cards. */
  function ByPower(power: string -> nat): (Hand, Hand) -> bool {
    (h1: Hand, h2: Hand) =>
      power(h1.cards) < power(h2.cards) || (power(h1.cards) == power(h2.cards) && LexLe(h1.cards, h2.cards))
  }

  /** It is a total order on hands, and hands it cannot tell apart have the same cards. */
  lemma {:induction false} ByPowerOrder(power: string -> nat)
    ensures Total(ByPower(power)) && Transitive(ByPower(power))
    ensures forall h1, h2 :: ByPower(power)(h1, h2) && ByPower(power)(h2, h1) ==> h1.cards == h2.cards
  {
    var le := ByPower(power);
    forall h1, h2 ensures le(h1, h2) || le(h2, h1) {
      LexLeTotal(h1.cards, h2.cards);
    }
    forall h1, h2, h3 | le(h1, h2) && le(h2, h3) ensures le(h1, h3) {
      if power(h1.cards) == power(h2.cards) == power(h3.cards) {
        LexLeTransitive(h1.cards, h2.cards, h3.cards);
      }
    }
    forall h1, h2 | le(h1, h2) && le(h2, h1) ensures h1.cards == h2.cards {
      LexLeAntisymmetric(h1.cards, h2.cards);
    }
  }

  /** The hands in rank order: sorted by the comparator, and the same hands. */
  ghost predicate IsRanking(ranked: seq<Hand>, hands: seq<Hand>, power: string -> nat) {
    Sorted(ranked, ByPower(power)) && multiset(ranked) == multiset(hands)
  }

  /** The sum of rank times bid, rank 1 for the first hand. */
  function Winnings(ranked: seq<Hand>): int {
    if ranked == [] then 0 else Winnings(ranked[..|ranked| - 1]) + |ranked| * ranked[|ranked| - 1].bid
  }

  predicate DistinctCards(hands: seq<Hand>) {
    forall i, j :: 0 <= i < j < |hands| ==> hands[i].cards != hands[j].cards
  }

  /** When no two hands hold the same cards there is one ranking, so one answer. */
  lemma {:induction false} RankingUnique(r1: seq<Hand>, r2: seq<Hand>, hands: seq<Hand>, power: string -> nat)
    requires DistinctCards(hands) && IsRanking(r1, hands, power) && IsRanking(r2, hands, power)
    ensures r1 == r2
  {
    ByPowerOrder(power);
    forall x, y | x in r1 && y in r1 && ByPower(power)(x, y) && ByPower(power)(y, x) ensures x == y {
      assert x in multiset(hands) && y in multiset(hands);
      var i :| 0 <= i < |hands| && hands[i] == x;
      var j :| 0 <= j < |hands| && hands[j] == y;
      assert !(i < j) && !(j < i);
    }
    SortedUnique(r1, r2, ByPower(power));
  }

  /** The end of `solve`: sort the hands in place and sum rank times bid. */
  method Score(hands: seq<Hand>, power: string -> nat) returns (total: int)
    ensures exists ranked :: IsRanking(ranked, hands, power) && total == Winnings(ranked)
  {
    var a := new Hand[|hands|](i requires 0 <= i < |hands| => hands[i]);
    assert a[..] == hands;
    ByPowerOrder(power);
    InsertionSort(a, ByPower(power));
    total := Winnings(a[..]);
    assert IsRanking(a[..], hands, power);
  }
}
