/** The fewest cubes that make each game possible, and their power (src/bin/d2p2.rs). */
module CubeMaxima {
  import opened Wrappers
  import Seqs
  import opened GameRecords

  /** How many cubes of each colour a bag holds. */
  datatype Bag = Bag(red: nat, green: nat, blue: nat)

  function Get(bag: Bag, colour: Colour): nat {
    match colour
    case Red => bag.red
    case Green => bag.green
    case Blue => bag.blue
  }

  /** The most cubes of `colour` shown by any reading, or 0 when none shows that colour. */
  function MaxOf(readings: seq<(nat, Colour)>, colour: Colour): nat {
    if readings == [] then 0
    else
      var m := MaxOf(readings[..|readings| - 1], colour);
      var (count, c) := readings[|readings| - 1];
      if c == colour && count > m then count else m
  }

  /** The smallest bag that could have produced the readings. */
  function Fewest(readings: seq<(nat, Colour)>): Bag {
    Bag(MaxOf(readings, Red), MaxOf(readings, Green), MaxOf(readings, Blue))
  }

  /** The bag holds at least as many cubes of its colour as every reading shows. */
  ghost predicate Fits(readings: seq<(nat, Colour)>, bag: Bag) {
    forall k :: 0 <= k < |readings| ==> readings[k].0 <= Get(bag, readings[k].1)
  }

  /** `MaxOf` is the largest count shown for the colour: at least every count of that colour,
      and either one of them or 0. */
  lemma {:induction false} MaxOfSpec(readings: seq<(nat, Colour)>, colour: Colour)
    ensures forall k :: 0 <= k < |readings| && readings[k].1 == colour ==> readings[k].0 <= MaxOf(readings, colour)
    ensures MaxOf(readings, colour) == 0 || (MaxOf(readings, colour), colour) in readings
  {
    if readings != [] {
      var init := readings[..|readings| - 1];
      assert forall k :: 0 <= k < |init| ==> init[k] == readings[k];
      MaxOfSpec(init, colour);
      if MaxOf(init, colour) != 0 && MaxOf(readings, colour) == MaxOf(init, colour) {
        var k :| 0 <= k < |init| && init[k] == (MaxOf(init, colour), colour);
        assert readings[k] == init[k];
      }
    }
  }

  /** The fewest cubes are the least bag that fits the game: a bag fits exactly when it holds
      at least as many of every colour. */
  lemma {:induction false} FewestIsLeast(readings: seq<(nat, Colour)>, bag: Bag)
    ensures Fits(readings, Fewest(readings))
    ensures Fits(readings, bag) <==>
      Fewest(readings).red <= bag.red && Fewest(readings).green <= bag.green && Fewest(readings).blue <= bag.blue
  {
    MaxOfSpec(readings, Red);
    MaxOfSpec(readings, Green);
    MaxOfSpec(readings, Blue);
    var f := Fewest(readings);
    if Fits(readings, bag) {
      forall colour: Colour ensures Get(f, colour) <= Get(bag, colour) {
        if Get(f, colour) != 0 {
          var k :| 0 <= k < |readings| && readings[k] == (Get(f, colour), colour);
        }
      }
      assert Get(f, Red) <= Get(bag, Red) && Get(f, Green) <= Get(bag, Green) && Get(f, Blue) <= Get(bag, Blue);
    }
  }

  /** A game's power, the product of the three counts of its fewest cubes. */
  function BagPower(bag: Bag): nat {
    bag.red * bag.green * bag.blue
  }

  /** A colour no reading shows has no cube in the fewest bag, so the power is 0. */
  lemma {:induction false} MissingColour(readings: seq<(nat, Colour)>, colour: Colour)
    requires forall k :: 0 <= k < |readings| ==> readings[k].1 != colour
    ensures Get(Fewest(readings), colour) == 0 && BagPower(Fewest(readings)) == 0
  {
    MaxOfSpec(readings, colour);
  }

  /** The `for` loop over the pieces after the first: `min_red`, `min_green` and `min_blue`
      start at 0 and rise to every larger count of their colour; a piece that does not read
      panics. */
  method Minimums(pieces: seq<string>) returns (r: Result<Bag>)
    ensures Seqs.TryMap(pieces, Reading).Err? ==> r == Err(Seqs.TryMap(pieces, Reading).msg)
    ensures Seqs.TryMap(pieces, Reading).Ok? ==> r == Ok(Fewest(Seqs.TryMap(pieces, Reading).value))
  {
    var minRed, minGreen, minBlue := 0, 0, 0;
    ghost var seen: seq<(nat, Colour)> := [];
    for i := 0 to |pieces|
      invariant |seen| == i
      invariant Seqs.TryMap(pieces[..i], Reading) == Ok(seen)
      invariant Bag(minRed, minGreen, minBlue) == Fewest(seen)
    {
      var reading := Reading(pieces[i]);
      Seqs.TryMapStep(pieces, i, Reading);
      if reading.Err? {
        return Err(reading.msg);
      }
      var (count, colour) := reading.value;
      FewestSnoc(seen, (count, colour));
      seen := seen + [(count, colour)];
      match colour
      case Red =>
        if count > minRed {
          minRed := count;
        }
      case Green =>
        if count > minGreen {
          minGreen := count;
        }
      case Blue =>
        if count > minBlue {
          minBlue := count;
        }
    }
    assert pieces[..|pieces|] == pieces;
    return Ok(Bag(minRed, minGreen, minBlue));
  }

  /** One more reading raises the count of its colour to what it shows, if that is more. */
  lemma {:induction false} FewestSnoc(readings: seq<(nat, Colour)>, reading: (nat, Colour))
    ensures var (count, colour) := reading;
      forall c :: Get(Fewest(readings + [reading]), c) ==
        if c == colour && count > Get(Fewest(readings), c) then count else Get(Fewest(readings), c)
  {
    assert (readings + [reading])[..|readings|] == readings;
  }

  /** A game's power: its first piece must split (its value is not used), then the power of
      the fewest cubes for the pieces after it. */
  function Power(game: seq<string>): Result<nat> {
    if game == [] then Err("can not read game tokens")
    else
      var _ :- Token(game[0]);
      var readings :- Seqs.TryMap(game[1..], Reading);
      Ok(BagPower(Fewest(readings)))
  }

  /** The body of the `fold`: `game.next()`, the loop, and the product. */
  method GamePower(game: seq<string>) returns (r: Result<nat>)
    ensures r == Power(game)
  {
    if game == [] {
      return Err("can not read game tokens");
    }
    var first := Token(game[0]);
    if first.Err? {
      return Err(first.msg);
    }
    var bag := Minimums(game[1..]);
    if bag.Err? {
      return Err(bag.msg);
    }
    assert bag.value == Fewest(Seqs.TryMap(game[1..], Reading).value);
    r := Ok(BagPower(bag.value));
  }

  /** `solve`: the sum of the powers of the games; the first game that panics aborts. */
  function Solve(puzzle: string): (r: Result<int>)
    ensures r.Err? ==> exists k :: 0 <= k < |Pieces(Normalize(puzzle))| && Power(Pieces(Normalize(puzzle))[k]) == Err(r.msg)
    ensures r.Ok? <==> Seqs.AllOk(Pieces(Normalize(puzzle)), Power)
  {
    var games := Pieces(Normalize(puzzle));
    Seqs.TryMapOk(games, Power);
    var powers := Seqs.TryMap(games, Power);
    if powers.Err? then
      Seqs.TryMapErrorOfSome(games, Power);
      Err(powers.msg)
    else Ok(Seqs.Sum(powers.value))
  }
}

/** The first game of the day 2 example, part 2. */
module CubeMaximaExamples {
  import opened GameRecords
  import opened CubeMaxima

  const FirstReadings: seq<(nat, Colour)> := [(3, Blue), (4, Red), (1, Red), (2, Green), (6, Blue), (2, Green)]

  lemma {:induction false} FirstGameRed()
    ensures MaxOf(FirstReadings, Red) == 4
  {
    assert [(3, Blue)][..0] == [];
    assert MaxOf([(3, Blue)], Red) == 0;
    assert [(3, Blue), (4, Red)][..1] == [(3, Blue)];
    assert MaxOf([(3, Blue), (4, Red)], Red) == 4;
    assert [(3, Blue), (4, Red), (1, Red)][..2] == [(3, Blue), (4, Red)];
    assert MaxOf([(3, Blue), (4, Red), (1, Red)], Red) == 4;
    assert [(3, Blue), (4, Red), (1, Red), (2, Green)][..3] == [(3, Blue), (4, Red), (1, Red)];
    assert MaxOf([(3, Blue), (4, Red), (1, Red), (2, Green)], Red) == 4;
    assert [(3, Blue), (4, Red), (1, Red), (2, Green), (6, Blue)][..4] == [(3, Blue), (4, Red), (1, Red), (2, Green)];
    assert MaxOf([(3, Blue), (4, Red), (1, Red), (2, Green), (6, Blue)], Red) == 4;
    assert FirstReadings[..5] == [(3, Blue), (4, Red), (1, Red), (2, Green), (6, Blue)];
    assert MaxOf(FirstReadings, Red) == 4;
  }

  lemma {:induction false} FirstGameGreen()
    ensures MaxOf(FirstReadings, Green) == 2
  {
    assert [(3, Blue)][..0] == [];
    assert MaxOf([(3, Blue)], Green) == 0;
    assert [(3, Blue), (4, Red)][..1] == [(3, Blue)];
    assert MaxOf([(3, Blue), (4, Red)], Green) == 0;
    assert [(3, Blue), (4, Red), (1, Red)][..2] == [(3, Blue), (4, Red)];
    assert MaxOf([(3, Blue), (4, Red), (1, Red)], Green) == 0;
    assert [(3, Blue), (4, Red), (1, Red), (2, Green)][..3] == [(3, Blue), (4, Red), (1, Red)];
    assert MaxOf([(3, Blue), (4, Red), (1, Red), (2, Green)], Green) == 2;
    assert [(3, Blue), (4, Red), (1, Red), (2, Green), (6, Blue)][..4] == [(3, Blue), (4, Red), (1, Red), (2, Green)];
    assert MaxOf([(3, Blue), (4, Red), (1, Red), (2, Green), (6, Blue)], Green) == 2;
    assert FirstReadings[..5] == [(3, Blue), (4, Red), (1, Red), (2, Green), (6, Blue)];
    assert MaxOf(FirstReadings, Green) == 2;
  }

  lemma {:induction false} FirstGameBlue()
    ensures MaxOf(FirstReadings, Blue) == 6
  {
    assert [(3, Blue)][..0] == [];
    assert MaxOf([(3, Blue)], Blue) == 3;
    assert [(3, Blue), (4, Red)][..1] == [(3, Blue)];
    assert MaxOf([(3, Blue), (4, Red)], Blue) == 3;
    assert [(3, Blue), (4, Red), (1, Red)][..2] == [(3, Blue), (4, Red)];
    assert MaxOf([(3, Blue), (4, Red), (1, Red)], Blue) == 3;
    assert [(3, Blue), (4, Red), (1, Red), (2, Green)][..3] == [(3, Blue), (4, Red), (1, Red)];
    assert MaxOf([(3, Blue), (4, Red), (1, Red), (2, Green)], Blue) == 3;
    assert [(3, Blue), (4, Red), (1, Red), (2, Green), (6, Blue)][..4] == [(3, Blue), (4, Red), (1, Red), (2, Green)];
    assert MaxOf([(3, Blue), (4, Red), (1, Red), (2, Green), (6, Blue)], Blue) == 6;
    assert FirstReadings[..5] == [(3, Blue), (4, Red), (1, Red), (2, Green), (6, Blue)];
    assert MaxOf(FirstReadings, Blue) == 6;
  }

  /** `3 blue, 4 red; 1 red, 2 green, 6 blue; 2 green` needs 4 red, 2 green and 6 blue cubes:
      power 48. */
  lemma {:induction false} FirstGame()
    ensures Fewest(FirstReadings) == Bag(4, 2, 6)
    ensures BagPower(Fewest(FirstReadings)) == 48
  {
    FirstGameRed();
    FirstGameGreen();
    FirstGameBlue();
  }
}
