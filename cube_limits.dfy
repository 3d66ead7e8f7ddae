/** Which games fit in a bag of 12 red, 13 green and 14 blue cubes (src/bin/d2p1.rs). */
module CubeLimits {
  import opened Wrappers
  import Text
  import Seqs
  import opened GameRecords

  const RedLimit: nat := 12
  const GreenLimit: nat := 13
  const BlueLimit: nat := 14

  function Limit(colour: Colour): nat {
    match colour
    case Red => RedLimit
    case Green => GreenLimit
    case Blue => BlueLimit
  }

  /** A reading shows more cubes of its colour than the bag holds. */
  predicate Over(reading: (nat, Colour)) {
    reading.0 > Limit(reading.1)
  }

  /** `game.any(...)`: read the pieces in order and stop at the first one over its limit;
      pieces after it are never read, so they cannot panic. */
  function Impossible(pieces: seq<string>): Result<bool> {
    if pieces == [] then Ok(false)
    else
      var reading :- Reading(pieces[0]);
      if Over(reading) then Ok(true) else Impossible(pieces[1..])
  }

  /** Some piece reads, and shows more cubes than the bag holds. */
  ghost predicate AnyOver(pieces: seq<string>) {
    exists k :: 0 <= k < |pieces| && Reading(pieces[k]).Ok? && Over(Reading(pieces[k]).value)
  }

  /** When every piece reads, a game is impossible exactly when one of them is over its limit. */
  lemma {:induction false} ImpossibleIff(pieces: seq<string>)
    requires Seqs.AllOk(pieces, Reading)
    ensures Impossible(pieces) == Ok(AnyOver(pieces))
  {
    if pieces != [] {
      var rest := pieces[1..];
      assert forall k :: 0 <= k < |rest| ==> rest[k] == pieces[k + 1];
      ImpossibleIff(rest);
      if AnyOver(pieces) {
        var k :| 0 <= k < |pieces| && Reading(pieces[k]).Ok? && Over(Reading(pieces[k]).value);
        if k > 0 {
          assert rest[k - 1] == pieces[k];
        }
      }
      if AnyOver(rest) {
        var k :| 0 <= k < |rest| && Reading(rest[k]).Ok? && Over(Reading(rest[k]).value);
        assert rest[k] == pieces[k + 1];
      }
    }
  }

  /** The first piece over its limit settles the game, whatever follows it. */
  lemma {:induction false} StopsAtFirstOver(pieces: seq<string>, k: nat)
    requires k < |pieces|
    requires forall j :: 0 <= j < k ==> Reading(pieces[j]).Ok? && !Over(Reading(pieces[j]).value)
    requires Reading(pieces[k]).Ok? && Over(Reading(pieces[k]).value)
    ensures Impossible(pieces) == Ok(true)
  {
    if k > 0 {
      var rest := pieces[1..];
      assert forall j :: 0 <= j < k - 1 ==> rest[j] == pieces[j + 1];
      StopsAtFirstOver(rest, k - 1);
    }
  }

  /** A piece within its limit leaves the verdict to the pieces after it. */
  lemma {:induction false} PassOver(pieces: seq<string>)
    requires pieces != [] && Reading(pieces[0]).Ok? && !Over(Reading(pieces[0]).value)
    ensures Impossible(pieces) == Impossible(pieces[1..])
  {
  }

  /** The first token must be `game` and a number. */
  function GameId(game: seq<string>): (r: Result<nat>)
    ensures r.Ok? ==> game != [] && exists id :: Token(game[0]) == Ok(("game", id)) && Text.ParseNat(id) == Some(r.value)
  {
    if game == [] then Err("tried to read game id but no token to read")
    else
      var (tag, id) :- Token(game[0]);
      if tag == "game" then Expect(Text.ParseNat(id), "game id is not a number")
      else Err("expected first token to be a game token")
  }

  /** What a game adds to the answer: its id when it is possible, 0 otherwise. */
  function GameValue(game: seq<string>): Result<nat> {
    var id :- GameId(game);
    var impossible :- Impossible(game[1..]);
    Ok(if impossible then 0 else id)
  }

  /** A well-formed game adds its id exactly when no piece exceeds its colour's limit. */
  lemma {:induction false} GameValueMeaning(game: seq<string>)
    requires GameId(game).Ok? && Seqs.AllOk(game[1..], Reading)
    ensures GameValue(game) == Ok(if AnyOver(game[1..]) then 0 else GameId(game).value)
  {
    ImpossibleIff(game[1..]);
  }

  /** `solve`: the sum of the ids of the possible games; the first game that panics aborts. */
  function Solve(puzzle: string): (r: Result<int>)
    ensures r.Err? ==> exists k :: 0 <= k < |Pieces(Normalize(puzzle))| && GameValue(Pieces(Normalize(puzzle))[k]) == Err(r.msg)
    ensures r.Ok? <==> Seqs.AllOk(Pieces(Normalize(puzzle)), GameValue)
  {
    var games := Pieces(Normalize(puzzle));
    Seqs.TryMapOk(games, GameValue);
    var values := Seqs.TryMap(games, GameValue);
    if values.Err? then
      Seqs.TryMapErrorOfSome(games, GameValue);
      Err(values.msg)
    else Ok(Seqs.Sum(values.value))
  }
}

/** Worked games of the day 2 puzzle, part 1. */
module CubeLimitsExamples {
  import opened Wrappers
  import opened GameRecords
  import Text
  import opened CubeLimits

  /** The piece `game 1` names game 1. */
  lemma {:induction false} GameOne(game: seq<string>)
    requires |game| >= 1 && game[0] == "game 1"
    ensures GameId(game) == Ok(1)
  {
    Text.NoCharNotContained("game", ' ');
    assert "game" + " " + "1" == game[0];
    TokenOfPiece("game", "1");
    assert Text.ParseNat("1") == Some(1);
  }

  /** The piece `12 red` reads as twelve red cubes. */
  lemma {:induction false} TwelveRed()
    ensures Reading("12 red") == Ok((12, Red))
  {
    Text.NoCharNotContained("12", ' ');
    assert "12" + " " + "red" == "12 red";
    ReadingOfPiece("12", "red");
    Text.ParseShowNat(12);
    assert Text.ShowNat(12) == "12";
  }

  /** The piece `1 red` reads as one red cube. */
  lemma {:induction false} OneRed()
    ensures Reading("1 red") == Ok((1, Red))
  {
    Text.NoCharNotContained("1", ' ');
    assert "1" + " " + "red" == "1 red";
    ReadingOfPiece("1", "red");
    assert Text.ParseNat("1") == Some(1);
  }

  /** A limit is inclusive: twelve red cubes fit, so the game `Game 1: 12 red; 1 red`,
      normalized to the pieces `game 1`, `12 red` and `1 red`, adds its id 1. */
  lemma {:induction false} TwelveRedFit()
    ensures GameValue(["game 1", "12 red", "1 red"]) == Ok(1)
  {
    var game := ["game 1", "12 red", "1 red"];
    GameOne(game);
    TwelveRed();
    OneRed();
    var rest := game[1..];
    assert rest[0] == "12 red" && rest[1] == "1 red";
    TwelveThenOneRed(rest);
  }

  lemma {:induction false} TwelveThenOneRed(pieces: seq<string>)
    requires |pieces| == 2 && Reading(pieces[0]) == Ok((12, Red)) && Reading(pieces[1]) == Ok((1, Red))
    ensures Impossible(pieces) == Ok(false)
  {
    BothWithin(pieces);
  }

  /** Two pieces within their limits make a possible game. */
  lemma {:induction false} BothWithin(pieces: seq<string>)
    requires |pieces| == 2
    requires Reading(pieces[0]).Ok? && !Over(Reading(pieces[0]).value)
    requires Reading(pieces[1]).Ok? && !Over(Reading(pieces[1]).value)
    ensures Impossible(pieces) == Ok(false)
  {
    var last := pieces[1..];
    assert last[0] == pieces[1] && last[1..] == [];
    PassOver(pieces);
    PassOver(last);
  }

  /** Thirteen red cubes do not fit. */
  lemma {:induction false} ThirteenRedDoNotFit(game: seq<string>)
    requires |game| >= 2 && GameId(game).Ok? && Reading(game[1]) == Ok((13, Red))
    ensures GameValue(game) == Ok(0)
  {
    assert game[1..][0] == game[1];
  }
}
