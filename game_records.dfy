/** What the two cube game solvers (src/bin/d2p1.rs and src/bin/d2p2.rs) share: the puzzle is
    normalized to one game per line, each a comma-separated list of `count colour` pieces
    after a leading `game id` piece; every piece is split at its first space, lazily, as the
    solver reads it. */
module GameRecords {
  import opened Wrappers
  import Text
  import Seqs

  /** `normalize`: trim, lowercase, turn `:` and `;` into `,`, then drop the space after
      every comma. */
  function Normalize(puzzle: string): string {
    Text.Replace(Text.ReplaceChars(Text.Lowercase(Text.Trim(puzzle)), {':', ';'}, ","), ", ", ",")
  }

  /** A normalized puzzle has no upper-case letter, no `:` and no `;`. */
  lemma {:induction false} NormalizeShape(puzzle: string)
    ensures forall c :: c in Normalize(puzzle) ==> !('A' <= c <= 'Z') && c != ':' && c != ';'
  {
    var lower := Text.Lowercase(Text.Trim(puzzle));
    LowercaseShape(Text.Trim(puzzle));
    CommasShape(lower);
    SpacesShape(Text.ReplaceChars(lower, {':', ';'}, ","));
  }

  /** Lowercasing leaves no upper-case letter. */
  lemma {:induction false} LowercaseShape(s: string)
    ensures forall c :: c in Text.Lowercase(s) ==> !('A' <= c <= 'Z')
  {
    var lower := Text.Lowercase(s);
    forall c | c in lower ensures !('A' <= c <= 'Z') {
      var k :| 0 <= k < |lower| && lower[k] == c;
    }
  }

  /** Turning `:` and `;` into `,` in a text without upper-case letters leaves none of the three. */
  lemma {:induction false} CommasShape(lower: string)
    requires forall c :: c in lower ==> !('A' <= c <= 'Z')
    ensures forall c :: c in Text.ReplaceChars(lower, {':', ';'}, ",") ==> !('A' <= c <= 'Z') && c != ':' && c != ';'
  {
    Text.ReplaceCharsKeeps(lower, {':', ';'}, ",");
  }

  /** Dropping the space after each comma brings in no upper-case letter, `:` or `;`. */
  lemma {:induction false} SpacesShape(commas: string)
    requires forall c :: c in commas ==> !('A' <= c <= 'Z') && c != ':' && c != ';'
    ensures forall c :: c in Text.Replace(commas, ", ", ",") ==> !('A' <= c <= 'Z') && c != ':' && c != ';'
  {
    Text.ReplaceKeepsChars(commas, ", ", ",");
  }

  /** The pieces of every game: its line split at every comma. */
  function Pieces(normalized: string): (r: seq<seq<string>>)
    ensures |r| == |Text.Lines(normalized)|
    ensures forall k :: 0 <= k < |r| ==> |r[k]| >= 1 && Text.Join(r[k], ",") == Text.Lines(normalized)[k]
  {
    var lines := Text.Lines(normalized);
    seq(|lines|, k requires 0 <= k < |lines| => Text.Split(lines[k], ","))
  }

  /** `s.split_once(' ').expect(...)`: a piece split at its first space. */
  function Token(piece: string): (r: Result<(string, string)>)
    ensures r.Ok? <==> Text.Contains(piece, " ")
    ensures r.Ok? ==> r.value.0 + " " + r.value.1 == piece && !Text.Contains(r.value.0, " ")
    ensures r.Err? ==> r.msg == "no space character while tokenizing"
  {
    Expect(Text.SplitOnce(piece, " "), "no space character while tokenizing")
  }

  /** `tokenize` with every game collected: the first piece without a space panics. */
  function Tokenize(normalized: string): Result<seq<seq<(string, string)>>> {
    Seqs.TryMap(Pieces(normalized), (game: seq<string>) => Seqs.TryMap(game, Token))
  }

  /** The tokens of a game, when all of them split, rebuild its pieces. */
  lemma {:induction false} TokenizeGame(game: seq<string>)
    ensures Seqs.TryMap(game, Token).Ok? <==> forall k :: 0 <= k < |game| ==> Text.Contains(game[k], " ")
    ensures Seqs.TryMap(game, Token).Ok? ==> var tokens := Seqs.TryMap(game, Token).value;
      |tokens| == |game| && forall k :: 0 <= k < |game| ==> tokens[k].0 + " " + tokens[k].1 == game[k]
  {
    Seqs.TryMapOk(game, Token);
  }

  /** The colours and their order in a game power. */
  datatype Colour = Red | Green | Blue

  function ColourOf(name: string): Result<Colour> {
    match name
    case "red" => Ok(Red)
    case "green" => Ok(Green)
    case "blue" => Ok(Blue)
    case _ => Err("unexpected color")
  }

  /** One `count colour` piece, read as the solvers do: split it, parse the count as a `u32`,
      then match the colour; each step panics with its own message. */
  function Reading(piece: string): Result<(nat, Colour)> {
    var (count, name) :- Token(piece);
    var n :- Expect(Text.ParseNat(count), "subset count is not a number");
    var colour :- ColourOf(name);
    Ok((n, colour))
  }

  /** Splitting at the first space finds the count again when the count holds no space. */
  lemma {:induction false} TokenOfPiece(count: string, name: string)
    requires !Text.Contains(count, " ")
    ensures Token(count + " " + name) == Ok((count, name))
  {
    var piece := count + " " + name;
    assert Text.OccursAt(piece, " ", |count|);
    var t := Token(piece);
    var (c, n) := t.value;
    assert c + " " + n == piece && !Text.Contains(c, " ");
    assert !Text.OccursAt(count, " ", |c|) && !Text.OccursAt(c, " ", |count|);
    assert c == piece[..|c|] == count;
    assert n == piece[|c| + 1..] == name;
  }

  /** A piece written as a count, a space and a colour name reads back as that count and
      colour; a count that is not a number, or an unknown colour, fails with its message. */
  lemma {:induction false} ReadingOfPiece(count: string, name: string)
    requires !Text.Contains(count, " ")
    ensures Text.ParseNat(count).None? ==> Reading(count + " " + name) == Err("subset count is not a number")
    ensures Text.ParseNat(count).Some? ==> (Reading(count + " " + name) ==
      if name == "red" then Ok((Text.ParseNat(count).value, Red))
      else if name == "green" then Ok((Text.ParseNat(count).value, Green))
      else if name == "blue" then Ok((Text.ParseNat(count).value, Blue))
      else Err("unexpected color"))
  {
    TokenOfPiece(count, name);
  }
}
