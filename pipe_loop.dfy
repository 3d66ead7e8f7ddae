/** The pipe-loop tracer (src/bin/d10p1.rs): a grid of pipe symbols becomes a map from
    coordinates to tiles; starting from the `S` tile the single loop is walked, growing a set
    of visited coordinates, and the answer is half the size of that set (the distance to the
    farthest point of the loop). */
module PipeLoop {
  import opened Wrappers
  import opened Text

  /** A grid coordinate: `x` is the column, `y` the row (rows grow downwards). */
  datatype Pos = Pos(x: int, y: int) {
    function Up(): Pos { Pos(x, y - 1) }
    function Down(): Pos { Pos(x, y + 1) }
    function Left(): Pos { Pos(x - 1, y) }
    function Right(): Pos { Pos(x + 1, y) }

    /** The four orthogonal neighbours, in the order up, down, left, right. */
    function Neighbors(): (ns: seq<Pos>)
      ensures |ns| == 4 && ns[0] == Up() && ns[1] == Down() && ns[2] == Left() && ns[3] == Right()
    {
      [Up(), Down(), Left(), Right()]
    }
  }

  function Abs(n: int): nat { if n < 0 then -n else n }

  function Manhattan(p: Pos, q: Pos): nat {
    Abs(p.x - q.x) + Abs(p.y - q.y)
  }

  /** Each unit step changes exactly one coordinate by one; up/down and left/right undo each
      other; and the neighbours are exactly the four positions at distance one, all distinct. */
  lemma {:induction false} NeighborsAreUnitSteps(p: Pos)
    ensures p.Up().Down() == p && p.Down().Up() == p && p.Left().Right() == p && p.Right().Left() == p
    ensures forall q :: q in p.Neighbors() <==> Manhattan(p, q) == 1
    ensures forall i, j :: 0 <= i < j < 4 ==> p.Neighbors()[i] != p.Neighbors()[j]
  {
    forall q ensures q in p.Neighbors() <==> Manhattan(p, q) == 1 {
      if Manhattan(p, q) == 1 {
        if q.x == p.x {
          assert q.y == p.y - 1 || q.y == p.y + 1;
        } else {
          assert q.y == p.y;
          assert q.x == p.x - 1 || q.x == p.x + 1;
        }
      }
    }
  }

  /** One character of the grid with the two coordinates it connects to. */
  datatype Tile = Tile(pos: Pos, connections: (Pos, Pos), raw: char)

  predicate IsPipe(c: char) {
    c == '|' || c == '-' || c == 'L' || c == 'J' || c == '7' || c == 'F'
  }

  /** `Tile::from`: a pipe connects two distinct neighbours of its own position; any other
      symbol, the start marker `S` and ground `.` included, gets the degenerate pair. */
  function TileFrom(raw: char, x: int, y: int): (t: Tile)
    ensures t.pos == Pos(x, y) && t.raw == raw
    ensures IsPipe(raw) ==> t.connections.0 != t.connections.1
    ensures IsPipe(raw) ==> t.connections.0 in t.pos.Neighbors() && t.connections.1 in t.pos.Neighbors()
    ensures !IsPipe(raw) ==> t.connections == (t.pos, t.pos)
  {
    var pos := Pos(x, y);
    var connections :=
      match raw
      case '|' => (pos.Down(), pos.Up())
      case '-' => (pos.Left(), pos.Right())
      case 'L' => (pos.Up(), pos.Right())
      case 'J' => (pos.Up(), pos.Left())
      case '7' => (pos.Down(), pos.Left())
      case 'F' => (pos.Down(), pos.Right())
      case _ => (pos, pos);
    Tile(pos, connections, raw)
  }

  /** The table of pipe openings, read back from the connections: each pipe joins the two
      directions its glyph draws. */
  lemma {:induction false} PipeOpenings(x: int, y: int)
    ensures var p := Pos(x, y);
      && {TileFrom('|', x, y).connections.0, TileFrom('|', x, y).connections.1} == {p.Up(), p.Down()}
      && {TileFrom('-', x, y).connections.0, TileFrom('-', x, y).connections.1} == {p.Left(), p.Right()}
      && {TileFrom('L', x, y).connections.0, TileFrom('L', x, y).connections.1} == {p.Up(), p.Right()}
      && {TileFrom('J', x, y).connections.0, TileFrom('J', x, y).connections.1} == {p.Up(), p.Left()}
      && {TileFrom('7', x, y).connections.0, TileFrom('7', x, y).connections.1} == {p.Down(), p.Left()}
      && {TileFrom('F', x, y).connections.0, TileFrom('F', x, y).connections.1} == {p.Down(), p.Right()}
  {
  }

  /** A map in which every tile is stored under its own position. */
  ghost predicate WellKeyed(world: map<Pos, Tile>) {
    forall p :: p in world ==> world[p].pos == p
  }

  /** The cells of a grid given as rows: (column, row) for every character. */
  function Cells(rows: seq<string>): set<Pos> {
    set y, x | 0 <= y < |rows| && 0 <= x < |rows[y]| :: Pos(x, y)
  }

  /** `parse` after `trim().lines()`: one tile per character, keyed by (column, row). */
  function ParseGrid(rows: seq<string>): (world: map<Pos, Tile>)
    ensures forall p :: p in world <==> 0 <= p.y < |rows| && 0 <= p.x < |rows[p.y]|
    ensures forall p :: p in world ==> world[p] == TileFrom(rows[p.y][p.x], p.x, p.y)
    ensures WellKeyed(world)
  {
    map p | p in Cells(rows) :: TileFrom(rows[p.y][p.x], p.x, p.y)
  }

  function Parse(puzzle: string): (world: map<Pos, Tile>)
    ensures WellKeyed(world)
  {
    ParseGrid(Lines(Trim(puzzle)))
  }

  /** The tile `t` has a connection pointing at `p`. */
  predicate ConnectsTo(t: Tile, p: Pos) {
    t.connections.0 == p || t.connections.1 == p
  }

  /** The neighbour at index `i` of `start` is a tile whose connections point back at it. */
  predicate EntersAt(world: map<Pos, Tile>, start: Pos, i: nat)
    requires i < 4
  {
    var q := start.Neighbors()[i];
    q in world && ConnectsTo(world[q], start)
  }

  function FirstEntryFrom(world: map<Pos, Tile>, start: Pos, i: nat): (r: Option<Tile>)
    requires i <= 4
    ensures r.Some? <==> exists j :: i <= j < 4 && EntersAt(world, start, j)
    ensures r.Some? ==> exists j :: (i <= j < 4 && EntersAt(world, start, j)
      && r.value == world[start.Neighbors()[j]]
      && forall k :: i <= k < j ==> !EntersAt(world, start, k))
    decreases 4 - i
  {
    if i == 4 then None
    else if EntersAt(world, start, i) then Some(world[start.Neighbors()[i]])
    else FirstEntryFrom(world, start, i + 1)
  }

  /** The first step away from the start: the first neighbour, in the order up, down, left,
      right, whose tile connects back to the start; `None` when there is none. */
  function FirstEntry(world: map<Pos, Tile>, start: Pos): (r: Option<Tile>)
    ensures r.None? <==> forall j :: 0 <= j < 4 ==> !EntersAt(world, start, j)
    ensures r.Some? ==> exists j :: (0 <= j < 4 && EntersAt(world, start, j)
      && r.value == world[start.Neighbors()[j]]
      && forall k :: 0 <= k < j ==> !EntersAt(world, start, k))
  {
    FirstEntryFrom(world, start, 0)
  }

  /** One step of the walk: the first connection of `current` that is a tile not yet
      visited, or the start tile when both are visited or off the grid. */
  function NextTile(world: map<Pos, Tile>, visited: set<Pos>, current: Tile, start: Tile): (r: Tile)
    requires WellKeyed(world)
    ensures r == start || (r.pos in world && world[r.pos] == r && r.pos !in visited && ConnectsTo(current, r.pos))
    ensures (exists c :: ConnectsTo(current, c) && c in world && c !in visited) ==>
      r.pos in world && world[r.pos] == r && r.pos !in visited && ConnectsTo(current, r.pos)
    ensures (forall c :: ConnectsTo(current, c) && c in world ==> c in visited) ==> r == start
  {
    var (c0, c1) := current.connections;
    if c0 in world && c0 !in visited then world[c0]
    else if c1 in world && c1 !in visited then world[c1]
    else start
  }

  /** The tiles of the loop: the visited set after walking from `current` until the walk
      falls back onto a tile marked `S`. */
  ghost function TraceFrom(world: map<Pos, Tile>, start: Tile, current: Tile, visited: set<Pos>): (r: set<Pos>)
    requires WellKeyed(world) && start.raw == 'S'
    requires visited <= world.Keys
    requires current.pos in world && world[current.pos] == current && current.pos !in visited
    ensures visited + {current.pos} <= r <= world.Keys
    decreases |world.Keys - visited|
  {
    var seen := visited + {current.pos};
    assert world.Keys - seen == (world.Keys - visited) - {current.pos};
    var next := NextTile(world, seen, current, start);
    if next.raw == 'S' then seen else TraceFrom(world, start, next, seen)
  }

  lemma {:induction false} SubsetCardinality<T>(a: set<T>, b: set<T>)
    requires a <= b
    ensures |a| <= |b|
  {
    assert b == a + (b - a);
  }

  /** The traced loop holds the start and the first tile and at most every tile of the world,
      so the answer, half its size, is at most half the number of tiles. */
  lemma {:induction false} TraceWithinWorld(world: map<Pos, Tile>, start: Tile, first: Tile)
    requires WellKeyed(world) && start.raw == 'S' && start.pos in world
    requires first.pos in world && world[first.pos] == first && first.pos != start.pos
    ensures var loop := TraceFrom(world, start, first, {start.pos});
      && start.pos in loop && first.pos in loop && 2 <= |loop| <= |world|
  {
    var loop := TraceFrom(world, start, first, {start.pos});
    SubsetCardinality({start.pos, first.pos}, loop);
    SubsetCardinality(loop, world.Keys);
  }

  /** The walk from the start tile `start`, as `solve` does it once the start is chosen. */
  ghost function Outcome(world: map<Pos, Tile>, start: Tile): (r: Result<int>)
    requires WellKeyed(world) && start.pos in world && world[start.pos] == start && start.raw == 'S'
  {
    match FirstEntry(world, start.pos)
    case None => Err("there is no place to go from starting point")
    case Some(first) =>
      NeighborsAreUnitSteps(start.pos);
      Ok(|TraceFrom(world, start, first, {start.pos})| / 2)
  }

  /** The `loop` of `solve`: inserts the current tile, moves on, stops on an `S` tile. */
  method Trace(world: map<Pos, Tile>, start: Tile, first: Tile) returns (visited: set<Pos>)
    requires WellKeyed(world) && start.raw == 'S' && start.pos in world
    requires first.pos in world && world[first.pos] == first && first.pos != start.pos
    ensures visited == TraceFrom(world, start, first, {start.pos})
  {
    visited := {start.pos};
    var current := first;
    while true
      invariant start.pos in visited && visited <= world.Keys
      invariant current.pos in world && world[current.pos] == current && current.pos !in visited
      invariant TraceFrom(world, start, current, visited) == TraceFrom(world, start, first, {start.pos})
      decreases |world.Keys - visited|
    {
      assert world.Keys - (visited + {current.pos}) == (world.Keys - visited) - {current.pos};
      visited := visited + {current.pos};
      current := NextTile(world, visited, current, start);
      if current.raw == 'S' {
        break;
      }
    }
  }

  /** `solve`: fails when no tile is marked `S` or when no neighbour of the chosen start
      connects back to it; otherwise the answer is half the loop's tile count for one of the
      `S` tiles (the hash map's iteration order decides which one when there are several). */
  method Solve(puzzle: string) returns (r: Result<int>)
    ensures var world := Parse(puzzle);
      (forall t :: t in world.Values ==> t.raw != 'S') <==> r == Err("no starting tile found")
    ensures var world := Parse(puzzle);
      r != Err("no starting tile found") ==>
        exists s :: s in world.Values && s.raw == 'S' && world[s.pos] == s && r == Outcome(world, s)
  {
    r := Walk(Parse(puzzle));
  }

  /** `solve` once the grid is parsed: pick a start tile and walk the loop from it. */
  method Walk(world: map<Pos, Tile>) returns (r: Result<int>)
    requires WellKeyed(world)
    ensures (forall t :: t in world.Values ==> t.raw != 'S') <==> r == Err("no starting tile found")
    ensures r != Err("no starting tile found") ==>
      exists s :: s in world.Values && s.raw == 'S' && world[s.pos] == s && r == Outcome(world, s)
  {
    if forall t :: t in world.Values ==> t.raw != 'S' {
      return Err("no starting tile found");
    }
    var start :| start in world.Values && start.raw == 'S';
    var first := FirstEntry(world, start.pos);
    if first.None? {
      return Err("there is no place to go from starting point");
    }
    NeighborsAreUnitSteps(start.pos);
    var visited := Trace(world, start, first.value);
    r := Ok(|visited| / 2);
  }
}
