/** Day 3 part 1 (src/bin/d3p1.rs): the part numbers of an engine schematic are the numbers
    written next to a symbol, horizontally, vertically or diagonally. */
module PartNumbers {
  import opened Wrappers
  import opened Text
  import Seqs

  /** A cell: column `x`, row `y`. */
  datatype Point = Point(x: int, y: int)

  /** What a non-empty cell holds. */
  datatype PointValue = Digit(c: char) | Symbol(c: char)

  /** `PointValue::from_char`: `.` and the space are empty cells, ASCII digits are digits, and
      every other character is a symbol. */
  function FromChar(c: char): (r: Option<PointValue>)
    ensures r.None? <==> c == '.' || c == ' '
    ensures r.Some? ==> r.value.c == c && (r.value.Digit? <==> IsDigit(c))
  {
    if c == '.' || c == ' ' then None
    else if IsDigit(c) then Some(Digit(c))
    else Some(Symbol(c))
  }

  /** The schematic: the non-empty cells. */
  datatype Engine = Engine(schematic: map<Point, PointValue>)

  predicate OnGrid(lines: seq<string>, p: Point) {
    0 <= p.y < |lines| && 0 <= p.x < |lines[p.y]|
  }

  /** What `Engine::parse` stores for the cell, if anything. */
  function CellOf(lines: seq<string>, p: Point): Option<PointValue>
    requires OnGrid(lines, p)
  {
    FromChar(lines[p.y][p.x])
  }

  /** `p` comes before `(x, y)` when the lines are read row by row. */
  predicate Before(p: Point, x: int, y: int) {
    p.y < y || (p.y == y && p.x < x)
  }

  /** The schematic holds exactly the non-empty cells read before `(x, y)`. */
  ghost predicate ParsedUpTo(schematic: map<Point, PointValue>, lines: seq<string>, x: int, y: int) {
    (forall p :: p in schematic <==> OnGrid(lines, p) && Before(p, x, y) && CellOf(lines, p).Some?) &&
    (forall p :: p in schematic ==> OnGrid(lines, p) && schematic[p] == CellOf(lines, p).value)
  }

  /** The schematic holds exactly the non-empty cells of the lines, keyed by column and row. */
  ghost predicate IsSchematicOf(schematic: map<Point, PointValue>, lines: seq<string>) {
    ParsedUpTo(schematic, lines, 0, |lines|)
  }

  /** Every digit cell holds a decimal digit, as `from_char` makes sure. */
  ghost predicate WellFormed(engine: Engine) {
    forall p :: p in engine.schematic && engine.schematic[p].Digit? ==> IsDigit(engine.schematic[p].c)
  }

  /** `Engine::parse`: the two `for` loops over the lines and their characters. */
  method Parse(puzzle: string) returns (engine: Engine)
    ensures IsSchematicOf(engine.schematic, Lines(puzzle))
    ensures WellFormed(engine)
  {
    var lines := Lines(puzzle);
    var schematic: map<Point, PointValue> := map[];
    for y := 0 to |lines|
      invariant ParsedUpTo(schematic, lines, 0, y)
    {
      var line := lines[y];
      for x := 0 to |line|
        invariant ParsedUpTo(schematic, lines, x, y)
      {
        var value := FromChar(line[x]);
        if value.Some? {
          schematic := schematic[Point(x, y) := value.value];
        }
      }
      assert forall p :: OnGrid(lines, p) ==> (Before(p, |line|, y) <==> Before(p, 0, y + 1));
    }
    engine := Engine(schematic);
  }

  /** `Engine::get` */
  function Get(engine: Engine, x: int, y: int): Option<PointValue> {
    if Point(x, y) in engine.schematic then Some(engine.schematic[Point(x, y)]) else None
  }

  /** `Engine::get_adjacent`: the eight cells around `(x, y)`, row above first. */
  function Adjacent(engine: Engine, x: int, y: int): seq<Option<PointValue>> {
    [Get(engine, x - 1, y - 1), Get(engine, x, y - 1), Get(engine, x + 1, y - 1),
     Get(engine, x - 1, y), Get(engine, x + 1, y),
     Get(engine, x - 1, y + 1), Get(engine, x, y + 1), Get(engine, x + 1, y + 1)]
  }

  predicate IsSymbol(v: Option<PointValue>) {
    v.Some? && v.value.Symbol?
  }

  /** `Engine::is_part_number_component`: `any` symbol among the adjacent cells. */
  function IsPartNumberComponent(engine: Engine, x: int, y: int): bool {
    var adjacent := Adjacent(engine, x, y);
    exists k | 0 <= k < 8 :: IsSymbol(adjacent[k])
  }

  /** `p` is one of the eight cells around `q`. */
  predicate Touches(p: Point, q: Point) {
    p != q && -1 <= p.x - q.x <= 1 && -1 <= p.y - q.y <= 1
  }

  predicate SymbolAt(engine: Engine, p: Point) {
    p in engine.schematic && engine.schematic[p].Symbol?
  }

  /** A cell is a part number component exactly when a symbol touches it. */
  lemma {:induction false} PartNumberComponentMeaning(engine: Engine, x: int, y: int)
    ensures IsPartNumberComponent(engine, x, y) <==> exists p :: Touches(p, Point(x, y)) && SymbolAt(engine, p)
  {
    var adjacent := Adjacent(engine, x, y);
    var around := [Point(x - 1, y - 1), Point(x, y - 1), Point(x + 1, y - 1), Point(x - 1, y), Point(x + 1, y),
                   Point(x - 1, y + 1), Point(x, y + 1), Point(x + 1, y + 1)];
    assert forall k :: 0 <= k < 8 ==> adjacent[k] == Get(engine, around[k].x, around[k].y);
    assert forall k :: 0 <= k < 8 ==> Touches(around[k], Point(x, y));
    forall p | Touches(p, Point(x, y))
      ensures p in around
    {
      var dx, dy := p.x - x, p.y - y;
      assert p == Point(x + dx, y + dy);
    }
  }

  /** The smallest box that holds every non-empty cell. */
  datatype EngineBounds = EngineBounds(minX: int, minY: int, maxX: int, maxY: int)

  /** Every cell of the schematic lies in the box, and each side of it is reached by a cell. */
  ghost predicate IsBoundsOf(b: EngineBounds, schematic: map<Point, PointValue>) {
    (forall p :: p in schematic ==> b.minX <= p.x <= b.maxX && b.minY <= p.y <= b.maxY) &&
    (exists p :: p in schematic && p.x == b.minX) && (exists p :: p in schematic && p.x == b.maxX) &&
    (exists p :: p in schematic && p.y == b.minY) && (exists p :: p in schematic && p.y == b.maxY)
  }

  /** `Iterator::max` over a set of coordinates. */
  method Max(values: set<int>) returns (r: Option<int>)
    ensures r.None? <==> values == {}
    ensures r.Some? ==> r.value in values && forall v :: v in values ==> v <= r.value
  {
    r := None;
    var todo := values;
    while todo != {}
      invariant todo <= values
      invariant r.None? <==> todo == values
      invariant r.Some? ==> r.value in values && forall v :: v in values && v !in todo ==> v <= r.value
      decreases |todo|
    {
      ghost var some := Seqs.Pick(todo);
      var v :| v in todo;
      if r.None? || v > r.value {
        r := Some(v);
      }
      todo := todo - {v};
    }
  }

  /** `Iterator::min` over a set of coordinates. */
  method Min(values: set<int>) returns (r: Option<int>)
    ensures r.None? <==> values == {}
    ensures r.Some? ==> r.value in values && forall v :: v in values ==> r.value <= v
  {
    r := None;
    var todo := values;
    while todo != {}
      invariant todo <= values
      invariant r.None? <==> todo == values
      invariant r.Some? ==> r.value in values && forall v :: v in values && v !in todo ==> r.value <= v
      decreases |todo|
    {
      ghost var some := Seqs.Pick(todo);
      var v :| v in todo;
      if r.None? || v < r.value {
        r := Some(v);
      }
      todo := todo - {v};
    }
  }

  /** The columns of the cells: `keys().map(|p| p.x)`. */
  function Columns(schematic: map<Point, PointValue>): set<int> {
    set p | p in schematic :: p.x
  }

  /** The rows of the cells: `keys().map(|p| p.y)`. */
  function Rows(schematic: map<Point, PointValue>): set<int> {
    set p | p in schematic :: p.y
  }

  /** `Engine::bounds`: `None` exactly for an empty schematic, otherwise the smallest box
      around its cells. */
  method Bounds(engine: Engine) returns (r: Option<EngineBounds>)
    ensures r.None? <==> engine.schematic == map[]
    ensures r.Some? ==> IsBoundsOf(r.value, engine.schematic)
  {
    var xs := Columns(engine.schematic);
    var ys := Rows(engine.schematic);
    if engine.schematic != map[] {
      var p := Seqs.Pick(engine.schematic.Keys);
      assert p.x in xs && p.y in ys;
    }
    var minX := Min(xs);
    if minX.None? {
      return None;
    }
    var minY := Min(ys);
    if minY.None? {
      return None;
    }
    var maxX := Max(xs);
    if maxX.None? {
      return None;
    }
    var maxY := Max(ys);
    if maxY.None? {
      return None;
    }
    r := Some(EngineBounds(minX.value, minY.value, maxX.value, maxY.value));
    BoundsOfExtremes(engine.schematic, r.value);
  }

  /** The box whose sides are the least and greatest columns and rows of the cells bounds
      them. */
  lemma {:induction false} BoundsOfExtremes(schematic: map<Point, PointValue>, b: EngineBounds)
    requires b.minX in Columns(schematic) && b.maxX in Columns(schematic)
    requires b.minY in Rows(schematic) && b.maxY in Rows(schematic)
    requires forall v :: v in Columns(schematic) ==> b.minX <= v <= b.maxX
    requires forall v :: v in Rows(schematic) ==> b.minY <= v <= b.maxY
    ensures IsBoundsOf(b, schematic)
  {
    var xs, ys := Columns(schematic), Rows(schematic);
    forall p | p in schematic
      ensures b.minX <= p.x <= b.maxX && b.minY <= p.y <= b.maxY
    {
      assert p.x in xs && p.y in ys;
    }
    assert b.minX in xs && b.maxX in xs && b.minY in ys && b.maxY in ys;
  }

  /** `PartsNumberBuilder`: the numbers found so far, the digits of the number being read,
      and whether one of those digits touches a symbol. */
  class PartsNumberBuilder {
    var partNumbers: seq<int>
    var currentBuffer: string
    var isPartNumber: bool

    constructor ()
      ensures partNumbers == [] && currentBuffer == [] && !isPartNumber
    {
      partNumbers := [];
      currentBuffer := [];
      isPartNumber := false;
    }

    /** `consume_buffer`: the number being read is kept only if it touches a symbol; the
        buffer and the flag are reset in either case. A flagged buffer that does not parse
        panics. */
    method ConsumeBuffer() returns (r: Result<()>)
      modifies this
      ensures r.Err? <==> old(isPartNumber) && ParseNat(old(currentBuffer)).None?
      ensures r.Err? ==> r.msg == "invalid part number"
      ensures r.Ok? ==>
        partNumbers == old(partNumbers) + (if old(isPartNumber) then [ParseNat(old(currentBuffer)).value] else [])
      ensures r.Ok? ==> currentBuffer == [] && !isPartNumber
    {
      if isPartNumber {
        var number := ParseNat(currentBuffer);
        if number.None? {
          return Err("invalid part number");
        }
        partNumbers := partNumbers + [number.value];
      }
      currentBuffer := [];
      isPartNumber := false;
      return Ok(());
    }

    /** `push_digit` */
    method PushDigit(value: char)
      modifies this
      ensures currentBuffer == old(currentBuffer) + [value]
      ensures partNumbers == old(partNumbers) && isPartNumber == old(isPartNumber)
    {
      currentBuffer := currentBuffer + [value];
    }

    /** `flag_part_number` */
    method FlagPartNumber()
      modifies this
      ensures isPartNumber
      ensures partNumbers == old(partNumbers) && currentBuffer == old(currentBuffer)
    {
      isPartNumber := true;
    }
  }

  predicate DigitAt(engine: Engine, x: int, y: int) {
    Point(x, y) in engine.schematic && engine.schematic[Point(x, y)].Digit?
  }

  /** The first column of the run of digit cells that ends just before column `x` of row `y`,
      not looking left of column `lo`; `x` itself when the cell before `x` is not a digit. */
  function RunStart(engine: Engine, lo: int, x: int, y: int): int
    requires lo <= x
    decreases x - lo
  {
    if lo < x && DigitAt(engine, x - 1, y) then RunStart(engine, lo, x - 1, y) else x
  }

  /** The run before column `x` is maximal: it starts at `lo` or after a cell that is not a
      digit, and each of its cells is a digit. */
  lemma {:induction false} RunStartSpec(engine: Engine, lo: int, x: int, y: int)
    requires lo <= x
    ensures lo <= RunStart(engine, lo, x, y) <= x
    ensures RunStart(engine, lo, x, y) == lo || !DigitAt(engine, RunStart(engine, lo, x, y) - 1, y)
    ensures forall k :: RunStart(engine, lo, x, y) <= k < x ==> DigitAt(engine, k, y)
    decreases x - lo
  {
    if lo < x && DigitAt(engine, x - 1, y) {
      RunStartSpec(engine, lo, x - 1, y);
    }
  }

  /** The character of a non-empty cell; `.` for an empty one. */
  function CharAt(engine: Engine, x: int, y: int): char {
    if Point(x, y) in engine.schematic then engine.schematic[Point(x, y)].c else '.'
  }

  /** The characters of the cells of row `y` from column `s` up to `e`, exclusive. */
  function RunChars(engine: Engine, s: int, e: int, y: int): string
    decreases e - s
  {
    if e <= s then [] else RunChars(engine, s, e - 1, y) + [CharAt(engine, e - 1, y)]
  }

  /** One of the cells of row `y` from column `s` up to `e`, exclusive, touches a symbol. */
  function RunTouches(engine: Engine, s: int, e: int, y: int): bool
    decreases e - s
  {
    e > s && (RunTouches(engine, s, e - 1, y) || IsPartNumberComponent(engine, e - 1, y))
  }

  lemma {:induction false} RunCharsDigits(engine: Engine, s: int, e: int, y: int)
    requires WellFormed(engine)
    requires forall k :: s <= k < e ==> DigitAt(engine, k, y)
    ensures AllDigits(RunChars(engine, s, e, y))
    ensures s < e ==> RunChars(engine, s, e, y) != []
    decreases e - s
  {
    if s < e {
      RunCharsDigits(engine, s, e - 1, y);
      assert DigitAt(engine, e - 1, y);
    }
  }

  /** The number read by the builder when the run ending before column `x` is flushed: its
      value if one of its digits touches a symbol. */
  function Pending(engine: Engine, b: EngineBounds, x: int, y: int): seq<int>
    requires WellFormed(engine) && b.minX <= x
  {
    var s := RunStart(engine, b.minX, x, y);
    RunStartSpec(engine, b.minX, x, y);
    RunCharsDigits(engine, s, x, y);
    if RunTouches(engine, s, x, y) then [DigitsValue(RunChars(engine, s, x, y))] else []
  }

  /** The part numbers found by the scan of `solve` before it reaches cell `(x, y)`: the rows
      above, each flushed at its end, then the cells of row `y` left of `x`, where every cell
      that is not a digit flushes the run before it. */
  function Done(engine: Engine, b: EngineBounds, x: int, y: int): seq<int>
    requires WellFormed(engine) && b.minX <= x <= b.maxX + 1 && b.minY <= y
    decreases y - b.minY, x - b.minX
  {
    if x == b.minX then
      if y == b.minY then [] else RowDone(engine, b, y - 1)
    else
      Done(engine, b, x - 1, y) + (if DigitAt(engine, x - 1, y) then [] else Pending(engine, b, x - 1, y))
  }

  /** The part numbers found up to the end of row `y`, including the run flushed at its end. */
  function RowDone(engine: Engine, b: EngineBounds, y: int): seq<int>
    requires WellFormed(engine) && b.minX <= b.maxX + 1 && b.minY <= y
    decreases y - b.minY, b.maxX + 1 - b.minX + 1
  {
    Done(engine, b, b.maxX + 1, y) + Pending(engine, b, b.maxX + 1, y)
  }

  /** Row `y` holds a part number in columns `s` up to `e`, exclusive: a run of digits that
      cannot be extended within the bounds, one of whose digits touches a symbol. */
  ghost predicate PartRun(engine: Engine, b: EngineBounds, s: int, e: int, y: int) {
    b.minX <= s < e <= b.maxX + 1 &&
    (forall k :: s <= k < e ==> DigitAt(engine, k, y)) &&
    (s == b.minX || !DigitAt(engine, s - 1, y)) &&
    (e == b.maxX + 1 || !DigitAt(engine, e, y)) &&
    RunTouches(engine, s, e, y)
  }

  /** `v` is the value of a part number in one of the rows from the first up to `y`. */
  ghost predicate Recorded(engine: Engine, b: EngineBounds, y: int, v: int) {
    exists s, e, row :: b.minY <= row <= y && PartRun(engine, b, s, e, row) && ParseNat(RunChars(engine, s, e, row)) == Some(v)
  }

  /** A run touches a symbol exactly when one of its cells is a part number component. */
  lemma {:induction false} RunTouchesMeaning(engine: Engine, s: int, e: int, y: int)
    ensures RunTouches(engine, s, e, y) <==> exists k :: s <= k < e && IsPartNumberComponent(engine, k, y)
    decreases e - s
  {
    if e > s {
      RunTouchesMeaning(engine, s, e - 1, y);
    }
  }

  /** What a flush records at a cell that ends the run before it is a part number. */
  lemma {:induction false} PendingSound(engine: Engine, b: EngineBounds, x: int, y: int)
    requires WellFormed(engine) && b.minX <= x <= b.maxX + 1
    requires x == b.maxX + 1 || !DigitAt(engine, x, y)
    ensures forall v :: v in Pending(engine, b, x, y) ==>
      PartRun(engine, b, RunStart(engine, b.minX, x, y), x, y) && ParseNat(RunChars(engine, RunStart(engine, b.minX, x, y), x, y)) == Some(v)
  {
    var s := RunStart(engine, b.minX, x, y);
    RunStartSpec(engine, b.minX, x, y);
    ConsumeStep(engine, b, x, y);
    RunCharsDigits(engine, s, x, y);
  }

  /** Soundness of the scan: every number found before `(x, y)` is a part number of the rows
      up to `y`. */
  lemma {:induction false} DoneSound(engine: Engine, b: EngineBounds, x: int, y: int)
    requires WellFormed(engine) && b.minX <= x <= b.maxX + 1 && b.minY <= y
    ensures forall v :: v in Done(engine, b, x, y) ==> Recorded(engine, b, y, v)
    decreases y - b.minY, x - b.minX
  {
    if x == b.minX {
      if y > b.minY {
        RowDoneSound(engine, b, y - 1);
      }
    } else {
      DoneSound(engine, b, x - 1, y);
      if !DigitAt(engine, x - 1, y) {
        PendingSound(engine, b, x - 1, y);
      }
    }
  }

  /** Soundness of the scan up to the end of row `y`. */
  lemma {:induction false} RowDoneSound(engine: Engine, b: EngineBounds, y: int)
    requires WellFormed(engine) && b.minX <= b.maxX + 1 && b.minY <= y
    ensures forall v :: v in RowDone(engine, b, y) ==> Recorded(engine, b, y, v)
    decreases y - b.minY, b.maxX + 1 - b.minX + 1
  {
    DoneSound(engine, b, b.maxX + 1, y);
    PendingSound(engine, b, b.maxX + 1, y);
  }

  /** A maximal run starting at `s` is found again by `RunStart` from any of its later ends. */
  lemma {:induction false} RunStartOfRun(engine: Engine, lo: int, s: int, e: int, y: int)
    requires lo <= s <= e
    requires forall k :: s <= k < e ==> DigitAt(engine, k, y)
    requires s == lo || !DigitAt(engine, s - 1, y)
    ensures RunStart(engine, lo, e, y) == s
    decreases e - s
  {
    if s < e {
      RunStartOfRun(engine, lo, s, e - 1, y);
    }
  }

  /** Numbers once found stay found as the scan moves right along a row. */
  lemma {:induction false} DoneGrows(engine: Engine, b: EngineBounds, x1: int, x2: int, y: int)
    requires WellFormed(engine) && b.minX <= x1 <= x2 <= b.maxX + 1 && b.minY <= y
    ensures forall v :: v in Done(engine, b, x1, y) ==> v in Done(engine, b, x2, y)
    decreases x2 - x1
  {
    if x1 < x2 {
      DoneGrows(engine, b, x1, x2 - 1, y);
    }
  }

  /** ... and from one row to the next. */
  lemma {:induction false} RowDoneGrows(engine: Engine, b: EngineBounds, y1: int, y2: int)
    requires WellFormed(engine) && b.minX <= b.maxX + 1 && b.minY <= y1 <= y2
    ensures forall v :: v in RowDone(engine, b, y1) ==> v in RowDone(engine, b, y2)
    decreases y2 - y1
  {
    if y1 < y2 {
      RowDoneGrows(engine, b, y1, y2 - 1);
      DoneGrows(engine, b, b.minX, b.maxX + 1, y2);
    }
  }

  /** Completeness of the scan: a part number of row `y` is found by the end of that row. */
  lemma {:induction false} RunRecorded(engine: Engine, b: EngineBounds, s: int, e: int, y: int)
    requires WellFormed(engine) && b.minY <= y && PartRun(engine, b, s, e, y)
    ensures ParseNat(RunChars(engine, s, e, y)).Some?
    ensures ParseNat(RunChars(engine, s, e, y)).value in RowDone(engine, b, y)
  {
    RunStartOfRun(engine, b.minX, s, e, y);
    ConsumeStep(engine, b, e, y);
    var v := ParseNat(RunChars(engine, s, e, y)).value;
    assert Pending(engine, b, e, y) == [v];
    if e <= b.maxX {
      assert Done(engine, b, e + 1, y) == Done(engine, b, e, y) + Pending(engine, b, e, y);
      DoneGrows(engine, b, e + 1, b.maxX + 1, y);
      assert v in Done(engine, b, b.maxX + 1, y);
    }
  }

  /** The numbers found up to the end of row `y` are exactly the part numbers of the rows up
      to `y`. */
  lemma {:induction false} RowDoneMeaning(engine: Engine, b: EngineBounds, y: int, v: int)
    requires WellFormed(engine) && b.minX <= b.maxX + 1 && b.minY <= y
    ensures v in RowDone(engine, b, y) <==> Recorded(engine, b, y, v)
  {
    RowDoneSound(engine, b, y);
    if Recorded(engine, b, y, v) {
      var s, e, row :| b.minY <= row <= y && PartRun(engine, b, s, e, row) && ParseNat(RunChars(engine, s, e, row)) == Some(v);
      RunRecorded(engine, b, s, e, row);
      RowDoneGrows(engine, b, row, y);
    }
  }

  /** Where a part number is written: row `y`, columns `s` up to `e`, exclusive. */
  datatype Run = Run(y: int, s: int, e: int)

  /** The reading order of the scan: row by row, and left to right within a row. */
  predicate RunBefore(r: Run, t: Run) {
    r.y < t.y || (r.y == t.y && r.s < t.s)
  }

  /** Each run comes before every run listed after it, so no run is listed twice. */
  ghost predicate InReadingOrder(runs: seq<Run>) {
    forall i, j :: 0 <= i < j < |runs| ==> RunBefore(runs[i], runs[j])
  }

  /** `runs` lists every part number of the rows from the first up to `y`, each once, in
      reading order. */
  ghost predicate PartRunsUpTo(engine: Engine, b: EngineBounds, y: int, runs: seq<Run>) {
    InReadingOrder(runs) &&
    forall t: Run :: t in runs <==> b.minY <= t.y <= y && PartRun(engine, b, t.s, t.e, t.y)
  }

  /** The number written in a run's cells (0 when they do not spell one, which never happens
      for a part number). */
  function RunValue(engine: Engine, t: Run): int {
    match ParseNat(RunChars(engine, t.s, t.e, t.y))
    case Some(v) => v
    case None => 0
  }

  /** The numbers written in the runs, in their order. */
  function Values(engine: Engine, runs: seq<Run>): seq<int> {
    seq(|runs|, i requires 0 <= i < |runs| => RunValue(engine, runs[i]))
  }

  lemma {:induction false} ValuesAppend(engine: Engine, a: seq<Run>, c: seq<Run>)
    ensures Values(engine, a + c) == Values(engine, a) + Values(engine, c)
  {
    assert forall i :: 0 <= i < |a| + |c| ==> Values(engine, a + c)[i] == (Values(engine, a) + Values(engine, c))[i];
  }

  /** Two lists of the same runs, both in reading order, are the same list. */
  lemma {:induction false} OrderedUnique(a: seq<Run>, c: seq<Run>)
    requires InReadingOrder(a) && InReadingOrder(c)
    requires forall t :: t in a <==> t in c
    ensures a == c
    decreases |a|
  {
    assert c != [] ==> c[0] in c;
    if a != [] {
      assert a[0] in c;
      assert c != [] && c[0] in a;
      var i :| 0 <= i < |a| && a[i] == c[0];
      var j :| 0 <= j < |c| && c[j] == a[0];
      if i > 0 && j > 0 {
        assert false;
      }
      forall t ensures t in a[1..] <==> t in c[1..] {
        if t in a[1..] {
          var k :| 1 <= k < |a| && a[k] == t;
          assert RunBefore(a[0], a[k]);
          assert t in c;
        }
        if t in c[1..] {
          var k :| 1 <= k < |c| && c[k] == t;
          assert RunBefore(c[0], c[k]);
          assert t in a;
        }
      }
      OrderedUnique(a[1..], c[1..]);
      assert a == [a[0]] + a[1..] && c == [c[0]] + c[1..];
    }
  }

  /** The run the scan records when it flushes at column `x` of row `y`, if any. */
  ghost function PendingRun(engine: Engine, b: EngineBounds, x: int, y: int): seq<Run>
    requires b.minX <= x
  {
    var s := RunStart(engine, b.minX, x, y);
    if RunTouches(engine, s, x, y) then [Run(y, s, x)] else []
  }

  /** The runs behind `Done`: where each number recorded before `(x, y)` is written. */
  ghost function DoneRuns(engine: Engine, b: EngineBounds, x: int, y: int): seq<Run>
    requires b.minX <= x <= b.maxX + 1 && b.minY <= y
    decreases y - b.minY, x - b.minX
  {
    if x == b.minX then
      if y == b.minY then [] else RowRuns(engine, b, y - 1)
    else
      DoneRuns(engine, b, x - 1, y) + (if DigitAt(engine, x - 1, y) then [] else PendingRun(engine, b, x - 1, y))
  }

  /** The runs behind `RowDone`. */
  ghost function RowRuns(engine: Engine, b: EngineBounds, y: int): seq<Run>
    requires b.minX <= b.maxX + 1 && b.minY <= y
    decreases y - b.minY, b.maxX + 1 - b.minX + 1
  {
    DoneRuns(engine, b, b.maxX + 1, y) + PendingRun(engine, b, b.maxX + 1, y)
  }

  /** A part number that the scan has passed before column `x` of row `y`. */
  ghost predicate FoundBefore(engine: Engine, b: EngineBounds, t: Run, x: int, y: int) {
    b.minY <= t.y && PartRun(engine, b, t.s, t.e, t.y) && (t.y < y || (t.y == y && t.e < x))
  }

  /** A flush at column `x` records the part number ending there, if there is one, and its
      value is the one `Pending` holds. */
  lemma {:induction false} PendingRunSpec(engine: Engine, b: EngineBounds, x: int, y: int)
    requires WellFormed(engine) && b.minX <= x <= b.maxX + 1
    requires x == b.maxX + 1 || !DigitAt(engine, x, y)
    ensures Values(engine, PendingRun(engine, b, x, y)) == Pending(engine, b, x, y)
    ensures forall t: Run :: t in PendingRun(engine, b, x, y) <==> t.y == y && t.e == x && PartRun(engine, b, t.s, t.e, t.y)
    ensures forall t: Run :: t in PendingRun(engine, b, x, y) ==> t.s == RunStart(engine, b.minX, x, y)
  {
    var s := RunStart(engine, b.minX, x, y);
    RunStartSpec(engine, b.minX, x, y);
    ConsumeStep(engine, b, x, y);
    forall t: Run | t.y == y && t.e == x && PartRun(engine, b, t.s, t.e, t.y)
      ensures t in PendingRun(engine, b, x, y)
    {
      RunStartOfRun(engine, b.minX, t.s, x, y);
    }
  }

  /** `DoneRuns` lists, in reading order, exactly the part numbers the scan has passed, and
      their values are `Done`. */
  lemma {:induction false} DoneRunsSpec(engine: Engine, b: EngineBounds, x: int, y: int)
    requires WellFormed(engine) && b.minX <= x <= b.maxX + 1 && b.minY <= y
    ensures Values(engine, DoneRuns(engine, b, x, y)) == Done(engine, b, x, y)
    ensures InReadingOrder(DoneRuns(engine, b, x, y))
    ensures forall t: Run :: t in DoneRuns(engine, b, x, y) <==> FoundBefore(engine, b, t, x, y)
    decreases y - b.minY, x - b.minX
  {
    if x == b.minX {
      if y > b.minY {
        RowRunsSpec(engine, b, y - 1);
      }
    } else {
      DoneRunsSpec(engine, b, x - 1, y);
      var before := DoneRuns(engine, b, x - 1, y);
      if !DigitAt(engine, x - 1, y) {
        PendingRunSpec(engine, b, x - 1, y);
        RunStartSpec(engine, b.minX, x - 1, y);
        var p := PendingRun(engine, b, x - 1, y);
        ValuesAppend(engine, before, p);
        forall i | 0 <= i < |before| && p != []
          ensures RunBefore(before[i], p[0])
        {
          var t := before[i];
          assert FoundBefore(engine, b, t, x - 1, y);
          if t.y == y {
            assert !DigitAt(engine, t.e, y);
          }
        }
      }
    }
  }

  /** `RowRuns` lists, in reading order, exactly the part numbers of the rows up to `y`, and
      their values are `RowDone`. */
  lemma {:induction false} RowRunsSpec(engine: Engine, b: EngineBounds, y: int)
    requires WellFormed(engine) && b.minX <= b.maxX + 1 && b.minY <= y
    ensures Values(engine, RowRuns(engine, b, y)) == RowDone(engine, b, y)
    ensures PartRunsUpTo(engine, b, y, RowRuns(engine, b, y))
    decreases y - b.minY, b.maxX + 1 - b.minX + 1
  {
    DoneRunsSpec(engine, b, b.maxX + 1, y);
    PendingRunSpec(engine, b, b.maxX + 1, y);
    var before := DoneRuns(engine, b, b.maxX + 1, y);
    var p := PendingRun(engine, b, b.maxX + 1, y);
    ValuesAppend(engine, before, p);
    RunStartSpec(engine, b.minX, b.maxX + 1, y);
    forall i | 0 <= i < |before| && p != []
      ensures RunBefore(before[i], p[0])
    {
      var t := before[i];
      assert FoundBefore(engine, b, t, b.maxX + 1, y);
      if t.y == y {
        assert !DigitAt(engine, t.e, y);
      }
    }
  }

  /** The numbers found up to the end of row `y` are the part numbers of those rows, one entry
      per run of digits, in reading order; each entry is the number written in its run. */
  lemma {:induction false} PartNumbersInOrder(engine: Engine, b: EngineBounds, y: int, runs: seq<Run>)
    requires WellFormed(engine) && b.minX <= b.maxX + 1 && b.minY <= y
    requires PartRunsUpTo(engine, b, y, runs)
    ensures RowDone(engine, b, y) == Values(engine, runs)
    ensures forall t :: t in runs ==> ParseNat(RunChars(engine, t.s, t.e, t.y)) == Some(RunValue(engine, t))
  {
    RowRunsSpec(engine, b, y);
    OrderedUnique(RowRuns(engine, b, y), runs);
    forall t | t in runs
      ensures ParseNat(RunChars(engine, t.s, t.e, t.y)) == Some(RunValue(engine, t))
    {
      RunRecorded(engine, b, t.s, t.e, t.y);
    }
  }

  /** The scan of `solve` over the bounds, row by row, with the builder. */
  method Scan(engine: Engine, b: EngineBounds) returns (r: Result<seq<int>>)
    requires WellFormed(engine) && b.minX <= b.maxX && b.minY <= b.maxY
    ensures r == Ok(RowDone(engine, b, b.maxY))
    ensures forall runs :: PartRunsUpTo(engine, b, b.maxY, runs) ==> r == Ok(Values(engine, runs))
  {
    var builder := new PartsNumberBuilder();
    for y := b.minY to b.maxY + 1
      invariant builder.partNumbers == Done(engine, b, b.minX, y)
      invariant builder.currentBuffer == [] && !builder.isPartNumber
    {
      ScanRow(engine, b, builder, y);
    }
    forall runs | PartRunsUpTo(engine, b, b.maxY, runs)
      ensures builder.partNumbers == Values(engine, runs)
    {
      PartNumbersInOrder(engine, b, b.maxY, runs);
    }
    return Ok(builder.partNumbers);
  }

  /** One row of the scan: every cell, then the flush at the end of the row. */
  method ScanRow(engine: Engine, b: EngineBounds, builder: PartsNumberBuilder, y: int)
    requires WellFormed(engine) && b.minX <= b.maxX && b.minY <= y
    requires builder.partNumbers == Done(engine, b, b.minX, y)
    requires builder.currentBuffer == [] && !builder.isPartNumber
    modifies builder
    ensures builder.partNumbers == RowDone(engine, b, y)
    ensures forall runs :: PartRunsUpTo(engine, b, y, runs) ==> builder.partNumbers == Values(engine, runs)
    ensures builder.currentBuffer == [] && !builder.isPartNumber
  {
    for x := b.minX to b.maxX + 1
      invariant builder.partNumbers == Done(engine, b, x, y)
      invariant builder.currentBuffer == RunChars(engine, RunStart(engine, b.minX, x, y), x, y)
      invariant builder.isPartNumber == RunTouches(engine, RunStart(engine, b.minX, x, y), x, y)
    {
      ScanCell(engine, b, builder, x, y);
    }
    ConsumeStep(engine, b, b.maxX + 1, y);
    var ok := builder.ConsumeBuffer();
    if ok.Err? {
      assert false;
    }
    forall runs | PartRunsUpTo(engine, b, y, runs)
      ensures builder.partNumbers == Values(engine, runs)
    {
      PartNumbersInOrder(engine, b, y, runs);
    }
  }

  /** One cell of the scan: a digit joins the buffer (flagged when it touches a symbol), any
      other cell flushes it. */
  method ScanCell(engine: Engine, b: EngineBounds, builder: PartsNumberBuilder, x: int, y: int)
    requires WellFormed(engine) && b.minX <= x <= b.maxX && b.minY <= y
    requires builder.partNumbers == Done(engine, b, x, y)
    requires builder.currentBuffer == RunChars(engine, RunStart(engine, b.minX, x, y), x, y)
    requires builder.isPartNumber == RunTouches(engine, RunStart(engine, b.minX, x, y), x, y)
    modifies builder
    ensures builder.partNumbers == Done(engine, b, x + 1, y)
    ensures builder.currentBuffer == RunChars(engine, RunStart(engine, b.minX, x + 1, y), x + 1, y)
    ensures builder.isPartNumber == RunTouches(engine, RunStart(engine, b.minX, x + 1, y), x + 1, y)
  {
    RunStartSpec(engine, b.minX, x, y);
    var s := RunStart(engine, b.minX, x, y);
    match Get(engine, x, y)
    case Some(Digit(digit)) =>
      assert RunStart(engine, b.minX, x + 1, y) == s;
      builder.PushDigit(digit);
      if IsPartNumberComponent(engine, x, y) {
        builder.FlagPartNumber();
      }
    case _ =>
      ConsumeStep(engine, b, x, y);
      var ok := builder.ConsumeBuffer();
      if ok.Err? {
        assert false;
      }
  }

  /** Flushing the buffer for the run before column `x`: it parses, and its value is the one
      `Pending` records. */
  lemma {:induction false} ConsumeStep(engine: Engine, b: EngineBounds, x: int, y: int)
    requires WellFormed(engine) && b.minX <= x
    ensures var s := RunStart(engine, b.minX, x, y);
      (RunTouches(engine, s, x, y) ==> ParseNat(RunChars(engine, s, x, y)).Some?) &&
      Pending(engine, b, x, y) == if RunTouches(engine, s, x, y) then [ParseNat(RunChars(engine, s, x, y)).value] else []
  {
    var s := RunStart(engine, b.minX, x, y);
    RunStartSpec(engine, b.minX, x, y);
    RunCharsDigits(engine, s, x, y);
  }

  /** `solve`: parse, take the bounds (an empty schematic panics), scan and sum. */
  method Solve(puzzle: string) returns (r: Result<int>)
    ensures r.Err? <==> forall p :: OnGrid(Lines(puzzle), p) ==> CellOf(Lines(puzzle), p).None?
    ensures r.Err? ==> r.msg == "empty engine"
    ensures r.Ok? ==> exists engine: Engine, b: EngineBounds, runs: seq<Run> ::
      IsSchematicOf(engine.schematic, Lines(puzzle)) && WellFormed(engine) && IsBoundsOf(b, engine.schematic) &&
      b.minX <= b.maxX && b.minY <= b.maxY && r.value == Seqs.Sum(RowDone(engine, b, b.maxY)) &&
      PartRunsUpTo(engine, b, b.maxY, runs) && r.value == Seqs.Sum(Values(engine, runs))
  {
    var engine := Parse(puzzle);
    var bounds := Bounds(engine);
    if bounds.None? {
      return Err("empty engine");
    }
    var b := bounds.value;
    ghost var p :| p in engine.schematic;
    var parts := Scan(engine, b);
    RowRunsSpec(engine, b, b.maxY);
    ghost var runs := RowRuns(engine, b, b.maxY);
    r := Ok(Seqs.Sum(parts.value));
  }
}
