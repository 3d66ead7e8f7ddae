/** Day 3 part 2 (src/bin/d3p2.rs): a gear is a `*` next to exactly two numbers of the engine
    schematic, and its ratio is the product of those two numbers. */
module GearSchematic {
  import opened Wrappers
  import opened Text
  import Seqs

  /** A cell: column `x`, row `y`. */
  datatype Point = Point(x: int, y: int)

  /** What the engine records at a position: a whole number (at its first digit) or a
      symbol. */
  datatype Component = Number(n: int) | Symbol(c: char)

  datatype Gear = Gear(ratio: int)

  /** `components` holds the numbers and symbols; `componentMap` sends every digit to the
      first digit of its number and every symbol to itself. */
  datatype Engine = Engine(components: map<Point, Component>, componentMap: map<Point, Point>)

  // The reading of the lines that the builder is proved against.

  predicate OnGrid(lines: seq<string>, p: Point) {
    0 <= p.y < |lines| && 0 <= p.x < |lines[p.y]|
  }

  /** The characters `push` treats as empty cells. */
  predicate IsVoid(c: char) {
    c == '.' || c == ' '
  }

  predicate DigitCell(lines: seq<string>, p: Point) {
    OnGrid(lines, p) && IsDigit(lines[p.y][p.x])
  }

  predicate SymbolCell(lines: seq<string>, p: Point) {
    OnGrid(lines, p) && !IsDigit(lines[p.y][p.x]) && !IsVoid(lines[p.y][p.x])
  }

  /** The first digit of a number: a digit with no digit on its left in the same line. */
  predicate RunStartCell(lines: seq<string>, p: Point) {
    DigitCell(lines, p) && (p.x == 0 || !IsDigit(lines[p.y][p.x - 1]))
  }

  /** Columns `lo` to `hi` (exclusive) of the line are digits. */
  predicate DigitsIn(line: string, lo: int, hi: int)
    requires 0 <= lo <= hi <= |line|
    decreases hi - lo
  {
    lo == hi || (IsDigit(line[hi - 1]) && DigitsIn(line, lo, hi - 1))
  }

  lemma {:induction false} DigitAt(line: string, lo: int, hi: int, k: int)
    requires 0 <= lo <= hi <= |line| && DigitsIn(line, lo, hi) && 0 <= k < |line|
    ensures lo <= k < hi ==> IsDigit(line[k])
    decreases hi - lo
  {
    if lo < hi && k != hi - 1 {
      DigitAt(line, lo, hi - 1, k);
    }
  }

  /** A digit in front of a run of digits extends it. */
  lemma {:induction false} DigitsCons(line: string, lo: int, hi: int)
    requires 0 <= lo < hi <= |line| && IsDigit(line[lo]) && DigitsIn(line, lo + 1, hi)
    ensures DigitsIn(line, lo, hi)
    decreases hi - lo
  {
    if lo + 1 < hi {
      DigitsCons(line, lo, hi - 1);
    }
  }

  lemma {:induction false} DigitsSlice(line: string, lo: int, hi: int)
    requires 0 <= lo <= hi <= |line| && DigitsIn(line, lo, hi)
    ensures AllDigits(line[lo..hi])
  {
    forall c | c in line[lo..hi] ensures IsDigit(c) {
      var k :| lo <= k < hi && line[k] == c;
      DigitAt(line, lo, hi, k);
    }
  }

  /** Where the run of digits that ends just before column `x` begins. */
  function Back(line: string, x: int): (r: int)
    requires 0 <= x <= |line|
    ensures 0 <= r <= x && DigitsIn(line, r, x)
    ensures r == 0 || !IsDigit(line[r - 1])
    decreases x
  {
    if x > 0 && IsDigit(line[x - 1]) then Back(line, x - 1) else x
  }

  /** Where the run of digits that begins at column `s` ends (exclusive). */
  function RunEnd(line: string, s: int): (r: int)
    requires 0 <= s <= |line|
    ensures s <= r <= |line| && DigitsIn(line, s, r)
    ensures r == |line| || !IsDigit(line[r])
    decreases |line| - s
  {
    if s < |line| && IsDigit(line[s]) then
      var r := RunEnd(line, s + 1);
      DigitsCons(line, s, r);
      r
    else s
  }

  /** The number written from the run start `p`, or the symbol at `p`. */
  function ComponentAt(lines: seq<string>, p: Point): Component
    requires SymbolCell(lines, p) || RunStartCell(lines, p)
  {
    var line := lines[p.y];
    if IsDigit(line[p.x]) then
      var e := RunEnd(line, p.x);
      DigitsSlice(line, p.x, e);
      Number(DigitsValue(line[p.x..e]))
    else
      Symbol(line[p.x])
  }

  /** The position a non-empty cell is mapped to: the first digit of its number, or itself. */
  function Owner(lines: seq<string>, p: Point): Point
    requires OnGrid(lines, p)
  {
    if IsDigit(lines[p.y][p.x]) then Point(Back(lines[p.y], p.x), p.y) else p
  }

  /** `p` comes before `(x, y)` when the lines are read row by row. */
  predicate Before(p: Point, x: int, y: int) {
    p.y < y || (p.y == y && p.x < x)
  }

  /** After reading the cells before `(x, y)`, the components at `p` is known: a symbol read
      already, or a number whose last digit was followed by a non-digit already read (or by
      the end of an earlier line). */
  ghost predicate Settled(lines: seq<string>, p: Point, x: int, y: int) {
    OnGrid(lines, p) && Before(p, x, y) &&
    (SymbolCell(lines, p) || (RunStartCell(lines, p) && (p.y < y || RunEnd(lines[p.y], p.x) < x)))
  }

  ghost predicate ComponentsUpTo(components: map<Point, Component>, lines: seq<string>, x: int, y: int) {
    (forall p :: p in components <==> Settled(lines, p, x, y)) &&
    (forall p :: p in components ==> Settled(lines, p, x, y) && components[p] == ComponentAt(lines, p))
  }

  ghost predicate MapUpTo(componentMap: map<Point, Point>, lines: seq<string>, x: int, y: int) {
    (forall p :: p in componentMap <==> OnGrid(lines, p) && Before(p, x, y) && !IsVoid(lines[p.y][p.x])) &&
    (forall p :: p in componentMap ==> OnGrid(lines, p) && componentMap[p] == Owner(lines, p))
  }

  /** The engine of the whole schematic: every symbol and every number (keyed by its first
      digit), and the owner of every non-empty cell. */
  ghost predicate IsEngineOf(engine: Engine, lines: seq<string>) {
    ComponentsUpTo(engine.components, lines, 0, |lines|) && MapUpTo(engine.componentMap, lines, 0, |lines|)
  }

  /** The engine of a schematic is determined by it. */
  lemma {:induction false} EngineUnique(e1: Engine, e2: Engine, lines: seq<string>)
    requires IsEngineOf(e1, lines) && IsEngineOf(e2, lines)
    ensures e1 == e2
  {
    assert e1.components.Keys == e2.components.Keys;
    assert e1.componentMap.Keys == e2.componentMap.Keys;
  }

  /** What the builder holds in the middle of line `y`, before column `x`: the digits of the
      number being read and, once there is one, where it began. */
  predicate BufferAt(buffer: string, begin: Point, line: string, x: int, y: int)
    requires 0 <= x <= |line|
  {
    buffer == line[Back(line, x)..x] && (Back(line, x) < x ==> begin == Point(Back(line, x), y))
  }

  /** Within one line: the run of digits starting at `s` ends at `x` (a non-digit or the end
      of the line) exactly when it is the run just before `x`. */
  lemma {:induction false} RunClosedAt(line: string, x: int, s: int)
    requires 0 <= x <= |line| && (x == |line| || !IsDigit(line[x])) && 0 <= s < |line|
    ensures (IsDigit(line[s]) && (s == 0 || !IsDigit(line[s - 1])) && RunEnd(line, s) == x) <==>
      (Back(line, x) < x && s == Back(line, x))
  {
    var b := Back(line, x);
    var e := RunEnd(line, s);
    if 0 < b {
      DigitAt(line, s, e, b - 1);
    }
    if 0 < s {
      DigitAt(line, b, x, s - 1);
    }
    if b < |line| {
      DigitAt(line, b, x, b);
    }
    var eb := RunEnd(line, b);
    if eb < |line| {
      DigitAt(line, b, x, eb);
    }
    if x < |line| {
      DigitAt(line, b, eb, x);
    }
  }

  /** The first digit of a number, read inside its line. */
  lemma {:induction false} RunStartIn(lines: seq<string>, y: int, p: Point)
    requires 0 <= y < |lines| && p.y == y && 0 <= p.x < |lines[y]|
    ensures RunStartCell(lines, p) <==> IsDigit(lines[y][p.x]) && (p.x == 0 || !IsDigit(lines[y][p.x - 1]))
  {
  }

  /** A number ends at column `x` (a non-digit or the end of the line) exactly when it is the
      run of digits just before `x`. */
  lemma {:induction false} ClosedAt(lines: seq<string>, x: int, y: int, p: Point)
    requires 0 <= y < |lines| && 0 <= x <= |lines[y]| && (x == |lines[y]| || !IsDigit(lines[y][x]))
    requires p.y == y
    ensures (RunStartCell(lines, p) && RunEnd(lines[y], p.x) == x) <==> (Back(lines[y], x) < x && p == Point(Back(lines[y], x), y))
  {
    if 0 <= p.x < |lines[y]| {
      ClosedInLine(lines, x, y, p);
    }
  }

  lemma {:induction false} ClosedInLine(lines: seq<string>, x: int, y: int, p: Point)
    requires 0 <= y < |lines| && 0 <= x <= |lines[y]| && (x == |lines[y]| || !IsDigit(lines[y][x]))
    requires p.y == y && 0 <= p.x < |lines[y]|
    ensures (RunStartCell(lines, p) && RunEnd(lines[y], p.x) == x) <==> (Back(lines[y], x) < x && p == Point(Back(lines[y], x), y))
  {
    RunStartIn(lines, y, p);
    RunClosedAt(lines[y], x, p.x);
  }

  /** A digit closes nothing: what is settled stays the same. */
  lemma {:induction false} SettledAtDigit(lines: seq<string>, x: int, y: int, p: Point)
    requires 0 <= y < |lines| && 0 <= x < |lines[y]| && IsDigit(lines[y][x])
    ensures Settled(lines, p, x + 1, y) <==> Settled(lines, p, x, y)
  {
    if p.y == y && 0 <= p.x < |lines[y]| {
      var e := RunEnd(lines[y], p.x);
      assert e != x;
    }
  }

  /** A non-digit settles itself if it is a symbol, and the number just before it. */
  lemma {:induction false} SettledAtClose(lines: seq<string>, x: int, y: int, p: Point)
    requires 0 <= y < |lines| && 0 <= x <= |lines[y]| && (x == |lines[y]| || !IsDigit(lines[y][x]))
    ensures Settled(lines, p, x + 1, y) <==>
      Settled(lines, p, x, y) || (p == Point(x, y) && SymbolCell(lines, p)) ||
      (Back(lines[y], x) < x && p == Point(Back(lines[y], x), y))
  {
    if p.y == y {
      ClosedAt(lines, x, y, p);
    }
  }

  /** The digits of the buffer parse to the number of the run that ends at `x`. */
  lemma {:induction false} BufferValue(lines: seq<string>, x: int, y: int)
    requires 0 <= y < |lines| && 0 <= x <= |lines[y]| && (x == |lines[y]| || !IsDigit(lines[y][x]))
    requires Back(lines[y], x) < x
    ensures RunStartCell(lines, Point(Back(lines[y], x), y))
    ensures ParseNat(lines[y][Back(lines[y], x)..x]) == Some(ComponentAt(lines, Point(Back(lines[y], x), y)).n)
  {
    var line := lines[y];
    var b := Back(line, x);
    ClosedAt(lines, x, y, Point(b, y));
    DigitsSlice(line, b, x);
  }

  /** Reading a digit: the cell is mapped to the start of its number and the digit is
      buffered; nothing is settled. */
  lemma {:induction false} DigitStep(lines: seq<string>, x: int, y: int, components: map<Point, Component>, componentMap: map<Point, Point>, buffer: string, begin: Point)
    requires 0 <= y < |lines| && 0 <= x < |lines[y]| && IsDigit(lines[y][x])
    requires ComponentsUpTo(components, lines, x, y) && MapUpTo(componentMap, lines, x, y)
    requires BufferAt(buffer, begin, lines[y], x, y)
    ensures var begin' := if buffer == [] then Point(x, y) else begin;
      ComponentsUpTo(components, lines, x + 1, y) &&
      MapUpTo(componentMap[Point(x, y) := begin'], lines, x + 1, y) &&
      BufferAt(buffer + [lines[y][x]], begin', lines[y], x + 1, y)
  {
    DigitComponents(lines, x, y, components);
    DigitBuffered(lines[y], x, y, buffer, begin);
    DigitMapped(lines, x, y, componentMap, if buffer == [] then Point(x, y) else begin);
  }

  lemma {:induction false} DigitComponents(lines: seq<string>, x: int, y: int, components: map<Point, Component>)
    requires 0 <= y < |lines| && 0 <= x < |lines[y]| && IsDigit(lines[y][x])
    requires ComponentsUpTo(components, lines, x, y)
    ensures ComponentsUpTo(components, lines, x + 1, y)
  {
    forall p ensures Settled(lines, p, x + 1, y) <==> Settled(lines, p, x, y) {
      SettledAtDigit(lines, x, y, p);
    }
  }

  lemma {:induction false} DigitMapped(lines: seq<string>, x: int, y: int, componentMap: map<Point, Point>, begin: Point)
    requires 0 <= y < |lines| && 0 <= x < |lines[y]| && IsDigit(lines[y][x])
    requires MapUpTo(componentMap, lines, x, y) && begin == Point(Back(lines[y], x), y)
    ensures MapUpTo(componentMap[Point(x, y) := begin], lines, x + 1, y)
  {
    assert Owner(lines, Point(x, y)) == begin;
  }

  /** The buffer after a digit: one more digit of the same number. */
  lemma {:induction false} DigitBuffered(line: string, x: int, y: int, buffer: string, begin: Point)
    requires 0 <= x < |line| && IsDigit(line[x]) && BufferAt(buffer, begin, line, x, y)
    ensures var begin' := if buffer == [] then Point(x, y) else begin;
      begin' == Point(Back(line, x), y) && BufferAt(buffer + [line[x]], begin', line, x + 1, y)
  {
    var b := Back(line, x);
    assert Back(line, x + 1) == b;
    assert buffer == [] <==> b == x;
    SliceSnoc(line, b, x);
  }

  lemma {:induction false} SliceSnoc(s: string, lo: int, hi: int)
    requires 0 <= lo <= hi < |s|
    ensures s[lo..hi + 1] == s[lo..hi] + [s[hi]]
  {
  }

  /** What `push_symbol` adds before it flushes. */
  function Added(components: map<Point, Component>, lines: seq<string>, x: int, y: int): map<Point, Component>
    requires 0 <= y < |lines|
  {
    if SymbolCell(lines, Point(x, y)) then components[Point(x, y) := Symbol(lines[y][x])] else components
  }

  /** Reading a non-digit, or the end of the line, at one position `p`. */
  lemma {:induction false} CloseAt(lines: seq<string>, x: int, y: int, components: map<Point, Component>, buffer: string, begin: Point, p: Point)
    requires 0 <= y < |lines| && 0 <= x <= |lines[y]| && (x == |lines[y]| || !IsDigit(lines[y][x]))
    requires BufferAt(buffer, begin, lines[y], x, y)
    requires buffer == [] || ParseNat(buffer).Some?
    requires p in components <==> Settled(lines, p, x, y)
    requires p in components ==> components[p] == ComponentAt(lines, p)
    ensures var flushed := Flush(Added(components, lines, x, y), buffer, begin);
      (p in flushed <==> Settled(lines, p, x + 1, y)) && (p in flushed ==> flushed[p] == ComponentAt(lines, p))
  {
    SettledAtClose(lines, x, y, p);
    if Back(lines[y], x) < x {
      BufferValue(lines, x, y);
    }
  }

  /** Reading a non-digit, or the end of the line: a symbol is settled, and so is the number
      in the buffer, which parses. */
  lemma {:induction false} CloseStep(lines: seq<string>, x: int, y: int, components: map<Point, Component>, buffer: string, begin: Point)
    requires 0 <= y < |lines| && 0 <= x <= |lines[y]| && (x == |lines[y]| || !IsDigit(lines[y][x]))
    requires ComponentsUpTo(components, lines, x, y) && BufferAt(buffer, begin, lines[y], x, y)
    ensures buffer == [] || ParseNat(buffer).Some?
    ensures ComponentsUpTo(Flush(Added(components, lines, x, y), buffer, begin), lines, x + 1, y)
  {
    if Back(lines[y], x) < x {
      BufferValue(lines, x, y);
    }
    var flushed := Flush(Added(components, lines, x, y), buffer, begin);
    forall p ensures (p in flushed <==> Settled(lines, p, x + 1, y)) && (p in flushed ==> flushed[p] == ComponentAt(lines, p)) {
      CloseAt(lines, x, y, components, buffer, begin, p);
    }
  }

  /** Reading a non-digit maps a symbol to itself and leaves an empty cell unmapped. */
  lemma {:induction false} MapCloseStep(lines: seq<string>, x: int, y: int, componentMap: map<Point, Point>)
    requires 0 <= y < |lines| && 0 <= x < |lines[y]| && !IsDigit(lines[y][x])
    requires MapUpTo(componentMap, lines, x, y)
    ensures MapUpTo(if IsVoid(lines[y][x]) then componentMap else componentMap[Point(x, y) := Point(x, y)], lines, x + 1, y)
  {
  }

  /** The end of a line: what was read before its end is what was read before the next
      line. */
  lemma {:induction false} RowEnd(lines: seq<string>, y: int, components: map<Point, Component>, componentMap: map<Point, Point>)
    requires 0 <= y < |lines|
    requires ComponentsUpTo(components, lines, |lines[y]| + 1, y) && MapUpTo(componentMap, lines, |lines[y]|, y)
    ensures ComponentsUpTo(components, lines, 0, y + 1) && MapUpTo(componentMap, lines, 0, y + 1)
  {
    var n := |lines[y]| + 1;
    forall p ensures Settled(lines, p, n, y) <==> Settled(lines, p, 0, y + 1) {
    }
    assert forall p :: OnGrid(lines, p) ==> (Before(p, |lines[y]|, y) <==> Before(p, 0, y + 1));
  }

  /** The number the builder records when it flushes a non-empty buffer. */
  function Flush(components: map<Point, Component>, buffer: string, begin: Point): map<Point, Component>
    requires buffer == [] || ParseNat(buffer).Some?
  {
    if buffer == [] then components else components[begin := Number(ParseNat(buffer).value)]
  }

  /** `EngineBuilder`: the engine built so far, the digits of the number being read and the
      position of its first digit. */
  class EngineBuilder {
    var engine: Engine
    var digitBuffer: string
    var numberBegin: Point

    constructor ()
      ensures engine == Engine(map[], map[]) && digitBuffer == [] && numberBegin == Point(0, 0)
    {
      engine := Engine(map[], map[]);
      digitBuffer := [];
      numberBegin := Point(0, 0);
    }

    /** `push_digit`: a digit that starts a number records where the number begins; every
        digit is mapped to that position and added to the buffer. */
    method PushDigit(x: int, y: int, digit: char)
      modifies this
      ensures numberBegin == if old(digitBuffer) == [] then Point(x, y) else old(numberBegin)
      ensures engine == old(engine).(componentMap := old(engine.componentMap)[Point(x, y) := numberBegin])
      ensures digitBuffer == old(digitBuffer) + [digit]
    {
      var position := Point(x, y);
      if digitBuffer == [] {
        numberBegin := position;
      }
      engine := engine.(componentMap := engine.componentMap[position := numberBegin]);
      digitBuffer := digitBuffer + [digit];
    }

    /** `consume_digit_buffer`: an empty buffer is left alone; otherwise its number is
        recorded where it began and the buffer is cleared. A buffer that does not parse
        panics. */
    method ConsumeDigitBuffer() returns (r: Result<()>)
      modifies this
      ensures r.Err? <==> old(digitBuffer) != [] && ParseNat(old(digitBuffer)).None?
      ensures r.Err? ==> r.msg == "invalid number when consuming digit buffer"
      ensures r.Ok? ==> engine == old(engine).(components := Flush(old(engine.components), old(digitBuffer), old(numberBegin)))
      ensures r.Ok? ==> digitBuffer == [] && numberBegin == old(numberBegin)
    {
      if digitBuffer == [] {
        return Ok(());
      }
      var number := ParseNat(digitBuffer);
      if number.None? {
        return Err("invalid number when consuming digit buffer");
      }
      engine := engine.(components := engine.components[numberBegin := Number(number.value)]);
      digitBuffer := [];
      return Ok(());
    }

    /** `push_symbol`: the symbol is recorded and mapped to itself, then the buffer is
        flushed. */
    method PushSymbol(x: int, y: int, symbol: char) returns (r: Result<()>)
      modifies this
      ensures r.Err? <==> old(digitBuffer) != [] && ParseNat(old(digitBuffer)).None?
      ensures r.Err? ==> r.msg == "invalid number when consuming digit buffer"
      ensures r.Ok? ==> engine == Engine(
        Flush(old(engine.components)[Point(x, y) := Symbol(symbol)], old(digitBuffer), old(numberBegin)),
        old(engine.componentMap)[Point(x, y) := Point(x, y)])
      ensures r.Ok? ==> digitBuffer == [] && numberBegin == old(numberBegin)
    {
      var position := Point(x, y);
      engine := engine.(components := engine.components[position := Symbol(symbol)]);
      engine := engine.(componentMap := engine.componentMap[position := position]);
      r := ConsumeDigitBuffer();
    }

    /** `push_void`: an empty cell only flushes the buffer. */
    method PushVoid() returns (r: Result<()>)
      modifies this
      ensures r.Err? <==> old(digitBuffer) != [] && ParseNat(old(digitBuffer)).None?
      ensures r.Err? ==> r.msg == "invalid number when consuming digit buffer"
      ensures r.Ok? ==> engine == old(engine).(components := Flush(old(engine.components), old(digitBuffer), old(numberBegin)))
      ensures r.Ok? ==> digitBuffer == [] && numberBegin == old(numberBegin)
    {
      r := ConsumeDigitBuffer();
    }

    /** `push`: digits, empty cells (`.` and the space) and symbols (everything else). */
    method Push(x: int, y: int, c: char) returns (r: Result<()>)
      modifies this
      ensures IsDigit(c) ==> (r.Ok? &&
        numberBegin == (if old(digitBuffer) == [] then Point(x, y) else old(numberBegin)) &&
        engine == old(engine).(componentMap := old(engine.componentMap)[Point(x, y) := numberBegin]) &&
        digitBuffer == old(digitBuffer) + [c])
      ensures !IsDigit(c) ==> (r.Err? <==> old(digitBuffer) != [] && ParseNat(old(digitBuffer)).None?)
      ensures r.Err? ==> r.msg == "invalid number when consuming digit buffer"
      ensures !IsDigit(c) && IsVoid(c) && r.Ok? ==>
        engine == old(engine).(components := Flush(old(engine.components), old(digitBuffer), old(numberBegin)))
      ensures !IsDigit(c) && !IsVoid(c) && r.Ok? ==> engine == Engine(
        Flush(old(engine.components)[Point(x, y) := Symbol(c)], old(digitBuffer), old(numberBegin)),
        old(engine.componentMap)[Point(x, y) := Point(x, y)])
      ensures !IsDigit(c) && r.Ok? ==> digitBuffer == [] && numberBegin == old(numberBegin)
    {
      if IsDigit(c) {
        PushDigit(x, y, c);
        r := Ok(());
      } else if IsVoid(c) {
        r := PushVoid();
      } else {
        r := PushSymbol(x, y, c);
      }
    }
  }

  /** The builder's state part-way through line `y`, before column `x`. */
  ghost predicate ReadUpTo(builder: EngineBuilder, lines: seq<string>, x: int, y: int)
    reads builder
    requires 0 <= y < |lines| && 0 <= x <= |lines[y]|
  {
    ComponentsUpTo(builder.engine.components, lines, x, y) &&
    MapUpTo(builder.engine.componentMap, lines, x, y) &&
    BufferAt(builder.digitBuffer, builder.numberBegin, lines[y], x, y)
  }

  /** One step of the inner loop of `solve`: `push` of the character at `(x, y)`. */
  method PushCell(builder: EngineBuilder, lines: seq<string>, x: int, y: int)
    requires 0 <= y < |lines| && 0 <= x < |lines[y]| && ReadUpTo(builder, lines, x, y)
    modifies builder
    ensures ReadUpTo(builder, lines, x + 1, y)
  {
    var c := lines[y][x];
    ghost var components, componentMap := builder.engine.components, builder.engine.componentMap;
    ghost var buffer, begin := builder.digitBuffer, builder.numberBegin;
    if IsDigit(c) {
      DigitStep(lines, x, y, components, componentMap, buffer, begin);
    } else {
      CloseStep(lines, x, y, components, buffer, begin);
      MapCloseStep(lines, x, y, componentMap);
      assert Back(lines[y], x + 1) == x + 1;
    }
    var ok := builder.Push(x, y, c);
    if ok.Err? {
      assert false;
    }
  }

  /** The `push_void` after line `y`: the number at the end of the line is flushed. */
  method EndLine(builder: EngineBuilder, lines: seq<string>, y: int)
    requires 0 <= y < |lines| && ReadUpTo(builder, lines, |lines[y]|, y)
    modifies builder
    ensures ComponentsUpTo(builder.engine.components, lines, 0, y + 1)
    ensures MapUpTo(builder.engine.componentMap, lines, 0, y + 1)
    ensures builder.digitBuffer == []
  {
    CloseStep(lines, |lines[y]|, y, builder.engine.components, builder.digitBuffer, builder.numberBegin);
    var ok := builder.PushVoid();
    if ok.Err? {
      assert false;
    }
    RowEnd(lines, y, builder.engine.components, builder.engine.componentMap);
  }

  /** The loops of `solve` and `build`: every character is pushed at its column and row, and
      an empty cell is pushed after each line, so no number runs across lines. */
  method Build(puzzle: string) returns (engine: Engine)
    ensures IsEngineOf(engine, Lines(puzzle))
  {
    var lines := Lines(puzzle);
    var builder := new EngineBuilder();
    for y := 0 to |lines|
      invariant ComponentsUpTo(builder.engine.components, lines, 0, y)
      invariant MapUpTo(builder.engine.componentMap, lines, 0, y)
      invariant builder.digitBuffer == []
    {
      assert Back(lines[y], 0) == 0;
      for x := 0 to |lines[y]|
        invariant ReadUpTo(builder, lines, x, y)
      {
        PushCell(builder, lines, x, y);
      }
      EndLine(builder, lines, y);
    }
    engine := builder.engine;
  }

  /** `Engine::resolve_position`: where a cell is mapped to, or the cell itself when it is
      not mapped. */
  function ResolvePosition(engine: Engine, x: int, y: int): Point {
    var position := Point(x, y);
    if position in engine.componentMap then engine.componentMap[position] else position
  }

  /** In the engine of a schematic, a digit resolves to the first digit of its number and any
      other position (symbol, empty cell, off the grid) to itself; the resolved position holds
      a component exactly when the cell is not empty. */
  lemma {:induction false} ResolveMeaning(engine: Engine, lines: seq<string>, x: int, y: int)
    requires IsEngineOf(engine, lines)
    ensures var p := Point(x, y);
      ResolvePosition(engine, x, y) == (if OnGrid(lines, p) then Owner(lines, p) else p)
    ensures var p := Point(x, y);
      ResolvePosition(engine, x, y) in engine.components <==> OnGrid(lines, p) && !IsVoid(lines[y][x])
    ensures var q := ResolvePosition(engine, x, y);
      q in engine.components ==> engine.components[q] == ComponentAt(lines, q)
  {
    var p := Point(x, y);
    var q := ResolvePosition(engine, x, y);
    if DigitCell(lines, p) {
      var line := lines[y];
      var b := Back(line, x);
      DigitAt(line, b, x + 1, b);
      assert RunStartCell(lines, q);
    }
  }

  /** `Engine::symbols`: the symbols among the components. */
  method Symbols(engine: Engine) returns (symbols: map<Point, char>)
    ensures forall p :: p in symbols <==> p in engine.components && engine.components[p].Symbol?
    ensures forall p :: p in symbols ==> engine.components[p] == Symbol(symbols[p])
  {
    symbols := map[];
    var todo := engine.components.Keys;
    while todo != {}
      invariant todo <= engine.components.Keys
      invariant forall p :: p in symbols <==> p in engine.components && p !in todo && engine.components[p].Symbol?
      invariant forall p :: p in symbols ==> engine.components[p] == Symbol(symbols[p])
      decreases |todo|
    {
      ghost var some := Seqs.Pick(todo);
      var position :| position in todo;
      var component := engine.components[position];
      if component.Symbol? {
        symbols := symbols[position := component.c];
      }
      todo := todo - {position};
    }
  }

  /** The offsets of the eight neighbours, in the order `get_adjacent_components` visits
      them. */
  const Deltas: seq<(int, int)> := [(-1, -1), (-1, 0), (-1, 1), (0, -1), (0, 1), (1, -1), (1, 0), (1, 1)]

  function Neighbour(x: int, y: int, k: int): Point
    requires 0 <= k < |Deltas|
  {
    Point(x + Deltas[k].0, y + Deltas[k].1)
  }

  /** Where the `k`-th neighbour of `(x, y)` resolves to. */
  function Resolved(engine: Engine, x: int, y: int, k: int): Point
    requires 0 <= k < |Deltas|
  {
    ResolvePosition(engine, Neighbour(x, y, k).x, Neighbour(x, y, k).y)
  }

  /** The components the first `n` neighbours of `(x, y)` resolve to, keyed by the resolved
      position. */
  function Adjacent(engine: Engine, x: int, y: int, n: int): map<Point, Component>
    requires 0 <= n <= |Deltas|
  {
    if n == 0 then map[]
    else
      var q := Resolved(engine, x, y, n - 1);
      if q in engine.components then Adjacent(engine, x, y, n - 1)[q := engine.components[q]]
      else Adjacent(engine, x, y, n - 1)
  }

  /** A position is among the adjacent components exactly when one of the neighbours
      resolves to it and it holds a component; it is there with that component. */
  lemma {:induction false} AdjacentMembers(engine: Engine, x: int, y: int, n: int, q: Point)
    requires 0 <= n <= |Deltas|
    ensures q in Adjacent(engine, x, y, n) <==>
      q in engine.components && exists k :: 0 <= k < n && Resolved(engine, x, y, k) == q
    ensures q in Adjacent(engine, x, y, n) ==> Adjacent(engine, x, y, n)[q] == engine.components[q]
  {
    if n > 0 {
      AdjacentMembers(engine, x, y, n - 1, q);
      if Resolved(engine, x, y, n - 1) == q && q in engine.components {
        assert q in Adjacent(engine, x, y, n);
      }
    }
  }

  /** `Engine::get_adjacent_components`: the components around `(x, y)`, each keyed by its
      resolved position, so a number touching several neighbours is there once. */
  method GetAdjacentComponents(engine: Engine, x: int, y: int) returns (deduper: map<Point, Component>)
    ensures deduper == Adjacent(engine, x, y, |Deltas|)
  {
    deduper := map[];
    for k := 0 to |Deltas|
      invariant deduper == Adjacent(engine, x, y, k)
    {
      var (dx, dy) := Deltas[k];
      var position := ResolvePosition(engine, x + dx, y + dy);
      if position in engine.components {
        deduper := deduper[position := engine.components[position]];
      }
    }
  }

  /** The positions among some adjacent components that hold numbers. */
  function NumberKeys(adjacents: map<Point, Component>): set<Point> {
    set q | q in adjacents && adjacents[q].Number?
  }

  /** The numbers next to `(x, y)` in the schematic, each named by its first digit. */
  ghost function NumberOwners(lines: seq<string>, x: int, y: int): set<Point> {
    set k | 0 <= k < |Deltas| && DigitCell(lines, Neighbour(x, y, k)) :: Owner(lines, Neighbour(x, y, k))
  }

  /** A neighbour resolves to a number exactly when it is a digit, and then to the first digit
      of that number. */
  lemma {:induction false} NeighbourNumber(engine: Engine, lines: seq<string>, x: int, y: int, k: int)
    requires IsEngineOf(engine, lines) && 0 <= k < |Deltas|
    ensures var q := Resolved(engine, x, y, k);
      (q in engine.components && engine.components[q].Number?) <==> DigitCell(lines, Neighbour(x, y, k))
    ensures DigitCell(lines, Neighbour(x, y, k)) ==> Resolved(engine, x, y, k) == Owner(lines, Neighbour(x, y, k))
  {
    var p := Neighbour(x, y, k);
    ResolveMeaning(engine, lines, p.x, p.y);
    if DigitCell(lines, p) {
      var line := lines[p.y];
      var b := Back(line, p.x);
      DigitAt(line, b, p.x + 1, b);
      assert IsDigit(lines[p.y][b]);
    }
  }

  /** The numbers among the adjacent components are the numbers the neighbours of `(x, y)`
      belong to: a number counts once however many neighbours it covers. */
  lemma {:induction false} AdjacentNumbers(engine: Engine, lines: seq<string>, x: int, y: int)
    requires IsEngineOf(engine, lines)
    ensures NumberKeys(Adjacent(engine, x, y, |Deltas|)) == NumberOwners(lines, x, y)
  {
    var adjacents := Adjacent(engine, x, y, |Deltas|);
    forall q ensures q in NumberKeys(adjacents) <==> q in NumberOwners(lines, x, y) {
      AdjacentMembers(engine, x, y, |Deltas|, q);
      if q in NumberKeys(adjacents) {
        var k :| 0 <= k < |Deltas| && Resolved(engine, x, y, k) == q;
        NeighbourNumber(engine, lines, x, y, k);
      }
      if q in NumberOwners(lines, x, y) {
        var k :| 0 <= k < |Deltas| && DigitCell(lines, Neighbour(x, y, k)) && Owner(lines, Neighbour(x, y, k)) == q;
        NeighbourNumber(engine, lines, x, y, k);
      }
    }
  }

  /** The product of the two numbers among the adjacent components. */
  ghost function GearRatio(adjacents: map<Point, Component>): int
    requires |NumberKeys(adjacents)| == 2
  {
    var keys := NumberKeys(adjacents);
    assert keys != {};
    var a :| a in keys;
    assert keys - {a} != {} by {
      assert |keys - {a}| == 1;
    }
    var b :| b in keys - {a};
    adjacents[a].n * adjacents[b].n
  }

  /** With exactly two numbers around, the ratio is their product, whichever order they are
      taken in. */
  lemma {:induction false} RatioOfTwo(adjacents: map<Point, Component>, a: Point, b: Point)
    requires |NumberKeys(adjacents)| == 2
    requires a in NumberKeys(adjacents) && b in NumberKeys(adjacents) && a != b
    ensures GearRatio(adjacents) == adjacents[a].n * adjacents[b].n
  {
    var keys := NumberKeys(adjacents);
    assert |keys - {a} - {b}| == 0;
    assert keys - {a} - {b} == {};
  }

  /** The `filter_map` over the adjacent components: their numbers, in the order the map is
      visited in. */
  method Numbers(adjacents: map<Point, Component>) returns (numbers: seq<int>, ghost keys: seq<Point>)
    ensures |numbers| == |keys| == |NumberKeys(adjacents)|
    ensures forall i :: 0 <= i < |keys| ==> keys[i] in NumberKeys(adjacents) && adjacents[keys[i]] == Number(numbers[i])
    ensures forall i, j :: 0 <= i < j < |keys| ==> keys[i] != keys[j]
  {
    numbers, keys := [], [];
    ghost var found: set<Point> := {};
    var todo := adjacents.Keys;
    while todo != {}
      invariant todo <= adjacents.Keys
      invariant forall q :: q in found <==> q in adjacents && adjacents[q].Number? && q !in todo
      invariant |numbers| == |keys| == |found|
      invariant forall i :: 0 <= i < |keys| ==> keys[i] in found && adjacents[keys[i]] == Number(numbers[i])
      invariant forall i, j :: 0 <= i < j < |keys| ==> keys[i] != keys[j]
      decreases |todo|
    {
      ghost var some := Seqs.Pick(todo);
      var position :| position in todo;
      if adjacents[position].Number? {
        numbers := numbers + [adjacents[position].n];
        keys := keys + [position];
        found := found + {position};
      }
      todo := todo - {position};
    }
    assert found == NumberKeys(adjacents);
  }

  /** A `*` with exactly two numbers among its adjacent components. */
  ghost predicate IsGear(engine: Engine, p: Point) {
    p in engine.components && engine.components[p] == Symbol('*') &&
    |NumberKeys(Adjacent(engine, p.x, p.y, |Deltas|))| == 2
  }

  /** The gears of the engine with their ratios. */
  ghost function Gears(engine: Engine): map<Point, Gear> {
    map p | p in engine.components && IsGear(engine, p) :: Gear(GearRatio(Adjacent(engine, p.x, p.y, |Deltas|)))
  }

  /** `Engine::get_gears`: every `*` symbol with exactly two adjacent numbers, with their
      product as ratio. */
  method GetGears(engine: Engine) returns (gears: map<Point, Gear>)
    ensures gears == Gears(engine)
  {
    gears := map[];
    var symbols := Symbols(engine);
    var todo := symbols.Keys;
    while todo != {}
      invariant todo <= symbols.Keys
      invariant forall p :: p in gears <==> p in symbols && p !in todo && IsGear(engine, p)
      invariant forall p :: p in gears ==> IsGear(engine, p) && gears[p] == Gear(GearRatio(Adjacent(engine, p.x, p.y, |Deltas|)))
      decreases |todo|
    {
      ghost var some := Seqs.Pick(todo);
      var position :| position in todo;
      var symbol := symbols[position];
      if symbol == '*' {
        var adjacents := GetAdjacentComponents(engine, position.x, position.y);
        ghost var keys;
        var numbers;
        numbers, keys := Numbers(adjacents);
        if |numbers| == 2 {
          var ratio := numbers[0] * numbers[1];
          RatioOfTwo(adjacents, keys[0], keys[1]);
          gears := gears[position := Gear(ratio)];
        }
      }
      todo := todo - {position};
    }
    assert gears.Keys == Gears(engine).Keys;
  }

  /** The sum of the ratios of some gears, in no particular order. */
  ghost function SumRatios(gears: map<Point, Gear>): int
    decreases |gears|
  {
    if gears == map[] then 0
    else
      assert gears.Keys != {};
      var p :| p in gears;
      gears[p].ratio + SumRatios(gears - {p})
  }

  /** The sum does not depend on the gear taken first. */
  lemma {:induction false} SumRatiosRemove(gears: map<Point, Gear>, p: Point)
    requires p in gears
    ensures SumRatios(gears) == gears[p].ratio + SumRatios(gears - {p})
    decreases |gears|
  {
    assert gears.Keys != {};
    var q :| q in gears && SumRatios(gears) == gears[q].ratio + SumRatios(gears - {q});
    if q != p {
      SumRatiosRemove(gears - {q}, p);
      SumRatiosRemove(gears - {p}, q);
      assert gears - {q} - {p} == gears - {p} - {q};
    }
  }

  /** The `sum` of the ratios over the gears. */
  method SumOfRatios(gears: map<Point, Gear>) returns (total: int)
    ensures total == SumRatios(gears)
  {
    total := 0;
    var rest := gears;
    while rest != map[]
      invariant total + SumRatios(rest) == SumRatios(gears)
      decreases |rest|
    {
      ghost var some := Seqs.Pick(rest.Keys);
      var position :| position in rest;
      SumRatiosRemove(rest, position);
      total := total + rest[position].ratio;
      rest := rest - {position};
    }
  }

  /** `solve`: build the engine of the lines, find its gears and add up their ratios. */
  method Solve(puzzle: string) returns (r: int)
    ensures exists engine :: IsEngineOf(engine, Lines(puzzle)) && r == SumRatios(Gears(engine))
  {
    var engine := Build(puzzle);
    var gears := GetGears(engine);
    r := SumOfRatios(gears);
  }

  /** A gear of the engine of a schematic is a `*` cell next to exactly two numbers, and its
      ratio is the product of those numbers. */
  lemma {:induction false} GearsMeaning(engine: Engine, lines: seq<string>, p: Point)
    requires IsEngineOf(engine, lines)
    ensures p in Gears(engine) <==> SymbolCell(lines, p) && lines[p.y][p.x] == '*' && |NumberOwners(lines, p.x, p.y)| == 2
  {
    AdjacentNumbers(engine, lines, p.x, p.y);
  }

  lemma {:induction false} GearRatioMeaning(engine: Engine, lines: seq<string>, p: Point, a: Point, b: Point)
    requires IsEngineOf(engine, lines) && p in Gears(engine)
    requires a in NumberOwners(lines, p.x, p.y) && b in NumberOwners(lines, p.x, p.y) && a != b
    ensures RunStartCell(lines, a) && RunStartCell(lines, b)
    ensures Gears(engine)[p].ratio == ComponentAt(lines, a).n * ComponentAt(lines, b).n
  {
    AdjacentNumbers(engine, lines, p.x, p.y);
    var adjacents := Adjacent(engine, p.x, p.y, |Deltas|);
    AdjacentMembers(engine, p.x, p.y, |Deltas|, a);
    AdjacentMembers(engine, p.x, p.y, |Deltas|, b);
    RatioOfTwo(adjacents, a, b);
  }
}
