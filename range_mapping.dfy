/** The range remapping pipeline (src/bin/d5p1.rs): each stage is a list of half-open offset
    maps; a value passes through the stages in order, taking the first map of a stage that
    covers it or staying unchanged, and the answer is the least final value over the seeds. */
module RangeMapping {
  import opened Wrappers
  import Text
  import Seqs

  /** A source range `[sourceStart, sourceEnd)` shifted onto `[targetStart, targetEnd)`. */
  datatype RangeMapper = RangeMapper(sourceStart: int, sourceEnd: int, targetStart: int, targetEnd: int)

  /** `RangeMapper::new`: both ranges have the given length. */
  function NewMapper(sourceStart: int, targetStart: int, length: int): (m: RangeMapper)
    ensures m.sourceStart == sourceStart && m.targetStart == targetStart
    ensures m.sourceEnd - m.sourceStart == length && m.targetEnd - m.targetStart == length
  {
    RangeMapper(sourceStart, sourceStart + length, targetStart, targetStart + length)
  }

  /** The next space-separated field of a mapper line, as a number. */
  function Field(fields: seq<string>, k: nat, missing: string, malformed: string): (r: Result<int>)
    ensures k >= |fields| ==> r == Err(missing)
    ensures k < |fields| && Text.ParseInt(fields[k]).None? ==> r == Err(malformed)
    ensures k < |fields| && Text.ParseInt(fields[k]).Some? ==> r == Ok(Text.ParseInt(fields[k]).value)
  {
    if k >= |fields| then Err(missing)
    else Expect(Text.ParseInt(fields[k]), malformed)
  }

  /** `RangeMapper::parse`: the fields of `target source length`, in that order; fields after
      the third are ignored. */
  function ParseMapper(line: string): Result<RangeMapper> {
    var fields := Text.Split(line, " ");
    var targetStart :- Field(fields, 0, "no target start to read", "target start is not a number");
    var sourceStart :- Field(fields, 1, "no source start to read", "source start is not a number");
    var length :- Field(fields, 2, "no range length to read", "range length is not a number");
    Ok(NewMapper(sourceStart, targetStart, length))
  }

  /** A line of three numbers parses into the mapper whose source starts at the second, whose
      target starts at the first, and whose length is the third. */
  lemma {:induction false} ParseMapperFields(line: string, t: int, s: int, n: int)
    requires var fields := Text.Split(line, " ");
      |fields| >= 3 && Text.ParseInt(fields[0]) == Some(t) && Text.ParseInt(fields[1]) == Some(s)
      && Text.ParseInt(fields[2]) == Some(n)
    ensures ParseMapper(line) == Ok(NewMapper(s, t, n))
  {
  }

  /** `RangeMapper::map`: values in the source range move by the offset between the starts;
      the result must also fall in the target range. */
  function Map(m: RangeMapper, x: int): Option<int> {
    if !(m.sourceStart <= x < m.sourceEnd) then None
    else
      var result := m.targetStart + (x - m.sourceStart);
      if !(m.targetStart <= result < m.targetEnd) then None else Some(result)
  }

  /** For a mapper made by `NewMapper` the target check never rejects: the value is mapped
      exactly when it lies in the source range. */
  lemma {:induction false} MapOfNew(sourceStart: int, targetStart: int, length: int, x: int)
    ensures Map(NewMapper(sourceStart, targetStart, length), x)
      == if sourceStart <= x < sourceStart + length then Some(targetStart + x - sourceStart) else None
  {
  }

  /** `CompositeRangeMapper::map`: the first mapper of the stage that maps the value. */
  function CompositeMap(mappers: seq<RangeMapper>, x: int): Option<int> {
    if mappers == [] then None
    else
      match Map(mappers[0], x)
      case Some(y) => Some(y)
      case None => CompositeMap(mappers[1..], x)
  }

  /** The stage maps a value exactly when some mapper does, and then with the first such one. */
  lemma {:induction false} CompositeMapFirst(mappers: seq<RangeMapper>, x: int)
    ensures CompositeMap(mappers, x).None? <==> forall k :: 0 <= k < |mappers| ==> Map(mappers[k], x).None?
    ensures CompositeMap(mappers, x).Some? ==>
      exists k :: (0 <= k < |mappers| && Map(mappers[k], x) == CompositeMap(mappers, x)
        && forall j :: 0 <= j < k ==> Map(mappers[j], x).None?)
  {
    if mappers != [] {
      CompositeMapFirst(mappers[1..], x);
      assert forall k :: 1 <= k < |mappers| ==> mappers[k] == mappers[1..][k - 1];
      if Map(mappers[0], x).None? && CompositeMap(mappers, x).Some? {
        var k :| 0 <= k < |mappers| - 1 && Map(mappers[1..][k], x) == CompositeMap(mappers, x)
          && forall j :: 0 <= j < k ==> Map(mappers[1..][j], x).None?;
        assert Map(mappers[k + 1], x) == CompositeMap(mappers, x);
      }
    }
  }

  /** The value a seed ends at: each stage maps it or leaves it unchanged. */
  function Location(stages: seq<seq<RangeMapper>>, x: int): int {
    if stages == [] then x else Location(stages[1..], CompositeMap(stages[0], x).GetOr(x))
  }

  /** Running the stages in two parts runs them all in order. */
  lemma {:induction false} LocationAppend(first: seq<seq<RangeMapper>>, rest: seq<seq<RangeMapper>>, x: int)
    ensures Location(first + rest, x) == Location(rest, Location(first, x))
  {
    if first == [] {
      assert first + rest == rest;
    } else {
      assert (first + rest)[0] == first[0];
      assert (first + rest)[1..] == first[1..] + rest;
      LocationAppend(first[1..], rest, CompositeMap(first[0], x).GetOr(x));
    }
  }

  /** A value that no mapper of any stage covers ends where it started. */
  lemma {:induction false} LocationUnmapped(stages: seq<seq<RangeMapper>>, x: int)
    requires forall i, k :: 0 <= i < |stages| && 0 <= k < |stages[i]| ==> Map(stages[i][k], x).None?
    ensures Location(stages, x) == x
  {
    if stages != [] {
      CompositeMapFirst(stages[0], x);
      var tail := stages[1..];
      assert forall i :: 0 <= i < |tail| ==> tail[i] == stages[i + 1];
      LocationUnmapped(stages[1..], x);
    }
  }

  /** `min()` of a sequence. */
  function Min(xs: seq<int>): (r: Option<int>)
    ensures r.None? <==> xs == []
    ensures r.Some? ==> r.value in xs && forall k :: 0 <= k < |xs| ==> r.value <= xs[k]
  {
    if xs == [] then None
    else
      match Min(xs[1..])
      case None => Some(xs[0])
      case Some(m) => Some(if xs[0] <= m then xs[0] else m)
  }

  /** Whether `normalize` keeps a line: blank lines and lines starting with a digit. */
  predicate KeepLine(line: string) {
    line == [] || Text.IsDigit(line[0])
  }

  /** The kept lines, in order. */
  function KeptLines(lines: seq<string>): (r: seq<string>)
    ensures forall k :: 0 <= k < |r| ==> KeepLine(r[k]) && r[k] in lines
    ensures forall line :: line in lines && KeepLine(line) ==> line in r
  {
    Seqs.FilterMembers(lines, KeepLine);
    Seqs.Filter(lines, KeepLine)
  }

  /** The kept lines keep their order: they are the lines at increasing positions, and those
      positions are exactly the blank lines and the lines that start with a digit. */
  lemma {:induction false} KeptLinesInOrder(lines: seq<string>)
    ensures exists idx :: Seqs.Picks(lines, idx, KeptLines(lines)) && forall i :: 0 <= i < |lines| ==> (KeepLine(lines[i]) <==> i in idx)
  {
    Seqs.FilterInOrder(lines, KeepLine);
    var idx :| Seqs.Picks(lines, idx, Seqs.Filter(lines, KeepLine)) && forall i :: 0 <= i < |lines| ==> (KeepLine(lines[i]) <==> i in idx);
    assert KeptLines(lines) == Seqs.Filter(lines, KeepLine);
  }

  /** `normalize`: trim, drop the first `seeds: `, drop the header lines, keep the blank lines
      that separate the stages. */
  function Normalize(puzzle: string): string {
    Text.Join(KeptLines(Text.Lines(Text.ReplaceFirst(Text.Trim(puzzle), "seeds: ", ""))), "\n")
  }

  function ParseSeed(s: string): Result<int> {
    Expect(Text.ParseInt(s), "seed number is not a number")
  }

  function ParseStage(block: string): Result<seq<RangeMapper>> {
    Seqs.TryMap(Text.Lines(block), ParseMapper)
  }

  /** The least location over the seeds; `min` of no seeds has nothing to return. */
  function LeastLocation(seeds: seq<int>, stages: seq<seq<RangeMapper>>): (r: Result<int>)
    ensures r.Err? <==> seeds == []
    ensures r.Ok? ==> exists k :: 0 <= k < |seeds| && r.value == Location(stages, seeds[k])
    ensures r.Ok? ==> forall k :: 0 <= k < |seeds| ==> r.value <= Location(stages, seeds[k])
  {
    var locations := seq(|seeds|, k requires 0 <= k < |seeds| => Location(stages, seeds[k]));
    assert forall k :: 0 <= k < |seeds| ==> locations[k] == Location(stages, seeds[k]);
    Expect(Min(locations), "no seeds to calculate the min")
  }

  /** `solve`: the first block lists the seeds, each further block is a stage; the seeds are
      parsed before the stages. */
  function Solve(puzzle: string): Result<int> {
    var blocks := Text.Split(Normalize(puzzle), "\n\n");
    var seeds :- Seqs.TryMap(Text.Split(blocks[0], " "), ParseSeed);
    var stages :- Seqs.TryMap(blocks[1..], ParseStage);
    LeastLocation(seeds, stages)
  }
}

/** The examples of the seed puzzle. */
module RangeMappingExamples {
  import opened Wrappers
  import opened RangeMapping

  /** The mapper `50 98 2`: 97 and 100 fall outside, 98 and 99 go to 50 and 51. */
  lemma {:induction false} MapperExample()
    ensures var m := NewMapper(98, 50, 2);
      Map(m, 97) == None && Map(m, 98) == Some(50) && Map(m, 99) == Some(51) && Map(m, 100) == None
  {
  }

  /** The seven stages of the worked example, as parsed. */
  function ExampleStages(): seq<seq<RangeMapper>> {
    [ [NewMapper(98, 50, 2), NewMapper(50, 52, 48)],
      [NewMapper(15, 0, 37), NewMapper(52, 37, 2), NewMapper(0, 39, 15)],
      [NewMapper(53, 49, 8), NewMapper(11, 0, 42), NewMapper(0, 42, 7), NewMapper(7, 57, 4)],
      [NewMapper(18, 88, 7), NewMapper(25, 18, 70)],
      [NewMapper(77, 45, 23), NewMapper(45, 81, 19), NewMapper(64, 68, 13)],
      [NewMapper(69, 0, 1), NewMapper(0, 1, 69)],
      [NewMapper(56, 60, 37), NewMapper(93, 56, 4)] ]
  }

  /** Seed 79 ends at 82. */
  lemma {:induction false} Seed79()
    ensures Location(ExampleStages(), 79) == 82
  {
  }

  /** Seed 14 ends at 43. */
  lemma {:induction false} Seed14()
    ensures Location(ExampleStages(), 14) == 43
  {
  }

  /** Seed 55 ends at 86. */
  lemma {:induction false} Seed55()
    ensures Location(ExampleStages(), 55) == 86
  {
  }

  /** Seed 13 ends at 35, the least of the four. */
  lemma {:induction false} Seed13()
    ensures Location(ExampleStages(), 13) == 35
  {
    var stages := ExampleStages();
    assert Location(stages[6..], 35) == 35;
    assert Location(stages[5..], 34) == 35;
    assert Location(stages[3..], 41) == 35;
    assert Location(stages[2..], 52) == 35;
    assert Location(stages[1..], 13) == 35;
  }

  /** The seeds `79 14 55 13` of the worked example reach 35 at the least. */
  lemma {:induction false} ExampleLeastLocation()
    ensures LeastLocation([79, 14, 55, 13], ExampleStages()) == Ok(35)
  {
    Seed79();
    Seed14();
    Seed55();
    Seed13();
    LeastOfFour([79, 14, 55, 13], ExampleStages());
  }

  /** Four seeds whose locations are 82, 43, 86 and 35 have 35 as their least location. */
  lemma {:induction false} LeastOfFour(seeds: seq<int>, stages: seq<seq<RangeMapper>>)
    requires |seeds| == 4
    requires Location(stages, seeds[0]) == 82 && Location(stages, seeds[1]) == 43
    requires Location(stages, seeds[2]) == 86 && Location(stages, seeds[3]) == 35
    ensures LeastLocation(seeds, stages) == Ok(35)
  {
    var r := LeastLocation(seeds, stages);
    var k :| 0 <= k < |seeds| && r.value == Location(stages, seeds[k]);
    assert r.value <= Location(stages, seeds[3]);
  }
}
