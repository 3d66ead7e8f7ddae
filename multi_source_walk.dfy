/** The multi-source walk (src/bin/d8p2.rs): every node whose label ends in `A` walks, with the
    shared tape, until it first stands on a label ending in `Z`; the answer is the `lcm` of
    those step counts, folded over the starts in the network's (unspecified) key order. */
module MultiSourceWalk {
  import opened Wrappers
  import Text
  import opened NetworkWalk
  import opened NumberTheory

  /** The labels that end in `A`. */
  ghost function Starts(net: Network): set<string> {
    set id | id in net && Reached(EndsWith('A'), id)
  }

  /** `follow` from one start, with at most `fuel` steps. */
  function Count(net: Network, tape: string, start: string, fuel: nat): Result<nat> {
    Follow(net, tape, start, EndsWith('Z'), 0, fuel)
  }

  /** The step counts of the starts in `from` whose walk succeeds. */
  ghost function Counts(net: Network, tape: string, from: set<string>, fuel: nat): set<nat> {
    set s | s in from && Count(net, tape, s, fuel).Ok? :: Count(net, tape, s, fuel).value
  }

  /** A start ends in `A`, not in `Z`, so its walk takes at least one step. */
  lemma {:induction false} StartCountPositive(net: Network, tape: string, s: string, fuel: nat)
    requires Reached(EndsWith('A'), s) && Count(net, tape, s, fuel).Ok?
    ensures Count(net, tape, s, fuel).value > 0
  {
  }

  /** Adding one start whose walk succeeds adds its count. */
  lemma {:induction false} CountsAdd(net: Network, tape: string, from: set<string>, s: string, fuel: nat)
    requires Count(net, tape, s, fuel).Ok?
    ensures Counts(net, tape, from + {s}, fuel) == Counts(net, tape, from, fuel) + {Count(net, tape, s, fuel).value}
  {
  }

  /** What the fold knows after folding `starts - todo`: every walk so far succeeded and
      `acc` is the least common multiple of their counts. */
  ghost predicate Folded(net: Network, tape: string, starts: set<string>, todo: set<string>, acc: nat, fuel: nat) {
    && todo <= starts
    && (forall s :: s in starts - todo ==> Count(net, tape, s, fuel).Ok?)
    && (todo != starts ==> IsLcmOf(acc, Counts(net, tape, starts - todo, fuel)))
  }

  /** Folding the count of one more start keeps `Folded`. */
  lemma {:induction false} FoldStep(net: Network, tape: string, starts: set<string>, todo: set<string>, acc: nat, s: string, fuel: nat)
    requires Folded(net, tape, starts, todo, acc, fuel) && s in todo
    requires Reached(EndsWith('A'), s) && Count(net, tape, s, fuel).Ok?
    ensures var c := Count(net, tape, s, fuel).value;
      Folded(net, tape, starts, todo - {s}, if todo == starts then c else Lcm(acc, c), fuel)
  {
    var c := Count(net, tape, s, fuel).value;
    StartCountPositive(net, tape, s, fuel);
    var done := starts - todo;
    CountsAdd(net, tape, done, s, fuel);
    assert starts - (todo - {s}) == done + {s};
    if todo == starts {
      assert done == {};
      LcmOfOne(c);
    } else {
      LcmExtend(acc, Counts(net, tape, done, fuel), c);
    }
  }

  /** The `map(follow)` and `reduce(lcm)` over the starts, taken in an arbitrary order. */
  method FoldCounts(net: Network, tape: string, starts: set<string>, fuel: nat) returns (r: Result<nat>)
    requires starts != {} && forall s :: s in starts ==> Reached(EndsWith('A'), s)
    ensures r.Ok? <==> forall s :: s in starts ==> Count(net, tape, s, fuel).Ok?
    ensures r.Ok? ==> IsLcmOf(r.value, Counts(net, tape, starts, fuel))
    ensures r.Err? ==> exists s :: s in starts && Count(net, tape, s, fuel) == Err(r.msg)
  {
    var todo := starts;
    var acc: nat := 0;
    while todo != {}
      invariant Folded(net, tape, starts, todo, acc, fuel)
      decreases |todo|
    {
      var s :| s in todo;
      var count := Walk(net, tape, s, EndsWith('Z'), fuel);
      if count.Err? {
        return Err(count.msg);
      }
      FoldStep(net, tape, starts, todo, acc, s, fuel);
      acc := if todo == starts then count.value else Lcm(acc, count.value);
      todo := todo - {s};
    }
    assert starts - todo == starts;
    return Ok(acc);
  }

  /** `solve`: the tape and the network as in the single walk, then the fold over the starts;
      with no start at all there is nothing to reduce. */
  method Solve(puzzle: string, fuel: nat) returns (r: Result<nat>)
    ensures var lines := Text.Lines(Normalize(puzzle));
      && (lines == [] ==> r == Err("no directions to read"))
      && (lines != [] && BuildNetwork(lines[1..]).Err? ==> r == Err(BuildNetwork(lines[1..]).msg))
      && (lines != [] && BuildNetwork(lines[1..]).Ok? ==>
            var net, tape := BuildNetwork(lines[1..]).value, lines[0];
            && (Starts(net) == {} ==> r == Err("nothing to reduce"))
            && (r.Ok? <==> Starts(net) != {} && forall s :: s in Starts(net) ==> Count(net, tape, s, fuel).Ok?)
            && (r.Ok? ==> IsLcmOf(r.value, Counts(net, tape, Starts(net), fuel)))
            && (r.Err? && Starts(net) != {} ==>
                  exists s :: s in Starts(net) && Count(net, tape, s, fuel) == Err(r.msg)))
  {
    var lines := Text.Lines(Normalize(puzzle));
    if lines == [] {
      return Err("no directions to read");
    }
    var built := BuildNetwork(lines[1..]);
    if built.Err? {
      return Err(built.msg);
    }
    var net := built.value;
    var starts := set id | id in net && Reached(EndsWith('A'), id);
    assert starts == Starts(net);
    if starts == {} {
      return Err("nothing to reduce");
    }
    r := FoldCounts(net, lines[0], starts, fuel);
  }
}

/** The worked example of the multi-source puzzle. */
module MultiSourceWalkExamples {
  import opened Wrappers
  import opened NumberTheory
  import opened MultiSourceWalk

  /** Tape `LR`: `11A` first reaches a `Z` label after 2 steps and `22A` after 3, so the
      answer is 6. */
  lemma {:induction false} LongExample()
    ensures var net := map["11A" := ("11B", "FFF"), "11B" := ("FFF", "11Z"), "11Z" := ("11B", "FFF"),
                           "22A" := ("22B", "FFF"), "22B" := ("22C", "22C"), "22C" := ("22Z", "22Z"),
                           "22Z" := ("22B", "22B"), "FFF" := ("FFF", "FFF")];
      Count(net, "LR", "11A", 10) == Ok(2) && Count(net, "LR", "22A", 10) == Ok(3) && Lcm(2, 3) == 6
  {
  }
}
