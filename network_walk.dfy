/** The directional network walker (src/bin/d8p1.rs): a tape of `L`/`R` instructions, replayed
    cyclically, drives a walk over a map from node labels to (left, right) children; the answer
    is the number of steps from `AAA` until the walk stands on `ZZZ`. The walk and the parsing
    are shared with the multi-source variant (src/bin/d8p2.rs), whose `normalize`, network
    construction and `follow` loop are the same code. */
module NetworkWalk {
  import opened Wrappers
  import Text
  import Seqs

  type Network = map<string, (string, string)>

  /** A parsed node line: the label and its (left, right) children. */
  type Node = (string, (string, string))

  /** `normalize`: merge the blank line after the tape, drop spaces and parentheses, and turn
      `=` into `,`, so that `X = (L, R)` becomes `X,L,R`. */
  function Normalize(puzzle: string): string {
    Text.ReplaceChars(Text.ReplaceChars(Text.Replace(puzzle, "\n\n", "\n"), {' ', '(', ')'}, ""), {'='}, ",")
  }

  lemma {:induction false} NormalizeStripsDecorations(puzzle: string)
    ensures forall c :: c in Normalize(puzzle) ==> c !in {' ', '(', ')', '='}
  {
    var merged := Text.Replace(puzzle, "\n\n", "\n");
    var bare := Text.ReplaceChars(merged, {' ', '(', ')'}, "");
    Text.ReplaceCharsKeeps(merged, {' ', '(', ')'}, "");
    Text.ReplaceCharsKeeps(bare, {'='}, ",");
  }

  /** A label as the puzzle writes it: none of the characters `normalize` rewrites, and no
      newline. */
  predicate PlainLabel(x: string) {
    forall c :: c in x ==> c != ' ' && c != '(' && c != ')' && c != '=' && c != '\n'
  }

  /** `normalize` turns a node line `X = (L, R)` into `X,L,R`. */
  lemma {:induction false} NormalizeNodeLine(x: string, l: string, r: string)
    requires PlainLabel(x) && PlainLabel(l) && PlainLabel(r)
    ensures Normalize(x + " = (" + l + ", " + r + ")") == x + "," + l + "," + r
  {
    var line := x + " = (" + l + ", " + r + ")";
    assert '\n' !in line;
    Text.NoFirstCharNotContained(line, "\n\n");
    Text.ReplaceAbsent(line, "\n\n", "\n");
    var bare := x + "=" + l + "," + r;
    StripDecorations(x, l, r);
    PlainLabelKept(x, {' ', '(', ')'}, "");
    PlainLabelKept(l, {' ', '(', ')'}, "");
    PlainLabelKept(r, {' ', '(', ')'}, "");
    assert Text.ReplaceChars(line, {' ', '(', ')'}, "") == bare;
    EqualsToComma(x, l, r);
    PlainLabelKept(x, {'='}, ",");
    PlainLabelKept(l, {'='}, ",");
    PlainLabelKept(r, {'='}, ",");
  }

  /** A plain label is left as it is by a replacement of characters it does not hold. */
  lemma {:induction false} PlainLabelKept(x: string, cs: set<char>, rep: string)
    requires PlainLabel(x) && cs <= {' ', '(', ')', '='}
    ensures Text.ReplaceChars(x, cs, rep) == x
  {
    Text.ReplaceCharsKeeps(x, cs, rep);
  }

  /** Dropping spaces and parentheses from a node line, piece by piece. */
  lemma {:induction false} StripDecorations(x: string, l: string, r: string)
    ensures var cs := {' ', '(', ')'};
      Text.ReplaceChars(x + " = (" + l + ", " + r + ")", cs, "") ==
      Text.ReplaceChars(x, cs, "") + "=" + Text.ReplaceChars(l, cs, "") + "," + Text.ReplaceChars(r, cs, "")
  {
    var cs := {' ', '(', ')'};
    Text.ReplaceCharsAppend(x + " = (" + l + ", " + r, ")", ' ', cs, "");
    Text.ReplaceCharsAppend(x + " = (" + l + ", ", r, ' ', cs, "");
    Text.ReplaceCharsAppend(x + " = (" + l, ", ", ' ', cs, "");
    Text.ReplaceCharsAppend(x + " = (", l, ' ', cs, "");
    Text.ReplaceCharsAppend(x, " = (", ' ', cs, "");
    StripLiterals();
  }

  /** The literal parts of a node line without their spaces and parentheses. */
  lemma {:induction false} StripLiterals()
    ensures Text.ReplaceChars(" = (", {' ', '(', ')'}, "") == "="
    ensures Text.ReplaceChars(", ", {' ', '(', ')'}, "") == ","
    ensures Text.ReplaceChars(")", {' ', '(', ')'}, "") == ""
  {
    StripOne(' ', "= (");
    StripOne('=', " (");
    StripOne(' ', "(");
    StripOne('(', "");
    StripOne(',', " ");
    StripOne(' ', "");
    StripOne(')', "");
  }

  /** The first character of a literal, then the rest. */
  lemma {:induction false} StripOne(c: char, rest: string)
    ensures Text.ReplaceChars([c] + rest, {' ', '(', ')'}, "") ==
      (if c in {' ', '(', ')'} then "" else [c]) + Text.ReplaceChars(rest, {' ', '(', ')'}, "")
  {
    Text.ReplaceCharsCons(c, rest, {' ', '(', ')'}, "");
  }

  /** Turning `=` into `,` in `X=L,R`, piece by piece. */
  lemma {:induction false} EqualsToComma(x: string, l: string, r: string)
    ensures Text.ReplaceChars(x + "=" + l + "," + r, {'='}, ",") ==
      Text.ReplaceChars(x, {'='}, ",") + "," + Text.ReplaceChars(l, {'='}, ",") + "," + Text.ReplaceChars(r, {'='}, ",")
  {
    var cs := {'='};
    Text.ReplaceCharsAppend(x + "=" + l + ",", r, '=', cs, ",");
    Text.ReplaceCharsAppend(x + "=" + l, ",", ',', cs, ",");
    Text.ReplaceCharsAppend(x + "=", l, '=', cs, ",");
    Text.ReplaceCharsAppend(x, "=", '=', cs, ",");
  }

  /** One node line `FROM,LEFT,RIGHT`, split at its first two commas. */
  function ParseNode(line: string): Result<Node> {
    var (from, to) :- Expect(Text.SplitOnce(line, ","), "can not split node");
    var (left, right) :- Expect(Text.SplitOnce(to, ","), "can not split node paths");
    Ok((from, (left, right)))
  }

  /** A node line parses when it has two commas; the label and the left child are the text
      before the first and the second of them, which the three parts rebuild. */
  lemma {:induction false} ParseNodeShape(line: string)
    ensures ParseNode(line).Ok? ==> var (from, (left, right)) := ParseNode(line).value;
      from + "," + left + "," + right == line && !Text.Contains(from, ",") && !Text.Contains(left, ",")
    ensures !Text.Contains(line, ",") ==> ParseNode(line) == Err("can not split node")
    ensures Text.Contains(line, ",") && !Text.Contains(Text.SplitOnce(line, ",").value.1, ",") ==>
      ParseNode(line) == Err("can not split node paths")
  {
  }

  /** The network `collect`ed from the node lines: the first line that cannot be split aborts
      with its message; otherwise each label maps to the children on the last line naming it. */
  function BuildNetwork(lines: seq<string>): Result<Network> {
    var nodes :- Seqs.TryMap(lines, ParseNode);
    Ok(Seqs.ToMap(nodes))
  }

  /** A network is built exactly when every node line parses; its keys are then the labels of
      the lines, and the last line with a label gives that label's children. */
  lemma {:induction false} BuildNetworkOk(lines: seq<string>)
    ensures BuildNetwork(lines).Ok? <==> Seqs.AllOk(lines, ParseNode)
    ensures BuildNetwork(lines).Ok? ==> forall k :: 0 <= k < |lines| ==>
      ParseNode(lines[k]).Ok? && ParseNode(lines[k]).value.0 in BuildNetwork(lines).value
  {
    Seqs.TryMapOk(lines, ParseNode);
    if BuildNetwork(lines).Ok? {
      var nodes := Seqs.TryMap(lines, ParseNode).value;
      forall k | 0 <= k < |lines|
        ensures ParseNode(lines[k]).Ok? && ParseNode(lines[k]).value.0 in BuildNetwork(lines).value
      {
        Seqs.ToMapKeys(nodes, nodes[k].0);
      }
    }
  }

  /** When the walk stops: on one exact label (part 1) or on any label ending in a given
      character (part 2). */
  datatype Goal = Exactly(target: string) | EndsWith(last: char)

  predicate Reached(goal: Goal, node: string) {
    match goal
    case Exactly(target) => node == target
    case EndsWith(c) => |node| > 0 && node[|node| - 1] == c
  }

  /** Where instruction `k` sits on a tape of length `len` replayed cyclically. */
  function Position(k: nat, len: nat): (r: nat)
    requires len > 0
    ensures r < len
  {
    if k < len then k else Position(k - len, len)
  }

  /** The cycled tape advances one place per step and wraps at its end. */
  lemma {:induction false} PositionSucc(k: nat, len: nat)
    requires len > 0
    ensures Position(k + 1, len) == if Position(k, len) + 1 == len then 0 else Position(k, len) + 1
    decreases k
  {
    if k >= len {
      PositionSucc(k - len, len);
    }
  }

  /** Step number `k` from `node`: look the node up, read instruction `k` of the cycled
      tape, and take the left child on `L`, the right child on `R`. */
  function Step(net: Network, tape: string, node: string, k: nat): (r: Result<string>)
    ensures r.Ok? <==> node in net && |tape| > 0 && tape[Position(k, |tape|)] in {'L', 'R'}
    ensures r.Ok? ==> r.value == if tape[Position(k, |tape|)] == 'L' then net[node].0 else net[node].1
  {
    if node !in net then Err("node id not found")
    else if |tape| == 0 then Err("can not read next direction")
    else
      match tape[Position(k, |tape|)]
      case 'L' => Ok(net[node].0)
      case 'R' => Ok(net[node].1)
      case _ => Err("invalid direction")
  }

  /** The node reached from `node` after `n` steps numbered from `i` on. */
  function Walked(net: Network, tape: string, node: string, i: nat, n: nat): Result<string>
    decreases n
  {
    if n == 0 then Ok(node)
    else
      var next :- Step(net, tape, node, i);
      Walked(net, tape, next, i + 1, n - 1)
  }

  /** The `while` loop of `solve`/`follow`, with at most `fuel` steps: the number of the step
      at which the walk first reaches the goal. */
  function Follow(net: Network, tape: string, node: string, goal: Goal, i: nat, fuel: nat): (r: Result<nat>)
    ensures r.Ok? ==> r.value >= i
    ensures r.Ok? && !Reached(goal, node) ==> r.value > i
    decreases fuel
  {
    if Reached(goal, node) then Ok(i)
    else if fuel == 0 then Err("out of fuel")
    else
      var next :- Step(net, tape, node, i);
      Follow(net, tape, next, goal, i + 1, fuel - 1)
  }

  /** What `Follow` returns is the first step count at which the walk stands on the goal. */
  lemma {:induction false} FollowStopsAtFirstGoal(net: Network, tape: string, node: string, goal: Goal, i: nat, fuel: nat)
    requires Follow(net, tape, node, goal, i, fuel).Ok?
    ensures var n := Follow(net, tape, node, goal, i, fuel).value - i;
      && Walked(net, tape, node, i, n).Ok? && Reached(goal, Walked(net, tape, node, i, n).value)
      && forall k :: 0 <= k < n ==> Walked(net, tape, node, i, k).Ok? && !Reached(goal, Walked(net, tape, node, i, k).value)
    decreases fuel
  {
    if !Reached(goal, node) {
      var next := Step(net, tape, node, i).value;
      FollowStopsAtFirstGoal(net, tape, next, goal, i + 1, fuel - 1);
      var n := Follow(net, tape, node, goal, i, fuel).value - i;
      forall k | 0 <= k < n
        ensures Walked(net, tape, node, i, k).Ok? && !Reached(goal, Walked(net, tape, node, i, k).value)
      {
        if k > 0 {
          assert Walked(net, tape, node, i, k) == Walked(net, tape, next, i + 1, k - 1);
        }
      }
    }
  }

  /** Conversely, with enough fuel `Follow` finds the first step at which the walk reaches the
      goal: the fuel bound does not change the answer. */
  lemma {:induction false} FollowFindsFirstGoal(net: Network, tape: string, node: string, goal: Goal, i: nat, n: nat, fuel: nat)
    requires n <= fuel
    requires Walked(net, tape, node, i, n).Ok? && Reached(goal, Walked(net, tape, node, i, n).value)
    requires forall k :: 0 <= k < n ==> Walked(net, tape, node, i, k).Ok? && !Reached(goal, Walked(net, tape, node, i, k).value)
    ensures Follow(net, tape, node, goal, i, fuel) == Ok(i + n)
    decreases n
  {
    if n > 0 {
      assert Walked(net, tape, node, i, 0) == Ok(node);
      assert Walked(net, tape, node, i, 1).Ok?;
      var next := Step(net, tape, node, i).value;
      var i' := i + 1;
      forall k | 0 <= k < n - 1
        ensures Walked(net, tape, next, i', k).Ok? && !Reached(goal, Walked(net, tape, next, i', k).value)
      {
        assert Walked(net, tape, node, i, k + 1) == Walked(net, tape, next, i', k);
      }
      FollowFindsFirstGoal(net, tape, next, goal, i', n - 1, fuel - 1);
    }
  }

  /** The walk loop: `node` and `steps` advance together and `d` runs round the tape the
      way the cycled iterator does. */
  method Walk(net: Network, tape: string, start: string, goal: Goal, fuel: nat) returns (r: Result<nat>)
    ensures r == Follow(net, tape, start, goal, 0, fuel)
  {
    var node := start;
    var steps: nat := 0;
    var d: nat := 0;
    while !Reached(goal, node)
      invariant steps <= fuel
      invariant |tape| > 0 ==> d == Position(steps, |tape|)
      invariant Follow(net, tape, node, goal, steps, fuel - steps) == Follow(net, tape, start, goal, 0, fuel)
      decreases fuel - steps
    {
      if steps == fuel {
        return Err("out of fuel");
      }
      if node !in net {
        return Err("node id not found");
      }
      if |tape| == 0 {
        return Err("can not read next direction");
      }
      var dir := tape[d];
      if dir != 'L' && dir != 'R' {
        return Err("invalid direction");
      }
      var next := if dir == 'L' then net[node].0 else net[node].1;
      assert Step(net, tape, node, steps) == Ok(next);
      PositionSucc(steps, |tape|);
      d := if d + 1 == |tape| then 0 else d + 1;
      node := next;
      steps := steps + 1;
    }
    return Ok(steps);
  }

  /** `solve`: the tape is the first line of the normalized puzzle, the network the rest,
      and the walk runs from `AAA` until it reaches `ZZZ`. */
  method Solve(puzzle: string, fuel: nat) returns (r: Result<nat>)
    ensures var lines := Text.Lines(Normalize(puzzle));
      && (lines == [] ==> r == Err("no directions to read"))
      && (lines != [] && BuildNetwork(lines[1..]).Err? ==> r == BuildNetwork(lines[1..]).PropagateFailure())
      && (lines != [] && BuildNetwork(lines[1..]).Ok? ==>
            r == Follow(BuildNetwork(lines[1..]).value, lines[0], "AAA", Exactly("ZZZ"), 0, fuel))
  {
    var lines := Text.Lines(Normalize(puzzle));
    if lines == [] {
      return Err("no directions to read");
    }
    var net := BuildNetwork(lines[1..]);
    if net.Err? {
      return net.PropagateFailure();
    }
    r := Walk(net.value, lines[0], "AAA", Exactly("ZZZ"), fuel);
  }
}

/** The worked examples of the day 8 puzzle. */
module NetworkWalkExamples {
  import opened Wrappers
  import opened NetworkWalk

  /** The second example: tape `RL`, and `AAA` reaches `ZZZ` in two steps. */
  lemma {:induction false} LongExample()
    ensures Follow(map["AAA" := ("BBB", "CCC"), "BBB" := ("DDD", "EEE"), "CCC" := ("ZZZ", "GGG"),
                       "DDD" := ("DDD", "DDD"), "EEE" := ("EEE", "EEE"), "GGG" := ("GGG", "GGG"),
                       "ZZZ" := ("ZZZ", "ZZZ")], "RL", "AAA", Exactly("ZZZ"), 0, 10) == Ok(2)
  {
  }
}
