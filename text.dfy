/** The slice of Rust's `str` API that the solvers use, over `string` (= seq<char>).
    Every function follows the Rust semantics for ASCII text: searches go left to right,
    matches do not overlap, `split` keeps empty pieces, `lines` drops the empty piece after
    a final newline. */
module Text {
  import opened Wrappers

  /** `pat` occurs in `s` starting at index `i`. */
  predicate OccursAt(s: string, pat: string, i: nat) {
    i + |pat| <= |s| && s[i..i + |pat|] == pat
  }

  ghost predicate Contains(s: string, pat: string) {
    exists i: nat :: OccursAt(s, pat, i)
  }

  lemma {:induction false} OccursAtTail(s: string, pat: string, i: nat)
    requires |s| > 0
    ensures OccursAt(s[1..], pat, i) <==> OccursAt(s, pat, i + 1)
  {
    if i + 1 + |pat| <= |s| {
      assert s[1..][i..i + |pat|] == s[i + 1..i + 1 + |pat|];
    }
  }

  lemma {:induction false} OccursAtPrefix(s: string, pat: string, n: nat, i: nat)
    requires n <= |s|
    ensures OccursAt(s[..n], pat, i) ==> OccursAt(s, pat, i)
  {
    if OccursAt(s[..n], pat, i) {
      assert s[..n][i..i + |pat|] == s[i..i + |pat|];
    }
  }

  /** `s.find(pat)`: the first index at which `pat` occurs. */
  function IndexOf(s: string, pat: string): (r: Option<nat>)
    requires |pat| > 0
    ensures r.Some? ==> OccursAt(s, pat, r.value)
    ensures r.Some? ==> forall i: nat :: i < r.value ==> !OccursAt(s, pat, i)
    ensures r.None? <==> !Contains(s, pat)
    decreases |s|
  {
    if |s| < |pat| then None
    else if s[..|pat|] == pat then Some(0)
    else
      var rest := IndexOf(s[1..], pat);
      assert !OccursAt(s, pat, 0);
      assert forall i: nat :: OccursAt(s[1..], pat, i) <==> OccursAt(s, pat, i + 1) by {
        forall i: nat ensures OccursAt(s[1..], pat, i) <==> OccursAt(s, pat, i + 1) {
          OccursAtTail(s, pat, i);
        }
      }
      assert forall i: nat :: OccursAt(s, pat, i) ==> i > 0 && OccursAt(s[1..], pat, i - 1);
      match rest
      case None => None
      case Some(k) => Some(k + 1)
  }

  lemma {:induction false} NoOccurrenceBeforeFirst(s: string, pat: string, i: nat)
    requires |pat| > 0 && IndexOf(s, pat) == Some(i)
    ensures !Contains(s[..i], pat)
  {
    forall j: nat ensures !OccursAt(s[..i], pat, j) {
      OccursAtPrefix(s, pat, i, j);
    }
  }

  /** `parts.join(sep)` */
  function Join(parts: seq<string>, sep: string): string {
    if |parts| == 0 then []
    else if |parts| == 1 then parts[0]
    else parts[0] + sep + Join(parts[1..], sep)
  }

  /** `s.split(sep)`: never empty; the pieces joined with `sep` give back `s`,
      and no piece contains `sep`. For a separator that cannot overlap itself, as every
      separator the solvers use (`"\n"`, `","`, `" "`, `":"`), these two facts fix the
      pieces. */
  function Split(s: string, sep: string): (r: seq<string>)
    requires |sep| > 0
    ensures |r| >= 1
    ensures Join(r, sep) == s
    ensures forall k :: 0 <= k < |r| ==> !Contains(r[k], sep)
    decreases |s|
  {
    match IndexOf(s, sep)
    case None => [s]
    case Some(i) =>
      NoOccurrenceBeforeFirst(s, sep, i);
      var rest := Split(s[i + |sep|..], sep);
      Reassemble(s, sep, i);
      [s[..i]] + rest
  }

  /** Joining one more piece adds the separator and the piece at the end. */
  lemma {:induction false} JoinSnoc(parts: seq<string>, last: string, sep: string)
    requires |parts| >= 1
    ensures Join(parts + [last], sep) == Join(parts, sep) + sep + last
    decreases |parts|
  {
    if |parts| > 1 {
      JoinSnoc(parts[1..], last, sep);
      assert (parts + [last])[1..] == parts[1..] + [last];
    }
  }

  /** `s.split_once(sep)` */
  function SplitOnce(s: string, sep: string): (r: Option<(string, string)>)
    requires |sep| > 0
    ensures r.None? <==> !Contains(s, sep)
    ensures r.Some? ==> r.value.0 + sep + r.value.1 == s && !Contains(r.value.0, sep)
  {
    match IndexOf(s, sep)
    case None => None
    case Some(i) =>
      NoOccurrenceBeforeFirst(s, sep, i);
      Reassemble(s, sep, i);
      Some((s[..i], s[i + |sep|..]))
  }

  /** `s.replace(pat, rep)`: every non-overlapping occurrence, left to right. */
  function Replace(s: string, pat: string, rep: string): string
    requires |pat| > 0
    decreases |s|
  {
    match IndexOf(s, pat)
    case None => s
    case Some(i) => s[..i] + rep + Replace(s[i + |pat|..], pat, rep)
  }

  /** Replacing from the first occurrence on: the text before it, the replacement, and the rest
      replaced. */
  lemma {:induction false} ReplaceUnfold(s: string, pat: string, rep: string)
    requires |pat| > 0 && IndexOf(s, pat).Some?
    ensures Replace(s, pat, rep)
      == s[..IndexOf(s, pat).value] + rep + Replace(s[IndexOf(s, pat).value + |pat|..], pat, rep)
  {
  }

  /** Every character of `t` comes from `s` or from `rep`. */
  ghost predicate CharsFrom(t: string, s: string, rep: string) {
    forall c :: c in t ==> c in s || c in rep
  }

  /** Every character of a replacement comes from the text or from the replacement string. */
  lemma {:induction false} ReplaceKeepsChars(s: string, pat: string, rep: string)
    requires |pat| > 0
    ensures CharsFrom(Replace(s, pat, rep), s, rep)
    decreases |s|
  {
    if IndexOf(s, pat).Some? {
      var i := IndexOf(s, pat).value;
      var rest := s[i + |pat|..];
      ReplaceUnfold(s, pat, rep);
      ReplaceKeepsChars(rest, pat, rep);
      KeepsStep(s, i, i + |pat|, rep, Replace(rest, pat, rep), Replace(s, pat, rep));
    } else {
      ReplaceNone(s, pat, rep);
    }
  }

  lemma {:induction false} ReplaceNone(s: string, pat: string, rep: string)
    requires |pat| > 0 && IndexOf(s, pat).None?
    ensures Replace(s, pat, rep) == s
  {
  }

  /** One step of `ReplaceKeepsChars`: the text before an occurrence, the replacement, and
      a tail whose characters come from the text after the occurrence or the replacement. */
  lemma {:induction false} KeepsStep(s: string, i: nat, j: nat, rep: string, tail: string, r: string)
    requires i <= j <= |s| && r == s[..i] + rep + tail
    requires CharsFrom(tail, s[j..], rep)
    ensures CharsFrom(r, s, rep)
  {
    forall c | c in s[..i] ensures c in s {
      var k :| 0 <= k < i && s[..i][k] == c;
      assert s[k] == c;
    }
    forall c | c in s[j..] ensures c in s {
      var k :| 0 <= k < |s| - j && s[j..][k] == c;
      assert s[j + k] == c;
    }
  }

  /** Replacing a pattern by itself gives the text back. */
  lemma {:induction false} ReplaceSelf(s: string, pat: string)
    requires |pat| > 0
    ensures Replace(s, pat, pat) == s
    decreases |s|
  {
    if IndexOf(s, pat).Some? {
      var i := IndexOf(s, pat).value;
      ReplaceUnfold(s, pat, pat);
      ReplaceSelf(s[i + |pat|..], pat);
      Reassemble(s, pat, i);
    }
  }

  /** An occurrence put back between the text before and after it gives the text. */
  lemma {:induction false} Reassemble(s: string, pat: string, i: nat)
    requires OccursAt(s, pat, i)
    ensures s[..i] + pat + s[i + |pat|..] == s
  {
    assert s == s[..i] + s[i..i + |pat|] + s[i + |pat|..];
  }

  /** `s.replacen(pat, rep, 1)`: the first occurrence, if any, is replaced. */
  function ReplaceFirst(s: string, pat: string, rep: string): (r: string)
    requires |pat| > 0
    ensures !Contains(s, pat) ==> r == s
    ensures Contains(s, pat) ==> exists i: nat :: (OccursAt(s, pat, i) && (forall j: nat :: j < i ==> !OccursAt(s, pat, j)) &&
      r == s[..i] + rep + s[i + |pat|..])
  {
    match IndexOf(s, pat)
    case None => s
    case Some(i) => s[..i] + rep + s[i + |pat|..]
  }

  /** `s.replace(chars, rep)` with a set of characters (or a char predicate) as pattern. Its
      meaning is in the lemmas below. */
  function ReplaceChars(s: string, cs: set<char>, rep: string): string {
    if s == [] then []
    else (if s[0] in cs then rep else [s[0]]) + ReplaceChars(s[1..], cs, rep)
  }

  lemma {:induction false} ReplaceCharsCons(c: char, s: string, cs: set<char>, rep: string)
    ensures ReplaceChars([c] + s, cs, rep) == (if c in cs then rep else [c]) + ReplaceChars(s, cs, rep)
  {
    assert ([c] + s)[1..] == s;
  }

  /** The replacement works character by character: a listed character becomes `rep`, any
      other one stays, and the text may be cut anywhere. */
  lemma {:induction false} ReplaceCharsAppend(a: string, b: string, c: char, cs: set<char>, rep: string)
    ensures ReplaceChars(a + b, cs, rep) == ReplaceChars(a, cs, rep) + ReplaceChars(b, cs, rep)
    ensures ReplaceChars([c], cs, rep) == if c in cs then rep else [c]
    decreases |a|
  {
    ReplaceCharsCons(c, [], cs, rep);
    assert [c] + [] == [c];
    if a == [] {
      assert a + b == b;
    } else {
      var h, a' := a[0], a[1..];
      assert a == [h] + a' && a + b == [h] + (a' + b);
      ReplaceCharsCons(h, a' + b, cs, rep);
      ReplaceCharsCons(h, a', cs, rep);
      ReplaceCharsAppend(a', b, c, cs, rep);
    }
  }

  /** Every character of the result is an unlisted character of the text or comes from
      `rep`; a text without listed characters is left as it is. */
  lemma {:induction false} ReplaceCharsKeeps(s: string, cs: set<char>, rep: string)
    ensures forall c :: c in ReplaceChars(s, cs, rep) ==> (c in s && c !in cs) || c in rep
    ensures (forall c :: c in s ==> c !in cs) ==> ReplaceChars(s, cs, rep) == s
    decreases |s|
  {
    if s != [] {
      ReplaceCharsKeeps(s[1..], cs, rep);
      assert s == [s[0]] + s[1..];
      assert forall c :: c in s[1..] ==> c in s;
    }
  }

  /** `s.lines()` for text with `\n` line ends (a final newline does not open an empty line). */
  function Lines(s: string): (r: seq<string>)
    ensures forall k :: 0 <= k < |r| ==> '\n' !in r[k]
    ensures s == [] <==> r == []
  {
    if s == [] then []
    else
      var parts := Split(s, "\n");
      forall k | 0 <= k < |parts| ensures '\n' !in parts[k] {
        NoChar(parts[k], '\n');
      }
      if parts[|parts| - 1] == [] then
        assert |parts| > 1;
        parts[..|parts| - 1]
      else parts
  }

  /** The lines joined by newlines give the text back, with its final newline if it had one. */
  lemma {:induction false} LinesJoin(s: string)
    ensures s != [] && s[|s| - 1] == '\n' ==> Join(Lines(s), "\n") + "\n" == s
    ensures s == [] || s[|s| - 1] != '\n' ==> Join(Lines(s), "\n") == s
  {
    if s != [] {
      var parts := Split(s, "\n");
      var n := |parts|;
      forall k | 0 <= k < n ensures '\n' !in parts[k] {
        NoChar(parts[k], '\n');
      }
      if n == 1 {
        assert Join(parts, "\n") == parts[0];
        assert s[|s| - 1] in parts[0];
      } else {
        JoinSnoc(parts[..n - 1], parts[n - 1], "\n");
        assert parts[..n - 1] + [parts[n - 1]] == parts;
        if parts[n - 1] != [] {
          assert s[|s| - 1] == parts[n - 1][|parts[n - 1]| - 1];
          assert s[|s| - 1] in parts[n - 1];
        }
      }
    }
  }

  /** A string in which the one-character pattern `[c]` does not occur has no `c`. */
  lemma {:induction false} NoChar(s: string, c: char)
    requires !Contains(s, [c])
    ensures c !in s
  {
    if c in s {
      var i :| 0 <= i < |s| && s[i] == c;
      assert OccursAt(s, [c], i);
    }
  }

  /** The converse: a string without `c` does not contain the pattern `[c]`. */
  lemma {:induction false} NoCharNotContained(s: string, c: char)
    requires c !in s
    ensures !Contains(s, [c])
  {
    forall i: nat | i + 1 <= |s| ensures !OccursAt(s, [c], i) {
      assert s[i..i + 1][0] == s[i];
    }
  }

  /** A string without a pattern's first character does not contain the pattern. */
  lemma {:induction false} NoFirstCharNotContained(s: string, pat: string)
    requires |pat| > 0 && pat[0] !in s
    ensures !Contains(s, pat)
  {
    forall i: nat | i + |pat| <= |s| ensures !OccursAt(s, pat, i) {
      assert s[i..i + |pat|][0] == s[i];
    }
  }

  /** `replace` leaves a text without the pattern unchanged. */
  lemma {:induction false} ReplaceAbsent(s: string, pat: string, rep: string)
    requires |pat| > 0 && !Contains(s, pat)
    ensures Replace(s, pat, rep) == s
  {
    ReplaceNone(s, pat, rep);
  }

  predicate IsWhitespace(c: char) {
    c == ' ' || c == '\t' || c == '\n' || c == '\r' || c as int == 11 || c as int == 12
  }

  function TrimStart(s: string): (r: string)
    ensures |r| <= |s| && r == s[|s| - |r|..]
    ensures r == [] || !IsWhitespace(r[0])
    ensures forall k :: 0 <= k < |s| - |r| ==> IsWhitespace(s[k])
  {
    if s != [] && IsWhitespace(s[0]) then
      var r := TrimStart(s[1..]);
      assert s[1..][|s[1..]| - |r|..] == s[|s| - |r|..];
      assert forall k :: 1 <= k < |s| ==> s[k] == s[1..][k - 1];
      r
    else s
  }

  function TrimEnd(s: string): (r: string)
    ensures |r| <= |s| && r == s[..|r|]
    ensures r == [] || !IsWhitespace(r[|r| - 1])
    ensures forall k :: |r| <= k < |s| ==> IsWhitespace(s[k])
  {
    if s != [] && IsWhitespace(s[|s| - 1]) then TrimEnd(s[..|s| - 1]) else s
  }

  /** `s.trim()` */
  function Trim(s: string): (r: string)
    ensures r == [] || (!IsWhitespace(r[0]) && !IsWhitespace(r[|r| - 1]))
  {
    TrimStart(TrimEnd(s))
  }

  /** The trimmed text is a slice of the text with only whitespace before and after it. */
  lemma {:induction false} TrimSlice(s: string)
    ensures exists i, j :: (0 <= i <= j <= |s| && Trim(s) == s[i..j] &&
      (forall k :: 0 <= k < i ==> IsWhitespace(s[k])) && (forall k :: j <= k < |s| ==> IsWhitespace(s[k])))
  {
    var e := TrimEnd(s);
    var r := TrimStart(e);
    var i, j := |e| - |r|, |e|;
    assert r == e[i..] && e == s[..j];
    assert r == s[i..j];
    assert forall k :: 0 <= k < i ==> s[k] == e[k];
  }

  /** The longest prefix of `s` without whitespace. */
  function Word(s: string): (r: string)
    ensures |r| <= |s| && r == s[..|r|]
    ensures forall c :: c in r ==> !IsWhitespace(c)
    ensures |r| == |s| || IsWhitespace(s[|r|])
  {
    if s == [] || IsWhitespace(s[0]) then [] else [s[0]] + Word(s[1..])
  }

  /** A non-empty run of non-whitespace characters. */
  predicate IsWord(w: string) {
    w != [] && forall c :: c in w ==> !IsWhitespace(c)
  }

  /** `s.split_whitespace()` */
  function SplitWhitespace(s: string): (r: seq<string>)
    ensures forall k :: 0 <= k < |r| ==> IsWord(r[k])
    decreases |s|
  {
    var t := TrimStart(s);
    if t == [] then []
    else
      var w := Word(t);
      assert |w| > 0 by { assert !IsWhitespace(t[0]); }
      var tail := SplitWhitespace(t[|w|..]);
      var r := [w] + tail;
      forall k | 0 <= k < |r| ensures IsWord(r[k]) {
        if k > 0 { assert r[k] == tail[k - 1]; }
      }
      r
  }

  predicate AllWhitespace(s: string) {
    forall c :: c in s ==> IsWhitespace(c)
  }

  /** `gaps[0] + words[0] + gaps[1] + ... + words[n - 1] + gaps[n]` */
  function Weave(gaps: seq<string>, words: seq<string>): string
    requires |gaps| == |words| + 1
    decreases |words|
  {
    if words == [] then gaps[0] else gaps[0] + words[0] + Weave(gaps[1..], words[1..])
  }

  /** `s` is the words in order, with whitespace around them and at least one whitespace
      character between two of them. */
  ghost predicate SpacedWords(gaps: seq<string>, words: seq<string>, s: string) {
    |gaps| == |words| + 1 &&
    (forall k :: 0 <= k < |gaps| ==> AllWhitespace(gaps[k])) &&
    (forall k :: 0 < k < |words| ==> gaps[k] != []) &&
    Weave(gaps, words) == s
  }

  /** One more word in front, after some whitespace. */
  lemma {:induction false} SpacedWordsCons(s: string, ws: seq<string>, lead: string, w: string, gaps: seq<string>,
                                           words: seq<string>, rest: string)
    requires AllWhitespace(lead) && IsWord(w) && SpacedWords(gaps, words, rest)
    requires rest == [] || IsWhitespace(rest[0])
    requires words != [] ==> IsWord(words[0])
    requires s == lead + w + rest && ws == [w] + words
    ensures exists gaps :: SpacedWords(gaps, ws, s)
  {
    var gaps', words' := [lead] + gaps, [w] + words;
    assert gaps'[1..] == gaps && words'[1..] == words;
    assert Weave(gaps', words') == lead + w + rest;
    if words != [] {
      assert words[0][0] in words[0];
      assert Weave(gaps, words) == gaps[0] + words[0] + Weave(gaps[1..], words[1..]);
      assert gaps[0] != [];
    }
    assert forall k :: 1 <= k < |gaps'| ==> gaps'[k] == gaps[k - 1];
    assert SpacedWords(gaps', ws, s);
  }

  lemma {:induction false} Rejoin(s: string, lead: string, t: string, n: nat)
    requires s == lead + t && n <= |t|
    ensures lead + t[..n] + t[n..] == s
  {
    assert t[..n] + t[n..] == t;
  }

  /** What `TrimStart` removes is whitespace. */
  lemma {:induction false} TrimStartLead(s: string)
    ensures AllWhitespace(s[..|s| - |TrimStart(s)|])
    ensures s == s[..|s| - |TrimStart(s)|] + TrimStart(s)
  {
    var t := TrimStart(s);
    var n := |s| - |t|;
    assert t == s[n..];
    assert s == s[..n] + s[n..];
    forall c | c in s[..n] ensures IsWhitespace(c) {
      var k :| 0 <= k < n && s[..n][k] == c;
      assert s[k] == c;
    }
  }

  lemma {:induction false} SplitWhitespaceUnfold(s: string)
    requires TrimStart(s) != []
    ensures IsWord(Word(TrimStart(s)))
    ensures SplitWhitespace(s) == [Word(TrimStart(s))] + SplitWhitespace(TrimStart(s)[|Word(TrimStart(s))|..])
  {
    assert !IsWhitespace(TrimStart(s)[0]);
  }

  /** The text after the first word of `split_whitespace`. */
  function AfterFirstWord(s: string): string {
    var t := TrimStart(s);
    t[|Word(t)|..]
  }

  lemma {:induction false} SplitWhitespaceBlank(s: string)
    requires TrimStart(s) == []
    ensures SpacedWords([s], SplitWhitespace(s), s)
  {
    TrimStartLead(s);
    assert SplitWhitespace(s) == [];
    assert Weave([s], []) == s;
  }

  lemma {:induction false} SplitWhitespaceStep(s: string)
    requires TrimStart(s) != []
    requires exists gaps :: SpacedWords(gaps, SplitWhitespace(AfterFirstWord(s)), AfterFirstWord(s))
    ensures exists gaps :: SpacedWords(gaps, SplitWhitespace(s), s)
  {
    var t := TrimStart(s);
    var lead := s[..|s| - |t|];
    TrimStartLead(s);
    var w := Word(t);
    SplitWhitespaceUnfold(s);
    var rest := t[|w|..];
    var tail := SplitWhitespace(rest);
    var gaps :| SpacedWords(gaps, tail, rest);
    Rejoin(s, lead, t, |w|);
    SpacedWordsCons(s, SplitWhitespace(s), lead, w, gaps, tail, rest);
  }

  /** The words of `split_whitespace` are the maximal runs of non-whitespace characters of
      the text, in order. */
  lemma {:induction false} SplitWhitespaceWords(s: string)
    ensures exists gaps :: SpacedWords(gaps, SplitWhitespace(s), s)
    decreases |s|
  {
    if TrimStart(s) == [] {
      SplitWhitespaceBlank(s);
    } else {
      SplitWhitespaceWords(AfterFirstWord(s));
      SplitWhitespaceStep(s);
    }
  }

  function ToLower(c: char): (r: char)
    ensures 'A' <= c <= 'Z' ==> 'a' <= r <= 'z'
    ensures !('A' <= c <= 'Z') ==> r == c
  {
    if 'A' <= c <= 'Z' then (c as int - 'A' as int + 'a' as int) as char else c
  }

  /** `s.to_lowercase()` on ASCII text. */
  function Lowercase(s: string): (r: string)
    ensures |r| == |s| && forall k :: 0 <= k < |s| ==> r[k] == ToLower(s[k])
  {
    if s == [] then [] else [ToLower(s[0])] + Lowercase(s[1..])
  }

  predicate IsDigit(c: char) {
    '0' <= c <= '9'
  }

  function DigitValue(c: char): (r: nat)
    requires IsDigit(c)
    ensures r < 10
  {
    c as int - '0' as int
  }

  predicate AllDigits(s: string) {
    forall c :: c in s ==> IsDigit(c)
  }

  /** The value of a string of decimal digits (most significant first). */
  function DigitsValue(ds: string): nat
    requires AllDigits(ds)
  {
    if ds == [] then 0 else DigitsValue(ds[..|ds| - 1]) * 10 + DigitValue(ds[|ds| - 1])
  }

  /** `s.parse::<u32>()` and friends: an optional `+`, then at least one digit.
      The width of the target type is not modelled. */
  function ParseNat(s: string): (r: Option<nat>)
    ensures r.Some? ==> s != []
    ensures AllDigits(s) && s != [] ==> r == Some(DigitsValue(s))
  {
    assert s != [] ==> s[0] in s;
    var ds := if s != [] && s[0] == '+' then s[1..] else s;
    if ds != [] && AllDigits(ds) then Some(DigitsValue(ds)) else None
  }

  /** `s.parse::<i64>()`: an optional sign, then at least one digit. */
  function ParseInt(s: string): (r: Option<int>)
    ensures AllDigits(s) && s != [] ==> r == Some(DigitsValue(s))
    ensures s != [] && s[0] == '-' && AllDigits(s[1..]) && |s| > 1 ==> r == Some(-(DigitsValue(s[1..]) as int))
  {
    assert s != [] ==> s[0] in s;
    if s != [] && s[0] == '-' then
      var ds := s[1..];
      if ds != [] && AllDigits(ds) then Some(-(DigitsValue(ds) as int)) else None
    else
      match ParseNat(s)
      case Some(n) => Some(n)
      case None => None
  }

  /** Decimal rendering of a natural number, the inverse of `DigitsValue`. */
  function ShowNat(n: nat): (r: string)
    ensures r != [] && AllDigits(r)
    decreases n
  {
    if n < 10 then [('0' as int + n) as char] else ShowNat(n / 10) + [('0' as int + n % 10) as char]
  }

  lemma {:induction false} ParseShowNat(n: nat)
    ensures ParseNat(ShowNat(n)) == Some(n)
    ensures DigitsValue(ShowNat(n)) == n
    decreases n
  {
    var r := ShowNat(n);
    if n >= 10 {
      ParseShowNat(n / 10);
      assert r[..|r| - 1] == ShowNat(n / 10);
      assert DigitValue(r[|r| - 1]) == n % 10;
    }
    assert DigitsValue(r) == n;
  }
}
