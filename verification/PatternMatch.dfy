/** The glob matcher behind the include and exclude filters. */
module PatternMatch {
  import opened Bytes
  import opened Wrappers

  /** A character of eight bits. */
  type Chr = c: char | c as int < 256 witness 'a'
  type Text = seq<Chr>

  /** What a call of the matcher comes to; `Throws` stands for its exceptions. */
  datatype Outcome = Yes | No | Throws

  // ---------- declarative semantics ----------

  /** The characters with codes `lo <= code < hi`. A range written in a class leaves out its last
      character. */
  datatype Range = Range(lo: nat, hi: nat)

  datatype Token = AnyRun | AnyChar | Exactly(c: Chr) | OneOf(negated: bool, ranges: seq<Range>)

  predicate InRanges(ranges: seq<Range>, c: Chr) {
    exists i :: 0 <= i < |ranges| && ranges[i].lo <= c as int < ranges[i].hi
  }

  predicate TokenMatches(t: Token, w: Text) {
    match t
    case AnyRun => true
    case AnyChar => |w| == 1
    case Exactly(c) => w == [c]
    case OneOf(negated, ranges) => |w| == 1 && InRanges(ranges, w[0]) != negated
  }

  ghost predicate Splits(tokens: seq<Token>, s: Text, ws: seq<Text>) {
    |ws| == |tokens| && Concat(ws) == s && forall i :: 0 <= i < |ws| ==> TokenMatches(tokens[i], ws[i])
  }

  /** A string matches when it can be cut into one piece for each token. */
  ghost predicate Matches(tokens: seq<Token>, s: Text) { exists ws :: Splits(tokens, s, ws) }

  // ---------- pattern syntax ----------

  /** The ranges of a class body: a character stands for itself, `a-z` for a range. A dash at the end
      and a reversed range are errors. */
  function Ranges(body: Text): Option<seq<Range>> {
    if body == [] then Some([])
    else if |body| >= 2 && body[1] == '-' then
      if |body| == 2 || body[2] < body[0] then None
      else
        var rest := Ranges(body[3..]);
        if rest.None? then None else Some([Range(body[0] as int, body[2] as int)] + rest.value)
    else
      var rest := Ranges(body[1..]);
      if rest.None? then None else Some([Range(body[0] as int, body[0] as int + 1)] + rest.value)
  }

  function ClassToken(body: Text): Option<Token>
    requires body != []
  {
    var negated := body[0] == '^';
    var ranges := Ranges(if negated then body[1..] else body);
    if ranges.None? then None else Some(OneOf(negated, ranges.value))
  }

  /** Position of the first closing bracket from `from` on, or the length of the pattern. */
  function FindClose(p: Text, from: nat): nat
    requires from <= |p|
    ensures from <= FindClose(p, from) <= |p|
    decreases |p| - from
  {
    if from == |p| || p[from] == ']' then from else FindClose(p, from + 1)
  }

  /** Where a class that starts at the head of `p` ends: a bracket in first place does not close it. */
  function CloseOf(p: Text): nat
    requires |p| >= 2
    ensures 1 < CloseOf(p) <= |p|
  {
    FindClose(p, if p[1] == ']' then 2 else 1)
  }

  /** The first token of a pattern and the length of its text. */
  function FirstToken(p: Text): Option<(Token, nat)>
    requires p != []
    ensures FirstToken(p).Some? ==> 1 <= FirstToken(p).value.1 <= |p|
  {
    if p[0] == '*' then Some((AnyRun, 1))
    else if p[0] == '[' then
      if |p| == 1 || CloseOf(p) == |p| then None
      else
        var t := ClassToken(p[1..CloseOf(p)]);
        if t.None? then None else Some((t.value, CloseOf(p) + 1))
    else if p[0] == '\\' then
      if |p| == 1 then None else Some((Exactly(p[1]), 2))
    else if p[0] == '?' then Some((AnyChar, 1))
    else Some((Exactly(p[0]), 1))
  }

  /** The tokens of a well-formed pattern. */
  function Tokens(p: Text): Option<seq<Token>>
    decreases |p|
  {
    if p == [] then Some([])
    else
      var t := FirstToken(p);
      if t.None? then None
      else
        var rest := Tokens(p[t.value.1..]);
        if rest.None? then None else Some([t.value.0] + rest.value)
  }

  // ---------- the backtracking search ----------

  function Search(p: Text, s: Text): Outcome
    decreases |p|, |s|
  {
    if p == [] then (if s == [] then Yes else No)
    else if p[0] == '*' then Backtrack(p[1..], s, |s|)
    else if s == [] then No
    else
      var t := FirstToken(p);
      if t.None? then Throws
      else if TokenMatches(t.value.0, s[..1]) then Search(p[t.value.1..], s[1..])
      else No
  }

  /** Tries the suffixes of `s` from position `k` downwards. */
  function Backtrack(p: Text, s: Text, k: nat): Outcome
    requires k <= |s|
    decreases |p|, |s| + 1, k
  {
    if k == 0 then Search(p, s)
    else
      var r := Search(p, s[k..]);
      if r.No? then Backtrack(p, s, k - 1) else r
  }

  // ---------- the bitset of a class ----------

  ghost predicate BitsShow(bits: seq<bool>, ranges: seq<Range>) {
    |bits| == 256 && forall x: Chr :: bits[x as int] <==> InRanges(ranges, x)
  }

  lemma InRangesSnoc(ranges: seq<Range>, r: Range, c: Chr)
    ensures InRanges(ranges + [r], c) <==> InRanges(ranges, c) || r.lo <= c as int < r.hi
  {
    var more := ranges + [r];
    if InRanges(ranges, c) {
      var i :| 0 <= i < |ranges| && ranges[i].lo <= c as int < ranges[i].hi;
      assert more[i] == ranges[i];
    }
    if r.lo <= c as int < r.hi { assert more[|ranges|] == r; }
    if InRanges(more, c) {
      var i :| 0 <= i < |more| && more[i].lo <= c as int < more[i].hi;
      if i < |ranges| { assert ranges[i] == more[i]; }
    }
  }

  /** Sets the bits from `start` up to, but not including, `last`. */
  method SetRange(bits: array<bool>, start: nat, last: nat, ghost ranges: seq<Range>)
    requires bits.Length == 256 && start <= last <= 256 && BitsShow(bits[..], ranges)
    modifies bits
    ensures BitsShow(bits[..], ranges + [Range(start, last)])
  {
    var i := start;
    while i != last
      invariant start <= i <= last
      invariant forall k :: 0 <= k < 256 ==> bits[k] == (old(bits[k]) || start <= k < i)
    {
      bits[i] := true;
      i := i + 1;
    }
    forall x: Chr
      ensures bits[..][x as int] <==> InRanges(ranges + [Range(start, last)], x)
    {
      InRangesSnoc(ranges, Range(start, last), x);
      assert old(bits[..])[x as int] <==> InRanges(ranges, x);
    }
  }

  /** One round of the class loop, seen from the ranges found so far. */
  lemma RangesStep(body: Text, pos: nat, done: seq<Range>)
    requires pos < |body|
    ensures var dash := pos + 1 < |body| && body[pos + 1] == '-';
      && (!dash ==> (Prepend(done, Ranges(body[pos..]))
                  == Prepend(done + [Single(body[pos])], Ranges(body[pos + 1..]))))
      && (dash && (pos + 2 == |body| || body[pos + 2] < body[pos]) ==> Ranges(body[pos..]).None?)
      && (dash && pos + 2 < |body| && body[pos] <= body[pos + 2] ==>
           (Prepend(done, Ranges(body[pos..]))
         == Prepend(done + [Range(body[pos] as int, body[pos + 2] as int)], Ranges(body[pos + 3..]))))
  {
    var rest := body[pos..];
    assert rest[1..] == body[pos + 1..];
    if |rest| >= 2 && rest[1] == '-' {
      if |rest| >= 3 {
        assert rest[3..] == body[pos + 3..];
        PrependSnoc(done, Range(rest[0] as int, rest[2] as int), Ranges(rest[3..]));
      }
    } else {
      PrependSnoc(done, Single(rest[0]), Ranges(rest[1..]));
    }
  }

  function Single(c: Chr): Range { Range(c as int, c as int + 1) }

  lemma PrependSnoc(done: seq<Range>, r: Range, rest: Option<seq<Range>>)
    ensures rest.Some? ==> Prepend(done, Some([r] + rest.value)) == Prepend(done + [r], rest)
  {
    if rest.Some? { assert done + ([r] + rest.value) == (done + [r]) + rest.value; }
  }

  function Prepend(done: seq<Range>, rest: Option<seq<Range>>): Option<seq<Range>> {
    if rest.None? then None else Some(done + rest.value)
  }

  /** Fills the bitset of a class body; fails where the source throws. */
  method MakeCharClass(body: Text) returns (mask: Option<seq<bool>>)
    requires body != []
    ensures mask.None? <==> ClassToken(body).None?
    ensures mask.Some? ==> |mask.value| == 256
    ensures mask.Some? ==> forall x: Chr :: mask.value[x as int] <==> TokenMatches(ClassToken(body).value, [x])
  {
    var bits := new bool[256](_ => false);
    var flip := body[0] == '^';
    ghost var items := if flip then body[1..] else body;
    var pos: nat := if flip then 1 else 0;
    ghost var from := pos;
    ghost var done: seq<Range> := [];
    assert Ranges(items) == Prepend([], Ranges(items)) by {
      if Ranges(items).Some? { assert [] + Ranges(items).value == Ranges(items).value; }
    }
    while pos != |body|
      invariant from <= pos <= |body| && items == body[from..]
      invariant BitsShow(bits[..], done)
      invariant Ranges(items) == Prepend(done, Ranges(body[pos..]))
    {
      RangesStep(body, pos, done);
      var c1 := body[pos];
      pos := pos + 1;
      if pos != |body| && body[pos] == '-' {
        pos := pos + 1;
        if pos == |body| { return None; }
        var last := body[pos];
        pos := pos + 1;
        if last < c1 { return None; }
        SetRange(bits, c1 as int, last as int, done);
        done := done + [Range(c1 as int, last as int)];
      } else {
        SetRange(bits, c1 as int, c1 as int + 1, done);
        done := done + [Range(c1 as int, c1 as int + 1)];
      }
    }
    assert done + [] == done && body[pos..] == [];
    assert Ranges(items) == Some(done);
    if flip {
      mask := Some(seq(256, i requires 0 <= i < 256 reads bits => !bits[i]));
    } else {
      mask := Some(bits[..]);
    }
  }

  // ---------- the matcher ----------

  /** What the search comes to at a position: behind a star, and at any other token. */
  lemma SearchAtStar(ptn: Text, i: nat, s: Text)
    requires i < |ptn| && ptn[i] == '*'
    ensures Search(ptn[i..], s) == Backtrack(ptn[i + 1..], s, |s|)
  {
    assert ptn[i..][1..] == ptn[i + 1..];
  }

  lemma SearchAtToken(ptn: Text, i: nat, str: Text, j: nat)
    requires i < |ptn| && ptn[i] != '*' && j <= |str|
    ensures j == |str| ==> Search(ptn[i..], str[j..]) == No
    ensures j < |str| && FirstToken(ptn[i..]).None? ==> Search(ptn[i..], str[j..]) == Throws
    ensures j < |str| && FirstToken(ptn[i..]).Some? ==>
      var (t, n) := FirstToken(ptn[i..]).value;
      Search(ptn[i..], str[j..]) == if TokenMatches(t, [str[j]]) then Search(ptn[i + n..], str[j + 1..]) else No
  {
    if j < |str| && FirstToken(ptn[i..]).Some? {
      var n := FirstToken(ptn[i..]).value.1;
      assert ptn[i..][n..] == ptn[i + n..];
      assert str[j..][1..] == str[j + 1..] && str[j..][..1] == [str[j]];
    }
  }

  lemma BacktrackStep(p: Text, str: Text, j: nat, next: nat)
    requires j < next <= |str|
    ensures Backtrack(p, str[j..], next - j) ==
      if Search(p, str[next..]).No? then Backtrack(p, str[j..], next - 1 - j) else Search(p, str[next..])
  {
    assert str[j..][next - j..] == str[next..];
  }

  /** Tries the suffixes behind a star, the shortest first, but not the one at the current position;
      gives the outcome of the first that does not fail. */
  method TrySuffixes(ptn: Text, str: Text, strBeg: nat) returns (r: Outcome)
    requires strBeg <= |str|
    ensures Backtrack(ptn, str[strBeg..], |str| - strBeg) == if r.No? then Search(ptn, str[strBeg..]) else r
    decreases |ptn|, 1
  {
    hide Search, Backtrack;
    var next: nat := |str|;
    while next != strBeg
      invariant strBeg <= next <= |str|
      invariant Backtrack(ptn, str[strBeg..], |str| - strBeg) == Backtrack(ptn, str[strBeg..], next - strBeg)
    {
      BacktrackStep(ptn, str, strBeg, next);
      r := PatternMatchImpl(ptn, str[next..]);
      if !r.No? { return; }
      next := next - 1;
    }
    BacktrackEnds(ptn, str[strBeg..]);
    r := No;
  }

  lemma BacktrackEnds(p: Text, s: Text)
    ensures Backtrack(p, s, 0) == Search(p, s)
  {
  }

  /** The search of the source: a loop over the pattern that calls itself for every suffix behind a
      star. The suffix at the current position is tried by going round the loop. */
  method PatternMatchImpl(ptn: Text, str: Text) returns (r: Outcome)
    ensures r == Search(ptn, str)
    decreases |ptn|, 0
  {
    var ptnBeg: nat, strBeg: nat := 0, 0;
    SearchEnds(str);
    assert ptn[0..] == ptn && str[0..] == str;
    hide Search, Backtrack;
    while ptnBeg != |ptn|
      invariant ptnBeg <= |ptn| && strBeg <= |str|
      invariant Search(ptn, str) == Search(ptn[ptnBeg..], str[strBeg..])
      decreases |ptn| - ptnBeg
    {
      if ptn[ptnBeg] == '*' {
        SearchAtStar(ptn, ptnBeg, str[strBeg..]);
        ptnBeg := ptnBeg + 1;
        var found := TrySuffixes(ptn[ptnBeg..], str, strBeg);
        if !found.No? { return found; }
      } else {
        SearchAtToken(ptn, ptnBeg, str, strBeg);
        if strBeg == |str| { return No; }
        var step := MatchOne(ptn[ptnBeg..], str[strBeg]);
        if step.None? { return Throws; }
        if step.value == 0 { return No; }
        ptnBeg, strBeg := ptnBeg + step.value, strBeg + 1;
      }
    }
    assert ptn[ptnBeg..] == [];
    r := if strBeg == |str| then Yes else No;
  }

  lemma SearchEnds(str: Text)
    ensures forall j :: 0 <= j <= |str| ==> Search([], str[j..]) == if j == |str| then Yes else No
  {
  }

  /** One round of the loop for anything but a star: the length of the token's text if it matches
      `c`, zero if it does not, nothing where the source throws. */
  method MatchOne(p: Text, c: Chr) returns (r: Option<nat>)
    requires p != [] && p[0] != '*'
    ensures r.None? <==> FirstToken(p).None?
    ensures r.Some? ==> r.value == if TokenMatches(FirstToken(p).value.0, [c]) then FirstToken(p).value.1 else 0
  {
    if p[0] == '[' {
      if |p| == 1 { return None; }
      var from := 1;
      if p[from] == ']' { from := from + 1; }
      var next := FindClose(p, from);
      if next == |p| { return None; }
      var mask := MakeCharClass(p[1..next]);
      if mask.None? { return None; }
      return Some(if mask.value[c as int] then next + 1 else 0);
    } else if p[0] == '\\' {
      if |p| == 1 { return None; }
      return Some(if p[1] == c then 2 else 0);
    } else {
      return Some(if p[0] == '?' || p[0] == c then 1 else 0);
    }
  }

  // ---------- the search refines the semantics ----------

  lemma MatchesNothing(s: Text)
    ensures Matches([], s) <==> s == []
  {
    if s == [] { assert Splits([], s, []); }
    if Matches([], s) { var ws :| Splits([], s, ws); }
  }

  /** A match of a first token and a match of the rest make a match, and every match is one. */
  lemma MatchesFirst(t: Token, ts: seq<Token>, s: Text)
    ensures Matches([t] + ts, s) <==>
      exists k: nat :: k <= |s| && TokenMatches(t, s[..k]) && Matches(ts, s[k..])
  {
    if Matches([t] + ts, s) {
      var ws :| Splits([t] + ts, s, ws);
      var k := |ws[0]|;
      assert Concat(ws) == ws[0] + Concat(ws[1..]);
      assert s[..k] == ws[0] && s[k..] == Concat(ws[1..]);
      assert TokenMatches(([t] + ts)[0], ws[0]);
      forall i | 0 <= i < |ws| - 1 ensures TokenMatches(ts[i], ws[1..][i]) {
        assert TokenMatches(([t] + ts)[i + 1], ws[i + 1]);
      }
      assert Splits(ts, s[k..], ws[1..]);
    }
    if k: nat :| k <= |s| && TokenMatches(t, s[..k]) && Matches(ts, s[k..]) {
      var ws :| Splits(ts, s[k..], ws);
      JoinSplit(t, ts, s, k, ws);
    }
  }

  lemma JoinSplit(t: Token, ts: seq<Token>, s: Text, k: nat, ws: seq<Text>)
    requires k <= |s| && TokenMatches(t, s[..k]) && Splits(ts, s[k..], ws)
    ensures Splits([t] + ts, s, [s[..k]] + ws)
  {
    var all := [s[..k]] + ws;
    assert all[1..] == ws;
    assert Concat(all) == s[..k] + s[k..] == s;
    forall i | 0 <= i < |all| ensures TokenMatches(([t] + ts)[i], all[i]) {
      if i > 0 { assert TokenMatches(ts[i - 1], ws[i - 1]); }
    }
  }

  lemma SingleToken(t: Token, ts: seq<Token>, s: Text)
    requires !t.AnyRun?
    ensures Matches([t] + ts, s) <==> s != [] && TokenMatches(t, s[..1]) && Matches(ts, s[1..])
  {
    MatchesFirst(t, ts, s);
    if k: nat :| k <= |s| && TokenMatches(t, s[..k]) && Matches(ts, s[k..]) {
      assert |s[..k]| == 1;
    }
  }

  /** On a well-formed pattern the matcher never throws and answers yes exactly for the strings that
      match; on any other pattern it never answers yes. */
  lemma {:induction false} SearchIsMatching(p: Text, s: Text)
    ensures Tokens(p).Some? ==> Search(p, s) == if Matches(Tokens(p).value, s) then Yes else No
    ensures Tokens(p).None? ==> Search(p, s) != Yes
    decreases |p|, |s|
  {
    if p == [] {
      MatchesNothing(s);
    } else if p[0] == '*' {
      BacktrackIsMatching(p[1..], s, |s|);
      if Tokens(p[1..]).Some? { MatchesFirst(AnyRun, Tokens(p[1..]).value, s); }
    } else if FirstToken(p).Some? {
      var (t, n) := FirstToken(p).value;
      if Tokens(p[n..]).Some? { SingleToken(t, Tokens(p[n..]).value, s); }
      if s != [] { SearchIsMatching(p[n..], s[1..]); }
    }
  }

  lemma {:induction false} BacktrackIsMatching(p: Text, s: Text, k: nat)
    requires k <= |s|
    ensures Tokens(p).Some? ==> (Backtrack(p, s, k)
         == if exists j: nat :: j <= k && Matches(Tokens(p).value, s[j..]) then Yes else No)
    ensures Tokens(p).None? ==> Backtrack(p, s, k) != Yes
    decreases |p|, |s| + 1, k
  {
    SearchIsMatching(p, s[k..]);
    assert s[0..] == s;
    if k > 0 { BacktrackIsMatching(p, s, k - 1); }
  }
}
