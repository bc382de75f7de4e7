/** What patterns mean, said on their characters and on the outcome of the search alone. */
module Globs {
  import opened PatternMatch
  import opened Wrappers

  // ---------- literal text ----------

  /** No character of the text means anything but itself. */
  predicate IsLiteral(p: Text) { '*' !in p && '?' !in p && '[' !in p && '\\' !in p }

  /** Literal text in front of a pattern matches itself and leaves the rest to the rest. */
  lemma {:induction false} LiteralPrefix(t: Text, p: Text, s: Text)
    requires IsLiteral(t)
    ensures Search(t + p, s) == if t <= s then Search(p, s[|t|..]) else No
    decreases |t|
  {
    if t == [] {
      assert t + p == p && s[0..] == s;
    } else {
      assert (t + p)[0] == t[0] && (t + p)[1..] == t[1..] + p;
      assert t == [t[0]] + t[1..];
      if s != [] {
        LiteralPrefix(t[1..], p, s[1..]);
        assert s == [s[0]] + s[1..] && s[..1] == [s[0]];
        assert t <= s <==> t[0] == s[0] && t[1..] <= s[1..];
        if t <= s { assert s[1..][|t| - 1..] == s[|t|..]; }
      }
    }
  }

  lemma LiteralMatchesItself(t: Text, s: Text)
    requires IsLiteral(t)
    ensures Search(t, s) == if s == t then Yes else No
  {
    LiteralPrefix(t, [], s);
    assert t + [] == t;
    if t <= s { assert s[|t|..] == [] <==> |s| == |t|; }
  }

  // ---------- one character ----------

  /** `?` stands for exactly one character. */
  lemma QuestionMark(s: Text)
    ensures Search("?", s) == if |s| == 1 then Yes else No
  {
    assert "?"[1..] == [];
  }

  /** A backslash takes the character behind it as it is. */
  lemma Escaped(c: Chr, s: Text)
    ensures Search(['\\', c], s) == if s == [c] then Yes else No
  {
    assert ['\\', c][2..] == [];
    if s != [] { assert s[..1] == [s[0]]; }
  }

  // ---------- classes ----------

  lemma {:induction false} RangesOfPlain(body: Text)
    requires '-' !in body
    ensures Ranges(body).Some? && |Ranges(body).value| == |body|
    ensures forall i :: 0 <= i < |body| ==> Ranges(body).value[i] == Single(body[i])
  {
    if body != [] {
      assert body == [body[0]] + body[1..];
      RangesOfPlain(body[1..]);
    }
  }

  lemma {:induction false} FindsClose(p: Text, from: nat, at: nat)
    requires from <= at <= |p| && (at < |p| ==> p[at] == ']')
    requires forall i :: from <= i < at ==> p[i] != ']'
    ensures FindClose(p, from) == at
    decreases at - from
  {
    if from < at { FindsClose(p, from + 1, at); }
  }

  /** No bracket closes the class early: there is none, but perhaps in first place. */
  predicate Unclosed(body: Text) { body != [] && ']' !in body[1..] }

  /** A class in brackets is a single token. */
  lemma BracketToken(body: Text)
    requires Unclosed(body)
    ensures var p := "[" + body + "]";
      FirstToken(p) == if ClassToken(body).None? then None else Some((ClassToken(body).value, |p|))
  {
    var p := "[" + body + "]";
    forall i | 1 < i < |p| - 1 ensures p[i] != ']' {
      assert p[i] == body[1..][i - 2];
    }
    if body[0] == ']' {
      FindsClose(p, 2, |p| - 1);
    } else {
      FindsClose(p, 1, |p| - 1);
    }
    assert CloseOf(p) == |p| - 1;
    assert p[1..|p| - 1] == body;
  }

  lemma BracketSearch(body: Text, s: Text)
    requires Unclosed(body) && ClassToken(body).Some?
    ensures |s| != 1 ==> Search("[" + body + "]", s) == No
    ensures |s| == 1 ==>
      Search("[" + body + "]", s) == if TokenMatches(ClassToken(body).value, s) then Yes else No
  {
    BracketToken(body);
    var p := "[" + body + "]";
    assert p[|p|..] == [];
    if s != [] && |s| == 1 { assert s[..1] == s && s[1..] == []; }
  }

  /** A class of single characters matches exactly one of them. */
  lemma ClassOf(body: Text, s: Text)
    requires Unclosed(body) && '-' !in body && body[0] != '^'
    ensures Search("[" + body + "]", s) == if |s| == 1 && s[0] in body then Yes else No
  {
    RangesOfPlain(body);
    BracketSearch(body, s);
    if |s| == 1 { PlainRanges(body, s[0]); }
  }

  lemma PlainRanges(body: Text, c: Chr)
    requires '-' !in body && Ranges(body).Some?
    ensures InRanges(Ranges(body).value, c) <==> c in body
  {
    RangesOfPlain(body);
    var ranges := Ranges(body).value;
    if i :| 0 <= i < |body| && body[i] == c { assert ranges[i] == Single(c); }
    if i :| 0 <= i < |ranges| && ranges[i].lo <= c as int < ranges[i].hi { assert body[i] == c; }
  }

  /** A negated class matches exactly one character that is none of them. */
  lemma ClassWithout(body: Text, s: Text)
    requires ']' !in body && '-' !in body
    ensures Search("[^" + body + "]", s) == if |s| == 1 && s[0] !in body then Yes else No
  {
    var all: Text := "^" + body;
    assert all[1..] == body && "[^" + body + "]" == "[" + all + "]";
    RangesOfPlain(body);
    BracketSearch(all, s);
    if |s| == 1 { PlainRanges(body, s[0]); }
  }

  /** A range takes in its first character and leaves out its last; a reversed one throws, as soon as it
      meets a character. */
  lemma RangeOf(a: Chr, b: Chr, s: Text)
    requires a != '^' && b != ']'
    ensures a <= b ==> Search("[" + [a, '-', b] + "]", s) == if |s| == 1 && a <= s[0] < b then Yes else No
    ensures b < a ==> Search("[" + [a, '-', b] + "]", s) == if s == [] then No else Throws
  {
    var body: Text := [a, '-', b];
    assert body[3..] == [] && body[1..] == ['-', b];
    BracketToken(body);
    if a <= b {
      assert Ranges(body[3..]) == Some([]);
      assert [Range(a as int, b as int)] + [] == [Range(a as int, b as int)];
      assert Ranges(body) == Some([Range(a as int, b as int)]);
      BracketSearch(body, s);
      if |s| == 1 {
        assert InRanges([Range(a as int, b as int)], s[0]) <==> a as int <= s[0] as int < b as int by {
          assert [Range(a as int, b as int)][0].lo == a as int;
        }
      }
    }
  }

  // ---------- malformed patterns ----------

  /** A class that is not closed, a class that ends with a dash and a lone backslash throw, as soon as
      they meet a character. */
  lemma UnfinishedThrows(body: Text, c: Chr, s: Text)
    requires (body != [] ==> ']' !in body[1..]) && c != '^' && c != ']'
    ensures Search("[" + body, s) == if s == [] then No else Throws
    ensures Search("\\", s) == if s == [] then No else Throws
    ensures Search("[" + [c, '-'] + "]", s) == if s == [] then No else Throws
  {
    var p := "[" + body;
    if body != [] {
      forall i | 1 < i < |p| ensures p[i] != ']' { assert p[i] == body[1..][i - 2]; }
      FindsClose(p, if body[0] == ']' then 2 else 1, |p|);
    }
    var dashed: Text := [c, '-'];
    assert dashed[1..] == ['-'];
    BracketToken(dashed);
  }

  // ---------- stars ----------

  /** A star stands for any text: what follows it may match any suffix. */
  lemma StarSkips(p: Text, s: Text)
    requires Tokens(p).Some?
    ensures Search("*" + p, s) == Yes <==> exists j: nat :: j <= |s| && Search(p, s[j..]) == Yes
    ensures Search("*" + p, s) != Throws
  {
    assert ("*" + p)[1..] == p;
    BacktrackIsMatching(p, s, |s|);
    forall j: nat | j <= |s| ensures Search(p, s[j..]) == Yes <==> Matches(Tokens(p).value, s[j..]) {
      SearchIsMatching(p, s[j..]);
    }
  }

  /** The usual filter: a star and an ending. */
  lemma EndsWith(t: Text, s: Text)
    requires IsLiteral(t)
    ensures Search("*" + t, s) == Yes <==> |t| <= |s| && s[|s| - |t|..] == t
  {
    LiteralIsWellFormed(t);
    StarSkips(t, s);
    forall j: nat | j <= |s| ensures Search(t, s[j..]) == Yes <==> s[j..] == t {
      LiteralMatchesItself(t, s[j..]);
    }
    if |t| <= |s| && s[|s| - |t|..] == t { assert Search(t, s[|s| - |t|..]) == Yes; }
  }

  lemma {:induction false} LiteralIsWellFormed(t: Text)
    requires IsLiteral(t)
    ensures Tokens(t).Some?
  {
    if t != [] {
      assert t == [t[0]] + t[1..];
      LiteralIsWellFormed(t[1..]);
    }
  }
}
