/** Base64, the encoding of section 4 of RFC 4648, as the client writes and reads it. */
module Base64 {
  import opened Bytes

  const UPPER: string := "ABCDEFGHIJKLMNOPQRSTUVWXYZ"
  const LOWER: string := "abcdefghijklmnopqrstuvwxyz"
  const DIGITS: string := "0123456789"
  const BASE64_CHARS: string := UPPER + LOWER + DIGITS + "+/"
  const PAD: char := '='

  /** `find` returns the largest unsigned number for an absent character; stored in an unsigned char
      this becomes 255. */
  const ABSENT: Byte := 255

  type Sextet = i: int | 0 <= i < 64

  /** The character at an index of the alphabet, by its ranges. */
  function CharOf(i: Sextet): char {
    if i < 26 then 'A' + i as char
    else if i < 52 then 'a' + (i - 26) as char
    else if i < 62 then '0' + (i - 52) as char
    else if i == 62 then '+' else '/'
  }

  /** `s` is the run of characters that starts at `first`. */
  predicate IsRun(s: string, first: char) { forall k :: 0 <= k < |s| ==> s[k] as int == first as int + k }

  lemma AlphabetRuns()
    ensures IsRun(UPPER, 'A') && IsRun(LOWER, 'a') && IsRun(DIGITS, '0')
    ensures |UPPER| == 26 && |LOWER| == 26 && |DIGITS| == 10
  {
  }

  lemma RunsInTurn(a: string, b: string, c: string, d: string, i: nat)
    requires i < |a| + |b| + |c| + |d|
    ensures (a + b + c + d)[i] ==
      if i < |a| then a[i] else if i < |a| + |b| then b[i - |a|]
      else if i < |a| + |b| + |c| then c[i - |a| - |b|] else d[i - |a| - |b| - |c|]
  {
  }

  lemma AlphabetIsRanges(i: Sextet)
    ensures |BASE64_CHARS| == 64 && BASE64_CHARS[i] == CharOf(i)
  {
    AlphabetRuns();
    RunsInTurn(UPPER, LOWER, DIGITS, "+/", i);
    hide UPPER, LOWER, DIGITS;
  }

  predicate IsBase64(c: char) {
    'A' <= c <= 'Z' || 'a' <= c <= 'z' || '0' <= c <= '9' || c == '+' || c == '/'
  }

  /** `base64_chars.find(c)`, cut down to an unsigned char. */
  function Find(c: char): Byte {
    if 'A' <= c <= 'Z' then (c as int) - 65
    else if 'a' <= c <= 'z' then (c as int) - 97 + 26
    else if '0' <= c <= '9' then (c as int) - 48 + 52
    else if c == '+' then 62
    else if c == '/' then 63
    else ABSENT
  }

  lemma CharOfFind(c: char)
    requires IsBase64(c)
    ensures Find(c) < 64 && CharOf(Find(c)) == c
  {
  }

  /** `Find` really is the position in the alphabet, or the absent mark. */
  lemma FindIsPosition(c: char)
    ensures if c in BASE64_CHARS then Find(c) < |BASE64_CHARS| && BASE64_CHARS[Find(c)] == c else Find(c) == ABSENT
  {
    if IsBase64(c) {
      CharOfFind(c);
      AlphabetIsRanges(Find(c));
    } else {
      NotInAlphabet(c);
    }
  }

  lemma NotInAlphabet(c: char)
    requires !IsBase64(c)
    ensures c !in BASE64_CHARS
  {
    forall i | 0 <= i < |BASE64_CHARS|
      ensures BASE64_CHARS[i] != c
    {
      AlphabetIsRanges(0);
      AlphabetIsRanges(i);
      FindInvertsAlphabet(i);
    }
  }

  lemma FindInvertsAlphabet(i: Sextet)
    ensures IsBase64(CharOf(i)) && CharOf(i) != PAD && Find(CharOf(i)) == i
  {
  }

  // ---------- encoding ----------

  /** Six bits of a 24-bit group: `shift` is 2^18, 2^12, 2^6 or 1. */
  function Field(temp: nat, shift: nat): Sextet
    requires shift > 0
  {
    temp / shift % 64
  }

  function Quad(temp: nat): string {
    [CharOf(Field(temp, 0x40000)), CharOf(Field(temp, 0x1000)), CharOf(Field(temp, 0x40)), CharOf(Field(temp, 1))]
  }

  function Group(a: Byte, b: Byte, c: Byte): nat { (a as int) * 0x10000 + (b as int) * 0x100 + c }

  function Encode(x: seq<Byte>): string {
    if |x| >= 3 then Quad(Group(x[0], x[1], x[2])) + Encode(x[3..])
    else if |x| == 2 then Quad(Group(x[0], x[1], 0))[..3] + [PAD]
    else if |x| == 1 then Quad(Group(x[0], 0, 0))[..2] + [PAD, PAD]
    else []
  }

  /** What encoding the input from `cursor` on comes to. */
  lemma EncodeFrom(input: seq<Byte>, cursor: nat)
    requires cursor <= |input|
    ensures cursor + 3 <= |input| ==> (Encode(input[cursor..])
         == Quad(Group(input[cursor], input[cursor + 1], input[cursor + 2])) + Encode(input[cursor + 3..]))
    ensures cursor + 2 == |input| ==>
      Encode(input[cursor..]) == Quad(Group(input[cursor], input[cursor + 1], 0))[..3] + [PAD]
    ensures cursor + 1 == |input| ==> Encode(input[cursor..]) == Quad(Group(input[cursor], 0, 0))[..2] + [PAD, PAD]
    ensures cursor == |input| ==> Encode(input[cursor..]) == ""
  {
    if cursor + 3 <= |input| { assert input[cursor..][3..] == input[cursor + 3..]; }
  }

  method EncodeTriple(input: seq<Byte>, cursor: nat) returns (quad: string)
    requires cursor + 3 <= |input|
    ensures quad + Encode(input[cursor + 3..]) == Encode(input[cursor..])
  {
    EncodeFrom(input, cursor);
    var temp: nat := (input[cursor] as int) * 0x10000;
    temp := temp + (input[cursor + 1] as int) * 0x100;
    temp := temp + input[cursor + 2];
    quad := Quad(temp);
  }

  method EncodeTail(input: seq<Byte>, cursor: nat) returns (tail: string)
    requires cursor <= |input| < cursor + 3
    ensures tail == Encode(input[cursor..])
  {
    EncodeFrom(input, cursor);
    if |input| - cursor == 1 {
      var temp: nat := (input[cursor] as int) * 0x10000;
      tail := Quad(temp)[..2] + [PAD, PAD];
    } else if |input| - cursor == 2 {
      var temp: nat := (input[cursor] as int) * 0x10000;
      temp := temp + (input[cursor + 1] as int) * 0x100;
      tail := Quad(temp)[..3] + [PAD];
    } else {
      tail := "";
    }
  }

  method Base64Encode(input: seq<Byte>) returns (encoded: string)
    ensures encoded == Encode(input)
  {
    hide Encode;
    encoded := "";
    var cursor: nat := 0;
    assert input[0..] == input && "" + Encode(input) == Encode(input);
    for idx := 0 to |input| / 3
      invariant cursor == 3 * idx && encoded + Encode(input[cursor..]) == Encode(input)
    {
      var quad := EncodeTriple(input, cursor);
      assert encoded + (quad + Encode(input[cursor + 3..])) == (encoded + quad) + Encode(input[cursor + 3..]);
      encoded := encoded + quad;
      cursor := cursor + 3;
    }
    var tail := EncodeTail(input, cursor);
    encoded := encoded + tail;
  }

  // ---------- decoding ----------

  /** The three bytes of four indices, each truncated to an unsigned char. */
  function Triple(a: Byte, b: Byte, c: Byte, d: Byte): seq<Byte> {
    [(a * 4 + b / 16 % 4) % 256, (b % 16 * 16 + c / 4 % 16) % 256, (c % 4 * 64 + d) % 256]
  }

  /** How many leading characters are in the alphabet; decoding stops behind them. */
  function Usable(s: string): nat {
    if s == "" || !IsBase64(s[0]) then 0 else 1 + Usable(s[1..])
  }

  lemma {:induction false} UsableBounds(s: string)
    ensures Usable(s) <= |s|
    ensures forall i :: 0 <= i < Usable(s) ==> IsBase64(s[i])
    ensures Usable(s) < |s| ==> !IsBase64(s[Usable(s)])
  {
    if s != "" && IsBase64(s[0]) { UsableBounds(s[1..]); }
  }

  /** The bytes of a last, incomplete group: the missing characters count as absent. */
  function Tail(v: string): seq<Byte>
    requires 0 < |v| < 4
  {
    var at := (i: int) => if 0 <= i < |v| then Find(v[i]) else ABSENT;
    Triple(at(0), at(1), at(2), at(3))[..|v| - 1]
  }

  function DecodeGroups(v: string): seq<Byte> {
    if |v| >= 4 then Triple(Find(v[0]), Find(v[1]), Find(v[2]), Find(v[3])) + DecodeGroups(v[4..])
    else if v == "" then []
    else Tail(v)
  }

  function Decode(s: string): seq<Byte> {
    UsableBounds(s);
    DecodeGroups(s[..Usable(s)])
  }

  /** Turns a full buffer of characters into its bytes, by way of their indices. */
  method FlushGroup(quad: array<char>) returns (bytes: seq<Byte>)
    requires quad.Length == 4
    ensures bytes == Triple(Find(quad[0]), Find(quad[1]), Find(quad[2]), Find(quad[3]))
  {
    var index := new Byte[4];
    for k := 0 to 4
      invariant forall m :: 0 <= m < k ==> index[m] == Find(quad[m])
    {
      index[k] := Find(quad[k]);
    }
    bytes := Triple(index[0], index[1], index[2], index[3]);
  }

  /** What remains to be decoded when `i` characters are buffered. */
  ghost function Rest(s: string, at: nat, i: nat): seq<Byte>
    requires i <= at <= Usable(s)
  {
    UsableBounds(s);
    DecodeGroups(s[at - i..Usable(s)])
  }

  lemma RestOfGroup(s: string, at: nat)
    requires 4 <= at <= Usable(s)
    ensures Usable(s) <= |s|
    ensures Rest(s, at, 4)
         == Triple(Find(s[at - 4]), Find(s[at - 3]), Find(s[at - 2]), Find(s[at - 1])) + Rest(s, at, 0)
  {
    UsableBounds(s);
    var v := s[at - 4..Usable(s)];
    assert v[4..] == s[at..Usable(s)];
  }

  lemma RestOfTail(s: string, at: nat, i: nat, buffered: string)
    requires i <= at == Usable(s) && i < 4 && |buffered| == i
    requires Usable(s) <= |s| && forall k :: 0 <= k < i ==> buffered[k] == s[at - i + k]
    ensures Rest(s, at, i) == if i == 0 then [] else Tail(buffered)
  {
    assert s[at - i..at] == buffered;
  }

  method Base64Decode(s: string) returns (ret: seq<Byte>)
    ensures ret == Decode(s)
  {
    UsableBounds(s);
    var quad := new char[4];
    var i: nat, at: nat := 0, 0;
    ret := [];
    while at < |s| && s[at] != PAD && IsBase64(s[at])
      invariant i < 4 && i <= at <= Usable(s)
      invariant forall k :: 0 <= k < i ==> quad[k] == s[at - i + k]
      invariant ret + Rest(s, at, i) == Decode(s)
    {
      StopsAtUsableOnly(s, at);
      i, at, ret := Buffer(s, quad, i, at, ret);
    }
    StopsAtUsable(s, at);
    RestOfTail(s, at, i, quad[..i]);
    if i > 0 {
      var tail := DecodeTail(quad, i);
      ret := ret + tail;
    }
  }

  /** Takes one more character into the buffer, and turns a full buffer into bytes. */
  method Buffer(s: string, quad: array<char>, i0: nat, at0: nat, ret0: seq<Byte>)
    returns (i: nat, at: nat, ret: seq<Byte>)
    requires quad.Length == 4 && i0 < 4 && i0 <= at0 < Usable(s) <= |s|
    requires forall k :: 0 <= k < i0 ==> quad[k] == s[at0 - i0 + k]
    modifies quad
    ensures at == at0 + 1 && i < 4 && i <= at <= Usable(s)
    ensures forall k :: 0 <= k < i ==> quad[k] == s[at - i + k]
    ensures ret + Rest(s, at, i) == ret0 + Rest(s, at0, i0)
  {
    i, at, ret := i0, at0, ret0;
    quad[i] := s[at];
    i, at := i + 1, at + 1;
    if i == 4 {
      RestOfGroup(s, at);
      var bytes := FlushGroup(quad);
      ret := ret + bytes;
      i := 0;
    }
  }

  lemma StopsAtUsableOnly(s: string, at: nat)
    requires at <= Usable(s) && at < |s| && IsBase64(s[at])
    ensures at < Usable(s)
  {
    UsableBounds(s);
  }

  lemma StopsAtUsable(s: string, at: nat)
    requires at <= Usable(s) && (at < |s| ==> s[at] == PAD || !IsBase64(s[at]))
    ensures at == Usable(s)
  {
    UsableBounds(s);
  }

  /** The bytes of the last, incomplete group. */
  method DecodeTail(quad: array<char>, i: nat) returns (bytes: seq<Byte>)
    requires quad.Length == 4 && 0 < i < 4
    modifies quad
    ensures bytes == Tail(old(quad[..i]))
  {
    for j := i to 4
      invariant forall k :: 0 <= k < i ==> quad[k] == old(quad[k])
      invariant forall k :: i <= k < j ==> quad[k] == 0 as char
    {
      quad[j] := 0 as char;
    }
    bytes := FlushGroup(quad);
    bytes := bytes[..i - 1];
  }

  // ---------- round trip ----------

  lemma Quotient(t: nat, d: nat, q: nat, r: nat)
    requires r < d && t == q * d + r
    ensures t / d == q
  {
    var k: nat := t / d;
    assert t == k * d + t % d;
    if k < q { Monotone(k + 1, q, d); }
    if q < k { Monotone(q + 1, k, d); }
  }

  lemma Monotone(a: nat, b: nat, d: nat)
    requires a <= b
    ensures a * d <= b * d
  {
  }

  /** The four fields of a group, from the halves of its bytes. */
  lemma FieldsOf(a: Byte, b: Byte, c: Byte)
    ensures var t := Group(a, b, c);
      && Field(t, 0x40000) == a / 4
      && Field(t, 0x1000) == a % 4 * 16 + b / 16
      && Field(t, 0x40) == b % 16 * 4 + c / 64
      && Field(t, 1) == c % 64
  {
    var t: nat := Group(a, b, c);
    var a1: nat, a2: nat, b1: nat, b2: nat, c1: nat, c2: nat := a / 4, a % 4, b / 16, b % 16, c / 64, c % 64;
    var n1, n2 := a1 * 64 + (a2 * 16 + b1), (a1 * 64 + (a2 * 16 + b1)) * 64 + (b2 * 4 + c1);
    Halves(a, b, c, a1, a2, b1, b2, c1, c2);
    Quotient(t, 0x40000, a1, (a2 * 16 + b1) * 4096 + (b2 * 4 + c1) * 64 + c2);
    Quotient(t, 0x1000, n1, (b2 * 4 + c1) * 64 + c2);
    Quotient(t, 0x40, n2, c2);
    Remainder(n1, a1, a2 * 16 + b1);
    Remainder(n2, n1, b2 * 4 + c1);
    Remainder(t, n2, c2);
  }

  lemma Halves(a: Byte, b: Byte, c: Byte, a1: nat, a2: nat, b1: nat, b2: nat, c1: nat, c2: nat)
    requires a == a1 * 4 + a2 && b == b1 * 16 + b2 && c == c1 * 64 + c2
    ensures Group(a, b, c) == a1 * 0x40000 + (a2 * 16 + b1) * 4096 + (b2 * 4 + c1) * 64 + c2
  {
  }

  lemma Remainder(t: nat, q: nat, r: nat)
    requires r < 64 && t == q * 64 + r
    ensures t % 64 == r
  {
  }

  lemma TripleOf(a: Byte, b: Byte, c: Byte)
    ensures Triple(a / 4, a % 4 * 16 + b / 16, b % 16 * 4 + c / 64, c % 64) == [a, b, c]
  {
    FirstByte(a, b);
    SecondByte(b, c);
    ThirdByte(b, c);
  }

  lemma ThirdByte(b: Byte, c: Byte)
    ensures (b % 16 * 4 + c / 64) % 4 == c / 64 && c / 64 * 64 + c % 64 == c
  {
  }

  lemma FirstByte(a: Byte, b: Byte)
    ensures (a % 4 * 16 + b / 16) / 16 == a % 4 && a / 4 * 4 + a % 4 == a
  {
  }

  lemma SecondByte(b: Byte, c: Byte)
    ensures (b % 16 * 4 + c / 64) / 4 == b % 16 && b / 16 * 16 + b % 16 == b
  {
  }

  /** Four characters carry three bytes there and back. */
  lemma QuadInverts(a: Byte, b: Byte, c: Byte)
    ensures var q := Quad(Group(a, b, c));
      && |q| == 4 && (forall i :: 0 <= i < 4 ==> IsBase64(q[i]))
      && Triple(Find(q[0]), Find(q[1]), Find(q[2]), Find(q[3])) == [a, b, c]
  {
    FieldsOf(a, b, c);
    TripleOf(a, b, c);
    hide Group, Field, CharOf, Find, IsBase64, Triple;
    FindInvertsAlphabet(a / 4);
    FindInvertsAlphabet(a % 4 * 16 + b / 16);
    FindInvertsAlphabet(b % 16 * 4 + c / 64);
    FindInvertsAlphabet(c % 64);
  }

  lemma {:induction false} EncodeLength(x: seq<Byte>)
    ensures |Encode(x)| == 4 * ((|x| + 2) / 3)
  {
    hide CharOf, Field, Group;
    if |x| >= 3 {
      EncodeLength(x[3..]);
      assert (|x| + 2) / 3 == (|x[3..]| + 2) / 3 + 1;
    }
  }

  lemma {:induction false} UsableAppend(v: string, t: string)
    requires forall i :: 0 <= i < |v| ==> IsBase64(v[i])
    ensures Usable(v + t) == |v| + Usable(t)
  {
    if v == "" {
      assert v + t == t;
    } else {
      assert (v + t)[1..] == v[1..] + t;
      UsableAppend(v[1..], t);
    }
  }

  lemma DecodeQuad(q: string, t: string)
    requires |q| == 4 && forall i :: 0 <= i < 4 ==> IsBase64(q[i])
    ensures Decode(q + t) == Triple(Find(q[0]), Find(q[1]), Find(q[2]), Find(q[3])) + Decode(t)
  {
    UsableAppend(q, t);
    UsableBounds(t);
    var v := (q + t)[..4 + Usable(t)];
    assert v[4..] == t[..Usable(t)];
  }

  lemma DecodePadded(q: string, n: nat, pads: string)
    requires 2 <= n < 4 && |q| == 4 && (forall i :: 0 <= i < 4 ==> IsBase64(q[i])) && pads != "" && pads[0] == PAD
    ensures Decode(q[..n] + pads) == Tail(q[..n])
  {
    UsableAppend(q[..n], pads);
    assert (q[..n] + pads)[..n] == q[..n];
  }

  /** Only the first two (one) of the three bytes of an incomplete group survive, and they do not
      depend on the absent characters. */
  lemma TailIgnoresAbsent(q: string)
    requires |q| == 4
    ensures Tail(q[..3]) == Triple(Find(q[0]), Find(q[1]), Find(q[2]), Find(q[3]))[..2]
    ensures Tail(q[..2]) == Triple(Find(q[0]), Find(q[1]), Find(q[2]), Find(q[3]))[..1]
  {
  }

  /** Decoding undoes encoding, on every byte string. */
  lemma {:induction false} RoundTrip(x: seq<Byte>)
    ensures Decode(Encode(x)) == x
  {
    hide Quad, Group, Triple, Find, IsBase64, Tail;
    if |x| >= 3 {
      QuadInverts(x[0], x[1], x[2]);
      DecodeQuad(Quad(Group(x[0], x[1], x[2])), Encode(x[3..]));
      RoundTrip(x[3..]);
      assert x == [x[0], x[1], x[2]] + x[3..];
    } else if |x| == 2 {
      var q := Quad(Group(x[0], x[1], 0));
      QuadInverts(x[0], x[1], 0);
      DecodePadded(q, 3, [PAD]);
      TailIgnoresAbsent(q);
    } else if |x| == 1 {
      var q := Quad(Group(x[0], 0, 0));
      QuadInverts(x[0], 0, 0);
      DecodePadded(q, 2, [PAD, PAD]);
      TailIgnoresAbsent(q);
    }
  }

  // ---------- what the characters carry ----------

  /** Four indices, read as the digits of a number in base 64, and three bytes as those of one in base
      256. */
  function Sextets(s: string, at: nat): nat
    requires at + 4 <= |s|
  {
    (Find(s[at]) as int) * 0x40000 + (Find(s[at + 1]) as int) * 0x1000 + (Find(s[at + 2]) as int) * 0x40
    + Find(s[at + 3])
  }

  function Octets(x: seq<Byte>, at: nat): nat
    requires at + 3 <= |x|
  {
    (x[at] as int) * 0x10000 + (x[at + 1] as int) * 0x100 + x[at + 2]
  }

  lemma SextetsBehind(q: string, s: string, at: nat)
    requires |q| == 4 && at + 4 <= |s|
    ensures Sextets(q + s, at + 4) == Sextets(s, at)
  {
  }

  lemma OctetsBehind(t: seq<Byte>, x: seq<Byte>, at: nat)
    requires |t| == 3 && at + 3 <= |x|
    ensures Octets(t + x, at + 3) == Octets(x, at)
  {
  }

  lemma QuadSextets(a: Byte, b: Byte, c: Byte)
    ensures |Quad(Group(a, b, c))| == 4 && Sextets(Quad(Group(a, b, c)), 0) == Octets([a, b, c], 0)
  {
    FieldsOf(a, b, c);
    FindInvertsAlphabet(a / 4);
    FindInvertsAlphabet(a % 4 * 16 + b / 16);
    FindInvertsAlphabet(b % 16 * 4 + c / 64);
    FindInvertsAlphabet(c % 64);
    hide Field, CharOf, Find, Group;
  }

  /** Each whole group of three bytes is, as a number, what its four characters are. */
  lemma {:induction false} EncodedGroups(x: seq<Byte>, i: nat)
    requires 3 * i + 3 <= |x|
    ensures 4 * i + 4 <= |Encode(x)| && Sextets(Encode(x), 4 * i) == Octets(x, 3 * i)
    decreases i
  {
    EncodeLength(x);
    var q := Quad(Group(x[0], x[1], x[2]));
    QuadSextets(x[0], x[1], x[2]);
    hide Quad, Find, Group;
    if i > 0 {
      EncodedGroups(x[3..], i - 1);
      SextetsBehind(q, Encode(x[3..]), 4 * (i - 1));
      assert x == [x[0], x[1], x[2]] + x[3..];
      OctetsBehind([x[0], x[1], x[2]], x[3..], 3 * (i - 1));
    }
  }

  lemma EncodeOne(a: Byte)
    ensures Encode([a]) == [CharOf(a / 4), CharOf(a % 4 * 16), PAD, PAD]
  {
    FieldsOf(a, 0, 0);
    hide Group, Field, CharOf;
  }

  lemma EncodeTwo(a: Byte, b: Byte)
    ensures Encode([a, b]) == [CharOf(a / 4), CharOf(a % 4 * 16 + b / 16), CharOf(b % 16 * 4), PAD]
  {
    FieldsOf(a, b, 0);
    hide Group, Field, CharOf;
  }

  lemma EncodeThree(a: Byte, b: Byte, c: Byte)
    ensures Encode([a, b, c])
         == [CharOf(a / 4), CharOf(a % 4 * 16 + b / 16), CharOf(b % 16 * 4 + c / 64), CharOf(c % 64)]
  {
    FieldsOf(a, b, c);
    var x: seq<Byte> := [a, b, c];
    assert x[3..] == [];
    hide Group, Field, CharOf;
  }

  /** Of one or two bytes left over come as many characters as their bits need, and padding. */
  lemma OneLeftOver(a: Byte)
    ensures var e := Encode([a]);
      |e| == 4 && e[2] == e[3] == PAD && Find(e[0]) as int * 0x40 + Find(e[1]) == a as int * 0x10
  {
    EncodeOne(a);
    FindInvertsAlphabet(a / 4);
    FindInvertsAlphabet(a % 4 * 16);
    hide Encode, CharOf, Find;
  }

  lemma TwoLeftOver(a: Byte, b: Byte)
    ensures var e := Encode([a, b]);
      && |e| == 4 && e[3] == PAD
      && Find(e[0]) as int * 0x1000 + Find(e[1]) as int * 0x40 + Find(e[2]) == a as int * 0x400 + b as int * 4
  {
    EncodeTwo(a, b);
    FindInvertsAlphabet(a / 4);
    FindInvertsAlphabet(a % 4 * 16 + b / 16);
    FindInvertsAlphabet(b % 16 * 4);
    hide Encode, CharOf, Find;
  }

  /** What is left over comes behind the whole groups. */
  lemma {:induction false} GroupsThenRest(x: seq<Byte>, rest: seq<Byte>)
    requires |x| % 3 == 0
    ensures Encode(x + rest) == Encode(x) + Encode(rest)
  {
    if x == [] {
      assert x + rest == rest;
    } else {
      assert (x + rest)[3..] == x[3..] + rest;
      GroupsThenRest(x[3..], rest);
      var q := Quad(Group(x[0], x[1], x[2]));
      assert q + Encode(x[3..]) + Encode(rest) == q + (Encode(x[3..]) + Encode(rest));
    }
  }

  lemma TripleStarts(a: Sextet, b: Sextet, c: Byte, d: Byte)
    ensures Triple(a, b, c, d)[0] == a * 4 + b / 16
    ensures c < 64 ==> Triple(a, b, c, d)[1] == b % 16 * 16 + c / 4
  {
  }

  lemma TripleOctets(a: Sextet, b: Sextet, c: Sextet, d: Sextet)
    ensures Octets(Triple(a, b, c, d), 0)
         == (a as int) * 0x40000 + (b as int) * 0x1000 + (c as int) * 0x40 + d
  {
    TripleStarts(a, b, c, d);
    assert Triple(a, b, c, d)[2] == c % 4 * 64 + d;
    hide Triple;
    assert b == b / 16 * 16 + b % 16 && c == c / 4 * 4 + c % 4;
  }

  lemma {:induction false} DecodedLength(v: string)
    ensures |DecodeGroups(v)| == 6 * |v| / 8
  {
    if |v| >= 4 {
      DecodedLength(v[4..]);
      assert 6 * |v| / 8 == 3 + 6 * |v[4..]| / 8;
    }
  }

  lemma {:induction false} DecodedGroups(v: string, i: nat)
    requires 4 * i + 4 <= |v| && forall k :: 0 <= k < |v| ==> IsBase64(v[k])
    ensures 3 * i + 3 <= |DecodeGroups(v)| && Octets(DecodeGroups(v), 3 * i) == Sextets(v, 4 * i)
    decreases i
  {
    DecodedLength(v);
    forall k | 0 <= k < 4 ensures Find(v[k]) < 64 { CharOfFind(v[k]); }
    TripleOctets(Find(v[0]), Find(v[1]), Find(v[2]), Find(v[3]));
    var t := Triple(Find(v[0]), Find(v[1]), Find(v[2]), Find(v[3]));
    if i == 0 {
      hide Find, IsBase64, Triple, Tail;
    } else {
      hide Find, IsBase64, Triple, Tail;
      DecodedGroups(v[4..], i - 1);
      assert v == v[..4] + v[4..];
      SextetsBehind(v[..4], v[4..], 4 * (i - 1));
      OctetsBehind(t, DecodeGroups(v[4..]), 3 * (i - 1));
    }
  }

  /** Whatever is decoded, if it was ever encoded or not: as many bytes as the bits of the leading
      characters of the alphabet make, and each whole group of them is the number that its characters are. */
  lemma DecodedAre(s: string, i: nat)
    ensures Usable(s) <= |s| && |Decode(s)| == 6 * Usable(s) / 8
    ensures 4 * i + 4 <= Usable(s) ==>
      3 * i + 3 <= |Decode(s)| && Octets(Decode(s), 3 * i) == Sextets(s, 4 * i)
  {
    UsableBounds(s);
    DecodedLength(s[..Usable(s)]);
    if 4 * i + 4 <= Usable(s) { DecodedGroups(s[..Usable(s)], i); }
  }

  lemma Shifted(a: Sextet, b: Sextet, c: Sextet)
    ensures (a as int * 0x40 + b) / 0x10 == a as int * 4 + b / 16
    ensures (a as int * 0x1000 + b as int * 0x40 + c) / 4
         == (a as int * 4 + b / 16) * 0x100 + (b % 16 * 16 + c / 4)
  {
    assert b == b / 16 * 16 + b % 16;
  }

  /** The bytes of an incomplete last group carry the bits of its characters, the last few dropped. */
  lemma TailBits(v: string)
    requires 0 < |v| < 4 && forall k :: 0 <= k < |v| ==> IsBase64(v[k])
    ensures |v| == 1 ==> Tail(v) == []
    ensures |v| == 2 ==> Tail(v) == [(Find(v[0]) as int * 0x40 + Find(v[1])) / 0x10]
    ensures |v| == 3 ==>
      && |Tail(v)| == 2
      && Tail(v)[0] as int * 0x100 + Tail(v)[1]
         == (Find(v[0]) as int * 0x1000 + Find(v[1]) as int * 0x40 + Find(v[2])) / 4
  {
    forall k | 0 <= k < |v| ensures Find(v[k]) < 64 { CharOfFind(v[k]); }
    hide Find, IsBase64, Triple;
    if |v| == 2 {
      Shifted(Find(v[0]), Find(v[1]), 0);
      TripleStarts(Find(v[0]), Find(v[1]), ABSENT, ABSENT);
    } else if |v| == 3 {
      Shifted(Find(v[0]), Find(v[1]), Find(v[2]));
      TripleStarts(Find(v[0]), Find(v[1]), Find(v[2]), ABSENT);
    }
  }

  lemma SomeLetters()
    ensures CharOf(4) == 'E' && CharOf(5) == 'F' && CharOf(24) == 'Y' && CharOf(25) == 'Z'
    ensures CharOf(32) == 'g' && CharOf(38) == 'm' && CharOf(47) == 'v' && CharOf(50) == 'y'
    ensures CharOf(60) == '8' && CharOf(61) == '9'
  {
  }

  lemma ShortVectors()
    ensures Encode([0x66]) == "Zg==" && Encode([0x66, 0x6F]) == "Zm8=" && Encode([0x66, 0x6F, 0x6F]) == "Zm9v"
    ensures Encode([0x62]) == "Yg==" && Encode([0x62, 0x61]) == "YmE=" && Encode([0x62, 0x61, 0x72]) == "YmFy"
  {
    SomeLetters();
    hide Encode, CharOf;
    EncodeOne(0x66);
    EncodeTwo(0x66, 0x6F);
    EncodeThree(0x66, 0x6F, 0x6F);
    EncodeOne(0x62);
    EncodeTwo(0x62, 0x61);
    EncodeThree(0x62, 0x61, 0x72);
  }

  /** The test vectors of section 10 of RFC 4648, the encodings of "foo" with what follows it in "foobar". */
  lemma TestVectors()
    ensures Encode([0x66, 0x6F, 0x6F] + [0x62]) == "Zm9vYg=="
    ensures Encode([0x66, 0x6F, 0x6F] + [0x62, 0x61]) == "Zm9vYmE="
    ensures Encode([0x66, 0x6F, 0x6F] + [0x62, 0x61, 0x72]) == "Zm9vYmFy"
  {
    hide *;
    ShortVectors();
    GroupsThenRest([0x66, 0x6F, 0x6F], [0x62]);
    GroupsThenRest([0x66, 0x6F, 0x6F], [0x62, 0x61]);
    GroupsThenRest([0x66, 0x6F, 0x6F], [0x62, 0x61, 0x72]);
  }
}
