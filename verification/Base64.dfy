/**
 The hand-written base64 decoder, against the encoding of section 4 of RFC 4648. Shifts and
 masks of the accumulator are written as arithmetic on `uint32`, whose bounds are checked.
 */
module Base64 {
  newtype uint32 = x: int | 0 <= x < 0x1_0000_0000

  type Byte = x: int | 0 <= x < 256

  datatype Decoded = Ok(bytes: seq<Byte>) | InvalidChar(c: Byte)

  const PAD: Byte := '=' as int

  /** Table 1 of RFC 4648. */
  function Char(v: int): Byte
    requires 0 <= v < 64
  {
    if v < 26 then 'A' as int + v
    else if v < 52 then 'a' as int + v - 26
    else if v < 62 then '0' as int + v - 52
    else if v == 62 then '+' as int
    else '/' as int
  }

  /** Written out. */
  lemma UpperCase(v: nat)
    requires v < 26
    ensures Char(v) == "ABCDEFGHIJKLMNOPQRSTUVWXYZ"[v] as int
  {
  }

  lemma LowerCase(v: nat)
    requires v < 26
    ensures Char(v + 26) == "abcdefghijklmnopqrstuvwxyz"[v] as int
  {
  }

  lemma DigitsAndSigns(v: nat)
    requires v < 12
    ensures Char(v + 52) == "0123456789+/"[v] as int
  {
  }

  lemma Table1(v: nat)
    requires v < 64
    ensures Char(v) == if v < 26 then "ABCDEFGHIJKLMNOPQRSTUVWXYZ"[v] as int
                       else if v < 52 then "abcdefghijklmnopqrstuvwxyz"[v - 26] as int
                       else "0123456789+/"[v - 52] as int
  {
    hide Char;
    if v < 26 {
      UpperCase(v);
    } else if v < 52 {
      LowerCase(v - 26);
    } else {
      DigitsAndSigns(v - 52);
    }
  }

  const ALPHABET: seq<Byte> := seq(64, i requires 0 <= i < 64 => Char(i))

  /** The value of a character, or -1. */
  function Sextet(c: Byte): int {
    if 'A' as int <= c <= 'Z' as int then c - 'A' as int
    else if 'a' as int <= c <= 'z' as int then c - 'a' as int + 26
    else if '0' as int <= c <= '9' as int then c - '0' as int + 52
    else if c == '+' as int then 62
    else if c == '/' as int then 63
    else -1
  }

  predicate InAlphabet(s: seq<Byte>) {
    forall i :: 0 <= i < |s| ==> Sextet(s[i]) >= 0
  }

  function TrimPadding(s: seq<Byte>): seq<Byte> {
    if s != [] && s[|s| - 1] == PAD then TrimPadding(s[..|s| - 1]) else s
  }

  // ----- what a decoding is -----

  /** The number written in base 64 by the characters `s`. */
  function Num64(s: seq<Byte>): int {
    if s == [] then 0 else Num64(s[..|s| - 1]) * 64 + Sextet(s[|s| - 1])
  }

  function Num256(s: seq<Byte>): int {
    if s == [] then 0 else Num256(s[..|s| - 1]) * 256 + s[|s| - 1]
  }

  /** 2^bits for the number of bits that can be left over. */
  function Pow2(bits: int): int {
    if bits == 0 then 1 else if bits == 2 then 4 else if bits == 4 then 16 else 64
  }

  /** The bytes are the bit string of the characters, cut off after the last whole byte. */
  predicate IsDecoding(s: seq<Byte>, r: Decoded) {
    var t := TrimPadding(s);
    match r
    case Ok(bytes) =>
      InAlphabet(t) && |bytes| == 6 * |t| / 8 && Num256(bytes) == Num64(t) / Pow2(6 * |t| % 8)
    case InvalidChar(c) =>
      exists i :: 0 <= i < |t| && t[i] == c && Sextet(c) < 0 && InAlphabet(t[..i])
  }

  lemma {:induction false} Num256IsInjective(a: seq<Byte>, b: seq<Byte>)
    requires |a| == |b| && Num256(a) == Num256(b)
    ensures a == b
  {
    if a != [] {
      var n := |a| - 1;
      Num256IsInjective(a[..n], b[..n]);
      assert a == a[..n] + [a[n]] && b == b[..n] + [b[n]];
    }
  }

  lemma FirstInvalid(t: seq<Byte>, i: nat, j: nat)
    requires i < |t| && j < |t| && Sextet(t[i]) < 0 && Sextet(t[j]) < 0 && InAlphabet(t[..i]) && InAlphabet(t[..j])
    ensures i == j
  {
    assert forall k :: 0 <= k < i ==> t[..i][k] == t[k];
    assert forall k :: 0 <= k < j ==> t[..j][k] == t[k];
  }

  /** A text has at most one decoding. */
  lemma DecodingIsUnique(s: seq<Byte>, a: Decoded, b: Decoded)
    requires IsDecoding(s, a) && IsDecoding(s, b)
    ensures a == b
  {
    var t := TrimPadding(s);
    if a.Ok? && b.Ok? {
      Num256IsInjective(a.bytes, b.bytes);
    } else if a.InvalidChar? && b.InvalidChar? {
      var i :| 0 <= i < |t| && t[i] == a.c && Sextet(a.c) < 0 && InAlphabet(t[..i]);
      var j :| 0 <= j < |t| && t[j] == b.c && Sextet(b.c) < 0 && InAlphabet(t[..j]);
      FirstInvalid(t, i, j);
    }
  }

  // ----- the decoder -----

  lemma AlphabetIsIndexed(c: Byte)
    ensures Sextet(c) >= 0 ==> ALPHABET[Sextet(c)] == c
    ensures forall v :: 0 <= v < 64 && ALPHABET[v] == c ==> Sextet(c) == v
  {
  }

  method BuildIndex() returns (idx: array<int>)
    ensures fresh(idx) && idx.Length == 256
    ensures forall c :: 0 <= c < 256 ==> idx[c] == Sextet(c)
  {
    idx := new int[256](_ => -1);
    for i := 0 to |ALPHABET|
      invariant forall c: Byte :: idx[c] == if 0 <= Sextet(c) < i then Sextet(c) else -1
    {
      forall c: Byte ensures c == ALPHABET[i] <==> Sextet(c) == i {
        AlphabetIsIndexed(c);
      }
      idx[ALPHABET[i]] := i;
    }
  }

  /** The characters read so far are the bytes written so far, followed by the bits in `buf`. */
  predicate Progress(t: seq<Byte>, i: nat, out: seq<Byte>, buf: int, bits: int)
    requires i <= |t|
  {
    && InAlphabet(t[..i])
    && bits in {0, 2, 4, 6} && bits == 6 * i - 8 * |out|
    && 0 <= buf < Pow2(bits)
    && Num64(t[..i]) == Num256(out) * Pow2(bits) + buf
  }

  lemma NextCharacter(t: seq<Byte>, i: nat)
    requires i < |t|
    ensures Num64(t[..i + 1]) == Num64(t[..i]) * 64 + Sextet(t[i])
    ensures InAlphabet(t[..i + 1]) <==> InAlphabet(t[..i]) && Sextet(t[i]) >= 0
  {
    assert t[..i + 1] == t[..i] + [t[i]];
    assert t[..i + 1][..i] == t[..i];
  }

  lemma NextByte(out: seq<Byte>, x: Byte)
    ensures Num256(out + [x]) == Num256(out) * 256 + x
  {
    assert (out + [x])[..|out|] == out;
  }

  /** Six more bits that do not complete a byte. */
  lemma Kept(t: seq<Byte>, i: nat, out: seq<Byte>, buf: int, bits: int)
    requires i < |t| && Progress(t, i, out, buf, bits) && Sextet(t[i]) >= 0 && bits + 6 < 8
    ensures 0 <= buf * 64 + Sextet(t[i]) < 64 && Progress(t, i + 1, out, buf * 64 + Sextet(t[i]), bits + 6)
  {
    NextCharacter(t, i);
  }

  /** Six more bits that complete a byte. */
  lemma Flushed(t: seq<Byte>, i: nat, out: seq<Byte>, buf: int, bits: int)
    requires i < |t| && Progress(t, i, out, buf, bits) && Sextet(t[i]) >= 0 && bits + 6 >= 8
    ensures var wide, left := buf * 64 + Sextet(t[i]), bits - 2;
            && 0 <= left <= 4 && 0 < Pow2(left) <= 16 && 0 <= wide < 4096
            && 0 <= wide / Pow2(left) < 256 && 0 <= wide % Pow2(left) < 64
            && Progress(t, i + 1, out + [wide / Pow2(left)], wide % Pow2(left), left)
  {
    var wide, left := buf * 64 + Sextet(t[i]), bits - 2;
    NextCharacter(t, i);
    NextByte(out, wide / Pow2(left));
    hide Num64, Num256, Sextet, InAlphabet;
  }

  lemma Started(t: seq<Byte>)
    ensures Progress(t, 0, [], 0, 0)
  {
  }

  lemma Rejected(s: seq<Byte>, i: nat, out: seq<Byte>, buf: int, bits: int)
    requires var t := TrimPadding(s); i < |t| && Progress(t, i, out, buf, bits) && Sextet(t[i]) < 0
    ensures IsDecoding(s, InvalidChar(TrimPadding(s)[i]))
  {
  }

  lemma Finished(s: seq<Byte>, out: seq<Byte>, buf: int, bits: int)
    requires Progress(TrimPadding(s), |TrimPadding(s)|, out, buf, bits)
    ensures IsDecoding(s, Ok(out))
  {
    var t := TrimPadding(s);
    assert t[..|t|] == t;
    hide Sextet, Num64, Num256, InAlphabet, TrimPadding;
    assert 6 * |t| % 8 == bits && 6 * |t| / 8 == |out|;
    WholePart(Num256(out), buf, bits);
  }

  lemma WholePart(n: int, buf: int, bits: int)
    requires bits in {0, 2, 4, 6} && 0 <= buf < Pow2(bits)
    ensures (n * Pow2(bits) + buf) / Pow2(bits) == n
  {
  }

  method Base64Decode(s: seq<Byte>) returns (r: Decoded)
    ensures IsDecoding(s, r)
  {
    hide *;
    var idx := BuildIndex();
    var t := TrimPadding(s);
    var out: seq<Byte>, buf: uint32, bits: uint32 := [], 0, 0;
    Started(t);
    for i := 0 to |t|
      invariant forall c :: 0 <= c < 256 ==> idx[c] == Sextet(c)
      invariant 0 <= bits <= 6 && buf < 64
      invariant Progress(t, i, out, buf as int, bits as int)
    {
      var v := idx[t[i]];
      assert v == Sextet(t[i]);
      if v < 0 {
        Rejected(s, i, out, buf as int, bits as int);
        return InvalidChar(t[i]);
      }
      if bits + 6 < 8 {
        Kept(t, i, out, buf as int, bits as int);
      } else {
        Flushed(t, i, out, buf as int, bits as int);
      }
      buf := buf * 64 + v as uint32;
      bits := bits + 6;
      if bits >= 8 {
        bits := bits - 8;
        var one := Pow2(bits as int) as uint32;
        out := out + [(buf / one) as Byte];
        buf := buf % one;
      }
    }
    Finished(s, out, buf as int, bits as int);
    return Ok(out);
  }

  // ----- the encoding -----

  function EncodeGroup(a: Byte, b: Byte, c: Byte): (g: seq<Byte>)
    ensures |g| == 4
  {
    [Char(a / 4), Char(a % 4 * 16 + b / 16), Char(b % 16 * 4 + c / 64), Char(c % 64)]
  }

  /** Three bytes at a time become four characters. */
  function EncodeWhole(b: seq<Byte>): seq<Byte>
    requires |b| % 3 == 0
  {
    if b == [] then []
    else
      var n := |b| - 3;
      EncodeWhole(b[..n]) + EncodeGroup(b[n], b[n + 1], b[n + 2])
  }

  function EncodeRest(b: seq<Byte>): seq<Byte>
    requires |b| < 3
  {
    if |b| == 0 then []
    else if |b| == 1 then [Char(b[0] / 4), Char(b[0] % 4 * 16)]
    else [Char(b[0] / 4), Char(b[0] % 4 * 16 + b[1] / 16), Char(b[1] % 16 * 4)]
  }

  function Padding(b: seq<Byte>): seq<Byte> {
    if |b| % 3 == 0 then [] else if |b| % 3 == 1 then [PAD, PAD] else [PAD]
  }

  function EncodeUnpadded(b: seq<Byte>): seq<Byte> {
    var n := |b| - |b| % 3;
    EncodeWhole(b[..n]) + EncodeRest(b[n..])
  }

  function Encode(b: seq<Byte>): seq<Byte> {
    EncodeUnpadded(b) + Padding(b)
  }

  // ----- the round trip -----

  lemma CharsAreIndexed(v: int)
    requires 0 <= v < 64
    ensures Sextet(Char(v)) == v && Char(v) != PAD
  {
  }

  lemma Num64Snoc(s: seq<Byte>, c: Byte)
    ensures Num64(s + [c]) == Num64(s) * 64 + Sextet(c)
  {
    assert (s + [c])[..|s|] == s;
  }

  lemma Num64Four(s: seq<Byte>, a: Byte, b: Byte, c: Byte, d: Byte)
    ensures Num64(s + [a, b, c, d]) == (((Num64(s) * 64 + Sextet(a)) * 64 + Sextet(b)) * 64 + Sextet(c)) * 64 + Sextet(d)
  {
    hide *;
    assert s + [a, b, c, d] == s + [a] + [b] + [c] + [d];
    Num64Snoc(s, a);
    Num64Snoc(s + [a], b);
    Num64Snoc(s + [a] + [b], c);
    Num64Snoc(s + [a] + [b] + [c], d);
  }

  lemma Num256Three(b: seq<Byte>, x: Byte, y: Byte, z: Byte)
    ensures Num256(b + [x, y, z]) == ((Num256(b) * 256 + x) * 256 + y) * 256 + z
  {
    hide *;
    assert b + [x, y, z] == b + [x] + [y] + [z];
    NextByte(b, x);
    NextByte(b + [x], y);
    NextByte(b + [x] + [y], z);
  }

  /** Four sextets hold the bits of three bytes. */
  lemma SameBits(n: int, x: Byte, y: Byte, z: Byte)
    ensures (((n * 64 + x / 4) * 64 + (x % 4 * 16 + y / 16)) * 64 + (y % 16 * 4 + z / 64)) * 64 + z % 64
         == ((n * 256 + x) * 256 + y) * 256 + z
  {
    var xh, xl, yh, yl, zh, zl := x / 4, x % 4, y / 16, y % 16, z / 64, z % 64;
    assert x == 4 * xh + xl && y == 16 * yh + yl && z == 64 * zh + zl;
  }

  lemma GroupIsIndexed(x: Byte, y: Byte, z: Byte)
    ensures var g := EncodeGroup(x, y, z);
            && Sextet(g[0]) == x / 4 && Sextet(g[1]) == x % 4 * 16 + y / 16
            && Sextet(g[2]) == y % 16 * 4 + z / 64 && Sextet(g[3]) == z % 64
  {
    hide Char, Sextet;
    CharsAreIndexed(x / 4);
    CharsAreIndexed(x % 4 * 16 + y / 16);
    CharsAreIndexed(y % 16 * 4 + z / 64);
    CharsAreIndexed(z % 64);
  }

  lemma GroupKeepsTheNumber(s: seq<Byte>, b: seq<Byte>, x: Byte, y: Byte, z: Byte)
    requires Num64(s) == Num256(b)
    ensures Num64(s + EncodeGroup(x, y, z)) == Num256(b + [x, y, z])
  {
    hide *;
    var g := EncodeGroup(x, y, z);
    assert g == [g[0], g[1], g[2], g[3]];
    Num64Four(s, g[0], g[1], g[2], g[3]);
    GroupIsIndexed(x, y, z);
    Num256Three(b, x, y, z);
    SameBits(Num256(b), x, y, z);
  }

  lemma {:induction false} WholeKeepsTheNumber(b: seq<Byte>)
    requires |b| % 3 == 0
    ensures Num64(EncodeWhole(b)) == Num256(b) && 3 * |EncodeWhole(b)| == 4 * |b|
  {
    if b != [] {
      var n := |b| - 3;
      WholeKeepsTheNumber(b[..n]);
      GroupKeepsTheNumber(EncodeWhole(b[..n]), b[..n], b[n], b[n + 1], b[n + 2]);
      assert b == b[..n] + [b[n], b[n + 1], b[n + 2]];
    }
  }

  lemma GroupIsInAlphabet(x: Byte, y: Byte, z: Byte, i: nat)
    requires i < 4
    ensures Sextet(EncodeGroup(x, y, z)[i]) >= 0
  {
    GroupIsIndexed(x, y, z);
    hide Sextet, EncodeGroup;
  }

  lemma {:induction false} WholeIsInAlphabet(b: seq<Byte>, i: nat)
    requires |b| % 3 == 0 && i < |EncodeWhole(b)|
    ensures Sextet(EncodeWhole(b)[i]) >= 0
  {
    hide Sextet, EncodeGroup;
    var n := |b| - 3;
    var head := EncodeWhole(b[..n]);
    if i < |head| {
      WholeIsInAlphabet(b[..n], i);
    } else {
      GroupIsInAlphabet(b[n], b[n + 1], b[n + 2], i - |head|);
    }
  }

  lemma OneLeft(s: seq<Byte>, b: seq<Byte>, x: Byte)
    requires Num64(s) == Num256(b)
    ensures Num64(s + EncodeRest([x])) == Num256(b + [x]) * 16
  {
    var g := EncodeRest([x]);
    CharsAreIndexed(x / 4);
    CharsAreIndexed(x % 4 * 16);
    hide Sextet, Char, Num64, Num256;
    assert s + g == s + [g[0]] + [g[1]];
    Num64Snoc(s, g[0]);
    Num64Snoc(s + [g[0]], g[1]);
    NextByte(b, x);
  }

  lemma TwoLeft(s: seq<Byte>, b: seq<Byte>, x: Byte, y: Byte)
    requires Num64(s) == Num256(b)
    ensures Num64(s + EncodeRest([x, y])) == Num256(b + [x, y]) * 4
  {
    var g := EncodeRest([x, y]);
    CharsAreIndexed(x / 4);
    CharsAreIndexed(x % 4 * 16 + y / 16);
    CharsAreIndexed(y % 16 * 4);
    hide Sextet, Char, Num64, Num256;
    assert s + g == s + [g[0]] + [g[1]] + [g[2]];
    Num64Snoc(s, g[0]);
    Num64Snoc(s + [g[0]], g[1]);
    Num64Snoc(s + [g[0]] + [g[1]], g[2]);
    assert b + [x, y] == b + [x] + [y];
    NextByte(b, x);
    NextByte(b + [x], y);
  }

  lemma RestKeepsTheNumber(s: seq<Byte>, b: seq<Byte>, rest: seq<Byte>)
    requires |rest| < 3 && Num64(s) == Num256(b)
    ensures Num64(s + EncodeRest(rest)) == Num256(b + rest) * (if |rest| == 0 then 1 else if |rest| == 1 then 16 else 4)
  {
    if |rest| == 0 {
      assert s + EncodeRest(rest) == s && b + rest == b;
    } else if |rest| == 1 {
      assert rest == [rest[0]];
      hide *;
      OneLeft(s, b, rest[0]);
    } else {
      assert rest == [rest[0], rest[1]];
      hide *;
      TwoLeft(s, b, rest[0], rest[1]);
    }
  }

  lemma PaddingIsTrimmed(b: seq<Byte>)
    ensures TrimPadding(Encode(b)) == EncodeUnpadded(b)
    ensures InAlphabet(EncodeUnpadded(b))
  {
    var n := |b| - |b| % 3;
    var whole, u := EncodeWhole(b[..n]), EncodeUnpadded(b);
    forall i | 0 <= i < |u| ensures Sextet(u[i]) >= 0 {
      if i < |whole| {
        WholeIsInAlphabet(b[..n], i);
        assert u[i] == whole[i];
      } else {
        assert u[i] == EncodeRest(b[n..])[i - |whole|];
      }
    }
    assert u != [] ==> Sextet(u[|u| - 1]) >= 0;
    TrimTwo(u);
  }

  lemma TrimTwo(u: seq<Byte>)
    requires u == [] || u[|u| - 1] != PAD
    ensures TrimPadding(u) == TrimPadding(u + [PAD]) == TrimPadding(u + [PAD, PAD]) == u == u + []
  {
    TrimOne(u);
    TrimOne(u + [PAD]);
    assert u + [PAD, PAD] == u + [PAD] + [PAD];
  }

  lemma TrimOne(u: seq<Byte>)
    ensures TrimPadding(u + [PAD]) == TrimPadding(u)
  {
    assert (u + [PAD])[..|u|] == u;
  }

  /** Decoding an encoding gives back exactly the bytes, and nothing else. */
  lemma RoundTrip(b: seq<Byte>, r: Decoded)
    ensures IsDecoding(Encode(b), r) <==> r == Ok(b)
  {
    var n := |b| - |b| % 3;
    WholeKeepsTheNumber(b[..n]);
    RestKeepsTheNumber(EncodeWhole(b[..n]), b[..n], b[n..]);
    assert b == b[..n] + b[n..];
    PaddingIsTrimmed(b);
    LengthsMatch(b);
    assert IsDecoding(Encode(b), Ok(b));
    if IsDecoding(Encode(b), r) {
      DecodingIsUnique(Encode(b), r, Ok(b));
    }
  }

  lemma LengthsMatch(b: seq<Byte>)
    ensures var m := |EncodeUnpadded(b)|;
            6 * m / 8 == |b| && 6 * m % 8 == if |b| % 3 == 0 then 0 else if |b| % 3 == 1 then 4 else 2
  {
    WholeKeepsTheNumber(b[..|b| - |b| % 3]);
  }
}
