/** Base64 with the standard alphabet and `=` padding (section 4 of RFC 4648). */
module Base64 {
  import opened Wrappers

  /** A 6-bit group. */
  type sextet = x: int | 0 <= x < 64

  /** The character that encodes a 6-bit group (Table 1 of RFC 4648). */
  function Symbol(i: sextet): (c: char)
    ensures IsSymbol(c)
  {
    if i < 26 then ('A' as int + i) as char
    else if i < 52 then ('a' as int + (i - 26)) as char
    else if i < 62 then ('0' as int + (i - 52)) as char
    else if i == 62 then '+'
    else '/'
  }

  predicate IsSymbol(c: char) {
    ('A' <= c <= 'Z') || ('a' <= c <= 'z') || ('0' <= c <= '9') || c == '+' || c == '/'
  }

  /** The 6-bit group a character of the alphabet stands for. */
  function ValueOf(c: char): (i: sextet)
    requires IsSymbol(c)
    ensures Symbol(i) == c
  {
    if 'A' <= c <= 'Z' then c as int - 'A' as int
    else if 'a' <= c <= 'z' then c as int - 'a' as int + 26
    else if '0' <= c <= '9' then c as int - '0' as int + 52
    else if c == '+' then 62
    else 63
  }

  lemma ValueOfSymbol(i: sextet)
    ensures ValueOf(Symbol(i)) == i
  {
  }

  /** Three bytes as four symbols. */
  function EncodeTriple(a: byte, b: byte, c: byte): string {
    [Symbol(a / 4), Symbol((a % 4) * 16 + b / 16), Symbol((b % 16) * 4 + c / 64), Symbol(c % 64)]
  }

  /** The base64 text of a byte string: every full group of three bytes becomes four
      symbols, and a final group of one or two bytes is padded with `=` to four characters. */
  function Encode(data: seq<byte>): (s: string)
    ensures |s| == 4 * ((|data| + 2) / 3)
    ensures forall k :: 0 <= k < |s| ==> IsSymbol(s[k]) || s[k] == '='
    decreases |data|
  {
    if |data| == 0 then ""
    else if |data| == 1 then [Symbol(data[0] / 4), Symbol((data[0] % 4) * 16), '=', '=']
    else if |data| == 2 then
      [Symbol(data[0] / 4), Symbol((data[0] % 4) * 16 + data[1] / 16), Symbol((data[1] % 16) * 4), '=']
    else EncodeTriple(data[0], data[1], data[2]) + Encode(data[3..])
  }

  /** Four symbols as three bytes. */
  function DecodeQuad(c0: char, c1: char, c2: char, c3: char): seq<byte>
    requires IsSymbol(c0) && IsSymbol(c1) && IsSymbol(c2) && IsSymbol(c3)
  {
    var i0, i1, i2, i3 := ValueOf(c0), ValueOf(c1), ValueOf(c2), ValueOf(c3);
    [i0 * 4 + i1 / 16, (i1 % 16) * 16 + i2 / 4, (i2 % 4) * 64 + i3]
  }

  /** The bytes a base64 text stands for, or None when the text is not base64:
      its length is not a multiple of four, a character is outside the alphabet,
      padding appears before the last group, or the bits that padding drops are not zero. */
  function Decode(s: string): (r: Option<seq<byte>>)
    ensures r.Some? ==> |s| == 4 * ((|r.value| + 2) / 3)
    decreases |s|
  {
    if |s| == 0 then Some([])
    else if |s| < 4 then None
    else if |s| == 4 && IsSymbol(s[0]) && IsSymbol(s[1]) && s[2] == '=' && s[3] == '=' then
      if ValueOf(s[1]) % 16 == 0 then Some([ValueOf(s[0]) * 4 + ValueOf(s[1]) / 16]) else None
    else if |s| == 4 && IsSymbol(s[0]) && IsSymbol(s[1]) && IsSymbol(s[2]) && s[3] == '=' then
      if ValueOf(s[2]) % 4 == 0 then
        Some([ValueOf(s[0]) * 4 + ValueOf(s[1]) / 16, (ValueOf(s[1]) % 16) * 16 + ValueOf(s[2]) / 4])
      else None
    else if IsSymbol(s[0]) && IsSymbol(s[1]) && IsSymbol(s[2]) && IsSymbol(s[3]) then
      match Decode(s[4..])
      case Some(rest) => Some(DecodeQuad(s[0], s[1], s[2], s[3]) + rest)
      case None => None
    else None
  }

  lemma DivModSum(h: int, l: int, d: int)
    requires d in {4, 16, 64} && 0 <= l < d
    ensures (h * d + l) / d == h && (h * d + l) % d == l
  {
  }

  /** The 6-bit groups of three bytes reassemble to those bytes. */
  lemma TripleArithmetic(a: byte, b: byte, c: byte)
    ensures (a / 4) * 4 + ((a % 4) * 16 + b / 16) / 16 == a
    ensures (((a % 4) * 16 + b / 16) % 16) * 16 + ((b % 16) * 4 + c / 64) / 4 == b
    ensures (((b % 16) * 4 + c / 64) % 4) * 64 + c % 64 == c
  {
    DivModSum(a % 4, b / 16, 16);
    DivModSum(b % 16, c / 64, 4);
  }

  lemma TripleRoundTrip(a: byte, b: byte, c: byte)
    ensures var q := EncodeTriple(a, b, c); DecodeQuad(q[0], q[1], q[2], q[3]) == [a, b, c]
  {
    ValueOfSymbol(a / 4);
    ValueOfSymbol((a % 4) * 16 + b / 16);
    ValueOfSymbol((b % 16) * 4 + c / 64);
    ValueOfSymbol(c % 64);
    TripleArithmetic(a, b, c);
  }

  lemma DecodeEncodeOne(a: byte)
    ensures Decode(Encode([a])) == Some([a])
  {
    var s := Encode([a]);
    ValueOfSymbol(a / 4);
    ValueOfSymbol((a % 4) * 16);
    DivModSum(a % 4, 0, 16);
    assert ValueOf(s[0]) == a / 4;
    assert ValueOf(s[1]) == (a % 4) * 16;
  }

  lemma DecodeEncodeTwo(a: byte, b: byte)
    ensures Decode(Encode([a, b])) == Some([a, b])
  {
    var s := Encode([a, b]);
    ValueOfSymbol(a / 4);
    ValueOfSymbol((a % 4) * 16 + b / 16);
    ValueOfSymbol((b % 16) * 4);
    TripleArithmetic(a, b, 0);
    assert ValueOf(s[0]) == a / 4;
    assert ValueOf(s[1]) == (a % 4) * 16 + b / 16;
    assert ValueOf(s[2]) == (b % 16) * 4;
  }

  /** A group of four symbols in front of valid base64 decodes to its three bytes in front. */
  lemma DecodeCons(q: string, t: string, rest: seq<byte>)
    requires |q| == 4 && IsSymbol(q[0]) && IsSymbol(q[1]) && IsSymbol(q[2]) && IsSymbol(q[3])
    requires Decode(t) == Some(rest)
    ensures Decode(q + t) == Some(DecodeQuad(q[0], q[1], q[2], q[3]) + rest)
  {
    var s := q + t;
    assert s[4..] == t;
    assert s[0] == q[0] && s[1] == q[1] && s[2] == q[2] && s[3] == q[3];
    if |t| == 0 {
      assert Decode(t) == Some([]);
    }
  }

  lemma SplitThree(data: seq<byte>)
    requires |data| >= 3
    ensures data == [data[0], data[1], data[2]] + data[3..]
  {
  }

  lemma DecodeEncodeStep(data: seq<byte>)
    requires |data| >= 3 && Decode(Encode(data[3..])) == Some(data[3..])
    ensures Decode(Encode(data)) == Some(data)
  {
    var q := EncodeTriple(data[0], data[1], data[2]);
    var t := Encode(data[3..]);
    assert Encode(data) == q + t;
    DecodeCons(q, t, data[3..]);
    TripleRoundTrip(data[0], data[1], data[2]);
    SplitThree(data);
  }

  /** Decoding undoes encoding, so the encoding is injective. */
  lemma {:induction false} DecodeEncode(data: seq<byte>)
    ensures Decode(Encode(data)) == Some(data)
    decreases |data|
  {
    if |data| == 0 {
    } else if |data| == 1 {
      DecodeEncodeOne(data[0]);
      assert data == [data[0]];
    } else if |data| == 2 {
      DecodeEncodeTwo(data[0], data[1]);
      assert data == [data[0], data[1]];
    } else {
      DecodeEncode(data[3..]);
      DecodeEncodeStep(data);
    }
  }

  lemma EncodeInjective(x: seq<byte>, y: seq<byte>)
    requires Encode(x) == Encode(y)
    ensures x == y
  {
    DecodeEncode(x);
    DecodeEncode(y);
  }
}
