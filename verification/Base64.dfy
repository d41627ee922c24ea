/** Unpadded URL-safe Base64 (section 5 of RFC 4648) as the agent writes and reads it. */
module Base64 {
  import opened Prelude
  import opened Text

  type Byte = b: int | 0 <= b < 256
  type Bytes = seq<Byte>
  type Sextet = d: int | 0 <= d < 64

  function Symbol(d: Sextet): (c: char)
    ensures IsBase64Url(c)
  {
    if d < 26 then 'A' + d as char
    else if d < 52 then 'a' + (d - 26) as char
    else if d < 62 then '0' + (d - 52) as char
    else if d == 62 then '-'
    else '_'
  }

  /** Both alphabets are read: the standard symbols '+' and '/' survive the translation of '-' and '_'. */
  function SextetOf(c: char): Option<Sextet>
  {
    if 'A' <= c <= 'Z' then Some(c as int - 'A' as int)
    else if 'a' <= c <= 'z' then Some(c as int - 'a' as int + 26)
    else if IsDigit(c) then Some(c as int - '0' as int + 52)
    else if c == '-' || c == '+' then Some(62)
    else if c == '_' || c == '/' then Some(63)
    else None
  }

  lemma SextetOfSymbol(d: Sextet)
    ensures SextetOf(Symbol(d)) == Some(d)
  {
    if 26 <= d < 52 {
      assert 'a' <= Symbol(d) <= 'z';
    } else if 52 <= d < 62 {
      assert IsDigit(Symbol(d));
    }
  }

  function Three(a: Byte, b: Byte, c: Byte): string
  {
    [Symbol(a / 4), Symbol(a % 4 * 16 + b / 16), Symbol(b % 16 * 4 + c / 64), Symbol(c % 64)]
  }

  function Encode(bs: Bytes): string
  {
    if bs == [] then ""
    else if |bs| == 1 then Three(bs[0], 0, 0)[..2]
    else if |bs| == 2 then Three(bs[0], bs[1], 0)[..3]
    else Three(bs[0], bs[1], bs[2]) + Encode(bs[3..])
  }

  function First(w: Sextet, x: Sextet): Byte { w * 4 + x / 16 }

  function Second(x: Sextet, y: Sextet): Byte { x % 16 * 16 + y / 4 }

  function Third(y: Sextet, z: Sextet): Byte { y % 4 * 64 + z }

  /** One group of four characters; padding may close only the last group. Left-over bits are ignored. */
  function DecodeGroup(g: string, last: bool): Option<Bytes>
    requires |g| == 4
  {
    match (SextetOf(g[0]), SextetOf(g[1]), SextetOf(g[2]), SextetOf(g[3]))
    case (Some(w), Some(x), Some(y), Some(z)) => Some([First(w, x), Second(x, y), Third(y, z)])
    case (Some(w), Some(x), Some(y), None) =>
      if last && g[3] == '=' then Some([First(w, x), Second(x, y)]) else None
    case (Some(w), Some(x), None, None) =>
      if last && g[2] == '=' && g[3] == '=' then Some([First(w, x)]) else None
    case _ => None
  }

  function DecodePadded(t: string): Option<Bytes>
  {
    if t == "" then Some([])
    else if |t| < 4 then None
    else match (DecodeGroup(t[..4], |t| == 4), DecodePadded(t[4..]))
      case (Some(bs), Some(rest)) => Some(bs + rest)
      case _ => None
  }

  /** What brings a text of `n` characters to a multiple of four. */
  function Padding(n: nat): string
  {
    if n % 4 == 0 then "" else if n % 4 == 1 then "===" else if n % 4 == 2 then "==" else "="
  }

  function Decode(s: string): Option<Bytes>
  {
    DecodePadded(s + Padding(|s|))
  }

  lemma Bits(a: Byte, b: Byte, c: Byte)
    ensures First(a / 4, a % 4 * 16 + b / 16) == a
    ensures Second(a % 4 * 16 + b / 16, b % 16 * 4 + c / 64) == b
    ensures Third(b % 16 * 4 + c / 64, c % 64) == c
  {
  }

  lemma DecodeThree(a: Byte, b: Byte, c: Byte, last: bool)
    ensures DecodeGroup(Three(a, b, c), last) == Some([a, b, c])
    ensures DecodeGroup(Three(a, b, 0)[..3] + "=", true) == Some([a, b])
    ensures DecodeGroup(Three(a, 0, 0)[..2] + "==", true) == Some([a])
  {
    SextetOfSymbol(a / 4);
    SextetOfSymbol(a % 4 * 16);
    SextetOfSymbol(a % 4 * 16 + b / 16);
    SextetOfSymbol(b % 16 * 4);
    SextetOfSymbol(b % 16 * 4 + c / 64);
    SextetOfSymbol(c % 64);
    Bits(a, b, c);
    Bits(a, b, 0);
    Bits(a, 0, 0);
  }

  lemma PaddingRepeats(n: nat)
    ensures Padding(4 + n) == Padding(n)
  {
    assert (4 + n) % 4 == n % 4;
  }

  lemma DecodeStep(g: string, t: string, bs: Bytes, rest: Bytes)
    requires |g| == 4
    requires DecodeGroup(g, t == "") == Some(bs) && DecodePadded(t) == Some(rest)
    ensures DecodePadded(g + t) == Some(bs + rest)
  {
    assert (g + t)[..4] == g && (g + t)[4..] == t;
  }

  lemma DecodeJoin(g: string, s: string, bs: Bytes, rest: Bytes)
    requires |g| == 4 && DecodeGroup(g, true) == DecodeGroup(g, false) == Some(bs)
    requires Decode(s) == Some(rest)
    ensures Decode(g + s) == Some(bs + rest)
  {
    var t := s + Padding(|s|);
    assert DecodeGroup(g, t == "") == Some(bs);
    DecodeStep(g, t, bs, rest);
    PaddingRepeats(|s|);
    assert g + s + Padding(|s|) == g + t;
  }

  lemma DecodeLast(s: string, bs: Bytes)
    requires 2 <= |s| <= 3 && DecodeGroup(s + Padding(|s|), true) == Some(bs)
    ensures Decode(s) == Some(bs)
  {
    DecodeStep(s + Padding(|s|), "", bs, []);
    assert s + Padding(|s|) + "" == s + Padding(|s|) && bs + [] == bs;
  }

  lemma DecodeSingle(a: Byte)
    ensures Decode(Encode([a])) == Some([a])
  {
    DecodeThree(a, 0, 0, true);
    DecodeLast(Encode([a]), [a]);
  }

  lemma DecodePair(a: Byte, b: Byte)
    ensures Decode(Encode([a, b])) == Some([a, b])
  {
    DecodeThree(a, b, 0, true);
    DecodeLast(Encode([a, b]), [a, b]);
  }

  lemma DecodeMany(a: Byte, b: Byte, c: Byte, s: string, rest: Bytes)
    requires Decode(s) == Some(rest)
    ensures Decode(Three(a, b, c) + s) == Some([a, b, c] + rest)
  {
    DecodeThree(a, b, c, true);
    DecodeThree(a, b, c, false);
    DecodeJoin(Three(a, b, c), s, [a, b, c], rest);
  }

  lemma {:induction false} DecodeEncodeLong(bs: Bytes)
    requires |bs| >= 3 && Decode(Encode(bs[3..])) == Some(bs[3..])
    ensures Decode(Encode(bs)) == Some(bs)
  {
    DecodeMany(bs[0], bs[1], bs[2], Encode(bs[3..]), bs[3..]);
    assert bs == [bs[0], bs[1], bs[2]] + bs[3..];
  }

  /** Decoding undoes encoding. */
  lemma {:induction false} DecodeEncode(bs: Bytes)
    ensures Decode(Encode(bs)) == Some(bs)
  {
    if |bs| == 1 {
      DecodeSingle(bs[0]);
      assert bs == [bs[0]];
    } else if |bs| == 2 {
      DecodePair(bs[0], bs[1]);
      assert bs == [bs[0], bs[1]];
    } else if bs != [] {
      DecodeEncode(bs[3..]);
      DecodeEncodeLong(bs);
    }
  }

  lemma EncodeInjective(a: Bytes, b: Bytes)
    requires Encode(a) == Encode(b)
    ensures a == b
  {
    DecodeEncode(a);
    DecodeEncode(b);
  }

  lemma {:induction false} EncodeShape(bs: Bytes)
    ensures forall i | 0 <= i < |Encode(bs)| :: IsBase64Url(Encode(bs)[i])
    ensures |Encode(bs)| == (4 * |bs| + 2) / 3
  {
    if |bs| >= 3 {
      EncodeShape(bs[3..]);
    }
  }

  /** A 32-byte key has the 43-character spelling the configuration files require. */
  lemma EncodedKeyText(bs: Bytes)
    requires |bs| == 32
    ensures IsPublicKeyText(Encode(bs))
  {
    EncodeShape(bs);
  }
}
