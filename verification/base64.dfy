/** Base64 with padding, section 4 of RFC 4648. */
module Base64 {
  import opened Common

  const PAD: Code := 61

  /** The character of a 6-bit value. */
  function Digit(n: int): Code
    requires 0 <= n < 64
  {
    if n < 26 then 65 + n
    else if n < 52 then 97 + n - 26
    else if n < 62 then 48 + n - 52
    else if n == 62 then 43
    else 47
  }

  function Value(c: Code): (r: Option<int>)
    ensures r.Some? ==> 0 <= r.value < 64
  {
    if 65 <= c <= 90 then Some(c - 65)
    else if 97 <= c <= 122 then Some(c - 97 + 26)
    else if 48 <= c <= 57 then Some(c - 48 + 52)
    else if c == 43 then Some(62)
    else if c == 47 then Some(63)
    else None
  }

  function Encode(b: Bytes): Str {
    if |b| == 0 then []
    else if |b| == 1 then [Digit(b[0] / 4), Digit(b[0] % 4 * 16), PAD, PAD]
    else if |b| == 2 then [Digit(b[0] / 4), Digit(b[0] % 4 * 16 + b[1] / 16), Digit(b[1] % 16 * 4), PAD]
    else [Digit(b[0] / 4), Digit(b[0] % 4 * 16 + b[1] / 16), Digit(b[1] % 16 * 4 + b[2] / 64), Digit(b[2] % 64)]
         + Encode(b[3..])
  }

  // The bytes of a group of four, three or two values.
  function First(v0: int, v1: int): (b: Byte)
    requires 0 <= v0 < 64 && 0 <= v1 < 64
  {
    v0 * 4 + v1 / 16
  }

  function Second(v1: int, v2: int): (b: Byte)
    requires 0 <= v1 < 64 && 0 <= v2 < 64
  {
    v1 % 16 * 16 + v2 / 4
  }

  function Third(v2: int, v3: int): (b: Byte)
    requires 0 <= v2 < 64 && 0 <= v3 < 64
  {
    v2 % 4 * 64 + v3
  }

  function Decode(s: Str): Option<Bytes> {
    if |s| == 0 then Some([])
    else if |s| < 4 then None
    else
      match (Value(s[0]), Value(s[1])) {
        case (Some(v0), Some(v1)) =>
          var b0 := First(v0, v1);
          if s[2] == PAD then if s[3] == PAD && |s| == 4 then Some([b0]) else None
          else
            match Value(s[2]) {
              case None => None
              case Some(v2) =>
                var b1 := Second(v1, v2);
                if s[3] == PAD then if |s| == 4 then Some([b0, b1]) else None
                else
                  match (Value(s[3]), Decode(s[4..])) {
                    case (Some(v3), Some(rest)) =>
                      var b2 := Third(v2, v3);
                      Some([b0, b1, b2] + rest)
                    case _ => None
                  }
            }
        case _ => None
      }
  }

  /** The digits of a number in base 64, most significant first. */
  function Number(digits: Str): Option<nat> {
    if digits == [] then Some(0)
    else
      match (Number(digits[..|digits| - 1]), Value(digits[|digits| - 1]))
      case (Some(n), Some(v)) => Some(n * 64 + v)
      case _ => None
  }

  function Triple(b0: nat, b1: nat, b2: nat): nat { (b0 * 256 + b1) * 256 + b2 }

  lemma Bits(b0: Byte, b1: Byte, b2: Byte)
    ensures ((b0 / 4 * 64 + (b0 % 4 * 16 + b1 / 16)) * 64 + (b1 % 16 * 4 + b2 / 64)) * 64 + b2 % 64
            == Triple(b0, b1, b2)
  {}

  lemma NumberNext(digits: Str, n: nat, v: int)
    requires 0 <= v < 64 && Number(digits) == Some(n)
    ensures Number(digits + [Digit(v)]) == Some(n * 64 + v)
  {
    DigitValue(v);
    assert (digits + [Digit(v)])[..|digits|] == digits;
  }

  function BigEndian(b: Bytes): nat {
    if b == [] then 0 else BigEndian(b[..|b| - 1]) * 256 + b[|b| - 1]
  }

  lemma ThreeBigEndian(b: Bytes)
    requires |b| >= 3
    ensures BigEndian(b[..3]) == Triple(b[0], b[1], b[2])
  {
    assert b[..3][..2] == b[..2] && b[..2][..1] == b[..1] && b[..1][..0] == [];
    assert BigEndian(b[..1]) == b[0];
    assert BigEndian(b[..2]) == BigEndian(b[..1]) * 256 + b[1];
  }

  lemma FourDigits(v0: int, v1: int, v2: int, v3: int)
    requires 0 <= v0 < 64 && 0 <= v1 < 64 && 0 <= v2 < 64 && 0 <= v3 < 64
    ensures Number([Digit(v0), Digit(v1), Digit(v2), Digit(v3)]) == Some(((v0 * 64 + v1) * 64 + v2) * 64 + v3)
  {
    var d0, d1, d2, d3 := Digit(v0), Digit(v1), Digit(v2), Digit(v3);
    NumberNext([], 0, v0);
    assert [] + [d0] == [d0] && [d0] + [d1] == [d0, d1];
    NumberNext([d0], v0, v1);
    assert [d0, d1] + [d2] == [d0, d1, d2];
    NumberNext([d0, d1], v0 * 64 + v1, v2);
    assert [d0, d1, d2] + [d3] == [d0, d1, d2, d3];
    NumberNext([d0, d1, d2], (v0 * 64 + v1) * 64 + v2, v3);
  }

  lemma FourOf(b0: Byte, b1: Byte, b2: Byte)
    ensures Number([Digit(b0 / 4), Digit(b0 % 4 * 16 + b1 / 16), Digit(b1 % 16 * 4 + b2 / 64), Digit(b2 % 64)])
            == Some(Triple(b0, b1, b2))
  {
    FourDigits(b0 / 4, b0 % 4 * 16 + b1 / 16, b1 % 16 * 4 + b2 / 64, b2 % 64);
    Bits(b0, b1, b2);
  }

  /** Three bytes become four digits of the same number. */
  lemma SameBits(b: Bytes)
    requires |b| >= 3
    ensures |Encode(b)| >= 4 && Number(Encode(b)[..4]) == Some(BigEndian(b[..3]))
    ensures Encode(b)[4..] == Encode(b[3..])
  {
    FourOf(b[0], b[1], b[2]);
    ThreeBigEndian(b);
    CutFour(b);
  }

  lemma CutFour(b: Bytes)
    requires |b| >= 3
    ensures |Encode(b)| >= 4 && Encode(b)[4..] == Encode(b[3..])
    ensures Encode(b)[..4] == [Digit(b[0] / 4), Digit(b[0] % 4 * 16 + b[1] / 16),
                               Digit(b[1] % 16 * 4 + b[2] / 64), Digit(b[2] % 64)]
  {}

  lemma DigitValue(n: int)
    requires 0 <= n < 64
    ensures Value(Digit(n)) == Some(n) && Digit(n) != PAD
  {}

  lemma FirstSplits(b0: Byte, low: int)
    requires 0 <= low < 16
    ensures First(b0 / 4, b0 % 4 * 16 + low) == b0
  {}

  lemma SecondSplits(high: int, b1: Byte, low: int)
    requires 0 <= high < 4 && 0 <= low < 4
    ensures Second(high * 16 + b1 / 16, b1 % 16 * 4 + low) == b1
  {}

  lemma ThirdSplits(high: int, b2: Byte)
    requires 0 <= high < 16
    ensures Third(high * 4 + b2 / 64, b2 % 64) == b2
  {}

  lemma DecodeTwo(v0: int, v1: int)
    requires 0 <= v0 < 64 && 0 <= v1 < 64
    ensures Decode([Digit(v0), Digit(v1), PAD, PAD]) == Some([First(v0, v1)])
  {
    DigitValue(v0);
    DigitValue(v1);
  }

  lemma DecodeThree(v0: int, v1: int, v2: int)
    requires 0 <= v0 < 64 && 0 <= v1 < 64 && 0 <= v2 < 64
    ensures Decode([Digit(v0), Digit(v1), Digit(v2), PAD]) == Some([First(v0, v1), Second(v1, v2)])
  {
    DigitValue(v0);
    DigitValue(v1);
    DigitValue(v2);
  }

  lemma DecodeFour(v0: int, v1: int, v2: int, v3: int, rest: Str, b: Bytes)
    requires 0 <= v0 < 64 && 0 <= v1 < 64 && 0 <= v2 < 64 && 0 <= v3 < 64
    requires Decode(rest) == Some(b)
    ensures Decode([Digit(v0), Digit(v1), Digit(v2), Digit(v3)] + rest)
            == Some([First(v0, v1), Second(v1, v2), Third(v2, v3)] + b)
  {
    DigitValue(v0);
    DigitValue(v1);
    DigitValue(v2);
    DigitValue(v3);
    assert ([Digit(v0), Digit(v1), Digit(v2), Digit(v3)] + rest)[4..] == rest;
  }

  lemma OneByte(b: Bytes)
    requires |b| == 1
    ensures Decode([Digit(b[0] / 4), Digit(b[0] % 4 * 16), PAD, PAD]) == Some(b)
  {
    DecodeTwo(b[0] / 4, b[0] % 4 * 16);
    FirstSplits(b[0], 0);
    assert b == [b[0]];
  }

  lemma TwoBytes(b: Bytes)
    requires |b| == 2
    ensures Decode([Digit(b[0] / 4), Digit(b[0] % 4 * 16 + b[1] / 16), Digit(b[1] % 16 * 4), PAD]) == Some(b)
  {
    DecodeThree(b[0] / 4, b[0] % 4 * 16 + b[1] / 16, b[1] % 16 * 4);
    FirstSplits(b[0], b[1] / 16);
    SecondSplits(b[0] % 4, b[1], 0);
    assert b == [b[0], b[1]];
  }

  lemma ThreeBytes(b: Bytes, rest: Str)
    requires |b| >= 3 && Decode(rest) == Some(b[3..])
    ensures Decode([Digit(b[0] / 4), Digit(b[0] % 4 * 16 + b[1] / 16), Digit(b[1] % 16 * 4 + b[2] / 64),
                    Digit(b[2] % 64)] + rest) == Some(b)
  {
    DecodeFour(b[0] / 4, b[0] % 4 * 16 + b[1] / 16, b[1] % 16 * 4 + b[2] / 64, b[2] % 64, rest, b[3..]);
    FirstSplits(b[0], b[1] / 16);
    SecondSplits(b[0] % 4, b[1], b[2] / 64);
    ThirdSplits(b[1] % 16, b[2]);
    assert b == [b[0], b[1], b[2]] + b[3..];
  }

  /** Decoding undoes encoding, for every byte string. */
  lemma {:induction false} RoundTrip(b: Bytes)
    ensures Decode(Encode(b)) == Some(b)
  {
    if |b| == 1 {
      OneByte(b);
    } else if |b| == 2 {
      TwoBytes(b);
    } else if |b| >= 3 {
      RoundTrip(b[3..]);
      ThreeBytes(b, Encode(b[3..]));
    }
  }

  /** The alphabet of table 1 of RFC 4648, and its padding. */
  lemma AlphabetMeans(n: int)
    requires 0 <= n < 64
    ensures n < 26 ==> Digit(n) == 'A' as int + n
    ensures 26 <= n < 52 ==> Digit(n) == 'a' as int + (n - 26)
    ensures 52 <= n < 62 ==> Digit(n) == '0' as int + (n - 52)
    ensures (n == 62 ==> Digit(n) == '+' as int) && (n == 63 ==> Digit(n) == '/' as int)
    ensures PAD == '=' as int
  {}

  lemma TwoDigits(v0: int, v1: int)
    requires 0 <= v0 < 64 && 0 <= v1 < 64
    ensures Number([Digit(v0), Digit(v1)]) == Some(v0 * 64 + v1)
  {
    NumberNext([], 0, v0);
    assert [] + [Digit(v0)] == [Digit(v0)] && [Digit(v0)] + [Digit(v1)] == [Digit(v0), Digit(v1)];
    NumberNext([Digit(v0)], v0, v1);
  }

  lemma ThreeDigits(v0: int, v1: int, v2: int)
    requires 0 <= v0 < 64 && 0 <= v1 < 64 && 0 <= v2 < 64
    ensures Number([Digit(v0), Digit(v1), Digit(v2)]) == Some((v0 * 64 + v1) * 64 + v2)
  {
    TwoDigits(v0, v1);
    assert [Digit(v0), Digit(v1)] + [Digit(v2)] == [Digit(v0), Digit(v1), Digit(v2)];
    NumberNext([Digit(v0), Digit(v1)], v0 * 64 + v1, v2);
  }

  /** One or two bytes at the end are written with zero bits and padding after them. */
  lemma TailBits(b: Bytes)
    requires |b| == 1 || |b| == 2
    ensures |b| == 1 ==> |Encode(b)| == 4 && Encode(b)[2..] == [PAD, PAD]
                         && Number(Encode(b)[..2]) == Some(BigEndian(b) * 16)
    ensures |b| == 2 ==> |Encode(b)| == 4 && Encode(b)[3] == PAD
                         && Number(Encode(b)[..3]) == Some(BigEndian(b) * 4)
  {
    if |b| == 1 {
      TwoDigits(b[0] / 4, b[0] % 4 * 16);
      assert Encode(b)[..2] == [Digit(b[0] / 4), Digit(b[0] % 4 * 16)];
      assert b[..0] == [] && BigEndian(b) == b[0];
    } else {
      ThreeDigits(b[0] / 4, b[0] % 4 * 16 + b[1] / 16, b[1] % 16 * 4);
      assert Encode(b)[..3] == [Digit(b[0] / 4), Digit(b[0] % 4 * 16 + b[1] / 16), Digit(b[1] % 16 * 4)];
      assert b[..1] == [b[0]] && b[..1][..0] == [] && BigEndian(b[..1]) == b[0];
    }
  }
}
