/** Unpadded base64url (section 5 of RFC 4648), text as ASCII codes: no `=` is accepted,
    and the unused bits of the last digit must be zero. */
module Base64Url {
  import opened Common

  type byte = bv8
  type digit = d: bv8 | d < 64

  /** `A`..`Z`, `a`..`z`, `0`..`9`, `-` and `_`, as ASCII codes. */
  function Char(d: digit): byte {
    if d < 26 then d + 65
    else if d < 52 then d + 71
    else if d < 62 then d - 4
    else if d == 62 then 45 else 95
  }

  function Digit(c: byte): Option<digit> {
    if 65 <= c <= 90 then Some(c - 65)
    else if 97 <= c <= 122 then Some(c - 71)
    else if 48 <= c <= 57 then Some(c + 4)
    else if c == 45 then Some(62)
    else if c == 95 then Some(63)
    else None
  }

  lemma CharRoundTrip(d: digit)
    ensures Digit(Char(d)) == Some(d)
  {
  }
  lemma DigitRoundTrip(c: byte)
    ensures Digit(c).Some? ==> Char(Digit(c).value) == c
  {
  }

  // ── bytes and six-bit digits ─────────────────────────────────────────────

  function Digit0(b0: byte): digit { b0 >> 2 }
  function Digit1(b0: byte, b1: byte): digit { ((b0 & 3) << 4) | (b1 >> 4) }
  function Digit2(b1: byte, b2: byte): digit { ((b1 & 15) << 2) | (b2 >> 6) }
  function Digit3(b2: byte): digit { b2 & 63 }

  function Byte0(d0: digit, d1: digit): byte { (d0 << 2) | (d1 >> 4) }
  function Byte1(d1: digit, d2: digit): byte { (d1 << 4) | (d2 >> 2) }
  function Byte2(d2: digit, d3: digit): byte { (d2 << 6) | d3 }

  function ToDigits(bytes: seq<byte>): seq<digit> {
    if |bytes| == 0 then []
    else if |bytes| == 1 then [Digit0(bytes[0]), Digit1(bytes[0], 0)]
    else if |bytes| == 2 then [Digit0(bytes[0]), Digit1(bytes[0], bytes[1]), Digit2(bytes[1], 0)]
    else
      [Digit0(bytes[0]), Digit1(bytes[0], bytes[1]), Digit2(bytes[1], bytes[2]), Digit3(bytes[2])] + ToDigits(bytes[3..])
  }

  function FromDigits(ds: seq<digit>): Option<seq<byte>> {
    if |ds| == 0 then Some([])
    else if |ds| == 1 then None
    else if |ds| == 2 then
      if ds[1] & 15 != 0 then None else Some([Byte0(ds[0], ds[1])])
    else if |ds| == 3 then
      if ds[2] & 3 != 0 then None else Some([Byte0(ds[0], ds[1]), Byte1(ds[1], ds[2])])
    else
      match FromDigits(ds[4..])
      case None => None
      case Some(rest) => Some([Byte0(ds[0], ds[1]), Byte1(ds[1], ds[2]), Byte2(ds[2], ds[3])] + rest)
  }

  lemma ToDigitsOfMore(b0: byte, b1: byte, b2: byte, rest: seq<byte>)
    ensures ToDigits([b0, b1, b2] + rest) == [Digit0(b0), Digit1(b0, b1), Digit2(b1, b2), Digit3(b2)] + ToDigits(rest)
  {
    assert ([b0, b1, b2] + rest)[3..] == rest;
  }

  lemma FromDigitsOfMore(d0: digit, d1: digit, d2: digit, d3: digit, rest: seq<digit>)
    requires FromDigits(rest).Some?
    ensures FromDigits([d0, d1, d2, d3] + rest) == Some([Byte0(d0, d1), Byte1(d1, d2), Byte2(d2, d3)] + FromDigits(rest).value)
  {
    assert ([d0, d1, d2, d3] + rest)[4..] == rest;
  }

  lemma BytesOfDigits(b0: byte, b1: byte, b2: byte)
    ensures Byte0(Digit0(b0), Digit1(b0, b1)) == b0
    ensures Byte1(Digit1(b0, b1), Digit2(b1, b2)) == b1
    ensures Byte2(Digit2(b1, b2), Digit3(b2)) == b2
    ensures Digit1(b0, 0) & 15 == 0 && Digit2(b1, 0) & 3 == 0
  {
  }

  lemma DigitsOfBytes(d0: digit, d1: digit, d2: digit, d3: digit)
    ensures Digit0(Byte0(d0, d1)) == d0
    ensures Digit1(Byte0(d0, d1), Byte1(d1, d2)) == d1
    ensures Digit2(Byte1(d1, d2), Byte2(d2, d3)) == d2
    ensures Digit3(Byte2(d2, d3)) == d3
    ensures d1 & 15 == 0 ==> Digit1(Byte0(d0, d1), 0) == d1
    ensures d2 & 3 == 0 ==> Digit2(Byte1(d1, d2), 0) == d2
  {
  }

  lemma BytesOfThree(b0: byte, b1: byte, b2: byte, rest: seq<byte>)
    requires FromDigits(ToDigits(rest)) == Some(rest)
    ensures FromDigits(ToDigits([b0, b1, b2] + rest)) == Some([b0, b1, b2] + rest)
  {
    ToDigitsOfMore(b0, b1, b2, rest);
    FromDigitsOfMore(Digit0(b0), Digit1(b0, b1), Digit2(b1, b2), Digit3(b2), ToDigits(rest));
    BytesOfDigits(b0, b1, b2);
  }

  lemma BytesOfTail(b0: byte, b1: byte)
    ensures FromDigits(ToDigits([b0])) == Some([b0])
    ensures FromDigits(ToDigits([b0, b1])) == Some([b0, b1])
  {
    BytesOfDigits(b0, 0, 0);
    BytesOfDigits(b0, b1, 0);
  }

  lemma {:induction false} BytesRoundTrip(bytes: seq<byte>)
    ensures FromDigits(ToDigits(bytes)) == Some(bytes)
  {
    if |bytes| >= 3 {
      BytesRoundTrip(bytes[3..]);
      BytesOfThree(bytes[0], bytes[1], bytes[2], bytes[3..]);
      assert bytes == [bytes[0], bytes[1], bytes[2]] + bytes[3..];
    } else if |bytes| == 2 {
      BytesOfTail(bytes[0], bytes[1]);
      assert bytes == [bytes[0], bytes[1]];
    } else if |bytes| == 1 {
      BytesOfTail(bytes[0], 0);
      assert bytes == [bytes[0]];
    }
  }

  lemma DigitsOfThree(d0: digit, d1: digit, d2: digit, d3: digit, rest: seq<byte>)
    ensures ToDigits([Byte0(d0, d1), Byte1(d1, d2), Byte2(d2, d3)] + rest) == [d0, d1, d2, d3] + ToDigits(rest)
  {
    ToDigitsOfMore(Byte0(d0, d1), Byte1(d1, d2), Byte2(d2, d3), rest);
    DigitsOfBytes(d0, d1, d2, d3);
  }

  lemma DigitsOfTail(d0: digit, d1: digit, d2: digit)
    ensures d1 & 15 == 0 ==> ToDigits([Byte0(d0, d1)]) == [d0, d1]
    ensures d2 & 3 == 0 ==> ToDigits([Byte0(d0, d1), Byte1(d1, d2)]) == [d0, d1, d2]
  {
    DigitsOfBytes(d0, d1, d2, 0);
  }

  lemma MoreDigits(d0: digit, d1: digit, d2: digit, d3: digit, rest: seq<digit>)
    requires FromDigits(rest).Some? && ToDigits(FromDigits(rest).value) == rest
    ensures FromDigits([d0, d1, d2, d3] + rest).Some?
    ensures ToDigits(FromDigits([d0, d1, d2, d3] + rest).value) == [d0, d1, d2, d3] + rest
  {
    FromDigitsOfMore(d0, d1, d2, d3, rest);
    DigitsOfThree(d0, d1, d2, d3, FromDigits(rest).value);
  }

  lemma {:induction false} DigitsRoundTrip(ds: seq<digit>)
    ensures FromDigits(ds).Some? ==> ToDigits(FromDigits(ds).value) == ds
  {
    if FromDigits(ds).Some? {
      if |ds| >= 4 {
        DigitsRoundTrip(ds[4..]);
        MoreDigits(ds[0], ds[1], ds[2], ds[3], ds[4..]);
        assert ds == [ds[0], ds[1], ds[2], ds[3]] + ds[4..];
      } else if |ds| == 3 {
        DigitsOfTail(ds[0], ds[1], ds[2]);
        assert ds == [ds[0], ds[1], ds[2]];
      } else if |ds| == 2 {
        DigitsOfTail(ds[0], ds[1], 0);
        assert ds == [ds[0], ds[1]];
      }
    }
  }

  // ── text ─────────────────────────────────────────────────────────────────

  function Chars(ds: seq<digit>): seq<byte> { seq(|ds|, i requires 0 <= i < |ds| => Char(ds[i])) }

  function Digits(s: seq<byte>): Option<seq<digit>> {
    if s == [] then Some([])
    else
      match (Digit(s[0]), Digits(s[1..]))
      case (Some(d), Some(rest)) => Some([d] + rest)
      case _ => None
  }

  function Encode(bytes: seq<byte>): seq<byte> { Chars(ToDigits(bytes)) }

  function Decode(s: seq<byte>): Option<seq<byte>> {
    match Digits(s)
    case None => None
    case Some(ds) => FromDigits(ds)
  }

  lemma {:induction false} DigitsOfChars(ds: seq<digit>)
    ensures Digits(Chars(ds)) == Some(ds)
  {
    if ds == [] {
      assert Chars(ds) == [];
    } else {
      DigitsOfChars(ds[1..]);
      CharRoundTrip(ds[0]);
      assert Chars(ds)[1..] == Chars(ds[1..]) && Chars(ds)[0] == Char(ds[0]);
      assert ds == [ds[0]] + ds[1..];
    }
  }

  lemma {:induction false} CharsOfDigits(s: seq<byte>)
    ensures Digits(s).Some? ==> Chars(Digits(s).value) == s
  {
    if s != [] {
      CharsOfDigits(s[1..]);
      DigitRoundTrip(s[0]);
    }
  }

  /** Decoding what was encoded gives it back. */
  lemma DecodeAfterEncode(bytes: seq<byte>)
    ensures Decode(Encode(bytes)) == Some(bytes)
  {
    DigitsOfChars(ToDigits(bytes));
    BytesRoundTrip(bytes);
  }

  /** And only that: a string decodes only if it is the encoding of what it decodes to,
      so no two strings decode alike. */
  lemma EncodeAfterDecode(s: seq<byte>)
    ensures Decode(s).Some? ==> Encode(Decode(s).value) == s
  {
    CharsOfDigits(s);
    if Digits(s).Some? {
      DigitsRoundTrip(Digits(s).value);
    }
  }

  /** Vectors of section 10 of RFC 4648, without padding, and the two characters in which
      the url alphabet differs. */
  lemma KnownEncodings()
    ensures Encode([]) == []
    ensures Encode([102]) == [90, 103]
    ensures Encode([102, 111]) == [90, 109, 56]
    ensures Encode([102, 111, 111]) == [90, 109, 57, 118]
    ensures Encode([251, 255]) == [45, 95, 56]
  {
    assert [102 as byte, 111, 111][3..] == [];
  }
}
