/** The page cursor: a (microseconds, uuid) pair as JSON in base64url. Timestamps are
    nanoseconds since the epoch, text is ASCII codes. */
module Cursor {
  import opened Common
  import opened Base64Url

  // ── digits ───────────────────────────────────────────────────────────────

  const MINUS: byte := 45
  const COMMA: byte := 44
  const QUOTE: byte := 34
  const OPEN: byte := 91
  const CLOSE: byte := 93
  const ZERO: byte := 48

  /** `0`..`9`, `a`..`f`. */
  function DigitChar(d: int): byte
    requires 0 <= d < 16
  {
    match d
    case 0 => 48 case 1 => 49 case 2 => 50 case 3 => 51 case 4 => 52
    case 5 => 53 case 6 => 54 case 7 => 55 case 8 => 56 case 9 => 57
    case 10 => 97 case 11 => 98 case 12 => 99 case 13 => 100 case 14 => 101 case _ => 102
  }
  /** Hexadecimal digits of either case. */
  function DigitValue(c: byte): (r: Option<int>)
    ensures r.Some? ==> 0 <= r.value < 16
  {
    match c
    case 48 => Some(0) case 49 => Some(1) case 50 => Some(2) case 51 => Some(3) case 52 => Some(4)
    case 53 => Some(5) case 54 => Some(6) case 55 => Some(7) case 56 => Some(8) case 57 => Some(9)
    case 97 => Some(10) case 98 => Some(11) case 99 => Some(12) case 100 => Some(13) case 101 => Some(14)
    case 102 => Some(15)
    case 65 => Some(10) case 66 => Some(11) case 67 => Some(12) case 68 => Some(13) case 69 => Some(14)
    case 70 => Some(15) case _ => None
  }

  /** The number that digits of a base spell, most significant first. */
  function ValueOf(s: seq<byte>, base: nat): Option<nat> {
    if s == [] then Some(0)
    else
      match (ValueOf(s[..|s| - 1], base), DigitValue(s[|s| - 1]))
      case (Some(v), Some(d)) => if d < base then Some(v * base + d) else None
      case _ => None
  }

  function Decimal(n: nat): seq<byte> {
    if n < 10 then [DigitChar(n)] else Decimal(n / 10) + [DigitChar(n % 10)]
  }

  /** Exactly `width` hexadecimal digits. */
  function Hex(n: nat, width: nat): seq<byte> {
    if width == 0 then [] else Hex(n / 16, width - 1) + [DigitChar(n % 16)]
  }

  function Pow16(k: nat): (p: nat)
    ensures p >= 1
  {
    if k == 0 then 1 else 16 * Pow16(k - 1)
  }

  lemma ValueOfOneMore(s: seq<byte>, d: int, base: nat)
    requires 0 <= d < base <= 16
    ensures ValueOf(s + [DigitChar(d)], base) == match ValueOf(s, base) case Some(v) => Some(v * base + d) case None => None
  {
    assert (s + [DigitChar(d)])[..|s|] == s;
  }

  lemma {:induction false} DecimalRoundTrip(n: nat)
    ensures ValueOf(Decimal(n), 10) == Some(n)
  {
    if n < 10 {
      ValueOfOneMore([], n, 10);
      assert [] + [DigitChar(n)] == [DigitChar(n)];
    } else {
      DecimalRoundTrip(n / 10);
      ValueOfOneMore(Decimal(n / 10), n % 10, 10);
    }
  }

  /** Digits only, and no leading zero. */
  lemma {:induction false} DecimalIsCanonical(n: nat)
    ensures |Decimal(n)| >= 1 && (n > 0 ==> Decimal(n)[0] != ZERO)
    ensures forall i :: 0 <= i < |Decimal(n)| ==> InNumber(Decimal(n)[i]) && Decimal(n)[i] != MINUS
  {
    if n >= 10 {
      DecimalIsCanonical(n / 10);
    }
  }

  lemma {:induction false} HexRoundTrip(n: nat, width: nat)
    requires n < Pow16(width)
    ensures |Hex(n, width)| == width && ValueOf(Hex(n, width), 16) == Some(n)
  {
    if width > 0 {
      HexRoundTrip(n / 16, width - 1);
      ValueOfOneMore(Hex(n / 16, width - 1), n % 16, 16);
    }
  }

  lemma {:induction false} ValueInRange(s: seq<byte>)
    ensures ValueOf(s, 16).Some? ==> ValueOf(s, 16).value < Pow16(|s|)
  {
    if s != [] {
      ValueInRange(s[..|s| - 1]);
    }
  }

  // ── the payload ──────────────────────────────────────────────────────────

  const UUID_BOUND: nat := Pow16(32)
  type Uuid = n: nat | n < UUID_BOUND witness 0

  /** 8-4-4-4-12 hexadecimal digits. */
  function Hyphenated(h: seq<byte>): seq<byte>
    requires |h| == 32
  {
    h[..8] + [MINUS] + h[8..12] + [MINUS] + h[12..16] + [MINUS] + h[16..20] + [MINUS] + h[20..]
  }

  /** The digits between the hyphens. */
  function Bare(s: seq<byte>): (h: seq<byte>)
    requires |s| == 36
    ensures |h| == 32
  {
    s[..8] + s[9..13] + s[14..18] + s[19..23] + s[24..]
  }

  function ParseHyphenated(s: seq<byte>): Option<Uuid>
    requires |s| == 36
  {
    if s[8] != MINUS || s[13] != MINUS || s[18] != MINUS || s[23] != MINUS then None
    else
      ValueInRange(Bare(s));
      ValueOf(Bare(s), 16)
  }

  /** `urn:uuid:` */
  const URN: seq<byte> := [117, 114, 110, 58, 117, 117, 105, 100, 58]
  const BRACE: byte := 123
  const UNBRACE: byte := 125

  /** Plain digits, hyphenated, in braces, or as a URN. */
  function ParseUuid(s: seq<byte>): Option<Uuid> {
    if |s| == 32 then
      ValueInRange(s);
      ValueOf(s, 16)
    else if |s| == 36 then ParseHyphenated(s)
    else if |s| == 38 && s[0] == BRACE && s[37] == UNBRACE then ParseHyphenated(s[1..37])
    else if |s| == 45 && s[..9] == URN then ParseHyphenated(s[9..])
    else None
  }

  datatype Layout = Simple | Hyphens | Braced | Urn

  function LaidOut(h: seq<byte>, layout: Layout): seq<byte>
    requires |h| == 32
  {
    match layout
    case Simple => h
    case Hyphens => Hyphenated(h)
    case Braced => [BRACE] + Hyphenated(h) + [UNBRACE]
    case Urn => URN + Hyphenated(h)
  }

  lemma BareOfHyphenated(h: seq<byte>)
    requires |h| == 32
    ensures var s := Hyphenated(h);
            |s| == 36 && s[8] == MINUS && s[13] == MINUS && s[18] == MINUS && s[23] == MINUS && Bare(s) == h
  {
    var s := Hyphenated(h);
    assert s[..8] == h[..8] && s[9..13] == h[8..12] && s[14..18] == h[12..16];
    assert s[19..23] == h[16..20] && s[24..] == h[20..];
    assert h == h[..8] + h[8..12] + h[12..16] + h[16..20] + h[20..];
  }

  function IntText(n: int): seq<byte> { if n < 0 then [MINUS] + Decimal(-n) else Decimal(n) }

  function ParseNat(s: seq<byte>): Option<nat> {
    if s == [] || (|s| > 1 && s[0] == ZERO) then None else ValueOf(s, 10)
  }
  /** A JSON integer that fits 64 bits; a negative zero is no integer. */
  function ParseI64(s: seq<byte>): Option<int> {
    if s == [] then None
    else if s[0] == MINUS then
      match ParseNat(s[1..])
      case Some(n) => if n == 0 || n > -I64_MIN then None else Some(0 - n)
      case None => None
    else
      match ParseNat(s)
      case Some(n) => if n > I64_MAX then None else Some(n)
      case None => None
  }

  // ── the payload as JSON ──────────────────────────────────────────────────

  const BACKSLASH: byte := 92

  predicate IsSpace(c: byte) { c == 32 || c == 10 || c == 9 || c == 13 }
  predicate Spaces(w: seq<byte>) { forall i :: 0 <= i < |w| ==> IsSpace(w[i]) }

  function SkipSpaces(s: seq<byte>): seq<byte> {
    if s != [] && IsSpace(s[0]) then SkipSpaces(s[1..]) else s
  }

  /** What follows the token `c`. */
  function Expect(s: seq<byte>, c: byte): Option<seq<byte>> {
    var t := SkipSpaces(s);
    if t != [] && t[0] == c then Some(t[1..]) else None
  }

  predicate InNumber(c: byte) { c == MINUS || 48 <= c <= 57 }
  function NumberLength(s: seq<byte>): (n: nat)
    ensures n <= |s|
  {
    if s != [] && InNumber(s[0]) then 1 + NumberLength(s[1..]) else 0
  }
  function TakeI64(s: seq<byte>): Option<(int, seq<byte>)> {
    var t := SkipSpaces(s);
    var n := NumberLength(t);
    match ParseI64(t[..n])
    case None => None
    case Some(v) => Some((v, t[n..]))
  }

  /** A character that stands for itself in a JSON string of ASCII. */
  predicate Plain(c: byte) { 32 <= c < 128 && c != QUOTE && c != BACKSLASH }

  /** What `\uXXXX` stands for, if that is an ASCII character. */
  function Unescaped(s: seq<byte>): Option<byte> {
    if |s| < 6 || s[1] != 117 then None
    else
      match ValueOf(s[2..6], 16)
      case None => None
      case Some(v) => if v < 128 then Some(v as byte) else None
  }

  /** The characters up to the closing quote, and what follows it. A string with any other
      escape or a character beyond ASCII is no uuid. */
  function TakeString(s: seq<byte>): Option<(seq<byte>, seq<byte>)>
    decreases |s|
  {
    if s == [] then None
    else if s[0] == QUOTE then Some(([], s[1..]))
    else if Plain(s[0]) then
      match TakeString(s[1..])
      case None => None
      case Some((text, rest)) => Some(([s[0]] + text, rest))
    else if s[0] == BACKSLASH then
      var c := Unescaped(s);
      if c.None? then None
      else
        match TakeString(s[6..])
        case None => None
        case Some((text, rest)) => Some(([c.value] + text, rest))
    else None
  }
  function TakeUuid(s: seq<byte>): Option<(Uuid, seq<byte>)> {
    match TakeString(s)
    case None => None
    case Some((text, rest)) =>
      match ParseUuid(text)
      case None => None
      case Some(id) => Some((id, rest))
  }

  /** The uuid string, the closing bracket and the end. */
  function ParseText(s: seq<byte>): Option<Uuid> {
    match TakeUuid(s)
    case None => None
    case Some((id, rest)) =>
      match Expect(rest, CLOSE)
      case None => None
      case Some(end) => if SkipSpaces(end) == [] then Some(id) else None
  }

  function ParseTail(s: seq<byte>): Option<Uuid> {
    match Expect(s, COMMA)
    case None => None
    case Some(rest) =>
      match Expect(rest, QUOTE)
      case None => None
      case Some(text) => ParseText(text)
  }

  /** A JSON array of an integer and a uuid string, and nothing else. */
  function ParsePayload(s: seq<byte>): Option<(int, Uuid)> {
    match Expect(s, OPEN)
    case None => None
    case Some(inside) =>
      match TakeI64(inside)
      case None => None
      case Some((micros, rest)) =>
        match ParseTail(rest)
        case None => None
        case Some(id) => Some((micros, id))
  }

  /** `[n,"text"]` */
  function Array(n: seq<byte>, text: seq<byte>): seq<byte> {
    [OPEN] + (n + ([COMMA] + ([QUOTE] + (text + ([QUOTE] + [CLOSE])))))
  }

  function Payload(micros: int, id: Uuid): seq<byte> {
    HexRoundTrip(id, 32);
    Array(IntText(micros), Hyphenated(Hex(id, 32)))
  }

  // ── what it accepts ──────────────────────────────────────────────────────

  lemma {:induction false} SpacesAreSkipped(w: seq<byte>, rest: seq<byte>)
    requires Spaces(w) && (rest != [] ==> !IsSpace(rest[0]))
    ensures SkipSpaces(w + rest) == rest
  {
    if w == [] {
      assert w + rest == rest;
    } else {
      SpacesAreSkipped(w[1..], rest);
      assert (w + rest)[1..] == w[1..] + rest;
    }
  }

  lemma TokenIsFound(w: seq<byte>, c: byte, rest: seq<byte>)
    requires Spaces(w) && !IsSpace(c)
    ensures Expect(w + ([c] + rest), c) == Some(rest)
  {
    SpacesAreSkipped(w, [c] + rest);
    assert ([c] + rest)[1..] == rest;
  }

  lemma {:induction false} NumberEnds(n: seq<byte>, rest: seq<byte>)
    requires forall i :: 0 <= i < |n| ==> InNumber(n[i])
    requires rest != [] && !InNumber(rest[0])
    ensures NumberLength(n + rest) == |n|
  {
    if n == [] {
      assert n + rest == rest;
    } else {
      NumberEnds(n[1..], rest);
      assert (n + rest)[1..] == n[1..] + rest;
    }
  }

  lemma NatRoundTrip(n: nat)
    ensures ParseNat(Decimal(n)) == Some(n)
  {
    DecimalRoundTrip(n);
    DecimalIsCanonical(n);
    if n < 10 {
      assert Decimal(n) == [DigitChar(n)];
    }
  }

  lemma I64RoundTrip(n: int)
    requires I64_MIN <= n <= I64_MAX
    ensures ParseI64(IntText(n)) == Some(n)
    ensures IntText(n) != [] && forall i :: 0 <= i < |IntText(n)| ==> InNumber(IntText(n)[i])
  {
    var m := if n < 0 then -n else n;
    NatRoundTrip(m);
    DecimalIsCanonical(m);
    assert n < 0 ==> IntText(n)[1..] == Decimal(m);
  }

  lemma NumberIsTaken(w: seq<byte>, n: int, rest: seq<byte>)
    requires Spaces(w) && I64_MIN <= n <= I64_MAX && rest != [] && !InNumber(rest[0])
    ensures TakeI64(w + (IntText(n) + rest)) == Some((n, rest))
  {
    var text := IntText(n);
    I64RoundTrip(n);
    assert text != [] && InNumber(text[0]);
    SpacesAreSkipped(w, text + rest);
    NumberEnds(text, rest);
    assert (text + rest)[..|text|] == text && (text + rest)[|text|..] == rest;
  }

  lemma {:induction false} StringIsTaken(text: seq<byte>, rest: seq<byte>)
    requires forall i :: 0 <= i < |text| ==> Plain(text[i])
    ensures TakeString(text + ([QUOTE] + rest)) == Some((text, rest))
  {
    var s := text + ([QUOTE] + rest);
    if text == [] {
      assert s == [QUOTE] + rest && s[1..] == rest;
    } else {
      StringIsTaken(text[1..], rest);
      assert s[1..] == text[1..] + ([QUOTE] + rest);
      assert text == [text[0]] + text[1..];
    }
  }

  lemma {:induction false} DigitsArePlain(h: seq<byte>)
    requires ValueOf(h, 16).Some?
    ensures forall i :: 0 <= i < |h| ==> Plain(h[i])
  {
    if h != [] {
      DigitsArePlain(h[..|h| - 1]);
    }
  }

  lemma HyphenatedIsPlain(h: seq<byte>)
    requires |h| == 32 && ValueOf(h, 16).Some?
    ensures forall i :: 0 <= i < 36 ==> Plain(Hyphenated(h)[i])
  {
    DigitsArePlain(h);
  }

  /** Digits of either case, in every layout, are the same uuid. */
  lemma LayoutsAgree(h: seq<byte>, layout: Layout)
    requires |h| == 32 && ValueOf(h, 16).Some?
    ensures ParseUuid(LaidOut(h, layout)) == ValueOf(h, 16)
    ensures forall i :: 0 <= i < |LaidOut(h, layout)| ==> Plain(LaidOut(h, layout)[i])
  {
    DigitsArePlain(h);
    BareOfHyphenated(h);
    HyphenatedIsPlain(h);
    var s := LaidOut(h, layout);
    match layout
    case Braced => assert s[1..37] == Hyphenated(h);
    case Urn => assert s[..9] == URN && s[9..] == Hyphenated(h);
    case _ =>
  }

  /** White space at every place JSON allows it in the payload. */
  datatype Gaps = Gaps(a: seq<byte>, b: seq<byte>, c: seq<byte>, d: seq<byte>, e: seq<byte>, f: seq<byte>)

  predicate AllSpaces(g: Gaps) { Spaces(g.a) && Spaces(g.b) && Spaces(g.c) && Spaces(g.d) && Spaces(g.e) && Spaces(g.f) }

  function SpelledText(g: Gaps, uuid: seq<byte>): seq<byte> { uuid + ([QUOTE] + (g.e + ([CLOSE] + g.f))) }
  function SpelledTail(g: Gaps, uuid: seq<byte>): seq<byte> { g.c + ([COMMA] + (g.d + ([QUOTE] + SpelledText(g, uuid)))) }
  function Spelled(g: Gaps, micros: int, uuid: seq<byte>): seq<byte> {
    g.a + ([OPEN] + (g.b + (IntText(micros) + SpelledTail(g, uuid))))
  }

  lemma TextIsAccepted(g: Gaps, h: seq<byte>, layout: Layout)
    requires AllSpaces(g) && |h| == 32 && ValueOf(h, 16).Some?
    ensures ParseText(SpelledText(g, LaidOut(h, layout))) == ValueOf(h, 16)
  {
    LayoutsAgree(h, layout);
    StringIsTaken(LaidOut(h, layout), g.e + ([CLOSE] + g.f));
    TokenIsFound(g.e, CLOSE, g.f);
    SpacesAreSkipped(g.f, []);
    assert g.f + [] == g.f;
  }

  lemma TailIsAccepted(g: Gaps, uuid: seq<byte>)
    requires AllSpaces(g)
    ensures ParseTail(SpelledTail(g, uuid)) == ParseText(SpelledText(g, uuid))
    ensures SpelledTail(g, uuid) != [] && !InNumber(SpelledTail(g, uuid)[0])
  {
    var text := SpelledText(g, uuid);
    TokenIsFound(g.c, COMMA, g.d + ([QUOTE] + text));
    TokenIsFound(g.d, QUOTE, text);
    assert g.c != [] ==> SpelledTail(g, uuid)[0] == g.c[0];
  }

  lemma HeadIsAccepted(g: Gaps, micros: int, uuid: seq<byte>)
    requires AllSpaces(g) && I64_MIN <= micros <= I64_MAX && ParseTail(SpelledTail(g, uuid)).Some?
    ensures ParsePayload(Spelled(g, micros, uuid)) == Some((micros, ParseTail(SpelledTail(g, uuid)).value))
  {
    var tail := SpelledTail(g, uuid);
    TailIsAccepted(g, uuid);
    TokenIsFound(g.a, OPEN, g.b + (IntText(micros) + tail));
    NumberIsTaken(g.b, micros, tail);
  }

  /** Whatever white space, letter case and uuid layout a client spells a payload in, it
      means the same position. */
  lemma SpellingsAgree(g: Gaps, micros: int, h: seq<byte>, id: Uuid, layout: Layout)
    requires AllSpaces(g) && I64_MIN <= micros <= I64_MAX && |h| == 32 && ValueOf(h, 16) == Some(id)
    ensures ParsePayload(Spelled(g, micros, LaidOut(h, layout))) == Some((micros, id))
  {
    TextIsAccepted(g, h, layout);
    TailIsAccepted(g, LaidOut(h, layout));
    HeadIsAccepted(g, micros, LaidOut(h, layout));
  }

  const NO_GAPS: Gaps := Gaps([], [], [], [], [], [])

  lemma ArrayHasNoGaps(micros: int, text: seq<byte>)
    ensures Spelled(NO_GAPS, micros, text) == Array(IntText(micros), text)
  {
    var end := [QUOTE] + [CLOSE];
    assert [CLOSE] + [] == [CLOSE] && [] + [CLOSE] == [CLOSE];
    assert SpelledText(NO_GAPS, text) == text + end;
    var quoted := [QUOTE] + (text + end);
    assert [] + quoted == quoted;
    var tail := [COMMA] + quoted;
    assert SpelledTail(NO_GAPS, text) == [] + tail == tail;
    var inner := IntText(micros) + tail;
    assert [] + inner == inner;
    var all := [OPEN] + inner;
    assert Spelled(NO_GAPS, micros, text) == [] + all == all;
  }

  lemma PayloadRoundTrip(micros: int, id: Uuid)
    requires I64_MIN <= micros <= I64_MAX
    ensures ParsePayload(Payload(micros, id)) == Some((micros, id))
  {
    HexRoundTrip(id, 32);
    ArrayHasNoGaps(micros, Hyphenated(Hex(id, 32)));
    SpellingsAgree(NO_GAPS, micros, Hex(id, 32), id, Hyphens);
  }

  // ── timestamps ───────────────────────────────────────────────────────────

  /** What `OffsetDateTime` can hold: the years -9999 to 9999. */
  const TS_MIN: int := -377_705_116_800_000_000_000
  const TS_MAX: int := 253_402_300_799_999_999_999

  predicate InRange(ts: int) { TS_MIN <= ts <= TS_MAX }

  /** Integer division as the source's: towards zero. */
  function TruncDiv(a: int, b: int): int
    requires b > 0
  {
    if a >= 0 then a / b else -(-a / b)
  }

  function Encode(ts: int, id: Uuid): seq<byte> {
    Base64Url.Encode(Payload(TruncDiv(ts, 1000), id))
  }

  function Position(micros: int, id: Uuid): Result<(int, Uuid)> {
    if InRange(micros * 1000) then Ok((micros * 1000, id)) else Err(Invalid)
  }

  function Decode(s: seq<byte>): Result<(int, Uuid)> {
    match Base64Url.Decode(s)
    case None => Err(Invalid)
    case Some(bytes) =>
      match ParsePayload(bytes)
      case None => Err(Invalid)
      case Some((micros, id)) => Position(micros, id)
  }

  lemma DecodeIsPosition(payload: seq<byte>, micros: int, id: Uuid)
    requires ParsePayload(payload) == Some((micros, id))
    ensures Decode(Base64Url.Encode(payload)) == Position(micros, id)
  {
    DecodeAfterEncode(payload);
  }

  /** A cursor comes back with its timestamp cut to the microsecond, and exactly as it
      was when the timestamp is a whole number of them. */
  lemma CursorRoundTrip(ts: int, id: Uuid)
    requires InRange(ts)
    ensures Decode(Encode(ts, id)) == Ok((TruncDiv(ts, 1000) * 1000, id))
    ensures Decode(Encode(ts, id)) == Ok((ts, id)) <==> ts % 1000 == 0
  {
    var micros := TruncDiv(ts, 1000);
    PayloadRoundTrip(micros, id);
    DecodeIsPosition(Payload(micros, id), micros, id);
  }

  /** Every spelling of a position is decoded like the one the server wrote. */
  lemma SpelledCursorsAgree(micros: int, id: Uuid, g: Gaps, h: seq<byte>, layout: Layout)
    requires I64_MIN <= micros <= I64_MAX && AllSpaces(g) && |h| == 32 && ValueOf(h, 16) == Some(id)
    ensures Decode(Base64Url.Encode(Spelled(g, micros, LaidOut(h, layout)))) == Decode(Base64Url.Encode(Payload(micros, id)))
  {
    SpellingsAgree(g, micros, h, id, layout);
    DecodeIsPosition(Spelled(g, micros, LaidOut(h, layout)), micros, id);
    PayloadRoundTrip(micros, id);
    DecodeIsPosition(Payload(micros, id), micros, id);
  }

  lemma PositionIsStorable(micros: int, id: Uuid)
    ensures Position(micros, id).Ok? ==> InRange(Position(micros, id).value.0) && Position(micros, id).value.0 % 1000 == 0
  {
  }

  /** Whatever a client sends, a decoded cursor is a representable microsecond. */
  lemma DecodedIsStorable(s: seq<byte>)
    ensures Decode(s).Ok? ==> InRange(Decode(s).value.0) && Decode(s).value.0 % 1000 == 0
  {
    var bytes := Base64Url.Decode(s);
    if bytes.Some? && ParsePayload(bytes.value).Some? {
      var (micros, id) := ParsePayload(bytes.value).value;
      PositionIsStorable(micros, id);
    }
  }
}
