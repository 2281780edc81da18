/** The text of a page cursor: "time,id" in decimal, in the standard base64
    alphabet of RFC 4648, section 4.  Text is a sequence of bytes. */
module Cursor {
  import opened GoInt
  import opened Jobs

  type Byte = x: int | 0 <= x < 256

  const COMMA: Byte := 44
  const PLUS: Byte := 43
  const MINUS: Byte := 45
  const PAD: Byte := 61

  // ---------- Decimal ----------

  function Digits(n: nat): seq<Byte> {
    if n < 10 then [48 + n] else Digits(n / 10) + [48 + n % 10]
  }

  function FormatInt(x: int): seq<Byte> {
    if x < 0 then [MINUS] + Digits(-x) else Digits(x)
  }

  predicate IsDigit(b: Byte) {
    48 <= b <= 57
  }

  /** The value of a non-empty sequence of digits. */
  function ParseDigits(s: seq<Byte>): Option<nat>
    decreases |s|
  {
    if |s| == 0 || !IsDigit(s[|s| - 1]) then None
    else if |s| == 1 then Some(s[0] - 48)
    else match ParseDigits(s[..|s| - 1])
         case None => None
         case Some(v) => Some(10 * v + s[|s| - 1] - 48)
  }

  /** strconv.Atoi: an optional sign, digits, and a value of 64 bits. */
  function Atoi(s: seq<Byte>): Option<int> {
    var signed := |s| > 0 && (s[0] == PLUS || s[0] == MINUS);
    match ParseDigits(if signed then s[1..] else s)
    case None => None
    case Some(v) =>
      var x: int := if signed && s[0] == MINUS then -(v as int) else v;
      if IsInt64(x) then Some(x) else None
  }

  lemma {:induction false} DigitsRoundTrip(n: nat)
    ensures ParseDigits(Digits(n)) == Some(n)
    ensures |Digits(n)| > 0 && forall b | b in Digits(n) :: IsDigit(b)
    decreases n
  {
    if n >= 10 {
      DigitsRoundTrip(n / 10);
      var s := Digits(n);
      assert s[..|s| - 1] == Digits(n / 10);
    }
  }

  /** A number survives exactly when it fits 64 bits signed. */
  lemma AtoiOfFormat(x: int)
    ensures Atoi(FormatInt(x)) == if IsInt64(x) then Some(x) else None
  {
    DigitsRoundTrip(if x < 0 then -x else x);
    var s := FormatInt(x);
    if x < 0 {
      assert s[1..] == Digits(-x);
    } else {
      assert s[0] in s;
    }
  }

  lemma FormatHasNoComma(x: int)
    ensures COMMA !in FormatInt(x)
  {
    DigitsRoundTrip(if x < 0 then -x else x);
  }

  // ---------- The pair ----------

  /** strings.SplitN(s, ",", 2), when it gives two parts. */
  function SplitAtComma(s: seq<Byte>): Option<(seq<Byte>, seq<Byte>)>
    decreases |s|
  {
    if |s| == 0 then None
    else if s[0] == COMMA then Some(([], s[1..]))
    else match SplitAtComma(s[1..])
         case None => None
         case Some((a, b)) => Some(([s[0]] + a, b))
  }

  lemma {:induction false} SplitJoined(a: seq<Byte>, b: seq<Byte>)
    requires COMMA !in a
    ensures SplitAtComma(a + [COMMA] + b) == Some((a, b))
    decreases |a|
  {
    var s := a + [COMMA] + b;
    if |a| == 0 {
      assert s[1..] == b;
    } else {
      assert s[1..] == a[1..] + [COMMA] + b;
      SplitJoined(a[1..], b);
      assert a == [a[0]] + a[1..];
    }
  }

  // ---------- Base64 ----------

  type Sextet = v: int | 0 <= v < 64

  function Letter(v: Sextet): Byte {
    if v < 26 then 65 + v
    else if v < 52 then 97 + v - 26
    else if v < 62 then 48 + v - 52
    else if v == 62 then PLUS else 47
  }

  function Value(b: Byte): Option<Sextet> {
    if 65 <= b <= 90 then Some(b - 65)
    else if 97 <= b <= 122 then Some(b - 97 + 26)
    else if IsDigit(b) then Some(b - 48 + 52)
    else if b == PLUS then Some(62)
    else if b == 47 then Some(63) else None
  }

  function Encode64(s: seq<Byte>): seq<Byte>
    decreases |s|
  {
    if |s| == 0 then []
    else if |s| == 1 then [Letter(s[0] / 4), Letter(s[0] % 4 * 16), PAD, PAD]
    else if |s| == 2 then
      [Letter(s[0] / 4), Letter(s[0] % 4 * 16 + s[1] / 16), Letter(s[1] % 16 * 4), PAD]
    else
      [Letter(s[0] / 4), Letter(s[0] % 4 * 16 + s[1] / 16),
       Letter(s[1] % 16 * 4 + s[2] / 64), Letter(s[2] % 64)] + Encode64(s[3..])
  }

  function Byte1(a: Sextet, b: Sextet): Byte { a * 4 + b / 16 }
  function Byte2(b: Sextet, c: Sextet): Byte { b % 16 * 16 + c / 4 }
  function Byte3(c: Sextet, d: Sextet): Byte { c % 4 * 64 + d }

  function DecodeGroups(s: seq<Byte>): Option<seq<Byte>>
    decreases |s|
  {
    if |s| == 0 then Some([])
    else if |s| < 4 then None
    else match (Value(s[0]), Value(s[1]), Value(s[2]), Value(s[3]))
      case (Some(a), Some(b), Some(c), Some(d)) =>
        (match DecodeGroups(s[4..])
         case None => None
         case Some(rest) => Some([Byte1(a, b), Byte2(b, c), Byte3(c, d)] + rest))
      case (Some(a), Some(b), Some(c), None) =>
        if s[3] == PAD && |s| == 4 then Some([Byte1(a, b), Byte2(b, c)]) else None
      case (Some(a), Some(b), None, None) =>
        if s[2] == PAD && s[3] == PAD && |s| == 4 then Some([Byte1(a, b)]) else None
      case _ => None
  }

  /** The decoder skips line breaks. */
  function StripBreaks(s: seq<Byte>): seq<Byte>
    decreases |s|
  {
    if |s| == 0 then []
    else if s[0] == 10 || s[0] == 13 then StripBreaks(s[1..])
    else [s[0]] + StripBreaks(s[1..])
  }

  function Decode64(s: seq<Byte>): Option<seq<Byte>> {
    DecodeGroups(StripBreaks(s))
  }

  lemma LetterRoundTrip(v: Sextet)
    ensures Value(Letter(v)) == Some(v) && Letter(v) != PAD && Letter(v) != 10 && Letter(v) != 13
  {
  }

  lemma {:induction false} NoBreaks(s: seq<Byte>)
    requires 10 !in s && 13 !in s
    ensures StripBreaks(s) == s
    decreases |s|
  {
    if |s| > 0 {
      NoBreaks(s[1..]);
    }
  }

  lemma {:induction false} EncodedHasNoBreaks(s: seq<Byte>)
    ensures 10 !in Encode64(s) && 13 !in Encode64(s)
    ensures Encode64(s) == [] <==> s == []
    decreases |s|
  {
    if |s| >= 3 {
      EncodedHasNoBreaks(s[3..]);
    }
  }

  lemma BytesOfSextets(x: Byte, y: Byte, z: Byte)
    ensures Byte1(x / 4, x % 4 * 16 + y / 16) == x
    ensures Byte2(x % 4 * 16 + y / 16, y % 16 * 4 + z / 64) == y
    ensures Byte3(y % 16 * 4 + z / 64, z % 64) == z
  {
  }

  lemma DecodeFullGroup(a: Sextet, b: Sextet, c: Sextet, d: Sextet, t: seq<Byte>, rest: seq<Byte>)
    requires DecodeGroups(t) == Some(rest)
    ensures DecodeGroups([Letter(a), Letter(b), Letter(c), Letter(d)] + t)
         == Some([Byte1(a, b), Byte2(b, c), Byte3(c, d)] + rest)
  {
    var s := [Letter(a), Letter(b), Letter(c), Letter(d)] + t;
    assert s[4..] == t;
    LetterRoundTrip(a); LetterRoundTrip(b); LetterRoundTrip(c); LetterRoundTrip(d);
  }

  lemma DecodeLastGroup(a: Sextet, b: Sextet, c: Sextet)
    ensures DecodeGroups([Letter(a), Letter(b), PAD, PAD]) == Some([Byte1(a, b)])
    ensures DecodeGroups([Letter(a), Letter(b), Letter(c), PAD]) == Some([Byte1(a, b), Byte2(b, c)])
  {
    LetterRoundTrip(a); LetterRoundTrip(b); LetterRoundTrip(c);
  }

  lemma OneByteRoundTrip(x: Byte)
    ensures DecodeGroups(Encode64([x])) == Some([x])
  {
    BytesOfSextets(x, 0, 0);
    DecodeLastGroup(x / 4, x % 4 * 16, 0);
  }

  lemma EncodeTwoBytes(x: Byte, y: Byte)
    ensures Encode64([x, y]) == [Letter(x / 4), Letter(x % 4 * 16 + y / 16), Letter(y % 16 * 4), PAD]
  {
  }

  lemma SecondByte(x: Byte, y: Byte)
    ensures Byte1(x / 4, x % 4 * 16 + y / 16) == x
    ensures Byte2(x % 4 * 16 + y / 16, y % 16 * 4) == y
  {
  }

  lemma TwoBytesRoundTrip(x: Byte, y: Byte)
    ensures DecodeGroups(Encode64([x, y])) == Some([x, y])
  {
    var a: Sextet, b: Sextet, c: Sextet := x / 4, x % 4 * 16 + y / 16, y % 16 * 4;
    EncodeTwoBytes(x, y);
    DecodeLastGroup(a, b, c);
    SecondByte(x, y);
  }

  lemma EncodeFullGroup(x: Byte, y: Byte, z: Byte, rest: seq<Byte>)
    ensures Encode64([x, y, z] + rest)
         == [Letter(x / 4), Letter(x % 4 * 16 + y / 16), Letter(y % 16 * 4 + z / 64), Letter(z % 64)]
            + Encode64(rest)
  {
    assert ([x, y, z] + rest)[3..] == rest;
  }

  lemma FullGroupRoundTrip(x: Byte, y: Byte, z: Byte, rest: seq<Byte>)
    requires DecodeGroups(Encode64(rest)) == Some(rest)
    ensures DecodeGroups(Encode64([x, y, z] + rest)) == Some([x, y, z] + rest)
  {
    var a: Sextet, b: Sextet, c: Sextet, d: Sextet :=
      x / 4, x % 4 * 16 + y / 16, y % 16 * 4 + z / 64, z % 64;
    EncodeFullGroup(x, y, z, rest);
    DecodeFullGroup(a, b, c, d, Encode64(rest), rest);
    BytesOfSextets(x, y, z);
  }

  lemma {:induction false} GroupsRoundTrip(s: seq<Byte>)
    ensures DecodeGroups(Encode64(s)) == Some(s)
    decreases |s|
  {
    if |s| == 1 {
      assert s == [s[0]];
      OneByteRoundTrip(s[0]);
    } else if |s| == 2 {
      assert s == [s[0], s[1]];
      TwoBytesRoundTrip(s[0], s[1]);
    } else if |s| >= 3 {
      assert s == [s[0], s[1], s[2]] + s[3..];
      GroupsRoundTrip(s[3..]);
      FullGroupRoundTrip(s[0], s[1], s[2], s[3..]);
    }
  }

  lemma Base64RoundTrip(s: seq<Byte>)
    ensures Decode64(Encode64(s)) == Some(s)
  {
    EncodedHasNoBreaks(s);
    NoBreaks(Encode64(s));
    GroupsRoundTrip(s);
  }

  // ---------- Cursors ----------

  function EncodeCursor(time: int, id: nat): seq<Byte> {
    Encode64(FormatInt(time) + [COMMA] + FormatInt(id))
  }

  /** The bounds a cursor stands for; None when it is not one, and then the
      listing starts from the beginning. */
  function DecodeCursor(text: seq<Byte>): Option<(int, nat)> {
    match Decode64(text)
    case None => None
    case Some(decoded) =>
      match SplitAtComma(decoded)
      case None => None
      case Some((a, b)) =>
        match (Atoi(a), Atoi(b))
        case (Some(t), Some(j)) => Some((t, WrapUint64(j)))
        case _ => None
  }

  /** A cursor is read back as the pair it was made of exactly when the id fits
      63 bits; otherwise it is not read at all. */
  lemma CursorRoundTrip(time: int, id: nat)
    requires IsInt64(time)
    ensures DecodeCursor(EncodeCursor(time, id)) == if id < TWO_63 then Some((time, id)) else None
    ensures EncodeCursor(time, id) != []
  {
    var a, b := FormatInt(time), FormatInt(id);
    Base64RoundTrip(a + [COMMA] + b);
    EncodedHasNoBreaks(a + [COMMA] + b);
    FormatHasNoComma(time);
    SplitJoined(a, b);
    AtoiOfFormat(time);
    AtoiOfFormat(id);
  }

  lemma EmptyCursor()
    ensures DecodeCursor([]) == None
  {
  }

  /** The text of a cursor: the two numbers in decimal with a comma between them, in
      base 64 with padding. */
  lemma CursorText()
    ensures EncodeCursor(-1, 20) == [76, 84, 69, 115, 77, 106, 65, 61] // LTEsMjA=
  {
    assert Digits(1) == [49] && Digits(2) == [50] && Digits(20) == [50, 48];
    var text := [MINUS, 49, COMMA, 50, 48];
    assert FormatInt(-1) + [COMMA] + FormatInt(20) == text;
    assert text[3..] == [50, 48];
    assert Encode64([50, 48]) == [77, 106, 65, 61];
    assert Encode64(text) == [Letter(11), Letter(19), Letter(4), Letter(44)] + Encode64(text[3..]);
  }

  /** The test vectors of section 10 of RFC 4648, and the two letters of the standard
      alphabet that are neither letters nor digits. */
  lemma Base64Vectors()
    ensures Encode64([]) == []
    ensures Encode64([102]) == [90, 103, 61, 61] // f, Zg==
    ensures Encode64([102, 111]) == [90, 109, 56, 61] // fo, Zm8=
    ensures Encode64([102, 111, 111]) == [90, 109, 57, 118] // foo, Zm9v
    ensures Encode64([251, 255]) == [PLUS, 47, 56, 61] // +/8=
    ensures Encode64([102, 111, 111, 98]) == [90, 109, 57, 118, 89, 103, 61, 61] // foob, Zm9vYg==
  {
    assert [102, 111, 111][3..] == [];
    assert [102, 111, 111, 98][3..] == [98];
  }

  // ---------- Times ----------

  const MAX_MILLIS: nat := 9223372036854

  /** UnixNano of the time.Time scanned from a column of milliseconds. */
  function UnixNano(millis: nat): int {
    var m := WrapInt64(millis);
    WrapInt64(TruncDiv(m, 1000) * 1_000_000_000 + TruncMod(m, 1000) * 1_000_000)
  }

  function MillisOf(millis: nat): int {
    TruncDiv(UnixNano(millis), 1_000_000)
  }

  lemma UnixNanoIs(millis: nat)
    ensures UnixNano(millis) == WrapInt64(WrapInt64(millis) * 1_000_000)
  {
  }

  /** A time in milliseconds survives the conversion to time.Time and back
      exactly up to the year 2262. */
  lemma TimeRoundTrip(millis: nat)
    ensures MillisOf(millis) == millis <==> millis <= MAX_MILLIS
  {
    UnixNanoIs(millis);
    if millis <= MAX_MILLIS {
      assert IsInt64(millis * 1_000_000);
    }
  }

  /** Within that range, sorting by UnixNano is sorting by milliseconds. */
  lemma NanoOrder(a: nat, b: nat)
    requires a <= MAX_MILLIS && b <= MAX_MILLIS
    ensures UnixNano(a) < UnixNano(b) <==> a < b
    ensures UnixNano(a) == UnixNano(b) <==> a == b
  {
    UnixNanoIs(a);
    UnixNanoIs(b);
  }
}
