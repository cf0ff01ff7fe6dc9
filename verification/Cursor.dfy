/** Page cursors: the URL-safe base64 text (section 5 of RFC 4648) of a UUID's canonical text,
    with the padding stripped when it is emitted and restored when it is read back. */
module Cursors {
  import opened Wrappers

  const MAX_CURSOR_CHARS := 64

  // ---------- UUID text ----------

  function Pow16(k: nat): (p: nat)
    ensures p > 0
  {
    if k == 0 then 1 else 16 * Pow16(k - 1)
  }

  /** UUIDs as 128-bit numbers; the database compares them in this order. */
  type Uuid = u: nat | u < Pow16(32) witness 0

  function HexDigit(n: nat): char
    requires n < 16
  {
    if n < 10 then '0' + n as char else 'a' + (n - 10) as char
  }

  function HexValue(c: char): Option<nat>
  {
    if '0' <= c <= '9' then Some((c - '0') as nat)
    else if 'a' <= c <= 'f' then Some((c - 'a') as nat + 10)
    else if 'A' <= c <= 'F' then Some((c - 'A') as nat + 10)
    else None
  }

  /** The `k` lowest hexadecimal digits of `n`, most significant first. */
  function Hex(n: nat, k: nat): (s: string)
    ensures |s| == k
  {
    if k == 0 then [] else Hex(n / 16, k - 1) + [HexDigit(n % 16)]
  }

  function FromHex(s: string): Option<nat>
  {
    if s == [] then Some(0)
    else
      var high, low := FromHex(s[..|s| - 1]), HexValue(s[|s| - 1]);
      if high.Some? && low.Some? then Some(high.value * 16 + low.value) else None
  }

  /** `str(uuid)`: five hyphenated groups of 8, 4, 4, 4 and 12 digits. */
  function UuidText(u: Uuid): (s: string)
    ensures |s| == 36
  {
    var h := Hex(u, 32);
    h[..8] + "-" + h[8..12] + "-" + h[12..16] + "-" + h[16..20] + "-" + h[20..]
  }

  function WithoutHyphens(s: string): string
  {
    if s == [] then [] else (if s[0] == '-' then [] else [s[0]]) + WithoutHyphens(s[1..])
  }

  function ParseUuid(s: string): Option<nat>
  {
    var digits := WithoutHyphens(s);
    if |digits| == 32 then FromHex(digits) else None
  }

  lemma {:induction false} HexRoundTrip(n: nat, k: nat)
    requires n < Pow16(k)
    ensures FromHex(Hex(n, k)) == Some(n)
  {
    if k > 0 {
      HexRoundTrip(n / 16, k - 1);
      var s := Hex(n, k);
      assert s[..k - 1] == Hex(n / 16, k - 1);
    }
  }

  lemma {:induction false} HexHasNoHyphen(n: nat, k: nat)
    ensures '-' !in Hex(n, k)
  {
    if k > 0 { HexHasNoHyphen(n / 16, k - 1); }
  }

  lemma {:induction false} WithoutHyphensId(s: string)
    requires '-' !in s
    ensures WithoutHyphens(s) == s
  {
    if s != [] { WithoutHyphensId(s[1..]); }
  }

  lemma {:induction false} WithoutHyphensJoin(a: string, b: string)
    requires '-' !in a
    ensures WithoutHyphens(a + "-" + b) == a + WithoutHyphens(b)
  {
    var s := a + "-" + b;
    if a == [] {
      assert s[1..] == b;
    } else {
      assert s[1..] == a[1..] + "-" + b;
      WithoutHyphensJoin(a[1..], b);
    }
  }

  lemma UuidRoundTrip(u: Uuid)
    ensures ParseUuid(UuidText(u)) == Some(u)
  {
    hide Hex, FromHex, WithoutHyphens, Pow16;
    var h := Hex(u, 32);
    HexHasNoHyphen(u, 32);
    HexRoundTrip(u, 32);
    var a, b, c, d, e := h[..8], h[8..12], h[12..16], h[16..20], h[20..];
    var t4 := d + "-" + e;
    var t3 := c + "-" + t4;
    var t2 := b + "-" + t3;
    assert UuidText(u) == a + "-" + t2;
    WithoutHyphensJoin(a, t2);
    WithoutHyphensJoin(b, t3);
    WithoutHyphensJoin(c, t4);
    WithoutHyphensJoin(d, e);
    WithoutHyphensId(e);
    assert a + (b + (c + (d + e))) == h;
  }

  const HEX_DIGITS := "0123456789abcdef"

  lemma {:induction false} HexUsesDigits(n: nat, k: nat)
    ensures forall i :: 0 <= i < k ==> Hex(n, k)[i] in HEX_DIGITS
  {
    if k > 0 {
      HexUsesDigits(n / 16, k - 1);
      HexDigitIs(n % 16);
    }
  }

  lemma HexDigitIs(n: nat)
    requires n < 16
    ensures HexDigit(n) == HEX_DIGITS[n] && HexDigit(n) in HEX_DIGITS
  {
  }

  /** The canonical text: hyphens at positions 8, 13, 18 and 23, lower-case hexadecimal digits
      everywhere else. */
  lemma UuidTextShape(u: Uuid)
    ensures forall i :: 0 <= i < 36 ==>
              if i in {8, 13, 18, 23} then UuidText(u)[i] == '-' else UuidText(u)[i] in "0123456789abcdef"
  {
    HexUsesDigits(u, 32);
    hide Hex, Pow16;
  }

  // ---------- Base64, URL-safe alphabet ----------

  predicate IsByte(n: int) { 0 <= n < 256 }

  ghost predicate IsBytes(bytes: seq<int>)
  {
    forall i :: 0 <= i < |bytes| ==> IsByte(bytes[i])
  }

  function Digit(n: int): (c: char)
    requires 0 <= n < 64
    ensures c != '=' && Sextet(c) == Some(n)
  {
    if n < 26 then 'A' + n as char
    else if n < 52 then 'a' + (n - 26) as char
    else if n < 62 then '0' + (n - 52) as char
    else if n == 62 then '-'
    else '_'
  }

  function Sextet(c: char): Option<int>
  {
    if 'A' <= c <= 'Z' then Some((c - 'A') as int)
    else if 'a' <= c <= 'z' then Some((c - 'a') as int + 26)
    else if '0' <= c <= '9' then Some((c - '0') as int + 52)
    else if c == '-' then Some(62)
    else if c == '_' then Some(63)
    else None
  }

  // Three bytes as four groups of six bits, and back.

  function First6(a: int): int
    requires IsByte(a)
  {
    a / 4
  }

  function Second6(a: int, b: int): int
    requires IsByte(a) && IsByte(b)
  {
    a % 4 * 16 + b / 16
  }

  function Third6(b: int, c: int): int
    requires IsByte(b) && IsByte(c)
  {
    b % 16 * 4 + c / 64
  }

  function Fourth6(c: int): int
    requires IsByte(c)
  {
    c % 64
  }

  function First8(w: int, x: int): int { w * 4 + x / 16 }
  function Second8(x: int, y: int): int { x % 16 * 16 + y / 4 }
  function Third8(y: int, z: int): int { y % 4 * 64 + z }

  lemma FirstRepacked(a: int, b: int)
    requires IsByte(a) && IsByte(b)
    ensures First8(First6(a), Second6(a, b)) == a
  {
  }

  lemma SecondRepacked(a: int, b: int, c: int)
    requires IsByte(a) && IsByte(b) && IsByte(c)
    ensures Second8(Second6(a, b), Third6(b, c)) == b
  {
    assert (a % 4 * 16 + b / 16) % 16 == b / 16;
    assert (b % 16 * 4 + c / 64) / 4 == b % 16;
  }

  lemma ThirdRepacked(b: int, c: int)
    requires IsByte(b) && IsByte(c)
    ensures Third8(Third6(b, c), Fourth6(c)) == c
  {
    assert (b % 16 * 4 + c / 64) % 4 == c / 64;
  }

  /** Three bytes as four digits. */
  function Quad(a: int, b: int, c: int): (s: string)
    requires IsByte(a) && IsByte(b) && IsByte(c)
    ensures |s| == 4 && '=' !in s
  {
    [Digit(First6(a)), Digit(Second6(a, b)), Digit(Third6(b, c)), Digit(Fourth6(c))]
  }

  function Encode(bytes: seq<int>): string
    requires IsBytes(bytes)
  {
    if bytes == [] then []
    else if |bytes| == 1 then
      [Digit(First6(bytes[0])), Digit(Second6(bytes[0], 0)), '=', '=']
    else if |bytes| == 2 then
      [Digit(First6(bytes[0])), Digit(Second6(bytes[0], bytes[1])), Digit(Third6(bytes[1], 0)), '=']
    else
      Quad(bytes[0], bytes[1], bytes[2]) + Encode(bytes[3..])
  }

  /** Groups of four; padding only in the last group. */
  function Decode(s: string): Option<seq<int>>
  {
    if s == [] then Some([])
    else if |s| < 4 then None
    else
      var a, b, c, d := Sextet(s[0]), Sextet(s[1]), Sextet(s[2]), Sextet(s[3]);
      if a.None? || b.None? then None
      else if |s| == 4 && s[2] == '=' && s[3] == '=' then
        Some([First8(a.value, b.value)])
      else if c.None? then None
      else if |s| == 4 && s[3] == '=' then
        Some([First8(a.value, b.value), Second8(b.value, c.value)])
      else if d.None? then None
      else
        var rest := Decode(s[4..]);
        if rest.None? then None
        else
          Some([First8(a.value, b.value), Second8(b.value, c.value), Third8(c.value, d.value)] + rest.value)
  }

  /** `rstrip("=")` */
  function Stripped(s: string): string
  {
    if s != [] && s[|s| - 1] == '=' then Stripped(s[..|s| - 1]) else s
  }

  /** `value + "=" * (-len(value) % 4)` */
  function Padded(s: string): string
  {
    match |s| % 4
    case 0 => s
    case 1 => s + "==="
    case 2 => s + "=="
    case _ => s + "="
  }

  const LETTERS := "abcdefghijklmnopqrstuvwxyz"
  const CAPITALS := "ABCDEFGHIJKLMNOPQRSTUVWXYZ"
  const NUMERALS := "0123456789"

  /** Each digit is the one of table 2 of RFC 4648. */
  lemma DigitIs(n: int)
    requires 0 <= n < 64
    ensures |CAPITALS| == |LETTERS| == 26 && |NUMERALS| == 10
    ensures n < 26 ==> Digit(n) == CAPITALS[n]
    ensures 26 <= n < 52 ==> Digit(n) == LETTERS[n - 26]
    ensures 52 <= n < 62 ==> Digit(n) == NUMERALS[n - 52]
    ensures n == 62 ==> Digit(n) == '-'
    ensures n == 63 ==> Digit(n) == '_'
  {
    if n < 26 { CapitalIs(n); } else if n < 52 { LetterIs(n - 26); } else if n < 62 { NumeralIs(n - 52); }
  }

  lemma CapitalIs(n: int)
    requires 0 <= n < 26
    ensures CAPITALS[n] == 'A' + n as char
  {
    if n < 13 {
      assert CAPITALS[..13] == "ABCDEFGHIJKLM" && CAPITALS[n] == CAPITALS[..13][n];
    } else {
      assert CAPITALS[13..] == "NOPQRSTUVWXYZ" && CAPITALS[n] == CAPITALS[13..][n - 13];
    }
  }

  lemma LetterIs(n: int)
    requires 0 <= n < 26
    ensures LETTERS[n] == 'a' + n as char
  {
    if n < 13 {
      assert LETTERS[..13] == "abcdefghijklm" && LETTERS[n] == LETTERS[..13][n];
    } else {
      assert LETTERS[13..] == "nopqrstuvwxyz" && LETTERS[n] == LETTERS[13..][n - 13];
    }
  }

  lemma NumeralIs(n: int)
    requires 0 <= n < 10
    ensures NUMERALS[n] == '0' + n as char
  {
  }

  lemma QuadDecodes(a: int, b: int, c: int, rest: string)
    requires IsByte(a) && IsByte(b) && IsByte(c) && Decode(rest).Some?
    ensures Decode(Quad(a, b, c) + rest) == Some([a, b, c] + Decode(rest).value)
  {
    FirstRepacked(a, b);
    SecondRepacked(a, b, c);
    ThirdRepacked(b, c);
    hide Digit, Sextet, First6, Second6, Third6, Fourth6, First8, Second8, Third8;
    var s := Quad(a, b, c) + rest;
    assert s[4..] == rest;
    assert s[2] != '=' && s[3] != '=';
  }

  lemma DecodeOne(bytes: seq<int>)
    requires IsBytes(bytes) && |bytes| == 1
    ensures Decode(Encode(bytes)) == Some(bytes)
  {
    FirstRepacked(bytes[0], 0);
    hide Digit, Sextet, First6, Second6, Third6, Fourth6, First8, Second8, Third8;
    assert bytes == [bytes[0]];
  }

  lemma DecodeTwo(bytes: seq<int>)
    requires IsBytes(bytes) && |bytes| == 2
    ensures Decode(Encode(bytes)) == Some(bytes)
  {
    FirstRepacked(bytes[0], bytes[1]);
    SecondRepacked(bytes[0], bytes[1], 0);
    hide Digit, Sextet, First6, Second6, Third6, Fourth6, First8, Second8, Third8;
    assert bytes == [bytes[0], bytes[1]];
  }

  lemma EncodeStep(bytes: seq<int>)
    requires IsBytes(bytes) && |bytes| >= 3
    ensures IsBytes(bytes[3..]) && IsByte(bytes[0]) && IsByte(bytes[1]) && IsByte(bytes[2])
    ensures Encode(bytes) == Quad(bytes[0], bytes[1], bytes[2]) + Encode(bytes[3..])
  {
    hide Quad;
  }

  lemma {:induction false} DecodeEncode(bytes: seq<int>)
    requires IsBytes(bytes)
    ensures Decode(Encode(bytes)) == Some(bytes)
    decreases |bytes|
  {
    hide Decode, Encode, Quad, IsBytes;
    NothingDecodes();
    if |bytes| == 1 {
      DecodeOne(bytes);
    } else if |bytes| == 2 {
      DecodeTwo(bytes);
    } else if |bytes| >= 3 {
      EncodeStep(bytes);
      DecodeEncode(bytes[3..]);
      QuadDecodes(bytes[0], bytes[1], bytes[2], Encode(bytes[3..]));
      assert bytes == [bytes[0], bytes[1], bytes[2]] + bytes[3..];
    }
  }

  lemma NothingDecodes()
    ensures Decode(Encode([])) == Some([])
  {
  }

  lemma {:induction false} EncodedLength(bytes: seq<int>)
    requires IsBytes(bytes)
    ensures |Encode(bytes)| == (|bytes| + 2) / 3 * 4
  {
    hide Quad;
    if |bytes| >= 3 { EncodedLength(bytes[3..]); }
  }

  /** Stripping the padding and restoring it from the length alone gives the encoding back. */
  lemma {:induction false} PaddingRestored(bytes: seq<int>)
    requires IsBytes(bytes)
    ensures Padded(Stripped(Encode(bytes))) == Encode(bytes)
  {
    hide Encode;
    var s := Encode(bytes);
    EncodedLength(bytes);
    LastDigit(bytes);
    hide Stripped;
    StrippedEnd(s);
    assert |s| % 4 == 0;
    match |bytes| % 3
    case 1 => assert s == s[..|s| - 2] + "==";
    case 2 => assert s == s[..|s| - 1] + "=";
    case _ =>
  }

  lemma StrippedEnd(s: string)
    ensures s == [] || s[|s| - 1] != '=' ==> Stripped(s) == s
    ensures |s| >= 2 && s[|s| - 1] == '=' && s[|s| - 2] != '=' ==> Stripped(s) == s[..|s| - 1]
    ensures |s| >= 3 && s[|s| - 1] == '=' && s[|s| - 2] == '=' && s[|s| - 3] != '=' ==> Stripped(s) == s[..|s| - 2]
  {
    if |s| >= 3 {
      assert s[..|s| - 1][..|s| - 2] == s[..|s| - 2];
    }
  }

  /** Where the padding of an encoding begins. */
  lemma {:induction false} LastDigit(bytes: seq<int>)
    requires IsBytes(bytes)
    ensures var s := Encode(bytes);
            match |bytes| % 3
            case 0 => s == [] || s[|s| - 1] != '='
            case 1 => |s| >= 4 && s[|s| - 1] == '=' && s[|s| - 2] == '=' && s[|s| - 3] != '='
            case _ => |s| >= 4 && s[|s| - 1] == '=' && s[|s| - 2] != '='
  {
    hide Quad;
    if |bytes| >= 3 { LastDigit(bytes[3..]); }
  }

  // ---------- Cursors ----------

  function Ascii(s: string): seq<int>
  {
    seq(|s|, i requires 0 <= i < |s| => s[i] as int)
  }

  function Text(bytes: seq<int>): Option<string>
  {
    if forall i :: 0 <= i < |bytes| ==> 0 <= bytes[i] < 128
    then Some(seq(|bytes|, i requires 0 <= i < |bytes| => bytes[i] as char))
    else None
  }

  ghost predicate IsAscii(s: string)
  {
    forall i :: 0 <= i < |s| ==> s[i] < 128 as char
  }

  lemma {:induction false} HexIsAscii(n: nat, k: nat)
    ensures IsAscii(Hex(n, k))
  {
    if k > 0 { HexIsAscii(n / 16, k - 1); }
  }

  lemma UuidTextIsAscii(u: Uuid)
    ensures IsAscii(UuidText(u))
  {
    HexIsAscii(u, 32);
  }

  function Cursor(u: Uuid): string
    requires IsBytes(Ascii(UuidText(u)))
  {
    Stripped(Encode(Ascii(UuidText(u))))
  }

  datatype Decoded = Position(after: Option<nat>) | InvalidCursor

  function DecodeCursor(value: Option<string>): Decoded
  {
    if value.None? then Position(None)
    else if |value.value| > MAX_CURSOR_CHARS then InvalidCursor
    else
      var bytes := Decode(Padded(value.value));
      if bytes.None? then InvalidCursor
      else
        var text := Text(bytes.value);
        if text.None? then InvalidCursor
        else
          var id := ParseUuid(text.value);
          if id.None? then InvalidCursor else Position(id)
  }

  /** Every emitted cursor is within the accepted length and reads back as the same id. */
  lemma CursorRoundTrip(u: Uuid)
    ensures IsBytes(Ascii(UuidText(u)))
    ensures |Cursor(u)| <= MAX_CURSOR_CHARS
    ensures DecodeCursor(Some(Cursor(u))) == Position(Some(u))
  {
    hide Encode, Decode, Stripped, Padded, UuidText, ParseUuid;
    var text := UuidText(u);
    UuidTextIsAscii(u);
    var bytes := Ascii(text);
    EncodedLength(bytes);
    StrippedShorter(Encode(bytes));
    PaddingRestored(bytes);
    DecodeEncode(bytes);
    assert Text(bytes).value == text;
    UuidRoundTrip(u);
  }

  /** No cursor means the beginning. A text is read as the id `u` exactly when it has at most 64
      characters and, with its padding restored, is the base64 of a text of `u`. */
  lemma CursorReadIff(value: string, u: nat)
    ensures DecodeCursor(None) == Position(None)
    ensures DecodeCursor(Some(value)) == Position(Some(u)) <==>
            && |value| <= 64
            && Decode(Padded(value)).Some? && Text(Decode(Padded(value)).value).Some?
            && ParseUuid(Text(Decode(Padded(value)).value).value) == Some(u)
    ensures DecodeCursor(Some(value)) != Position(None)
  {
    hide Decode, Padded, Text, ParseUuid;
  }

  lemma {:induction false} StrippedShorter(s: string)
    ensures |Stripped(s)| <= |s|
  {
    if s != [] && s[|s| - 1] == '=' { StrippedShorter(s[..|s| - 1]); }
  }
}
