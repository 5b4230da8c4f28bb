/**
 * URL-safe base64 as used for cookie tokens (section 5 of RFC 4648):
 * the standard alphabet of section 4 with `+` and `/` replaced by `-` and `_`,
 * and the `=` padding stripped on encoding.
 *
 * Encoding follows the source's own pipeline: standard base64 with padding,
 * then the character translation, then trimming the trailing `=`.
 */
module Base64Url {
  import opened Wrappers

  type byte = x: int | 0 <= x < 256
  type Bytes = seq<byte>
  type sextet = x: int | 0 <= x < 64

  /** The digit for a 6-bit value in the standard alphabet (section 4 of RFC 4648). */
  function StdChar(v: sextet): char {
    if v < 26 then ('A' as int + v) as char
    else if v < 52 then ('a' as int + (v - 26)) as char
    else if v < 62 then ('0' as int + (v - 52)) as char
    else if v == 62 then '+'
    else '/'
  }

  /** The 6-bit value of a standard-alphabet digit, `None` for any other character. */
  function StdValue(c: char): (r: Option<sextet>)
    ensures r.Some? ==> StdChar(r.value) == c
    ensures c == '=' ==> r.None?
  {
    if 'A' <= c <= 'Z' then Some(c as int - 'A' as int)
    else if 'a' <= c <= 'z' then Some(c as int - 'a' as int + 26)
    else if '0' <= c <= '9' then Some(c as int - '0' as int + 52)
    else if c == '+' then Some(62)
    else if c == '/' then Some(63)
    else None
  }

  /** Characters a URL-safe token body may contain: `A-Z a-z 0-9 - _`. */
  predicate IsUrlDigit(c: char) {
    'A' <= c <= 'Z' || 'a' <= c <= 'z' || '0' <= c <= '9' || c == '-' || c == '_'
  }

  /** Three bytes, most significant bit first, cut into four 6-bit values. */
  function Sextets(x: byte, y: byte, z: byte): (sextet, sextet, sextet, sextet) {
    (x / 4, x % 4 * 16 + y / 16, y % 16 * 4 + z / 64, z % 64)
  }

  /** Four 6-bit values joined into three bytes. */
  function Octets(v0: sextet, v1: sextet, v2: sextet, v3: sextet): (byte, byte, byte) {
    (v0 * 4 + v1 / 16, v1 % 16 * 16 + v2 / 4, v2 % 4 * 64 + v3)
  }

  /** The unpadded digits of the standard encoding, three bytes to four digits; a final
      one or two bytes are completed with zero bits and give two or three digits. */
  function Digits(b: Bytes): string
    decreases |b|
  {
    if |b| == 0 then ""
    else if |b| == 1 then
      var v := Sextets(b[0], 0, 0);
      [StdChar(v.0), StdChar(v.1)]
    else if |b| == 2 then
      var v := Sextets(b[0], b[1], 0);
      [StdChar(v.0), StdChar(v.1), StdChar(v.2)]
    else
      var v := Sextets(b[0], b[1], b[2]);
      [StdChar(v.0), StdChar(v.1), StdChar(v.2), StdChar(v.3)] + Digits(b[3..])
  }

  /** The `=` characters that complete the last group of four. */
  function Padding(n: nat): string {
    if n % 3 == 1 then "==" else if n % 3 == 2 then "=" else ""
  }

  /** PHP's `base64_encode`: standard alphabet, padded to a multiple of four. */
  function StdEncode(b: Bytes): string {
    Digits(b) + Padding(|b|)
  }

  /** `strtr($s, $from, $to)` for two characters: each occurrence of `from.0` becomes
      `to.0`, each of `from.1` becomes `to.1`, and every other character stays. */
  function Translate(s: string, from: (char, char), to: (char, char)): (r: string)
    ensures |r| == |s|
  {
    seq(|s|, i requires 0 <= i < |s| => if s[i] == from.0 then to.0 else if s[i] == from.1 then to.1 else s[i])
  }

  /** `strtr($s, '/+', '_-')` */
  function ToUrlSafe(s: string): string {
    Translate(s, ('/', '+'), ('_', '-'))
  }

  /** `strtr($s, '_-', '/+')`; `+` and `/` already present are left as they are. */
  function FromUrlSafe(s: string): string {
    Translate(s, ('_', '-'), ('/', '+'))
  }

  /** `rtrim($s, '=')` */
  function TrimPadding(s: string): (r: string)
    ensures |r| <= |s| && r == s[..|r|]
    ensures |r| > 0 ==> r[|r| - 1] != '='
    ensures forall i | |r| <= i < |s| :: s[i] == '='
  {
    if |s| > 0 && s[|s| - 1] == '=' then TrimPadding(s[..|s| - 1]) else s
  }

  /** URL-safe encoding of a byte string: `ceil(4n/3)` characters of `A-Z a-z 0-9 - _`,
      never an `=`. */
  function Encode(b: Bytes): (r: string)
    ensures |r| == (4 * |b| + 2) / 3
    ensures forall i | 0 <= i < |r| :: IsUrlDigit(r[i])
    ensures '=' !in r
  {
    EncodeIsUrlDigits(b);
    DigitsShape(b);
    UrlSafeDigits(Digits(b));
    TrimPadding(ToUrlSafe(StdEncode(b)))
  }

  /** Decodes unpadded standard-alphabet digits, four digits to three bytes; a final group
      of two or three digits yields one or two bytes (the bits beyond them are dropped),
      a final group of one digit is invalid. */
  function DecodeDigits(s: string): Option<Bytes>
    decreases |s|
  {
    if |s| == 0 then Some([])
    else if |s| == 1 then None
    else
      var v0, v1 := StdValue(s[0]), StdValue(s[1]);
      if v0.None? || v1.None? then None
      else if |s| == 2 then
        var o := Octets(v0.value, v1.value, 0, 0);
        Some([o.0])
      else
        var v2 := StdValue(s[2]);
        if v2.None? then None
        else if |s| == 3 then
          var o := Octets(v0.value, v1.value, v2.value, 0);
          Some([o.0, o.1])
        else
          var v3 := StdValue(s[3]);
          if v3.None? then None
          else match DecodeDigits(s[4..])
            case None => None
            case Some(rest) =>
              var o := Octets(v0.value, v1.value, v2.value, v3.value);
              Some([o.0, o.1, o.2] + rest)
  }

  /** URL-safe decoding: translate back to the standard alphabet, then decode the digits
      with the padding implied by the length. */
  function Decode(s: string): (r: Option<Bytes>)
    ensures r.Some? <==> |s| % 4 != 1 && forall i | 0 <= i < |s| :: IsUrlDigit(s[i]) || s[i] == '+' || s[i] == '/'
    ensures r.Some? ==> |r.value| == |s| * 3 / 4
  {
    UrlSafeValues(s);
    DecodeDigitsAccepts(FromUrlSafe(s));
    DecodeDigits(FromUrlSafe(s))
  }

  /** After the translation back, a character is a standard digit exactly when it was a
      URL-safe digit, `+` or `/`. */
  lemma UrlSafeValues(s: string)
    ensures forall i | 0 <= i < |s| ::
      StdValue(FromUrlSafe(s)[i]).Some? <==> IsUrlDigit(s[i]) || s[i] == '+' || s[i] == '/'
  {
  }

  /** The digits decode exactly when every character is a standard digit and the last
      group does not hold a single digit; four digits give three bytes, a final two or
      three give one or two. */
  lemma {:induction false} DecodeDigitsAccepts(s: string)
    ensures DecodeDigits(s).Some? <==> |s| % 4 != 1 && forall i | 0 <= i < |s| :: StdValue(s[i]).Some?
    ensures DecodeDigits(s).Some? ==> |DecodeDigits(s).value| == |s| * 3 / 4
    decreases |s|
  {
    if |s| >= 4 {
      DecodeDigitsAccepts(s[4..]);
      assert forall i | 4 <= i < |s| :: s[i] == s[4..][i - 4];
    }
  }

  /** Joining the 6-bit values of three bytes gives the three bytes back. */
  lemma OctetsOfSextets(x: byte, y: byte, z: byte)
    ensures var v := Sextets(x, y, z); Octets(v.0, v.1, v.2, v.3) == (x, y, z)
  {
  }

  /** Each digit value is read back from its digit. */
  lemma ValueOfChar(v: sextet)
    ensures StdValue(StdChar(v)) == Some(v)
  {
  }

  lemma DecodeOneByte(b: Bytes)
    requires |b| == 1
    ensures DecodeDigits(Digits(b)) == Some(b)
  {
    var v := Sextets(b[0], 0, 0);
    ValueOfChar(v.0);
    ValueOfChar(v.1);
    OctetsOfSextets(b[0], 0, 0);
    assert v.2 == 0 && v.3 == 0;
    var d := Digits(b);
    assert d == [StdChar(v.0), StdChar(v.1)];
    assert StdValue(d[0]) == Some(v.0) && StdValue(d[1]) == Some(v.1);
    assert DecodeDigits(d) == Some([Octets(v.0, v.1, 0, 0).0]);
    assert b == [b[0]];
  }

  lemma DecodeTwoBytes(b: Bytes)
    requires |b| == 2
    ensures DecodeDigits(Digits(b)) == Some(b)
  {
    var v := Sextets(b[0], b[1], 0);
    ValueOfChar(v.0);
    ValueOfChar(v.1);
    ValueOfChar(v.2);
    OctetsOfSextets(b[0], b[1], 0);
    assert v.3 == 0;
    var d := Digits(b);
    assert d == [StdChar(v.0), StdChar(v.1), StdChar(v.2)];
    assert StdValue(d[0]) == Some(v.0) && StdValue(d[1]) == Some(v.1) && StdValue(d[2]) == Some(v.2);
    var o := Octets(v.0, v.1, v.2, 0);
    assert DecodeDigits(d) == Some([o.0, o.1]);
    assert b == [b[0], b[1]];
  }

  lemma DecodeFullGroup(b: Bytes)
    requires |b| >= 3 && DecodeDigits(Digits(b[3..])) == Some(b[3..])
    ensures DecodeDigits(Digits(b)) == Some(b)
  {
    var v := Sextets(b[0], b[1], b[2]);
    ValueOfChar(v.0);
    ValueOfChar(v.1);
    ValueOfChar(v.2);
    ValueOfChar(v.3);
    OctetsOfSextets(b[0], b[1], b[2]);
    var d := Digits(b);
    assert d == [StdChar(v.0), StdChar(v.1), StdChar(v.2), StdChar(v.3)] + Digits(b[3..]);
    assert StdValue(d[0]) == Some(v.0) && StdValue(d[1]) == Some(v.1);
    assert StdValue(d[2]) == Some(v.2) && StdValue(d[3]) == Some(v.3);
    assert d[4..] == Digits(b[3..]);
    var o := Octets(v.0, v.1, v.2, v.3);
    assert DecodeDigits(d) == Some([o.0, o.1, o.2] + b[3..]);
    assert b == [b[0], b[1], b[2]] + b[3..];
  }

  /** Decoding the digits of a byte string gives that byte string back. */
  lemma {:induction false} DigitsRoundTrip(b: Bytes)
    ensures DecodeDigits(Digits(b)) == Some(b)
  {
    if |b| == 1 {
      DecodeOneByte(b);
    } else if |b| == 2 {
      DecodeTwoBytes(b);
    } else if |b| >= 3 {
      DigitsRoundTrip(b[3..]);
      DecodeFullGroup(b);
    }
  }

  /** Every digit of the standard encoding is from the standard alphabet, and there are
      ceil(4n/3) of them. */
  lemma {:induction false} DigitsShape(b: Bytes)
    ensures |Digits(b)| == (4 * |b| + 2) / 3
    ensures forall i | 0 <= i < |Digits(b)| :: StdValue(Digits(b)[i]).Some?
  {
    var d := Digits(b);
    if |b| == 1 {
      var v := Sextets(b[0], 0, 0);
      ValueOfChar(v.0);
      ValueOfChar(v.1);
    } else if |b| == 2 {
      var v := Sextets(b[0], b[1], 0);
      ValueOfChar(v.0);
      ValueOfChar(v.1);
      ValueOfChar(v.2);
    } else if |b| >= 3 {
      DigitsShape(b[3..]);
      var v := Sextets(b[0], b[1], b[2]);
      ValueOfChar(v.0);
      ValueOfChar(v.1);
      ValueOfChar(v.2);
      ValueOfChar(v.3);
      assert d == [StdChar(v.0), StdChar(v.1), StdChar(v.2), StdChar(v.3)] + Digits(b[3..]);
      forall i | 4 <= i < |d| ensures StdValue(d[i]).Some? {
        assert d[i] == Digits(b[3..])[i - 4];
      }
    }
  }

  /** Stripping the padding of the translated standard encoding leaves exactly the
      translated digits. */
  lemma EncodeIsUrlDigits(b: Bytes)
    ensures TrimPadding(ToUrlSafe(StdEncode(b))) == ToUrlSafe(Digits(b))
  {
    DigitsShape(b);
    var d, p := Digits(b), Padding(|b|);
    var u := ToUrlSafe(d + p);
    assert u == ToUrlSafe(d) + p;
    forall i | 0 <= i < |d| ensures u[i] != '=' {
      assert StdValue(d[i]).Some?;
    }
    assert forall i | |d| <= i < |u| :: u[i] == '=';
    var t := TrimPadding(u);
    assert |d| > 0 ==> u[|d| - 1] != '=';
    assert |t| > 0 ==> t[|t| - 1] == u[|t| - 1] != '=';
    assert |t| == |d|;
    assert u[..|d|] == ToUrlSafe(d);
  }

  /** Standard digits translated to the URL-safe alphabet are URL-safe digits. */
  lemma UrlSafeDigits(d: string)
    requires forall i | 0 <= i < |d| :: StdValue(d[i]).Some?
    ensures forall i | 0 <= i < |d| :: IsUrlDigit(ToUrlSafe(d)[i])
  {
  }

  /** Translating standard digits to the URL-safe alphabet and back is the identity. */
  lemma FromToUrlSafe(d: string)
    requires forall i | 0 <= i < |d| :: StdValue(d[i]).Some?
    ensures FromUrlSafe(ToUrlSafe(d)) == d
  {
  }

  /** URL-safe round trip: decoding the encoding of any byte string, the empty one
      included, gives it back. */
  lemma RoundTrip(b: Bytes)
    ensures Decode(Encode(b)) == Some(b)
  {
    EncodeIsUrlDigits(b);
    DigitsShape(b);
    FromToUrlSafe(Digits(b));
    DigitsRoundTrip(b);
  }
}
