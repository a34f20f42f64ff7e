/** The library encoders the OAuth2 client leans on: UTF-8 (`str.encode`), percent-encoding
    (`urllib.parse.quote`, `quote_plus`, `urlencode`; RFC 3986 section 2.1) and Base64
    (`base64.b64encode`; RFC 4648 section 4). */
module Encoding {
  import opened Wrappers
  import opened Text

  type byte = x: int | 0 <= x < 256

  // ---------------------------------------------------------------- UTF-8

  /** The UTF-8 encoding of one code point: an ASCII character is one byte below 0x80,
      every other character is two to four bytes, all of them 0x80 or above. */
  function Utf8Char(c: char): (b: seq<byte>)
    ensures 1 <= |b| <= 4
    ensures |b| == 1 <==> c as int < 0x80
    ensures |b| == 1 ==> b[0] == c as int
    ensures |b| > 1 ==> forall i :: 0 <= i < |b| ==> b[i] >= 0x80
  {
    var n := c as int;
    if n < 0x80 then [n]
    else if n < 0x800 then [0xC0 + n / 0x40, 0x80 + n % 0x40]
    else if n < 0x10000 then [0xE0 + n / 0x1000, 0x80 + (n / 0x40) % 0x40, 0x80 + n % 0x40]
    else [0xF0 + n / 0x40000, 0x80 + (n / 0x1000) % 0x40, 0x80 + (n / 0x40) % 0x40, 0x80 + n % 0x40]
  }

  /** `s.encode('utf-8')`. */
  function Utf8(s: string): (b: seq<byte>)
    ensures |b| >= |s|
  {
    if |s| == 0 then [] else Utf8Char(s[0]) + Utf8(s[1..])
  }

  // ------------------------------------------------------- percent-encoding

  /** The characters `quote` never escapes: letters, digits and `_.-~`. */
  predicate AlwaysSafe(c: char)
  {
    ('A' <= c <= 'Z') || ('a' <= c <= 'z') || ('0' <= c <= '9') || c == '_' || c == '.' || c == '-' || c == '~'
  }

  /** An upper-case hexadecimal digit, as percent-encoding writes it. */
  function HexDigit(d: nat): (c: char)
    requires d < 16
    ensures AlwaysSafe(c)
  {
    if d < 10 then ('0' as int + d) as char else ('A' as int + d - 10) as char
  }

  /** Each byte written as `%XY`. */
  function PercentBytes(bs: seq<byte>): (r: string)
    ensures |r| == 3 * |bs|
    ensures forall i :: 0 <= i < |r| ==> r[i] == '%' || AlwaysSafe(r[i])
  {
    if |bs| == 0 then []
    else ['%', HexDigit(bs[0] / 16), HexDigit(bs[0] % 16)] + PercentBytes(bs[1..])
  }

  /** One character as `quote` writes it: kept when safe, otherwise its UTF-8 bytes escaped. */
  function QuoteChar(c: char, safe: set<char>): (r: string)
    ensures forall i :: 0 <= i < |r| ==> r[i] == '%' || AlwaysSafe(r[i]) || r[i] in safe
  {
    if AlwaysSafe(c) || c in safe then [c] else PercentBytes(Utf8Char(c))
  }

  /** `urllib.parse.quote(s, safe)`: the result uses only always-safe characters, the extra
      safe characters and `%`. */
  function Quote(s: string, safe: set<char>): (r: string)
    ensures forall i :: 0 <= i < |r| ==> r[i] == '%' || AlwaysSafe(r[i]) || r[i] in safe
  {
    if |s| == 0 then "" else QuoteChar(s[0], safe) + Quote(s[1..], safe)
  }

  /** `urllib.parse.quote_plus(s)` (safe is empty): a space becomes `+`, every other character
      is quoted with nothing extra kept. */
  function QuotePlus(s: string): (r: string)
    ensures forall i :: 0 <= i < |r| ==> r[i] == '%' || r[i] == '+' || AlwaysSafe(r[i])
  {
    if |s| == 0 then ""
    else (if s[0] == ' ' then "+" else QuoteChar(s[0], {})) + QuotePlus(s[1..])
  }

  /** A delimiter that is neither always safe, `%`, nor declared safe never appears in quoted
      text: quoting cannot inject a `&` or an `=`. */
  lemma QuoteOmits(s: string, safe: set<char>, d: char)
    requires !AlwaysSafe(d) && d != '%' && d !in safe
    ensures d !in Quote(s, safe)
  {
    var r := Quote(s, safe);
    forall i | 0 <= i < |r| ensures r[i] != d { }
  }

  /** `quote_plus` keeps a text made only of always-safe characters as it is. */
  lemma {:induction false} QuotePlusSafe(s: string)
    requires AllSafe(s, {})
    ensures QuotePlus(s) == s
  {
    if |s| > 0 {
      assert AllSafe(s[1..], {}) by {
        forall i | 0 <= i < |s[1..]| ensures AlwaysSafe(s[1..][i]) {
          assert s[1..][i] == s[i + 1];
        }
      }
      QuotePlusSafe(s[1..]);
      assert s == [s[0]] + s[1..];
    }
  }

  /** `quote_plus` writes neither `&` nor `=`. */
  lemma QuotePlusOmits(s: string, d: char)
    requires !AlwaysSafe(d) && d != '%' && d != '+'
    ensures d !in QuotePlus(s)
  {
    var r := QuotePlus(s);
    forall i | 0 <= i < |r| ensures r[i] != d { }
  }

  predicate AllSafe(s: string, safe: set<char>)
  {
    forall i :: 0 <= i < |s| ==> AlwaysSafe(s[i]) || s[i] in safe
  }

  /** `quote` leaves a text unchanged exactly when every character of it is safe; otherwise
      the text grows. */
  lemma {:induction false} QuoteIdentity(s: string, safe: set<char>)
    ensures AllSafe(s, safe) ==> Quote(s, safe) == s
    ensures !AllSafe(s, safe) ==> |Quote(s, safe)| > |s|
    ensures Quote(s, safe) == s <==> AllSafe(s, safe)
  {
    if |s| > 0 {
      QuoteIdentity(s[1..], safe);
      assert s == [s[0]] + s[1..];
      assert AllSafe(s, safe) <==> (AlwaysSafe(s[0]) || s[0] in safe) && AllSafe(s[1..], safe) by {
        if AllSafe(s, safe) {
          forall i | 0 <= i < |s[1..]| ensures AlwaysSafe(s[1..][i]) || s[1..][i] in safe {
            assert s[1..][i] == s[i + 1];
          }
        }
        if (AlwaysSafe(s[0]) || s[0] in safe) && AllSafe(s[1..], safe) {
          forall i | 0 <= i < |s| ensures AlwaysSafe(s[i]) || s[i] in safe {
            if i > 0 { assert s[i] == s[1..][i - 1]; }
          }
        }
      }
    }
  }

  /** One `key=value` pair of `urlencode`. */
  function FormField(key: string, value: string): string
  {
    QuotePlus(key) + "=" + QuotePlus(value)
  }

  function FormFields(pairs: seq<(string, string)>): (fields: seq<string>)
    ensures |fields| == |pairs|
  {
    seq(|pairs|, i requires 0 <= i < |pairs| => FormField(pairs[i].0, pairs[i].1))
  }

  /** `urllib.parse.urlencode` of a dict whose items are `pairs`, in insertion order. */
  function Urlencode(pairs: seq<(string, string)>): string
  {
    Join(FormFields(pairs), '&')
  }

  /** An encoded form reads back unambiguously: it splits on `&` into one field per pair, in
      order (`FormFieldSplit` then reads each field). */
  lemma UrlencodeFields(pairs: seq<(string, string)>)
    requires |pairs| >= 1
    ensures Split(Urlencode(pairs), '&') == FormFields(pairs)
  {
    var fields := FormFields(pairs);
    forall i | 0 <= i < |pairs| ensures '&' !in fields[i] {
      QuotePlusOmits(pairs[i].0, '&');
      QuotePlusOmits(pairs[i].1, '&');
    }
    SplitJoin(fields, '&');
  }

  /** A field splits on `=` into exactly the quoted key and the quoted value. */
  lemma FormFieldSplit(key: string, value: string)
    ensures Split(FormField(key, value), '=') == [QuotePlus(key), QuotePlus(value)]
  {
    var k, v := QuotePlus(key), QuotePlus(value);
    QuotePlusOmits(key, '=');
    QuotePlusOmits(value, '=');
    assert Join([k, v], '=') == FormField(key, value);
    SplitJoin([k, v], '=');
  }

  // ----------------------------------------------------------------- Base64

  /** The RFC 4648 section 4 alphabet, `A-Z a-z 0-9 + /`. */
  function B64Char(k: nat): char
    requires k < 64
  {
    if k < 26 then ('A' as int + k) as char
    else if k < 52 then ('a' as int + k - 26) as char
    else if k < 62 then ('0' as int + k - 52) as char
    else if k == 62 then '+'
    else '/'
  }

  /** The value of an alphabet character; `None` for anything else, padding included. */
  function B64Value(c: char): (v: Option<nat>)
    ensures v.Some? ==> v.value < 64
  {
    if 'A' <= c <= 'Z' then Some(c as int - 'A' as int)
    else if 'a' <= c <= 'z' then Some(c as int - 'a' as int + 26)
    else if '0' <= c <= '9' then Some(c as int - '0' as int + 52)
    else if c == '+' then Some(62)
    else if c == '/' then Some(63)
    else None
  }

  lemma B64CharValue(k: nat)
    requires k < 64
    ensures B64Value(B64Char(k)) == Some(k)
  {
  }

  /** `base64.b64encode`: each three bytes become four characters, and a final group of one or
      two bytes is padded with `=` to four. */
  function Base64Encode(b: seq<byte>): string
    decreases |b|
  {
    if |b| == 0 then ""
    else if |b| == 1 then EncodeOne(b[0])
    else if |b| == 2 then EncodeTwo(b[0], b[1])
    else EncodeGroup(b[0], b[1], b[2]) + Base64Encode(b[3..])
  }

  /** Four characters for every started group of three bytes. */
  lemma {:induction false} Base64Length(b: seq<byte>)
    ensures |Base64Encode(b)| == 4 * ((|b| + 2) / 3)
    decreases |b|
  {
    if |b| > 2 {
      Base64Length(b[3..]);
      assert (|b| + 2) / 3 == (|b[3..]| + 2) / 3 + 1;
    }
  }

  function Byte0(x: nat, y: nat): byte
    requires x < 64 && y < 64
  {
    x * 4 + y / 16
  }

  function Byte1(y: nat, z: nat): byte
    requires y < 64 && z < 64
  {
    (y % 16) * 16 + z / 4
  }

  function Byte2(z: nat, w: nat): byte
    requires z < 64 && w < 64
  {
    (z % 4) * 64 + w
  }

  /** The inverse of `Base64Encode`, `None` on text that is not canonical Base64 of that shape. */
  function Base64Decode(s: string): Option<seq<byte>>
    decreases |s|
  {
    if |s| == 0 then Some([])
    else if |s| < 4 then None
    else
      var a, b, c, d := B64Value(s[0]), B64Value(s[1]), B64Value(s[2]), B64Value(s[3]);
      if a.None? || b.None? then None
      else if |s| == 4 && s[2] == '=' && s[3] == '=' then Some([Byte0(a.value, b.value)])
      else if c.None? then None
      else if |s| == 4 && s[3] == '=' then Some([Byte0(a.value, b.value), Byte1(b.value, c.value)])
      else if d.None? then None
      else match Base64Decode(s[4..])
        case None => None
        case Some(rest) =>
          Some([Byte0(a.value, b.value), Byte1(b.value, c.value), Byte2(c.value, d.value)] + rest)
  }

  lemma GroupArithmetic(b0: byte, b1: byte, b2: byte)
    ensures Byte0(b0 / 4, (b0 % 4) * 16 + b1 / 16) == b0
    ensures Byte0(b0 / 4, (b0 % 4) * 16) == b0
    ensures Byte1((b0 % 4) * 16 + b1 / 16, (b1 % 16) * 4 + b2 / 64) == b1
    ensures Byte1((b0 % 4) * 16 + b1 / 16, (b1 % 16) * 4) == b1
    ensures Byte2((b1 % 16) * 4 + b2 / 64, b2 % 64) == b2
  {
  }

  /** The four characters that encode three bytes. */
  function EncodeGroup(b0: byte, b1: byte, b2: byte): (r: string)
    ensures |r| == 4
  {
    [B64Char(b0 / 4), B64Char((b0 % 4) * 16 + b1 / 16),
     B64Char((b1 % 16) * 4 + b2 / 64), B64Char(b2 % 64)]
  }

  lemma DecodeGroup(b0: byte, b1: byte, b2: byte, rest: string)
    requires Base64Decode(rest).Some?
    ensures Base64Decode(EncodeGroup(b0, b1, b2) + rest) == Some([b0, b1, b2] + Base64Decode(rest).value)
  {
    GroupArithmetic(b0, b1, b2);
    var x, y, z, w := b0 / 4, (b0 % 4) * 16 + b1 / 16, (b1 % 16) * 4 + b2 / 64, b2 % 64;
    B64CharValue(x);
    B64CharValue(y);
    B64CharValue(z);
    B64CharValue(w);
    var s := EncodeGroup(b0, b1, b2) + rest;
    assert s[0] == B64Char(x) && s[1] == B64Char(y) && s[2] == B64Char(z) && s[3] == B64Char(w);
    assert s[3] != '=';
    assert s[4..] == rest;
  }

  /** A final single byte: two characters and two `=`. */
  function EncodeOne(b0: byte): (r: string)
    ensures |r| == 4
  {
    [B64Char(b0 / 4), B64Char((b0 % 4) * 16), '=', '=']
  }

  /** A final pair of bytes: three characters and one `=`. */
  function EncodeTwo(b0: byte, b1: byte): (r: string)
    ensures |r| == 4
  {
    [B64Char(b0 / 4), B64Char((b0 % 4) * 16 + b1 / 16), B64Char((b1 % 16) * 4), '=']
  }

  lemma DecodeOne(b0: byte)
    ensures Base64Decode(EncodeOne(b0)) == Some([b0])
  {
    GroupArithmetic(b0, 0, 0);
    B64CharValue(b0 / 4);
    B64CharValue((b0 % 4) * 16);
  }

  lemma DecodeTwo(b0: byte, b1: byte)
    ensures Base64Decode(EncodeTwo(b0, b1)) == Some([b0, b1])
  {
    GroupArithmetic(b0, b1, 0);
    var x, y, z := b0 / 4, (b0 % 4) * 16 + b1 / 16, (b1 % 16) * 4;
    B64CharValue(x);
    B64CharValue(y);
    B64CharValue(z);
    var s := [B64Char(x), B64Char(y), B64Char(z), '='];
    assert B64Value(s[2]) == Some(z);
    assert s[2] != '=';
  }

  /** Decoding the encoding gives back the bytes (RFC 4648 section 4 is lossless). */
  lemma {:induction false} Base64RoundTrip(b: seq<byte>)
    ensures Base64Decode(Base64Encode(b)) == Some(b)
    decreases |b|
  {
    if |b| == 1 {
      DecodeOne(b[0]);
      assert b == [b[0]];
    } else if |b| == 2 {
      DecodeTwo(b[0], b[1]);
      assert b == [b[0], b[1]];
    } else if |b| > 2 {
      Base64RoundTrip(b[3..]);
      RoundTripStep(b);
    }
  }

  /** A leading group of three bytes decodes back in front of the rest. */
  lemma RoundTripStep(b: seq<byte>)
    requires |b| > 2 && Base64Decode(Base64Encode(b[3..])) == Some(b[3..])
    ensures Base64Decode(Base64Encode(b)) == Some(b)
  {
    var rest := Base64Encode(b[3..]);
    var group := EncodeGroup(b[0], b[1], b[2]);
    DecodeGroup(b[0], b[1], b[2], rest);
    assert Base64Encode(b) == group + rest;
    FirstThree(b);
  }

  lemma FirstThree(b: seq<byte>)
    requires |b| > 2
    ensures b == [b[0], b[1], b[2]] + b[3..]
  {
  }
}
