/** Foundation's `stringByRemovingPercentEncoding`, as the query parser
    uses it: percent-encoded octets per section 2.1 of RFC 3986, read back as
    UTF-8. Every "%" must start a "%HH" triplet, and the octets must form
    well-formed UTF-8; otherwise the result is nil. */
module PercentEncoding {
  import opened Wrappers
  import opened Strings

  type Byte = b: int | 0 <= b < 256

  /** The value of a hexadecimal digit of either case. */
  function HexValue(c: char): (r: Option<nat>)
    ensures r.Some? ==> r.value < 16
  {
    if '0' <= c <= '9' then Some(c as int - '0' as int)
    else if 'A' <= c <= 'F' then Some(c as int - 'A' as int + 10)
    else if 'a' <= c <= 'f' then Some(c as int - 'a' as int + 10)
    else None
  }

  /** The upper-case hexadecimal digit for `d`. */
  function HexDigit(d: nat): (c: char)
    requires d < 16
    ensures HexValue(c) == Some(d)
    ensures ('0' <= c <= '9') || ('A' <= c <= 'F')
  {
    if d < 10 then ('0' as int + d) as char else ('A' as int + d - 10) as char
  }

  // ---------------------------------------------------------------------
  // UTF-8

  /** The UTF-8 encoding of one Unicode scalar value. */
  function Utf8EncodeChar(c: char): (bytes: seq<Byte>)
    ensures 1 <= |bytes| <= 4
  {
    var v := c as int;
    if v < 0x80 then [v]
    else if v < 0x800 then [0xC0 + v / 64, 0x80 + v % 64]
    else if v < 0x10000 then
      var r := v % 4096;
      [0xE0 + v / 4096, 0x80 + r / 64, 0x80 + r % 64]
    else
      var r := v % 262144;
      var r' := r % 4096;
      [0xF0 + v / 262144, 0x80 + r / 4096, 0x80 + r' / 64, 0x80 + r' % 64]
  }

  /** The UTF-8 encoding of a string. */
  function Utf8Encode(s: string): seq<Byte> {
    if s == [] then [] else Utf8EncodeChar(s[0]) + Utf8Encode(s[1..])
  }

  predicate IsContinuation(b: Byte) {
    0x80 <= b < 0xC0
  }

  predicate IsScalarValue(v: int) {
    0 <= v < 0xD800 || 0xE000 <= v < 0x110000
  }

  /** The scalar value a well-formed UTF-8 sequence starts with, and that
      sequence's length; none for an ill-formed start (a stray continuation
      byte, a truncated sequence, an overlong form, a surrogate or a value
      past U+10FFFF). */
  function DecodeScalar(bytes: seq<Byte>): (r: Option<(char, nat)>)
    ensures r.Some? ==> 1 <= r.value.1 <= |bytes| && r.value.1 <= 4
  {
    if |bytes| == 0 then None
    else
      var b0: int := bytes[0];
      if b0 < 0x80 then Some((b0 as char, 1))
      else if 0xC0 <= b0 < 0xE0 then
        if |bytes| < 2 || !IsContinuation(bytes[1]) then None
        else
          var v := (b0 - 0xC0) * 64 + (bytes[1] as int - 0x80);
          if v < 0x80 then None else Some((v as char, 2))
      else if 0xE0 <= b0 < 0xF0 then
        if |bytes| < 3 || !IsContinuation(bytes[1]) || !IsContinuation(bytes[2]) then None
        else
          var v := (b0 - 0xE0) * 4096 + (bytes[1] as int - 0x80) * 64 + (bytes[2] as int - 0x80);
          if v < 0x800 || !IsScalarValue(v) then None else Some((v as char, 3))
      else if 0xF0 <= b0 < 0xF8 then
        if |bytes| < 4 || !IsContinuation(bytes[1]) || !IsContinuation(bytes[2]) || !IsContinuation(bytes[3]) then None
        else
          var v := (b0 - 0xF0) * 262144 + (bytes[1] as int - 0x80) * 4096 + (bytes[2] as int - 0x80) * 64 + (bytes[3] as int - 0x80);
          if v < 0x10000 || !IsScalarValue(v) then None else Some((v as char, 4))
      else None
  }

  /** A byte sequence read as UTF-8, or none when it is ill-formed. */
  function Utf8Decode(bytes: seq<Byte>): Option<string>
    decreases |bytes|
  {
    if bytes == [] then Some("")
    else
      match DecodeScalar(bytes)
      case None => None
      case Some((c, n)) =>
        match Utf8Decode(bytes[n..])
        case None => None
        case Some(rest) => Some([c] + rest)
  }

  /** Decoding the front of an encoded scalar value gives it back, with the
      length of its encoding. */
  lemma DecodeScalarOfEncoding(c: char, rest: seq<Byte>)
    ensures DecodeScalar(Utf8EncodeChar(c) + rest) == Some((c, |Utf8EncodeChar(c)|))
  {
    var v := c as int;
    if v < 0x80 {
    } else if v < 0x800 {
      DecodeTwoBytes(c, rest);
    } else if v < 0x10000 {
      DecodeThreeBytes(c, rest);
    } else {
      DecodeFourBytes(c, rest);
    }
  }

  lemma DecodeTwoBytes(c: char, rest: seq<Byte>)
    requires 0x80 <= c as int < 0x800
    ensures DecodeScalar(Utf8EncodeChar(c) + rest) == Some((c, 2))
  {
    var v := c as int;
    var bytes := Utf8EncodeChar(c) + rest;
    var hi, lo := v / 64, v % 64;
    assert v == hi * 64 + lo;
    assert bytes[0] == 0xC0 + hi && bytes[1] == 0x80 + lo;
  }

  lemma DecodeThreeBytes(c: char, rest: seq<Byte>)
    requires 0x800 <= c as int < 0x10000
    ensures DecodeScalar(Utf8EncodeChar(c) + rest) == Some((c, 3))
  {
    var v := c as int;
    var bytes := Utf8EncodeChar(c) + rest;
    var r := v % 4096;
    var hi, mid, lo := v / 4096, r / 64, r % 64;
    assert v == hi * 4096 + r;
    assert r == mid * 64 + lo;
    assert bytes[0] == 0xE0 + hi && bytes[1] == 0x80 + mid && bytes[2] == 0x80 + lo;
  }

  lemma DecodeFourBytes(c: char, rest: seq<Byte>)
    requires 0x10000 <= c as int
    ensures DecodeScalar(Utf8EncodeChar(c) + rest) == Some((c, 4))
  {
    var v := c as int;
    var bytes := Utf8EncodeChar(c) + rest;
    var r := v % 262144;
    var r' := r % 4096;
    var top, hi, mid, lo := v / 262144, r / 4096, r' / 64, r' % 64;
    assert v == top * 262144 + r;
    assert r == hi * 4096 + r';
    assert r' == mid * 64 + lo;
    assert bytes[0] == 0xF0 + top && bytes[1] == 0x80 + hi && bytes[2] == 0x80 + mid && bytes[3] == 0x80 + lo;
  }

  /** UTF-8 decoding inverts UTF-8 encoding. */
  lemma {:induction false} Utf8RoundTrip(s: string)
    ensures Utf8Decode(Utf8Encode(s)) == Some(s)
  {
    if s != [] {
      var e := Utf8EncodeChar(s[0]);
      var rest := Utf8Encode(s[1..]);
      DecodeScalarOfEncoding(s[0], rest);
      assert (e + rest)[|e|..] == rest;
      Utf8RoundTrip(s[1..]);
      assert [s[0]] + s[1..] == s;
    }
  }

  // ---------------------------------------------------------------------
  // Percent decoding

  /** The octets a percent-encoded string stands for: a "%HH" triplet is
      the octet HH, any other character its own UTF-8 encoding; a "%" not
      followed by two hexadecimal digits makes the string malformed. */
  function Unescape(s: string): Option<seq<Byte>>
    decreases |s|
  {
    if s == [] then Some([])
    else if s[0] == '%' then
      if |s| < 3 || HexValue(s[1]).None? || HexValue(s[2]).None? then None
      else
        match Unescape(s[3..])
        case None => None
        case Some(rest) => Some([HexValue(s[1]).value * 16 + HexValue(s[2]).value] + rest)
    else
      match Unescape(s[1..])
      case None => None
      case Some(rest) => Some(Utf8EncodeChar(s[0]) + rest)
  }

  /** `stringByRemovingPercentEncoding`. */
  function RemovePercentEncoding(s: string): Option<string> {
    match Unescape(s)
    case None => None
    case Some(bytes) => Utf8Decode(bytes)
  }

  /** A string without "%" stands for its own UTF-8 encoding. */
  lemma {:induction false} UnescapePlain(s: string)
    requires !Contains(s, '%')
    ensures Unescape(s) == Some(Utf8Encode(s))
    decreases |s|
  {
    if s != [] {
      assert s[0] != '%';
      assert !Contains(s[1..], '%') by {
        forall i | 0 <= i < |s[1..]| ensures s[1..][i] != '%' {
          assert s[1..][i] == s[i + 1];
        }
      }
      UnescapePlain(s[1..]);
    }
  }

  /** Removing percent-encoding leaves a string without "%" unchanged. */
  lemma NoPercentUnchanged(s: string)
    requires !Contains(s, '%')
    ensures RemovePercentEncoding(s) == Some(s)
  {
    UnescapePlain(s);
    Utf8RoundTrip(s);
  }

  /** A "%" that does not start a triplet, or octets that are not UTF-8,
      make the result nil. */
  lemma MalformedExamples()
    ensures RemovePercentEncoding("%") == None
    ensures RemovePercentEncoding("a%2") == None
    ensures RemovePercentEncoding("%zz") == None
    ensures RemovePercentEncoding("%FF") == None
    ensures RemovePercentEncoding("%C3") == None
  {
    assert "a%2"[1..] == "%2";
  }

  /** Characters section 2.3 of RFC 3986 leaves unencoded. */
  predicate IsUnreserved(c: char) {
    ('A' <= c <= 'Z') || ('a' <= c <= 'z') || ('0' <= c <= '9') || c == '-' || c == '.' || c == '_' || c == '~'
  }

  /** "%HH" for each octet. */
  function EncodeOctets(bytes: seq<Byte>): string {
    if bytes == [] then "" else ['%', HexDigit(bytes[0] / 16), HexDigit(bytes[0] % 16)] + EncodeOctets(bytes[1..])
  }

  /** Percent-encoding: unreserved characters stay, every other character
      becomes the triplets of its UTF-8 octets. */
  function PercentEncode(s: string): string {
    if s == [] then ""
    else (if IsUnreserved(s[0]) then [s[0]] else EncodeOctets(Utf8EncodeChar(s[0]))) + PercentEncode(s[1..])
  }

  /** One "%HH" triplet followed by more text stands for the octet
      followed by what the text stands for. */
  lemma UnescapeTriplet(b: Byte, u: string)
    ensures Unescape(u).None? ==> Unescape(['%', HexDigit(b / 16), HexDigit(b % 16)] + u).None?
    ensures Unescape(u).Some? ==> Unescape(['%', HexDigit(b / 16), HexDigit(b % 16)] + u) == Some([b] + Unescape(u).value)
  {
    var s := ['%', HexDigit(b / 16), HexDigit(b % 16)] + u;
    assert s[0] == '%' && s[1] == HexDigit(b / 16) && s[2] == HexDigit(b % 16);
    assert HexValue(s[1]).value * 16 + HexValue(s[2]).value == b;
    assert s[3..] == u;
  }

  /** Unescaping triplets followed by more text gives their octets followed
      by what the text stands for, and fails exactly when the text does. */
  lemma {:induction false} UnescapeOctets(bytes: seq<Byte>, t: string)
    ensures Unescape(t).None? ==> Unescape(EncodeOctets(bytes) + t).None?
    ensures Unescape(t).Some? ==> Unescape(EncodeOctets(bytes) + t) == Some(bytes + Unescape(t).value)
    decreases |bytes|
  {
    if bytes == [] {
      assert EncodeOctets(bytes) + t == t;
      if Unescape(t).Some? {
        assert bytes + Unescape(t).value == Unescape(t).value;
      }
    } else {
      var u := EncodeOctets(bytes[1..]) + t;
      EncodeOctetsFront(bytes, t);
      UnescapeTriplet(bytes[0], u);
      UnescapeOctets(bytes[1..], t);
      if Unescape(t).Some? {
        ConsAppend(bytes, Unescape(t).value);
      }
    }
  }

  lemma ConsAppend<T>(xs: seq<T>, r: seq<T>)
    requires xs != []
    ensures [xs[0]] + (xs[1..] + r) == xs + r
  {
    assert xs == [xs[0]] + xs[1..];
  }

  /** The triplets of octets followed by text start with the triplet of the
      first octet. */
  lemma EncodeOctetsFront(bytes: seq<Byte>, t: string)
    requires bytes != []
    ensures EncodeOctets(bytes) + t ==
            ['%', HexDigit(bytes[0] / 16), HexDigit(bytes[0] % 16)] + (EncodeOctets(bytes[1..]) + t)
  {
  }

  /** What a percent-encoded string stands for is the UTF-8 encoding of the
      original. */
  lemma {:induction false} UnescapePercentEncode(s: string)
    ensures Unescape(PercentEncode(s)) == Some(Utf8Encode(s))
    decreases |s|
  {
    if s != [] {
      UnescapePercentEncode(s[1..]);
      var tail := PercentEncode(s[1..]);
      if IsUnreserved(s[0]) {
        var t := [s[0]] + tail;
        assert t[0] == s[0] && t[1..] == tail;
      } else {
        UnescapeOctets(Utf8EncodeChar(s[0]), tail);
      }
    }
  }

  /** Removing percent-encoding inverts percent-encoding. */
  lemma PercentRoundTrip(s: string)
    ensures RemovePercentEncoding(PercentEncode(s)) == Some(s)
  {
    UnescapePercentEncode(s);
    Utf8RoundTrip(s);
  }

  /** Percent-encoding produces only unreserved characters and "%". */
  lemma {:induction false} PercentEncodeAlphabet(s: string)
    ensures forall k | 0 <= k < |PercentEncode(s)| :: IsUnreserved(PercentEncode(s)[k]) || PercentEncode(s)[k] == '%'
    decreases |s|
  {
    if s != [] {
      PercentEncodeAlphabet(s[1..]);
      if !IsUnreserved(s[0]) {
        EncodeOctetsAlphabet(Utf8EncodeChar(s[0]));
      }
    }
  }

  lemma {:induction false} EncodeOctetsAlphabet(bytes: seq<Byte>)
    ensures forall k | 0 <= k < |EncodeOctets(bytes)| :: IsUnreserved(EncodeOctets(bytes)[k]) || EncodeOctets(bytes)[k] == '%'
    decreases |bytes|
  {
    if bytes != [] {
      EncodeOctetsAlphabet(bytes[1..]);
    }
  }
}
