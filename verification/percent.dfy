/** Percent-encoding of baggage values (internal/otel/baggage/baggage.go) and its
    decoding by url.PathUnescape, as in section 2.1 of RFC 3986. */
module PercentEncoding {
  import opened GoStrings
  import opened Wrappers

  const PERCENT: Byte := 0x25

  /** The characters of a value: printable ASCII but for the double quote, comma, semicolon and backslash. */
  predicate IsValueChar(b: Byte) {
    b == 0x21 || 0x23 <= b <= 0x2B || 0x2D <= b <= 0x3A || 0x3C <= b <= 0x5B || 0x5D <= b <= 0x7E
  }

  predicate MatchesValue(s: Bytes) {
    forall i :: 0 <= i < |s| ==> IsValueChar(s[i])
  }

  function HexDigit(n: nat): (b: Byte)
    requires n < 16
    ensures IsHex(b) && UnHex(b) == n
  {
    if n < 10 then 0x30 + n else 0x41 + (n - 10)
  }

  predicate IsHex(b: Byte) {
    0x30 <= b <= 0x39 || 0x41 <= b <= 0x46 || 0x61 <= b <= 0x66
  }

  function UnHex(b: Byte): (n: nat)
    requires IsHex(b)
    ensures n < 16
  {
    if b <= 0x39 then b - 0x30 else if b <= 0x46 then b - 0x41 + 10 else b - 0x61 + 10
  }

  /** The octets that stand for themselves. */
  predicate IsPlain(b: Byte) {
    IsValueChar(b) && b != PERCENT
  }

  function EncodeByte(b: Byte): (s: Bytes)
    ensures MatchesValue(s) && 1 <= |s| <= 3
  {
    if IsPlain(b) then [b] else [PERCENT, HexDigit(b / 16), HexDigit(b % 16)]
  }

  /** The encoding octet by octet. */
  function Encode(s: Bytes): Bytes {
    if s == [] then [] else EncodeByte(s[0]) + Encode(s[1..])
  }

  /** url.PathUnescape. */
  function PathUnescape(s: Bytes): Option<Bytes> {
    if s == [] then Some([])
    else if s[0] == PERCENT then
      if |s| >= 3 && IsHex(s[1]) && IsHex(s[2]) then
        var rest := PathUnescape(s[3..]);
        if rest.Some? then Some([UnHex(s[1]) * 16 + UnHex(s[2])] + rest.value) else None
      else None
    else
      var rest := PathUnescape(s[1..]);
      if rest.Some? then Some([s[0]] + rest.value) else None
  }

  lemma {:induction false} EncodeConcat(a: Bytes, b: Bytes)
    ensures Encode(a + b) == Encode(a) + Encode(b)
  {
    if a == [] {
      assert a + b == b;
    } else {
      assert (a + b)[1..] == a[1..] + b;
      EncodeConcat(a[1..], b);
    }
  }

  lemma EncodeNext(piece: Bytes, j: nat)
    requires j < |piece|
    ensures Encode(piece[..j + 1]) == Encode(piece[..j]) + EncodeByte(piece[j])
  {
    assert piece[..j + 1] == piece[..j] + [piece[j]];
    EncodeConcat(piece[..j], [piece[j]]);
    assert Encode([piece[j]]) == EncodeByte(piece[j]) + Encode([]);
  }

  /** The inner loop of percentEncodeValue: every octet of one rune is escaped. */
  method EscapeOctets(piece: Bytes) returns (sb: Bytes)
    requires forall i :: 0 <= i < |piece| ==> !IsPlain(piece[i])
    ensures sb == Encode(piece)
  {
    sb := [];
    for j := 0 to |piece|
      invariant sb == Encode(piece[..j])
    {
      var b := piece[j];
      EncodeNext(piece, j);
      assert EncodeByte(b) == [PERCENT, HexDigit(b / 16), HexDigit(b % 16)];
      sb := sb + [PERCENT, HexDigit(b / 16), HexDigit(b % 16)];
    }
    assert piece[..|piece|] == piece;
  }

  /** What the test on a whole rune says about its octets. */
  lemma RuneTest(s: Bytes, text: Bytes)
    requires s != [] && text == EncodeRune(DecodeRune(s).0)
    ensures var piece := s[..DecodeRune(s).1];
      if MatchesValue(text) && text != [PERCENT] then Encode(piece) == text
      else forall i :: 0 <= i < |piece| ==> !IsPlain(piece[i])
  {
    var (runeValue, width) := DecodeRune(s);
    if s[0] < 0x80 {
      assert s[..1] == [s[0]];
      assert Encode([s[0]]) == EncodeByte(s[0]) + Encode([]);
    } else {
      assert !IsValueChar(text[0]);
    }
  }

  /** The body of the loop of percentEncodeValue: one rune is kept or its octets are escaped. */
  method EncodeFirstRune(s: Bytes) returns (text: Bytes, width: nat)
    requires s != []
    ensures 1 <= width <= |s| && text == Encode(s[..width])
  {
    var (runeValue, w) := DecodeRune(s);
    width := w;
    text := EncodeRune(runeValue);
    RuneTest(s, text);
    if !(MatchesValue(text) && text != [PERCENT]) {
      text := EscapeOctets(s[..width]);
    }
  }

  lemma EncodeSlices(s: Bytes, i: nat, width: nat)
    requires i + width <= |s|
    ensures Encode(s[..i + width]) == Encode(s[..i]) + Encode(s[i..][..width])
  {
    assert s[..i + width] == s[..i] + s[i..][..width];
    EncodeConcat(s[..i], s[i..][..width]);
  }

  /** percentEncodeValue goes rune by rune; on every byte string, invalid UTF-8
      included, that is the encoding octet by octet. */
  method PercentEncodeValue(s: Bytes) returns (sb: Bytes)
    ensures sb == Encode(s)
  {
    sb := [];
    var byteIndex := 0;
    while byteIndex < |s|
      invariant 0 <= byteIndex <= |s|
      invariant sb == Encode(s[..byteIndex])
    {
      var text, width := EncodeFirstRune(s[byteIndex..]);
      EncodeSlices(s, byteIndex, width);
      sb := sb + text;
      byteIndex := byteIndex + width;
    }
    assert s[..byteIndex] == s;
  }

  /** Decoding undoes encoding, for every byte string. */
  lemma {:induction false} UnescapeEncode(s: Bytes)
    ensures PathUnescape(Encode(s)) == Some(s)
  {
    if s != [] {
      UnescapeEncode(s[1..]);
      var rest := Encode(s[1..]);
      if IsPlain(s[0]) {
        assert ([s[0]] + rest)[1..] == rest;
      } else {
        assert EncodeByte(s[0]) + rest == [PERCENT, HexDigit(s[0] / 16), HexDigit(s[0] % 16)] + rest;
        assert ([PERCENT, HexDigit(s[0] / 16), HexDigit(s[0] % 16)] + rest)[3..] == rest;
      }
      assert [s[0]] + s[1..] == s;
    }
  }

  /** The encoding has only value characters: no comma, semicolon or blank. */
  lemma {:induction false} EncodeMatches(s: Bytes)
    ensures MatchesValue(Encode(s))
    ensures Encode(s) == [] <==> s == []
  {
    if s != [] {
      EncodeMatches(s[1..]);
    }
  }

  /** Encoding what was decoded from a value never takes more octets than the value had. */
  lemma {:induction false} ReencodeLength(v: Bytes)
    requires MatchesValue(v) && PathUnescape(v).Some?
    ensures |Encode(PathUnescape(v).value)| <= |v|
  {
    if v == [] {
    } else if v[0] == PERCENT {
      ReencodeLength(v[3..]);
      var d := PathUnescape(v).value;
      assert d[1..] == PathUnescape(v[3..]).value;
    } else {
      ReencodeLength(v[1..]);
      var d := PathUnescape(v).value;
      assert d[1..] == PathUnescape(v[1..]).value;
    }
  }
}
