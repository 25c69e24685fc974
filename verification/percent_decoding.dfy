/** What decoding and reading accept and what they give, said on the text itself: by the digits, the
    escapes and the grammar, and not by the functions that compute it. */
module PercentDecoding {
  import opened GoStrings
  import opened PercentEncoding
  import opened BaggageSyntax
  import opened BaggageMembers
  import opened Wrappers

  // ---------------------------------------------------------------------------
  // Digits and characters
  // ---------------------------------------------------------------------------

  const UPPER_DIGITS := "0123456789ABCDEF"
  const LOWER_DIGITS := "0123456789abcdef"

  /** `b` is a hexadecimal digit, of either case, with value `n`. */
  predicate IsDigit(b: Byte, n: nat) {
    n < 16 && (b == UPPER_DIGITS[n] as int || b == LOWER_DIGITS[n] as int)
  }

  lemma DigitAt(n: nat)
    requires n < 16
    ensures UPPER_DIGITS[n] as int == if n < 10 then 0x30 + n else 0x41 + (n - 10)
    ensures LOWER_DIGITS[n] as int == if n < 10 then 0x30 + n else 0x61 + (n - 10)
  {
    assert n == 0 || n == 1 || n == 2 || n == 3 || n == 4 || n == 5 || n == 6 || n == 7 || n == 8 || n == 9
      || n == 10 || n == 11 || n == 12 || n == 13 || n == 14 || n == 15;
  }

  /** The decoder reads the digits of both cases, and those only. */
  lemma HexValue(b: Byte, n: nat)
    ensures IsDigit(b, n) <==> IsHex(b) && UnHex(b) == n
  {
    if n < 16 {
      DigitAt(n);
    }
  }

  /** The encoder writes upper-case digits. */
  lemma HexDigitUpper(n: nat)
    requires n < 16
    ensures HexDigit(n) == UPPER_DIGITS[n] as int
  {
    DigitAt(n);
  }

  /** The characters of a value are printable ASCII but for four. */
  lemma ValueCharacters(b: Byte)
    ensures IsValueChar(b) <==>
      0x21 <= b <= 0x7E && b != '"' as int && b != ',' as int && b != ';' as int && b != '\\' as int
  {
  }

  /** Blanks around a key or value of a property. */
  lemma BlankCharacters(b: Byte)
    ensures IsBlank(b) <==> b == '\t' as int || b == '\n' as int || b == '\r' as int || b == ' ' as int || b == 0x0C
  {
  }

  const TOKEN_PUNCTUATION := "!#$%&'*+-.^_`|~"

  /** The characters of a key are those of a token: letters, digits and fifteen others. */
  lemma KeyCharacters(b: Byte)
    ensures IsKeyChar(b) <==>
      || 'a' as int <= b <= 'z' as int || 'A' as int <= b <= 'Z' as int || '0' as int <= b <= '9' as int
      || exists i :: 0 <= i < |TOKEN_PUNCTUATION| && b == TOKEN_PUNCTUATION[i] as int
  {
    var t := TOKEN_PUNCTUATION;
    assert |t| == 15;
    assert t[0] == '!' && t[1] == '#' && t[2] == '$' && t[3] == '%' && t[4] == '&' && t[5] == '\'' && t[6] == '*' && t[7] == '+';
    assert t[8] == '-' && t[9] == '.' && t[10] == '^' && t[11] == '_' && t[12] == '`' && t[13] == '|' && t[14] == '~';
  }

  // ---------------------------------------------------------------------------
  // Percent-encoded texts
  // ---------------------------------------------------------------------------

  datatype Piece = Plain(b: Byte) | Escape(high: Byte, low: Byte)

  function Spell(p: Piece): Bytes {
    if p.Plain? then [p.b] else [PERCENT, p.high, p.low]
  }

  function Spelled(ps: seq<Piece>): Bytes {
    if ps == [] then [] else Spell(ps[0]) + Spelled(ps[1..])
  }

  /** How an octet is written: a value character that is no percent sign as itself, all others escaped. */
  function PieceOf(b: Byte): Piece {
    if IsValueChar(b) && b != '%' as int then Plain(b)
    else Escape(UPPER_DIGITS[b / 16] as int, UPPER_DIGITS[b % 16] as int)
  }

  function PiecesOf(s: Bytes): (ps: seq<Piece>)
    ensures |ps| == |s|
    ensures forall i :: 0 <= i < |s| ==> ps[i] == PieceOf(s[i])
  {
    if s == [] then [] else [PieceOf(s[0])] + PiecesOf(s[1..])
  }

  /** The encoding writes octet after octet, with upper-case digits. */
  lemma {:induction false} EncodeExact(s: Bytes)
    ensures Encode(s) == Spelled(PiecesOf(s))
  {
    if s != [] {
      EncodeExact(s[1..]);
      HexDigitUpper(s[0] / 16);
      HexDigitUpper(s[0] % 16);
      assert PiecesOf(s)[1..] == PiecesOf(s[1..]);
    }
  }

  /** The piece stands for the octet: itself, or the value of its two digits. */
  ghost predicate Denotes(p: Piece, o: Byte) {
    match p
    case Plain(b) => b != PERCENT && o == b
    case Escape(high, low) => exists m: nat, n: nat :: IsDigit(high, m) && IsDigit(low, n) && o == 16 * m + n
  }

  ghost predicate DenoteAll(ps: seq<Piece>, d: Bytes) {
    |ps| == |d| && forall i :: 0 <= i < |d| ==> Denotes(ps[i], d[i])
  }

  /** `v` is a percent-encoded text for `d`. */
  ghost predicate Reads(v: Bytes, d: Bytes) {
    exists ps :: Spelled(ps) == v && DenoteAll(ps, d)
  }

  lemma EscapeDenotes(high: Byte, low: Byte)
    requires IsHex(high) && IsHex(low)
    ensures Denotes(Escape(high, low), UnHex(high) * 16 + UnHex(low))
  {
    HexValue(high, UnHex(high));
    HexValue(low, UnHex(low));
  }

  lemma DenotesValue(high: Byte, low: Byte, o: Byte)
    requires Denotes(Escape(high, low), o)
    ensures IsHex(high) && IsHex(low) && o == UnHex(high) * 16 + UnHex(low)
  {
    var m: nat, n: nat :| IsDigit(high, m) && IsDigit(low, n) && o == 16 * m + n;
    HexValue(high, m);
    HexValue(low, n);
  }

  lemma DenoteCons(p: Piece, o: Byte, ps: seq<Piece>, d: Bytes)
    requires Denotes(p, o) && DenoteAll(ps, d)
    ensures Spelled([p] + ps) == Spell(p) + Spelled(ps) && DenoteAll([p] + ps, [o] + d)
  {
    assert ([p] + ps)[1..] == ps;
  }

  lemma {:induction false} UnescapeSound(v: Bytes) returns (ps: seq<Piece>)
    requires PathUnescape(v).Some?
    ensures Spelled(ps) == v && DenoteAll(ps, PathUnescape(v).value)
  {
    if v == [] {
      ps := [];
    } else if v[0] == PERCENT {
      var rest := UnescapeSound(v[3..]);
      EscapeDenotes(v[1], v[2]);
      DenoteCons(Escape(v[1], v[2]), UnHex(v[1]) * 16 + UnHex(v[2]), rest, PathUnescape(v[3..]).value);
      ps := [Escape(v[1], v[2])] + rest;
      assert v == [v[0], v[1], v[2]] + v[3..];
    } else {
      var rest := UnescapeSound(v[1..]);
      DenoteCons(Plain(v[0]), v[0], rest, PathUnescape(v[1..]).value);
      ps := [Plain(v[0])] + rest;
      assert v == [v[0]] + v[1..];
    }
  }

  /** One piece in front of a text that can be decoded. */
  lemma UnescapePlain(b: Byte, rest: Bytes, d: Bytes)
    requires b != PERCENT && PathUnescape(rest) == Some(d)
    ensures PathUnescape([b] + rest) == Some([b] + d)
  {
    assert ([b] + rest)[1..] == rest;
  }

  lemma UnescapeEscape(high: Byte, low: Byte, rest: Bytes, d: Bytes)
    requires IsHex(high) && IsHex(low) && PathUnescape(rest) == Some(d)
    ensures PathUnescape([PERCENT, high, low] + rest) == Some([UnHex(high) * 16 + UnHex(low)] + d)
  {
    assert ([PERCENT, high, low] + rest)[3..] == rest;
  }

  lemma {:induction false} UnescapeComplete(ps: seq<Piece>, d: Bytes)
    requires DenoteAll(ps, d)
    ensures PathUnescape(Spelled(ps)) == Some(d)
  {
    if ps != [] {
      assert DenoteAll(ps[1..], d[1..]);
      UnescapeComplete(ps[1..], d[1..]);
      var p, rest := ps[0], Spelled(ps[1..]);
      if p.Plain? {
        UnescapePlain(p.b, rest, d[1..]);
      } else {
        DenotesValue(p.high, p.low, d[0]);
        UnescapeEscape(p.high, p.low, rest, d[1..]);
      }
      assert Spelled(ps) == Spell(p) + rest;
      HeadTail(d);
    }
  }

  /** Decoding gives `d` exactly for the percent-encoded texts for `d`. */
  lemma UnescapeIff(v: Bytes, d: Bytes)
    ensures PathUnescape(v) == Some(d) <==> Reads(v, d)
  {
    if PathUnescape(v) == Some(d) {
      var ps := UnescapeSound(v);
    }
    if Reads(v, d) {
      var ps :| Spelled(ps) == v && DenoteAll(ps, d);
      UnescapeComplete(ps, d);
    }
  }

  ghost predicate IsAnyDigit(b: Byte) {
    exists n: nat :: IsDigit(b, n)
  }

  ghost predicate TwoDigits(v: Bytes, i: nat) {
    i + 2 < |v| && IsAnyDigit(v[i + 1]) && IsAnyDigit(v[i + 2])
  }

  /** At `i` there is a percent sign without two digits behind it. */
  ghost predicate BadAt(v: Bytes, i: nat) {
    i < |v| && v[i] == PERCENT && !TwoDigits(v, i)
  }

  lemma AnyDigit(b: Byte)
    ensures IsAnyDigit(b) <==> IsHex(b)
  {
    if IsHex(b) {
      HexValue(b, UnHex(b));
    }
    if n: nat :| IsDigit(b, n) {
      HexValue(b, n);
    }
  }

  lemma TwoDigitsHex(v: Bytes, i: nat)
    ensures TwoDigits(v, i) <==> i + 2 < |v| && IsHex(v[i + 1]) && IsHex(v[i + 2])
  {
    if i + 2 < |v| {
      AnyDigit(v[i + 1]);
      AnyDigit(v[i + 2]);
    }
  }

  lemma BadShift(v: Bytes, i: nat, k: nat)
    requires k <= i && k <= |v|
    ensures BadAt(v[k..], i - k) <==> BadAt(v, i)
  {
    TwoDigitsHex(v, i);
    TwoDigitsHex(v[k..], i - k);
  }

  lemma {:induction false} UnescapeFails(v: Bytes)
    ensures PathUnescape(v).None? <==> exists i: nat :: BadAt(v, i)
  {
    if v != [] {
      var k := if v[0] != PERCENT then 1 else if |v| >= 3 && IsHex(v[1]) && IsHex(v[2]) then 3 else 0;
      TwoDigitsHex(v, 0);
      if k > 0 {
        UnescapeFails(v[k..]);
        forall i: nat | k <= i
          ensures BadAt(v[k..], i - k) <==> BadAt(v, i)
        {
          BadShift(v, i, k);
        }
        if i: nat :| BadAt(v[k..], i) {
          assert BadAt(v, i + k);
        }
        if i: nat :| BadAt(v, i) {
          assert i >= k;
          assert BadAt(v[k..], i - k);
        }
      } else {
        assert BadAt(v, 0);
      }
    }
  }

  // ---------------------------------------------------------------------------
  // Key and value of a member
  // ---------------------------------------------------------------------------

  /** What is read before the first semicolon, said on the text: a key and an encoded value around the first
      equals sign, with white space to be trimmed. */
  lemma ReadHeadIff(k: Bytes, v: Bytes, key: Bytes, value: Bytes)
    requires EQUALS !in k
    ensures ReadHead(k + [EQUALS] + v) == Ok((key, value)) <==>
      TrimSpace(k) == key && MatchesKey(key) && MatchesValue(TrimSpace(v)) && Reads(TrimSpace(v), value)
  {
    CutAt(k, EQUALS, v);
    UnescapeIff(TrimSpace(v), value);
  }

  /** Which error results otherwise, the key being looked at before the value. */
  lemma ReadHeadErrors(k: Bytes, v: Bytes)
    requires EQUALS !in k
    ensures var r := ReadHead(k + [EQUALS] + v);
      && (r == Err(InvalidKey) <==> !MatchesKey(TrimSpace(k)))
      && (r == Err(InvalidValue) <==> MatchesKey(TrimSpace(k)) && !MatchesValue(TrimSpace(v)))
      && (r == Err(BadEscape) <==>
            MatchesKey(TrimSpace(k)) && MatchesValue(TrimSpace(v)) && exists i: nat :: BadAt(TrimSpace(v), i))
      && (r.Err? ==> r.error in {InvalidKey, InvalidValue, BadEscape})
  {
    CutAt(k, EQUALS, v);
    UnescapeFails(TrimSpace(v));
  }

  lemma ReadHeadNoEquals(head: Bytes)
    ensures ReadHead(head) == Err(InvalidMember) <==> EQUALS !in head
  {
    var (k, v) := Cut(head, EQUALS);
    if v.None? {
      assert head == k;
    } else {
      assert head[|k|] == EQUALS;
    }
  }
}
