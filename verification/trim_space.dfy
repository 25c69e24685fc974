/** strings.TrimSpace, said by runes: what is cut off on either side are white-space runes, and what is
    left neither starts nor ends with one. */
module Trimming {
  import opened GoStrings

  /** The runes with the Unicode property White_Space. */
  predicate IsWhite(r: nat) {
    || 0x09 <= r <= 0x0D || r == 0x20 || r == 0x85 || r == 0xA0 || r == 0x1680 || 0x2000 <= r <= 0x200A
    || r == 0x2028 || r == 0x2029 || r == 0x202F || r == 0x205F || r == 0x3000
  }

  function Text(rs: seq<nat>): Bytes {
    if rs == [] then [] else EncodeRune(rs[0]) + Text(rs[1..])
  }

  predicate AllWhite(rs: seq<nat>) {
    forall i :: 0 <= i < |rs| ==> IsWhite(rs[i])
  }

  ghost predicate StartsWith(s: Bytes, r: nat) {
    EncodeRune(r) <= s
  }

  ghost predicate EndsWith(s: Bytes, r: nat) {
    |EncodeRune(r)| <= |s| && s[|s| - |EncodeRune(r)|..] == EncodeRune(r)
  }

  /** The octets of a white-space rune. */
  lemma WhiteOctets(r: nat)
    requires IsWhite(r)
    ensures EncodeRune(r) ==
      if r < 0x80 then [r]
      else if r < 0x800 then [0xC2, r]
      else if r == 0x1680 then [0xE1, 0x9A, 0x80]
      else if r < 0x2040 then [0xE2, 0x80, 0x80 + (r - 0x2000)]
      else if r == 0x205F then [0xE2, 0x81, 0x9F]
      else [0xE3, 0x80, 0x80]
  {
  }

  lemma PrefixSound(s: Bytes) returns (r: nat)
    requires SpacePrefix(s) > 0
    ensures IsWhite(r) && EncodeRune(r) == s[..SpacePrefix(s)]
  {
    var n := SpacePrefix(s);
    r := if n == 1 then s[0] else if n == 2 then s[1]
      else if s[0] == 0xE1 then 0x1680
      else if s[0] == 0xE3 then 0x3000
      else if s[1] == 0x81 then 0x205F
      else 0x2000 + (s[2] as int - 0x80);
    WhiteOctets(r);
  }

  lemma PrefixComplete(s: Bytes, r: nat)
    requires IsWhite(r) && StartsWith(s, r)
    ensures SpacePrefix(s) == |EncodeRune(r)|
  {
    WhiteOctets(r);
    var e := EncodeRune(r);
    assert forall i :: 0 <= i < |e| ==> s[i] == e[i];
  }

  lemma SuffixSound(s: Bytes) returns (r: nat)
    requires SpaceSuffix(s) > 0
    ensures IsWhite(r) && EncodeRune(r) == s[|s| - SpaceSuffix(s)..]
  {
    var n := SpaceSuffix(s);
    var last := s[|s| - n..];
    if n == 1 {
      r := s[|s| - 1];
      assert last == [r];
      WhiteOctets(r);
    } else {
      assert SpacePrefix(last) == n;
      r := PrefixSound(last);
      assert last[..n] == last;
    }
  }

  lemma SuffixComplete(s: Bytes, r: nat)
    requires IsWhite(r) && EndsWith(s, r)
    ensures SpaceSuffix(s) > 0
  {
    WhiteOctets(r);
    var e := EncodeRune(r);
    var last := s[|s| - |e|..];
    PrefixComplete(last, r);
    assert last[|e| - 1] == s[|s| - 1];
  }

  lemma TextCons(r: nat, rs: seq<nat>)
    ensures Text([r] + rs) == EncodeRune(r) + Text(rs)
  {
    assert ([r] + rs)[1..] == rs;
  }

  lemma {:induction false} TrimLeftParts(s: Bytes) returns (rs: seq<nat>)
    ensures AllWhite(rs) && s == Text(rs) + TrimLeft(s) && SpacePrefix(TrimLeft(s)) == 0
    decreases |s|
  {
    rs := [];
    var n := SpacePrefix(s);
    if n > 0 {
      var r := PrefixSound(s);
      var rest := TrimLeftParts(s[n..]);
      rs := [r] + rest;
      TextCons(r, rest);
      SplitAt(s, n);
      ConcatAssoc(EncodeRune(r), Text(rest), TrimLeft(s));
    }
  }

  lemma {:induction false} TextSnoc(rs: seq<nat>, r: nat)
    ensures Text(rs + [r]) == Text(rs) + EncodeRune(r)
  {
    if rs == [] {
      assert rs + [r] == [r] && [r][1..] == [];
    } else {
      assert (rs + [r])[1..] == rs[1..] + [r];
      TextSnoc(rs[1..], r);
    }
  }

  lemma {:induction false} TrimRightParts(s: Bytes) returns (rs: seq<nat>)
    ensures AllWhite(rs) && s == TrimRight(s) + Text(rs) && SpaceSuffix(TrimRight(s)) == 0
    ensures TrimRight(s) <= s
    decreases |s|
  {
    rs := [];
    var n := SpaceSuffix(s);
    if n > 0 {
      var r := SuffixSound(s);
      var front := s[..|s| - n];
      var rest := TrimRightParts(front);
      rs := rest + [r];
      TextSnoc(rest, r);
      assert s == front + s[|s| - n..];
      ConcatAssoc(TrimRight(s), Text(rest), EncodeRune(r));
    }
  }

  /** A shorter text that starts with a white-space rune made the longer one start with it too. */
  lemma PrefixStays(s: Bytes, t: Bytes)
    requires t <= s && SpacePrefix(s) == 0
    ensures SpacePrefix(t) == 0
  {
  }

  /** `t` is what is left of `s` when white space is cut off on both sides. */
  ghost predicate Trimmed(s: Bytes, t: Bytes) {
    && (exists before, after :: AllWhite(before) && AllWhite(after) && s == Text(before) + t + Text(after))
    && (forall r: nat :: IsWhite(r) ==> !StartsWith(t, r) && !EndsWith(t, r))
  }

  lemma TrimSpaceExact(s: Bytes)
    ensures Trimmed(s, TrimSpace(s))
  {
    var before := TrimLeftParts(s);
    var after := TrimRightParts(TrimLeft(s));
    var t := TrimSpace(s);
    ConcatAssoc(Text(before), t, Text(after));
    PrefixStays(TrimLeft(s), t);
    forall r: nat | IsWhite(r)
      ensures !StartsWith(t, r) && !EndsWith(t, r)
    {
      if StartsWith(t, r) {
        PrefixComplete(t, r);
      }
      if EndsWith(t, r) {
        SuffixComplete(t, r);
      }
    }
  }
}
