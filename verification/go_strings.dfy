/** The parts of Go's `strings`, `utf8` and `net/url` packages that the baggage code
    calls, on byte strings. */
module GoStrings {
  import opened Wrappers

  type Byte = x: int | 0 <= x < 256
  type Bytes = seq<Byte>

  // ---------------------------------------------------------------------------
  // Slices; for elements of any type, which keeps equality of the elements out of the proofs
  // ---------------------------------------------------------------------------

  lemma SplitAt<T>(s: seq<T>, i: nat)
    requires i <= |s|
    ensures s == s[..i] + s[i..]
  {
  }

  lemma TakeNext<T>(s: seq<T>, i: nat)
    requires i < |s|
    ensures s[..i + 1] == s[..i] + [s[i]] && s[..i + 1][..i] == s[..i]
  {
  }

  lemma HeadTail<T>(s: seq<T>)
    requires s != []
    ensures s == [s[0]] + s[1..]
  {
  }

  lemma ConcatAssoc<T>(a: seq<T>, b: seq<T>, c: seq<T>)
    ensures a + (b + c) == (a + b) + c
  {
  }

  lemma ConcatPrefix<T>(a: seq<T>, b: seq<T>)
    ensures (a + b)[..|a|] == a
    ensures b != [] ==> (a + b)[..|a| + |b| - 1] == a + b[..|b| - 1]
  {
  }

  lemma ConcatSnoc<T>(a: seq<T>, b: seq<T>)
    requires b != []
    ensures a + b == (a + b[..|b| - 1]) + [b[|b| - 1]]
  {
  }

  // ---------------------------------------------------------------------------
  // strings.Split, strings.SplitN(s, sep, 2) and strings.Join, for one-byte separators
  // ---------------------------------------------------------------------------

  function Split(s: Bytes, sep: Byte): (r: seq<Bytes>)
    ensures |r| > 0
    ensures forall i :: 0 <= i < |r| ==> sep !in r[i]
  {
    if s == [] then [[]]
    else
      var rest := Split(s[1..], sep);
      if s[0] == sep then [[]] + rest else [[s[0]] + rest[0]] + rest[1..]
  }

  function Join(parts: seq<Bytes>, sep: Byte): Bytes {
    if parts == [] then []
    else if |parts| == 1 then parts[0]
    else parts[0] + [sep] + Join(parts[1..], sep)
  }

  /** The text before the first `sep`, and the text after it if there is one. */
  function Cut(s: Bytes, sep: Byte): (r: (Bytes, Option<Bytes>))
    ensures sep !in r.0
    ensures s == match r.1 case None => r.0 case Some(rest) => r.0 + [sep] + rest
  {
    if s == [] then ([], None)
    else if s[0] == sep then ([], Some(s[1..]))
    else var (a, b) := Cut(s[1..], sep); ([s[0]] + a, b)
  }

  lemma {:induction false} CutAt(a: Bytes, sep: Byte, b: Bytes)
    requires sep !in a
    ensures Cut(a + [sep] + b, sep) == (a, Some(b))
    ensures Cut(a, sep) == (a, None)
  {
    if a == [] {
      assert [] + [sep] + b == [sep] + b;
    } else {
      assert (a + [sep] + b)[1..] == a[1..] + [sep] + b;
      assert a[0] in a && [a[0]] + a[1..] == a;
      CutAt(a[1..], sep, b);
    }
  }

  lemma {:induction false} SplitOne(s: Bytes, sep: Byte)
    requires sep !in s
    ensures Split(s, sep) == [s]
  {
    if s != [] {
      assert s[0] in s && [s[0]] + s[1..] == s;
      SplitOne(s[1..], sep);
    }
  }

  lemma {:induction false} SplitCons(a: Bytes, sep: Byte, b: Bytes)
    requires sep !in a
    ensures Split(a + [sep] + b, sep) == [a] + Split(b, sep)
  {
    if a == [] {
      assert [] + [sep] + b == [sep] + b;
    } else {
      assert (a + [sep] + b)[1..] == a[1..] + [sep] + b;
      assert a[0] in a && [a[0]] + a[1..] == a;
      SplitCons(a[1..], sep, b);
    }
  }

  /** Splitting undoes joining when no part contains the separator. */
  lemma {:induction false} SplitJoin(parts: seq<Bytes>, sep: Byte)
    requires parts != [] && forall i :: 0 <= i < |parts| ==> sep !in parts[i]
    ensures Split(Join(parts, sep), sep) == parts
  {
    if |parts| == 1 {
      SplitOne(parts[0], sep);
    } else {
      SplitJoin(parts[1..], sep);
      SplitCons(parts[0], sep, Join(parts[1..], sep));
    }
  }

  /** The length of the joined parts, plus one separator. */
  function JoinedLength(parts: seq<Bytes>): nat {
    if parts == [] then 0 else |parts[0]| + 1 + JoinedLength(parts[1..])
  }

  lemma {:induction false} JoinLength(parts: seq<Bytes>, sep: Byte)
    requires parts != []
    ensures |Join(parts, sep)| + 1 == JoinedLength(parts)
  {
    if |parts| > 1 {
      JoinLength(parts[1..], sep);
    }
  }

  lemma {:induction false} SplitLength(s: Bytes, sep: Byte)
    ensures JoinedLength(Split(s, sep)) == |s| + 1
  {
    if s != [] {
      SplitLength(s[1..], sep);
    }
  }

  lemma {:induction false} JoinedLengthConcat(a: seq<Bytes>, b: seq<Bytes>)
    ensures JoinedLength(a + b) == JoinedLength(a) + JoinedLength(b)
  {
    if a == [] {
      assert a + b == b;
    } else {
      assert (a + b)[1..] == a[1..] + b;
      JoinedLengthConcat(a[1..], b);
    }
  }

  lemma {:induction false} JoinConcat(a: seq<Bytes>, b: seq<Bytes>, sep: Byte)
    requires a != [] && b != []
    ensures Join(a + b, sep) == Join(a, sep) + [sep] + Join(b, sep)
    ensures Join([Join(a, sep)] + b, sep) == Join(a + b, sep)
  {
    if |a| == 1 {
      assert (a + b)[1..] == b;
    } else {
      assert (a + b)[1..] == a[1..] + b;
      JoinConcat(a[1..], b, sep);
      assert Join(a + b, sep) == a[0] + [sep] + Join(a[1..] + b, sep);
      assert Join(a, sep) == a[0] + [sep] + Join(a[1..], sep);
    }
    assert ([Join(a, sep)] + b)[1..] == b;
  }

  // ---------------------------------------------------------------------------
  // strings.TrimSpace: leading and trailing runes with the Unicode property White_Space
  // ---------------------------------------------------------------------------

  predicate IsAsciiSpace(b: Byte) {
    0x09 <= b <= 0x0D || b == 0x20
  }

  /** Length of the encoding of a white-space rune that `s` starts with, or 0. */
  function SpacePrefix(s: Bytes): (n: nat)
    ensures n <= |s|
    ensures n > 0 ==> IsAsciiSpace(s[0]) || s[0] >= 0x80
    ensures n > 1 ==> s[n - 1] >= 0x80
  {
    if |s| >= 1 && IsAsciiSpace(s[0]) then 1
    else if |s| >= 2 && s[0] == 0xC2 && (s[1] == 0x85 || s[1] == 0xA0) then 2
    else if |s| >= 3 && s[0] == 0xE1 && s[1] == 0x9A && s[2] == 0x80 then 3
    else if |s| >= 3 && s[0] == 0xE2 && s[1] == 0x80 && (s[2] <= 0x8A || s[2] == 0xA8 || s[2] == 0xA9 || s[2] == 0xAF)
      && s[2] >= 0x80 then 3
    else if |s| >= 3 && s[0] == 0xE2 && s[1] == 0x81 && s[2] == 0x9F then 3
    else if |s| >= 3 && s[0] == 0xE3 && s[1] == 0x80 && s[2] == 0x80 then 3
    else 0
  }

  /** Length of the encoding of a white-space rune that `s` ends with, or 0. */
  function SpaceSuffix(s: Bytes): (n: nat)
    ensures n <= |s|
  {
    if |s| >= 1 && IsAsciiSpace(s[|s| - 1]) then 1
    else if |s| >= 2 && SpacePrefix(s[|s| - 2..]) == 2 then 2
    else if |s| >= 3 && SpacePrefix(s[|s| - 3..]) == 3 then 3
    else 0
  }

  lemma SpaceSuffixByte(s: Bytes)
    requires SpaceSuffix(s) > 0
    ensures IsAsciiSpace(s[|s| - 1]) || s[|s| - 1] >= 0x80
  {
    var n := SpaceSuffix(s);
    assert s[|s| - n..][n - 1] == s[|s| - 1];
  }

  function TrimLeft(s: Bytes): Bytes
    decreases |s|
  {
    var n := SpacePrefix(s);
    if n == 0 then s else TrimLeft(s[n..])
  }

  function TrimRight(s: Bytes): Bytes
    decreases |s|
  {
    var n := SpaceSuffix(s);
    if n == 0 then s else TrimRight(s[..|s| - n])
  }

  function TrimSpace(s: Bytes): Bytes {
    TrimRight(TrimLeft(s))
  }

  lemma {:induction false} TrimLeftLength(s: Bytes)
    ensures |TrimLeft(s)| <= |s|
    decreases |s|
  {
    if SpacePrefix(s) > 0 {
      TrimLeftLength(s[SpacePrefix(s)..]);
    }
  }

  lemma {:induction false} TrimRightLength(s: Bytes)
    ensures |TrimRight(s)| <= |s|
    decreases |s|
  {
    if SpaceSuffix(s) > 0 {
      TrimRightLength(s[..|s| - SpaceSuffix(s)]);
    }
  }

  lemma TrimSpaceLength(s: Bytes)
    ensures |TrimSpace(s)| <= |s|
  {
    TrimLeftLength(s);
    TrimRightLength(TrimLeft(s));
  }

  /** Printable ASCII without blanks is left alone. */
  lemma TrimSpaceId(s: Bytes)
    requires forall b <- s :: 0x21 <= b <= 0x7E
    ensures TrimSpace(s) == s
  {
    if s != [] {
      assert s[0] in s && s[|s| - 1] in s;
      if SpaceSuffix(s) > 0 {
        SpaceSuffixByte(s);
      }
    }
  }

  predicate AllAsciiSpace(s: Bytes) {
    forall i :: 0 <= i < |s| ==> IsAsciiSpace(s[i])
  }

  predicate AllGraphic(s: Bytes) {
    forall i :: 0 <= i < |s| ==> 0x21 <= s[i] <= 0x7E
  }

  lemma {:induction false} TrimLeftPadded(a: Bytes, s: Bytes)
    requires AllAsciiSpace(a)
    ensures TrimLeft(a + s) == TrimLeft(s)
    decreases |a|
  {
    if a == [] {
      assert a + s == s;
    } else {
      assert (a + s)[1..] == a[1..] + s;
      TrimLeftPadded(a[1..], s);
    }
  }

  lemma {:induction false} TrimRightPadded(s: Bytes, b: Bytes)
    requires AllAsciiSpace(b)
    ensures TrimRight(s + b) == TrimRight(s)
    decreases |b|
  {
    if b == [] {
      assert s + b == s;
    } else {
      assert (s + b)[..|s + b| - 1] == s + b[..|b| - 1];
      TrimRightPadded(s, b[..|b| - 1]);
    }
  }

  /** White space around a text without blanks is removed. */
  lemma TrimSpacePadded(a: Bytes, s: Bytes, b: Bytes)
    requires AllAsciiSpace(a) && AllGraphic(s) && AllAsciiSpace(b)
    ensures TrimSpace(a + s + b) == s
  {
    assert a + s + b == a + (s + b);
    TrimLeftPadded(a, s + b);
    if s == [] {
      assert s + b == b + [];
      TrimLeftPadded(b, []);
    } else {
      assert (s + b)[0] == s[0];
      TrimRightPadded(s, b);
      if SpaceSuffix(s) > 0 {
        SpaceSuffixByte(s);
      }
    }
  }

  // ---------------------------------------------------------------------------
  // utf8.DecodeRuneInString and string(rune)
  // ---------------------------------------------------------------------------

  const RUNE_ERROR := 0xFFFD

  predicate IsContinuation(b: Byte) {
    0x80 <= b <= 0xBF
  }

  /** The range of the second byte after lead byte `b`, by well-formed UTF-8. */
  predicate IsSecond(b: Byte, c: Byte) {
    if b == 0xE0 then 0xA0 <= c <= 0xBF
    else if b == 0xED then 0x80 <= c <= 0x9F
    else if b == 0xF0 then 0x90 <= c <= 0xBF
    else if b == 0xF4 then 0x80 <= c <= 0x8F
    else IsContinuation(c)
  }

  /** The rune that `s` starts with and its width; (RUNE_ERROR, 1) for invalid UTF-8. */
  function DecodeRune(s: Bytes): (r: (nat, nat))
    requires s != []
    ensures 1 <= r.1 <= |s|
    ensures s[0] < 0x80 ==> r == (s[0], 1)
    ensures s[0] >= 0x80 ==> r.0 >= 0x80
    ensures forall i :: 0 < i < r.1 ==> s[i] >= 0x80
  {
    var b := s[0];
    if b < 0x80 then (b, 1)
    else if 0xC2 <= b <= 0xDF && |s| >= 2 && IsContinuation(s[1]) then
      ((b as int - 0xC0) * 64 + (s[1] as int - 0x80), 2)
    else if 0xE0 <= b <= 0xEF && |s| >= 3 && IsSecond(b, s[1]) && IsContinuation(s[2]) then
      ((b as int - 0xE0) * 4096 + (s[1] as int - 0x80) * 64 + (s[2] as int - 0x80), 3)
    else if 0xF0 <= b <= 0xF4 && |s| >= 4 && IsSecond(b, s[1]) && IsContinuation(s[2]) && IsContinuation(s[3]) then
      ((b as int - 0xF0) * 262144 + (s[1] as int - 0x80) * 4096 + (s[2] as int - 0x80) * 64 + (s[3] as int - 0x80), 4)
    else (RUNE_ERROR, 1)
  }

  function EncodeRune(r: nat): (s: Bytes)
    ensures s != []
    ensures r < 0x80 ==> s == [r]
    ensures r >= 0x80 ==> s[0] >= 0x80
  {
    if r < 0x80 then [r]
    else if r < 0x800 then [0xC0 + r / 64, 0x80 + r % 64]
    else if r < 0x10000 && !(0xD800 <= r < 0xE000) then [0xE0 + r / 4096, 0x80 + r / 64 % 64, 0x80 + r % 64]
    else if 0x10000 <= r <= 0x10FFFF then
      [0xF0 + r / 262144, 0x80 + r / 4096 % 64, 0x80 + r / 64 % 64, 0x80 + r % 64]
    else [0xEF, 0xBF, 0xBD]
  }
}
