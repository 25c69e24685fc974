/** Properties and members of a baggage-string (internal/otel/baggage/baggage.go),
    by the "Header Content" section of W3C Baggage. */
module BaggageSyntax {
  import opened GoStrings
  import opened PercentEncoding
  import opened Wrappers

  const MAX_MEMBERS: nat := 180
  const MAX_BYTES_PER_MEMBERS: nat := 4096
  const MAX_BYTES_PER_BAGGAGE_STRING: nat := 8192

  const COMMA: Byte := 0x2C
  const SEMICOLON: Byte := 0x3B
  const EQUALS: Byte := 0x3D

  datatype Error =
    | InvalidKey | InvalidValue | InvalidProperty | InvalidMember
    | InconsistentValue | MemberNumber | MemberBytes | BaggageBytes | BadEscape

  datatype Result<+T> = Ok(value: T) | Err(error: Error)

  /** `hasData` is false in a property that was parsed from the empty string. */
  datatype Property = Property(key: Bytes, value: Bytes, hasValue: bool, hasData: bool)

  datatype Member = Member(key: Bytes, value: Bytes, properties: seq<Property>, hasData: bool)

  // ---------------------------------------------------------------------------
  // Character classes
  // ---------------------------------------------------------------------------

  predicate IsKeyChar(b: Byte) {
    || b == 0x21 || 0x23 <= b <= 0x27 || b == 0x2A || b == 0x2B || b == 0x2D || b == 0x2E
    || 0x30 <= b <= 0x39 || 0x41 <= b <= 0x5A || 0x5E <= b <= 0x7A || b == 0x7C || b == 0x7E
  }

  /** The class `\s` of Go's regular expressions: it lacks the vertical tab. */
  predicate IsBlank(b: Byte) {
    b == 0x09 || b == 0x0A || b == 0x0C || b == 0x0D || b == 0x20
  }

  predicate MatchesKey(s: Bytes) {
    s != [] && forall i :: 0 <= i < |s| ==> IsKeyChar(s[i])
  }

  predicate AllBlank(s: Bytes) {
    forall i :: 0 <= i < |s| ==> IsBlank(s[i])
  }

  datatype CharClass = KeyClass | ValueClass | BlankClass

  predicate In(b: Byte, c: CharClass) {
    match c
    case KeyClass => IsKeyChar(b)
    case ValueClass => IsValueChar(b)
    case BlankClass => IsBlank(b)
  }

  /** The length of the longest prefix of `s` in class `c`. */
  function Span(s: Bytes, c: CharClass): (n: nat)
    ensures n <= |s|
  {
    if s == [] || !In(s[0], c) then 0 else 1 + Span(s[1..], c)
  }

  lemma {:induction false} SpanIn(s: Bytes, c: CharClass)
    ensures forall i :: 0 <= i < Span(s, c) ==> In(s[i], c)
    ensures Span(s, c) < |s| ==> !In(s[Span(s, c)], c)
  {
    if s != [] && In(s[0], c) {
      SpanIn(s[1..], c);
      assert s == [s[0]] + s[1..];
    }
  }

  lemma {:induction false} SpanExact(x: Bytes, y: Bytes, c: CharClass)
    requires forall i :: 0 <= i < |x| ==> In(x[i], c)
    requires y == [] || !In(y[0], c)
    ensures Span(x + y, c) == |x| && (x + y)[..|x|] == x && (x + y)[|x|..] == y
  {
    if x == [] {
      assert x + y == y;
    } else {
      assert (x + y)[1..] == x[1..] + y;
      SpanExact(x[1..], y, c);
    }
  }

  function SkipBlanks(s: Bytes): Bytes {
    s[Span(s, BlankClass)..]
  }

  lemma SkipBlanksExact(x: Bytes, y: Bytes)
    requires AllBlank(x) && (y == [] || !IsBlank(y[0]))
    ensures SkipBlanks(x + y) == y
  {
    SpanExact(x, y, BlankClass);
  }

  // ---------------------------------------------------------------------------
  // Properties
  // ---------------------------------------------------------------------------

  /** The value after an equals sign, with blanks around it. */
  function MatchValueTail(s: Bytes): Option<Bytes> {
    var s1 := SkipBlanks(s);
    var v := Span(s1, ValueClass);
    if SkipBlanks(s1[v..]) == [] then Some(s1[..v]) else None
  }

  /** What may follow a key: blanks, an equals sign and a value. */
  function MatchEqualsTail(s: Bytes): Option<Bytes> {
    var s1 := SkipBlanks(s);
    if s1 != [] && s1[0] == EQUALS then MatchValueTail(s1[1..]) else None
  }

  /** propertyRe with its alternatives tried in order: a key, or a key and a value. */
  function MatchProperty(s: Bytes): Option<Property> {
    var s1 := SkipBlanks(s);
    var k := Span(s1, KeyClass);
    if k == 0 then None
    else if SkipBlanks(s1[k..]) == [] then Some(Property(s1[..k], [], false, true))
    else
      var v := MatchEqualsTail(s1[k..]);
      if v.Some? then Some(Property(s1[..k], v.value, true, true)) else None
  }

  function ParseProperty(s: Bytes): Result<Property> {
    if s == [] then Ok(Property([], [], false, false))
    else
      var m := MatchProperty(s);
      if m.None? then Err(InvalidProperty) else Ok(m.value)
  }

  /** The blanks that the expressions allow around a key and around a value. */
  datatype Blanks = Blanks(a: Bytes, b: Bytes, c: Bytes, d: Bytes) {
    predicate Valid() {
      AllBlank(a) && AllBlank(b) && AllBlank(c) && AllBlank(d)
    }
  }

  function ValueText(w: Blanks, value: Bytes): Bytes {
    w.c + (value + w.d)
  }

  /** A text that the expression `\s*key\s*` describes. */
  function KeyText(w: Blanks, key: Bytes): Bytes {
    w.a + (key + w.b)
  }

  /** A text that the expression `\s*key\s*=\s*value\s*` describes. */
  function KeyValueText(w: Blanks, key: Bytes, value: Bytes): Bytes {
    w.a + (key + (w.b + ([EQUALS] + ValueText(w, value))))
  }

  ghost predicate IsKeyProperty(s: Bytes, key: Bytes) {
    MatchesKey(key) && exists w: Blanks :: w.Valid() && s == KeyText(w, key)
  }

  ghost predicate IsKeyValueProperty(s: Bytes, key: Bytes, value: Bytes) {
    MatchesKey(key) && MatchesValue(value) && exists w: Blanks :: w.Valid() && s == KeyValueText(w, key, value)
  }

  lemma BlankSplit(s: Bytes) returns (a: Bytes)
    ensures AllBlank(a) && s == a + SkipBlanks(s)
    ensures SkipBlanks(s) == [] ==> s == a
  {
    SpanIn(s, BlankClass);
    a := s[..Span(s, BlankClass)];
  }

  lemma ClassSplit(s: Bytes, c: CharClass) returns (a: Bytes)
    ensures AllBlank(a)
    ensures var s1 := SkipBlanks(s); var k := Span(s1, c);
      s == a + (s1[..k] + s1[k..]) && forall i :: 0 <= i < k ==> In(s1[..k][i], c)
  {
    a := BlankSplit(s);
    var s1 := SkipBlanks(s);
    SpanIn(s1, c);
    SplitAt(s1, Span(s1, c));
  }

  lemma MatchKeySound(s: Bytes, key: Bytes) returns (w: Blanks)
    requires MatchProperty(s) == Some(Property(key, [], false, true))
    ensures MatchesKey(key) && w.Valid() && s == KeyText(w, key)
  {
    var a := ClassSplit(s, KeyClass);
    var s1 := SkipBlanks(s);
    assert key == s1[..Span(s1, KeyClass)] && |key| == Span(s1, KeyClass) > 0;
    var b := BlankSplit(s1[|key|..]);
    w := Blanks(a, b, [], []);
  }

  lemma ValueTailSound(s: Bytes, value: Bytes) returns (c: Bytes, d: Bytes)
    requires MatchValueTail(s) == Some(value)
    ensures MatchesValue(value) && AllBlank(c) && AllBlank(d) && s == c + (value + d)
  {
    c := ClassSplit(s, ValueClass);
    d := BlankSplit(SkipBlanks(s)[|value|..]);
  }

  lemma EqualsSplit(s: Bytes) returns (b: Bytes, tail: Bytes)
    requires MatchEqualsTail(s).Some?
    ensures AllBlank(b) && s == b + ([EQUALS] + tail) && MatchValueTail(tail) == MatchEqualsTail(s)
  {
    b := BlankSplit(s);
    tail := SkipBlanks(s)[1..];
    HeadTail(SkipBlanks(s));
  }

  lemma EqualsTailSound(s: Bytes, value: Bytes) returns (b: Bytes, c: Bytes, d: Bytes)
    requires MatchEqualsTail(s) == Some(value)
    ensures MatchesValue(value) && AllBlank(b) && AllBlank(c) && AllBlank(d)
    ensures s == b + ([EQUALS] + (c + (value + d)))
  {
    var tail: Bytes;
    b, tail := EqualsSplit(s);
    c, d := ValueTailSound(tail, value);
  }

  lemma PropertyParts(s: Bytes, key: Bytes, value: Bytes)
    requires MatchProperty(s) == Some(Property(key, value, true, true))
    ensures var k := Span(SkipBlanks(s), KeyClass);
      k > 0 && key == SkipBlanks(s)[..k] && MatchEqualsTail(SkipBlanks(s)[k..]) == Some(value)
  {
  }

  lemma MatchKeyValueSound(s: Bytes, key: Bytes, value: Bytes) returns (w: Blanks)
    requires MatchProperty(s) == Some(Property(key, value, true, true))
    ensures MatchesKey(key) && MatchesValue(value) && w.Valid() && s == KeyValueText(w, key, value)
  {
    PropertyParts(s, key, value);
    var a := ClassSplit(s, KeyClass);
    var b, c, d := EqualsTailSound(SkipBlanks(s)[Span(SkipBlanks(s), KeyClass)..], value);
    w := Blanks(a, b, c, d);
  }

  /** The parser finds a key property wherever the expression describes one. */
  lemma MatchKeyComplete(w: Blanks, key: Bytes)
    requires MatchesKey(key) && w.Valid()
    ensures MatchProperty(KeyText(w, key)) == Some(Property(key, [], false, true))
  {
    assert (key + w.b)[0] == key[0] && !IsBlank(key[0]);
    SkipBlanksExact(w.a, key + w.b);
    SpanExact(key, w.b, KeyClass);
    SkipBlanksExact(w.b, []);
    assert w.b + [] == w.b;
  }

  lemma ValueTailComplete(w: Blanks, value: Bytes)
    requires MatchesValue(value) && w.Valid()
    ensures MatchValueTail(ValueText(w, value)) == Some(value)
  {
    if value == [] {
      AllBlankConcat(w.c, w.d);
      assert ValueText(w, value) == (w.c + w.d) + [];
      SkipBlanksExact(w.c + w.d, []);
    } else {
      assert (value + w.d)[0] == value[0] && !IsBlank(value[0]);
      SkipBlanksExact(w.c, value + w.d);
      SpanExact(value, w.d, ValueClass);
      assert w.d + [] == w.d;
      SkipBlanksExact(w.d, []);
    }
  }

  lemma MatchKeyValueComplete(w: Blanks, key: Bytes, value: Bytes)
    requires MatchesKey(key) && MatchesValue(value) && w.Valid()
    ensures MatchProperty(KeyValueText(w, key, value)) == Some(Property(key, value, true, true))
  {
    var s2 := [EQUALS] + ValueText(w, value);
    assert s2[0] == EQUALS && s2[1..] == ValueText(w, value);
    var rest := w.b + s2;
    assert rest[0] == if w.b == [] then EQUALS else w.b[0];
    assert (key + rest)[0] == key[0] && !IsBlank(key[0]);
    SkipBlanksExact(w.a, key + rest);
    SpanExact(key, rest, KeyClass);
    SkipBlanksExact(w.b, s2);
    ValueTailComplete(w, value);
  }

  lemma AllBlankConcat(c: Bytes, d: Bytes)
    requires AllBlank(c) && AllBlank(d)
    ensures AllBlank(c + d)
  {
  }

  lemma MatchSound(s: Bytes)
    requires MatchProperty(s).Some?
    ensures var p := MatchProperty(s).value;
      p.hasData && if p.hasValue then IsKeyValueProperty(s, p.key, p.value) else p.value == [] && IsKeyProperty(s, p.key)
  {
    var p := MatchProperty(s).value;
    if p.hasValue {
      var w := MatchKeyValueSound(s, p.key, p.value);
    } else {
      var w := MatchKeySound(s, p.key);
    }
  }

  /** parseProperty accepts exactly what the two expressions describe, and the empty string. */
  lemma ParsePropertyIff(s: Bytes, p: Property)
    ensures ParseProperty(s) == Ok(p) <==>
      || (s == [] && p == Property([], [], false, false))
      || (s != [] && p.hasData && !p.hasValue && p.value == [] && IsKeyProperty(s, p.key))
      || (s != [] && p.hasData && p.hasValue && IsKeyValueProperty(s, p.key, p.value))
  {
    if s != [] {
      if MatchProperty(s).Some? {
        MatchSound(s);
      }
      if IsKeyProperty(s, p.key) {
        var w: Blanks :| w.Valid() && s == KeyText(w, p.key);
        MatchKeyComplete(w, p.key);
      }
      if IsKeyValueProperty(s, p.key, p.value) {
        var w: Blanks :| w.Valid() && s == KeyValueText(w, p.key, p.value);
        MatchKeyValueComplete(w, p.key, p.value);
      }
    }
  }
}
