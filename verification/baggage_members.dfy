/** Reading and printing one list-member of a baggage-string (internal/otel/baggage/baggage.go). */
module BaggageMembers {
  import opened GoStrings
  import opened PercentEncoding
  import opened BaggageSyntax
  import opened Wrappers

  /** A property as a baggage list stores it: without the mark that it has data. */
  datatype ItemProperty = ItemProperty(key: Bytes, value: Bytes, hasValue: bool)

  datatype Item = Item(value: Bytes, properties: seq<ItemProperty>)

  const NO_BLANKS := Blanks([], [], [], [])

  const NO_PROPERTY := Property([], [], false, false)

  function Stored(p: Property): ItemProperty {
    ItemProperty(p.key, p.value, p.hasValue)
  }

  /** asInternal. */
  function AsInternal(props: seq<Property>): seq<ItemProperty> {
    if props == [] then [] else [Stored(props[0])] + AsInternal(props[1..])
  }

  function ItemOf(m: Member): Item {
    Item(m.value, AsInternal(m.properties))
  }

  // ---------------------------------------------------------------------------
  // Printing
  // ---------------------------------------------------------------------------

  function PrintProperty(p: ItemProperty): Bytes {
    if p.hasValue then p.key + [EQUALS] + p.value else p.key
  }

  function PrintProperties(props: seq<ItemProperty>): (r: seq<Bytes>)
    ensures |r| == |props|
  {
    if props == [] then [] else [PrintProperty(props[0])] + PrintProperties(props[1..])
  }

  /** The part of a member before its properties. */
  function PrintHead(key: Bytes, value: Bytes): Bytes {
    key + [EQUALS] + Encode(value)
  }

  /** The properties of a member, joined. */
  function PrintTail(props: seq<ItemProperty>): Bytes {
    Join(PrintProperties(props), SEMICOLON)
  }

  function PrintMember(key: Bytes, item: Item): Bytes {
    if item.properties == [] then PrintHead(key, item.value)
    else PrintHead(key, item.value) + [SEMICOLON] + PrintTail(item.properties)
  }

  // ---------------------------------------------------------------------------
  // Reading
  // ---------------------------------------------------------------------------

  function ReadProperties(parts: seq<Bytes>): Result<seq<Property>> {
    if parts == [] then Ok([])
    else
      var p := ParseProperty(parts[0]);
      if p.Err? then Err(p.error)
      else
        var rest := ReadProperties(parts[1..]);
        if rest.Err? then rest else Ok([p.value] + rest.value)
  }

  /** The properties after the first semicolon, if there is one. */
  function ReadTail(tail: Option<Bytes>): Result<seq<Property>> {
    if tail.None? then Ok([]) else ReadProperties(Split(tail.value, SEMICOLON))
  }

  /** The key and the decoded value before the properties. */
  function ReadHead(head: Bytes): Result<(Bytes, Bytes)> {
    var (k, v) := Cut(head, EQUALS);
    if v.None? then Err(InvalidMember)
    else if !MatchesKey(TrimSpace(k)) then Err(InvalidKey)
    else if !MatchesValue(TrimSpace(v.value)) then Err(InvalidValue)
    else
      var decoded := PathUnescape(TrimSpace(v.value));
      if decoded.None? then Err(BadEscape) else Ok((TrimSpace(k), decoded.value))
  }

  /** What parseMember returns. */
  function ReadMember(s: Bytes): Result<Member> {
    if |s| > MAX_BYTES_PER_MEMBERS then Err(MemberBytes)
    else
      var (head, tail) := Cut(s, SEMICOLON);
      var props := ReadTail(tail);
      if props.Err? then Err(props.error)
      else
        var h := ReadHead(head);
        if h.Err? then Err(h.error) else Ok(Member(h.value.0, h.value.1, props.value, true))
  }

  /** Properties are read left to right; the first error ends the reading. */
  lemma {:induction false} ReadPropertiesSnoc(parts: seq<Bytes>, last: Bytes)
    requires ReadProperties(parts).Ok?
    ensures ParseProperty(last).Err? ==> ReadProperties(parts + [last]) == Err(ParseProperty(last).error)
    ensures ParseProperty(last).Ok? ==>
      ReadProperties(parts + [last]) == Ok(ReadProperties(parts).value + [ParseProperty(last).value])
  {
    if parts == [] {
      assert [last][1..] == [] && [] + [last] == [last];
      if ParseProperty(last).Ok? {
        assert [ParseProperty(last).value] + [] == [] + [ParseProperty(last).value];
      }
    } else {
      assert (parts + [last])[1..] == parts[1..] + [last] && (parts + [last])[0] == parts[0];
      ReadPropertiesSnoc(parts[1..], last);
      var p, rest := ParseProperty(parts[0]).value, ReadProperties(parts[1..]).value;
      if ParseProperty(last).Ok? {
        assert [p] + (rest + [ParseProperty(last).value]) == ([p] + rest) + [ParseProperty(last).value];
      }
    }
  }

  lemma {:induction false} ReadPropertiesError(parts: seq<Bytes>, rest: seq<Bytes>)
    requires ReadProperties(parts).Err?
    ensures ReadProperties(parts + rest) == ReadProperties(parts)
  {
    assert (parts + rest)[1..] == parts[1..] + rest;
    if ParseProperty(parts[0]).Ok? {
      ReadPropertiesError(parts[1..], rest);
    }
  }

  lemma ReadPropertiesStep(parts: seq<Bytes>, i: nat)
    requires i < |parts| && ReadProperties(parts[..i]).Ok?
    ensures ParseProperty(parts[i]).Err? ==> ReadProperties(parts) == Err(ParseProperty(parts[i]).error)
    ensures ParseProperty(parts[i]).Ok? ==>
      ReadProperties(parts[..i + 1]) == Ok(ReadProperties(parts[..i]).value + [ParseProperty(parts[i]).value])
  {
    TakeNext(parts, i);
    SplitAt(parts, i + 1);
    ReadPropertiesSnoc(parts[..i], parts[i]);
    if ParseProperty(parts[i]).Err? {
      ReadPropertiesError(parts[..i + 1], parts[i + 1..]);
    }
  }

  /** The property loop of parseMember. */
  method ParseProperties(parts: seq<Bytes>) returns (r: Result<seq<Property>>)
    ensures r == ReadProperties(parts)
  {
    var props := [];
    for i := 0 to |parts|
      invariant ReadProperties(parts[..i]) == Ok(props)
    {
      var p := ParseProperty(parts[i]);
      ReadPropertiesStep(parts, i);
      if p.Err? {
        return Err(p.error);
      }
      props := props + [p.value];
    }
    assert parts[..|parts|] == parts;
    r := Ok(props);
  }

  /** parseMember: the properties are read before the key and the value. */
  method ParseMember(member: Bytes) returns (r: Result<Member>)
    ensures r == ReadMember(member)
  {
    if |member| > MAX_BYTES_PER_MEMBERS {
      return Err(MemberBytes);
    }
    var (head, tail) := Cut(member, SEMICOLON);
    var props: Result<seq<Property>> := Ok([]);
    if tail.Some? {
      props := ParseProperties(Split(tail.value, SEMICOLON));
    }
    if props.Err? {
      return Err(props.error);
    }
    var h := ReadHead(head);
    r := if h.Err? then Err(h.error) else Ok(Member(h.value.0, h.value.1, props.value, true));
  }

  // ---------------------------------------------------------------------------
  // One property: reading undoes printing
  // ---------------------------------------------------------------------------

  /** A property that parseProperty can return, as it is stored. */
  predicate ValidProperty(p: ItemProperty) {
    if p.key == [] then p == Stored(NO_PROPERTY)
    else MatchesKey(p.key) && MatchesValue(p.value) && (!p.hasValue ==> p.value == [])
  }

  /** The property with its mark; only the property of the empty string has no data. */
  function Marked(p: ItemProperty): Property {
    Property(p.key, p.value, p.hasValue, p.key != [])
  }

  lemma PlainKeyValue(key: Bytes, value: Bytes)
    ensures KeyValueText(NO_BLANKS, key, value) == key + [EQUALS] + value
  {
    assert [] + (value + []) == value;
  }

  lemma PropertyRoundTrip(p: ItemProperty)
    requires ValidProperty(p)
    ensures ParseProperty(PrintProperty(p)) == Ok(Marked(p))
  {
    if p.key == [] {
    } else if p.hasValue {
      PlainKeyValue(p.key, p.value);
      MatchKeyValueComplete(NO_BLANKS, p.key, p.value);
    } else {
      MatchKeyComplete(NO_BLANKS, p.key);
      assert KeyText(NO_BLANKS, p.key) == p.key;
    }
  }

  /** A parsed property is valid, and printing it again takes no more room than its source. */
  lemma PropertyShrinks(s: Bytes, p: Property)
    requires ParseProperty(s) == Ok(p)
    ensures ValidProperty(Stored(p)) && Marked(Stored(p)) == p
    ensures |PrintProperty(Stored(p))| <= |s|
  {
    if s != [] {
      if p.hasValue {
        var w := MatchKeyValueSound(s, p.key, p.value);
      } else {
        MatchSound(s);
        var w := MatchKeySound(s, p.key);
      }
    }
  }

  /** The characters of printed properties: neither comma nor semicolon. */
  lemma PropertyCharacters(p: ItemProperty)
    requires ValidProperty(p)
    ensures COMMA !in PrintProperty(p) && SEMICOLON !in PrintProperty(p)
  {
  }

  // ---------------------------------------------------------------------------
  // The properties of a member
  // ---------------------------------------------------------------------------

  predicate ValidProperties(props: seq<ItemProperty>) {
    forall i :: 0 <= i < |props| ==> ValidProperty(props[i])
  }

  function MarkedAll(props: seq<ItemProperty>): seq<Property> {
    if props == [] then [] else [Marked(props[0])] + MarkedAll(props[1..])
  }

  lemma {:induction false} MarkedStored(props: seq<ItemProperty>)
    ensures AsInternal(MarkedAll(props)) == props
  {
    if props != [] {
      MarkedStored(props[1..]);
      assert MarkedAll(props)[1..] == MarkedAll(props[1..]);
      assert [props[0]] + props[1..] == props;
    }
  }

  lemma {:induction false} PropertiesRoundTrip(props: seq<ItemProperty>)
    requires ValidProperties(props)
    ensures ReadProperties(PrintProperties(props)) == Ok(MarkedAll(props))
  {
    if props != [] {
      PropertyRoundTrip(props[0]);
      PropertiesRoundTrip(props[1..]);
      assert PrintProperties(props)[1..] == PrintProperties(props[1..]);
    }
  }

  lemma {:induction false} PropertiesShrink(parts: seq<Bytes>, props: seq<Property>)
    requires ReadProperties(parts) == Ok(props)
    ensures ValidProperties(AsInternal(props)) && MarkedAll(AsInternal(props)) == props
    ensures |AsInternal(props)| == |parts|
    ensures JoinedLength(PrintProperties(AsInternal(props))) <= JoinedLength(parts)
  {
    if parts != [] {
      var p, rest := ParseProperty(parts[0]).value, ReadProperties(parts[1..]).value;
      PropertyShrinks(parts[0], p);
      PropertiesShrink(parts[1..], rest);
      assert props[1..] == rest && AsInternal(props)[1..] == AsInternal(rest);
      assert PrintProperties(AsInternal(props))[1..] == PrintProperties(AsInternal(rest));
    }
  }

  lemma {:induction false} PropertiesCharacters(props: seq<ItemProperty>)
    requires ValidProperties(props)
    ensures forall i :: 0 <= i < |props| ==>
      COMMA !in PrintProperties(props)[i] && SEMICOLON !in PrintProperties(props)[i]
  {
    if props != [] {
      PropertyCharacters(props[0]);
      PropertiesCharacters(props[1..]);
    }
  }

  lemma {:induction false} JoinCharacters(parts: seq<Bytes>, sep: Byte, b: Byte)
    requires b != sep && forall i :: 0 <= i < |parts| ==> b !in parts[i]
    ensures b !in Join(parts, sep)
  {
    if |parts| > 1 {
      JoinCharacters(parts[1..], sep, b);
    }
  }

  /** The printed properties hold no comma, and are read back from the text after the first semicolon. */
  lemma TailRoundTrip(props: seq<ItemProperty>)
    requires ValidProperties(props) && props != []
    ensures ReadTail(Some(PrintTail(props))) == Ok(MarkedAll(props))
    ensures COMMA !in PrintTail(props)
  {
    PropertiesCharacters(props);
    SplitJoin(PrintProperties(props), SEMICOLON);
    PropertiesRoundTrip(props);
    JoinCharacters(PrintProperties(props), SEMICOLON, COMMA);
  }

  lemma TailShrinks(tail: Bytes, props: seq<Property>)
    requires ReadTail(Some(tail)) == Ok(props)
    ensures ValidProperties(AsInternal(props)) && MarkedAll(AsInternal(props)) == props
    ensures AsInternal(props) != [] && |PrintTail(AsInternal(props))| <= |tail|
  {
    var parts := Split(tail, SEMICOLON);
    PropertiesShrink(parts, props);
    SplitLength(tail, SEMICOLON);
    JoinLength(PrintProperties(AsInternal(props)), SEMICOLON);
  }

  // ---------------------------------------------------------------------------
  // A whole member
  // ---------------------------------------------------------------------------

  predicate ValidItem(key: Bytes, item: Item) {
    MatchesKey(key) && ValidProperties(item.properties)
  }

  /** The member that a valid item stands for. */
  function MemberFor(key: Bytes, item: Item): Member {
    Member(key, item.value, MarkedAll(item.properties), true)
  }

  lemma HeadCharacters(key: Bytes, value: Bytes)
    requires MatchesKey(key)
    ensures COMMA !in PrintHead(key, value) && SEMICOLON !in PrintHead(key, value)
  {
    EncodeMatches(value);
  }

  lemma HeadRoundTrip(key: Bytes, value: Bytes)
    requires MatchesKey(key)
    ensures ReadHead(PrintHead(key, value)) == Ok((key, value))
  {
    EncodeMatches(value);
    UnescapeEncode(value);
    CutAt(key, EQUALS, Encode(value));
    TrimSpaceId(key);
    TrimSpaceId(Encode(value));
  }

  /** White space around the key and around the value is not part of them. */
  lemma HeadPadded(a: Bytes, key: Bytes, b: Bytes, c: Bytes, value: Bytes, d: Bytes)
    requires AllAsciiSpace(a) && AllAsciiSpace(b) && AllAsciiSpace(c) && AllAsciiSpace(d)
    requires MatchesKey(key)
    ensures ReadHead((a + key + b) + [EQUALS] + (c + Encode(value) + d)) == Ok((key, value))
  {
    EncodeMatches(value);
    UnescapeEncode(value);
    CutAt(a + key + b, EQUALS, c + Encode(value) + d);
    TrimSpacePadded(a, key, b);
    TrimSpacePadded(c, Encode(value), d);
  }

  lemma HeadShrinks(head: Bytes, key: Bytes, value: Bytes)
    requires ReadHead(head) == Ok((key, value))
    ensures MatchesKey(key) && |PrintHead(key, value)| <= |head|
  {
    var (k, v) := Cut(head, EQUALS);
    TrimSpaceLength(k);
    TrimSpaceLength(v.value);
    ReencodeLength(TrimSpace(v.value));
  }

  lemma SplitMember(key: Bytes, item: Item)
    requires ValidItem(key, item)
    ensures var (head, tail) := Cut(PrintMember(key, item), SEMICOLON);
      head == PrintHead(key, item.value) && ReadTail(tail) == Ok(MarkedAll(item.properties))
    ensures COMMA !in PrintMember(key, item)
  {
    var head := PrintHead(key, item.value);
    HeadCharacters(key, item.value);
    if item.properties == [] {
      CutAt(head, SEMICOLON, []);
    } else {
      TailRoundTrip(item.properties);
      CutAt(head, SEMICOLON, PrintTail(item.properties));
    }
  }

  lemma {:induction false} PropertiesError(parts: seq<Bytes>)
    ensures ReadProperties(parts).Err? ==> ReadProperties(parts).error == InvalidProperty
  {
    if parts != [] {
      PropertiesError(parts[1..]);
    }
  }

  /** A list-member is refused for its size exactly if it has more than 4096 octets, and otherwise only for
      what it says. */
  lemma MemberErrors(s: Bytes)
    ensures ReadMember(s) == Err(MemberBytes) <==> |s| > 4096
    ensures ReadMember(s).Err? ==>
      ReadMember(s).error in {MemberBytes, InvalidProperty, InvalidMember, InvalidKey, InvalidValue, BadEscape}
  {
    var (head, tail) := Cut(s, SEMICOLON);
    if tail.Some? {
      PropertiesError(Split(tail.value, SEMICOLON));
    }
  }

  /** A printed member is read back as the member that was printed, exactly when it is
      within the limit on a list-member. */
  lemma MemberRoundTrip(key: Bytes, item: Item)
    requires ValidItem(key, item)
    ensures ReadMember(PrintMember(key, item)) ==
      if |PrintMember(key, item)| <= MAX_BYTES_PER_MEMBERS then Ok(MemberFor(key, item)) else Err(MemberBytes)
    ensures ItemOf(MemberFor(key, item)) == item
    ensures PrintMember(key, item) != [] && COMMA !in PrintMember(key, item)
  {
    SplitMember(key, item);
    HeadRoundTrip(key, item.value);
    MarkedStored(item.properties);
  }

  /** Printing a member that was read never takes more room than its source. */
  lemma MemberShrinks(s: Bytes, m: Member)
    requires ReadMember(s) == Ok(m)
    ensures ValidItem(m.key, ItemOf(m)) && MemberFor(m.key, ItemOf(m)) == m
    ensures |PrintMember(m.key, ItemOf(m))| <= |s| <= MAX_BYTES_PER_MEMBERS
  {
    var (head, tail) := Cut(s, SEMICOLON);
    HeadShrinks(head, m.key, m.value);
    if tail.Some? {
      TailShrinks(tail.value, m.properties);
    }
  }
}
