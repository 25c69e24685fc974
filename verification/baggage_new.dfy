/** NewMember and New (internal/otel/baggage/baggage.go), and when what they build can be
    parsed after printing. */
module BaggageConstruction {
  import opened GoStrings
  import opened PercentEncoding
  import opened BaggageSyntax
  import opened BaggageMembers
  import opened Baggages
  import opened Wrappers

  // ---------------------------------------------------------------------------
  // NewMember
  // ---------------------------------------------------------------------------

  /** Property.validate; None is success. */
  function ValidateProperty(p: Property): Option<Error> {
    if !p.hasData then Some(InvalidProperty)
    else if !MatchesKey(p.key) then Some(InvalidKey)
    else if p.hasValue && !MatchesValue(p.value) then Some(InvalidValue)
    else if !p.hasValue && p.value != [] then Some(InconsistentValue)
    else None
  }

  function ValidateProperties(props: seq<Property>): Option<Error> {
    if props == [] then None
    else if ValidateProperty(props[0]).Some? then ValidateProperty(props[0])
    else ValidateProperties(props[1..])
  }

  function ValidateMember(m: Member): Option<Error> {
    if !m.hasData then Some(InvalidMember)
    else if !MatchesKey(m.key) then Some(InvalidKey)
    else ValidateProperties(m.properties)
  }

  function NewMember(key: Bytes, value: Bytes, props: seq<Property>): Result<Member> {
    var m := Member(key, value, props, true);
    var e := ValidateMember(m);
    if e.Some? then Err(e.value) else Ok(m)
  }

  lemma {:induction false} ValidatedProperties(props: seq<Property>)
    requires ValidateProperties(props).None?
    ensures ValidProperties(AsInternal(props)) && MarkedAll(AsInternal(props)) == props
  {
    if props != [] {
      ValidatedProperties(props[1..]);
      assert AsInternal(props)[1..] == AsInternal(props[1..]);
      assert [props[0]] + props[1..] == props;
    }
  }

  // ---------------------------------------------------------------------------
  // New
  // ---------------------------------------------------------------------------

  /** The last member of a key wins. */
  function Collect(members: seq<Member>): List {
    if members == [] then map[]
    else
      var m := members[|members| - 1];
      Collect(members[..|members| - 1])[m.key := ItemOf(m)]
  }

  /** Some order of the keys prints to more than the limit; by PrintedLengths every order does. */
  ghost predicate TooLong(list: List) {
    exists s: Bytes :: IsPrinted(list, s) && |s| > MAX_BYTES_PER_BAGGAGE_STRING
  }

  /** What New returns. */
  ghost function Built(members: seq<Member>): Result<List> {
    if exists i :: 0 <= i < |members| && !members[i].hasData then Err(InvalidMember)
    else if |Collect(members)| > MAX_MEMBERS then Err(MemberNumber)
    else if TooLong(Collect(members)) then Err(BaggageBytes)
    else Ok(Collect(members))
  }

  lemma RoomSnoc(list: List, a: seq<Bytes>)
    requires Within(a, list) && a != []
    ensures var n := |a| - 1;
      Room(list, a) == Room(list, a[..n]) + |PrintMember(a[n], list[a[n]])| + 1
  {
    JoinedLengthSnoc(PrintAll(list, a));
    ConcatPrefix(PrintAll(list, a[..|a| - 1]), [PrintMember(a[|a| - 1], list[a[|a| - 1]])]);
  }

  lemma {:induction false} RoomSubset(list: List, a: seq<Bytes>, b: seq<Bytes>)
    requires Distinct(a) && Within(a, list) && Distinct(b) && Within(b, list)
    requires forall i :: 0 <= i < |a| ==> a[i] in b
    ensures Room(list, a) <= Room(list, b)
  {
    if a != [] {
      var n := |a| - 1;
      assert a[n] in b;
      var i :| 0 <= i < |b| && b[i] == a[n];
      var rest := Remove(b, i);
      RoomWithout(list, b[..i], a[n], b[i + 1..]);
      RoomSubset(list, a[..n], rest);
      RoomSnoc(list, a);
    }
  }

  /** The length of a printed list does not depend on the order in which the map is iterated. */
  lemma PrintedLengths(list: List, s: Bytes, t: Bytes)
    requires IsPrinted(list, s) && IsPrinted(list, t)
    ensures |s| == |t|
  {
    var a: seq<Bytes> :| Enumerates(a, list) && s == Join(PrintAll(list, a), COMMA);
    var b: seq<Bytes> :| Enumerates(b, list) && t == Join(PrintAll(list, b), COMMA);
    RoomSubset(list, a, b);
    RoomSubset(list, b, a);
    if a != [] && b != [] {
      JoinLength(PrintAll(list, a), COMMA);
      JoinLength(PrintAll(list, b), COMMA);
    }
  }

  method New(members: seq<Member>) returns (r: Result<List>)
    ensures r == Built(members)
  {
    if |members| == 0 {
      assert !TooLong(map[]) by {
        if TooLong(map[]) {
          var s: Bytes :| IsPrinted(map[], s) && |s| > MAX_BYTES_PER_BAGGAGE_STRING;
          EmptyPrint(s);
        }
      }
      return Ok(map[]);
    }
    var b: List := map[];
    for i := 0 to |members|
      invariant forall j :: 0 <= j < i ==> members[j].hasData
      invariant b == Collect(members[..i])
    {
      var m := members[i];
      if !m.hasData {
        return Err(InvalidMember);
      }
      assert members[..i + 1][..i] == members[..i];
      b := b[m.key := ItemOf(m)];
    }
    assert members[..|members|] == members;
    if |b| > MAX_MEMBERS {
      return Err(MemberNumber);
    }
    var s, order := String(b);
    if TooLong(b) {
      var t: Bytes :| IsPrinted(b, t) && |t| > MAX_BYTES_PER_BAGGAGE_STRING;
      PrintedLengths(b, s, t);
    }
    r := if |s| > MAX_BYTES_PER_BAGGAGE_STRING then Err(BaggageBytes) else Ok(b);
  }

  // ---------------------------------------------------------------------------
  // Printing what New built
  // ---------------------------------------------------------------------------

  ghost predicate Validated(members: seq<Member>) {
    forall i :: 0 <= i < |members| ==> ValidateMember(members[i]).None?
  }

  lemma {:induction false} CollectValid(members: seq<Member>)
    requires Validated(members)
    ensures ValidList(Collect(members))
  {
    if members != [] {
      var n := |members| - 1;
      CollectValid(members[..n]);
      ValidatedProperties(members[n].properties);
    }
  }

  /** What New built from validated members is read back after printing exactly when every
      printed member is within the limit on a list-member, which New does not check. */
  lemma NewStringParse(members: seq<Member>, list: List, s: Bytes)
    requires Validated(members) && Built(members) == Ok(list) && IsPrinted(list, s)
    ensures ReadBaggage(s) == if MembersFit(list) then Ok(list) else Err(MemberBytes)
  {
    CollectValid(members);
    ParsePrinted(list, s);
  }

  lemma {:induction false} EncodePlain(s: Bytes)
    requires forall i :: 0 <= i < |s| ==> IsPlain(s[i])
    ensures Encode(s) == s
  {
    if s != [] {
      EncodePlain(s[1..]);
      assert [s[0]] + s[1..] == s;
    }
  }

  lemma SinglePrinted(key: Bytes, item: Item, s: Bytes)
    requires IsPrinted(map[key := item], s)
    ensures |s| == |PrintMember(key, item)|
  {
    var list := map[key := item];
    assert Enumerates([key], list);
    assert PrintAll(list, [key]) == [PrintMember(key, list[key])];
    assert IsPrinted(list, Join(PrintAll(list, [key]), COMMA));
    PrintedLengths(list, s, Join(PrintAll(list, [key]), COMMA));
  }

  lemma SingleBuilt(m: Member)
    requires m.hasData && |PrintMember(m.key, ItemOf(m))| <= MAX_BYTES_PER_BAGGAGE_STRING
    ensures Built([m]) == Ok(map[m.key := ItemOf(m)])
  {
    var list := map[m.key := ItemOf(m)];
    assert [m][..0] == [];
    assert Collect([m]) == list;
    assert |list| == 1 by { assert list.Keys == {m.key}; }
    if TooLong(list) {
      var s: Bytes :| IsPrinted(list, s) && |s| > MAX_BYTES_PER_BAGGAGE_STRING;
      SinglePrinted(m.key, ItemOf(m), s);
    }
  }

  /** One member of 4097 octets: New accepts it, and no printing of it can be parsed. */
  lemma NewAcceptsTooLargeMember()
    ensures var members := [Member([0x6B], seq(4095, i => 0x61), [], true)];
      Validated(members) && Built(members).Ok? &&
      forall s: Bytes :: IsPrinted(Built(members).value, s) ==> ReadBaggage(s) == Err(MemberBytes)
  {
    var value: Bytes := seq(4095, i => 0x61);
    var m := Member([0x6B], value, [], true);
    EncodePlain(value);
    assert |PrintMember(m.key, ItemOf(m))| == 4097;
    SingleBuilt(m);
    var list := map[m.key := ItemOf(m)];
    forall s: Bytes | IsPrinted(list, s)
      ensures ReadBaggage(s) == Err(MemberBytes)
    {
      NewStringParse([m], list, s);
    }
  }
}
