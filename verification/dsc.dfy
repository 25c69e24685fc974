/** The baggage header of a DynamicSamplingContext (dynamic_sampling_context.go). */
module DynamicSampling {
  import opened GoStrings
  import opened PercentEncoding
  import opened BaggageSyntax
  import opened BaggageMembers
  import opened Baggages
  import opened BaggageConstruction
  import opened MergeBaggages

  type Entries = map<Bytes, Bytes>

  datatype DynamicSamplingContext = DynamicSamplingContext(entries: Entries, frozen: bool)

  /** "sentry-" */
  const SENTRY_PREFIX: Bytes := [0x73, 0x65, 0x6E, 0x74, 0x72, 0x79, 0x2D]

  lemma PrefixText()
    ensures |SENTRY_PREFIX| == |"sentry-"|
    ensures forall i :: 0 <= i < |SENTRY_PREFIX| ==> SENTRY_PREFIX[i] == "sentry-"[i] as int
  {
    var t := "sentry-";
    assert t[0] == 's' && t[1] == 'e' && t[2] == 'n' && t[3] == 't' && t[4] == 'r' && t[5] == 'y' && t[6] == '-';
  }

  lemma PrefixedKey(k: Bytes)
    ensures MatchesKey(SENTRY_PREFIX + k) <==> forall i :: 0 <= i < |k| ==> IsKeyChar(k[i])
  {
    assert forall i :: 0 <= i < |k| ==> (SENTRY_PREFIX + k)[|SENTRY_PREFIX| + i] == k[i];
  }

  /** The entries are the values of the keys with the prefix, which is removed. */
  ghost predicate SentryEntries(list: List, entries: Entries) {
    && (forall k :: k in entries <==> SENTRY_PREFIX + k in list)
    && (forall k :: k in entries ==> entries[k] == list[SENTRY_PREFIX + k].value)
  }

  /** `r` is the context of a header: that of its list, or the error of the parser. */
  ghost predicate IsContext(header: Bytes, r: Result<DynamicSamplingContext>) {
    match ReadBaggage(header)
    case Err(e) => r == Err(e)
    case Ok(list) =>
      r.Ok? && SentryEntries(list, r.value.entries) && r.value.frozen == (r.value.entries != map[])
  }

  method FromHeader(header: Bytes) returns (r: Result<DynamicSamplingContext>)
    ensures IsContext(header, r)
  {
    var bag := Parse(header);
    if bag.Err? {
      return Err(bag.error);
    }
    var entries: Entries := map[];
    var rest := bag.value.Keys;
    while rest != {}
      invariant rest <= bag.value.Keys
      invariant forall k :: k in entries <==> SENTRY_PREFIX + k in bag.value.Keys - rest
      invariant forall k :: k in entries ==> entries[k] == bag.value[SENTRY_PREFIX + k].value
    {
      var key: Bytes :| key in rest;
      if SENTRY_PREFIX <= key {
        entries := entries[key[|SENTRY_PREFIX|..] := bag.value[key].value];
        assert SENTRY_PREFIX + key[|SENTRY_PREFIX|..] == key;
      }
      assert forall k: Bytes :: SENTRY_PREFIX + k == key ==> k == key[|SENTRY_PREFIX|..];
      rest := rest - {key};
    }
    r := Ok(DynamicSamplingContext(entries, |entries| > 0));
  }

  /** The list that holds the entries whose prefixed key is valid. */
  ghost predicate Lists(entries: Entries, list: List) {
    && (forall k :: SENTRY_PREFIX + k in list <==> k in entries && MatchesKey(SENTRY_PREFIX + k))
    && (forall k :: SENTRY_PREFIX + k in list ==> list[SENTRY_PREFIX + k] == Item(entries[k], []))
    && (forall key :: key in list ==> SENTRY_PREFIX <= key)
  }

  lemma EmptyListPrints()
    ensures IsPrinted(map[], [])
  {
    assert Enumerates([], map[]);
    assert PrintAll(map[], []) == [];
  }

  /** New accepts the list. */
  ghost predicate Buildable(list: List) {
    |list| <= MAX_MEMBERS && !TooLong(list)
  }

  /** `s` is what String may return: a print of the list of the entries with a valid key, or
      nothing if New refuses it. */
  ghost predicate IsHeader(entries: Entries, s: Bytes) {
    exists list: List :: Lists(entries, list) && if Buildable(list) then IsPrinted(list, s) else s == []
  }

  lemma HeaderWitness(entries: Entries, list: List, s: Bytes)
    requires Lists(entries, list) && if Buildable(list) then IsPrinted(list, s) else s == []
    ensures IsHeader(entries, s)
  {
  }

  /** The loop of String: entries with an invalid key are skipped. */
  method Members(entries: Entries) returns (members: seq<Member>)
    ensures Validated(members) && Lists(entries, Collect(members))
    ensures members == [] <==> Collect(members) == map[]
  {
    members := [];
    var rest := entries.Keys;
    ghost var list: List := map[];
    while rest != {}
      invariant rest <= entries.Keys
      invariant Validated(members) && list == Collect(members)
      invariant members == [] <==> list == map[]
      invariant forall k :: SENTRY_PREFIX + k in list <==> k in entries.Keys - rest && MatchesKey(SENTRY_PREFIX + k)
      invariant forall k :: SENTRY_PREFIX + k in list ==> list[SENTRY_PREFIX + k] == Item(entries[k], [])
      invariant forall key :: key in list ==> SENTRY_PREFIX <= key
    {
      var k: Bytes :| k in rest;
      var member := NewMember(SENTRY_PREFIX + k, entries[k], []);
      assert forall x: Bytes :: SENTRY_PREFIX + x == SENTRY_PREFIX + k ==> x == (SENTRY_PREFIX + x)[|SENTRY_PREFIX|..] == k;
      if member.Ok? {
        assert (members + [member.value])[..|members|] == members;
        members := members + [member.value];
        list := list[SENTRY_PREFIX + k := Item(entries[k], [])];
      }
      rest := rest - {k};
    }
  }

  method String(d: DynamicSamplingContext) returns (s: Bytes)
    ensures IsHeader(d.entries, s)
  {
    var members := Members(d.entries);
    s := [];
    if |members| == 0 {
      EmptyListPrints();
    } else {
      var bag := New(members);
      if bag.Ok? {
        var printed, order := Baggages.String(bag.value);
        s := printed;
      }
    }
    HeaderWitness(d.entries, Collect(members), s);
  }

  /** The entries whose prefixed key is valid; by PrefixedKey, whose key has only key characters. */
  function ValidEntries(entries: Entries): Entries {
    map k | k in entries && MatchesKey(SENTRY_PREFIX + k) :: entries[k]
  }

  lemma ListedEntries(entries: Entries, list: List, read: Entries)
    requires Lists(entries, list) && SentryEntries(list, read)
    ensures read == ValidEntries(entries)
  {
  }

  lemma ListedValid(entries: Entries, list: List)
    requires Lists(entries, list)
    ensures ValidList(list)
    ensures list == map[] <==> ValidEntries(entries) == map[]
  {
    forall key | key in list
      ensures ValidItem(key, list[key])
    {
      assert SENTRY_PREFIX + key[|SENTRY_PREFIX|..] == key;
    }
    if list != map[] {
      var key :| key in list;
      assert SENTRY_PREFIX + key[|SENTRY_PREFIX|..] == key;
      assert key[|SENTRY_PREFIX|..] in ValidEntries(entries);
    }
    if ValidEntries(entries) != map[] {
      var k :| k in ValidEntries(entries);
      assert SENTRY_PREFIX + k in list;
    }
  }

  lemma ListsUnique(entries: Entries, a: List, b: List)
    requires Lists(entries, a) && Lists(entries, b)
    ensures a == b
  {
    forall key | key in a || key in b
      ensures key in a && key in b && a[key] == b[key]
    {
      assert SENTRY_PREFIX + key[|SENTRY_PREFIX|..] == key;
    }
  }

  /** FromHeader gives back the valid entries of the context whose String is `s`, exactly when
      the entries are within the limits: those that New checks and the one on a member, which
      only parsing checks. */
  lemma HeaderRoundTrip(entries: Entries, s: Bytes, list: List, r: Result<DynamicSamplingContext>)
    requires Lists(entries, list) && IsHeader(entries, s) && IsContext(s, r)
    ensures r.Ok? && r.value.entries == ValidEntries(entries) <==>
      list == map[] || (Buildable(list) && MembersFit(list))
  {
    var printed: List :| Lists(entries, printed) && if Buildable(printed) then IsPrinted(printed, s) else s == [];
    ListsUnique(entries, list, printed);
    ListedValid(entries, list);
    if Buildable(list) {
      ParsePrinted(list, s);
      if r.Ok? {
        ListedEntries(entries, list, r.value.entries);
      }
    } else {
      assert list != map[] by {
        EmptyBuildable();
      }
      assert r.Ok? && forall k :: k !in r.value.entries;
    }
  }

  lemma EmptyBuildable()
    ensures Buildable(map[])
  {
    if TooLong(map[]) {
      var s: Bytes :| IsPrinted(map[], s) && |s| > MAX_BYTES_PER_BAGGAGE_STRING;
      EmptyPrint(s);
    }
  }
}
