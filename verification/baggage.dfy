/** Baggage as a whole: Parse, New and String (internal/otel/baggage/baggage.go). A Go map
    is iterated in an order of its own, so printing is a relation, not a function. */
module Baggages {
  import opened GoStrings
  import opened PercentEncoding
  import opened BaggageSyntax
  import opened BaggageMembers

  type List = map<Bytes, Item>

  ghost predicate ValidList(list: List) {
    forall k :: k in list ==> ValidItem(k, list[k])
  }

  // ---------------------------------------------------------------------------
  // Printing, for an order of the keys
  // ---------------------------------------------------------------------------

  predicate Distinct(order: seq<Bytes>) {
    forall i, j :: 0 <= i < j < |order| ==> order[i] != order[j]
  }

  predicate Within(order: seq<Bytes>, list: List) {
    forall i :: 0 <= i < |order| ==> order[i] in list
  }

  /** `order` names every key of `list` once. */
  ghost predicate Enumerates(order: seq<Bytes>, list: List) {
    Distinct(order) && Within(order, list) && forall k :: k in list ==> k in order
  }

  function PrintAll(list: List, order: seq<Bytes>): (r: seq<Bytes>)
    requires Within(order, list)
    ensures |r| == |order|
  {
    if order == [] then []
    else
      var n := |order| - 1;
      PrintAll(list, order[..n]) + [PrintMember(order[n], list[order[n]])]
  }

  /** `s` is what String may return for `list`. */
  ghost predicate IsPrinted(list: List, s: Bytes) {
    exists order: seq<Bytes> :: Enumerates(order, list) && s == Join(PrintAll(list, order), COMMA)
  }

  lemma {:induction false} PrintAllAt(list: List, order: seq<Bytes>, i: nat)
    requires Within(order, list) && i < |order|
    ensures PrintAll(list, order)[i] == PrintMember(order[i], list[order[i]])
  {
    if i < |order| - 1 {
      PrintAllAt(list, order[..|order| - 1], i);
    }
  }

  /** Only the entries of the named keys matter. */
  lemma {:induction false} PrintAllAgree(a: List, b: List, order: seq<Bytes>)
    requires Within(order, a) && Within(order, b)
    requires forall i :: 0 <= i < |order| ==> a[order[i]] == b[order[i]]
    ensures PrintAll(a, order) == PrintAll(b, order)
  {
    if order != [] {
      PrintAllAgree(a, b, order[..|order| - 1]);
    }
  }

  lemma WithinConcat(list: List, a: seq<Bytes>, b: seq<Bytes>)
    requires Within(a, list) && Within(b, list)
    ensures Within(a + b, list)
  {
  }

  lemma PrintAllSnoc(list: List, order: seq<Bytes>, k: Bytes)
    requires Within(order, list) && k in list
    ensures Within(order + [k], list)
    ensures PrintAll(list, order + [k]) == PrintAll(list, order) + [PrintMember(k, list[k])]
  {
    ConcatPrefix(order, [k]);
  }

  lemma {:induction false} PrintAllConcat(list: List, a: seq<Bytes>, b: seq<Bytes>)
    requires Within(a, list) && Within(b, list)
    ensures Within(a + b, list) && PrintAll(list, a + b) == PrintAll(list, a) + PrintAll(list, b)
  {
    WithinConcat(list, a, b);
    if b == [] {
      assert a + b == a;
    } else {
      var n := |b| - 1;
      PrintAllConcat(list, a, b[..n]);
      PrintAllSnoc(list, a + b[..n], b[n]);
      ConcatSnoc(a, b);
      ConcatAssoc(PrintAll(list, a), PrintAll(list, b[..n]), [PrintMember(b[n], list[b[n]])]);
    }
  }

  lemma ExtendOrder(list: List, order: seq<Bytes>, k: Bytes)
    requires Distinct(order) && Within(order, list) && k in list && k !in order
    ensures Distinct(order + [k]) && Within(order + [k], list)
    ensures PrintAll(list, order + [k]) == PrintAll(list, order) + [PrintMember(k, list[k])]
    ensures forall x :: x in order + [k] <==> x in order || x == k
  {
    PrintAllSnoc(list, order, k);
  }

  /** Baggage.String: the loop over the map, in whatever order it comes. */
  method String(list: List) returns (s: Bytes, ghost order: seq<Bytes>)
    ensures Enumerates(order, list) && s == Join(PrintAll(list, order), COMMA)
    ensures IsPrinted(list, s)
  {
    var members := [];
    order := [];
    var rest := list.Keys;
    while rest != {}
      invariant rest <= list.Keys
      invariant Distinct(order) && Within(order, list)
      invariant forall k :: k in list ==> (k in order) == (k !in rest)
      invariant members == PrintAll(list, order)
    {
      var k: Bytes :| k in rest;
      members := members + [PrintMember(k, list[k])];
      ExtendOrder(list, order, k);
      order := order + [k];
      rest := rest - {k};
    }
    s := Join(members, COMMA);
  }

  // ---------------------------------------------------------------------------
  // Parsing
  // ---------------------------------------------------------------------------

  /** An error stays; a member replaces an earlier one of its key. */
  function AddMember(init: Result<List>, m: Result<Member>): Result<List> {
    if init.Err? then init
    else if m.Err? then Err(m.error)
    else Ok(init.value[m.value.key := ItemOf(m.value)])
  }

  /** The members are read left to right; the last one of a key wins. */
  function ReadList(parts: seq<Bytes>): Result<List> {
    if parts == [] then Ok(map[])
    else AddMember(ReadList(parts[..|parts| - 1]), ReadMember(parts[|parts| - 1]))
  }

  /** What Parse returns. */
  function ReadBaggage(s: Bytes): Result<List> {
    if s == [] then Ok(map[])
    else if |s| > MAX_BYTES_PER_BAGGAGE_STRING then Err(BaggageBytes)
    else
      var list := ReadList(Split(s, COMMA));
      if list.Err? then list
      else if |list.value| > MAX_MEMBERS then Err(MemberNumber)
      else list
  }

  lemma ReadListSnoc(parts: seq<Bytes>, last: Bytes)
    ensures ReadList(parts + [last]) == AddMember(ReadList(parts), ReadMember(last))
  {
    ConcatPrefix(parts, [last]);
  }

  lemma {:induction false} ReadListError(parts: seq<Bytes>, rest: seq<Bytes>)
    requires ReadList(parts).Err?
    ensures ReadList(parts + rest) == ReadList(parts)
  {
    if rest == [] {
      assert parts + rest == parts;
    } else {
      var m := |rest| - 1;
      ConcatSnoc(parts, rest);
      ReadListError(parts, rest[..m]);
      ReadListSnoc(parts + rest[..m], rest[m]);
    }
  }

  lemma ReadListStep(parts: seq<Bytes>, i: nat)
    requires i < |parts| && ReadList(parts[..i]).Ok?
    ensures ReadMember(parts[i]).Err? ==> ReadList(parts) == Err(ReadMember(parts[i]).error)
    ensures ReadList(parts[..i + 1]) == AddMember(ReadList(parts[..i]), ReadMember(parts[i]))
  {
    TakeNext(parts, i);
    SplitAt(parts, i + 1);
    ReadListSnoc(parts[..i], parts[i]);
    if ReadMember(parts[i]).Err? {
      ReadListError(parts[..i + 1], parts[i + 1..]);
    }
  }

  method Parse(s: Bytes) returns (r: Result<List>)
    ensures r == ReadBaggage(s)
  {
    if s == [] {
      return Ok(map[]);
    }
    if |s| > MAX_BYTES_PER_BAGGAGE_STRING {
      return Err(BaggageBytes);
    }
    var b: List := map[];
    var parts := Split(s, COMMA);
    for i := 0 to |parts|
      invariant ReadList(parts[..i]) == Ok(b)
    {
      var m := ParseMember(parts[i]);
      ReadListStep(parts, i);
      if m.Err? {
        return Err(m.error);
      }
      b := b[m.value.key := ItemOf(m.value)];
    }
    assert parts[..|parts|] == parts;
    r := if |b| > MAX_MEMBERS then Err(MemberNumber) else Ok(b);
  }

  predicate HasKey(m: Result<Member>, k: Bytes) {
    m.Ok? && m.value.key == k
  }

  function ReadAll(parts: seq<Bytes>): (ms: seq<Result<Member>>)
    ensures |ms| == |parts| && forall i :: 0 <= i < |ms| ==> ms[i] == ReadMember(parts[i])
  {
    seq(|parts|, i requires 0 <= i < |parts| => ReadMember(parts[i]))
  }

  /** The list of members that have been read, one by one. */
  function Gather(ms: seq<Result<Member>>): Result<List> {
    if ms == [] then Ok(map[]) else AddMember(Gather(ms[..|ms| - 1]), ms[|ms| - 1])
  }

  lemma {:induction false} ReadListGathers(parts: seq<Bytes>)
    ensures ReadList(parts) == Gather(ReadAll(parts))
  {
    if parts != [] {
      ReadListGathers(parts[..|parts| - 1]);
      assert ReadAll(parts)[..|parts| - 1] == ReadAll(parts[..|parts| - 1]);
    }
  }

  /** Member `i` is the last one with key `k`. */
  predicate IsLastOf(ms: seq<Result<Member>>, k: Bytes, i: nat) {
    i < |ms| && HasKey(ms[i], k) && forall j :: i < j < |ms| ==> !HasKey(ms[j], k)
  }

  /** The list holds for each of its keys what the last member of that key says. */
  lemma {:induction false} LastWins(ms: seq<Result<Member>>, list: List, k: Bytes)
    requires Gather(ms) == Ok(list) && k in list
    ensures exists i: nat :: IsLastOf(ms, k, i) && list[k] == ItemOf(ms[i].value)
  {
    var n := |ms| - 1;
    if HasKey(ms[n], k) {
      assert IsLastOf(ms, k, n);
    } else {
      var init := Gather(ms[..n]).value;
      LastWins(ms[..n], init, k);
      var i: nat :| IsLastOf(ms[..n], k, i) && init[k] == ItemOf(ms[..n][i].value);
      assert IsLastOf(ms, k, i);
    }
  }

  /** And every member was well formed, with its key in the list. */
  lemma {:induction false} EveryMemberListed(ms: seq<Result<Member>>, list: List, i: nat)
    requires Gather(ms) == Ok(list) && i < |ms|
    ensures ms[i].Ok? && ms[i].value.key in list
  {
    if i < |ms| - 1 {
      EveryMemberListed(ms[..|ms| - 1], Gather(ms[..|ms| - 1]).value, i);
    }
  }

  predicate IsFirstError(ms: seq<Result<Member>>, i: nat) {
    i < |ms| && ms[i].Err? && forall j :: 0 <= j < i ==> ms[j].Ok?
  }

  /** The first malformed member decides the error. */
  lemma {:induction false} FirstErrorWins(ms: seq<Result<Member>>)
    requires Gather(ms).Err?
    ensures exists i: nat :: IsFirstError(ms, i) && Gather(ms).error == ms[i].error
  {
    var n := |ms| - 1;
    if Gather(ms[..n]).Err? {
      FirstErrorWins(ms[..n]);
      var i: nat :| IsFirstError(ms[..n], i) && Gather(ms[..n]).error == ms[..n][i].error;
      assert IsFirstError(ms, i);
    } else {
      forall j | 0 <= j < n
        ensures ms[j].Ok?
      {
        EveryMemberListed(ms[..n], Gather(ms[..n]).value, j);
      }
      assert IsFirstError(ms, n);
    }
  }

  /** All list-members are well formed, and the list holds exactly their keys, for each what the last
      list-member of that key says. */
  ghost predicate HoldsMembers(ms: seq<Result<Member>>, list: List) {
    && (forall i :: 0 <= i < |ms| ==> ms[i].Ok? && ms[i].value.key in list)
    && (forall k :: k in list ==> SaysLast(ms, list, k))
  }

  ghost predicate SaysLast(ms: seq<Result<Member>>, list: List, k: Bytes)
    requires k in list
  {
    exists i: nat :: IsLastOf(ms, k, i) && list[k] == ItemOf(ms[i].value)
  }

  lemma GatherHolds(ms: seq<Result<Member>>, list: List)
    requires Gather(ms) == Ok(list)
    ensures HoldsMembers(ms, list)
  {
    forall i | 0 <= i < |ms|
      ensures ms[i].Ok? && ms[i].value.key in list
    {
      EveryMemberListed(ms, list, i);
    }
    forall k | k in list
      ensures SaysLast(ms, list, k)
    {
      LastWins(ms, list, k);
    }
  }

  /** Too many different keys. */
  ghost predicate TooMany(ms: seq<Result<Member>>) {
    exists list: List :: HoldsMembers(ms, list) && |list| > 180
  }

  /** The outcome of a list of members that have been read. */
  ghost predicate Means(ms: seq<Result<Member>>, r: Result<List>) {
    match r
    case Ok(list) => HoldsMembers(ms, list) && |list| <= 180
    case Err(e) =>
      || (exists i: nat :: IsFirstError(ms, i) && e == ms[i].error)
      || (e == MemberNumber && TooMany(ms))
  }

  lemma GatherMeans(ms: seq<Result<Member>>)
    ensures var g := Gather(ms);
      Means(ms, if g.Ok? && |g.value| > MAX_MEMBERS then Err(MemberNumber) else g)
  {
    if Gather(ms).Err? {
      FirstErrorWins(ms);
    } else {
      GatherHolds(ms, Gather(ms).value);
    }
  }

  /** What Parse accepts and what it then holds, without the order of its loop: it accepts a
      header within the limits whose list-members are all well formed, and for each key it holds
      what the last list-member of that key says. */
  lemma ParseMeaning(s: Bytes)
    ensures s == [] ==> ReadBaggage(s) == Ok(map[])
    ensures ReadBaggage(s) == Err(BaggageBytes) <==> |s| > 8192
    ensures 0 < |s| <= 8192 ==> Means(ReadAll(Split(s, COMMA)), ReadBaggage(s))
  {
    ReadListGathers(Split(s, COMMA));
    GatherMeans(ReadAll(Split(s, COMMA)));
    if ReadBaggage(s) == Err(BaggageBytes) && |s| <= 8192 {
      var i: nat :| IsFirstError(ReadAll(Split(s, COMMA)), i) && ReadAll(Split(s, COMMA))[i].error == BaggageBytes;
      MemberErrors(Split(s, COMMA)[i]);
    }
  }

  // ---------------------------------------------------------------------------
  // Parsing undoes printing
  // ---------------------------------------------------------------------------

  /** Every printed member is within the limit on a list-member. */
  ghost predicate MembersFit(list: List) {
    forall k :: k in list ==> |PrintMember(k, list[k])| <= MAX_BYTES_PER_MEMBERS
  }

  /** The entries of the keys in `order`. */
  function Restrict(list: List, order: seq<Bytes>): List {
    map k | k in list && k in order :: list[k]
  }

  lemma RestrictSnoc(list: List, order: seq<Bytes>, k: Bytes)
    requires k in list
    ensures Restrict(list, order + [k]) == Restrict(list, order)[k := list[k]]
  {
  }

  /** The members named by `order` are within the limit on a list-member. */
  predicate Fits(list: List, order: seq<Bytes>)
    requires Within(order, list)
  {
    order == [] ||
    (Fits(list, order[..|order| - 1]) &&
     |PrintMember(order[|order| - 1], list[order[|order| - 1]])| <= MAX_BYTES_PER_MEMBERS)
  }

  lemma {:induction false} FitsAt(list: List, order: seq<Bytes>, i: nat)
    requires Within(order, list) && Fits(list, order) && i < |order|
    ensures |PrintMember(order[i], list[order[i]])| <= MAX_BYTES_PER_MEMBERS
  {
    if i < |order| - 1 {
      FitsAt(list, order[..|order| - 1], i);
    }
  }

  lemma {:induction false} AllFit(list: List, order: seq<Bytes>)
    requires Within(order, list) && MembersFit(list)
    ensures Fits(list, order)
  {
    if order != [] {
      AllFit(list, order[..|order| - 1]);
    }
  }

  lemma ReadPrintSnoc(list: List, init: seq<Bytes>, k: Bytes)
    requires ValidList(list) && Within(init, list) && k in list
    ensures Within(init + [k], list)
    ensures ReadList(PrintAll(list, init + [k])) == AddMember(ReadList(PrintAll(list, init)),
      if |PrintMember(k, list[k])| <= MAX_BYTES_PER_MEMBERS then Ok(MemberFor(k, list[k])) else Err(MemberBytes))
  {
    PrintAllSnoc(list, init, k);
    ReadListSnoc(PrintAll(list, init), PrintMember(k, list[k]));
    MemberRoundTrip(k, list[k]);
  }

  /** What reading printed members gives: a valid member can only fail for its length. */
  lemma {:induction false} ReadPrintAll(list: List, order: seq<Bytes>)
    requires ValidList(list) && Within(order, list)
    ensures ReadList(PrintAll(list, order)) ==
      if Fits(list, order) then Ok(Restrict(list, order)) else Err(MemberBytes)
  {
    if order == [] {
      assert Restrict(list, order) == map[];
    } else {
      var n := |order| - 1;
      TakeNext(order, n);
      assert order[..n + 1] == order;
      ReadPrintAll(list, order[..n]);
      ReadPrintSnoc(list, order[..n], order[n]);
      RestrictSnoc(list, order[..n], order[n]);
      MemberRoundTrip(order[n], list[order[n]]);
    }
  }

  lemma {:induction false} PrintAllCharacters(list: List, order: seq<Bytes>)
    requires ValidList(list) && Within(order, list)
    ensures forall i :: 0 <= i < |order| ==> PrintAll(list, order)[i] != [] && COMMA !in PrintAll(list, order)[i]
  {
    if order != [] {
      var n := |order| - 1;
      PrintAllCharacters(list, order[..n]);
      MemberRoundTrip(order[n], list[order[n]]);
    }
  }

  lemma SplitPrinted(list: List, order: seq<Bytes>)
    requires ValidList(list) && Within(order, list) && order != []
    ensures Split(Join(PrintAll(list, order), COMMA), COMMA) == PrintAll(list, order)
    ensures Join(PrintAll(list, order), COMMA) != []
  {
    PrintAllCharacters(list, order);
    SplitJoin(PrintAll(list, order), COMMA);
  }

  lemma FitsAll(list: List, order: seq<Bytes>)
    requires Enumerates(order, list)
    ensures Fits(list, order) <==> MembersFit(list)
  {
    if MembersFit(list) {
      AllFit(list, order);
    }
    if Fits(list, order) {
      forall k | k in list
        ensures |PrintMember(k, list[k])| <= MAX_BYTES_PER_MEMBERS
      {
        var i :| 0 <= i < |order| && order[i] == k;
        FitsAt(list, order, i);
      }
    }
  }

  lemma ReadPrinted(list: List, order: seq<Bytes>)
    requires ValidList(list) && Enumerates(order, list)
    ensures ReadList(PrintAll(list, order)) == if MembersFit(list) then Ok(list) else Err(MemberBytes)
  {
    ReadPrintAll(list, order);
    FitsAll(list, order);
    assert Restrict(list, order) == list;
  }

  /** Exactly what parsing a printed list gives: the list, unless a limit is exceeded. */
  lemma ParsePrinted(list: List, s: Bytes)
    requires ValidList(list) && IsPrinted(list, s)
    ensures ReadBaggage(s) ==
      if list == map[] then Ok(map[])
      else if |s| > MAX_BYTES_PER_BAGGAGE_STRING then Err(BaggageBytes)
      else if !MembersFit(list) then Err(MemberBytes)
      else if |list| > MAX_MEMBERS then Err(MemberNumber)
      else Ok(list)
  {
    var order: seq<Bytes> :| Enumerates(order, list) && s == Join(PrintAll(list, order), COMMA);
    EnumeratesEmpty(list, order);
    if list != map[] {
      SplitPrinted(list, order);
      ReadPrinted(list, order);
    }
  }

  lemma EnumeratesEmpty(list: List, order: seq<Bytes>)
    requires Enumerates(order, list)
    ensures order == [] <==> list == map[]
  {
    if order == [] {
      assert forall k :: k !in list;
    } else {
      assert order[0] in list;
    }
  }

  lemma EmptyPrint(s: Bytes)
    requires IsPrinted(map[], s)
    ensures s == []
  {
    var order: seq<Bytes> :| Enumerates(order, map[]) && s == Join(PrintAll(map[], order), COMMA);
    EnumeratesEmpty(map[], order);
  }

  // ---------------------------------------------------------------------------
  // Printing what was parsed stays within the limits
  // ---------------------------------------------------------------------------

  function Room(list: List, order: seq<Bytes>): nat
    requires Within(order, list)
  {
    JoinedLength(PrintAll(list, order))
  }

  lemma RoomWithout(list: List, a: seq<Bytes>, k: Bytes, b: seq<Bytes>)
    requires Within(a + [k] + b, list) && Within(a + b, list) && k in list
    ensures Room(list, a + [k] + b) == Room(list, a + b) + |PrintMember(k, list[k])| + 1
  {
    assert Within(a, list) && Within(b, list) && Within([k], list) && Within(a + [k], list) by {
      assert forall i :: 0 <= i < |a| ==> a[i] == (a + b)[i];
      assert forall i :: 0 <= i < |b| ==> b[i] == (a + b)[|a| + i];
    }
    PrintAllConcat(list, a, b);
    PrintAllConcat(list, a, [k]);
    PrintAllConcat(list, a + [k], b);
    assert PrintAll(list, [k]) == [PrintMember(k, list[k])];
    JoinedLengthConcat(PrintAll(list, a), PrintAll(list, b));
    JoinedLengthConcat(PrintAll(list, a) + PrintAll(list, [k]), PrintAll(list, b));
    JoinedLengthConcat(PrintAll(list, a), PrintAll(list, [k]));
  }

  /** Taking one key out of an order. */
  lemma Remove(order: seq<Bytes>, i: nat) returns (rest: seq<Bytes>)
    requires Distinct(order) && i < |order|
    ensures rest == order[..i] + order[i + 1..] && order == order[..i] + [order[i]] + order[i + 1..]
    ensures Distinct(rest) && order[i] !in rest
    ensures forall k :: k in rest <==> k in order && k != order[i]
  {
    rest := order[..i] + order[i + 1..];
    assert forall k :: k in order ==> k in rest || k == order[i] by {
      assert order == order[..i] + [order[i]] + order[i + 1..];
    }
  }

  lemma {:induction false} ParsedList(parts: seq<Bytes>, list: List)
    requires ReadList(parts) == Ok(list)
    ensures ValidList(list) && MembersFit(list)
  {
    if parts != [] {
      var n := |parts| - 1;
      var init, m := ReadList(parts[..n]).value, ReadMember(parts[n]).value;
      ParsedList(parts[..n], init);
      MemberShrinks(parts[n], m);
    }
  }

  /** One more member takes at most its own room. */
  lemma RoomAdded(init: List, k: Bytes, item: Item, order: seq<Bytes>) returns (rest: seq<Bytes>)
    requires Distinct(order) && Within(order, init[k := item])
    ensures Distinct(rest) && Within(rest, init)
    ensures Room(init[k := item], order) <= Room(init, rest) + |PrintMember(k, item)| + 1
  {
    var list := init[k := item];
    if k in order {
      var i :| 0 <= i < |order| && order[i] == k;
      rest := Remove(order, i);
      RoomWithout(list, order[..i], k, order[i + 1..]);
    } else {
      rest := order;
    }
    PrintAllAgree(list, init, rest);
  }

  /** The named members of a parsed list take no more room than the text they came from:
      each has a last source of its own. */
  lemma {:induction false} ParsedRoom(parts: seq<Bytes>, list: List, order: seq<Bytes>)
    requires ReadList(parts) == Ok(list) && Distinct(order) && Within(order, list)
    ensures Room(list, order) <= JoinedLength(parts)
  {
    if parts != [] {
      var n := |parts| - 1;
      var init, m := ReadList(parts[..n]).value, ReadMember(parts[n]).value;
      JoinedLengthSnoc(parts);
      MemberShrinks(parts[n], m);
      var rest := RoomAdded(init, m.key, ItemOf(m), order);
      ParsedRoom(parts[..n], init, rest);
    }
  }

  lemma JoinedLengthSnoc(parts: seq<Bytes>)
    requires parts != []
    ensures JoinedLength(parts) == JoinedLength(parts[..|parts| - 1]) + |parts[|parts| - 1]| + 1
  {
    var n := |parts| - 1;
    ConcatSnoc([], parts);
    assert [] + parts == parts && [] + parts[..n] == parts[..n];
    JoinedLengthConcat(parts[..n], [parts[n]]);
  }

  lemma ParsedFacts(s: Bytes, list: List)
    requires ReadBaggage(s) == Ok(list)
    ensures ValidList(list) && MembersFit(list) && |list| <= MAX_MEMBERS
  {
    if s != [] {
      ParsedList(Split(s, COMMA), list);
    }
  }

  /** Printing a parsed list takes no more room than the header it was parsed from. */
  lemma PrintedLength(s: Bytes, list: List, printed: Bytes)
    requires ReadBaggage(s) == Ok(list) && IsPrinted(list, printed)
    ensures |printed| <= |s| <= MAX_BYTES_PER_BAGGAGE_STRING
  {
    var order: seq<Bytes> :| Enumerates(order, list) && printed == Join(PrintAll(list, order), COMMA);
    EnumeratesEmpty(list, order);
    if s != [] && order != [] {
      ParsedRoom(Split(s, COMMA), list, order);
      SplitLength(s, COMMA);
      JoinLength(PrintAll(list, order), COMMA);
    }
  }

  /** Parsing, printing in any order and parsing again gives the same list: none of the
      three limits can be exceeded on the way. */
  lemma ParseStringParse(s: Bytes, list: List, printed: Bytes)
    requires ReadBaggage(s) == Ok(list) && IsPrinted(list, printed)
    ensures ReadBaggage(printed) == Ok(list)
  {
    ParsedFacts(s, list);
    PrintedLength(s, list, printed);
    ParsePrinted(list, printed);
  }
}
