/** MergeBaggage (baggage.go). */
module MergeBaggages {
  import opened GoStrings
  import opened BaggageSyntax
  import opened BaggageMembers
  import opened Baggages

  lemma PrintedEmpty(list: List, order: seq<Bytes>)
    requires Enumerates(order, list)
    ensures Join(PrintAll(list, order), COMMA) == [] <==> list == map[]
  {
    EnumeratesEmpty(list, order);
    if order != [] {
      assert Within(order[..|order| - 1], list);
      assert PrintMember(order[0], list[order[0]]) != [];
      PrintAllAt(list, order, 0);
    }
  }

  /** The printed Sentry list followed by the other existing members prints the merged list. */
  lemma MergedOrder(existing: List, sentry: List, sOrder: seq<Bytes>, eOrder: seq<Bytes>)
    requires Enumerates(sOrder, sentry) && Distinct(eOrder) && Within(eOrder, existing)
    requires forall k :: k in existing && k !in sentry <==> k in eOrder
    ensures Enumerates(sOrder + eOrder, existing + sentry)
    ensures PrintAll(existing + sentry, sOrder + eOrder) == PrintAll(sentry, sOrder) + PrintAll(existing, eOrder)
  {
    var merged := existing + sentry;
    assert forall i :: 0 <= i < |eOrder| ==> eOrder[i] in eOrder;
    assert forall i :: 0 <= i < |sOrder| ==> sOrder[i] in sentry;
    PrintAllAgree(sentry, merged, sOrder);
    PrintAllAgree(existing, merged, eOrder);
    PrintAllConcat(merged, sOrder, eOrder);
  }

  lemma MergedText(existing: List, sentry: List, sOrder: seq<Bytes>, eOrder: seq<Bytes>, s: Bytes, parts: seq<Bytes>)
    requires Enumerates(sOrder, sentry) && Distinct(eOrder) && Within(eOrder, existing)
    requires forall k :: k in existing && k !in sentry <==> k in eOrder
    requires s == Join(PrintAll(sentry, sOrder), COMMA)
    requires parts == (if s != [] then [s] else []) + PrintAll(existing, eOrder)
    ensures IsPrinted(existing + sentry, Join(parts, COMMA))
  {
    MergedOrder(existing, sentry, sOrder, eOrder);
    PrintedEmpty(sentry, sOrder);
    EnumeratesEmpty(sentry, sOrder);
    if s == [] {
      assert PrintAll(sentry, sOrder) + PrintAll(existing, eOrder) == PrintAll(existing, eOrder);
    } else if eOrder == [] {
      assert PrintAll(sentry, sOrder) + PrintAll(existing, eOrder) == PrintAll(sentry, sOrder);
    } else {
      JoinConcat(PrintAll(sentry, sOrder), PrintAll(existing, eOrder), COMMA);
    }
  }

  /** The result prints the existing members overridden by the Sentry ones; a malformed
      existing header leaves the Sentry members, if there are any. */
  method MergeBaggage(existingHeader: Bytes, sentryHeader: Bytes) returns (r: Result<Bytes>)
    ensures ReadBaggage(sentryHeader).Err? ==> r == Err(ReadBaggage(sentryHeader).error)
    ensures ReadBaggage(sentryHeader).Ok? && ReadBaggage(existingHeader).Err? ==>
      if ReadBaggage(sentryHeader).value == map[] then r == Err(ReadBaggage(existingHeader).error)
      else r.Ok? && IsPrinted(ReadBaggage(sentryHeader).value, r.value)
    ensures ReadBaggage(sentryHeader).Ok? && ReadBaggage(existingHeader).Ok? ==>
      r.Ok? && IsPrinted(ReadBaggage(existingHeader).value + ReadBaggage(sentryHeader).value, r.value)
  {
    var sentryBaggage := Parse(sentryHeader);
    if sentryBaggage.Err? {
      return Err(sentryBaggage.error);
    }
    var sentry := sentryBaggage.value;
    var existingBaggage := Parse(existingHeader);
    if existingBaggage.Err? {
      if |sentry| == 0 {
        return Err(existingBaggage.error);
      }
      var only, order := String(sentry);
      return Ok(only);
    }
    var merged := MergeLists(existingBaggage.value, sentry);
    r := Ok(merged);
  }

  /** Of the existing members outside `rest`, those that are not overridden are in `order`. */
  ghost predicate Merging(existing: List, sentry: List, rest: set<Bytes>, order: seq<Bytes>) {
    && rest <= existing.Keys && Distinct(order) && Within(order, existing)
    && forall k :: k in existing && k !in rest && k !in sentry <==> k in order
  }

  lemma MergingNext(existing: List, sentry: List, rest: set<Bytes>, order: seq<Bytes>, k: Bytes)
    requires Merging(existing, sentry, rest, order) && k in rest
    ensures k in sentry ==> Merging(existing, sentry, rest - {k}, order)
    ensures k !in sentry ==> Merging(existing, sentry, rest - {k}, order + [k])
    ensures k !in sentry ==> PrintAll(existing, order + [k]) == PrintAll(existing, order) + [PrintMember(k, existing[k])]
  {
    if k !in sentry {
      ExtendOrder(existing, order, k);
    }
  }

  /** The loops of MergeBaggage over the two parsed lists. */
  method MergeLists(existing: List, sentry: List) returns (merged: Bytes)
    ensures IsPrinted(existing + sentry, merged)
  {
    var sentryKeys := sentry.Keys;
    var s, sOrder := String(sentry);
    var parts := if s != [] then [s] else [];
    ghost var head := parts;
    ghost var eOrder: seq<Bytes> := [];
    var rest := existing.Keys;
    while rest != {}
      invariant Merging(existing, sentry, rest, eOrder)
      invariant parts == head + PrintAll(existing, eOrder)
    {
      var k: Bytes :| k in rest;
      MergingNext(existing, sentry, rest, eOrder, k);
      if k !in sentryKeys {
        ConcatAssoc(head, PrintAll(existing, eOrder), [PrintMember(k, existing[k])]);
        parts := parts + [PrintMember(k, existing[k])];
        eOrder := eOrder + [k];
      }
      rest := rest - {k};
    }
    MergedText(existing, sentry, sOrder, eOrder, s, parts);
    merged := Join(parts, COMMA);
  }

  lemma UnionFits(a: List, b: List)
    requires ValidList(a) && MembersFit(a) && ValidList(b) && MembersFit(b)
    ensures ValidList(a + b) && MembersFit(a + b)
  {
  }

  /** Parsing the merged header gives the existing members overridden by the Sentry members,
      exactly when the merged header is within the limits of a baggage-string. */
  lemma MergeParses(existingHeader: Bytes, sentryHeader: Bytes, existing: List, sentry: List, merged: Bytes)
    requires ReadBaggage(existingHeader) == Ok(existing) && ReadBaggage(sentryHeader) == Ok(sentry)
    requires IsPrinted(existing + sentry, merged)
    ensures ReadBaggage(merged) ==
      if |merged| > MAX_BYTES_PER_BAGGAGE_STRING then Err(BaggageBytes)
      else if |existing + sentry| > MAX_MEMBERS then Err(MemberNumber)
      else Ok(existing + sentry)
  {
    ParsedFacts(existingHeader, existing);
    ParsedFacts(sentryHeader, sentry);
    UnionFits(existing, sentry);
    ParsePrinted(existing + sentry, merged);
    if existing + sentry == map[] {
      EmptyPrint(merged);
    }
  }
}
