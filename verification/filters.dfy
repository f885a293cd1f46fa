/** The filtered view: the full catalogue narrowed by the breed-group
    selection and then by the origin selection. A selection is the `value` of
    the chosen option, or `None` when the picker is cleared. */
module Filters {
  import opened Breeds
  import opened Sequences

  /** A record passes a facet when nothing is selected for it, or when its
      attribute is exactly (`===`) the selected string. */
  predicate MatchesFacet(b: Breed, f: Facet, sel: Option<string>) {
    sel.None? || b.Get(f) == Some(sel.value)
  }

  /** A record passes both facets. */
  predicate Matches(b: Breed, group: Option<string>, origin: Option<string>) {
    MatchesFacet(b, BreedGroup, group) && MatchesFacet(b, Origin, origin)
  }

  /** `catalog.filter(b => b[f] === v)`. */
  function KeepEqual(catalog: seq<Breed>, f: Facet, v: string): (r: seq<Breed>)
    ensures |r| <= |catalog|
    ensures forall b :: b in r <==> b in catalog && b.Get(f) == Some(v)
  {
    if catalog == [] then []
    else (if catalog[0].Get(f) == Some(v) then [catalog[0]] else []) + KeepEqual(catalog[1..], f, v)
  }

  /** One guarded filter step: `if (selected) list = list.filter(...)`. */
  function FilterFacet(catalog: seq<Breed>, f: Facet, sel: Option<string>): (r: seq<Breed>)
    ensures sel.None? ==> r == catalog
    ensures forall b :: b in r <==> b in catalog && MatchesFacet(b, f, sel)
  {
    match sel
    case None => catalog
    case Some(v) => KeepEqual(catalog, f, v)
  }

  /** `filteredBreeds`: the group filter first, then the origin filter. */
  function ApplyFilters(catalog: seq<Breed>, group: Option<string>, origin: Option<string>): (r: seq<Breed>)
    ensures group.None? && origin.None? ==> r == catalog
    ensures |r| <= |catalog|
    ensures forall b :: b in r <==> b in catalog && Matches(b, group, origin)
  {
    FilterFacet(FilterFacet(catalog, BreedGroup, group), Origin, origin)
  }

  /** `idx` lists, in increasing order, exactly the positions of `catalog`
      whose record matches both selections. */
  predicate ListsMatches(idx: seq<nat>, catalog: seq<Breed>, group: Option<string>, origin: Option<string>) {
    && (forall k :: 0 <= k < |idx| ==> idx[k] < |catalog|)
    && (forall k, l :: 0 <= k < l < |idx| ==> idx[k] < idx[l])
    && (forall i :: 0 <= i < |catalog| ==> (i in idx <==> Matches(catalog[i], group, origin)))
  }

  /** The positions of the catalogue whose record matches both
      selections, in increasing order: an independent description of which
      records the view keeps. */
  function MatchingPositions(catalog: seq<Breed>, group: Option<string>, origin: Option<string>): (idx: seq<nat>)
    ensures ListsMatches(idx, catalog, group, origin)
  {
    if catalog == [] then []
    else
      var rest := MatchingPositions(catalog[1..], group, origin);
      MatchingPositionsStep(catalog, group, origin, rest);
      (if Matches(catalog[0], group, origin) then [0] else []) + Shift(rest)
  }

  /** Positions for the tail, shifted by one and preceded by 0 when the head
      matches, are the positions for the whole catalogue. */
  lemma MatchingPositionsStep(catalog: seq<Breed>, group: Option<string>, origin: Option<string>, rest: seq<nat>)
    requires catalog != [] && ListsMatches(rest, catalog[1..], group, origin)
    ensures ListsMatches((if Matches(catalog[0], group, origin) then [0] else []) + Shift(rest), catalog, group, origin)
  {
    var idx := (if Matches(catalog[0], group, origin) then [0] else []) + Shift(rest);
    forall i | 0 <= i < |catalog|
      ensures i in idx <==> Matches(catalog[i], group, origin)
    {
      ShiftMembership(rest, i);
      if i > 0 {
        assert catalog[1..][i - 1] == catalog[i];
      }
    }
    assert 0 !in Shift(rest) by {
      ShiftMembership(rest, 0);
    }
  }

  /** One filter step on a non-empty list decides the head and filters the
      tail. */
  lemma FilterFacetUnfold(catalog: seq<Breed>, f: Facet, sel: Option<string>)
    requires catalog != []
    ensures FilterFacet(catalog, f, sel) ==
      (if MatchesFacet(catalog[0], f, sel) then [catalog[0]] else []) + FilterFacet(catalog[1..], f, sel)
  {
    if sel.None? {
      assert catalog == [catalog[0]] + catalog[1..];
    }
  }

  /** A filter step distributes over concatenation. */
  lemma FilterFacetConcat(a: seq<Breed>, c: seq<Breed>, f: Facet, sel: Option<string>)
    ensures FilterFacet(a + c, f, sel) == FilterFacet(a, f, sel) + FilterFacet(c, f, sel)
  {
    if sel.Some? {
      KeepEqualConcat(a, c, f, sel.value);
    }
  }

  /** `filteredBreeds` on a non-empty list decides the head against both
      selections and filters the tail. */
  lemma ApplyFiltersUnfold(catalog: seq<Breed>, group: Option<string>, origin: Option<string>)
    requires catalog != []
    ensures ApplyFilters(catalog, group, origin) ==
      (if Matches(catalog[0], group, origin) then [catalog[0]] else []) + ApplyFilters(catalog[1..], group, origin)
  {
    var head := if MatchesFacet(catalog[0], BreedGroup, group) then [catalog[0]] else [];
    var tail := FilterFacet(catalog[1..], BreedGroup, group);
    FilterFacetUnfold(catalog, BreedGroup, group);
    FilterFacetConcat(head, tail, Origin, origin);
    if head != [] {
      FilterFacetUnfold(head, Origin, origin);
      assert head[1..] == [];
    }
  }

  /** `filteredBreeds` is the catalogue read at exactly the matching
      positions, in increasing order: an order-preserving subsequence that
      keeps every matching record and nothing else. */
  lemma {:induction false} FilteredIsGathered(catalog: seq<Breed>, group: Option<string>, origin: Option<string>)
    ensures ApplyFilters(catalog, group, origin) == Gather(catalog, MatchingPositions(catalog, group, origin))
  {
    if catalog != [] {
      ApplyFiltersUnfold(catalog, group, origin);
      FilteredIsGathered(catalog[1..], group, origin);
      var rest := MatchingPositions(catalog[1..], group, origin);
      if Matches(catalog[0], group, origin) {
        GatherCons(catalog, rest);
      } else {
        GatherShift(catalog, rest);
      }
    }
  }

  /** Two filter steps commute, whichever facets they test. */
  lemma {:induction false} KeepEqualCommute(catalog: seq<Breed>, f: Facet, v: string, g: Facet, w: string)
    ensures KeepEqual(KeepEqual(catalog, f, v), g, w) == KeepEqual(KeepEqual(catalog, g, w), f, v)
  {
    if catalog != [] {
      KeepEqualCommute(catalog[1..], f, v, g, w);
      var b := catalog[0];
      var rest := catalog[1..];
      KeepEqualConcat([b], rest, f, v);
      KeepEqualConcat([b], rest, g, w);
      KeepEqualConcat(KeepEqual([b], f, v), KeepEqual(rest, f, v), g, w);
      KeepEqualConcat(KeepEqual([b], g, w), KeepEqual(rest, g, w), f, v);
      assert catalog == [b] + rest;
    }
  }

  /** Filtering distributes over concatenation. */
  lemma {:induction false} KeepEqualConcat(a: seq<Breed>, c: seq<Breed>, f: Facet, v: string)
    ensures KeepEqual(a + c, f, v) == KeepEqual(a, f, v) + KeepEqual(c, f, v)
  {
    if a == [] {
      assert a + c == c;
    } else {
      assert (a + c)[1..] == a[1..] + c;
      KeepEqualConcat(a[1..], c, f, v);
    }
  }

  /** Applying the origin filter before the group filter gives the same
      list, in the same order, as the code's group-then-origin order. */
  lemma ApplyFiltersCommute(catalog: seq<Breed>, group: Option<string>, origin: Option<string>)
    ensures ApplyFilters(catalog, group, origin) == FilterFacet(FilterFacet(catalog, Origin, origin), BreedGroup, group)
  {
    if group.Some? && origin.Some? {
      KeepEqualCommute(catalog, BreedGroup, group.value, Origin, origin.value);
    }
  }
}
