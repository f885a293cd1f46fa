/** Derivation of the option list of one facet from the full catalogue:
    project the attribute, drop falsy values, de-duplicate through a
    JavaScript `Set` (which keeps first-insertion order), and wrap every
    survivor as a select option whose value and label coincide. */
module Facets {
  import opened Breeds
  import opened Sequences

  /** An entry of a facet picker: `{value, label}`; `label` is a Dafny
      keyword, so the displayed text is called `caption` here. */
  datatype FacetOption = FacetOption(value: string, caption: string)

  /** `catalog.map(b => b.breed_group)` (or `b.origin`). */
  function Project(catalog: seq<Breed>, f: Facet): (vs: seq<Option<string>>)
    ensures |vs| == |catalog|
    ensures forall i :: 0 <= i < |catalog| ==> vs[i] == catalog[i].Get(f)
  {
    seq(|catalog|, i requires 0 <= i < |catalog| => catalog[i].Get(f))
  }

  /** `.filter(Boolean)` on projected values: keeps the truthy strings in
      their original order. */
  function KeepTruthy(vs: seq<Option<string>>): (ws: seq<string>)
    ensures |ws| <= |vs|
    ensures forall w :: w in ws <==> w != "" && Some(w) in vs
  {
    if vs == [] then []
    else (if Truthy(vs[0]) then [vs[0].value] else []) + KeepTruthy(vs[1..])
  }

  /** Adding `ws` one by one to a JavaScript `Set` that already holds
      `seen` (in insertion order): a value already present is skipped,
      a new one is appended. */
  function InsertAll(seen: seq<string>, ws: seq<string>): (r: seq<string>)
    requires NoDups(seen)
    ensures NoDups(r)
    ensures |seen| <= |r| && r[..|seen|] == seen
    ensures forall w :: w in r <==> w in seen || w in ws
    decreases |ws|
  {
    if ws == [] then seen
    else if ws[0] in seen then InsertAll(seen, ws[1..])
    else InsertAll(seen + [ws[0]], ws[1..])
  }

  /** `Array.from(new Set(catalog.map(...).filter(Boolean)))`: the distinct
      non-empty values of facet `f`. */
  function UniqueValues(catalog: seq<Breed>, f: Facet): (r: seq<string>)
    ensures NoDups(r)
    ensures forall v :: v in r <==> v != "" && exists i :: 0 <= i < |catalog| && catalog[i].Get(f) == Some(v)
  {
    var vs := Project(catalog, f);
    assert forall v :: Some(v) in vs <==> exists i :: 0 <= i < |catalog| && catalog[i].Get(f) == Some(v) by {
      forall v | Some(v) in vs
        ensures exists i :: 0 <= i < |catalog| && catalog[i].Get(f) == Some(v)
      {
        var i := First(vs, Some(v));
      }
    }
    InsertAll([], KeepTruthy(vs))
  }

  /** `uniqueValues.map(v => ({value: v, label: v}))`. */
  function Options(catalog: seq<Breed>, f: Facet): (opts: seq<FacetOption>)
    ensures |opts| == |UniqueValues(catalog, f)|
    ensures forall i :: 0 <= i < |opts| ==> opts[i].value == UniqueValues(catalog, f)[i]
    ensures forall i :: 0 <= i < |opts| ==> opts[i].caption == opts[i].value
  {
    var u := UniqueValues(catalog, f);
    seq(|u|, i requires 0 <= i < |u| => FacetOption(u[i], u[i]))
  }

  /** `breedGroupOptions` of the view. */
  function BreedGroupOptions(catalog: seq<Breed>): seq<FacetOption> {
    Options(catalog, BreedGroup)
  }

  /** `originOptions` of the view. */
  function OriginOptions(catalog: seq<Breed>): seq<FacetOption> {
    Options(catalog, Origin)
  }

  /** The catalogue index at which value `v` of facet `f` first appears. */
  function FirstSeen(catalog: seq<Breed>, f: Facet, v: string): (i: nat)
    requires Some(v) in Project(catalog, f)
    ensures i < |catalog| && catalog[i].Get(f) == Some(v)
    ensures forall j :: 0 <= j < i ==> catalog[j].Get(f) != Some(v)
  {
    First(Project(catalog, f), Some(v))
  }

  // ---------------------------------------------------------------------
  // Ordering

  /** Dropping a later duplicate of a value already in `seen` shifts the
      first occurrence of every other value by the same amount, so it keeps
      their relative order. */
  lemma {:induction false} SkipDuplicateKeepsOrder(seen: seq<string>, x: string, t: seq<string>, y: string, z: string)
    requires x in seen && y in seen + t && z in seen + t
    ensures y in seen + ([x] + t) && z in seen + ([x] + t)
    ensures First(seen + t, y) < First(seen + t, z) <==> First(seen + ([x] + t), y) < First(seen + ([x] + t), z)
  {
    FirstConcat(seen, t, y);
    FirstConcat(seen, t, z);
    FirstConcat(seen, [x] + t, y);
    FirstConcat(seen, [x] + t, z);
    if y !in seen {
      assert ([x] + t)[1..] == t;
    }
    if z !in seen {
      assert ([x] + t)[1..] == t;
    }
  }

  /** The values a `Set` holds, in insertion order, are ordered by where
      they first occur in everything that was inserted. */
  lemma {:induction false} InsertAllFirstSeenOrder(seen: seq<string>, ws: seq<string>, p: nat, q: nat)
    requires NoDups(seen) && p < q < |InsertAll(seen, ws)|
    ensures First(seen + ws, InsertAll(seen, ws)[p]) < First(seen + ws, InsertAll(seen, ws)[q])
    decreases |ws|
  {
    var r := InsertAll(seen, ws);
    if ws == [] {
      assert r == seen && seen + ws == seen;
      FirstOfNoDups(seen, p);
      FirstOfNoDups(seen, q);
    } else if ws[0] in seen {
      assert r == InsertAll(seen, ws[1..]);
      InsertAllFirstSeenOrder(seen, ws[1..], p, q);
      assert r[p] in r && r[q] in r;
      assert ws == [ws[0]] + ws[1..];
      SkipDuplicateKeepsOrder(seen, ws[0], ws[1..], r[p], r[q]);
    } else {
      assert r == InsertAll(seen + [ws[0]], ws[1..]);
      InsertAllFirstSeenOrder(seen + [ws[0]], ws[1..], p, q);
      assert (seen + [ws[0]]) + ws[1..] == seen + ws;
    }
  }

  /** `.filter(Boolean)` keeps the relative order of first occurrences. */
  lemma {:induction false} KeepTruthyFirstSeenOrder(vs: seq<Option<string>>, v: string, w: string)
    requires v != "" && w != "" && Some(v) in vs && Some(w) in vs
    ensures v in KeepTruthy(vs) && w in KeepTruthy(vs)
    ensures First(KeepTruthy(vs), v) < First(KeepTruthy(vs), w) <==> First(vs, Some(v)) < First(vs, Some(w))
  {
    var tail := KeepTruthy(vs[1..]);
    var head := if Truthy(vs[0]) then [vs[0].value] else [];
    assert KeepTruthy(vs) == head + tail;
    if vs[0] == Some(v) {
      assert First(vs, Some(v)) == 0;
      assert First(head + tail, v) == 0;
    } else if vs[0] == Some(w) {
      assert First(vs, Some(w)) == 0;
      assert First(head + tail, w) == 0;
    } else {
      assert First(vs, Some(v)) == 1 + First(vs[1..], Some(v));
      assert First(vs, Some(w)) == 1 + First(vs[1..], Some(w));
      KeepTruthyFirstSeenOrder(vs[1..], v, w);
      FirstConcat(head, tail, v);
      FirstConcat(head, tail, w);
    }
  }

  /** The unique values of a facet appear in the order in which the
      catalogue first shows them. */
  lemma UniqueValuesFirstSeenOrder(catalog: seq<Breed>, f: Facet, p: nat, q: nat)
    requires p < q < |UniqueValues(catalog, f)|
    ensures Some(UniqueValues(catalog, f)[p]) in Project(catalog, f)
    ensures Some(UniqueValues(catalog, f)[q]) in Project(catalog, f)
    ensures FirstSeen(catalog, f, UniqueValues(catalog, f)[p]) < FirstSeen(catalog, f, UniqueValues(catalog, f)[q])
  {
    var vs := Project(catalog, f);
    var ws := KeepTruthy(vs);
    var r := UniqueValues(catalog, f);
    assert r == InsertAll([], ws);
    InsertAllFirstSeenOrder([], ws, p, q);
    assert [] + ws == ws;
    assert r[p] in r && r[q] in r;
    KeepTruthyFirstSeenOrder(vs, r[p], r[q]);
  }

  /** Options, stated on the option list itself: no two share a value, no
      value is empty, value and label coincide, a string is offered exactly
      when some record of the catalogue carries it, and options are listed in
      first-seen order. */
  lemma OptionsSpec(catalog: seq<Breed>, f: Facet)
    ensures var opts := Options(catalog, f);
      forall i, j :: 0 <= i < j < |opts| ==> opts[i].value != opts[j].value
    ensures var opts := Options(catalog, f);
      forall i :: 0 <= i < |opts| ==> opts[i].value != "" && opts[i].caption == opts[i].value
    ensures var opts := Options(catalog, f);
      forall v :: (exists i :: 0 <= i < |opts| && opts[i].value == v) <==>
        v != "" && exists k :: 0 <= k < |catalog| && catalog[k].Get(f) == Some(v)
    ensures var opts := Options(catalog, f);
      forall i, j :: 0 <= i < j < |opts| ==>
        Some(opts[i].value) in Project(catalog, f) && Some(opts[j].value) in Project(catalog, f) &&
        FirstSeen(catalog, f, opts[i].value) < FirstSeen(catalog, f, opts[j].value)
  {
    var u := UniqueValues(catalog, f);
    var opts := Options(catalog, f);
    forall v | v != "" && exists k :: 0 <= k < |catalog| && catalog[k].Get(f) == Some(v)
      ensures exists i :: 0 <= i < |opts| && opts[i].value == v
    {
      var i := First(u, v);
      assert opts[i].value == v;
    }
    forall i, j | 0 <= i < j < |opts|
      ensures Some(opts[i].value) in Project(catalog, f) && Some(opts[j].value) in Project(catalog, f)
      ensures FirstSeen(catalog, f, opts[i].value) < FirstSeen(catalog, f, opts[j].value)
    {
      UniqueValuesFirstSeenOrder(catalog, f, i, j);
    }
  }
}
