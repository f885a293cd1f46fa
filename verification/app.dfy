/** The `App` component with its hooks made explicit: one state snapshot,
    the values a render derives from it, and the events that change it. */
module App {
  import opened Breeds
  import opened Sequences
  import opened Facets
  import opened Filters
  import opened Detail

  /** The four `useState` slots. A facet selection is the option object the
      picker hands to its `onChange`, or `null` once cleared. */
  datatype State = State(
    breeds: seq<Breed>,
    selectedBreedGroup: Option<FacetOption>,
    selectedOrigin: Option<FacetOption>,
    selectedDog: Option<Breed>)

  /** Every slot as first rendered: an empty catalogue and nothing chosen. */
  const Init := State([], None, None, None)

  /** `selected.value` when a selection is present. */
  function SelectedValue(sel: Option<FacetOption>): (v: Option<string>)
    ensures v.None? <==> sel.None?
    ensures sel.Some? ==> v.value == sel.value.value
  {
    match sel
    case None => None
    case Some(o) => Some(o.value)
  }

  /** `filteredBreeds` as a render of `s` computes it. */
  function Filtered(s: State): seq<Breed> {
    ApplyFilters(s.breeds, SelectedValue(s.selectedBreedGroup), SelectedValue(s.selectedOrigin))
  }

  /** What a render shows: the two pickers' options, the grid, and the
      overlay's record. */
  datatype View = View(
    breedGroupOptions: seq<FacetOption>,
    originOptions: seq<FacetOption>,
    grid: seq<Breed>,
    overlay: Option<Breed>)

  function Render(s: State): View {
    View(BreedGroupOptions(s.breeds), OriginOptions(s.breeds), Filtered(s), s.selectedDog)
  }

  /** The events the component reacts to. `Loaded` is the fetch's
      completion; `ClickCard(k)` is a click on the k-th card of the grid. */
  datatype Event =
    | Loaded(data: seq<Breed>)
    | ChooseBreedGroup(choice: Option<FacetOption>)
    | ChooseOrigin(choice: Option<FacetOption>)
    | ClickCard(k: nat)
    | CloseOverlay

  /** An event can only come from something the page renders: a picker
      offers its options and a clear button, a card exists for each record
      of the grid, and the close button exists only while the overlay is
      shown. */
  predicate Enabled(s: State, e: Event) {
    match e
    case Loaded(_) => true
    case ChooseBreedGroup(c) => c.None? || c.value in BreedGroupOptions(s.breeds)
    case ChooseOrigin(c) => c.None? || c.value in OriginOptions(s.breeds)
    case ClickCard(k) => k < |Filtered(s)|
    case CloseOverlay => s.selectedDog.Some?
  }

  /** The state after one event. */
  function Step(s: State, e: Event): (t: State)
    requires Enabled(s, e)
    ensures e.Loaded? ==> t == s.(breeds := e.data)
    ensures e.ChooseBreedGroup? ==> t == s.(selectedBreedGroup := e.choice)
    ensures e.ChooseOrigin? ==> t == s.(selectedOrigin := e.choice)
    ensures e.ClickCard? ==> t == s.(selectedDog := Some(Filtered(s)[e.k]))
    ensures e.ClickCard? ==> t.selectedDog.Some? && t.selectedDog.value in s.breeds
    ensures e.ClickCard? ==> Matches(t.selectedDog.value, SelectedValue(s.selectedBreedGroup), SelectedValue(s.selectedOrigin))
    ensures e.CloseOverlay? ==> t == s.(selectedDog := None)
  {
    match e
    case Loaded(data) => s.(breeds := data)
    case ChooseBreedGroup(c) => s.(selectedBreedGroup := c)
    case ChooseOrigin(c) => s.(selectedOrigin := c)
    case ClickCard(k) =>
      var shown := Filtered(s);
      assert shown[k] in shown;
      s.(selectedDog := Open(s.selectedDog, shown[k]))
    case CloseOverlay => s.(selectedDog := Close(s.selectedDog))
  }

  /** Before the fetch completes the page shows no options, an empty grid
      and no overlay; the first render is not an error state. */
  lemma InitialView()
    ensures Render(Init).breedGroupOptions == [] && Render(Init).originOptions == []
    ensures Render(Init).grid == [] && Render(Init).overlay.None?
  {
  }

  /** The options of both pickers depend on the catalogue alone: changing
      a selection or the overlay never changes what is offered. */
  lemma OptionsIgnoreSelections(s: State, e: Event)
    requires Enabled(s, e) && !e.Loaded?
    ensures Render(Step(s, e)).breedGroupOptions == Render(s).breedGroupOptions
    ensures Render(Step(s, e)).originOptions == Render(s).originOptions
  {
  }

  /** Filtering and the overlay are independent: choosing or clearing a
      facet keeps the overlay, and opening or closing it keeps the grid. */
  lemma FilterAndOverlayIndependent(s: State, e: Event)
    requires Enabled(s, e)
    ensures (e.ChooseBreedGroup? || e.ChooseOrigin?) ==> Render(Step(s, e)).overlay == Render(s).overlay
    ensures (e.ClickCard? || e.CloseOverlay?) ==> Render(Step(s, e)).grid == Render(s).grid
  {
  }

  /** With both pickers cleared the grid is the whole catalogue, in order. */
  lemma ClearedShowsCatalogue(s: State)
    requires s.selectedBreedGroup.None? && s.selectedOrigin.None?
    ensures Render(s).grid == s.breeds
  {
  }

  /** Picking an offered option while the other picker is clear never
      empties the grid: the option came from some record, and that record
      passes the filter. */
  lemma OfferedOptionShowsSomething(catalog: seq<Breed>, f: Facet, o: FacetOption)
    requires o in Options(catalog, f)
    ensures f == BreedGroup ==> |ApplyFilters(catalog, Some(o.value), None)| > 0
    ensures f == Origin ==> |ApplyFilters(catalog, None, Some(o.value))| > 0
  {
  }

  // A worked example: three records, one of them without a breed group.

  function Akita(): Breed { Breed(1, "Akita", Some("Working"), Some("Japan"), None, None, None) }
  function Husky(): Breed { Breed(2, "Husky", Some("Working"), Some("Russia"), None, None, None) }
  function Pug(): Breed { Breed(3, "Pug", None, Some("China"), None, None, None) }

  /** The record without a breed group contributes no option. */
  lemma ScenarioGroupOptions()
    ensures UniqueValues([Akita(), Husky(), Pug()], BreedGroup) == ["Working"]
  {
    var g := Project([Akita(), Husky(), Pug()], BreedGroup);
    assert g == [Some("Working"), Some("Working"), None];
    assert g[1..][1..][1..] == [];
    assert KeepTruthy(g[1..][1..][1..]) == [];
    assert KeepTruthy(g[1..][1..]) == [];
    assert KeepTruthy(g[1..]) == ["Working"];
    var w := KeepTruthy(g);
    assert w == ["Working", "Working"];
    assert w[1..][1..] == [];
    assert InsertAll(["Working"], w[1..][1..]) == ["Working"];
    assert InsertAll(["Working"], w[1..]) == ["Working"];
  }

  /** Origins are offered in catalogue order. */
  lemma ScenarioOriginOptions()
    ensures UniqueValues([Akita(), Husky(), Pug()], Origin) == ["Japan", "Russia", "China"]
  {
    var o := Project([Akita(), Husky(), Pug()], Origin);
    assert o == [Some("Japan"), Some("Russia"), Some("China")];
    assert o[1..][1..][1..] == [];
    assert KeepTruthy(o[1..][1..][1..]) == [];
    assert KeepTruthy(o[1..][1..]) == ["China"];
    assert KeepTruthy(o[1..]) == ["Russia", "China"];
    assert KeepTruthy(o) == ["Japan", "Russia", "China"];
    ScenarioOriginInsertion();
  }

  /** Three distinct values enter the `Set` in order. */
  lemma ScenarioOriginInsertion()
    ensures InsertAll([], ["Japan", "Russia", "China"]) == ["Japan", "Russia", "China"]
  {
    var w := ["Japan", "Russia", "China"];
    assert w[1..] == ["Russia", "China"] && w[1..][1..] == ["China"] && w[1..][1..][1..] == [];
    assert InsertAll(["Japan", "Russia", "China"], []) == ["Japan", "Russia", "China"];
    assert "China" !in ["Japan", "Russia"];
    assert ["Japan", "Russia"] + ["China"] == ["Japan", "Russia", "China"];
    assert InsertAll(["Japan", "Russia"], ["China"]) == ["Japan", "Russia", "China"];
    assert "Russia" !in ["Japan"];
    assert ["Japan"] + ["Russia"] == ["Japan", "Russia"];
    assert InsertAll(["Japan"], ["Russia", "China"]) == ["Japan", "Russia", "China"];
  }

  /** Filtering by one group keeps both working dogs. */
  lemma ScenarioGroupFilter()
    ensures ApplyFilters([Akita(), Husky(), Pug()], Some("Working"), None) == [Akita(), Husky()]
  {
    var c := [Akita(), Husky(), Pug()];
    assert c[1..] == [Husky(), Pug()] && c[1..][1..] == [Pug()] && c[1..][1..][1..] == [];
    assert KeepEqual([Pug()], BreedGroup, "Working") == [];
    assert KeepEqual([Husky(), Pug()], BreedGroup, "Working") == [Husky()];
  }

  /** Filtering by group and origin keeps the one dog matching both. */
  lemma ScenarioBothFilters()
    ensures ApplyFilters([Akita(), Husky(), Pug()], Some("Working"), Some("Russia")) == [Husky()]
  {
    ScenarioGroupFilter();
    var ah := [Akita(), Husky()];
    assert ah[1..] == [Husky()] && ah[1..][1..] == [];
    assert KeepEqual([Husky()], Origin, "Russia") == [Husky()];
  }

  /** Filtering by a group nobody has empties the grid. */
  lemma ScenarioUnknownGroup()
    ensures ApplyFilters([Akita(), Husky(), Pug()], Some("Toy"), None) == []
  {
    var c := [Akita(), Husky(), Pug()];
    assert c[1..] == [Husky(), Pug()] && c[1..][1..] == [Pug()] && c[1..][1..][1..] == [];
    assert KeepEqual([Pug()], BreedGroup, "Toy") == [];
    assert KeepEqual([Husky(), Pug()], BreedGroup, "Toy") == [];
  }

  /** Open Akita, open Pug, close: the overlay ends closed. */
  lemma ScenarioOverlay()
    ensures Run(None, [OpenCard(Akita()), OpenCard(Pug()), CloseButton]) == None
  {
    RunIsLatestAction(None, [OpenCard(Akita()), OpenCard(Pug()), CloseButton]);
  }
}
