# Every Dog — facet filtering and detail selection

A Dafny model of the logic inside the single `App` component of the Every Dog
catalogue viewer. The viewer fetches a list of dog breeds, offers two pickers
(breed group and origin) whose options are derived from the catalogue,
narrows the grid of cards by the chosen options, and shows one breed in a
detail overlay when its card is clicked.

Modules:

- `Breeds` (`breeds.dfy`): the breed record; `Option<string>` for attributes
  that may be `undefined`/`null`; JavaScript truthiness of such a value.
- `Sequences` (`sequences.dfy`): no-duplicates, first occurrence, reading a
  sequence at a list of positions (`Gather`), and moving positions one place
  right (`Shift`).
- `Facets` (`facets.dfy`): `map` → `.filter(Boolean)` → `Array.from(new Set(...))`
  → `{value, label}` options, each stage as its own function.
- `Filters` (`filters.dfy`): the guarded group filter followed by the guarded
  origin filter, and an independent description of the positions it keeps
  (`MatchingPositions`, characterised by the predicate `ListsMatches`).
- `Detail` (`detail.dfy`): the `selectedDog` slot and its open/close actions.
- `App` (`app.dfy`): the four `useState` slots as one `State`, what a render
  derives from it, the events the page can raise, and a worked three-breed
  example.

React's hooks become explicit values: a render is the pure function
`App.Render`, and each event handler is a case of `App.Step`. The fetch
result enters only as the `Loaded(data)` event, whose payload is a parameter.

## Model

| member | source | states |
|---|---|---|
| Facets.Project | src/App.jsx:19 | `breeds.map(b => b.breed_group)` (or `b.origin`) has one entry per record, the attribute of the record at the same position |
| Facets.KeepTruthy | src/App.jsx:19 | a string survives `.filter(Boolean)` exactly when it is non-empty and some projected value is that string; never more values than went in |
| Facets.InsertAll | src/App.jsx:18-20 | inserting into a JavaScript `Set`: the result has no duplicates, keeps what the set already held as a prefix, and holds exactly the old contents plus the inserted values |
| Facets.UniqueValues | src/App.jsx:18-20 | the distinct values of a facet have no duplicates and contain a string exactly when it is non-empty and some catalogue record carries it |
| Facets.Options | src/App.jsx:22-25 | the option list has the length and order of the distinct values, and each option's label equals its value |
| Facets.InsertAllFirstSeenOrder | src/App.jsx:18-20 | a `Set` lists its values in the order of their first insertion |
| Facets.KeepTruthyFirstSeenOrder | src/App.jsx:19 | `.filter(Boolean)` keeps the relative order of the values' first occurrences |
| Facets.UniqueValuesFirstSeenOrder | src/App.jsx:27-29 | if a distinct value comes before another, its first catalogue index is smaller |
| Facets.OptionsSpec | src/App.jsx:17-34 | options have pairwise distinct, non-empty values with label equal to value; a string is offered exactly when a catalogue record carries it; options follow first-seen catalogue order |
| Filters.KeepEqual | src/App.jsx:64-66 | a record survives exactly when it is in the input and its attribute is the selected string |
| Filters.FilterFacet | src/App.jsx:63-67 | without a selection the list is returned unchanged; with one, a record survives exactly when it matches |
| Filters.ApplyFilters | src/App.jsx:60-73 | a record is in `filteredBreeds` exactly when it is in the catalogue and matches every present selection; with no selection the result is the catalogue itself |
| Filters.MatchingPositions | src/App.jsx:63-73 | the positions of the catalogue whose record matches every present selection, strictly increasing and within bounds; a position is listed exactly when its record matches |
| Filters.FilteredIsGathered | src/App.jsx:61-73 | `filteredBreeds` is the catalogue read at exactly the matching positions, in increasing order: an order-preserving subsequence that keeps every matching record and nothing else (a single facet step is the case with the other selection cleared) |
| Filters.KeepEqualCommute | src/App.jsx:63-73 | two equality filters give the same list in either order |
| Filters.ApplyFiltersCommute | src/App.jsx:63-73 | filtering by origin first and group second yields the same list as the code's group-then-origin order |
| Detail.OpenReplaces | src/App.jsx:120 | the contract of the setter call `setSelectedDog(breed)` (`Detail.Open`): opening shows the opened record whatever was shown, so a second open replaces the first |
| Detail.CloseIdempotent | src/App.jsx:142 | the contract of the setter call `setSelectedDog(null)` (`Detail.Close`): closing leaves nothing shown, and closing twice equals closing once |
| Detail.RunIsLatestAction | src/App.jsx:118-142 | after any sequence of opens and closes the overlay shows the latest open's record, or nothing if the latest action was a close |
| App.SelectedValue | src/App.jsx:65 | `selectedBreedGroup.value` (likewise `selectedOrigin.value`, line 71): present exactly when a selection is present, and then the chosen option's value |
| App.Step | src/App.jsx:97-142 | each event changes only its own slot; a click on the k-th card opens exactly that card's record, which is in the catalogue and matches the current selections |
| App.InitialView | src/App.jsx:9 | before the fetch completes (`useState([])`, with both selections and the overlay `null`) the page shows no options, an empty grid and no overlay |
| App.OptionsIgnoreSelections | src/App.jsx:27-29 | the pickers' options are computed from the full catalogue, so choosing, clearing, opening or closing never changes them |
| App.FilterAndOverlayIndependent | src/App.jsx:56-80 | choosing a facet keeps the overlay, and opening or closing the overlay keeps the grid |
| App.ClearedShowsCatalogue | src/App.jsx:61 | with both pickers cleared the grid is the whole catalogue in its order |
| App.OfferedOptionShowsSomething | src/App.jsx:63-72 | choosing an offered option while the other picker is clear never yields an empty grid |

## Left out

- The fetch of `https://api.thedogapi.com/v1/breeds` and JSON decoding (src/App.jsx:5, 11-15): network I/O. The decoded list is the payload of the `Loaded` event, so only an array of breed records can arrive. The code has no error handling. When `fetch` or `res.json()` rejects, `setBreeds` is never called and the catalogue stays empty. But a non-2xx response with a JSON body resolves both promises, and `setBreeds` then receives whatever object the server sent; the next render's `breeds.map` would throw on a non-array. Such a payload is outside the model, and no failure state is modelled.
- React's `useState`/`useEffect` machinery and re-rendering: replaced by the explicit `State`, `Render` and `Step`.
- The `react-select` component and `selectCustomStyles` (src/App.jsx:36-54, 92-110): a foreign UI library and styling. What the picker can hand to `onChange` (one of its options, or `null` when cleared) is captured by `App.Enabled`.
- JSX markup, image URL construction and the `"Unknown"` fallback of the overlay (src/App.jsx:114-168): presentation only.
- Attribute values that are neither strings nor absent (numbers, objects): the API delivers strings, so attributes are `Option<string>`, and `===` on them is equality of `Option<string>`.
- The option field `label` is called `caption` in `Facets.FacetOption`, because `label` is a Dafny keyword.
- A selection is tested for presence as an object (`if (selectedBreedGroup)`), not by its value, so a selection whose value is the empty string would still filter. The model keeps that: any `Some(v)` filters. The pickers never offer an empty value, so the case is unreachable through the page.
