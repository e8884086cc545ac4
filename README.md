# Pokémon browser: pagination, search and modal state

This project models the logic of a small Next.js app that browses the public
Pokémon API. The server page (`app/page.tsx`) reads the `page` and `name` query
parameters. It then asks the API either for one Pokémon by name or for one page
of twenty, and hands the result to a table. The table
(`app/components/pokemonTable.tsx`) has three parts:

- a numbered pager of links, ellipses and hidden numbers;
- rows numbered from 1;
- a detail modal that opens when a row is clicked.

A client-side page (`app/components/PokemonPage.tsx`) searches one Pokémon by
name and can clear back to the list it is given. An evolution-trigger table
(`app/components/EvolutionTable.tsx`) pages five rows at a time with Prev/Next
buttons, and numbers the rows across pages. A global store
(`app/components/types.ts`) holds search and modal fields, with one setter per
field and two group resets.

Modules:

- `Numbers`: integer ceiling division, page offsets, and decimal rendering of page numbers.
- `Text`: JavaScript `trim` and (ASCII) `toLowerCase`.
- `Gateway`: the API's records, the by-name URL, and a fetch outcome `Fetched<T>`:
  - `Ok(body)` for a response with `ok`;
  - `NotOk` for a response without `ok`;
  - `Threw` for a rejected promise or a failed decode.
- `Store`: the store record, its two resets, and a `SearchStore` class with the eight setters.
- `PokemonTable`: the pager, link parsing, row numbers, and the modal transitions (class `TableView`).
- `PokemonPage`: the search, clear and baseline transitions (class `PokemonPageView`).
- `EvolutionTable`: offset, page count, Prev/Next, and row numbering (class `EvolutionTableView`).
- `ServerPage`: parameter normalisation and the server page's fetch-to-props mapping (method `Page`).

How the state is modelled differs by module:

- `Store`, `PokemonTable` and `PokemonPage` give the state a record (`StoreState`,
  `ModalState`, `PageState`). Each handler is a pure transition on that record, and
  a class with the same fields has methods proved equal to those transitions.
- `EvolutionTable`'s class `EvolutionTableView` has no record: its methods state
  the new value of each field directly, and the pure Prev/Next, offset and
  numbering functions beside it carry the lemmas.
- `ServerPage` has no state: `Page` is one method whose local `pokemons` and
  `count` are assigned in the fetch branches.

An `async` handler is split at its `await`:

- the first half returns the request it sends;
- the second half takes the request's outcome as a `Fetched` value.

Interleaving the halves of two calls lets the model state what happens when replies overlap.

Behaviour of the code that a reader might not expect, which the model keeps:

- An empty search in `PokemonPage`'s `handleSearch` restores the baseline and clears the error,
  but leaves `loading` as it was.
- A row-click request that rejects leaves `loading` true, so the modal keeps showing
  "Loading...".
- Closing the modal keeps `modalData`.
- The pokemonTable's "#" column restarts at 1 on every page.
- The search text goes into pager hrefs without URL-encoding.
- The `page` parameter is not clamped. On a page one outside `1..pageCount` (page 0,
  or one past the last page) the pager still draws one ellipsis in each gap. On a
  page two or more outside that range it draws only the first and last links, with
  no ellipsis between them.
- `types.ts`'s store is not read by any of the components here. It is modelled on its own.
- No file here renders `PokemonPage` (nor, through it, `EvolutionTable`); the server
  page renders `PokemonTable` directly. `initialPokemons` is modelled as a given prop.

## Model

| member | source | states |
|---|---|---|
| Numbers.CeilDiv | app/components/pokemonTable.tsx:71 | the page count is the least number of pages of `pageSize` that hold all `total` items |
| Numbers.ValueOfDecimal | app/components/pokemonTable.tsx:160 | the decimal text written into an href reads back as the page number |
| Numbers.DecimalOfValue | app/components/pokemonTable.tsx:160 | every canonical digit string is the decimal text of its value, so page numbers and their texts correspond one to one |
| Text.TrimStart | app/page.tsx:18 | the result is a suffix of the input, everything cut is whitespace, and it does not start with whitespace |
| Text.TrimEnd | app/page.tsx:18 | the result is a prefix of the input, everything cut is whitespace, and it does not end with whitespace |
| Text.TrimIsCore | app/page.tsx:18 | `trim` returns a slice of the input: whitespace only is removed, from both ends, and neither end of the result is whitespace |
| Text.TrimIdempotent | app/page.tsx:18 | trimming twice is trimming once |
| Text.ToLowerMapsAsciiOnly | app/page.tsx:18 | lower-casing keeps the length, maps `A`..`Z` to `a`..`z` and every other character to itself, leaves no upper-case letter, and is idempotent |
| Text.NormalizeIdempotent | app/page.tsx:18 | a name filter that is already trimmed and lower-cased is unchanged by normalising it again |
| Text.BlankNormalizesEmpty | app/page.tsx:18 | a name of whitespace only becomes the empty filter |
| Gateway.UrlRoundTrip | app/components/PokemonPage.tsx:46 | the name can be read back from the detail URL built for it |
| Gateway.UrlInjective | app/page.tsx:32 | distinct names get distinct detail URLs |
| Store.ResetTouchesSearchOnly | app/components/types.ts:50-56 | `reset(p)` gives `search = ''`, `pokemons = p`, `loading = false`, `error = null`, and leaves the four modal fields alone |
| Store.ResetModalTouchesModalOnly | app/components/types.ts:66-72 | `resetModal()` restores the four modal fields to their initial values and leaves the four search fields alone |
| Store.ResetIdempotent | app/components/types.ts:50-56 | of two resets the last one wins, and repeating a reset with the same baseline changes nothing |
| Store.ResetModalIdempotent | app/components/types.ts:66-72 | `resetModal` twice is `resetModal` once |
| Store.ResetsCommute | app/components/types.ts:50-72 | the two resets touch disjoint fields and commute; both with an empty baseline give the initial store |
| Store.SearchStore.constructor | app/components/types.ts:42-61 | the store starts with all eight fields at their initial values |
| Store.SearchStore.SetSearch | app/components/types.ts:46 | changes `search` only |
| Store.SearchStore.SetPokemons | app/components/types.ts:47 | changes `pokemons` only |
| Store.SearchStore.SetLoading | app/components/types.ts:48 | changes `loading` only |
| Store.SearchStore.SetError | app/components/types.ts:49 | changes `error` only |
| Store.SearchStore.Reset | app/components/types.ts:50-56 | the new state is `reset` applied to the old state |
| Store.SearchStore.SetModalOpen | app/components/types.ts:62 | changes `modalOpen` only |
| Store.SearchStore.SetModalData | app/components/types.ts:63 | changes `modalData` only |
| Store.SearchStore.SetModalTitle | app/components/types.ts:64 | changes `modalTitle` only |
| Store.SearchStore.SetModalLoading | app/components/types.ts:65 | changes `modalLoading` only |
| Store.SearchStore.ResetModal | app/components/types.ts:66-72 | the new state is `resetModal` applied to the old state |
| PokemonTable.PagerShape | app/components/pokemonTable.tsx:157-189 | no pager when a name filter is set. Otherwise the pager has one cell per number `1..ceil(total/pageSize)` in ascending order, and none when `total = 0`. A number is a Link iff it is 1, the last page, or within one of the current page. It is an Ellipsis iff it is not a Link and either it is `page-2` and greater than 1, or it is `page+2` and less than `pageCount`. A Link carries the href for its number and is marked current iff it is the current page |
| PokemonTable.Filter | app/components/pokemonTable.tsx:159-189 | dropping the `null` entries keeps exactly the cells that render, without adding any, in the same ascending order |
| PokemonTable.LinksAtMostFive | app/components/pokemonTable.tsx:162 | at most five links are shown |
| PokemonTable.EllipsesAtMostTwo | app/components/pokemonTable.tsx:178-187 | at most two ellipses are shown |
| PokemonTable.RenderedAtMostSeven | app/components/pokemonTable.tsx:159-189 | at most seven entries are shown |
| PokemonTable.GapHoldsOneEllipsis | app/components/pokemonTable.tsx:162-187 | with the current page in `0..pageCount+1`, between two consecutive links that are not adjacent numbers lies exactly one number next to the current window, which is drawn as an ellipsis |
| PokemonTable.OutOfRangePageHasNoEllipsis | app/components/pokemonTable.tsx:162-187 | on page 12 of 10 the pager shows only links 1 and 10, none of them current, and no ellipsis |
| PokemonTable.PageZeroKeepsEllipsis | app/components/pokemonTable.tsx:162-187 | on page 0 of 10 the pager shows links 1 and 10, none current, with an ellipsis at 2 |
| PokemonTable.PageAfterLastKeepsEllipsis | app/components/pokemonTable.tsx:162-187 | on page 11 of 10 the pager shows links 1 and 10, none current, with an ellipsis at 9 |
| PokemonTable.PagerExample | app/components/pokemonTable.tsx:162-187 | on page 5 of 10 the pager shows links 1, 4, 5 (current), 6 and 10, and ellipses at 3 and 7 |
| PokemonTable.HrefRoundTrip | app/components/pokemonTable.tsx:160 | `ParseHref`, a plain-text reader of the href built as `/?page=<num>` plus `&name=<search>` when the search text is non-empty, recovers the number and the text |
| PokemonTable.ParsedHrefIsCanonical | app/components/pokemonTable.tsx:160 | every string that parses as a pager href is exactly the href of what it parses to |
| PokemonTable.HrefInjective | app/components/pokemonTable.tsx:160 | different page numbers or search texts give different hrefs |
| PokemonTable.RowNumbers | app/components/pokemonTable.tsx:27 | the "#" column of row `i` shows `i + 1` |
| PokemonTable.RowClickOutcome | app/components/pokemonTable.tsx:84-94 | a click opens the modal on "Loading..." at once. When the request settles, the modal shows the body of an `ok` response, or "Not found." with `modalData = null` for a response without `ok`; either way `loading` becomes false. After a rejected request it stays on "Loading..." |
| PokemonTable.CloseBeforeReply | app/components/pokemonTable.tsx:199 | close hides the modal and changes nothing else. A reply that arrives after the close still stores its detail, but the modal stays hidden |
| PokemonTable.TableView.constructor | app/components/pokemonTable.tsx:65-68 | the filter box starts with `filterName`, and the modal starts closed, empty and not loading |
| PokemonTable.TableView.SetSearch | app/components/pokemonTable.tsx:105 | typing changes the filter box only |
| PokemonTable.TableView.HandleRowClick | app/components/pokemonTable.tsx:84-87 | `loading` and `modalOpen` become true, and the request goes to the detail URL of the clicked row's name |
| PokemonTable.TableView.RowClickSettled | app/components/pokemonTable.tsx:87-94 | the new state is the row-click transition for the outcome |
| PokemonTable.TableView.CloseModal | app/components/pokemonTable.tsx:199 | only `modalOpen` changes, to false |
| PokemonPage.EmptySearchIsClear | app/components/PokemonPage.tsx:30-34 | searching with an empty box restores `initialPokemons`, clears the error, keeps `loading`, and looks nothing up |
| PokemonPage.SearchStartsLookup | app/components/PokemonPage.tsx:35-40 | a non-empty search sets `loading` and clears the error before the lookup, which asks for the lower-cased text |
| PokemonPage.SearchOutcome | app/components/PokemonPage.tsx:41-57 | after a non-empty search settles, `loading` is false and exactly one of these holds: (1) for `ok`, a one-item list of the returned name and its URL, with the table shown; (2) for a response without `ok`, an empty list with "Not found"; (3) for a thrown error, an empty list with "Error fetching data". The table is shown iff the response had `ok` |
| PokemonPage.ClearRestoresBaseline | app/components/PokemonPage.tsx:61-65 | clear empties the box, restores `initialPokemons`, clears the error and keeps `loading`. The table shows iff nothing is loading, and clearing twice is clearing once |
| PokemonPage.BaselineReplacesList | app/components/PokemonPage.tsx:24-26 | a new `initialPokemons` replaces the list and leaves the text, flag and error |
| PokemonPage.LateSuccessKeepsStaleError | app/components/PokemonPage.tsx:41-57 | when a success settles after a failed lookup, it sets the list but keeps "Not found", so the table stays hidden |
| PokemonPage.PokemonPageView.constructor | app/components/PokemonPage.tsx:18-21 | the state starts with the baseline list, empty text, not loading, and no error |
| PokemonPage.PokemonPageView.SetSearch | app/components/PokemonPage.tsx:71 | typing changes the text only |
| PokemonPage.PokemonPageView.HandleSearch | app/components/PokemonPage.tsx:29-40 | the state and the lookup are those of the search-start transition |
| PokemonPage.PokemonPageView.SearchSettled | app/components/PokemonPage.tsx:41-57 | the new state is the search-finish transition for the outcome |
| PokemonPage.PokemonPageView.HandleClear | app/components/PokemonPage.tsx:61-65 | the new state is the clear transition |
| PokemonPage.PokemonPageView.InitialPokemonsChanged | app/components/PokemonPage.tsx:24-26 | the new state is the baseline transition |
| EvolutionTable.RowNumbers | app/components/EvolutionTable.tsx:63 | row `idx` of a page shows `offset + idx + 1` |
| EvolutionTable.PrevStep | app/components/EvolutionTable.tsx:88-89 | Prev never takes a page at or above 1 below 1. Prev is enabled iff the update moves back exactly one page |
| EvolutionTable.NextStep | app/components/EvolutionTable.tsx:98-99 | Next never passes the page count, and an enabled Next moves forward exactly one page |
| EvolutionTable.PrevThenNext | app/components/EvolutionTable.tsx:88-99 | after an enabled Prev, Next is enabled and comes back to the same page |
| EvolutionTable.EveryTriggerOnOnePage | app/components/EvolutionTable.tsx:16-32 | every item of the listing lies on exactly one page between 1 and `ceil(count/5)`, the page whose offset `(page-1)*5` it follows |
| EvolutionTable.NumberingIsConsecutive | app/components/EvolutionTable.tsx:57-63 | a full page's last number is one less than the next page's first, and row `idx` of page `p` shows `(p-1)*5 + idx + 1` |
| EvolutionTable.LastPageHasRows | app/components/EvolutionTable.tsx:16-32 | the last page of a non-empty listing starts inside it |
| EvolutionTable.EvolutionTableView.constructor | app/components/EvolutionTable.tsx:11-14 | the table starts with no rows, not loading, on page 1, with count 0 |
| EvolutionTable.EvolutionTableView.StartFetch | app/components/EvolutionTable.tsx:19-23 | `loading` becomes true and the request asks for `limit = 5` at offset `(page-1)*5`, which is never negative |
| EvolutionTable.EvolutionTableView.FetchSettled | app/components/EvolutionTable.tsx:24-29 | a reply sets `data = results`, `count = json.count` and `loading = false`; a rejected chain changes nothing. Row `idx` of the table then shows `(page-1)*5 + idx + 1` |
| EvolutionTable.EvolutionTableView.ClickPrev | app/components/EvolutionTable.tsx:88-89 | a disabled Prev does nothing. An enabled one moves `page` back one and says the page changed, and the page stays at least 1. The rows held are renumbered for the new page, each five lower |
| EvolutionTable.EvolutionTableView.ClickNext | app/components/EvolutionTable.tsx:98-99 | a disabled Next does nothing. An enabled one moves `page` forward one, never past the page count, and says the page changed. The rows held are renumbered for the new page, each five higher |
| ServerPage.Page | app/page.tsx:15-48 | page size 20; the request is by name when the name is non-empty, otherwise for 20 items at offset `(page-1)*20`. By name: `ok` gives one item `{name, base + name}` with count 1, and a response without `ok` gives `[]` and 0. Listing: `ok` gives `results` with `json.count`, and a response without `ok` gives `[]` and 0. A thrown error fails the render |
| ServerPage.DefaultsToFirstPage | app/page.tsx:16-18 | with no parameters the page is 1, the name is empty and the offset is 0 |
| ServerPage.BlankNameLists | app/page.tsx:18-23 | a name of spaces only lists the collection |
| ServerPage.NameIsNormal | app/page.tsx:18 | the name filter is trimmed and lower-cased, and normalising it again changes nothing |
| ServerPage.ResultFeedsTable | app/page.tsx:53-59 | a name lookup hides the pager; a listing's pager has `ceil(total/20)` numbers |
| ServerPage.LastPageOffsetInside | app/page.tsx:38 | the last page of a non-empty listing starts at an offset inside it |

## Left out

- Every `fetch`, the JSON decoding and the HTTP status. Each request is modelled as the value it settles to, passed in as an `Ok`/`NotOk`/`Threw` outcome.
- The timing of concurrent handlers. Each half of a handler is one atomic step, and an interleaving is a sequence of those steps.
- JSX markup, CSS classes, `next/image`, `next/link` and the `@tanstack/react-table` internals. The modal's content is modelled only as which of four views it shows.
- `app/components/Modal.tsx`, `app/components/SearchBar.tsx`, `app/components/Header.tsx` and `middleware.ts` are not part of this model. They only render markup or copy a header.
- `PokemonDetail.baseExperience` (types.ts:11) is carried as a field, but nothing in the code reads it. Names are capitalised only by the CSS class `capitalize`, which is markup.
- ServerPage.PageParam: takes the page as an integer or absent. JavaScript `Number()` on arbitrary text (NaN, fractions) is not modelled.
- Numbers.CeilDiv: uses integer ceiling division in place of floating-point `Math.ceil(total / pageSize)`; the two agree on the integer inputs modelled.
- Text.ToLowerMapsAsciiOnly: its contract, like `Text.ToLower` itself, says lower-casing keeps the length and maps every character outside `A`..`Z` to itself. JavaScript's `toLowerCase` also maps letters outside ASCII ('É' to 'é'), and can change the length ('İ' becomes two code units). Full Unicode case mapping is not modelled: it needs Unicode's case tables, which the model does not carry.
- ServerPage.Page: the listing request is the value `ListPage(limit, offset)` rather than the URL text, and a body without `results` is not modelled.
- PokemonTable.HrefRoundTrip: the round trip is through the model's own plain-text reader `ParseHref`. The server page reads the query with a URL parser, which splits at `&`, stops at `#` and decodes `+` and `%xx`. Because the href does not URL-encode the search text, a text holding any of `& # + %` reaches the server page changed: `Href(2, "a&page=3")` is `/?page=2&name=a&page=3`, which the server page reads as name `a`. URL query parsing is not modelled.
- PokemonTable.TableView: the `filterName` prop seeds the filter box once; a later change of that prop does not reach it, as in the component, and that is not modelled further.
- EvolutionTable.EvolutionTableView.FetchSettled: a reply without `results` or `count` (which would store `undefined`) is not modelled.
