# Widget catalog of the CNAPP dashboard, in Dafny

This project models the client-side state of a dashboard of "widgets" (small
data cards) grouped into categories. Two parts of the code have behaviour of their own:

- **The store** (`src/store/dashboardStore.ts`). It holds an ordered list of
  categories, each with an ordered list of widgets, and a search term. It has
  five operations: `addWidget`, `removeWidget`, `setSearchTerm`,
  `getFilteredWidgets` and `initializeData`. The store is the class
  `Catalog.Store` with the fields `categories` and `searchTerm`. Its methods
  replace those fields with values computed by pure functions:
  `AddTo`, `RemoveFrom` and `InitialData`. The query `getFilteredWidgets`
  changes no field; it returns `FilterWidgets` of the current fields.
- **The add-widget dialog** (`src/components/AddWidgetModal.tsx`). It has a
  table of predefined widgets per tab and local state: the selected category,
  the name and text fields, and the set of selected predefined names. Three
  handlers act on this state and on the store. The dialog is the class
  `Modal.AddWidgetModal`. It holds a reference to the store, and its handlers
  call the store's methods.

Module layout:

- `text.dfy` holds the string primitives: `toLowerCase` (`Lower`), `includes`
  (`Includes`) and `trim` (`Trim`, `IsBlank`).
- `seqs.dfy` holds `Array.prototype.filter` (`Filter`). It also proves what
  `Filter` keeps: exactly the satisfying elements, in their original order.
- `catalog.dfy` holds the store.
- `modal.dfy` holds the dialog.
- `wrappers.dfy` holds `Option`.

Widget ids come from `Date.now().toString()`, so they are not parameters of
the source. In the model, `Store.AddWidget` takes the id as a parameter.
`HandleAddPredefinedWidgets` takes `stamps: nat -> string`, where `stamps(j)`
is the clock reading of the j-th `addWidget` call of its loop. Nothing in the
model claims that ids are unique. The loop can call `addWidget` several times
within one millisecond, so several widgets can share an id. `removeWidget`
then drops all of them (`RemoveFrom`, `Without`).

## Model

| member | source | states |
|---|---|---|
| `Text.LowerChar` | src/store/dashboardStore.ts:138-139 | the lower-cased character is never an upper-case letter; only upper-case letters change, each to its lower-case counterpart |
| `Text.Lower` | src/store/dashboardStore.ts:138-139 | `toLowerCase` keeps the length and lower-cases each position |
| `Text.LowerIdempotent` | src/store/dashboardStore.ts:138-139 | lower-casing twice is lower-casing once |
| `Text.Includes` | src/store/dashboardStore.ts:138-139 | the empty needle is always included, and a needle longer than the haystack never is |
| `Text.IncludesIff` | src/store/dashboardStore.ts:138-139 | `includes` holds exactly when the needle occurs at some position of the haystack |
| `Text.TrimStartShape` | src/components/AddWidgetModal.tsx:54 | what `TrimStart` keeps is a suffix; everything dropped is white space; what is kept does not start with white space |
| `Text.TrimEndShape` | src/components/AddWidgetModal.tsx:54 | what `TrimEnd` keeps is a prefix; everything dropped is white space; what is kept does not end with white space |
| `Text.Trim` | src/components/AddWidgetModal.tsx:54 | `trim` never lengthens the string; a non-empty result neither starts nor ends with white space; an all-white-space string trims to empty (what the result is, `TrimShape` states) |
| `Text.TrimShape` | src/components/AddWidgetModal.tsx:54 | `trim` returns the contiguous part `s[a..b]` of `s` with only white space before `a` and after `b`, i.e. the part between the leading and the trailing white space |
| `Text.IsBlank` | src/components/AddWidgetModal.tsx:54 | `!s.trim()` holds exactly when every character of `s` is white space |
| `Text.BlankIffAllSpace` | src/components/AddWidgetModal.tsx:54 | `!s.trim()` holds exactly when every character of `s` is white space (so the empty string is blank) |
| `Seqs.Filter` | src/store/dashboardStore.ts:118 | `filter` never lengthens the sequence, and every kept element satisfies the callback |
| `Seqs.FilterPicks` | src/store/dashboardStore.ts:118 | `filter` returns the elements at strictly increasing positions, and those positions are exactly the ones whose element satisfies the callback |
| `Seqs.FilterContains` | src/store/dashboardStore.ts:137-140 | an element survives `filter` exactly when it was present and satisfies the callback |
| `Seqs.FilterAppend` | src/components/AddWidgetModal.tsx:71-75 | filtering a concatenation is concatenating the filtered parts (each `forEach` step extends the chosen drafts by at most the current one) |
| `Seqs.FilterKeepsAll` | src/store/dashboardStore.ts:118 | when every element satisfies the callback, `filter` returns the sequence unchanged |
| `Catalog.Stamp` | src/store/dashboardStore.ts:105 | the new widget carries the given id and keeps the draft's name, text, kind and data unchanged |
| `Catalog.InitialData` | src/store/dashboardStore.ts:28-93 | the seed has three categories, `cspm`, `cwpp` and `registry` in that order, each with two widgets of distinct ids |
| `Catalog.InitialDataShape` | src/store/dashboardStore.ts:28-93 | the seed's list of category ids is exactly `cspm`, `cwpp`, `registry` |
| `Catalog.AddTo` | src/store/dashboardStore.ts:99-110 | same number, order, ids and names of categories; a category with another id is unchanged; a matching category's widgets become its old widgets followed by one widget with the draft's name, text, kind and data and the given id |
| `Catalog.AddToKeepsIds` | src/store/dashboardStore.ts:101-108 | `addWidget` leaves the list of category ids unchanged |
| `Catalog.AddToAbsent` | src/store/dashboardStore.ts:101-108 | `addWidget` with a category id that no category carries leaves the catalog equal to before |
| `Catalog.Without` | src/store/dashboardStore.ts:118 | a widget survives exactly when it was present and its id differs from the removed id; the list never grows |
| `Catalog.WithoutKeepsOrder` | src/store/dashboardStore.ts:118 | the survivors are the old widgets with another id, all of them, in their original relative order |
| `Catalog.WithoutAbsent` | src/store/dashboardStore.ts:118 | removing an id that no widget carries changes nothing |
| `Catalog.RemoveFrom` | src/store/dashboardStore.ts:112-123 | same number, order, ids and names of categories; a category with another id is unchanged; in a matching category no widget with the id remains and every widget with another id stays |
| `Catalog.RemoveFromKeepsIds` | src/store/dashboardStore.ts:114-121 | `removeWidget` leaves the list of category ids unchanged |
| `Catalog.RemoveFromKeepsOrder` | src/store/dashboardStore.ts:114-121 | in the target category, the survivors are exactly the old widgets with another id, in their original order |
| `Catalog.RemoveFromAbsent` | src/store/dashboardStore.ts:114-121 | removing an id absent from the target category is a no-op on the whole catalog |
| `Catalog.RemoveUndoesAdd` | src/store/dashboardStore.ts:99-123 | removing the id just added, when no widget of the target category carried it before, restores the catalog exactly |
| `Catalog.Flatten` | src/store/dashboardStore.ts:133-135 | the flattened list has one entry per widget of the catalog |
| `Catalog.FlattenAt` | src/store/dashboardStore.ts:133-135 | widget j of category k comes after every widget of the earlier categories and is tagged with category k's id, so the order is category order, then widget order |
| `Catalog.FlattenContains` | src/store/dashboardStore.ts:133-135 | a tagged widget is in the flattened list exactly when some category with that id holds the widget |
| `Catalog.Matches` | src/store/dashboardStore.ts:137-140 | the filter callback holds exactly when the lower-cased term occurs at some position of the lower-cased name or of the lower-cased text |
| `Catalog.FilterWidgets` | src/store/dashboardStore.ts:129-141 | an empty term gives no hits, whatever the catalog holds; otherwise a tagged widget is a hit exactly when a category with that id holds the widget and its lower-cased name or text contains the lower-cased term |
| `Catalog.FilterWidgetsOrdered` | src/store/dashboardStore.ts:133-140 | for a non-empty term the hits are the flattened widgets at strictly increasing positions, exactly the matching ones |
| `Catalog.FilterWidgetsCaseInsensitive` | src/store/dashboardStore.ts:137-140 | two terms that lower-case alike give the same hits |
| `Catalog.Store.constructor` | src/store/dashboardStore.ts:95-97 | the store starts with no categories and an empty search term, so its category ids are trivially as seeded |
| `Catalog.Store.AddWidget` | src/store/dashboardStore.ts:99-110 | `categories` becomes `AddTo` of the old categories; `searchTerm` is unchanged; category ids that were the seed's stay the seed's |
| `Catalog.Store.RemoveWidget` | src/store/dashboardStore.ts:112-123 | `categories` becomes `RemoveFrom` of the old categories; `searchTerm` is unchanged; category ids that were the seed's stay the seed's |
| `Catalog.Store.SetSearchTerm` | src/store/dashboardStore.ts:125-127 | only `searchTerm` changes; `categories` is untouched |
| `Catalog.Store.GetFilteredWidgets` | src/store/dashboardStore.ts:129-141 | with an empty term the query returns nothing; otherwise a tagged widget is a hit exactly when a category of the store with that id holds the widget and the widget matches the term, and the hits are the matching flattened widgets in catalog order (strictly increasing positions, none skipped) |
| `Catalog.Store.InitializeData` | src/store/dashboardStore.ts:143-145 | `categories` becomes the seed whatever it held before, so applying it twice is applying it once; `searchTerm` is unchanged; the category ids are the seed's |
| `Modal.PredefinedTableShape` | src/components/AddWidgetModal.tsx:23-44 | the table has exactly the tabs `cspm`, `cwpp`, `image` and `ticket`, each offering three drafts with distinct names |
| `Modal.PredefinedFor` | src/components/AddWidgetModal.tsx:69 | a key absent from the table yields no drafts; each of the four tab keys yields three |
| `Modal.TableKeysAgainstSeed` | src/components/AddWidgetModal.tsx:34-43 | the table keys `image` and `ticket` are not seeded category ids; the seeded `registry` has no table entry |
| `Modal.InitialCategory` | src/components/AddWidgetModal.tsx:48 | the selected category starts as the given default unless it is absent or empty, in which case it is `cspm` |
| `Modal.Toggle` | src/components/AddWidgetModal.tsx:81-89 | the toggled name's membership flips; every other name keeps its membership |
| `Modal.ToggleTwice` | src/components/AddWidgetModal.tsx:81-89 | toggling the same name twice restores the selection |
| `Modal.Chosen` | src/components/AddWidgetModal.tsx:71-75 | the drafts the loop adds are no more than the tab offers, and every one of them has a selected name |
| `Modal.AddAll` | src/components/AddWidgetModal.tsx:71-75 | repeated `addWidget` calls keep the number, order, ids and names of the categories |
| `Modal.AddAllSnoc` | src/components/AddWidgetModal.tsx:71-75 | one more `addWidget` call at the end of the loop applies `AddTo` with the next clock reading |
| `Modal.AddAllEffect` | src/components/AddWidgetModal.tsx:71-75 | after repeated `addWidget` calls, every matching category holds its old widgets followed by `StampAll(ds, stamps)`, that is, the j-th draft stamped with the j-th clock reading, in call order; other categories, ids and names are unchanged |
| `Modal.AddAllAbsent` | src/components/AddWidgetModal.tsx:71-75 | repeated `addWidget` calls for a category id no category carries leave the catalog unchanged |
| `Modal.ImageAndTicketAddNothing` | src/components/AddWidgetModal.tsx:34-43 | confirming from the `image` or `ticket` tab leaves a seeded (or not yet seeded) catalog unchanged, whatever is selected |
| `Modal.ChosenExactly` | src/components/AddWidgetModal.tsx:71-72 | the added drafts are exactly the tab's drafts whose name is selected, in table order |
| `Modal.AddWidgetModal.constructor` | src/components/AddWidgetModal.tsx:46-51 | the dialog starts with the default (or `cspm`) category, empty name and text fields, and an empty selection |
| `Modal.AddWidgetModal.SelectCategory` | src/components/AddWidgetModal.tsx:109 | only the selected category changes |
| `Modal.AddWidgetModal.SetWidgetName` | src/components/AddWidgetModal.tsx:176 | only the name field changes |
| `Modal.AddWidgetModal.SetWidgetText` | src/components/AddWidgetModal.tsx:186 | only the text field changes |
| `Modal.AddWidgetModal.HandleWidgetToggle` | src/components/AddWidgetModal.tsx:81-89 | the selection becomes `Toggle` of the old selection; nothing else changes |
| `Modal.AddWidgetModal.HandleAddCustomWidget` | src/components/AddWidgetModal.tsx:53-66 | a blank name or text changes nothing, neither in the dialog nor in the store; otherwise it makes exactly one `addWidget` call, with the selected category and a `metric` widget carrying the untrimmed name and text, then clears both fields and closes the dialog |
| `Modal.AddWidgetModal.HandleAddPredefinedWidgets` | src/components/AddWidgetModal.tsx:68-79 | the store's categories become the old ones with the selected drafts of the current tab added in table order, the j-th with the j-th clock reading; the selection is emptied and the dialog closed |

Each store method is tied to its specification function. The properties are
proved about that function: `AddTo` with `AddToAbsent`, `AddToKeepsIds` and
`RemoveUndoesAdd`; `RemoveFrom` with `RemoveFromKeepsOrder` and
`RemoveFromAbsent`; `FilterWidgets` with `FilterWidgetsOrdered`,
`FlattenAt`, `FlattenContains` and `FilterWidgetsCaseInsensitive`.
`ImageAndTicketAddNothing` covers every catalog whose category ids are the
seed's, and the empty one. `Store.IdsAsSeeded` states that condition on the
store, and every operation of `Store` keeps it: the constructor starts empty,
`InitializeData` sets the seed, `SetSearchTerm` leaves the catalog alone, and
`AddWidget` and `RemoveWidget` keep the category ids (`AddToKeepsIds`,
`RemoveFromKeepsIds`).

In a few places the code gives less than the intended design of the catalog
(unique ids, one widget per removal). The model follows the code:

- Widget ids are meant to be unique. The code takes them from the clock, and
  the predefined handler can add several widgets within one millisecond.
- `removeWidget` is meant to remove one widget. The code filters out every
  widget of the target category that carries the id.
- Category ids are assumed unique but nothing enforces it. `addWidget` and
  `removeWidget` act on every category whose id matches.

## Left out

- `Text.Lower`: `toLowerCase` is modelled on ASCII only. Other letters, and case mappings that change the length, are not modelled.
- `Text.TrimStartShape`, `Text.TrimEndShape`, `Text.TrimShape`, `Text.Trim`, `Text.IsBlank`: `trim` strips ASCII white space only (space, tab, line feed, carriage return, vertical tab, form feed). Unicode spaces, the byte-order mark and line separators are not modelled, so a name made only of U+00A0 is blank for JavaScript but not for `IsBlank`.
- The clock (`Date.now()`) is replaced by id parameters. Unique ids are neither modelled nor claimed.
- The untyped `data` payload is an `Option` of a tagged union with one variant per shape the seed uses. The store only copies it.
- `onOpenChange(false)` is a callback into the dialog's owner. It is modelled as clearing the dialog's `open` field.
- A key looked up in `predefinedWidgets` that names an inherited object property (such as `constructor`) is treated as absent. In JavaScript that lookup would not yield `[]`. The selected category only ever takes tab keys or category ids, which are not such names.
- The zustand `create`/`set`/`get` plumbing and React re-rendering are not modelled. `useState` hooks become class fields, and the store's state becomes the two fields of `Store`.
- Rendering is not modelled: the JSX of the dialog, the disabled bindings of its buttons, and the components `Dashboard.tsx`, `DashboardCategory.tsx`, `WidgetCard.tsx` and `WidgetChart.tsx`. The floating-point progress widths in `WidgetCard.tsx` are left out as well.
- The concrete searches over the seed are not proved as concrete instances: `alert` giving the two `cwpp` alert widgets, and `CLOUD` giving the two cloud widgets. They follow from `FilterWidgets`, `Matches` and `FilterWidgetsCaseInsensitive`; proving them as instances needs a character-by-character argument over the seed's literal strings, which the model does not carry out.
