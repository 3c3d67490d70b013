# Perfume front end: form, accord, note and detail-page logic in Dafny

This project models the data-shaping logic of a React front end for a perfume
catalogue. The logic sits in four components:

- **PerfumeForm** is the create/edit dialog. Its `form` state holds the name,
  the brand id, three note lists and five accord slots. Each slot is a name and
  a width. Handlers edit one field, clear a slot, blank the first free slot or
  store a width in the range 0..100. `handleSubmit` sends the form plus
  `fragrance_notes`, which is the non-empty top, middle and base notes joined
  in that order. The model is a class `FormState` with a 5-element `array` of
  slots, one method per handler, and the pure functions that specify them.
- **AccordDisplay** scans the five stored accord slots of a perfume. It keeps
  each slot whose name is truthy and whose width is present; a width of 0 is
  present. It then sorts the kept slots by width, widest first, and colours
  them from a 10-entry palette.
- **NoteDisplay** defaults the missing note fields. It then shows the
  top/middle/base sections (skipping empty ones), or else the legacy flat
  `notes` list, or else a "no notes" message.
- **PerfumeDetailPage** picks one of four views: spinner, error, not found or
  detail. It also holds the season, weather and note colour tables and the
  similar-perfume panel.

JavaScript semantics are written out explicitly:
- A string is truthy exactly when it is non-empty.
- A form width is `''` (`Empty`) or a number (`Num`). `Num(0)` is falsy in the
  form, while the accord display only asks whether the width is present.
- On string and array fields, `x || ''` and `x || []` keep any present value;
  an array, even an empty one, is truthy. On the numeric fields `brand_id` and
  `accord_i_width`, a present 0 is falsy and becomes `''`.
- `parseFloat` yields NaN, modelled as `None`, which fails the 0..100 guard.
- `charCodeAt(0)` yields the first UTF-16 code unit. For a character outside
  the Basic Multilingual Plane this is the high surrogate.

The similar-perfume list arrives ready-made from the server. Nothing in these
components ranks, scores or filters a catalogue, so the model has no ranking
or filter engine.

Two consequences of the code, both proved:
- `addAccord` only writes `''` into a slot that is already inactive, so it
  never changes the list of active accords (`FormState.AddAccord`,
  `ReplaceInactiveKeepsActive`). The "add accord" button therefore has no
  visible effect.
- A stored width of 0 is falsy, so it comes back as `''` when a perfume is
  reloaded into the form (`ZeroWidthLostOnReload`).

Files: `js_values.dfy` (Option, truthiness, `||` defaults),
`perfume_record.dfy` (the server's perfume record), `perfume_form.dfy`,
`accord_display.dfy`, `note_display.dfy`, `perfume_detail_page.dfy`.

## Model

| member | source | states |
|---|---|---|
| `PerfumeForm.FormState.constructor` | src/components/PerfumeForm.js:31-48 | the initial state is the blank form: every field `''` or `[]` |
| `PerfumeForm.InitialForm` | src/components/PerfumeForm.js:51-91 | without a perfume the form is blank; with one, the name is the stored name or `''`, each note list the stored list or `[]`, the brand and each slot follow `InitialBrand`/`InitialSlot`; name, brand and each slot are truthy exactly when the stored value is; no width is stored as the falsy number 0 |
| `PerfumeForm.InitialSlot` | src/components/PerfumeForm.js:59-68 | a slot copies the stored name or takes `''`; its width is truthy exactly when the stored width is present and non-zero |
| `PerfumeForm.InitialBrand` | src/components/PerfumeForm.js:55 | the brand is truthy exactly when the stored id is present and non-zero, and then it is that id |
| `PerfumeForm.FormState.Initialize` | src/components/PerfumeForm.js:51-92 | the effect leaves the state equal to `InitialForm(perfume)` |
| `PerfumeForm.ReloadRoundTrip` | src/components/PerfumeForm.js:53-70 | loading a perfume that stores exactly a form's values gives back that form, unless a width or brand id is 0 |
| `PerfumeForm.ZeroWidthLostOnReload` | src/components/PerfumeForm.js:60 | a width of 0 comes back as `''`, so that round trip fails |
| `PerfumeForm.FormState.HandleFormChange` | src/components/PerfumeForm.js:94-96 | exactly the named field takes the new value; every other field and all slots are unchanged |
| `PerfumeForm.FormState.HandleAccordChange` | src/components/PerfumeForm.js:98-101 | only `accord_{index}_{field}` changes; the other part of that slot, the other four slots and the scalar fields are unchanged |
| `PerfumeForm.Compact` | src/components/PerfumeForm.js:110-114 | keeps exactly the non-empty strings, each as often as in the input, and returns the list itself when nothing is empty |
| `PerfumeForm.CompactAppend` | src/components/PerfumeForm.js:110-114 | filtering a concatenation is the concatenation of the filtered parts, in order |
| `PerfumeForm.Submit` | src/components/PerfumeForm.js:103-122 | nothing is submitted iff name or brand is falsy; otherwise the form passes through and `fragrance_notes` is the filtered top, then middle, then base |
| `PerfumeForm.SubmittedNoteCount` | src/components/PerfumeForm.js:109-119 | no deduplication: each non-empty note is submitted as often as it occurs across the three lists |
| `PerfumeForm.FormState.HandleSubmit` | src/components/PerfumeForm.js:103-122 | the value passed to `onSubmit` (None for the early return) is `Submit` of the current state |
| `PerfumeForm.FormState.GetActiveAccords` | src/components/PerfumeForm.js:140-152 | the loop returns `ActiveAccords` of the current slots |
| `PerfumeForm.ActiveUpToSound` | src/components/PerfumeForm.js:142-149 | every entry pushed for slots 1..n is an active slot with index at most n, carrying that slot's name and width |
| `PerfumeForm.ActiveUpToComplete` | src/components/PerfumeForm.js:142-149 | every active slot among 1..n has its entry |
| `PerfumeForm.ActiveUpToIncreasing` | src/components/PerfumeForm.js:142-149 | entries appear in strictly increasing slot order |
| `PerfumeForm.ActiveUpToLength` | src/components/PerfumeForm.js:142-149 | slots 1..n give at most n entries, and exactly n iff all are active |
| `PerfumeForm.ActiveAccordsSpec` | src/components/PerfumeForm.js:140-152 | the active list holds exactly the slots whose name or width is truthy, each once with its values, in ascending index order, at most five |
| `PerfumeForm.FirstInactiveFrom` | src/components/PerfumeForm.js:126-127 | the result is the first slot from `from` on whose name and width are both falsy, or None when every such slot is active |
| `PerfumeForm.FormState.AddAccord` | src/components/PerfumeForm.js:124-133 | only the first free slot is set to `''`/`''`, nothing changes when there is none, and the active list is unchanged |
| `PerfumeForm.ReplaceInactiveKeepsActive` | src/components/PerfumeForm.js:124-133 | writing an inactive value into an inactive slot leaves the active list as it was |
| `PerfumeForm.AddButtonShownIffFreeSlot` | src/components/PerfumeForm.js:252-260 | the add button (fewer than five active accords) is shown exactly when `addAccord` has a free slot to write |
| `PerfumeForm.FormState.RemoveAccord` | src/components/PerfumeForm.js:135-138 | slot `index` becomes `''`/`''`; the other four slots and all scalar fields are unchanged |
| `PerfumeForm.RemoveAccordEffect` | src/components/PerfumeForm.js:135-152 | after removal the slot is no longer listed, and every other active entry still is |
| `PerfumeForm.FormState.EditAccordWidth` | src/components/PerfumeForm.js:277-282 | a parsed width in 0..100 is stored in that slot; NaN or an out-of-range value leaves the form unchanged |
| `AccordDisplay.KeptUpToSpec` | src/components/AccordDisplay.js:9-15 | the entries pushed for slots 1..n are exactly the kept slots' names and widths, at most n of them |
| `AccordDisplay.KeptSpec` | src/components/AccordDisplay.js:8-15 | a slot is shown with its name and width iff its name is truthy and its width is not null/undefined; at most five are shown |
| `AccordDisplay.KeptIndexesUpTo` | src/components/AccordDisplay.js:9-15 | the positions among slots 1..n that pass the test: every kept slot, only kept slots, strictly ascending |
| `AccordDisplay.KeptUpToByIndexes` | src/components/AccordDisplay.js:9-15 | the pushed array has one entry per kept slot, and its k-th entry is the k-th kept slot's name and width |
| `AccordDisplay.KeptInSlotOrder` | src/components/AccordDisplay.js:8-15 | before sorting, the accords are the kept slots, one entry each (duplicates included), in slot order |
| `AccordDisplay.ZeroWidthKept` | src/components/AccordDisplay.js:12 | a named slot with width 0 is shown |
| `AccordDisplay.Insert` | src/components/AccordDisplay.js:16 | insertion adds exactly the one entry (multiset) |
| `AccordDisplay.ConsSorted` | src/components/AccordDisplay.js:16 | an entry at least as wide as every entry of a sorted list may be put in front of it |
| `AccordDisplay.InsertSorted` | src/components/AccordDisplay.js:16 | insertion into a widest-first list keeps it widest-first |
| `AccordDisplay.SortByWidthDesc` | src/components/AccordDisplay.js:16 | the result is ordered by width, never increasing, and is a permutation of the input |
| `AccordDisplay.InsertStable` | src/components/AccordDisplay.js:16 | insertion keeps each width class in order, with the new entry at its front |
| `AccordDisplay.SortStable` | src/components/AccordDisplay.js:16 | the sort is stable: for every width, the entries of that width keep their original relative order |
| `AccordDisplay.GetAccords` | src/components/AccordDisplay.js:7-17 | the result is widest-first, a permutation of the kept slots, stable for equal widths, and has at most five entries |
| `AccordDisplay.AccordColor` | src/components/AccordDisplay.js:30-36 | the colour is always one of the ten palette entries |
| `AccordDisplay.AccordColorCycle` | src/components/AccordDisplay.js:30-36 | colours repeat with period ten, and the first ten positions all get different colours |
| `AccordDisplay.PalettePositionOf` | src/components/AccordDisplay.js:31-34 | each palette entry sits at its own position |
| `AccordDisplay.PaletteDistinct` | src/components/AccordDisplay.js:31-34 | the ten palette entries are pairwise different |
| `AccordDisplay.RenderAccords` | src/components/AccordDisplay.js:21-27 | the "no accord info" message iff the list is empty; otherwise one row per accord, in order, coloured by position |
| `AccordDisplay.RowColorsDistinct` | src/components/AccordDisplay.js:58-70 | with at most five accords, no two rows share a colour |
| `NoteDisplay.Fields` | src/components/NoteDisplay.js:10-16 | a missing group or legacy list is empty, a present one is kept, and a non-array `fragrance_notes` is empty |
| `NoteDisplay.RenderSection` | src/components/NoteDisplay.js:39-40 | an empty group renders nothing, a non-empty one a single section |
| `NoteDisplay.SectionsCoverGroups` | src/components/NoteDisplay.js:133-135 | every non-empty group has its section |
| `NoteDisplay.ChooseNoteView` | src/components/NoteDisplay.js:126-146 | the structured view iff a group is non-empty; legacy iff all groups are empty and legacy is not; the message iff all are empty; sections are non-empty, in top/middle/base order |
| `NoteDisplay.StructuredWins` | src/components/NoteDisplay.js:130-139 | with structured notes, the legacy list has no effect on the view |
| `NoteDisplay.NoteTypeColor` | src/components/NoteDisplay.js:19-26 | top, middle and base get their fixed colours; `'#888'` iff the type is none of them |
| `NoteDisplay.SectionColor` | src/components/NoteDisplay.js:18-25 | the chips of each section, coloured by its `type` (lines 71-73), get a fixed colour, never the `'#888'` fallback, and the three kinds get three different colours |
| `PerfumeDetailPage.ChoosePageView` | src/components/PerfumeDetailPage.js:124-161 | spinner iff loading; else error alert iff the error is a non-empty message; else not-found iff no perfume; else the detail of that perfume |
| `PerfumeDetailPage.ViewPrecedence` | src/components/PerfumeDetailPage.js:124-151 | while loading, error and perfume do not matter; a shown error hides the perfume |
| `PerfumeDetailPage.SeasonColor` | src/components/PerfumeDetailPage.js:91-99 | the four seasons get their colours; the grey default iff the label is none of them |
| `PerfumeDetailPage.WeatherColor` | src/components/PerfumeDetailPage.js:101-109 | the four weathers get their colours; the grey default iff the label is none of them |
| `PerfumeDetailPage.FirstCodeUnit` | src/components/PerfumeDetailPage.js:120 | the first UTF-16 code unit is the code point inside the Basic Multilingual Plane; outside it, the high surrogate that carries the top ten bits of the code point minus 0x10000 |
| `PerfumeDetailPage.NoteColor` | src/components/PerfumeDetailPage.js:111-122 | the colour of a non-empty note is always one of the 16 palette entries |
| `PerfumeDetailPage.NoteColorByFirstChar` | src/components/PerfumeDetailPage.js:120-121 | the colour depends only on the first character; inside the Basic Multilingual Plane it is the entry at code point mod 16 |
| `PerfumeDetailPage.AstralNotesShareColor` | src/components/PerfumeDetailPage.js:120 | characters outside the Basic Multilingual Plane that share a high surrogate get the same colour |
| `PerfumeDetailPage.RenderSimilar` | src/components/PerfumeDetailPage.js:274-306 | the "no similar perfumes" message iff the list is empty; otherwise one card per entry in server order, with common notes shown iff present and non-empty |

## Left out

- Network and lifecycle are not modelled. This covers the `fetch` calls, `Promise.all`, `useEffect`/`useCallback` scheduling, the loading/error state updates (src/components/PerfumeDetailPage.js:38-88) and the `similar_perfumes || []` default inside the fetch. The page's `loading`, `error` and `perfume` are parameters of `ChoosePageView`.
- `onSubmit`, `onClose` and `navigate` are callbacks into code outside the components. `HandleSubmit` returns the value it would pass to `onSubmit`.
- Similarity ranking, scoring, tie-breaking and catalogue filtering are computed by the server. They are not part of this model.
- `parseFloat` and `toFixed(1)` are not modelled. Widths are already-parsed reals, and a stored width is a number or null/undefined. A width stored as a string is not modelled. For the form's width field the parse result is a parameter, with NaN as `None`.
- `NoteColor` requires a non-empty note. On `''`, `charCodeAt(0)` is NaN and the source yields `undefined`.
- Inherited object keys are not modelled. For example, `colors['toString']` in the colour tables yields a function, not a colour; the model treats every label outside the table as unknown.
- Fields not accessed as arrays are not modelled. The note groups and `notes` are either arrays or missing. A note group holding some other truthy value (a string, say) is not modelled. Only `fragrance_notes` is tested with `Array.isArray`.
- `handleAccordChange` is only called with slot indexes 1..5 and the fields `name`/`width`, so its `requires` states that. Writing an unrelated key such as `accord_7_name` is not modelled.
- `AccordDisplay.GetAccords` does not model the in-place mutation by `Array.prototype.sort`. It models the effect as the stable widest-first order that ECMAScript 2019 and later require of that sort, written as an insertion sort.
- All MUI rendering is left out: layout, icons, chip styles, `showTitle`/`compact` and the legacy chips' fixed colours. The detail page calls `.map` on lists it never defaults: `perfume.notes`, `perfume.season_tags` and `perfume.weather_tags` (src/components/PerfumeDetailPage.js:196, 217, 238) and each similar entry's `notes` (line 329). A missing list throws, so the source crashes there. The model takes these lists as present: `SimilarPerfume.notes` is a plain sequence, and the `Detail` view renders no chips.
- The brand name shown on the page (`PerfumeBrand?.name || '브랜드 없음'`) is display text and is not modelled.
