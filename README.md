# Exhibition occupancy dashboard — Dafny model

This project models the logic of a small React dashboard that shows how full
the halls and parking areas of an exhibition ground are:

- **Occupancy bands and colours** (`Api`). A visitor count is sorted into a
  low, medium or high band against an area's `{low, medium}` cut-offs, and
  each band has a fixed colour.
- **The settings table** (`Api.AreaTable`). An in-memory array of area
  settings is read whole or updated in place. An update finds the first
  row with the id, fails when there is none, and merges a partial record
  over the row with a fresh timestamp.
- **The latest observation** (`Api.GetLatestTimestamp`). A left fold finds
  the latest timestamp of a batch of visitor observations. The first of
  equal timestamps wins.
- **The exhibition map** (`ExhibitionMap`). Each area is drawn as one SVG
  group. Its fill is the highlight colour or the band colour, and its
  stroke marks the selected area. A click forwards the area number. The
  refresh cycle's `isLoading`/`isRefreshing` flags, the list replacement
  and `onDataUpdate` are modelled as a class.
- **The management page** (`Admin`). It covers the initial load and its
  first-area selection, replace-by-id after a save, the hall/parking
  grouping by name prefix, and which area the settings form is shown for.
- **The form state** (`FormState`). Both settings editors share the same
  initial form and the same field-change handler, defined once here.
- **The settings form** (`AreaSettingsForm`). It submits its whole form to
  the settings table.
- **The settings accordion** (`AreaSettingsAccordion`). It loads threshold
  rows and sorts them in place for display. On save it sends seven area
  attributes, rewrites the first two threshold rows where the form
  differs, and hands a merged area to its caller.

Modelling choices:

- **Timestamps** are ISO strings (`Timestamp`). Where the code compares them
  as dates, the date parser is a parameter `parse: Timestamp -> int`. The
  clock (`new Date()`) is a parameter `now`.
- **`parseInt`** is a parameter `string -> Option<int>`. `parseInt(v) || 0`
  is `OrZero(parseInt(v))`, which maps both a failed parse and 0 to 0.
- **`highlight`** is `Option<string>`. The accordion stores `null` into it
  (`highlight || null`), although `src/types/index.ts:13` declares it a
  string.
- **A `Partial<AreaSettings>`** is an `AreaPatch` of optional fields.
- **`AreaStatus` and `Threshold`** are not defined in the files shown. They
  are declared from how they are used. `AreaStatus` is the settings
  fields plus `area_number` and `amount_visitors`, and its `thresholds` is
  required: the map hands it to `getOccupancyLevel` and the accordion reads
  `area.thresholds.low` unguarded.
- **Backend calls of the accordion** are `getThresholds`,
  `updateAreaSettings` and `updateThreshold`. They are recorded in a call
  log on the `Accordion` object, and how each one settles is a parameter.
- **React state setters** become field assignments in one atomic step per
  handler.
- **The display sort and the submit** of the accordion are separate
  methods. In the component, the sort at
  `src/components/AreaSettingsAccordion.tsx:240-241` runs on every render
  and reorders the state array in place. So once the rows are shown,
  `thresholds[0]` and `thresholds[1]` in `handleSubmit` are the two
  lowest stored thresholds. `Accordion.HandleSubmit` reads the array in
  whatever order it holds; a caller that runs `SortForDisplay` first gets
  the component's order.
- **Walk-throughs.** `ExhibitionMap.FetchScenario`,
  `Admin.InitialLoadScenario` and `AreaSettingsForm.EditAndSaveScenario`
  are example runs made of assertions. They show the operations composed
  (a failed then a successful fetch; an initial load; an edit then a
  save) and model no source code of their own.

## Model

| member | source | states |
|---|---|---|
| Api.GetOccupancyLevel | src/utils/api.ts:135-146 | low exactly when count ≤ low; medium exactly when low < count ≤ medium; high exactly when the count exceeds both cut-offs |
| Api.MediumUnreachableWhenInverted | src/utils/api.ts:139-145 | with medium ≤ low the medium band is never returned, and high is returned exactly when count > low |
| Api.OccupancyMonotone | src/utils/api.ts:135-146 | for fixed cut-offs a larger count never lands in a lower band (low < medium < high) |
| Api.GetOccupancyColor | src/utils/api.ts:149-160 | the gray default is returned exactly when the level is none of 'low', 'medium', 'high'; the result is always one of the four colours |
| Api.BandColorsDistinct | src/utils/api.ts:149-160 | low, medium and high map to #4ade80, #facc15 and #ef4444; the three are pairwise distinct and none is the gray default |
| Api.IndexOfId | src/utils/api.ts:120 | findIndex by id: -1 exactly when no row has the id, otherwise the first row with it |
| Api.ApplyPatch | src/utils/api.ts:125-129 | the merged row always carries the fresh timestamp |
| Api.ApplyPatchExtremes | src/utils/api.ts:125-129 | a patch carrying every key makes the row that record (with the new timestamp) whatever was stored; an empty patch changes only the timestamp |
| Api.ApplyPatchIgnoresTimestampAndIsIdempotent | src/utils/api.ts:125-129 | a `last_updated` supplied in the patch has no effect; merging the same patch twice equals merging it once |
| Api.AreaTable.constructor | src/utils/api.ts:13-81 | the table holds the given initial rows |
| Api.AreaTable.GetAreaSettings | src/utils/api.ts:102-108 | returns the current contents of the table |
| Api.AreaTable.FindIndex | src/utils/api.ts:120 | the loop's result equals the findIndex specification IndexOfId |
| Api.AreaTable.UpdateAreaSettings | src/utils/api.ts:120-131 | no row with the id: fails with AreaNotFound and the table is unchanged; otherwise only the first matching slot is overwritten by the merged row, which is returned |
| Api.UpdateChangesOnlyFirstMatch | src/utils/api.ts:120-129 | the successful update keeps the length and every other row, overwrites the first match, and stamps it with the new time |
| Api.ReduceIsFirstMaximum | src/utils/api.ts:166-170 | the fold's result is the initial value or the first later entry, and no entry parses later than it |
| Api.Reduce | src/utils/api.ts:166-170 | the reducer's fold never ends below its starting value, and ends on the starting value or on a timestamp of the list |
| Api.GetLatestTimestamp | src/utils/api.ts:163-171 | "now" for an empty list; otherwise a timestamp of the list that no entry exceeds and that every earlier entry is strictly earlier than (first of equal maxima) |
| ExhibitionMap.RenderArea | src/components/ExhibitionMap.tsx:117-159 | fill is the highlight when non-empty, else the band colour of the count; stroke "#000" width 2 exactly when the area is selected, "#667080" width 1 otherwise; key, click target, labels and geometry come from the area |
| ExhibitionMap.RenderMap | src/components/ExhibitionMap.tsx:117-161 | one group per area, in list order, each the rendering of that area |
| ExhibitionMap.UnhighlightedFillIsBandColor | src/components/ExhibitionMap.tsx:118-121 | without a highlight the fill is one of the three band colours: red exactly when both cut-offs are exceeded, green exactly when count ≤ low |
| ExhibitionMap.AtMostOneSelected | src/components/ExhibitionMap.tsx:122-134 | with distinct area numbers at most one group carries the selected stroke |
| ExhibitionMap.HandleAreaClick | src/components/ExhibitionMap.tsx:75-79 | forwards the area number once when a callback is given, nothing otherwise |
| ExhibitionMap.ClickSelectsThatArea | src/components/ExhibitionMap.tsx:75-136 | clicking the i-th rendered group forwards the i-th area's number |
| ExhibitionMap.MapView.constructor | src/components/ExhibitionMap.tsx:23-26 | empty list, loading, not refreshing, refreshed at mount time |
| ExhibitionMap.MapView.View | src/components/ExhibitionMap.tsx:81-95 | spinner exactly while loading; otherwise the rendered map with the refresh button disabled exactly while refreshing |
| ExhibitionMap.MapView.StartFetch | src/components/ExhibitionMap.tsx:31 | refreshing is on and nothing else changes |
| ExhibitionMap.MapView.FinishFetch | src/components/ExhibitionMap.tsx:32-50 | success replaces the list wholesale, sets the refresh time and hands the same list to onDataUpdate when given; failure keeps list and time; both flags end false |
| ExhibitionMap.MapView.FetchData | src/components/ExhibitionMap.tsx:29-51 | the whole fetch: same outcome as FinishFetch after StartFetch |
| Admin.ReplaceById | src/pages/Admin.tsx:48-52 | same length; every entry with the updated id becomes the update, every other entry is kept in place |
| Admin.ReplaceByIdIdempotentAndInert | src/pages/Admin.tsx:48-52 | replacing twice equals replacing once; an id in no entry leaves the list unchanged |
| Admin.Filter | src/pages/Admin.tsx:60-68 | the sublist is no longer than the list and holds exactly the kept areas |
| Admin.FilterPreservesOrder | src/pages/Admin.tsx:60-68 | filtering a concatenation concatenates the filtered parts, so order is kept |
| Admin.FilterDisjointLength | src/pages/Admin.tsx:60-68 | two filters with disjoint tests together keep no more than the list |
| Admin.Halls | src/pages/Admin.tsx:60-64 | an area is in `halls` exactly when it is in the list and its name starts with A, B or C |
| Admin.Parking | src/pages/Admin.tsx:66-68 | an area is in `parking` exactly when it is in the list and its name starts with P |
| Admin.GroupingByPrefix | src/pages/Admin.tsx:60-68 | halls are exactly the areas whose name starts with A, B or C, parking exactly those starting with P; no area is in both; other names are in neither |
| Admin.FindById | src/pages/Admin.tsx:138 | find by id: none exactly when no area has the id, otherwise the first area with it |
| Admin.FormTarget | src/pages/Admin.tsx:136-141 | no form exactly when nothing is selected; otherwise the form for the first area with the selected id (what `find` returns), or a missing area exactly when no area has that id |
| Admin.AdminPage.constructor | src/pages/Admin.tsx:15-18 | no areas, no visitor data, nothing selected, loading |
| Admin.AdminPage.FetchInitialData | src/pages/Admin.tsx:20-46 | on success both lists are stored and the first area's id selected when there is one, the old selection kept otherwise; on failure all three stay; loading ends either way |
| Admin.AdminPage.SelectArea | src/pages/Admin.tsx:103-128 | the selection becomes the button's area id and nothing else changes |
| Admin.AdminPage.HandleAreaUpdate | src/pages/Admin.tsx:48-52 | the area list becomes its replace-by-id with the update; nothing else changes |
| Admin.AdminPage.ShownForm | src/pages/Admin.tsx:136-141 | the page's settings column: no form exactly when nothing is selected, else the form for the first area with the selected id, or a missing area when none has it |
| Types.OrElse | src/components/ExhibitionMap.tsx:131 | `s \|\| d` on a nullable string: a non-empty string is kept; null and "" give the default |
| FormState.InitialForm | src/components/AreaSettingsForm.tsx:23-32 | an absent highlight becomes "", absent thresholds become 100/300, the other six fields are copied |
| FormState.FieldsDetermineForm | src/components/AreaSettingsForm.tsx:23-32 | two forms that agree on every field are equal |
| FormState.HandleChange | src/components/AreaSettingsForm.tsx:36-67 | every field other than the edited one keeps its value; a numeric field or threshold sub-key becomes `parseInt(value) \|\| 0`, a text field the raw value |
| FormState.HandleChangeIsOnlyThatField | src/components/AreaSettingsAccordion.tsx:71-102 | any form that changes only the edited field, to that value, is the handler's result |
| FormState.UnparsableBecomesZero | src/components/AreaSettingsAccordion.tsx:82-94 | an unparsable or zero input stores 0 in a numeric field |
| AreaSettingsForm.SubmitPayload | src/components/AreaSettingsForm.tsx:74 | the payload carries the eight form keys as they are, and no id or timestamp |
| AreaSettingsForm.SubmitRoundTrip | src/components/AreaSettingsForm.tsx:74-75 | the stored row keeps its id and gets the fresh time, and opening the form on it gives back exactly the submitted form |
| AreaSettingsForm.HandleSubmit | src/components/AreaSettingsForm.tsx:69-91 | an unknown id gives no onUpdate and an unchanged table; otherwise the first matching row is overwritten with the merged form, and exactly that row reaches onUpdate |
| AreaSettingsAccordion.InitialAccordionForm | src/components/AreaSettingsAccordion.tsx:30-39 | the form takes the area's thresholds, an absent highlight becomes "", the other six fields are copied |
| AreaSettingsAccordion.AreaPayload | src/components/AreaSettingsAccordion.tsx:110-118 | seven area attributes; highlight is null exactly when the form's is empty; no id, timestamp or thresholds |
| AreaSettingsAccordion.PlannedWrites | src/components/AreaSettingsAccordion.tsx:123-135 | at most two writes, in slot order; row 0 is written exactly when two rows are loaded and the low differs, row 1 likewise for medium; each writes that row's id and the form's value |
| AreaSettingsAccordion.UnchangedThresholdsWriteNothing | src/components/AreaSettingsAccordion.tsx:123-135 | a form whose thresholds equal the area's writes no threshold row |
| AreaSettingsAccordion.MergedStatus | src/components/AreaSettingsAccordion.tsx:140-144 | every settings key of the merged area comes from the stored row, the thresholds from the form, area number and visitor count from the area |
| AreaSettingsAccordion.SwapKeepsTieOrder | src/components/AreaSettingsAccordion.tsx:241 | exchanging two neighbours with different upper thresholds keeps the order among rows with equal ones |
| AreaSettingsAccordion.InsertLast | src/components/AreaSettingsAccordion.tsx:241 | one insertion pass: the prefix up to the new row is sorted, the rows are a permutation of the old ones, and equal rows keep their order |
| AreaSettingsAccordion.SortByUpperThreshold | src/components/AreaSettingsAccordion.tsx:240-241 | in place, the rows end sorted ascending by upper threshold, are a permutation of the rows before, and rows with equal upper thresholds keep their relative order (a stable sort, as `Array.prototype.sort` is) |
| AreaSettingsAccordion.SentWrites | src/components/AreaSettingsAccordion.tsx:123-135 | never more requests than planned writes |
| AreaSettingsAccordion.SentWritesAllWhenNoneRejects | src/components/AreaSettingsAccordion.tsx:123-136 | with no rejected write the requests sent are exactly the planned writes' updates, in order |
| AreaSettingsAccordion.SentWritesUpTo | src/components/AreaSettingsAccordion.tsx:123-136 | when the k-th write is the first to reject, the requests sent are exactly the updates of writes 0..k, in order |
| AreaSettingsAccordion.SentWritesStopAtFirstRejection | src/components/AreaSettingsAccordion.tsx:123-136 | when some write rejects, the requests sent are exactly the planned writes' updates up to and including the first rejected one |
| AreaSettingsAccordion.Accordion.constructor | src/components/AreaSettingsAccordion.tsx:30-44 | initial form of the area, no rows, loading, not submitting, no calls |
| AreaSettingsAccordion.Accordion.FetchThresholds | src/components/AreaSettingsAccordion.tsx:46-55 | getThresholds is called with the area number; on success the rows are the loaded list and loading ends; a rejection keeps the old rows and loading on |
| AreaSettingsAccordion.Accordion.ResetForArea | src/components/AreaSettingsAccordion.tsx:58-69 | a new area resets the form to that area's initial form and nothing else |
| AreaSettingsAccordion.Accordion.HandleChange | src/components/AreaSettingsAccordion.tsx:71-102 | the form becomes the change handler's result and nothing else changes |
| AreaSettingsAccordion.Accordion.SortForDisplay | src/components/AreaSettingsAccordion.tsx:240-241 | the state's row array is sorted stably in place: ascending, a permutation of what it held, equal rows in their old order |
| AreaSettingsAccordion.Accordion.WriteThresholds | src/components/AreaSettingsAccordion.tsx:123-136 | the requests sent are the planned writes up to the first rejection, and success is reported exactly when none rejected |
| AreaSettingsAccordion.Accordion.HandleSubmit | src/components/AreaSettingsAccordion.tsx:104-163 | the area update is sent first; if it did not reject, the planned writes follow up to the first rejection; onUpdate gets the merged area exactly when the update gave a row and no write rejected; submitting ends false |

## Left out

- Mock data generation with `Math.random` and `new Date()`
  (`src/utils/api.ts:5-98`). The table's initial rows, the visitor data and
  the clock are parameters.
- `formatDateTime`: it wraps `Intl.DateTimeFormat`, a library call.
- Parsing of date strings in `getLatestTimestamp`: the parser is a
  parameter. Nothing is assumed about it beyond being a function.
- JavaScript `parseInt`: it is a parameter. JavaScript numbers are modelled
  as unbounded integers, so fractions, NaN and overflow are not modelled.
- Label centring (`x + width / 2`) and `fillOpacity`: fractional
  presentation values.
- Timers (`setInterval`/`clearInterval`), the order of awaits, and
  overlapping refreshes. Each fetch, load or submit is one atomic step
  (the map's fetch is split only at its `await`).
- The `isSubmitting` flag of both settings editors: it is visible only
  during an await. The accordion model only states that it ends false; the
  settings form's flag is not modelled.
- Toasts, `console.error` and all JSX layout beyond the drawn groups.
- The wiring of the page's two-argument `handleDataUpdate` into the map's
  one-argument `onDataUpdate`: cross-component plumbing.
- The accordion's new-threshold inputs and add button: the button has no
  handler.
- Authentication, routing, the generated database types, and the purely
  presentational components.
- The list returned by `getAreaSettings` is the table array itself, so a
  caller that mutated it would mutate the table. `GetAreaSettings`
  returns a copy of its contents, so this aliasing is not modelled.
- The lists the map and the management page fetch: `MapView.FinishFetch`
  takes `Option<seq<AreaStatus>>` and `AdminPage.FetchInitialData` takes
  `Option<(seq<AreaSettings>, seq<VisitorData>)>` as unconstrained
  parameters. They are not tied to `AreaTable.GetAreaSettings`, which in
  `src/utils/api.ts:102-108` never rejects and returns the table array
  itself. That function's rows are `AreaSettings`, with no `area_number`
  and no `amount_visitors`, yet the map reads both
  (`src/components/ExhibitionMap.tsx:118-122`). As written, every area
  without a highlight is therefore classified from an undefined count.
  The model gives the map `AreaStatus` rows that carry both fields.
- FormState.HandleChange: only the inputs the components wire to it are
  modelled. The "any other field" branch is covered for `area_name` and
  `highlight`; other keys such as `id` have no input.
- The accordion's `|| { low: 100, medium: 300 }` threshold default is not
  reachable in this model, because `AreaStatus.thresholds` is declared
  required. The map and the submit code use it unguarded.
- The accordion calls `updateAreaSettings(area.area_number, …)` where the
  settings form passes `area.id`. The model records the call as written,
  with the area number.
- `AreaStatus`, `Threshold`, `getThresholds` and `updateThreshold` are
  not part of this model's sources. They are declared from their use in
  `src/components/AreaSettingsAccordion.tsx`, and the calls are abstract.
