# Bus timetable: data preparation and accessible renderer

This project is a Dafny model of the two halves of a small bus-timetable site
for the Manresa – Barcelona corridor, with proofs about that model.

- **Data preparation.** `prepara_json.py` reads an origin–destination matrix of bus
  trips. For each trip it rebuilds the stop sequence, buckets the day type and
  classifies the bus type (e22, e23 or semidirecte). It then files the trip into a
  table keyed by (section, day, bus type), with a sub-line for the Olesa/Monistrol
  branch. Finally it sorts every list by start time and lays the table out as
  `data.json`.
- **Renderer.** `app.js` turns that document into the page. It builds one panel per
  (section, day) entry, with bus-type groups of expandable trips, and two blocks of
  picker buttons. `showPanel` switches which panel is visible and which button is
  pressed.

Modules, one per file:

- `Wrappers`: the `Option` type, for NaN cells, failed parses and missing keys.
- `Text`: Python/JS string helpers.
  - `strip`, `lower`/`upper`, `startswith`, `in`, `join`;
  - string order;
  - decimal rendering.
- `Sorting`: `list.sort(key=…)` with `(int, str)` keys, as a stable insertion sort.
- `Timetable`: the `data.json` shape.
- `Times`: `norm_time` and `tmin`.
- `Days`: `day_bucket`.
- `StopSearch`: `has_prefix`, `idx_first`, `idx_last` and `classify_bus_type`.
- `Reconstruct`: `reconstruct_stops_from_matrix` and `slice_trip`.
- `Prepare`: `main`'s `containers` table, the routing loop, the in-place sort and `out_data`.
- `Format`: `cssSafe`, `speakBusType`, `routeSentence` and `tripLabel`.
- `Render`: the trip widget class and `makeTrip`'s click handler; `showPanel`; `buildUI` and the page class.

Loops of the source are methods proved against specification functions:

- `ReconstructStops` (with `Update`), `IdxFirst`, `IdxLast`, `HasPrefix` and `StartsWithAny`;
- `Prepare` with `Containers.Add`/`SortAll`;
- `CollectEntries`, `BuildTrips`, `BuildGroups`, `BuildPanels`, `BuildButtons`, `HideAll`, `PressAll` and `ShowKey`.

One loop is a recursive function: the early-return loop over `DAY_ORDER` (prepara_json.py:64-66) is `Days.ExactDay`.

The state that the source mutates lives in classes:

- the `containers` table (`Prepare.Containers`);
- each trip's `aria-expanded`/`hidden` pair (`Render.TripWidget`);
- the page (`Render.Page`).

The `tmin(...) or 10**9` quirk is kept. At lines 163, 165 and 273 a time of `00:00`
counts as 10⁹ (`FalsyOrBillion`). At line 169 only a missing time does (`NoneOrBillion`).

## Model

| member | source | states |
|---|---|---|
| Text.StripSpec | prepara_json.py:48 | `strip` keeps the slice between a leading and a trailing run of whitespace, and that slice has no whitespace at either end |
| Text.StripIdempotent | prepara_json.py:48 | stripping twice is stripping once |
| Text.NatToStringRoundTrip | prepara_json.py:244 | reading the decimal text of `n` back as digits gives `n` (`int(str(n)) == n`, so a numeric trip id keeps its value) |
| Text.LexLeTotal | prepara_json.py:169 | Python's string order is total |
| Text.LexLeTransitive | prepara_json.py:169 | Python's string order is transitive |
| Text.LexLeAntisymmetric | prepara_json.py:169 | Python's string order is antisymmetric |
| Sorting.SortBy | prepara_json.py:169 | the sorted list is a permutation of its input and sorted by the `(int, str)` tuple key |
| Sorting.Insert | prepara_json.py:272-274 | inserting into a sorted list keeps it sorted and adds exactly one element |
| Sorting.SortByKeepsDistinct | prepara_json.py:168-169 | sorting keeps stop names pairwise distinct |
| Times.TMin | prepara_json.py:55-59 | `tmin`: minutes of an `HH:MM` text, `None` otherwise; characterised by `TMinSpec` |
| Times.NormTime | prepara_json.py:47-52 | `norm_time`: strip, `.` to `:`, zero-pad a matched `H:MM`, else the cleaned text; `NormTimeMatched` and `NormTimeUnmatched` together give its result on every input |
| Times.TMinSpec | prepara_json.py:55-59 | `tmin` is defined exactly on two digits, `:`, two digits (with Python's `$` also allowing one final line feed); whenever defined it is the first two digits ·60 + the two digits after the `:`, with no range check (at most 99·60+99) |
| Times.NormTimeMatched | prepara_json.py:47-52 | when the stripped, dot-replaced cell matches `\d{1,2}:\d{2}`, `norm_time` yields that cell with a `0` in front when the hour has one digit (otherwise the cell itself), a two-digit `HH:MM` whose `tmin` is the matched hours·60 + minutes |
| Times.NormTimeUnmatched | prepara_json.py:47-52 | a cleaned cell that does not match is returned as it is |
| Times.NormTimeParsesIffMatched | prepara_json.py:47-59 | `tmin(norm_time(x))` is defined exactly when `norm_time` matched |
| Times.NormTimeKeepsTwoDigitClock | prepara_json.py:47-52 | a cell that is already `HH:MM` after cleaning comes back unchanged |
| Times.CleanHasNoFinalNewline | prepara_json.py:48-49 | the cleaned cell has no surrounding whitespace and no `.`, so the `$` line-feed allowance never applies in `norm_time` |
| Times.NormTimeIdempotent | prepara_json.py:47-52 | `norm_time` is idempotent |
| Times.FalsyOrBillion | prepara_json.py:163-165 | `tmin(t) or 10**9` (also the start-time key of line 273): `None` and `00:00` both become 10⁹; see `BillionDefaults` |
| Times.NoneOrBillion | prepara_json.py:169 | `tmin(t) if tmin(t) is not None else 10**9`: only `None` becomes 10⁹; see `BillionDefaults` |
| Times.BillionDefaults | prepara_json.py:163-169 | the two defaults agree on every parseable time other than `00:00`, both give 10⁹ for an unparseable one, and at `00:00` the `or` form gives 10⁹ where the other gives 0 |
| Days.DayBucket | prepara_json.py:62-75 | `day_bucket`: exact match first, then the keyword rules in priority order, else the stripped text; characterised by `DayBucketRange`, `DayBucketExact` and `DayBucketPriority` |
| Days.ExactDay | prepara_json.py:64-66 | the loop over `DAY_ORDER` returns a name whose lower case equals the input, or reports that none does |
| Days.CanonicalNames | prepara_json.py:33-37 | the three day names differ ignoring case, and each contains its own keyword but not the higher-priority ones |
| Days.DayBucketRange | prepara_json.py:62-75 | `day_bucket` returns a `DAY_ORDER` name or the stripped input, and a `DAY_ORDER` name exactly when the lower-cased input contains a day keyword |
| Days.DayBucketExact | prepara_json.py:63-66 | an input equal to a canonical name up to case and surrounding whitespace maps to that name |
| Days.DayBucketPriority | prepara_json.py:67-74 | "diumenge" gives the Sunday name; otherwise "dissabte" or "festiu" gives the Saturday name; otherwise "dilluns" or "feiner" gives the weekday name |
| StopSearch.StartsWithAny | prepara_json.py:80-83 | the inner loop over the prefixes answers whether the upper-cased name starts with one of them |
| StopSearch.HasPrefix | prepara_json.py:78-84 | the loop returns true exactly when some stop matches |
| StopSearch.IdxFirst | prepara_json.py:87-93 | the loop returns `FirstMatch`: the smallest matching index, or `None` exactly when no stop matches |
| StopSearch.IdxLast | prepara_json.py:96-102 | the backward loop returns `LastMatch`: the largest matching index, or `None` exactly when no stop matches |
| StopSearch.FirstMatch | prepara_json.py:87-93 | the index matches, no earlier index does, and `None` means no stop matches |
| StopSearch.LastMatch | prepara_json.py:96-102 | the index matches, no later index does, and `None` means no stop matches |
| StopSearch.FirstNotAfterLast | prepara_json.py:87-102 | both searches succeed together, and the first index is never after the last |
| StopSearch.ClassifyBusType | prepara_json.py:105-122 | result is `e22`, `e23` or `semidirecte`; raw `e22` stays; anything but `e22`/`e23` is `semidirecte`; `e23` turns into `e22` exactly when a stop starts with MANRESA and none with OLESA or MONISTROL |
| Reconstruct.RowVisits | prepara_json.py:140-160 | the visits one matrix row contributes: none for a NaN cell, a `-` time or an unparseable time; otherwise its two stripped stops at their normalised times |
| Reconstruct.Items | prepara_json.py:168 | one `{stop, time}` entry per key of `stop_to_time`, in insertion order; `ReconstructedFromItems` ties the output to it |
| Reconstruct.StopKey | prepara_json.py:169 | the sort key (minutes, with only `None` as 10⁹; stop name); `ReconstructedOrdered` proves the output sorted by it |
| Reconstruct.Record | prepara_json.py:163-166 | one `stop_to_time` update; `TableTimeWasSeen`, `TableKeepsMinimum` and `MidnightIsOverwritten` state its effect |
| Reconstruct.Reconstructed | prepara_json.py:138-169 | the items of `stop_to_time` sorted by (minutes or 10⁹, stop); properties in the `Reconstructed…` lemmas |
| Reconstruct.PairVisits | prepara_json.py:154-160 | every visit a row yields carries the minutes `tmin` gives its own time |
| Reconstruct.Table | prepara_json.py:138-166 | `stop_to_time` holds exactly the stops of the usable rows, and its key order lists each of them once |
| Reconstruct.ReconstructStops | prepara_json.py:125-172 | the loop computes `Reconstructed(rows)`; the result is sorted by (minutes or 10⁹, stop) and names every stop once |
| Reconstruct.Update | prepara_json.py:163-166 | the inline update of one stop's entry does what `Record` describes |
| Reconstruct.TableTimeWasSeen | prepara_json.py:163-166 | every recorded time is a time the stop was actually visited at |
| Reconstruct.TableKeepsMinimum | prepara_json.py:163-166 | without a `00:00` visit, a stop keeps its smallest time |
| Reconstruct.SkippedRowChangesNothing | prepara_json.py:146-160 | a row with a missing cell, a `-` time or an unparseable time changes nothing, wherever it stands |
| Reconstruct.ReconstructedOrdered | prepara_json.py:168-169 | output sorted by (minutes, stop) and each stop name appears at most once |
| Reconstruct.ReconstructedTimesSeen | prepara_json.py:138-169 | each listed (stop, time) was seen in some usable row |
| Reconstruct.ReconstructedCoversVisits | prepara_json.py:138-169 | every stop of every usable row is listed |
| Reconstruct.ReconstructedMinimum | prepara_json.py:163-169 | a stop with no `00:00` visit is listed at its earliest time |
| Reconstruct.MidnightIsOverwritten | prepara_json.py:163 | the quirk, for every table and visit: a stop recorded at `00:00` takes the time of any later visit with a real time |
| Reconstruct.MidnightExample | prepara_json.py:163 | one instance: a stop seen at `00:00` and then `00:05` ends up at `00:05` |
| Reconstruct.SliceTrip | prepara_json.py:175-181 | stops `i..j` inclusive, starting at stop `i`'s time and ending at stop `j`'s |
| Reconstruct.SliceOfSorted | prepara_json.py:175-181 | a slice of a sorted trip is sorted and does not end before it starts |
| Prepare.Coerce | prepara_json.py:247-265 | a bus type outside a section's list becomes `semidirecte`; `Branch`, `SubLine` and `RouteStops` state the result |
| Prepare.TripIdOut | prepara_json.py:244 | an all-digit id becomes a number with the same value; any other id is kept as text |
| Prepare.SubLine | prepara_json.py:251-255 | a sub-line is produced exactly when `si < ei`; it is filed under the sub-line section and the day, with the bus type `bt if bt in ("e23", "semidirecte") else "semidirecte"` and the group's trip id, and runs over stops `si..ei` |
| Prepare.Branch | prepara_json.py:246-266 | one direction files the whole trip under (line section, day, `bt` coerced into {e22, semidirecte}), then at most its sub-line under (sub-line section, day, `bt` coerced into {e23, semidirecte}), both with the group's trip id |
| Prepare.RouteStops | prepara_json.py:232-266 | a group adds placements exactly when its day is a `DAY_ORDER` name, it has at least two stops and its direction is one of the two; the whole trip goes to `m2b` (towards Barcelona) or `b2m` with the classified type coerced into {e22, semidirecte}, a sub-line to `o2b` or `b2o` with it coerced into {e23, semidirecte}; every placement carries the group's day and trip id and is a well-formed trip in a known section with a bus type that section lists |
| Prepare.RouteStopsSubLine | prepara_json.py:250-266 | a routed group gets its sub-line exactly when, towards Barcelona, an Olesa/Monistrol stop comes strictly before a Barcelona stop, and, towards Manresa, a Barcelona stop comes strictly before an Olesa/Monistrol stop |
| Prepare.SubLineRule | prepara_json.py:251-266 | the sub-line is added exactly when a stop matching `from` comes strictly before one matching `to` |
| Prepare.SubLineStops | prepara_json.py:251-266 | a sub-line starts at a stop matching `from` and ends at a stop matching `to` |
| Prepare.Route | prepara_json.py:231-266 | the placements of one trip group: `RouteStops` of its bucketed day, direction, type, id and rebuilt stops |
| Prepare.TripKey | prepara_json.py:273 | the sort key `(tmin(start_time) or 10**9, str(trip_id))`; see `MidnightStartSortsLast` and `DocumentLists` |
| Prepare.Placed | prepara_json.py:231-266 | the trips the group loop appends to one slot, in group order; `PlacedFrom` and `PlacedTrips` state where each comes from and what it looks like |
| Prepare.AddAll | prepara_json.py:221-229 | the table after a run of `add` calls keeps its slots; `AddAllSpec` states each slot's new list |
| Prepare.SortedContainers | prepara_json.py:269-274 | the table after the sorting loop: each slot's placed trips sorted by `TripKey`; `SortingGivesContainers` and `DocumentLists` characterise it |
| Prepare.ToDocument | prepara_json.py:276-286 | `out_data` laid out from the table; characterised by `DocumentShape` and `DocumentLists` |
| Prepare.AddAllSpec | prepara_json.py:221-229 | after the `add` calls, each slot's list is its old list followed by exactly the trips placed in it, in order |
| Prepare.Containers.constructor | prepara_json.py:216-219 | every (section, day, bus type) slot starts empty |
| Prepare.Containers.Add | prepara_json.py:221-229 | `add` appends to one slot's list and changes nothing else |
| Prepare.Containers.SortAll | prepara_json.py:269-274 | every list is replaced by its sort by `TripKey` |
| Prepare.AddDirection | prepara_json.py:246-266 | one direction's `add` calls do what `Branch` describes |
| Prepare.RouteGroup | prepara_json.py:231-266 | one iteration of the group loop does what `Route` describes |
| Prepare.Prepare | prepara_json.py:214-286 | `main` builds the document of the sorted `containers` |
| Prepare.PlacedTrips | prepara_json.py:237-266 | every trip in a list has at least two stops in time order, starts at its first stop and ends at its last, and sits in a slot whose bus type its section lists |
| Prepare.DocumentShape | prepara_json.py:276-286 | four sections in `SECTIONS` order with their ids, titles and `busTypeOrder`; three days each in `DAY_ORDER` order; a list for each of the three bus types |
| Prepare.DocumentLists | prepara_json.py:269-286 | each list is sorted by (start minutes or 10⁹, `str(trip_id)`); it is a permutation of the trips routed to it; it is non-empty only for a bus type its section lists; its trips are well-formed |
| Prepare.MidnightStartSortsLast | prepara_json.py:273 | the quirk: a trip leaving at `00:00` sorts after any trip with another parseable start |
| Format.CssSafe | app.js:13-15 | `cssSafe`: runs of characters outside `[A-Za-z0-9_-]` become one `_`; fixed on every input by `CssSafeRun` with `CssSafeOfAllowed` |
| Format.CssSafeBounds | app.js:13-15 | the output has only `[A-Za-z0-9_-]` and is no longer than the input |
| Format.CssSafeRun | app.js:13-15 | allowed characters are copied, and a maximal run of other characters becomes a single `_` |
| Format.CssSafeOfAllowed | app.js:13-15 | a string of allowed characters is unchanged |
| Format.CssSafeIdempotent | app.js:13-15 | `cssSafe` is idempotent |
| Format.CssSafeKeeps | app.js:13-15 | allowed characters other than `_` are kept, in order |
| Format.CssSafeMerges | app.js:13-15 | different keys can share an id: `a b` and `a_b` both give `a_b` |
| Format.SpeakBusType | app.js:17-21 | `e22` ↦ `E 22`, `e23` ↦ `E 23`, every other code ↦ `Semidirecte`, each an if-and-only-if |
| Format.RouteSentence | app.js:23-26 | `routeSentence`; fixed for every route by `RouteSentenceOne` and `RouteSentenceSnoc` |
| Format.RouteSentenceOne | app.js:23-26 | a one-stop route reads `Recorregut: <time> <stop>.` |
| Format.RouteSentenceSnoc | app.js:23-26 | one more stop replaces the final `.` by `; <time> <stop>.` |
| Format.RouteSentenceExample | app.js:23-26 | `[08:00 A, 08:10 B]` gives `Recorregut: 08:00 A; 08:10 B.` |
| Format.TripLabel | app.js:28-30 | `tripLabel`; see `TripLabelDetermines` and `TripLabelExample` |
| Format.TripLabelDetermines | app.js:28-30 | for one bus type and departure texts of equal length (as every `HH:MM` is), the label determines departure and arrival |
| Format.TripLabelExample | app.js:28-30 | the label of an e23 trip 08:00–09:15 is `Servei E 23. Sortida 08:00. Arribada 09:15.` |
| Render.Toggle | app.js:50-58 | the click handler's new `aria-expanded`/`hidden` pair; characterised by `ToggleSpec` |
| Render.ToggleSpec | app.js:50-58 | a click flips `aria-expanded` and leaves the content hidden exactly when not expanded; two clicks restore a consistent state |
| Render.ContentIdsDistinct | app.js:34 | different trip numbers give different `trip_<uid>` ids |
| Render.TripWidget.constructor | app.js:32-48 | a new trip is collapsed: not expanded, content hidden |
| Render.TripWidget.Click | app.js:50-58 | the click handler applies `Toggle` to this trip |
| Render.Entries | app.js:98-103 | the (section, day) entries in document order; see `EntryAt` |
| Render.FirstKey | app.js:132-134 | `firstPanelKey`: the first entry's key; see `FirstKeyIsFirstEntry` |
| Render.CollectEntries | app.js:98-103 | the nested loop collects `Entries`: one per (section, day) in document order |
| Render.EntryAt | app.js:98-103 | day `d` of section `k` is entry number (days before `k`) + `d`, with key `id + "__" + name` |
| Render.FirstKeyIsFirstEntry | app.js:132-134 | keys are never empty, so `firstPanelKey` is the first entry's key |
| Render.GroupsFollowOrder | app.js:113-126 | groups follow `busTypeOrder`, one per bus type with a non-empty list, headed by the spoken type |
| Render.GroupsNumbering | app.js:121-124 | a panel numbers its trips consecutively after the previous panels' trips |
| Render.Groups | app.js:113-126 | the bus-type groups of one panel; `GroupsFollowOrder` and `GroupsNumbering` characterise it |
| Render.OrderOf | app.js:113 | `busTypeOrder`, or `e22`, `e23`, `semidirecte` when the section has none |
| Render.TripsOf | app.js:115 | the day's list for a bus type, or none when the day lacks it |
| Render.Panels | app.js:106-129 | the panels built from the entries; characterised by `PanelsLayout` and `PanelsNumbering` |
| Render.PanelsLayout | app.js:107-129 | one hidden panel per entry, in order, with id `panel_` + `cssSafe(key)` |
| Render.PanelsNumbering | app.js:106-129 | across all panels trips are numbered 1, 2, 3, … in document order |
| Render.UidsUnique | app.js:106-124 | trip numbers strictly increase, so the `trip_<uid>` ids are unique |
| Render.Block | app.js:132-146 | one picker block: the buttons of the entries of one kind, in order; see `BlocksCount`, `BlocksCover` and `BlocksOnly` |
| Render.BlocksCount | app.js:132-146 | every entry has exactly one button across the two blocks |
| Render.BlocksCover | app.js:144-145 | an entry's button is in picker-mb exactly when its section is `m2b` or `b2m` |
| Render.BlocksOnly | app.js:144-145 | each block holds only buttons of entries of its kind |
| Render.FindId | app.js:69 | `getElementById` finds the first panel with the id, or reports that none has it |
| Render.Shown | app.js:65-78 | the panels after `showPanel`; characterised by `ShownSpec` |
| Render.Pressed | app.js:80-82 | the buttons after `showPanel`; characterised by `PressedSpec` |
| Render.ShownSpec | app.js:65-78 | after `showPanel(key)` at most one panel is visible, namely the first with id `panel_` + `cssSafe(key)`; one is visible exactly when such a panel exists; nothing else changes |
| Render.PressedSpec | app.js:80-82 | a button is pressed exactly when its raw `data-target` equals `key`; target and text are unchanged |
| Render.HideAll | app.js:67 | the loop sets `aria-hidden` on every panel |
| Render.PressAll | app.js:80-82 | the loop sets every button's `aria-pressed` |
| Render.ShowKey | app.js:65-83 | `showPanel` yields `Shown` panels and `Pressed` blocks |
| Render.BuildTrips | app.js:121-124 | one collapsed widget per trip, numbered on from the counter |
| Render.BuildGroups | app.js:113-126 | the loop over `busTypeOrder` yields `Groups` and the panel's widgets, numbered on from the counter |
| Render.BuildPanels | app.js:106-129 | the loop over the entries yields `Panels` and all widgets, numbered from 1 |
| Render.BuildButtons | app.js:132-146 | the loop yields the two blocks and `firstPanelKey` |
| Render.BuildPage | app.js:85-149 | `buildUI` sets the status line (`No hi ha dades.` for no sections, otherwise empty), builds panels, widgets and blocks, and shows the first key when it is truthy |
| Render.Page.Load | app.js:85-149 | the loaded page: every trip is collapsed, widget `i` is trip `i+1`, and panels and pickers are those of `BuildPage` |
| Render.Page.ShowPanel | app.js:65-83 | a picker click: panels become `Shown` and both blocks `Pressed`; status and trips unchanged |
| Render.Page.ClickTrip | app.js:50-58 | a trip click toggles that trip, leaves every sibling unchanged, and keeps every trip's content in step with its button |
| Render.LoadShowsFirst | app.js:132-148 | after `buildUI` the first entry's panel is the only visible one, and in both button blocks exactly the buttons targeting its key are pressed |

## Left out

- CSV loading, column checks, argparse, file writing, `json.dumps` and `print` (prepara_json.py:184-212, 288-289) are I/O. The model starts from the grouped rows and ends with the document value.
- `df.groupby` (prepara_json.py:231) is a library call. Its groups are an input sequence, and their order is taken as given. The sort that follows makes the lists independent of that order only up to ties.
- pandas NaN is modelled as `None` (prepara_json.py:146, 241).
- `str()` of a cell is taken as the cell's text.
- `upper`, `lower`, `isspace`, `isdigit` and `\d` are modelled on ASCII only. Other Unicode letters, spaces and digits are not modelled.
- `Sorting.SortBy`: stability of the sort is not stated as a property. The insertion sort is stable, as Python's is.
- `Prepare.AddAll`: a placement for a slot the table lacks is skipped instead of raising `KeyError`. `AddDirection` proves every slot `add` is called with exists, so that path is never taken.
- `Prepare.Containers.SortAll` visits the slots in an unspecified order. The source visits them in dict order. Each list is sorted independently, so the result is the same.
- `fetch`, the promise chain and its error message (app.js:151-157) are network and asynchronous code.
- `el`, element creation, `h.focus()` and `tabindex` (app.js:2-11, 72-76) are host calls. Only these abstract flags are kept:
  - panel `aria-hidden`;
  - button `aria-pressed` and `data-target`;
  - trip `aria-expanded` and content `hidden`.
- Hint text and CSS class names (app.js:33, 37, 45, 47, 109, 118) have no behaviour.
- `getElementById` is modelled over the panels only. Another page element with the same id is not modelled.
- `buildUI` is modelled as running once on an empty page (`Page.Load`). Panels left over from an earlier call are not modelled.
- `data.sections || []`, `sec.days || []` and `e.day.buses && …` (app.js:92, 100, 115): a missing array or object is modelled as an empty one, which behaves the same. `busTypeOrder` keeps its missing/present distinction, because an empty array there is truthy.
- Empty lists: the code skips a bus type with no trips (app.js:116). The model follows the code, which writes no "no schedules" notice for such a list.
