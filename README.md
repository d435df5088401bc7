# Fluid guide: vehicle catalogue, recent vehicles, fluid table and cascading selector

A model, in Dafny, of the logic underneath a browser front-end that helps a user
pick a vehicle (brand → model → year → engine type) and see the fluids
recommended for it. The logic is in three places:

- **The vehicle service** (`src/services/api/vehicleService.js`): catalogue
  queries over an in-memory table of vehicles (distinct brands, models, years
  and engine types, each sorted; exact-match lookups), and the recent-vehicles
  list kept in local storage: at most five entries, most recent first, no two
  equal.
- **The fluid service** (`src/services/api/fluidService.js`): a table of fluid
  records with filter queries and in-place `create`, `update` and `delete`.
- **The vehicle selector** (`src/components/organisms/VehicleSelector.jsx`):
  four dependent choices with an option list each. Changing a level clears
  every level below it, reports the new selection, and starts the fetch of the
  next level's options once all keys above it are set.

Files:

- `wrappers.dfy` (`Wrappers`): `Option`, standing for `null`.
- `seqs.dfy` (`Seqs`): `filter`, `map`, `find` and `findIndex` as functions on
  sequences, with what JavaScript guarantees of them.
- `ordering.dfy` (`Ordering`): the default string sort order (lexicographic
  by character, the same as the code-unit order for characters up to U+FFFF), the descending number order used for years, and
  `[...new Set(xs)].sort(...)` for each, with the proof that a strictly sorted
  list is determined by its elements.
- `recent.dfy` (`Recent`): the recent-list update as a function on values, and
  its properties.
- `vehicles.dfy` (`Vehicles`): class `VehicleService` with the catalogue
  (never changed) and the stored recent list (a field).
- `fluids.dfy` (`Fluids`): class `FluidService` whose table is a field that
  `Create`, `Update` and `Delete` reassign.
- `selector.dfy` (`Selector`): class `VehicleSelector`. Each handler is one
  method. It returns the selection handed to `onVehicleSelect` and the fetch it
  starts. The end of each fetch is a separate event method.

Modelling choices:

- Each `async` service call is one atomic step; `delay()` is left out.
- The local-storage key `recentVehicles` is the field
  `VehicleService.storedRecent`, holding the list already parsed. `None` means
  the key is absent.
- A recent-list entry is the four fields `addRecentVehicle` compares (brand,
  model, year, engine type). Equality of entries is therefore field-wise
  equality.
- `Ordering.StrLess` compares strings character by character. For strings of
  characters up to U+FFFF (one UTF-16 code unit each) this is the order that
  `Array.prototype.sort()` uses. Beyond that the two differ; see "Left out".
- The selector's year is `''` (`NoYear`) until one is chosen. Its tests use
  JavaScript truthiness, so a year `0` counts as unset (`YearChoice.IsSet`).
- A finished fetch is applied whatever the selection has become in the
  meantime, as `VehicleSelector.jsx:60`, `:70` and `:80` do: the code never
  compares a late result with the current selection.
- Because of that, an option list can be non-empty while the level above it
  is unset. A model fetch that finishes after the brand was cleared still
  fills the model list. The model therefore claims no invariant tying option
  lists to the selected fields; it proves only that each handler clears the
  lists below the level it changes.
- When an option fetch throws, the code keeps the old list and only writes a
  console message. The model does the same.

## Model

| member | source | states |
|---|---|---|
| `Vehicles.VehicleService.GetBrands` | src/services/api/vehicleService.js:13-17 | every brand of the table appears exactly once and nothing else does; the list is strictly ascending in character order, the same as the code-unit order for characters up to U+FFFF |
| `Vehicles.VehicleService.GetModels` | src/services/api/vehicleService.js:19-27 | exactly the distinct models of the vehicles of that brand, strictly ascending; empty iff no vehicle has the brand |
| `Vehicles.VehicleService.GetYears` | src/services/api/vehicleService.js:29-37 | exactly the distinct years of the vehicles of that brand and model, strictly descending |
| `Vehicles.VehicleService.GetEngineTypes` | src/services/api/vehicleService.js:39-47 | exactly the distinct engine types of the vehicles matching brand, model and year, strictly ascending |
| `Vehicles.VehicleService.GetBySpecs` | src/services/api/vehicleService.js:49-58 | `None` iff no vehicle matches all four fields; otherwise the first vehicle of the table that matches them |
| `Vehicles.VehicleService.GetById` | src/services/api/vehicleService.js:60-64 | `None` iff no vehicle has the Id; otherwise the first vehicle with that Id |
| `Ordering.SortedDistinct` | src/services/api/vehicleService.js:15 | the result is strictly ascending and has exactly the elements of the input |
| `Ordering.AscendingUnique` | src/services/api/vehicleService.js:15 | two strictly ascending lists with the same elements are equal, so the result does not depend on the order in which `Set` met the values |
| `Ordering.SortedDistinctDescending` | src/services/api/vehicleService.js:35 | the result is strictly descending and has exactly the elements of the input |
| `Ordering.DescendingUnique` | src/services/api/vehicleService.js:31-35 | two strictly descending lists with the same elements are equal |
| `Ordering.StrLessTotal` | src/services/api/vehicleService.js:15 | the string order ranks any two different strings one way or the other |
| `Ordering.StrLessTransitive` | src/services/api/vehicleService.js:15 | the string order is transitive |
| `Recent.AddedRecent` | src/services/api/vehicleService.js:76-87 | drops the entries equal to `v`, puts `v` in front, keeps the first five; every entry is `v` or came from the old list; its other properties are the `AddedRecent*` lemmas below |
| `Recent.WithoutLength` | src/services/api/vehicleService.js:76-81 | the filter removes exactly the entries equal to the recorded vehicle |
| `Recent.AddedRecentFront` | src/services/api/vehicleService.js:76-84 | after recording `v` the list starts with `v` and no other entry equals `v` |
| `Recent.AddedRecentKeepsOrder` | src/services/api/vehicleService.js:76-87 | the surviving older entries are a subsequence of the old list (relative order kept) |
| `Recent.AddedRecentLength` | src/services/api/vehicleService.js:76-87 | the new length is min(5, 1 + number of old entries not equal to `v`) |
| `Recent.AddedRecentNew` | src/services/api/vehicleService.js:83-87 | a vehicle not in the list is pushed in front; when the list already holds five or more, only the first four old entries survive |
| `Recent.AddedRecentIdempotent` | src/services/api/vehicleService.js:72-91 | recording the same vehicle twice in a row gives the same list as recording it once |
| `Recent.AddedRecentWellFormed` | src/services/api/vehicleService.js:72-91 | from a list without duplicates, recording gives a list of at most five entries without duplicates |
| `Recent.AddedRecentPresent` | src/services/api/vehicleService.js:76-87 | re-recording an entry of a well-formed list moves it to the front without changing the length |
| `Vehicles.VehicleService.constructor` | src/services/api/vehicleService.js:4-6 | the catalogue is the given table (the bundled `vehicles.json`); the stored recent list is whatever local storage holds at that moment |
| `Vehicles.VehicleService.GetRecentVehicles` | src/services/api/vehicleService.js:67-70 | the stored list when the key is present, `[]` when it is absent |
| `Vehicles.VehicleService.AddRecentVehicle` | src/services/api/vehicleService.js:72-91 | the stored list becomes exactly the returned list, which is the recent-list update of the previously stored list (the empty list when nothing was stored); it starts with `v`, holds no other copy of `v` and has at most five entries |
| `Vehicles.VehicleService.ClearRecentVehicles` | src/services/api/vehicleService.js:93-95 | the storage key is removed, and reading the recent list then gives `[]` |
| `Fluids.FluidService.constructor` | src/services/api/fluidService.js:4-6 | the table is the given sequence of records (the bundled `fluids.json`), in its order |
| `Fluids.FluidService.GetAll` | src/services/api/fluidService.js:12-15 | every record in table order; the table is unchanged |
| `Fluids.FluidService.GetById` | src/services/api/fluidService.js:17-21 | `None` iff no record has the Id; otherwise the first record with it |
| `Fluids.FluidService.GetByVehicleId` | src/services/api/fluidService.js:23-27 | exactly the records with that vehicle Id, each as often as in the table, as a subsequence of the table |
| `Fluids.FluidService.GetByType` | src/services/api/fluidService.js:29-33 | exactly the records of that type, each as often as in the table, as a subsequence of the table |
| `Fluids.MaxId` | src/services/api/fluidService.js:37 | the largest Id of a non-empty table: no record's Id exceeds it and some record has it |
| `Fluids.FluidService.Create` | src/services/api/fluidService.js:35-44 | on a non-empty table, exactly one record is appended and earlier records are unchanged; the new Id is the largest existing Id plus one, hence greater than every existing Id, so no record had it (exact integers; see Left out); the other fields come from the input |
| `Fluids.Merge` | src/services/api/fluidService.js:50 | each field present in the patch overrides, each absent field keeps its old value; an empty patch changes nothing |
| `Fluids.FluidService.Update` | src/services/api/fluidService.js:46-54 | on a present Id only the first record with it is replaced by the merged record, which is returned, and the length is unchanged; on an absent Id `None` and the table unchanged |
| `Fluids.FluidService.Delete` | src/services/api/fluidService.js:56-64 | on a present Id exactly the first record with it is removed and returned, and the rest keep their order; on an absent Id `None` and the table unchanged |
| `Selector.LoadModels` | src/components/organisms/VehicleSelector.jsx:56-57 | the model fetch starts exactly when the brand is non-empty, with that brand; the fetch satisfies `KeysSet` |
| `Selector.LoadYears` | src/components/organisms/VehicleSelector.jsx:66-67 | the year fetch starts exactly when brand and model are both non-empty, with those keys; the fetch satisfies `KeysSet` |
| `Selector.LoadEngineTypes` | src/components/organisms/VehicleSelector.jsx:76-77 | the engine-type fetch starts exactly when brand and model are non-empty and the year is neither `''` nor `0`, with those keys; the fetch satisfies `KeysSet` |
| `Selector.VehicleSelector.constructor` | src/components/organisms/VehicleSelector.jsx:8-18 | all four fields empty, all option lists empty, not loading |
| `Selector.VehicleSelector.BrandDisabled` | src/components/organisms/VehicleSelector.jsx:162 | the brand dropdown has no `disabled` expression; it shows its loading state exactly while the brand list is fetched |
| `Selector.VehicleSelector.ModelDisabled` | src/components/organisms/VehicleSelector.jsx:177 | the model dropdown is disabled exactly when the brand is empty |
| `Selector.VehicleSelector.YearDisabled` | src/components/organisms/VehicleSelector.jsx:192 | the year dropdown is disabled exactly when the model is empty |
| `Selector.VehicleSelector.EngineTypeDisabled` | src/components/organisms/VehicleSelector.jsx:207 | the engine-type dropdown is disabled exactly when the year is `''` or the falsy `0` |
| `Selector.VehicleSelector.LoadBrands` | src/components/organisms/VehicleSelector.jsx:44-47 | the brand fetch starts and the brand dropdown shows loading |
| `Selector.VehicleSelector.OnBrandsLoaded` | src/components/organisms/VehicleSelector.jsx:47-53 | loaded data (`null` as empty) replaces the brand list, a failure keeps it; loading ends either way |
| `Selector.VehicleSelector.HandleBrandChange` | src/components/organisms/VehicleSelector.jsx:86-100 | sets the brand; clears model, year, engine type and their option lists; the brand list is untouched; reports `(b,'','','')`; fetches models only when `b` is non-empty |
| `Selector.VehicleSelector.HandleModelChange` | src/components/organisms/VehicleSelector.jsx:102-114 | sets the model; clears year, engine type and their option lists; brand and the brand and model lists are untouched; reports `(brand,m,'','')`; fetches years only when brand and model are set; keeps the filled levels a prefix when the model dropdown was enabled (`VehicleSelector.jsx:177`) |
| `Selector.VehicleSelector.HandleYearChange` | src/components/organisms/VehicleSelector.jsx:116-126 | sets the year; clears engine type and its option list; nothing else changes; reports `(brand,model,y,'')`; fetches engine types only when all three keys are set; keeps the prefix when the year dropdown was enabled (`VehicleSelector.jsx:192`) |
| `Selector.VehicleSelector.HandleEngineTypeChange` | src/components/organisms/VehicleSelector.jsx:128-141 | only the engine type changes; reports the full tuple; keeps the prefix when the engine dropdown was enabled (`VehicleSelector.jsx:207`) |
| `Selector.VehicleSelector.OnModelsLoaded` | src/components/organisms/VehicleSelector.jsx:56-64 | loaded data (`null` as empty) replaces the model list wholesale; a failure leaves it; nothing else changes |
| `Selector.VehicleSelector.OnYearsLoaded` | src/components/organisms/VehicleSelector.jsx:66-74 | loaded data (`null` as empty) replaces the year list wholesale; a failure leaves it; nothing else changes |
| `Selector.VehicleSelector.OnEngineTypesLoaded` | src/components/organisms/VehicleSelector.jsx:76-84 | loaded data (`null` as empty) replaces the engine-type list wholesale; a failure leaves it; nothing else changes |

The functions `ModelDisabled`, `YearDisabled` and `EngineTypeDisabled` each
test only the level directly above. The
constructor establishes `FilledPrefix`, and the event methods leave the four
fields alone. Each handler, fired on an enabled control, preserves
`FilledPrefix`. So from the empty state, as long as only enabled controls
fire, the chosen levels always form a prefix of brand, model, year and engine
type. `AddRecentVehicle` and `ClearRecentVehicles` state their results
through `GetRecentVehicles`.

## Left out

- `delay()`, `setTimeout`, `async`/`await`: timing only. Each call is one atomic step.
- Local storage and JSON: the stored list is a field that holds the list already parsed. `getRecentVehicles` throws on corrupt stored text (`vehicleService.js:69`, no `try`). This model has no text, so it states no never-throws guarantee either way.
- Vehicles.VehicleService.AddRecentVehicle: an entry is just the four compared fields. A caller that passes an object with more fields would have those fields stored as well. The model does not carry them.
- Vehicles.VehicleService.GetBrands: the model orders strings by code point, while JavaScript orders them by UTF-16 code unit. The two orders differ for characters above U+FFFF: JavaScript sorts "😀" (U+1F600, first code unit 0xD83D) before "Ａ" (U+FF21), and the model sorts it after. Unicode normalisation is not modelled either.
- Vehicles.VehicleService.GetModels: the same code-point versus code-unit difference above U+FFFF as for `GetBrands`.
- Vehicles.VehicleService.GetEngineTypes: the same code-point versus code-unit difference above U+FFFF as for `GetBrands`.
- Fluids.FluidService.Create: requires a non-empty table, where the source would compute `Math.max()` of no Ids as `-Infinity`. The input type has no Id field. The case where a caller-supplied `Id` overrides the fresh one, because the spread comes after it (`fluidService.js:38-41`), is therefore not modelled. Ids are exact integers in the model, while the source computes `Math.max(...ids) + 1` on IEEE doubles (`fluidService.js:37`). That `+ 1` is exact only while the largest Id is at most 2^53 − 1. From 2^53 on it rounds away, and the source appends a record that repeats the largest Id. So the freshness the model proves holds for the source only within `Number.MAX_SAFE_INTEGER`.
- Fluid and vehicle records are assumed to have exactly the fields shown in the datatypes. The mock data files are not part of this model, and the tables are arbitrary inputs.
- The `selectedVehicle` prop is left out. That covers the initial field values taken from it (`VehicleSelector.jsx:13-16`) and the effect that copies it into the state (`:24-42`), which can set any combination of fields. The constructor models mounting without it.
- Rendering, animation, `console.error`, toasts, `window` events, and the pages and widgets that use these services (`FluidAdvisor.jsx`, `Sidebar.jsx` and the rest). FluidAdvisor records a recent vehicle after every complete selection, even when `getBySpecs` finds nothing (`FluidAdvisor.jsx:34-38`, `:64`). That orchestration is not part of this model.
- Interleaving of two handlers within one React render (stale closures): each handler reads the state left by the previous step.
