# OptionsPlugin settings helper — Dafny model

This project models the core of the `OptionsPlugin` settings helper from a
BetterDiscord plugin (`example.plugin.js`): the option store that a plugin
builds from a table of typed defaults (text, number, range, toggle, select),
reads with `get`/`getAll`, writes with `set`, and persists to the host's
`bdPluginStorage` with `save`/`load`/`reset`; and the slider arithmetic
(`_snapTo`, `_convertRange` and the handle percentage of `_inputHTML`).

Modules:

- `Values` (`values.dfy`): option values (`Bool | Num | Str`) and JavaScript
  truthiness (`IsTruthy`: `false`, `0` and `""` are falsy).
- `OptionTable` (`option_table.dfy`): option entries and the table as a value,
  with the pure rules the store follows — range normalisation, `get`, `set`,
  `simpleOptions`, the `load` overlay — and the lemmas relating them
  (save/load round trip, load after reset, stability of load).
- `Plugin` (`plugin.dfy`): storage-key derivation, the host storage as a class
  holding one saved blob per key, and the `OptionsPlugin` class whose methods
  update `options` in place and write the storage, each proved against the
  `OptionTable` rules.
- `RangeMath` (`range_math.dfy`): `_snapTo` as a method that follows the
  source's remainder steps (with JavaScript's truncating `%` written out),
  proved equal to an independent "nearest grid point, ties up, then clamp"
  definition; `_convertRange` and the slider percentage over `real`.

Behaviour worth knowing, as the code has it:

- `set` does not snap or clamp range values, and accepts unknown keys, giving
  them an entry that holds only the value. Such keys are saved, but the next
  `load` drops them (`UnknownKeySavedButNotLoaded`).
- `load` ignores stored falsy values, so a toggle saved as `false` comes back
  as its default (`ToggleSavedFalseLoadsDefault`).
- The snap result is always in `[min,max]` (or `min` when `min > max`). A
  value above `max` snaps to `max`, and snapping is idempotent, exactly when
  `max` rounds up to a grid point at or above itself: `max` is on the step
  grid, or at least half a step past the grid point below it
  (`SnapsToMaxIff`, `AboveMaxGivesMax`, `SnapIdempotentIff`). With step 10,
  this holds on [0,96] but not on [0,91], where 92 snaps to 90
  (`OffGridMaxRoundingUpExample`, `OffGridMaxCounterexamples`).
- Edge cases as the code has them: a degenerate interval in `_convertRange`
  is not reported as an error (the code divides by zero, so the model requires
  a non-empty source interval); `save` has no error path; and with stored text
  that is not valid JSON, `load` resets the options to the defaults and then
  throws from `JSON.parse` (stored blobs are maps here, so there is no such
  text).

## Model

| member | source | states |
|---|---|---|
| OptionTable.NormaliseEntry | example.plugin.js:65-70 | a range entry gets `min` 0 and `max` 100 when absent, `step` 1 when absent or 0, `percent` true when absent, and keeps given values; value, type, label, help and choices are untouched; non-range entries are unchanged |
| OptionTable.NormaliseIdempotent | example.plugin.js:65-70 | normalising an already normalised entry changes nothing |
| OptionTable.NormaliseDefaults | example.plugin.js:64-71 | the loop over the defaults yields the same keys, each entry normalised |
| OptionTable.Lookup | example.plugin.js:110-114 | `get` answers a value exactly when the key is present, and then it is that entry's value |
| Values.IsTruthy | example.plugin.js:146 | a value is falsy exactly when it is `false`, `0` or `""` (the test `load` applies to stored values; also the `||` defaults of lines 62 and 80) |
| OptionTable.Bare | example.plugin.js:116-119 | the entry made for an unknown key holds the value and no other field: no type, label, help, range fields or choices |
| OptionTable.Assign | example.plugin.js:115-119 | after `set(k,v)`, `get(k)` is `v`; a known key keeps its other fields, an unknown one gets a bare entry; every other key is unchanged and the key set grows by `k` only |
| OptionTable.SimpleValues | example.plugin.js:126-134 | the simple view has exactly the table's keys, each mapped to its entry's value |
| OptionTable.SimpleValuesAfterAssign | example.plugin.js:115-134 | after `set(k,v)` the simple view differs from the old one at `k` only, where it is `v` |
| OptionTable.Overlay | example.plugin.js:139-150 | `load` keeps exactly the defaults' keys, changes only values, takes a stored value when it is truthy and the key is known, and otherwise keeps the default entry |
| OptionTable.Loaded | example.plugin.js:139-142 | a missing blob leaves the defaults; the key set is always the defaults' |
| OptionTable.AssignKeepsSchema | example.plugin.js:115-119 | `set` on a known key keeps the table equal to the defaults except in values |
| OptionTable.SaveLoadRoundTrip | example.plugin.js:126-150 | save then load returns each truthy value and turns each falsy one into its default |
| OptionTable.SaveLoadExact | example.plugin.js:126-150 | with every value truthy, save then load returns the table unchanged |
| OptionTable.LoadIsStable | example.plugin.js:126-150 | saving a loaded table and loading again gives the same table |
| OptionTable.LoadAfterReset | example.plugin.js:135-155 | after `reset` saved the defaults, `load` gives the defaults |
| OptionTable.UnknownKeySavedButNotLoaded | example.plugin.js:115-150 | a key unknown to the defaults written by `set` is saved but dropped by the next `load` |
| OptionTable.ToggleSavedFalseLoadsDefault | example.plugin.js:145-150 | a toggle saved as `false` loads as its default `true` |
| OptionTable.LoadDiscardsEmptyString | example.plugin.js:145-150 | stored `{"text": "", "number": 7}` over defaults "Text" and 50 loads text "Text" and number 7 |
| Plugin.Lower | example.plugin.js:79 | `'A'..'Z'` become `'a'..'z'` (code point plus 32); every other character is unchanged |
| Plugin.ShortName | example.plugin.js:79 | the short name is no longer than the name and consists only of `[a-z0-9-_]`; which characters it keeps, in what order, is fixed by `ShortNameOneChar` and `ShortNameAppend` |
| Plugin.ShortNameOneChar | example.plugin.js:79 | a single character is kept and lower-cased when it is in `[a-zA-Z0-9-_]`, and dropped otherwise |
| Plugin.ShortNameAppend | example.plugin.js:79 | shortening works character by character: the short name of `a+b` is the short name of `a` followed by that of `b` |
| Plugin.ShortNameKeepsKeyChars | example.plugin.js:79 | a name made only of `[a-z0-9-_]` is its own short name |
| Plugin.ShortNameIdempotent | example.plugin.js:79 | shortening twice equals shortening once |
| Plugin.ShortNameExample | example.plugin.js:79 | "My App!" shortens to "myapp" |
| Plugin.StorageKeyFor | example.plugin.js:80 | a given non-empty key is used as is; otherwise the key is the short name plus "-options" and consists only of `[a-z0-9-_]` |
| Plugin.PluginStorage.Fetch | example.plugin.js:141 | reading the storage answers the blob saved under the key, or nothing |
| Plugin.PluginStorage.Put | example.plugin.js:136 | writing the storage replaces the blob under one key and no other |
| Plugin.OptionsPlugin.constructor | example.plugin.js:61-80 | defaults are the given table (empty when absent) with every entry normalised, options equal defaults, the storage key is derived as above |
| Plugin.OptionsPlugin.Get | example.plugin.js:110-114 | returns the key's value, or nothing when the key is absent; changes no state |
| Plugin.OptionsPlugin.GetAll | example.plugin.js:123-125 | returns the live option table; changes no state |
| Plugin.OptionsPlugin.SimpleOptions | example.plugin.js:126-134 | the loop builds exactly the simple view of the live table |
| Plugin.OptionsPlugin.Save | example.plugin.js:135-137 | the blob under the storage key becomes the simple view; other blobs and both tables are unchanged |
| Plugin.OptionsPlugin.Set | example.plugin.js:115-122 | options become `Assign(old options, k, v)`, defaults are unchanged, and the stored blob equals the new simple view |
| Plugin.OptionsPlugin.Load | example.plugin.js:138-151 | options become the defaults overlaid with the truthy, known stored values, or the defaults when nothing is stored; defaults and storage are unchanged |
| Plugin.OptionsPlugin.Reset | example.plugin.js:152-155 | options equal the unchanged defaults and the stored blob is their simple view |
| RangeMath.JsRem | example.plugin.js:406 | JavaScript `%`: the remainder `r` with `a == b*q + r` for some integer `q`, in `[0,b)` for a non-negative dividend and in `(-b,0]` for a negative one (truncated division), which fixes `r` uniquely |
| RangeMath.Clamp | example.plugin.js:412-413 | the two tests give a value in `[min,max]`, keep one already inside, give `min` at or below `min`, and give `min` when `max < min` |
| RangeMath.NearestGridPointIsClose | example.plugin.js:406-410 | the rounded grid point lies within half a step of the value, a tie lying above it |
| RangeMath.NearestGridPointIsNearest | example.plugin.js:406-410 | no point `min + k*step` is nearer to the value than the rounded one, and an equally near one is smaller (ties round up) |
| RangeMath.NearestOfGridPoint | example.plugin.js:406-410 | a grid point rounds to itself |
| RangeMath.SnapStepsAtOrAboveMin | example.plugin.js:406-410 | for a value at or above `min`, subtracting the remainder and adding a step when twice the remainder reaches the step lands on the nearest grid point |
| RangeMath.SnapStepsBelowMin | example.plugin.js:406-413 | below `min` the remainder steps add no step and stay at or below `min`, as does the nearest grid point, so both clamp to `min` |
| RangeMath.SnapTo | example.plugin.js:399-414 | the result is the nearest grid point from `min`, ties up, then clamped; it lies in `[min,max]`, is `min` for values at or below `min`, and `min` when `max < min` |
| RangeMath.SnappedInsideIsNearest | example.plugin.js:406-413 | inside `[min,max]`, when the nearest grid point does not pass `max`, it is the result |
| RangeMath.OnGridMaxRoundsUp | example.plugin.js:406-413 | a `max` on the step grid rounds to itself |
| RangeMath.SnapsToMaxIff | example.plugin.js:406-413 | `max` snaps to itself exactly when it rounds to a grid point at or above itself |
| RangeMath.AboveMaxGivesMax | example.plugin.js:406-413 | when `max` rounds up, every value at or above `max` snaps to `max` |
| RangeMath.SnappedIdempotent | example.plugin.js:406-413 | when `max` rounds up, snapping a snapped value changes nothing |
| RangeMath.SnapIdempotentIff | example.plugin.js:406-413 | snapping is idempotent on all values exactly when `max` rounds up |
| RangeMath.OffGridMaxCounterexamples | example.plugin.js:406-413 | with step 10 on [0,91], 91 rounds down, 92 snaps to 90, and 200 snaps to 91 which snaps to 90 |
| RangeMath.OffGridMaxRoundingUpExample | example.plugin.js:406-413 | with step 10 on [0,96], 96 rounds up, 97 and 200 snap to 96, and 96 snaps to itself |
| RangeMath.SnapExamples | example.plugin.js:406-413 | step 10 on [0,100]: 54 gives 50, 55 gives 60, 56 gives 60, 105 gives 100 |
| RangeMath.ConvertRange | example.plugin.js:396-398 | the ends of the source interval map to the ends of the target, and the map is linear |
| RangeMath.ConvertRangeIdentity | example.plugin.js:396-398 | converting an interval to itself is the identity |
| RangeMath.ConvertRangeRoundTrip | example.plugin.js:396-398 | converting there and back returns the value |
| RangeMath.ConvertRangeBetween | example.plugin.js:396-398 | a value inside an increasing source interval lands inside an increasing target interval |
| RangeMath.ConvertRangeExample | example.plugin.js:396-398 | 25 in [0,100] is 0.25 in [0,1] |
| RangeMath.PercentBounds | example.plugin.js:338 | for `min < max` the raw percentage is at most 0 at or below `min`, at least 100 at or above `max`, and within [0,100] between |
| RangeMath.SliderPercent | example.plugin.js:338-341 | the percentage is within [0,100]; it is undefined (NaN) exactly when `value == min == max`; for `min < max` it is 0 at or below `min`, 100 at or above `max`, and the converted value between |

## Left out

- HTML and CSS generation, DOM event wiring and the embedded script
  (`settingsHTML`, the markup of `_inputHTML`, `_labelHTML`, CSS injection):
  presentation with no store logic.
- The observer hook and the reference stored on the host plugin (lines 83-94),
  and the global lookup of the store from the settings script: host lifecycle.
- `_setFromForm` and `_resetSettings` read DOM elements; their effect on the
  store is "set the value, save", which `Set` covers. The `onSave` and
  `onReset` callbacks are only called from them and are not modelled.
- Mouse-drag and keyboard handling in the settings script: DOM event handling.
- `_round` is not modelled: it reads an undefined variable `number` and throws.
- `_convertRange` (line 397) calls `num`, which only the injected settings
  script defines as a global (line 216); outside that script the call would
  throw. The model takes values already parsed to reals.
- `getDefaults` (lines 107-109) returns the `defaults` field, which the model
  exposes directly.
- SnapTo: the `toFixed` formatting of the result, with decimal places taken
  from the step's text, is not modelled; the snapped number is returned.
- SnapTo: requires a positive step; JavaScript also runs with a negative step
  (the constructor only replaces a zero step), which is not modelled.
- ConvertRange: requires `from0 != from1`; the source then divides by zero and
  yields an infinity or NaN, which reals cannot represent.
- Numbers: option values and snapping use unbounded integers, conversion and
  percentage use reals; JavaScript double rounding, NaN and infinities are not
  modelled (except the NaN case of `SliderPercent`, which is `None`).
- JSON text and the real `bdPluginStorage`: the storage is a map from storage
  key to a map of simple values; `_clone`'s JSON round trip is Dafny's value
  semantics. Stored data that is not an object of booleans, numbers and
  strings (JSON `null`, nested objects, arrays) is not modelled.
- Entries are typed: every entry has a value, range fields are integers, and
  JavaScript's loose `step == 0` on non-number steps (such as `"0"`) is not
  modelled.
- Assign: the table is a plain map. In JavaScript it is an object, so
  `set` with a key that names an inherited `Object.prototype` property
  (`toString`, `__proto__`, ...) finds that property truthy, creates no entry
  and writes `.value` onto the shared prototype member; such a key is never
  saved, whereas the model adds and saves a bare entry.
- Overlay: jQuery's `$.each` walks an object with a `length` property by
  index, so a stored blob holding an option named `length` loads differently
  in JavaScript (with `length: 0`, no stored value at all); the model
  iterates the blob's keys as a map.
- Aliasing: the constructor normalises the caller's defaults object in place,
  and `getAll` returns the live object, which a caller could mutate; the model
  copies values instead.
- The example plugin wrapper around the helper (lines 1-56) is host
  boilerplate; `ExampleUsage` in `plugin.dfy` replays its use of the store.
