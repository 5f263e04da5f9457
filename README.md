# Zone listing and kstat modifiers of the metrics agent

This project models the shared helpers of the SmartOS metrics agent's
`lib/common.js`, and the per-VM instrumenter as `test/vm.test.js` describes it.

- **Kstat value modifiers.** `calculateLoadAvg` divides a fixed-point load
  average by `FSCALE` (256). `inskMemLimit` turns the "no cap" sentinels, 2^64
  and 0, into `undefined`. Both assert that the kstat value is an integer.
- **`listRunningZones`.** It turns the output of `zoneadm list -p` into a table
  from zone uuid to `{instance, metrics}`. It trims the output and splits it on
  newlines. For each line it splits on colons, reads field 0 with
  `parseInt(…, 10)`, skips ids that are not positive (the global zone, negative
  ids, NaN), and builds an instrumenter from field 4 and the id. A later line
  with the same uuid overwrites the earlier one.
- **The instrumenter's catalog.** The constructor stores the uuid, the instance
  id and the reader. It also stores the twelve kstat metric definitions in three
  groups (link, memory caps, zones), the two zfs definitions, the time-of-day
  definition, and one kstat read option per group. It throws without a uuid, and
  with a uuid but no instance id.

Modules, in dependency order:

- `Wrappers` (`wrappers.dfy`): `Option` and `Result`.
- `JsText` (`js_text.dfy`): the JavaScript string built-ins the listing uses.
  These are `String.prototype.trim` and `String.prototype.split` with a
  one-character separator (sections 22.1.3.32 and 22.1.3.23 of ECMA-262), and
  `parseInt(s, 10)` (section 19.2.5). NaN is `None`.
- `Common` (`common.dfy`): `FSCALE`, the sentinels and the two modifiers.
  JavaScript numbers are `real`s. A failed `assert-plus` check is an `Err`
  carrying the assertion message.
- `VmCatalog` (`vm_catalog.dfy`): the metric tables, the read options and the
  constructor `NewVm`. The constructor returns a `Result`, because it throws on
  missing arguments. An absent argument (`undefined`) is `None`.
- `ZoneList` (`zone_list.dfy`): the listing.
  - The spawn of zoneadm is not modelled. Its outcome, an error or its stdout,
    is the argument `zoneadm`.
  - `ListRunningZones` is a loop over the lines that updates the table in
    place. It is proved equal to `RunningZones`.
  - `RunningZones` folds `AddLine` over the parsed lines (`ZonesOf`).
  - The lemmas about `ZonesOf` state which uuids the table holds, which line
    each entry comes from, and when the listing fails.

`lib/common.js` loads the instrumenter (`lib/instrumenter/vm.js`) lazily,
because the two modules require each other. Here the dependency runs one way:
`ZoneList` imports `VmCatalog`, which imports `Common`.

### Where the model makes a choice

- **A kept line with fewer than five fields.** Its `vals[4]` is `undefined`,
  and `new VM(undefined, zoneid, reader)` throws. The uuid check comes first, as
  in `test/vm.test.js:197-199`. The exception is raised inside the pipeline's
  line function, so it escapes `listRunningZones` and the callback is never
  called. The model returns `Err(VmThrew(UuidRequired))` for this outcome. It
  does not return a table with an entry under the key `"undefined"`.
- **The uncapped-memory sentinel.** The code compares with `Math.pow(2, 64)`,
  which is exactly 2^64. "UINT64_MAX" (2^64 − 1) is not a double and rounds to
  the same number, so both descriptions agree on doubles. The model uses 2^64,
  as the code does (`MEM_LIMIT_UNCAPPED`).
- **The read options' instance id.** The test checks only each read option's
  module and class. The instance id stored in each option is the zone's own
  instance id. This follows the instrumenter's purpose: each VM reads its own
  zone's kstats.

## Model

The metric tables are the constants `VmCatalog.KSTAT_METRICS` (test/vm.test.js:20-119),
`VmCatalog.ZFS_METRICS` (test/vm.test.js:121-135) and `VmCatalog.TIME_METRICS`
(test/vm.test.js:137-144), with every name, module, kstat key, exposed key, type, help
text and modifier as written there. Constants carry no contract of their own; what the
tests require of them is stated by the rows for NewVm, KstatCatalogShape,
ExposedKeysDistinct, ModifierPlacement and MetricTypes.

| member | source | states |
|---|---|---|
| Common.IsInteger | lib/common.js:44 | `Number.isInteger` on a finite number: the value equals its floor; its contract is carried by CalculateLoadAvg and InskMemLimit, which succeed exactly when it holds |
| Common.CalculateLoadAvg | lib/common.js:43-47 | succeeds exactly on integers; otherwise fails with the assertion message "kstat must be an integer"; the result times FSCALE gives back the kstat value |
| Common.LoadAvgIsExact | lib/common.js:46 | a kstat that is a multiple of 256 gives a whole-number load average (exact over the reals; double rounding is not modelled) |
| Common.LoadAvgMonotone | lib/common.js:46 | a larger kstat never gives a smaller load average |
| Common.InskMemLimit | lib/common.js:49-57 | succeeds exactly on integers; gives `undefined` exactly for 2^64 and 0; passes every other integer through unchanged |
| Common.InskMemLimitIdempotent | lib/common.js:49-57 | a cap that passes through the filter passes through it again unchanged |
| VmCatalog.ApplyModifier | test/vm.test.js:45-87 | a definition without a modifier exposes the raw reading; `calculateLoadAvg` exposes reading/256 and `inskMemLimit` drops the two sentinels, both failing exactly on non-integers |
| VmCatalog.NewVm | test/vm.test.js:160-208 | fails when the uuid or the instance is missing, with the uuid error first (other argument checks are not modelled); otherwise stores uuid, instance and reader, the three metric tables, and the read options link/net, memory_cap/zone_memory_cap and zones/zone_misc, each with the instance id |
| VmCatalog.KstatCatalogShape | test/vm.test.js:20-119 | three groups of four kstat definitions, each reading from its group's module (link, memory_cap, zones) |
| VmCatalog.ExposedKeysDistinct | test/vm.test.js:20-144 | the kstat, zfs and time tables expose fifteen metric names, none twice |
| VmCatalog.ModifierPlacement | test/vm.test.js:45-87 | `calculateLoadAvg` modifies exactly `load_average`, `inskMemLimit` exactly `mem_limit` and `mem_swap_limit` |
| VmCatalog.MetricTypes | test/vm.test.js:20-144 | the link counters, the three CPU nanosecond counters and the time of day are counters; every other metric is a gauge |
| VmCatalog.ReadOptsMatchGroups | test/vm.test.js:169-185 | a constructed instrumenter reads each kstat group with that group's module and its own instance id, and every definition of the group uses that module |
| JsText.Trim | lib/common.js:75 | `trim()`: the end trim of the start trim, never longer than its input; its full contract is TrimSpec, TrimAllWhiteSpace and TrimFinalNewline |
| JsText.TrimStartSpec | lib/common.js:75 | the start trim drops a white-space prefix only, and what remains does not start with white space |
| JsText.TrimEndSpec | lib/common.js:75 | the end trim drops a white-space suffix only, and what remains does not end with white space |
| JsText.TrimSpec | lib/common.js:75 | `trim()` leaves the substring between a white-space prefix and a white-space suffix, with no white space at either end |
| JsText.TrimAllWhiteSpace | lib/common.js:75 | a string of white space only trims to the empty string |
| JsText.TrimFinalNewline | lib/common.js:75 | output framed by non-blank characters and ended by a newline trims to itself without the newline |
| JsText.Split | lib/common.js:75-79 | `split` on one character: at least one piece; its full contract is SplitSpec with JoinSplit (the pieces are separator-free and rejoin to the input) and SplitJoin |
| JsText.SplitSpec | lib/common.js:75 | no piece of a split holds the separator |
| JsText.JoinSplit | lib/common.js:75 | joining the pieces of a split with the separator gives back the string |
| JsText.SplitJoin | lib/common.js:79 | splitting a join of separator-free pieces gives back the pieces |
| JsText.SplitNoSeparator | lib/common.js:79 | a string without the separator splits into itself alone |
| JsText.SplitPrefix | lib/common.js:79 | a separator-free prefix followed by the separator is the first piece, and the rest splits as before |
| JsText.ParseInt | lib/common.js:80 | `parseInt(s, 10)`: skip white space, an optional sign, the longest digit run, NaN without digits; its contract is carried by DigitPrefixSpec, ParseIntDigits, ParseIntDecimal, ParseIntMinus and ParseIntNaN |
| JsText.DigitPrefixSpec | lib/common.js:80 | `parseInt` reads a prefix of the text, made of digits, and the character after it is not a digit |
| JsText.DigitsValueDecimal | lib/common.js:80 | the digits of a decimal rendering of n denote n |
| JsText.ParseIntDigits | lib/common.js:80 | a run of digits followed by a non-digit parses to the run's value |
| JsText.ParseIntDecimal | lib/common.js:80 | `parseInt(String(n) + rest, 10)` is n when rest does not start with a digit |
| JsText.ParseIntMinus | lib/common.js:80 | text with a minus sign parses to NaN or a value at most zero |
| JsText.ParseIntNaN | lib/common.js:80 | text that does not start with a digit, white space or a sign parses to NaN |
| ZoneList.ParseLine | lib/common.js:79-84 | what one line yields: `parseInt` of field 0 and field 4 when there is one; its contract is ParseLineOfFields, GlobalLine and TenantLine |
| ZoneList.Kept | lib/common.js:82-83 | the `zoneid > 0` test, false for NaN; GlobalZoneSkipped, NegativeIdSkipped and NonNumericIdSkipped state which lines it rejects |
| ZoneList.AddLine | lib/common.js:82-92 | a skipped line leaves the table alone; a kept line without a uuid throws; a kept line with a uuid adds or overwrites exactly that uuid's entry, with the line's id, and leaves every other entry as it was |
| ZoneList.ZonesOf | lib/common.js:76-95 | the table after the parsed lines in order, the first throwing constructor ending it; its contract is ZonesOfKeys, ZonesOfLastWins, ZonesOfWellFormed and ZonesOfThrows |
| ZoneList.RunningZones | lib/common.js:69-98 | what the callback receives: the zoneadm error, or the fold of the trimmed, split and parsed output; its contract is ExecFailurePropagates, BlankOutputGivesNoZones and TwoTenantListing, and ListRunningZones is proved equal to it |
| ZoneList.ListRunningZones | lib/common.js:65-101 | the loop over the lines returns what `RunningZones` specifies: the zoneadm error, the constructor's error, or the table folded line by line |
| ZoneList.ZonesOfKeys | lib/common.js:82-91 | the table holds exactly the uuids named by lines with a positive id |
| ZoneList.ZonesOfLastWins | lib/common.js:86-91 | each entry's instance id comes from the last kept line that names its uuid |
| ZoneList.ZonesOfWellFormed | lib/common.js:83-91 | every entry has a positive instance id and holds the instrumenter built from its key and that id |
| ZoneList.ZonesOfThrows | lib/common.js:84-90 | the listing fails exactly when some kept line has no fifth field, and the error is then the missing uuid |
| ZoneList.ExecFailurePropagates | lib/common.js:70-73 | a zoneadm failure reaches the callback unchanged, with no table |
| ZoneList.BlankOutputGivesNoZones | lib/common.js:75-83 | white-space-only output, the empty output included, gives an empty table |
| ZoneList.ParseLineOfFields | lib/common.js:79-84 | a line of colon-free fields is read as its first field parsed as an integer and its fifth field, if present |
| ZoneList.GlobalZoneSkipped | lib/common.js:82-83 | the global zone's line, with id 0, is skipped |
| ZoneList.NegativeIdSkipped | lib/common.js:80-83 | a line whose id has a minus sign is skipped |
| ZoneList.NonNumericIdSkipped | lib/common.js:80-83 | a line whose id field is not a number is skipped |
| ZoneList.GlobalLine | lib/common.js:79-83 | the global zone's printed line reads as id 0 with an empty uuid field |
| ZoneList.TenantLine | lib/common.js:79-84 | a tenant zone's printed line reads as its id and its uuid |
| ZoneList.ZoneLinesOfOutput | lib/common.js:75 | newline-free lines, printed one per line, come back from the output as printed |
| ZoneList.TwoTenantListing | lib/common.js:65-101 | a listing of the global zone and two tenants, ids 3 and 7, gives exactly the two tenants keyed by uuid, each with its id and its instrumenter |

## Left out

- `uncaughtHandler` (lib/common.js:23-41): it sends a restify error response and writes a log line. It is pure I/O.
- The spawn of `/usr/sbin/zoneadm list -p` (`forkExecWait`): its outcome, an error or its stdout, is a parameter.
- The `vasync.forEachPipeline` plumbing is a sequential loop. Its callback error is always empty, because each line calls `next()` without an error.
- `lib/instrumenter/vm.js` is not part of this model. Its constructor is modelled only as far as `test/vm.test.js` shows it: which arguments make it throw, and what it stores. The uuid format check behind "vm_uuid must be a uuid" is not modelled; only a missing uuid is. Metric collection from the kstat reader, zfs and the clock is not modelled either.
- VmCatalog.NewVm: it rejects only a missing uuid or a missing instance. Checks the constructor may make on the values of its arguments are not modelled, because lib/instrumenter/vm.js is not part of this model. These include an empty or malformed uuid, an instance id that is 0, negative or not an integer, and a missing reader.
- The kstat reader, `libuuid`, zfs and the clock are external. The reader is an opaque type parameter.
- `test/app.test.js` exercises the HTTP application and is not part of this model.
- Common.CalculateLoadAvg: JavaScript numbers are modelled as exact reals. Double rounding is not modelled (integers above 2^53, NaN and infinite inputs, -0). The test `Number.isInteger` is `x.Floor == x` on a finite value.
- Common.InskMemLimit: the same exact-real caveat applies. The code's sentinel 2^64 stands for the platform's UINT64_MAX, which doubles cannot tell apart from 2^64.
- JsText.ParseIntMinus: it states only that a minus sign never gives a positive value. The exact round trip of a negative decimal is not proved.
- JsText.ParseIntDigits: digits are read into an unbounded integer. `parseInt`'s rounding of long digit strings to a double is not modelled.
- ZoneList.ListRunningZones: when the instrumenter's constructor throws, the exception escapes `listRunningZones` and the callback is never called. The model returns `Err(VmThrew(...))` for that outcome. It does not model the state the process is left in.
