# Passwall traffic panel: a verified model of its core logic

The panel has two parts. A small Flask collector (`app.py`) receives traffic
readings from routers, files them per device, and serves them back. A browser
dashboard (`public/app.js`) shows the latest reading, a roster of devices, a
24-hour chart and the collector's configuration. This project models the
deterministic logic of both in Dafny and proves what that logic promises.

Collector side:
- **Device keys.** `_safe_device_key` and `_device_key` sanitise a device name
  or ip into a file-name-safe key (`device_key.dfy`).
- **Configuration.** `set_config` merges only whitelisted keys, and
  `get_config` withholds the password (`collector_config.dfy`).
- **Pull loop and ingest.** The same file models one round of the pull
  loop's interval clamp and the `received_at` stamp that `ingest` applies.
- **Device roster.** `devices` projects each latest file and sorts the
  entries newest first (`roster.dfy`).
- **History window.** `history` filters by `since`, keeps file order and
  caps the response at 2000 points (`history.dfy`).
- **Python semantics.** `py_values.dfy` models the Python the code relies
  on: JSON values, truthiness, `x.get(k) or default`, `str()`, `int()` and
  `str.strip()`.

Dashboard side:
- **Byte units.** `humanBytes` picks the unit a byte count is shown in
  (`human_bytes.dfy`).
- **Device cards and selector.** The cards of `renderDeviceGrid` (online
  state, age, title, highlight), `getCurrentDevice` and the device selector
  filled by `init` are in `device_grid.dfy`.
- **Chart.** `drawChart`'s scale, gridlines and polyline are in `chart.dfy`,
  with exact reals.
- **Refresh timer.** The `startTimer`/`stopTimer` state machine is a class in
  `refresh_timer.dfy`.

Imperative source code keeps its form. Loops are `method`s with invariants,
each proved against a specification function. The single `timer` variable
is a class field. Pure expressions are functions. I/O appears only as
parameters:
- the stored configuration and the request body;
- the parsed per-device files and history lines (a `JsonDoc`: unparseable,
  a non-object, or an object);
- the clock (`now`);
- the canvas size.

The error paths are modelled as in the code:
- A body that is not a JSON object gets "invalid json" (`Err(InvalidJson)`).
- A request that raises inside `devices` becomes an internal error
  (`Err(InternalError)`).
- An `ingest` whose history line cannot be built (a byte count `int()`
  rejects) fails with an internal error after the latest reading has been
  written.
- The history handler's outer `except` answers `[]`.

## Model

| member | source | states |
|---|---|---|
| HumanBytes.Format | public/app.js:3-11 | The unit is `Units[UnitIndex(v)]`, where `v` is `Number(bytes) \|\| 0`. The scaled value times 1024^i is `v`. Decimals are 0 for bytes and 2 otherwise. The scaled value is at least 1 above bytes and below 1024 below TB. |
| HumanBytes.Coerce | public/app.js:5 | `Number(bytes) \|\| 0`, with `None` standing for a value that is not a number. |
| HumanBytes.UnitIndex | public/app.js:6-10 | The reference unit index, in closed form: the largest `i <= 4` with `1024^i <= v`, else 0. It is at most 4. |
| HumanBytes.UnitIndexBrackets | public/app.js:7-10 | The unit index brackets the value: `1024^i <= v` when `i > 0`, and `v < 1024^(i+1)` when `i < 4`. Anything below 1024, negative values included, is shown in bytes. |
| DeviceGrid.IsOnline | public/app.js:79-81 | Online is defined as `now - (received_at \|\| 0) < 120`. `RenderCard` and `OnlineAgreesWithAge` state what the card shows for it. |
| DeviceGrid.AgeSeconds | public/app.js:74 | The "last N s ago" figure is a nat. It is at least `now - received_at` and equal to it unless it is clamped to 0. |
| DeviceGrid.Title | public/app.js:70 | The title, defined as `it.device \|\| it.key`. `TitleFallback` states both cases. |
| DeviceGrid.RenderCard | public/app.js:63-81 | The card's title is `Title(it)`. The card's status is "online" exactly when `now - (received_at \|\| 0) < 120`, and "offline" otherwise. The dot class agrees with the status. The card is highlighted exactly when its key is the selected key. The ip prefix appears only for a non-empty ip. The age is the clamped age. |
| DeviceGrid.OnlineAgreesWithAge | public/app.js:74-81 | A card is online exactly when the age it shows is under 120 s. |
| DeviceGrid.TitleFallback | public/app.js:70 | The title is the device name when that is non-empty and the key otherwise, so a keyed device always has a title. |
| DeviceGrid.OnlineScenario | public/app.js:79-81 | A device heard now is online, and one heard 200 s ago is offline and highlighted when selected. 119 s is online and 120 s is offline: the threshold is strict. A missing `received_at` counts as 0. |
| DeviceGrid.RenderGrid | public/app.js:58-117 | There is one card per roster entry, in roster order, each the `RenderCard` of its entry. An absent roster renders none. |
| DeviceGrid.HighlightIsUnique | public/app.js:66 | With unique keys at most one card is highlighted, and exactly one when the selected key is in the roster. |
| DeviceGrid.CurrentDevice | public/app.js:235-237 | The result is the selector's value, or "default" when that is empty. It is never empty. |
| DeviceGrid.OptionText | public/app.js:305 | The option text is the title, followed by ` (ip)` exactly when the ip is non-empty. |
| DeviceGrid.OptionsFor | public/app.js:293-307 | An empty or absent roster gives exactly the one option "default"/"default". Otherwise there is one option per entry, valued by its key and labelled by `OptionText`. |
| DeviceGrid.BuildOptions | public/app.js:294-307 | The loop that fills the selector produces exactly `OptionsFor` of the roster. |
| DeviceGrid.AssignValue | public/app.js:112 | Assigning a value to the selector selects it when an option carries it, and leaves the value empty otherwise. |
| DeviceGrid.ClickedDevice | public/app.js:110-114 | A click on a card selects the card's key when the selector offers it, and "default" when it does not. |
| DeviceGrid.LateDeviceClickSelectsDefault | public/app.js:110-114 | As written, a device missing from the selector filled at load selects "default" when its card is clicked. |
| DeviceGrid.RefreshRoster | public/app.js:293-308 | A refresh rebuilds the options together with the cards. It keeps a selection the new roster still offers, and the selector always holds one of its options. The cards highlight the current device, and clicking any keyed card selects that card's key. |
| Chart.MaxVal | public/app.js:145-150 | The ceiling is at least 1 and at least every point's `total_bytes`. It is 1 or one of the values. |
| Chart.Span | public/app.js:154 | `maxT - minT \|\| 1` is never zero. |
| Chart.XForEnds | public/app.js:153-155 | `xFor(minT)` is the left margin. A distinct `maxT` maps to `w - pad`. |
| Chart.XFor | public/app.js:153-155 | `xFor(t)`, defined as `pad + (t - minT) / (maxT - minT \|\| 1) * (w - 2 pad)`. Its properties are the `XFor...` lemmas. |
| Chart.XForAffine | public/app.js:153-155 | Outside the degenerate case `xFor` is affine: the time a fraction `a` of the way from minT to maxT lands the same fraction `a` of the way across the plot. |
| Chart.XForMonotone | public/app.js:153-155 | For a series whose first time is before its last, later times never land further left when the canvas is at least `2 * pad` wide. |
| Chart.XForWithinMargins | public/app.js:153-155 | For a series whose first time is before its last, on a canvas at least `2 * pad` wide, times in `[minT, maxT]` land between the two margins. |
| Chart.XForDegenerate | public/app.js:153-155 | When `maxT == minT`, every point of a series in time order maps to the left margin, with no division by zero. |
| Chart.YFor | public/app.js:156-158 | `yFor(v)`, defined as `h - pad - (v / maxVal) * (h - 2 pad)`, on a ceiling of at least 1. Its properties are the `YFor...` lemmas. |
| Chart.YForEnds | public/app.js:156-158 | `yFor(0)` is `h - pad` and `yFor(maxVal)` is `pad`. |
| Chart.YForDecreasing | public/app.js:156-158 | Larger values are drawn strictly higher when `h > 2 * pad`. |
| Chart.YForWithinPlot | public/app.js:156-158 | Values in `[0, maxVal]` land between the margins. |
| Chart.GridlinesMatchScale | public/app.js:162-168 | Gridline 0 is at `pad` and gridline 4 at `h - pad`. Gridline `i` is where the value `maxVal * (4 - i) / 4` is drawn. |
| Chart.GridlineY | public/app.js:163 | The y of gridline `i`, defined as `pad + i * ((h - 2 pad) / 4)`. `GridlinesMatchScale` relates it to `yFor`. |
| Chart.Gridlines | public/app.js:162-168 | The method draws five gridlines, the i-th at `pad + i * ((h - 2 pad) / 4)`. |
| Chart.DrawChart | public/app.js:129-183 | No points or an empty series draw the placeholder. Otherwise the scale spans the first to the last time with the `MaxVal` ceiling, with five gridlines and one polyline vertex per point, in order, at `(xFor(t), yFor(total_bytes))`. |
| RefreshTimer.Scheduler.constructor | public/app.js:230 | The timer starts null, with no interval live. |
| RefreshTimer.Scheduler.Start | public/app.js:239-249 | Start is a no-op while running. Otherwise it registers one fresh 4000 ms interval. Afterwards exactly one interval is live. |
| RefreshTimer.Scheduler.Stop | public/app.js:251-256 | Stop clears the running interval and nulls the variable, and is a no-op while stopped. Afterwards no interval is live. |
| RefreshTimer.Scheduler.Toggle | public/app.js:264-267 | After the checkbox handler, refresh runs exactly when the box is checked, with at most one interval live. A toggle to the current state keeps the handle. Checking a stopped scheduler stores the fresh handle `nextId` and advances `nextId`. Every other toggle leaves `nextId` unchanged. |
| RefreshTimer.Init | public/app.js:322 | `init` leaves exactly one interval running. |
| RefreshTimer.IdempotenceScenario | public/app.js:239-256 | A scenario checked by assertions: a second start keeps the handle and one live interval, a stop after a stop is a no-op, and a start after a stop registers a new handle. |
| PyValues.Truthy | app.py:125 | Python truthiness, defined per value: `None`, `False`, `0`, `0.0`, `""` and empty containers are falsy. |
| PyValues.GetOr | app.py:44 | `d.get(k) or default` is the stored value when it is truthy and the default otherwise. |
| PyValues.Strip | app.py:39 | `strip()` leaves no whitespace at either end. It is empty exactly when the input is blank. |
| PyValues.StripIsSlice | app.py:39 | The strip is a slice of the input, and everything it cuts is whitespace. |
| PyValues.StripIdempotent | app.py:44-45 | Stripping twice is stripping once. |
| PyValues.ParseInt | app.py:231 | `int(s)` on a string, defined as optional surrounding whitespace, an optional sign and a non-empty run of at most 4300 decimal digits (CPython's default limit, leading zeros included); None where Python raises. `int()` skips only ` \t\n\r\v\f` at the ends, so a string it accepts holds none of the separators `\x1c`-`\x1f` that `strip()` would also drop. `ParseDecimalRoundTrip` is its partner. |
| PyValues.SeparatorRefused | app.py:231 | `int("\x1c7")` raises, although `"\x1c7".strip()` is `"7"`. |
| PyValues.SurroundingSpaceSkipped | app.py:231 | `int(" \t7\r\n")` is 7. |
| PyValues.PyStr | app.py:44-45 | `str(v)`: a string is returned unchanged, an int gives its decimal text, and `None`/`True`/`False` their names. |
| PyValues.ParseDecimalRoundTrip | app.py:231 | `int(str(i)) == i` for every integer of at most 4300 digits, beyond which `str()` raises too. |
| PyValues.TooManyDigitsRefused | app.py:231 | A run of more than 4300 digits makes `int()` raise. |
| PyValues.IntOf | app.py:126 | `int()` of an int is that int. It raises (None) on None and on containers. |
| PyValues.IntOfFloatTruncates | app.py:247 | `int()` of a float truncates toward zero. |
| DeviceKey.Collapse | app.py:39 | The substitution yields only allowed characters, is no longer than its input, and is empty only for empty input. |
| DeviceKey.CollapseAllowed | app.py:39 | The substitution leaves a string of allowed characters unchanged. |
| DeviceKey.CollapseRun | app.py:39 | Allowed characters are copied. A maximal non-empty run of disallowed characters becomes exactly one `_`. |
| DeviceKey.DropDisallowedCutsRun | app.py:39 | The `+` of the pattern consumes a leading run of disallowed characters, and only those. |
| DeviceKey.Truncate | app.py:40 | `key[:64]` is the prefix of length `min(|s|, 64)`. |
| DeviceKey.SafeDeviceKey | app.py:38-40 | The key is non-empty, at most 64 characters and all in `[a-zA-Z0-9._-]`. A blank value gives "default". |
| DeviceKey.SafeKeyDefaultIffBlank | app.py:39-40 | The "default" fallback is taken exactly when the value is blank. |
| DeviceKey.SafeKeyFixedPoint | app.py:38-40 | A string is left unchanged exactly when it is a safe key, in both directions. |
| DeviceKey.SafeKeyIdempotent | app.py:38-40 | `_safe_device_key` is idempotent. |
| DeviceKey.DeviceKeyOf | app.py:43-50 | The key comes from the device text when that is not blank after strip, else from the ip text when that is not blank, else it is "default". It is always a safe key. |
| CollectorConfig.Merged | app.py:182-185 | The merged configuration has exactly the stored keys plus the whitelisted keys present in the payload. Those take the payload's values, every other stored key keeps its value, and extra payload keys are ignored. |
| CollectorConfig.SetConfig | app.py:174-187 | A non-object body is refused with "invalid json". Otherwise the loop over the five keys writes exactly `Merged(stored, payload)`. |
| CollectorConfig.Redacted | app.py:170 | The password key is absent. Every other stored key and value is present unchanged. |
| CollectorConfig.GetConfig | app.py:165-171 | `pop("router_pass", None)` on the stored configuration returns exactly `Redacted(stored)`. |
| CollectorConfig.SavedConfigReadBack | app.py:165-187 | After a save, a load returns every whitelisted value the save carried except the password, which is never read back. Other stored keys come back as they were. |
| CollectorConfig.PullRound | app.py:124-131 | A round pulls exactly when `enabled` is truthy. It sleeps `max(3, int(interval))`, with 10 when the interval is absent. It raises (None) where `int()` does. |
| CollectorConfig.StampReceived | app.py:158 | `setdefault` adds `received_at = now` only when it is absent, and changes nothing else. |
| CollectorConfig.StampNeverOverwrites | app.py:158 | A stamped reading is never re-stamped, whatever the later clock says. |
| CollectorConfig.ByteCount | app.py:78-80 | `int(payload.get(k) or 0)` for one byte count, defined through `IntOf` and `GetOr`. |
| CollectorConfig.HistoryRecordOf | app.py:75-81 | The history line exists exactly when all three byte counts pass `int()`. It is stamped `now` and carries the three counts. |
| CollectorConfig.IntegerCountsAppend | app.py:78-80 | Absent, falsy or integer byte counts always give a history line. Each of the three counts in it is 0 when absent or falsy, and the stored integer otherwise. |
| CollectorConfig.TextCountFails | app.py:78-80 | The body `{"device": "a", "total_bytes": "x"}` gives no history line. |
| CollectorConfig.Ingest | app.py:149-162 | A non-object body is refused with "invalid json" and nothing is written. Otherwise the stamped reading is written as the latest under `_device_key` of the stamped reading, which is a safe key. The response is ok exactly when the history line could be built, and an internal error otherwise, with the latest reading already written. |
| Roster.Project | app.py:209-219 | The entry keeps the file stem as its key. `device` defaults to the key, `ip` to "", and `received_at` and the byte counts to 0, each replacing a falsy stored value. |
| Roster.Entries | app.py:202-219 | The loop's entries are no more than the files. |
| Roster.EntriesSpec | app.py:203-219 | The entries fail exactly when some file parses to a non-object. Otherwise they are the projections of the files that parse to objects, unparseable files skipped. |
| Roster.Rank | app.py:220 | The number Python compares `received_at` by: booleans as 0/1, ints and floats as themselves, anything else not comparable with numbers. |
| Roster.Insert | app.py:220 | Inserting into a newest-first list keeps it newest first and adds exactly that entry. |
| Roster.SortNewestFirst | app.py:220 | The sort is a permutation of its input with `received_at` non-increasing. |
| Roster.Devices | app.py:198-221 | The response fails exactly when a file is a non-object, or when two or more entries do not all have numeric `received_at`. Otherwise it is a permutation of the entries ordered newest first. |
| Roster.NonObjectFails | app.py:204-205 | A non-object file anywhere fails the whole request. |
| History.SinceTs | app.py:229-233 | A missing or empty `since` gives `now - 86400`, as does one `int()` rejects. Otherwise `since_ts` is `int(since)`. |
| History.Stamp | app.py:247 | A record's timestamp, defined as `int(rec.get("t") or 0)`; None where `int()` raises. |
| History.Collected | app.py:240-250 | What the loop collects, defined line by line: None once a line ends the request, otherwise at most one point per line. `CollectedSpec` ties it to `Filter`. |
| History.Filter | app.py:247-248 | The filter keeps no more records than there are lines. |
| History.FilterAppend | app.py:242-248 | The filter distributes over concatenation, so it keeps file order. |
| History.FilterAtOrAfter | app.py:247 | Every point kept has `int(t or 0) >= since_ts`. |
| History.CollectedSpec | app.py:240-250 | The loop collects exactly the filter, unless some line is a non-object or has a `t` that `int()` rejects, which ends the request. |
| History.Tail | app.py:252 | `points[-2000:]` is the suffix of length `min(n, 2000)`. |
| History.TailIsSuffix | app.py:252 | The response is a suffix of the filtered points, and all of them when there are at most 2000. |
| History.History | app.py:224-252 | The response has at most 2000 points. A missing file and a line that ends the request both give `[]`. Otherwise the response is `Tail(Filter(lines, since_ts))`. |

## Left out

- Network I/O is not modelled: every `fetch`, the promise chains and their silent `.catch` branches. On failure nothing changes, which is trivial.
- Flask routing, `_check_basic_auth` and HTTP response construction are not modelled.
- File reads, writes and directory globbing are not modelled: `_read_latest`, `_write_latest`, `_read_config` and `_write_config`, and the write of the history line `_append_history` builds. Parsed files and lines are inputs, and what is written is an output.
- CollectorConfig.Ingest: the reading's stamp and the history line's `t` both use `now`. The code reads the clock twice, so the two can differ by a second.
- `_pull_once`'s `requests.get` and its error messages are not modelled. From `_pull_once` only the `received_at` stamp (app.py:113) is modelled.
- The loop thread and `time.sleep` are not modelled. `PullRound` is one round of `_pull_loop`.
- A `config.json` that parses to something other than an object is not modelled. The stored configuration is taken to be an object.
- The DOM, the canvas drawing calls and the `setInterval`/`clearInterval` machinery are not modelled. Only the handle bookkeeping, the card fields, the option list and the drawing coordinates are.
- A missing canvas or grid element (the early `return`) and the initial checkbox state in the page's markup are not modelled.
- The tick body and the handlers fan out to `fetchStatus`, `fetchHistory` and `fetchDevices`. That fan-out is not modelled. `updateUI`, `loadConfig`, `saveConfig`, `pullNow` and their status messages are left out too: they are DOM assignments and network calls.
- The stale-response race between overlapping requests is not modelled. It is concurrency, and the code has no guard against it.
- HumanBytes.Format: the string that `toFixed` produces and IEEE-754 rounding are not modelled. Numbers are exact reals, and `NaN` (from `Number(x)` on a non-number) is the `None` input of `Coerce`.
- Chart: coordinates are exact reals rather than doubles. `t` and `total_bytes` are taken as numbers after `Number(... || 0)`.
- DeviceGrid.DeviceItem: `received_at` is an optional integer, and `device` and `ip` are strings. The server passes any truthy stored value through, so the client can receive other values. A fractional `received_at` would give a fractional age. A non-numeric one is coerced by JavaScript. A numeric `device` or `ip` is coerced to text. None of these are modelled. The meta line's number-to-text formatting is not modelled either.
- PyValues.Strip: only ASCII whitespace and `\x1c`-`\x1f` count as whitespace. Other Unicode whitespace that Python's `str.strip` also removes is not modelled.
- PyValues.ParseInt: underscores between digits, non-ASCII digits and non-ASCII whitespace around the number, all of which Python's `int()` accepts, are not modelled.
- PyValues.Value: floats and containers carry the text `str()` gives them instead of a computed rendering. JSON `NaN`/`Infinity` are not distinguished.
- PyValues.PyStr: `str()` of an int of more than 4300 digits raises in Python, but the model gives its digits. Such an int cannot come out of `json.loads`, which refuses those literals; the model's `Int` carries no such bound.
- Roster.Devices: Python sorts entries whose `received_at` values are all strings, or all lists (compared element by element). The model treats any non-numeric `received_at` among two or more entries as the comparison error.
- Roster.SortNewestFirst: the model proves the order is non-increasing and a permutation. It does not prove that equal keys keep their file order, as Python's stable sort does.
- The order in which `glob` lists the files is an input, not modelled.

`set_config` stores an empty `router_pass` like any other whitelisted value
(`CollectorConfig.Merged`). So saving from the dashboard with the password
field empty clears the stored password.

## Verifying

All files are verified together, with a resource limit instead of a time
limit (some proofs take longer than the default 30 seconds):

    dafny verify --resource-limit 2000000 --verification-time-limit 0 --warn-contradictory-assumptions *.dfy

## Findings

| source | as written | input that shows it | evidently intended | confidence | as-written member | corrected member |
|---|---|---|---|---|---|---|
| public/app.js:110-114, 293-308 | `init` fills the device selector once, from the roster fetched at load. The 4-second tick redraws the grid from a fresh roster, so a card's click handler sets `select.value` to a key the selector may not offer. The selector's value then becomes empty, and `getCurrentDevice()` returns "default". | The roster at load is `[A]`. Device `B` first reports later and its card appears. Clicking `B`'s card selects "default", not `B`. | Clicking a device's card selects that device, as for cards present at load. The selector is kept in step with the roster the grid shows. | medium, not executed | DeviceGrid.LateDeviceClickSelectsDefault | DeviceGrid.RefreshRoster |
