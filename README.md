# ShadeAuto motion tracker, in Dafny

ShadeAuto is a Home Assistant integration for a motorised-shade hub that
speaks JSON over local HTTP. This project models the part of it that keeps
state and makes decisions, and proves properties of that model.

- **Motion tracker** (`custom_components/shadeauto/coordinator.py`). The
  coordinator keeps a `ShadeMotionState` per shade (`Motion.MotionState`):
  the last hub position, the pending target, whether the shade is in motion,
  and whether its one retry is spent. It also keeps a command counter, the
  latest command per shade and the cached status by uid.
  - `Coordinator.Coordinator` is a class over those maps. Its methods update
    them in place: status ingestion, the cache prune, `register_command`,
    the 120-second failsafe, one pass of the long-poll watcher and the
    verify-and-retry step.
  - A ghost map counts the retries sent for each command id. The class
    invariant `Valid` states that each id gets at most one retry.
  - Each method is proved against a pure function in `Motion`, `LongPoll`
    or `Coordinator` that states the new state. One watcher pass is the
    function `Coordinator.WatchPass`: the pre-hold checks, then `HoldPass`,
    which clamps the watermark and folds the reply's events with
    `AfterEvents`, one `EventStep` per event. Lemmas about those functions
    prove the promised properties.
- **Long-poll text handling** (`LongPoll`).
  - `re.split(r"}\s*{", …)` on the stripped reply is modelled directly on
    strings. Each piece is then re-bracketed into a `{…}` fragment.
  - The watermark rule: `Status` wins over `Timestamp`, readings above
    10 000 000 000 are taken as milliseconds, and the value is assigned,
    not compared. Before each hold the watermark is clamped up to the
    current second.
- **Hub API** (`Api`, `custom_components/shadeauto/api.py`).
  - The recursive search `_find_dicts_with_key` over a JSON tree
    (`Json.Json`), proved sound, complete and pre-order.
  - The body that `control` posts.
  - The `thing_name` rule of `registration`.
- **Battery sensor** (`Sensor`, `custom_components/shadeauto/sensor.py`).
  `native_value` turns the raw `BatteryVoltage` value into a percentage,
  using Python's round-half-even `round`.
- **Python conversions** (`PyText`): `str.strip`, `int()`, `float()` and
  `str()` as the code applies them to decoded JSON values. `Json.Get` is
  `dict.get` (an absent key gives `None`, that is JSON null) and `Json.Or`
  is `or`.

Clocks, hub replies, `json.loads` and configuration options are inputs.
`json.loads` is a parameter `parse: string -> Option<Object>`, where `None`
means the fragment does not decode.

Two points where the code is looser than one might expect are modelled
as written:
- No flag records that movement was observed. A moving shade settles as
  soon as a reading is within 2 of its target (coordinator.py:116-125,
  156-166), even a reading taken before the shade started to move.
- The comment at coordinator.py:319 says the watermark should not go
  backwards, and the clamp after it only raises the watermark towards the
  current second (coordinator.py:320-322). An event's reading, though, is
  assigned unconditionally (coordinator.py:356).
  `LongPoll.WatermarkCanMoveBack` shows the watermark moving back.

## Model

| member | source | states |
|---|---|---|
| Json.Get | custom_components/shadeauto/coordinator.py:99 | `dict.get`: JSON null when the key is absent; otherwise the value stored under the key |
| Json.Or | custom_components/shadeauto/api.py:53 | Python `a or b`: the result is one of the two operands, and it is truthy iff either operand is |
| PyText.Strip | custom_components/shadeauto/coordinator.py:337-338 | `str.strip`: no whitespace at either end; empty exactly when the text is all whitespace; a text with no whitespace at its ends is unchanged |
| PyText.StripRemovesEnds | custom_components/shadeauto/coordinator.py:337-338 | whitespace around a text with no whitespace at its ends is removed and the text comes back, so `str.strip` is fully determined |
| PyText.StripHolds | custom_components/shadeauto/coordinator.py:337-338 | `str.strip` removes whitespace only: every other character of a text is still in its strip |
| PyText.ToLowerAscii | custom_components/shadeauto/sensor.py:46 | the case-insensitive match of `inf` and `nan` in `float()`: the same length, each character lowered |
| PyText.ParseDigits | custom_components/shadeauto/coordinator.py:110 | `int()` of a run of ASCII digits, with or without a leading minus, is that run's value, negated after the minus |
| PyText.ParseIntText | custom_components/shadeauto/coordinator.py:110 | text that is empty or all whitespace never parses as an integer |
| PyText.ParseIntRefuses | custom_components/shadeauto/coordinator.py:110 | `int()` fails on any text holding a character other than whitespace, an ASCII digit, `_` or a sign |
| PyText.IntTextRefused | custom_components/shadeauto/coordinator.py:110 | `int("12a")` fails |
| PyText.IntTextRoundTrip | custom_components/shadeauto/api.py:72 | `int(str(n)) == n` for every integer |
| PyText.DecTextFloatRoundTrip | custom_components/shadeauto/sensor.py:46 | `float(str(n))` is `n` for every natural number |
| PyText.ParseFloatText | custom_components/shadeauto/sensor.py:46 | `float()` of a blank text fails |
| PyText.ParseFloatRefuses | custom_components/shadeauto/sensor.py:46 | `float()` fails on any text holding a character other than whitespace, an ASCII digit, `_`, a sign, a point, an exponent mark or a letter of `inf`, `infinity` and `nan` in either case |
| PyText.FloatTextRefused | custom_components/shadeauto/sensor.py:46 | `float("abc")` fails |
| PyText.PyInt | custom_components/shadeauto/coordinator.py:110 | `int(v)`: None, lists and dicts fail; booleans, integers and floats always convert; a blank string fails; `PyIntValues` gives the values and `ParseIntRefuses` the malformed texts |
| PyText.PyFloatOf | custom_components/shadeauto/sensor.py:46 | `float(v)`: None, lists and dicts fail; booleans, integers and floats give a finite value; a blank string fails; `PyIntValues` gives the values and `ParseFloatRefuses` the malformed texts |
| PyText.PyIntValues | custom_components/shadeauto/coordinator.py:110 | the value of each conversion: `int()` of an int is itself, of a float its truncation toward zero, of a bool 0 or 1, of the text `str(n)` the number `n`; `float()` of an int, a float or a bool is its exact value, and of the text `str(n)` for a natural `n` it is `n` |
| PyText.Trunc | custom_components/shadeauto/coordinator.py:355-356 | `int()` of a float truncates toward zero |
| PyText.PyStr | custom_components/shadeauto/coordinator.py:99 | `str(v)` is empty exactly when `v` is the empty string (floats, lists and dicts render by fixed tags: see Left out) |
| Api.FindDictsWithKey | custom_components/shadeauto/api.py:16-25 | every dict yielded holds the key; a scalar yields nothing |
| Api.FindIsMatchingNodes | custom_components/shadeauto/api.py:16-25 | the search yields exactly the dicts holding the key among all nodes of the tree, in pre-order (a dict before its values, items and values in order) |
| Api.FindComplete | custom_components/shadeauto/api.py:18-25 | every dict anywhere in the tree that holds the key is yielded, nested ones included; the count equals the number of such dicts |
| Api.FindPreOrder | custom_components/shadeauto/api.py:18-22 | a dict holding the key is yielded first, before every match found among its values |
| Api.FindInItemsAppend | custom_components/shadeauto/api.py:23-25 | list items are searched in order: the matches of `a + b` are those of `a` followed by those of `b` |
| Api.ControlPayload | custom_components/shadeauto/api.py:69-78 | `TaskID` is 1 and `Timestamp` is the current second; `PeripheralUID` is sent as an integer exactly when the uid is an int or all digits: an int as itself, an all-digit text ("007" included) as the integer `int()` reads from it; any other text is sent as the text; `BottomRailPosition` is present iff a bottom position is given, and then equals it |
| Api.ControlPayloadKeys | custom_components/shadeauto/api.py:71-77 | the body holds no key besides `PeripheralUID`, `TaskID`, `Timestamp` and `BottomRailPosition`: three entries without a bottom position and four with one, so with `ControlPayload`'s ensures each key appears once |
| Api.PayloadUid | custom_components/shadeauto/api.py:72 | `int(uid) if str(uid).isdigit() else uid`: an int uid is sent as itself, an all-digit text as the integer `int()` reads from it, any other text as the text; `ControlPayload` states this for the full body |
| Api.ControlUidRoundTrip | custom_components/shadeauto/api.py:72 | a uid that is `str()` of the hub's integer id goes back to the hub as that integer |
| Api.NextThingName | custom_components/shadeauto/api.py:52-53 | a truthy `ThingName` wins, then a truthy `thingName`, else the previous name; a non-dict reply changes nothing |
| Api.NextThingNameIdempotent | custom_components/shadeauto/api.py:52-53 | applying the same reply twice gives the same name as applying it once |
| LongPoll.MatchAt | custom_components/shadeauto/coordinator.py:339 | a match found at `i` spans a full `}\s*{` separator, and every full separator starting at `i` is the match found, so the greedy `\s*` never needs to back off |
| LongPoll.NoSeparatorIff | custom_components/shadeauto/coordinator.py:339 | no match is found at any position of a text iff no slice of it is a full `}\s*{` separator |
| LongPoll.SplitFacts | custom_components/shadeauto/coordinator.py:339 | `re.split` loses nothing: pieces and separators interleaved give back the text; every separator matches `}\s*{`; no piece holds a match |
| LongPoll.SplitFromFacts | custom_components/shadeauto/coordinator.py:339 | the same three facts for the split resumed at any position up to which nothing matched |
| LongPoll.SplitFrom | custom_components/shadeauto/coordinator.py:339 | the split resumed at a position gives one more piece than separators |
| LongPoll.Split | custom_components/shadeauto/coordinator.py:339 | `re.split` with a capture-free pattern gives one more piece than separators |
| LongPoll.SplitAdjacent | custom_components/shadeauto/coordinator.py:339 | `a}{b` splits into exactly `a` and `b` when neither holds a `}\s*{` match of its own |
| LongPoll.Rebracket | custom_components/shadeauto/coordinator.py:342-345 | every fragment starts with `{` and ends with `}`; an already braced piece is unchanged |
| LongPoll.Fragments | custom_components/shadeauto/coordinator.py:340-345 | every fragment is braced, and there are no more fragments than pieces |
| LongPoll.Chunks | custom_components/shadeauto/coordinator.py:337-345 | every fragment of a reply is braced; a blank reply gives none |
| LongPoll.ChunksOfAdjacent | custom_components/shadeauto/coordinator.py:337-345 | a reply `a}{b` whose halves hold no match, where `a` opens with `{` but does not end with `}` and `b` ends with `}` but does not open with `{`, gives exactly the fragments `a}` and `{b` |
| LongPoll.TwoEventsTwoChunks | custom_components/shadeauto/coordinator.py:337-345 | a concrete two-event reply gives its two events as two fragments |
| LongPoll.NestedEventLosesBrace | custom_components/shadeauto/coordinator.py:342-345 | as written, the reply `{"a":{"b":1}}{"c":2}` gives the first fragment `{"a":{"b":1}` with its closing brace missing |
| LongPoll.RebracketAt | custom_components/shadeauto/coordinator.py:342-345 | corrected re-bracketing by position: every fragment is braced; a middle piece gets both braces; a first piece that opens with `{` gets only a closing one; a last piece that ends with `}` gets only an opening one |
| LongPoll.FragmentsFrom | custom_components/shadeauto/coordinator.py:340-345 | every corrected fragment is braced, and there are no more fragments than pieces |
| LongPoll.ChunksIntended | custom_components/shadeauto/coordinator.py:337-345 | every fragment of the corrected split is braced; a blank reply gives none |
| LongPoll.ChunksIntendedRoundTrip | custom_components/shadeauto/coordinator.py:337-345 | two events back to back whose bodies hold no match come back as exactly those two events, whatever their last character |
| LongPoll.NestedEventKeptIntended | custom_components/shadeauto/coordinator.py:342-345 | the corrected re-bracketing gives both events of `{"a":{"b":1}}{"c":2}` intact |
| LongPoll.NextWatermark | custom_components/shadeauto/coordinator.py:352-356 | the reading is `Status` when truthy, else `Timestamp`; an event whose reading is not a number leaves the watermark alone; otherwise the watermark is that reading taken as seconds |
| LongPoll.EventReading | custom_components/shadeauto/coordinator.py:352 | the reading is `Status` when truthy, otherwise `Timestamp` |
| LongPoll.Reading | custom_components/shadeauto/coordinator.py:353-356 | a reading that is not an int or float leaves the watermark where it was |
| LongPoll.ReadingIsTruncated | custom_components/shadeauto/coordinator.py:353-356 | a numeric reading (a bool counts as an int) is `int(v / 1000)` above 10 000 000 000 and `int(v)` otherwise, both truncating toward zero |
| LongPoll.MillisecondsAgree | custom_components/shadeauto/coordinator.py:354-355 | a millisecond stamp above the cutoff reads as the same second as the plain second stamp |
| LongPoll.Events | custom_components/shadeauto/coordinator.py:340-349 | the decoded fragments, in order: at most one event per fragment |
| LongPoll.EventsAllOrNone | custom_components/shadeauto/coordinator.py:340-349 | one event per fragment when every fragment decodes; no event when none does |
| LongPoll.EventsAppend | custom_components/shadeauto/coordinator.py:340-349 | fragments are decoded one at a time: the events of `a + b` are those of `a` followed by those of `b` |
| LongPoll.WatermarkNextChunk | custom_components/shadeauto/coordinator.py:339-356 | fragments are handled in order: one that does not decode leaves the watermark alone, and a decoded one applies the event rule to the watermark so far |
| LongPoll.LastReadingWins | custom_components/shadeauto/coordinator.py:356 | the watermark is assigned, not compared: the last event with a number decides it, whatever the start |
| LongPoll.WatermarkAfter | custom_components/shadeauto/coordinator.py:351-356 | events with no numeric reading leave the watermark where it was |
| LongPoll.WatermarkCanMoveBack | custom_components/shadeauto/coordinator.py:352-356 | an event stamped one second earlier moves the watermark back |
| LongPoll.ClampWatermark | custom_components/shadeauto/coordinator.py:319-322 | after the clamp the watermark is no more than a second behind now and never below where it was; it is either unchanged or now; a watermark already within a second of now is kept |
| LongPoll.ClampIdempotent | custom_components/shadeauto/coordinator.py:320-322 | clamping twice at the same second is clamping once |
| Motion.Observe | custom_components/shadeauto/coordinator.py:107-125 | one hub reading: `last_hub_pos` takes it; a moving shade stops iff the reading is within 2 of its target; the target is kept while pending; coherence and the other fields are kept |
| Motion.ObserveAllFacts | custom_components/shadeauto/coordinator.py:98-125 | after a run of readings the shade is still moving iff it was moving and no reading came within 2 of its target; the last reading is the hub position; the retry flag is kept |
| Motion.Copy | custom_components/shadeauto/coordinator.py:103-105 | a key present in the item overwrites the cached value; an absent key keeps it |
| Motion.Merge | custom_components/shadeauto/coordinator.py:102-105 | the record cached for a uid after one item: each of `BottomRailPosition`, `BatteryVoltage` and `Name` is copied when present in the item and kept otherwise (`Copy` states this per key) |
| Motion.PositionOf | custom_components/shadeauto/coordinator.py:108-112 | a record's position as `int()` reads it, None when absent or unreadable; `IngestLastHubPos` proves that ingestion stores exactly this in `last_hub_pos` |
| Motion.Step | custom_components/shadeauto/coordinator.py:98-125 | an item with a falsy uid changes nothing; otherwise the uid joins both maps, its hub position is its merged record's position parsed, and every other uid keeps its status and state |
| Motion.UidOf | custom_components/shadeauto/coordinator.py:99-101 | an item is skipped (empty uid) iff its `PeripheralUID` is missing or falsy, 0 included |
| Motion.IngestKeys | custom_components/shadeauto/coordinator.py:98-107 | ingestion adds exactly the listed uids to both the status map and the motion map |
| Motion.IngestAll | custom_components/shadeauto/coordinator.py:98-125 | ingestion never removes a uid from either map |
| Motion.Ingest | custom_components/shadeauto/coordinator.py:95-127 | every tracked shade stays tracked; an empty status list gives an empty status map and leaves motion alone |
| Motion.IngestUnlisted | custom_components/shadeauto/coordinator.py:98-107 | a uid no item names keeps its motion state and its status entry, or stays absent |
| Motion.IngestLastWins | custom_components/shadeauto/coordinator.py:102-105 | a listed uid's status record holds, for each of the three keys, the value from the last item for that uid that had the key |
| Motion.IngestPerShade | custom_components/shadeauto/coordinator.py:98-125 | shade by shade, ingestion is its own readings applied in order to its previous state, or to a fresh state |
| Motion.IngestLastHubPos | custom_components/shadeauto/coordinator.py:107-113 | every listed uid ends with `last_hub_pos` equal to its merged position parsed with `int()`, or None |
| Motion.ObservedLast | custom_components/shadeauto/coordinator.py:108-113 | the last reading of a listed uid is its last merged position, parsed |
| Motion.IngestSettles | custom_components/shadeauto/coordinator.py:116-125 | a tracked shade is still moving after ingestion iff it was moving and none of its readings came within 2 of its target |
| Motion.IngestKeeps | custom_components/shadeauto/coordinator.py:95-127 | ingestion removes no shade, keeps every state coherent and never touches a retry flag |
| Motion.PruneOne | custom_components/shadeauto/coordinator.py:155-166 | with no cached position the state is unchanged; on a moving shade the prune is exactly a hub observation |
| Motion.CachedPosition | custom_components/shadeauto/coordinator.py:147-153 | the cached status of a uid read as an int, None when the uid is not cached or its position is absent or unreadable; `PruneAll` and `PruneLeavesOnlyFar` state the prune in its terms |
| Motion.PruneAll | custom_components/shadeauto/coordinator.py:142-168 | the shades still pending are exactly those pending before that the cache does not settle; non-pending shades are unchanged; keys, coherence and retry flags are kept |
| Motion.PruneLeavesOnlyFar | custom_components/shadeauto/coordinator.py:147-168 | a shade left pending was pending with the same target, and its cached position is missing or more than 2 away |
| Motion.ClearAll | custom_components/shadeauto/coordinator.py:298-301 | after the failsafe nothing is pending; keys, hub positions, retry flags and idle shades are unchanged |
| Motion.FailsafeDue | custom_components/shadeauto/coordinator.py:291-297 | the failsafe is due when a control was sent and more than 120 s have passed since; `BeforeHold` and `WatchPassStops` prove it fires exactly then while shades are pending |
| Motion.PendingSet | custom_components/shadeauto/coordinator.py:129-135 | the pending uids are tracked uids; with coherent states a uid is pending iff it is in motion |
| Motion.EffectivePosition | custom_components/shadeauto/coordinator.py:170-191 | the pending target while moving; else `last_hub_pos`; else the cached position parsed; else None |
| Motion.UiMotionFor | custom_components/shadeauto/coordinator.py:229-246 | the direction is the sign of the travel; there is an end time iff there is travel, and it lies a quarter second per percent ahead |
| Motion.BasePosition | custom_components/shadeauto/coordinator.py:219-227 | the travel base: the effective position, else `last_hub_pos`, else 0; read after the target is set, it is the target itself, which is why `RegisterAsWrittenShowsNoTravel` finds no travel |
| Motion.Commanded | custom_components/shadeauto/coordinator.py:212-216 | a command leaves the shade moving towards the target, stamped with the time, its retry unspent, and its hub position kept |
| Motion.RegisterAsWritten | custom_components/shadeauto/coordinator.py:199-246 | as written: the shade is pending on the target with its retry unspent and the control time stamped, its hub position kept, and the state coherent |
| Motion.RegisterAsWrittenShowsNoTravel | custom_components/shadeauto/coordinator.py:213-246 | with the base read after the new target is recorded, the UI direction is always 0 and there is no end time |
| Motion.RegisterFromClosedToOpen | custom_components/shadeauto/coordinator.py:219-246 | opening a closed shade: the code as written shows no motion; read before the update, the UI shows opening for 25 s |
| Motion.RegisterIntended | custom_components/shadeauto/coordinator.py:208-246 | the new state is pending on the target with its retry unspent, and the effective position is then the target |
| Motion.RegisterAddsPending | custom_components/shadeauto/coordinator.py:208-216 | a command adds its shade to the pending uids and changes no other shade's membership |
| Motion.RegisterIntendedShowsTravel | custom_components/shadeauto/coordinator.py:219-246 | read before the update, the UI direction points from the shown position to the target, for a quarter second per percent |
| Motion.VerifyDecision | custom_components/shadeauto/coordinator.py:394-422 | a retry is decided only for the latest command, with its retry unspent, when neither the state nor the refreshed cache shows the shade within 2 of the target |
| Motion.VerifyRetriesIff | custom_components/shadeauto/coordinator.py:394-422 | the retry conditions hold in both directions |
| Sensor.RoundHalfEven | custom_components/shadeauto/sensor.py:51 | `round`: the nearest integer, ties to the even one |
| Sensor.RoundMonotone | custom_components/shadeauto/sensor.py:51 | rounding is monotone |
| Sensor.VoltsToPercent | custom_components/shadeauto/sensor.py:53-56 | the volts mapping stays in 0..100, reads 0 at or below 3.30 V and 100 at or above 4.20 V |
| Sensor.VoltsMonotone | custom_components/shadeauto/sensor.py:54-56 | the volts mapping is monotone |
| Sensor.NativeValue | custom_components/shadeauto/sensor.py:39-57 | a missing or null raw value gives None; there is a reading iff the raw value converts to a finite float in [0, 100]; the reading is that float rounded half to even, so it lies in 0..100 |
| Sensor.VoltsBranchUnreachable | custom_components/shadeauto/sensor.py:50-57 | every value in [2.5, 5.5] is read as a percentage, so the volts branch is never reached |
| Sensor.HealthyCellReadsNearlyEmpty | custom_components/shadeauto/sensor.py:50-56 | a 3.9 V cell reads 4 %, where the volts mapping gives 67 % |
| Sensor.NativeValueVoltsFirst | custom_components/shadeauto/sensor.py:49-57 | the corrected reading keeps the None cases; a value in [2.5, 5.5] reads through the volts mapping, and any other value in [0, 100] is rounded half to even |
| Sensor.VoltsFirstReadsVolts | custom_components/shadeauto/sensor.py:52-56 | with the volts range checked first, [2.5, 5.5] goes through the volts mapping and other values in [0, 100] are rounded |
| Coordinator.BeforeHold | custom_components/shadeauto/coordinator.py:288-309 | the watcher stops iff nothing is pending; the failsafe fires iff shades are pending and the last control is over 120 s old, and then clears all motion; otherwise the cache prune runs when peripherals are known; on every stop nothing is left pending |
| Coordinator.Refreshed | custom_components/shadeauto/coordinator.py:84-91 | a status refresh keeps every shade, coherence and retry flags |
| Coordinator.PeripheralUids | custom_components/shadeauto/coordinator.py:73-81 | every listed peripheral's `str(PeripheralUID)` is known; the set is empty iff the list is |
| Coordinator.PeripheralUidsListed | custom_components/shadeauto/coordinator.py:73-81 | every known uid is `str(PeripheralUID)` of some listed peripheral |
| Coordinator.NamesPending | custom_components/shadeauto/coordinator.py:359-362 | an event can name a pending shade only when its `PeripheralList` is a list and some shade is pending |
| Coordinator.EventStep | custom_components/shadeauto/coordinator.py:351-371 | one decoded event: the watermark rule of `NextWatermark`, then, when the event lists a pending shade, a status refresh or, if the read fails, the end of the watcher; after a crash nothing changes (`CrashedStays`) |
| Coordinator.AfterEvents | custom_components/shadeauto/coordinator.py:358-371 | the events of one reply taken in order; `AfterEventsCrash`, `AfterEventsWatermark` and `AfterEventsKeeps` state when it crashes, where the watermark ends and that no shade is dropped |
| Coordinator.HoldPass | custom_components/shadeauto/coordinator.py:319-371 | one hold: the clamped watermark, then the events of the reply if one came, split with the corrected `LongPoll.ChunksIntended` (see Findings); `HoldOutcome` states its result |
| Coordinator.WatchPass | custom_components/shadeauto/coordinator.py:288-378 | one pass of the watcher loop: the checks before the hold, then the hold through `HoldPass` and its corrected split (see Findings); `WatchPassStops` and `WatchPassHolds` state its exits and its polled result |
| Coordinator.AfterEventsCrash | custom_components/shadeauto/coordinator.py:358-378 | the event fold ends the watcher iff status reads fail and some event lists a shade pending when the pass began; with failing reads the tables stay as they were |
| Coordinator.CrashWithoutRefresh | custom_components/shadeauto/coordinator.py:358-378 | with every status read failing, the tables never change and the fold crashes iff some event lists a shade pending when the pass began |
| Coordinator.NoCrashWithRefresh | custom_components/shadeauto/coordinator.py:363-370 | with a working status read, no event ends the watcher |
| Coordinator.AfterEventsWatermark | custom_components/shadeauto/coordinator.py:351-356 | while the watcher runs, the fold's watermark is the one the events alone give |
| Coordinator.AfterEventsKeeps | custom_components/shadeauto/coordinator.py:358-371 | event handling drops no shade, keeps every state coherent and never touches a retry flag |
| Coordinator.PassOutcome | custom_components/shadeauto/coordinator.py:351-378 | the fold ends the watcher only when a status read fails; otherwise its watermark is the events' own |
| Coordinator.CrashedStays | custom_components/shadeauto/coordinator.py:377-378 | once the watcher has ended, later events change nothing |
| Coordinator.HoldOutcome | custom_components/shadeauto/coordinator.py:319-378 | a hold crashes only when a reply came and a status read failed; a reply otherwise moves the clamped watermark by its decoded events; no reply leaves the tables alone and the watermark clamped |
| Coordinator.WatchPassStops | custom_components/shadeauto/coordinator.py:288-309 | a pass drains iff nothing is pending; the failsafe fires iff shades are pending and the last control is over 120 s old; every stop leaves the watermark and the status alone and nothing pending |
| Coordinator.WatchPassHolds | custom_components/shadeauto/coordinator.py:311-378 | a pass crashes only when a reply came and the status read failed; a polled pass leaves the watermark at the clamp moved by the reply's events; coherence is kept |
| Coordinator.TrackedRegister | custom_components/shadeauto/coordinator.py:202-216 | a new command keeps the invariant: its id is fresh and its retry unspent |
| Coordinator.Tracked | custom_components/shadeauto/coordinator.py:199-216 | the retry invariant: command ids run from 1 to the counter, each uid's latest command has its own id, a command is retried at most once, and a retried latest command leaves its shade's `retry_attempted` set; `TrackedRegister`, `TrackedRetry` and every state-changing method keep it |
| Coordinator.TrackedRetry | custom_components/shadeauto/coordinator.py:405-433 | a retry goes out only for a command whose retry was unspent, and the invariant is kept |
| Coordinator.Coordinator.constructor | custom_components/shadeauto/coordinator.py:46-64 | empty maps, command counter 0, no control yet, watermark at the current second, no watcher |
| Coordinator.Coordinator.LoadPeripherals | custom_components/shadeauto/coordinator.py:70-81 | the known peripherals are the uids of the dicts holding `PeripheralUID` in the reply |
| Coordinator.Coordinator.BuildStatusByUid | custom_components/shadeauto/coordinator.py:95-127 | the loop builds the status map and updates the motion map as the ingestion fold does |
| Coordinator.IngestItem | custom_components/shadeauto/coordinator.py:98-125 | one item of the status list updates the two maps as `Step` says |
| Coordinator.Coordinator.UpdateData | custom_components/shadeauto/coordinator.py:84-91 | a refresh replaces the cached status and updates motion from the reply; a failed read changes nothing |
| Coordinator.Coordinator.PruneWithCache | custom_components/shadeauto/coordinator.py:137-168 | returns true iff nothing is left pending; the motion map becomes the pruned map, unless no peripherals are known or nothing is pending |
| Coordinator.Coordinator.FailsafeClear | custom_components/shadeauto/coordinator.py:298-301 | the loop leaves the motion map cleared as the failsafe function does, with nothing pending |
| Coordinator.Coordinator.Issue | custom_components/shadeauto/coordinator.py:202-216 | the counter goes up by one and the new id becomes the uid's latest command, with no retry spent |
| Coordinator.Coordinator.RegisterCommand | custom_components/shadeauto/coordinator.py:199-279 | returns the new id, one above the previous; records it as the uid's latest command; sets the shade's state to the corrected registration (pending on the target, retry unspent, UI travel read before the update); marks the last control time; starts the watcher; schedules a verify iff verify is enabled with a positive delay |
| Coordinator.Coordinator.SpendRetry | custom_components/shadeauto/coordinator.py:430-433 | spends the unspent retry of the uid's latest command and stamps the control time |
| Coordinator.Coordinator.SetDefault | custom_components/shadeauto/coordinator.py:404 | `setdefault`: the uid's state, with an idle one added when it had none |
| Coordinator.Coordinator.VerifyAndRetry | custom_components/shadeauto/coordinator.py:382-435 | the outcome is the verify decision; a superseded command changes nothing; a spent retry or arrival per state only adds the `setdefault` state; otherwise status and motion are those of the refresh, and a retry also marks that shade's retry spent and stamps the control time; a control goes out iff the decision is to retry, spending that command's only retry |
| Coordinator.Coordinator.RetryUnlessArrived | custom_components/shadeauto/coordinator.py:413-434 | after the refresh, resends the control iff the cached position is missing or more than 2 from the target and the command is still the latest; the motion map changes only by that retry mark and control time |
| Coordinator.Coordinator.CheckBeforeHold | custom_components/shadeauto/coordinator.py:288-309 | the exit decision and the motion map are those of the pre-hold checks |
| Coordinator.Coordinator.HandleEvent | custom_components/shadeauto/coordinator.py:351-371 | one event: the new status, motion, watermark and crash flag are one step of the event fold |
| Coordinator.Coordinator.HandleEvents | custom_components/shadeauto/coordinator.py:339-371 | status, motion, watermark and the crash flag are exactly those of the event fold `AfterEvents` over the decoded fragments; the pass crashes only when a triggered status read fails, and otherwise the watermark is where the events alone take it |
| Coordinator.Coordinator.HandleChunk | custom_components/shadeauto/coordinator.py:339-349 | one fragment: status, motion, watermark and crash flag move one step further along the fold, an event when the fragment decodes and nothing otherwise |
| Coordinator.Coordinator.Hold | custom_components/shadeauto/coordinator.py:319-371 | status, motion, watermark and the crash flag are those of `HoldPass`: the clamp, then the event fold over the reply split with the corrected re-bracketing; a failed call leaves the watermark clamped and the tables alone |
| Coordinator.Coordinator.WatchStep | custom_components/shadeauto/coordinator.py:281-380 | the outcome, status, motion and watermark are exactly those of the pass function `WatchPass` (pre-hold checks, then the hold); the watcher runs on iff the pass polled |

## Left out

- HTTP transport, `asyncio` tasks and sleeps, and Home Assistant's update scheduling. Hub replies, clocks and options are method inputs. Each verify is one atomic step, and the watcher is one pass at a time. Because no `await` interleaves, the repeated superseded check (coordinator.py:395 and 401) is one check, and an overlapping verify cannot set a retry flag that a newer command reset.
- `json.loads` is the `parse` parameter, so which fragments decode is not modelled. Decoded values are the `Json` datatype. A dict with a repeated key keeps its first value in `Json.Get`; decoded dicts have unique keys.
- The regex engine: the split on `}\s*{` is written directly over strings.
- Floating point: JSON floats, times and voltages are exact reals. Binary rounding, infinities and NaN in decoded JSON are not modelled. In the code, an infinite or NaN reading would make `int()` raise and end the watcher: +inf passes the cutoff and raises at coordinator.py:355, while -inf and NaN reach coordinator.py:356.
- PyText.PyStr: renders a float, list or dict by a fixed tag (`<float>`, `<list>`, `<dict>`) rather than Python's `repr`. Two such uids that differ, such as 1.5 and 2.5, therefore give the same text. The model then treats them as one shade in the peripheral set (coordinator.py:74), in the status and motion maps (coordinator.py:99) and in the pending match of an event (coordinator.py:362), where Python keeps them apart. Integer, boolean, null and string uids are rendered as Python does.
- Coordinator.Coordinator.RegisterCommand: records the UI direction and end time of the corrected registration (`Motion.RegisterIntended`), which reads the base position before the new target is recorded. As written (`Motion.RegisterAsWritten`) they are always 0 and None; see Findings.
- Coordinator.Coordinator.Hold: splits the reply with the corrected re-bracketing (`LongPoll.ChunksIntended`). As written (`LongPoll.Chunks`), an event whose last value is a nested object loses its closing brace, fails to decode and is skipped; see Findings.
- Coordinator.Coordinator.WatchStep: holds through `Hold`, so it too uses the corrected re-bracketing.
- Coordinator.HoldPass: the specification of `Hold`, so it splits the reply with the corrected `LongPoll.ChunksIntended` rather than the as-written `LongPoll.Chunks`; see Findings.
- Coordinator.WatchPass: holds through `HoldPass`, so it too uses the corrected split.
- `PyText.DecTextFloatRoundTrip`: stated for natural numbers only. Negative numbers are not stated.
- `int()` and `float()` of text, and `str.isdigit` on the uid at api.py:72 (`Api.IsDigits`), accept ASCII digits only, not other Unicode digits. In the code a uid such as "١٢" is sent as the integer 12 and a uid such as "²" makes `int()` raise; the model sends both as text.
- The refresh requested after a retry (coordinator.py:435) and after the failsafe fires (coordinator.py:303) are not modelled. Each is a separate status read, which `UpdateData` models.
- The arming sleep at the watcher's start, and the hold timeout lookup (coordinator.py:284-286, 311-317).
- Within one watcher pass, every status read that an event triggers is answered by the same `refresh` input.
- The verify options at coordinator.py:262-272 are the parameters `verifyEnabled` and `verifyDelay`. The code imports `DEFAULT_NOTIFICATION_TIMEOUT`, `DEFAULT_VERIFY_ENABLED` and `DEFAULT_VERIFY_DELAY`, which const.py does not define.
- The watcher calls `api.notification`, which api.py does not define. In the code every hold therefore fails and the loop sleeps a second. `reply = None` models that path.
- The per-peripheral name, room and module fields (coordinator.py:75-78): only the uid keys are modelled.
- `thing_name` is the value `Api.NextThingName` returns rather than a field of the API object.
- cover.py, binary_sensor.py, config_flow.py, __init__.py and const.py: entity wrappers, setup flows and constants. The cover never calls `register_command`, and binary_sensor.py imports `_raw_to_percent`, which sensor.py does not define.

## Findings

| source | as written | input that shows it | evidently intended | confidence | as-written member | corrected member |
|---|---|---|---|---|---|---|
| custom_components/shadeauto/coordinator.py:213-246 | the UI base position is read through `get_effective_position` after `in_motion` and `pending_target` are set, so it is always the new target | shade "7" idle at position 0, commanded to 100: distance 0, `ui_motion_dir` 0, no end time | read the base before recording the target: opening, for 25 s | not executed | Motion.RegisterAsWritten (Motion.RegisterAsWrittenShowsNoTravel, Motion.RegisterFromClosedToOpen) | Motion.RegisterIntended (Motion.RegisterIntendedShowsTravel), used by Coordinator.Coordinator.RegisterCommand |
| custom_components/shadeauto/sensor.py:50-56 | the percent range [0, 100] is checked before the volts range [2.5, 5.5], which lies inside it | `BatteryVoltage` 3.9 reads 4 % | a value in [2.5, 5.5] goes through the volts mapping: 3.9 V reads 67 % | not executed | Sensor.NativeValue (Sensor.VoltsBranchUnreachable, Sensor.HealthyCellReadsNearlyEmpty) | Sensor.NativeValueVoltsFirst (Sensor.VoltsFirstReadsVolts) |
| custom_components/shadeauto/coordinator.py:342-345 | a piece is re-bracketed by its own first and last character, so a first piece that already ends with `}` (the close of a nested object) gets no closing brace | the reply `{"a":{"b":1}}{"c":2}` gives the fragment `{"a":{"b":1}`, which does not decode | re-bracket by position: the first piece always gets a closing brace, the last an opening one, a middle piece both | not executed | LongPoll.Chunks (LongPoll.NestedEventLosesBrace) | LongPoll.ChunksIntended (LongPoll.ChunksIntendedRoundTrip, LongPoll.NestedEventKeptIntended), used by Coordinator.Coordinator.Hold |
