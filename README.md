# Hive player tracker — a verified model of its core

`hive_tracker.py` is a desktop tool that polls the Hive Minecraft server's
statistics API for a list of players. It notices when a player has finished
a match, and shows every player as one row of a list. A row flashes green
for a win or red for a loss, turns grey 30 seconds later and forgets the
activity after 1000 seconds. The list is kept sorted with the most recent
activity at the top. Names on a fixed protected blacklist, or on the user's
own blacklist, cannot be added. A player who is already tracked stays
tracked after being blacklisted.

This project models the logic of that tool in Dafny and proves what it does:

- `json.dfy`, module `JsonValues`: untyped JSON values. It covers Python
  truthiness, and `int(v or 0)` with the ASCII part of the grammar
  Python's `int` accepts for strings. That grammar skips only space and
  `\t \n \v \f \r` around the literal, fewer characters than `str.strip`
  removes.
- `text.dfy`, module `Text`: `str.strip`, `str.lower`, `split('\n')` and
  `'\n'.join` over ASCII.
- `hive_api.dfy`, module `HiveApi`: `HiveAPI.parse_game_data`.
  - The specification functions are `ScanList`, `ShapeOf`, `Extract`,
    `ModeEntry` and `ParseSpec`.
  - The loops of the original are methods proved equal to them:
    `ProbeCounter`, `FindQualifying`, `ResolveMode` and `ParseGameData`.
- `tracker.dfy`, module `Tracking`: `PlayerTracker` as a class whose
  `Update` changes its fields. It is specified by `UpdateSpec`, the diff of
  two snapshots (`Detect`) and the signals the diff emits.
- `player_item.dfy`, module `PlayerList`: `PlayerListItem` as a class. Its
  colour and expiry timeouts are the function `Aged`.
- `ordering.dfy`, module `Ordering`: `get_sort_key` and the stable sort of
  `sort_player_list`.
- `blacklist.dfy`, module `Blacklists`: the case-insensitive blacklist
  match, the blacklist dialog's text round trip, and the decision
  `add_user` takes.
- `app.dfy`, module `App`: `HiveTrackerApp` as a class holding these
  fields:
  - the trackers, as a map plus its insertion order;
  - the rows;
  - the two blacklists.

  Its methods cover adding and removing players, the blacklist dialog, the
  two tracker signal handlers, the colour timer, the sort and one pass of
  the polling loop.

Inputs the original reads from the outside world are parameters here:

- the HTTP response (`Option<Json>`: `None` when the request failed). A
  body of JSON `null` is Python's `None` as well, so `update` reports it
  as "API Error" exactly as it reports a failed request;
- the clock (`now`, an integer count of microseconds, which is the
  resolution of a `datetime`);
- whether the polling loop was still running before each tracker.

Where the original raises an exception, the model returns `None` or a
`raised` flag.

Behaviour that follows the code as written:

- The parser assumes nothing about the response's type. When the response
  is not a JSON object, `key in api` either raises (for a boolean or a
  number) or is a membership or substring test (for a list or a string).
  When a gamemode key is then found, `api[key]` raises outside the `try`.
  `ParseSpec` models that as `None`, and `PlayerTracker.update` has
  already cleared its error text by then. A `null` response never reaches
  the parser from `update`, which stops at its `api_data is None` test.
- `check_color_timeout` clears an activity based only on
  `last_activity_time`. Its 30-second colour check uses only
  `color_change_time` and the colour.
- The counters the parser produces are whatever `int()` yields, including
  negative values. Nothing clamps them.
- Events are produced in `GAMEMODE_MAPPING` order. This is the order in
  which `parse_game_data` inserts keys into its result, so it is also the
  order in which `update` iterates `current_data.items()`.

## Model

| member | source | states |
|---|---|---|
| HiveApi.ParseGameData | hive_tracker.py:104-158 | The parse loop over `GAMEMODE_MAPPING` returns exactly `ParseSpec(api)`, with `None` when the parser raises. |
| HiveApi.ResolveMode | hive_tracker.py:110-156 | The per-gamemode `try` body yields exactly `ModeEntry(v)`: absent for an unhandled shape, zeroed when anything inside the `try` raised. |
| HiveApi.FindQualifying | hive_tracker.py:114-126 | The list loop returns `ScanList(xs)`: the first dict element with a positive played value, or "raised" at the first dict whose played value cannot be compared with 0. |
| HiveApi.ProbeCounter | hive_tracker.py:140-151 | The field-name loop returns `Probe`: the first field name present decides, through `int(value or 0)`. |
| HiveApi.ScanListSpec | hive_tracker.py:116-124 | "No element qualifies" holds exactly when every element is skipped. Otherwise some dict at index k has every earlier element skipped; the scan raised exactly when k's played value is not comparable, and a qualifying result carries k's played and victories values. |
| HiveApi.ShapeOfQualifying | hive_tracker.py:114-126 | A non-empty list whose scan qualifies with played p and victories v gives the record `{played: p, victories: v}`. |
| HiveApi.FirstPresent | hive_tracker.py:119-120 | The nested `dict.get` chain finds no field exactly when none is present; otherwise the index it returns is present and no earlier field is. |
| HiveApi.ParsedKeys | hive_tracker.py:104-158 | An object response never makes the parser raise. A key is in the result exactly when it is a `GAMEMODE_MAPPING` key present in the response whose value is a list, dict, number or boolean. |
| HiveApi.ModeEntryPresence | hive_tracker.py:114-137 | A gamemode value gets an entry exactly when it is a list, dict, integer or boolean; any other value is skipped by `continue`. |
| HiveApi.NonObjectResponse | hive_tracker.py:108-110 | A non-object response given to the parser parses to an empty map or raises; a null, boolean or number response always raises. |
| HiveApi.ProbePriority | hive_tracker.py:143-151 | When the field at index i is the first one present, the counter is `int()` of that field's value, whatever later fields hold. |
| HiveApi.FalsyFieldStops | hive_tracker.py:144-146 | A present but falsy first field gives 0 and does not fall through to later field names. |
| HiveApi.ProbeAbsent | hive_tracker.py:140-151 | With none of the field names present the counter stays 0. |
| HiveApi.PlayedFieldOrder | hive_tracker.py:143-146 | `played` takes priority over `games_played`; with neither present, `games` is used. |
| HiveApi.NumberShape | hive_tracker.py:133-134 | A bare number n yields (n, 0); `True` yields (1, 0). |
| HiveApi.ListWithoutPlays | hive_tracker.py:115-128 | A list without a dict of positive played value, including the empty list, yields (0, 0). |
| HiveApi.ListFirstPlayed | hive_tracker.py:117-126 | A list yields the counters of its first dict whose played value is positive (an integer, or `true`, which counts as 1), with victories read through the shorter chain. |
| HiveApi.ScanFindsFirst | hive_tracker.py:117-124 | The list scan stops at the first element that is not skipped. |
| HiveApi.FailureZeroes | hive_tracker.py:155-156 | Anything raised inside the `try` records the gamemode as (0, 0) rather than dropping it. |
| HiveApi.UnparsablePlayed | hive_tracker.py:143-156 | A dict whose `played` is the string "abc" records (0, 0). |
| HiveApi.UnknownShapeOmitted | hive_tracker.py:136-137 | A string gamemode value is skipped, so `{"sky": "unexpected_string"}` parses to an empty map. |
| JsonValues.IntOf | hive_tracker.py:145 | `int(v or 0)` is 0 for every falsy value. It raises exactly for a non-empty list or dict, or a non-empty string that is not a decimal integer with at most space and `\t \n \v \f \r` around it. |
| JsonValues.IntStripShape | hive_tracker.py:145 | The whitespace `int()` skips is taken off only at the two ends, and neither end of what is left is such whitespace. |
| JsonValues.IntSkipsOnlyIntSpace | hive_tracker.py:145 | `int(" 5\n") == 5`, while `"5"` followed by the separator 0x1c raises, although `str.strip` would remove that separator. |
| JsonValues.IntStripKeeps | hive_tracker.py:145 | A string that neither starts nor ends with the whitespace `int()` skips is left unchanged by that stripping. |
| JsonValues.ParseDecimalString | hive_tracker.py:145 | `int(str(n)) == n` for every integer n (the model has no digit-count limit). |
| JsonValues.IntOfDecimalString | hive_tracker.py:145 | A counter sent as the decimal string of n converts to n. |
| Text.StripShape | hive_tracker.py:263 | `strip` removes only whitespace, and only from the two ends, and leaves neither end whitespace. |
| Text.StripIdempotent | hive_tracker.py:263 | Stripping twice is the same as stripping once. |
| Text.LowerIdempotent | hive_tracker.py:709 | Lower-casing twice is the same as lower-casing once. |
| Text.StripLowerCommute | hive_tracker.py:709 | `s.lower().strip() == s.strip().lower()`. |
| Text.SplitLinesNoNewline | hive_tracker.py:348 | No piece of `split('\n')` contains a newline. |
| Text.JoinSplitLines | hive_tracker.py:347-348 | `'\n'.join(text.split('\n')) == text`. |
| Text.SplitJoinLines | hive_tracker.py:307 | Splitting the join of non-empty lists of newline-free lines gives the lines back. |
| Tracking.Fetch | hive_tracker.py:173-181 | The request's response is classified as `FetchOf(fetched)`. No response or a `null` body counts as a failed request, as at :175. Any other body goes through `ParseGameData` and gives "parser raised" or a snapshot. |
| Tracking.PlayerTracker.constructor | hive_tracker.py:164-169 | A new tracker has an empty baseline, no activity and no error. |
| Tracking.PlayerTracker.Update | hive_tracker.py:171-203 | The tracker's new fields, its signals and whether it raised are `UpdateSpec` of the old fields; the lemmas below state what that means. |
| Tracking.PlayerTracker.Apply | hive_tracker.py:175-203 | Once the fetch and the parse have produced an outcome, the new fields and signals are `StepSpec` of the old fields. |
| Tracking.PlayerTracker.EmitActivity | hive_tracker.py:184-201 | The detection loop emits `Announce(username, Detect(...))` and leaves `last_activity` at the last event, or unchanged when there is none. |
| Tracking.CompareModes | hive_tracker.py:184-201 | The loop over `GAMEMODE_MAPPING` emits one activity signal per event of `Detect`, in order, and ends with the last event as the latest activity, or the old one when there is none. |
| Tracking.DetectOnlyAdvanced | hive_tracker.py:184-201 | Every event belongs to a gamemode in both snapshots whose play count rose, and carries that gamemode's name, its Win/Loss classification and the poll's time; with `DetectPerMode` there is nothing else. |
| Tracking.DetectPerMode | hive_tracker.py:184-201 | For each gamemode, one event exactly when it is in both snapshots and its play count strictly rose. The event is a Win exactly when victories strictly rose. |
| Tracking.NewModeSilent | hive_tracker.py:185 | A gamemode missing from the baseline produces no event. |
| Tracking.ModeNamesDistinct | hive_tracker.py:76-90 | The 13 display names are pairwise distinct, so an event's name identifies its gamemode. |
| Tracking.DetectSame | hive_tracker.py:184-201 | Comparing a snapshot with itself finds no activity. |
| Tracking.DetectOrdered | hive_tracker.py:184-201 | Events come in `GAMEMODE_MAPPING` order: for any cut of the mapping, events before the cut precede events after it. |
| Tracking.UpdateOutcomes | hive_tracker.py:175-203 | A failed request or a `null` body sets "API Error", emits it, keeps the baseline and the last activity, and does not raise. A parser that raised leaves everything but the cleared error text, emits nothing and raises. A parsed response clears the error and replaces the baseline with the new snapshot. It emits only activity signals for this player, and `last_activity` ends at the last one emitted. |
| Tracking.RepeatedResponseQuiet | hive_tracker.py:171-203 | Fetching the same parsable response twice: the second update emits nothing and changes nothing. |
| PlayerList.PlayerItem.constructor | hive_tracker.py:354-363 | A new row is grey, with no activity and no error. |
| PlayerList.PlayerItem.UpdateActivity | hive_tracker.py:374-393 | The row records the match, clears the error, turns green for a win and red otherwise, and notes the colour change time. |
| PlayerList.PlayerItem.SetError | hive_tracker.py:395-399 | The row shows the error on grey and keeps its activity. |
| PlayerList.PlayerItem.CheckColorTimeout | hive_tracker.py:401-420 | The row's new fields and the returned flag are `Aged` of the old fields. |
| PlayerList.PlayerItem.Restore | hive_tracker.py:821-828 | A recreated row takes over every saved field. |
| PlayerList.Aged | hive_tracker.py:401-420 | The flag is set exactly when the row changed, and a changed row is grey. The name, error text and colour change time never change. The activity is either kept with its gamemode and result, or cleared together with them. |
| PlayerList.ConsistentPreserved | hive_tracker.py:374-420 | Every row operation keeps "a coloured row has a colour change time". |
| PlayerList.ActivityTimeline | hive_tracker.py:374-420 | After a match at t, a check leaves the row alone before t + 30 s. It turns the row grey with its activity from t + 30 s, and grey with no activity from t + 1000 s. |
| PlayerList.AgedTwice | hive_tracker.py:401-420 | A second check at the same instant finds nothing to do. |
| PlayerList.QuietWhileFresh | hive_tracker.py:413-420 | Checks within 30 seconds of a match leave the row unchanged. |
| PlayerList.RevertsToGrey | hive_tracker.py:413-419 | Once one check comes 30 seconds after the colour change, the row stays grey for the rest of the checks. |
| PlayerList.StaysGrey | hive_tracker.py:401-420 | Checks never colour a grey row. |
| PlayerList.Expires | hive_tracker.py:403-411 | Once one check comes 1000 seconds after the activity, the row shows no activity for the rest of the checks. |
| PlayerList.StaysCleared | hive_tracker.py:401-420 | Checks never bring back a cleared activity. |
| Ordering.GetSortKey | hive_tracker.py:446-453 | Priority 0 with the activity time for a row with activity, priority 1 otherwise; what this means for the order is `MostRecentFirst`. |
| Ordering.OrderKey | hive_tracker.py:810 | The sort's key `(priority, -timestamp)`, with 0 for `datetime.min`; `SortByKeyCorrect` states that the sorted rows are ordered by it. |
| Ordering.SortByKey | hive_tracker.py:807-810 | Python's stable `list.sort` by `OrderKey`; `SortByKeyCorrect` (ordered, a permutation), `SortByKeyStable` (equal keys keep their order) and `MostRecentFirst` state its properties. |
| Ordering.SortByKeyCorrect | hive_tracker.py:807-810 | The sorted rows are ordered by `(priority, -timestamp)` and are a permutation of the input rows. |
| Ordering.SortByKeyStable | hive_tracker.py:810 | Rows with equal keys keep their relative order, as Python's stable `list.sort` keeps them. |
| Ordering.SortKeepsNames | hive_tracker.py:788-830 | Sorting neither drops nor duplicates a player. |
| Ordering.MostRecentFirst | hive_tracker.py:446-453 | In the sorted list active rows precede inactive ones, and active rows run from the newest to the oldest. |
| Blacklists.Blacklisted | hive_tracker.py:707-721 | The stripped lower-case name equals some stripped lower-case entry of either list; `BlacklistIgnoresCase` and `ListedNamesBlocked` state its properties. |
| Blacklists.GetBlacklist | hive_tracker.py:346-348 | The dialog's non-blank lines, stripped; `GetBlacklistEntries` and `DialogRoundTrip` state its properties. |
| Blacklists.Decide | hive_tracker.py:729-744 | The order of `add_user`'s checks: empty, blacklisted, already tracked, else added; `DecideAdds` states when a name is added. |
| Blacklists.BlacklistIgnoresCase | hive_tracker.py:707-721 | The blacklist test gives the same answer for a name, its lower-cased form and its stripped form. |
| Blacklists.ListedNamesBlocked | hive_tracker.py:707-721 | Every protected name and every entry of the user's list is blacklisted. |
| Blacklists.DecideAdds | hive_tracker.py:729-744 | A name is added exactly when it is non-empty, not blacklisted and not already a tracker key. A blacklisted name is refused even when it is already tracked. |
| Blacklists.GetBlacklistEntries | hive_tracker.py:346-348 | Every name the dialog returns is non-empty, stripped and free of newlines. |
| Blacklists.DialogRoundTrip | hive_tracker.py:307 | Showing a list of proper entries joined by newlines and reading it back gives the same list. |
| Blacklists.DialogStable | hive_tracker.py:701-705 | Reopening the dialog and accepting it unedited leaves the blacklist as it was. |
| App.TrackerApp.constructor | hive_tracker.py:464-471 | The window starts with the 13 protected names, an empty blacklist, no trackers and no rows. |
| App.TrackerApp.IsBlacklisted | hive_tracker.py:707-721 | The two loops answer exactly `Blacklisted`: the stripped lower-case name equals some stripped lower-case entry of either list. |
| App.AnyMatches | hive_tracker.py:712-719 | One blacklist loop finds a match exactly when some entry normalises to the key. |
| App.TrackerApp.AddUser | hive_tracker.py:723-755 | The outcome is `Decide` on the stripped text. Only `Added` changes anything: it adds a fresh tracker under that name, appends the name to the insertion order, and appends one fresh grey row. The bookkeeping invariant is kept. |
| App.TrackerApp.RemoveUser | hive_tracker.py:757-767 | An untracked name changes nothing. A tracked one loses its tracker and its key (the others keep their order) and its first row. The bookkeeping invariant is kept. |
| App.TrackerApp.ApplyBlacklistDialog | hive_tracker.py:701-705 | Accepting the dialog replaces the user's blacklist with the dialog's lines and touches nothing else. |
| App.FindRow | hive_tracker.py:763-767 | The row search returns the index of the first row with that name, or nothing. |
| App.RecordActivity | hive_tracker.py:846-856 | Only the first row of that player records the match, and a sort is scheduled exactly when such a row exists. |
| App.RecordError | hive_tracker.py:868-872 | Only the first row of that player shows the error. |
| App.ActivityAt | hive_tracker.py:852 | Updating one row object leaves every other row's fields unchanged. |
| App.ErrorAt | hive_tracker.py:871 | Setting the error on one row object leaves every other row's fields unchanged. |
| App.TrackerApp.OnActivityDetected | hive_tracker.py:838-864 | The rows become `ActivityRows` of the old rows, and the sort is scheduled exactly when the player has a row. |
| App.TrackerApp.OnErrorOccurred | hive_tracker.py:866-872 | The rows become `ErrorRows` of the old rows. |
| App.TrackerApp.Deliver | hive_tracker.py:481-482 | An activity signal runs `on_activity_detected` and an error signal runs `on_error_occurred`; only an activity can schedule a sort. |
| App.ActivityTargetsOwnRow | hive_tracker.py:848-854 | An activity never changes another player's row, and it updates the player's row when that row is the only one with the name. |
| App.HandlersKeepNames | hive_tracker.py:838-872 | Neither handler nor the timer changes which player any row shows. |
| App.AgeItems | hive_tracker.py:666-678 | Every row is checked once. The rows become `AgeRows` of the old rows, and `needs_update` is set exactly when some row's check reported a change. |
| App.AgeStep | hive_tracker.py:669-674 | One more iteration of the timer loop: after the first i rows are checked, checking row i gives `AgedPrefix` of i + 1 and reports that row's own change flag. |
| App.AgedAt | hive_tracker.py:669-674 | Checking one row object gives `Aged` of its fields and leaves every other row's fields unchanged. |
| App.TrackerApp.CheckColorTimeouts | hive_tracker.py:666-678 | As `AgeItems`, on the window's rows. |
| App.AgeRowsFlag | hive_tracker.py:668-674 | `needs_update` is set exactly when the timer changed some row. |
| App.Collect | hive_tracker.py:788-805 | The first sort loop collects every row's fields, top to bottom. |
| App.Recreate | hive_tracker.py:819-831 | One fresh, separate row per saved state, in order, holding that state. |
| App.SortRows | hive_tracker.py:788-830 | Collecting the rows and recreating them in key order gives fresh rows whose fields are `SortByKey` of the old rows' fields, one row per tracked name. |
| App.TrackerApp.SortPlayerList | hive_tracker.py:783-836 | The rows become new objects holding `SortByKey` of the old rows' fields. The trackers, the order and the blacklist are unchanged, and each tracked name still has exactly one row. |
| App.SortedRowsMatch | hive_tracker.py:816-830 | The recreated rows again show each tracked name exactly once. |
| App.AddKeepsBookkeeping | hive_tracker.py:744-752 | Appending a new name with its tracker and a new row keeps the bookkeeping invariant: each key listed once, each tracker under its own name, exactly one separate row per tracked name. |
| App.RemoveKeepsBookkeeping | hive_tracker.py:759-767 | Dropping a tracked name with its tracker and its row keeps the bookkeeping invariant. |
| App.Visited | hive_tracker.py:906-908 | The pass reaches exactly the trackers before the first one at which the loop had stopped running. |
| App.TrackerApp.PollingPass | hive_tracker.py:896-916 | The reached trackers are updated in insertion order, each by `StepSpec` with its own outcome and clock. The trackers after them are untouched, and the signals are the reached trackers' signals in that order. |
| App.PassOver | hive_tracker.py:906-913 | As `PollingPass`, over the trackers listed by the insertion order. |
| App.UpdateAll | hive_tracker.py:906-913 | The loop over separate tracker objects yields `PassStates` and `PassSignals`. |
| App.PassStep | hive_tracker.py:906-913 | One more iteration of the pass: after the first i trackers are updated, updating tracker i gives `PassStates` and `PassSignals` of i + 1. |
| App.PassStatesShape | hive_tracker.py:906-913 | After n updates the first n trackers have taken their outcomes and the others are as they were. |
| App.ApplyAt | hive_tracker.py:911 | Updating one tracker object leaves every other tracker's fields unchanged. |
| App.PassSignalsFromVisited | hive_tracker.py:906-913 | Every signal of a pass names one of the trackers the pass reached. |

## Left out

- HTTP, threads and sleeping are left out. These cover `fetch_player_data`, `requests`, the daemon threads of `add_user`, `manual_update` and `polling_loop`, and the per-tracker sleep of `60 / rpm` seconds. The response and the clock are parameters. Concurrent updates from several threads are not modelled: every operation runs alone.
- The Qt widgets and drawing are left out: `update_display`, `format_time_ago`, the delegate, the styles, `viewport().update()` and the display timer. Only the fields those read are modelled.
- The notification beep is left out.
- The 100 ms `QTimer.singleShot` that defers the sort after an activity is left out. `OnActivityDetected` returns `sortScheduled` instead, and `SortPlayerList` is a separate operation.
- The `tracker.update` runs that `add_user` (hive_tracker.py:755) and `manual_update` (hive_tracker.py:772) start on their own threads are left out. `PlayerTracker.update` itself is modelled. The polling thread that the window starts is modelled by `PollingPass`.
- `print` output, including the message printed for an exception caught by `polling_loop`, is left out. The exception itself is modelled as the `raised` result.
- The dialog's cancel path is left out. `AddUser` and `ApplyBlacklistDialog` model the accepted dialog; a cancelled one does nothing.
- `item.tracker`, the back-reference the sort copies between rows, is left out because nothing in the core reads it.
- Strings are ASCII only: `Lower`, `Strip` and `IsSpace` treat just ASCII letters and whitespace, and Unicode case folding and whitespace are not modelled.
- JsonValues.IntOf: a string counter must use ASCII digits and ASCII whitespace. Python's `int()` also accepts other Unicode decimal digits (`int('３') == 3`) and skips non-ASCII whitespace, both of which the model rejects.
- JsonValues.ParseDecimalString: the model has no digit-count limit. CPython 3.11 and later refuse `int()` and `str()` conversions of more than 4300 digits, so there the round trip holds only below that size.
- JSON floats are not modelled. A float gamemode value or field value, and `int()` truncating it, are outside the `Json` datatype.
- Timestamps are integer microseconds rather than `datetime`s. `datetime.min` becomes "no activity", whose sort key is `(1, 0)`.
- Tracking.PlayerTracker.Update: the model reads one clock value per update, whereas the original calls `datetime.now()` once per detected event. So events of one poll share one timestamp in the model.
- App.TrackerApp.CheckColorTimeouts: the model reads one clock value per timer tick, whereas the original calls `datetime.now()` in each row's check.
- App.TrackerApp.PollingPass takes each tracker's outcome (`Fetched`) rather than the raw response. The parse that produces the outcome from a response is proved once, in `Tracking.PlayerTracker.Update` through `Tracking.Fetch`.
- App.TrackerApp.PollingPass covers one pass of the `for` loop. The enclosing `while` and the one-second idle wait with no trackers are repetitions of it.
