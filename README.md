# Trading signal dashboard: store, list, candle timer and signal card

A Dafny model of the logic inside the dashboard's React front end:

- **the signal store** (`context/TradingContext.tsx`). The provider holds a
  newest-first list of signals and a list of active bots. `addSignal` puts a
  signal in front unless one with the same id is already stored.
  `clearSignals` empties the list. `setActiveBots` replaces the bots.
  `useTradingStore` fails outside a provider. This is the class
  `TradingContext.TradingStore`, with the updater as the function `Added`.
- **the signal list** (`components/SignalList.tsx`). It has the CALL/PUT/all
  filter and the newest-first sort, which runs in place on an array. Under
  'all', `filtered` is the store's own array, so the sort reorders the store
  itself; `SignalListView.Refresh` writes that order back into the store. It
  also has the three counters and the CSV export. The export is a plain
  comma/newline join with no quoting.
- **the candle timer** (`components/CandleTimer.tsx`). It counts the seconds
  to the next minute boundary, computed in integer milliseconds. Each 100 ms
  tick can fire a callback at 15 seconds left, at most once per
  minute-of-hour. It also picks the colour of the timer and its bar.
- **the signal card** (`components/SignalCard.tsx`). It has a per-second
  countdown that stops at zero, the confidence and urgency colours, the
  copy-to-clipboard text and the TradingView chart link.

Files: `types.dfy` (the `Signal` record of `types.ts`), `text.dfy` (JavaScript
`join`, `split` and `String(n)` with their inverses), `trading_context.dfy`,
`signal_list.dfy`, `candle_timer.dfy`, `signal_card.dfy`.

`addSignal` keeps every signal it accepts: there is no size cap
(context/TradingContext.tsx:22).

Modelling choices:
- A price is kept as the text JavaScript renders for it, because the code
  never computes with prices.
- A timestamp is the instant its ISO string denotes, in milliseconds.
- `toLocaleString` is a function parameter.
- A wall-clock reading is its local minutes, seconds and milliseconds.
- One firing of an interval is one call of a `Tick` method. The candle tick
  takes both clock readings the source makes: one in `calculateTimeLeft`,
  one for the minute test.

## Model

| member | source | states |
|---|---|---|
| `TradingContext.Find` | context/TradingContext.tsx:21 | the lookup finds a signal exactly when some stored signal has that id, and what it finds is a stored signal with that id |
| `TradingContext.Added` | context/TradingContext.tsx:19-23 | the `addSignal` updater: the list unchanged when some stored signal has the id, otherwise the signal in front of the old list; see `AddedFresh`, `AddedDuplicate`, `AddedKeepsUnique`, `AddedIdempotent` |
| `TradingContext.AddedFresh` | context/TradingContext.tsx:22 | a signal with a new id lands at index 0, the old list follows unchanged, and the length grows by one |
| `TradingContext.AddedDuplicate` | context/TradingContext.tsx:21 | a signal whose id is already stored is discarded; the list is exactly as before |
| `TradingContext.AddedHasId` | context/TradingContext.tsx:18-24 | after adding, the id is stored; nothing is removed, so there is no cap or eviction |
| `TradingContext.AddedKeepsUnique` | context/TradingContext.tsx:21-22 | if ids were unique before adding, they are unique after |
| `TradingContext.AddedIdempotent` | context/TradingContext.tsx:21-22 | adding the same signal twice has the same effect as adding it once |
| `TradingContext.TradingStore.constructor` | context/TradingContext.tsx:15-16 | the provider starts with no signals and the bots EURUSD and GBPUSD, with unique ids |
| `TradingContext.TradingStore.AddSignal` | context/TradingContext.tsx:18-24 | the new list is the updater applied to the old one: front insertion for a new id, no change for a known id; the bots stay as they were; unique ids are kept |
| `TradingContext.TradingStore.ClearSignals` | context/TradingContext.tsx:26-28 | the list is empty, whatever it held, and the bots are untouched |
| `TradingContext.TradingStore.SetActiveBots` | context/TradingContext.tsx:16 | the bots become the given list and the signals stay as they were |
| `TradingContext.UseTradingStore` | context/TradingContext.tsx:38-44 | without a provider the hook fails with its error message; with one it yields that provider's store |
| `SignalList.FilterByAction` | components/SignalList.tsx:17-23 | every kept signal passes the filter, and 'all' yields the store's list itself |
| `SignalList.FilterByActionExact` | components/SignalList.tsx:19-23 | 'call' keeps every CALL signal with its multiplicity and nothing else; 'put' does the same for PUT |
| `SignalList.CallCount` | components/SignalList.tsx:125 | the CALL counter is at most the total, equals it exactly when every signal is a CALL, and is 0 exactly when none is |
| `SignalList.PutCount` | components/SignalList.tsx:129 | the PUT counter is at most the total, equals it exactly when every signal is a PUT, and is 0 exactly when none is |
| `SignalList.CountsAddUp` | components/SignalList.tsx:125-132 | the CALL count plus the PUT count equals the total |
| `SignalList.SortNewestFirst` | components/SignalList.tsx:26 | the sort is in place; afterwards timestamps never increase along the array, and it holds the same signals as before |
| `SignalList.UniqueIdsPermutation` | components/SignalList.tsx:17-26 | reordering the store, as the sort under 'all' does, keeps ids unique |
| `SignalList.SignalListView.constructor` | components/SignalList.tsx:12-13 | the view starts on 'all', showing the store's list as it is |
| `SignalList.SignalListView.SetFilter` | components/SignalList.tsx:81-98 | a filter button selects its filter and changes nothing else |
| `SignalList.SignalListView.Refresh` | components/SignalList.tsx:16-29 | the shown list is the filtered subset, newest first, as a permutation. Under 'all' the store's own list becomes that sorted list, because of the aliasing; under 'call' or 'put' the store is untouched |
| `SignalList.HeaderLine` | components/SignalList.tsx:33 | the header line is `Symbol,Action,Price,Confidence,Logic,Timestamp` |
| `SignalList.CsvRow` | components/SignalList.tsx:34-42 | one signal's cells joined by commas with no quoting; see `CsvRowCells` and `CommaInLogicShiftsColumns` |
| `SignalList.ExportCsv` | components/SignalList.tsx:31-42 | the header and one unquoted row per signal, in store order, joined by newlines; see `HeaderLine`, `ExportCsvLines` |
| `SignalList.ExportCsvLines` | components/SignalList.tsx:31-42 | if no cell holds a line break, the export splits into `signals.length + 1` lines: the header, then signal i's row at line i+1, in store order |
| `SignalList.CsvRowCells` | components/SignalList.tsx:34-42 | if no cell holds a comma, a row splits back into symbol, action, price, confidence, logic and locale time |
| `SignalList.CommaInLogicShiftsColumns` | components/SignalList.tsx:42 | cells are not quoted: a comma inside the logic text gives the row seven cells and shifts the timestamp one column right |
| `Text.SplitJoin` | components/SignalList.tsx:42 | splitting a join on its separator gives back the parts when no part holds the separator |
| `Text.JoinSplit` | components/SignalList.tsx:42 | joining the pieces of a split gives back the original text |
| `CandleTimer.SecondsLeft` | components/CandleTimer.tsx:16-24 | seconds left is the floor of the milliseconds to the next minute over 1000: `60 - s` when ms is 0, `59 - s` otherwise, always within 0..60 |
| `CandleTimer.Triggers` | components/CandleTimer.tsx:35-40 | a tick triggers only at 15 seconds left; never again for the reading already recorded; and, with nothing recorded, exactly at 15 seconds left |
| `CandleTimer.FifteenSecondsLeft` | components/CandleTimer.tsx:16-24 | 15 seconds are left exactly from 44.001 s to 45.000 s past the minute |
| `CandleTimer.NextSignalTime` | components/CandleTimer.tsx:40-45 | after a trigger, no later reading in the same minute-of-hour triggers again; a tick that does not trigger leaves the trigger test for every later tick as it was |
| `CandleTimer.CandleCountdown.constructor` | components/CandleTimer.tsx:11-12 | the timer starts at 60 seconds with no trigger recorded |
| `CandleTimer.CandleCountdown.Start` | components/CandleTimer.tsx:26-27 | the effect's first calculation sets seconds left from the clock |
| `CandleTimer.CandleCountdown.Tick` | components/CandleTimer.tsx:30-47 | a tick sets seconds left from the first clock reading. The callback runs exactly when one was supplied, 15 seconds are left and no trigger is recorded for the current minute-of-hour. The trigger time is recorded even without a callback |
| `CandleTimer.AtMostOncePerMinute` | components/CandleTimer.tsx:34-46 | ticks whose minute test reads one minute-of-hour trigger at most once, and never when that minute already holds a trigger |
| `CandleTimer.OncePerMinute` | components/CandleTimer.tsx:35-45 | in such a minute without an earlier trigger, one tick computing 15 seconds left is enough for exactly one trigger |
| `CandleTimer.SameMinuteLaterHourSuppressed` | components/CandleTimer.tsx:40 | only the minute-of-hour is compared: a trigger recorded at minute m suppresses one at minute m of a later hour |
| `CandleTimer.TimerTone` | components/CandleTimer.tsx:52-62 | timer and bar share thresholds: red at 5 or less, yellow from 6 to 15, green above 15 |
| `CandleTimer.AlertShown` | components/CandleTimer.tsx:85-86 | the alert indicator and panel show exactly when the timer is not green, that is at 15 seconds or less |
| `SignalCard.CountdownStep` | components/SignalCard.tsx:28-34 | a step maps `prev` to `prev - 1` when `prev > 1` and to 0 otherwise; it never goes negative |
| `SignalCard.AfterStepsSaturates` | components/SignalCard.tsx:27-35 | after n ≥ 1 steps the countdown is `max(0, t - n)` |
| `SignalCard.ZeroStaysZero` | components/SignalCard.tsx:29-31 | once at 0, the countdown stays at 0 |
| `SignalCard.Countdown.constructor` | components/SignalCard.tsx:20-25 | the countdown starts at the signal's `seconds_left` and runs only if that is positive |
| `SignalCard.Countdown.Tick` | components/SignalCard.tsx:27-35 | a running countdown takes one step and stops when the old value was 1 or less; a stopped one does not change |
| `SignalCard.RunTicks` | components/SignalCard.tsx:20-35 | a card mounted with t > 0 seconds left shows `AfterSteps(t, n)` after n interval firings and "Expired" exactly when n ≥ t; one mounted with no time left keeps its value; the interval runs exactly while time is left |
| `SignalCard.ConfidenceTone` | components/SignalCard.tsx:51-55 | confidence colour: green at 80 or more, yellow from 60 to 79, red below 60 |
| `SignalCard.UrgencyTone` | components/SignalCard.tsx:132-134 | countdown colour: red at 5 or less, yellow from 6 to 10, green above 10 |
| `SignalCard.ExpiredShown` | components/SignalCard.tsx:138 | the "Expired" label comes with red urgency |
| `SignalCard.ExpiresAfterItsSeconds` | components/SignalCard.tsx:138 | a countdown started at t > 0 shows "Expired" after n steps, n ≥ 0, exactly when n ≥ t |
| `SignalCard.CopyText` | components/SignalCard.tsx:40-44 | `copySignal`'s clipboard text: the four template lines with line breaks between them; see `CopyTextReadsBack` |
| `SignalCard.CopyTextReadsBack` | components/SignalCard.tsx:40-44 | the copied text is four lines: `<symbol> <action> @ <price>`, `Confidence: <c>%`, `Logic: <logic>`, `Time left: <t>s`. Confidence and seconds left read back from them |
| `SignalCard.ChartUrl` | components/SignalCard.tsx:164 | the chart link is `https://www.tradingview.com/chart/?symbol=FX:` followed by the symbol, which reads back from the link |

## Left out

- Rendering: JSX, Tailwind class strings and layout, including `components/ui/button.tsx`, `components/ui/badge.tsx`, `components/ui/card.tsx` and `App.tsx`. Colours are modelled as a `Tone` choice, not as class names.
- The browser Notification permission request in `App.tsx`: a browser API.
- `hooks/useWebSocket.ts`: a webhook settings panel. It is built on a connection hook that is not part of this model, and it calls `alert()`. The "Connecting to signal server" branch of the list (`components/SignalList.tsx:52-62`) is rendering that depends on it.
- Clipboard writes and the two-second "Copied!" flag: I/O and timers.
- The Blob/URL/anchor download of the CSV text: I/O. The text itself is modelled.
- Locale and number formatting: `toLocaleString` is a parameter, and `toLocaleTimeString` and `toFixed(5)` are not modelled. A price is kept as its `String(n)` text.
- Fractional `confidence` and `seconds_left`: both are integers in the model.
- Floating-point progress-bar widths.
- `calculateTimeLeft` is modelled in integer milliseconds. Its floating-point value `60 - (s + ms/1000)` is never within 0.001 of an integer unless ms is 0, so rounding cannot change the floor.
- Timestamps that do not parse: `new Date(...).getTime()` would give NaN and the comparator would misbehave. Every timestamp is a valid instant.
- `SortNewestFirst`: its contract does not state stability (the JavaScript sort keeps tied signals in order). The model's insertion sort is stable, but the contract states only order and permutation.
- `setInterval`/`clearInterval` scheduling and React effect re-runs: one interval firing is one `Tick` call. For the card, an interval exists exactly while `running` holds.
- React re-rendering: the in-place reorder of the store under 'all' bypasses `setSignals`. The model records the new order in the store but not that React is not told about it.
- The `Trade` type in `types.ts`: no modelled code uses it.
- `CandleTimer.CandleCountdown.Tick` and `CandleTimer.AtMostOncePerMinute`: a tick reads the current `lastSignalTime`. In the source the interval callback reads the value captured when the effect last ran (components/CandleTimer.tsx:30-50, deps `[onSignalTime, lastSignalTime]`). Suppression within a minute therefore relies on React re-running the effect, and clearing the old interval, between a trigger and the next firing. The model assumes that re-run has happened. Two firings of the old interval before it would both see the stale value and both call `onSignalTime`; the model does not capture that.
