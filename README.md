# WLB tracker core in Dafny

A model of the logic of a small work/life/pet event tracker written in TypeScript and React:

- the shared-calendar **event list**. It loads the signed-in user's events from a remote store, adds one event, and toggles an event's `completed` flag. It writes to the store first and changes the in-memory list only after the store accepts. It also derives a filtered view by time window (`today`, `all`, `completed`) and event type.
- the **quick-add form**. It holds a title, a type and a `YYYY-MM-DDTHH:MM` start, proposes a default start rounded up to the half hour, and hands the trimmed title to `onAdd` at most once at a time.
- the **date utilities** `isToday` and `addMinutes`.
- the **local task storage**: one JSON blob under `wlb_tasks_v1` in `localStorage`.
- the **theme picker**. It checks the stored theme against four known ids, defaults to `cool-art`, and writes each choice through to `wlb-theme`.

Files and modules:

| file | module | models |
|---|---|---|
| `wrappers.dfy` | `Wrappers` | `Option`, for `null` results and `??` |
| `js_text.dfy` | `JsText` | the JavaScript string primitives used: `trim`, `<`/`>` on strings, `String(n)`, `padStart(2, "0")` |
| `types.dfy` | `Types` | `Category` and `Task` of `src/types.ts` |
| `date.dfy` | `DateUtil` | `src/utils/date.ts`, and `Date` values in general |
| `storage.dfy` | `Storage` | `src/storage.ts` and `localStorage` |
| `task_form.dfy` | `TaskForm` | `src/components/TaskForm.tsx` |
| `shared_events.dfy` | `SharedEvents` | `src/components/SharedEvents.tsx` |
| `theme_selector.dfy` | `ThemeSelector` | `src/components/ThemeSelector.tsx` |
| `quick_add.dfy` | `QuickAdd` | the form wired to `addEvent`, for the finding below |

How inputs from outside the program are modelled:

- **Store and identity.** Every answer from the store or the identity provider is an input to the handler that receives it. The user id is an `Option<string>`; the empty string counts as nobody, because `!uid` treats it as falsy. A store reply is `Ok(value)` or `Err(message)`.
- **Dates.** A `Date` is a `DateValue`: a time value in milliseconds within ±8.64·10¹⁵, or `Invalid` (NaN).
- **Local time.** The runtime's time zone is a `Zone` parameter. It gives the local offset of each instant and the calendar date of each local day number.
- **Parsing and the clock.** Parsing text into a `Date`, `datetimeLocalToIso`, `JSON.parse`, `JSON.stringify` and the clock reading are all parameters.
- **Handlers.** Each handler runs as one sequential step. An `alert` becomes a returned message.

Where the intended behaviour and the code disagree, the model follows the code:

- **Tie order when sorting.** Events with the same start are meant to keep their insertion order. The comparator at `SharedEvents.tsx:90` never returns 0, so the code promises no tie order. `SortByStart` promises only an order by start and a permutation.
- **Failed create.** A failed create is meant to fail towards the caller. `addEvent` only alerts and returns normally. That is where the finding below comes from.

Things the proofs show about the code:

- An event whose start does not parse is never "today". Every comparison with NaN is false, so `SameLocalDay` is reflexive only on valid dates.
- `addMinutes(addMinutes(t, a), b)` equals `addMinutes(t, a + b)` only when the first step stays in range. Otherwise `toISOString` throws first.
- The default start rounds the minute, not the instant. At 10:00:45 it proposes 10:00, which is 45 seconds in the past.
- `dark-gallery` passes `readSavedTheme`, but its `THEMES` entry is commented out. A user who saved it gets no hint, and the picker has no option for that value.

## Model

| member | source | states |
|---|---|---|
| `JsText.TrimStart` | src/components/TaskForm.tsx:30 | the result is a suffix of the input; everything dropped is whitespace; the result is empty or starts with a non-blank |
| `JsText.TrimEnd` | src/components/TaskForm.tsx:30 | the result is a prefix of the input; everything dropped is whitespace; the result is empty or ends with a non-blank |
| `JsText.Trim` | src/components/TaskForm.tsx:30 | `trim()` is the slice between the leading and trailing whitespace; it is empty or starts and ends with a non-blank |
| `JsText.TrimEmptyIff` | src/components/TaskForm.tsx:30 | a title trims to `""` exactly when every character is whitespace |
| `JsText.TrimIdempotent` | src/components/TaskForm.tsx:36 | trimming the trimmed title changes nothing |
| `JsText.Less` | src/components/SharedEvents.tsx:90 | `a < b` on strings: a prefix of `b` is smaller exactly when it is a proper prefix |
| `JsText.LessIrreflexive` | src/components/SharedEvents.tsx:90 | no start time is `>` itself |
| `JsText.LessTransitive` | src/components/SharedEvents.tsx:90 | the string order the comparator uses is transitive |
| `JsText.LessTotal` | src/components/SharedEvents.tsx:90 | any two distinct start times are ordered one way or the other |
| `JsText.LessAsymmetric` | src/components/SharedEvents.tsx:90 | `a < b` rules out `b < a` |
| `JsText.NotAfterTransitive` | src/components/SharedEvents.tsx:90 | "not after" (`!(a > b)`) is transitive, which is what keeps a sorted list sorted |
| `JsText.NatToString` | src/components/TaskForm.tsx:4 | `String(n)` is a non-empty string of digits, one digit long exactly below 10 |
| `JsText.NatToStringValue` | src/components/TaskForm.tsx:4 | the digits of `String(n)` read back as `n` |
| `JsText.NatToStringLength4` | src/components/TaskForm.tsx:5 | a four-digit year prints as four characters |
| `JsText.IntToString` | src/components/TaskForm.tsx:4 | `String(n)` of a negative number starts with `-` and has at least two characters |
| `JsText.Pad2` | src/components/TaskForm.tsx:4 | `pad(n)` is `"0"` plus the digit for 0 ≤ n < 10 and the plain numeral otherwise; for 0 ≤ n < 100 it is two digits that read back as n |
| `DateUtil.IsToday` | src/utils/date.ts:1-10 | `isToday` holds exactly when the date is valid and has the same local year, month and day as now |
| `DateUtil.NowIsToday` | src/utils/date.ts:1-10 | the clock reading is always today |
| `DateUtil.AddMinutes` | src/utils/date.ts:23-26 | the result is `t + minutes·60000`, and it exists exactly when the date is valid and the sum is within the time-value range (else `toISOString` throws) |
| `DateUtil.AddZeroMinutes` | src/utils/date.ts:25 | adding 0 minutes gives the same instant |
| `DateUtil.AddMinutesIsLater` | src/utils/date.ts:25 | adding a positive number of minutes gives a strictly later instant |
| `DateUtil.AddMinutesCompose` | src/utils/date.ts:25 | adding a and then b minutes is adding a + b minutes, whenever the first step succeeds |
| `Storage.LocalStorage.constructor` | src/storage.ts:7 | the store starts with the given entries |
| `Storage.LocalStorage.SetItem` | src/storage.ts:17 | `setItem` replaces one entry and keeps all the others |
| `Storage.GetItem` | src/storage.ts:7 | `getItem` gives the stored string exactly when the key is present |
| `Storage.LoadTasks` | src/storage.ts:5-14 | a missing key, `""`, a parse failure or a non-array all give `[]`; a parsed array is returned unchanged, element by element |
| `Storage.SaveTasks` | src/storage.ts:16-18 | the serialised list is written under `wlb_tasks_v1` and every other key is unchanged |
| `Storage.SaveThenLoad` | src/storage.ts:5-18 | loading after saving gives back the saved list, given a non-empty JSON text that parses back to it |
| `TaskForm.CeilToHalfHour` | src/components/TaskForm.tsx:26 | `ceil(m/30)*30` is a multiple of 30 with m ≤ r < m + 30, so 0, 30 or 60 |
| `TaskForm.SetMinutes` | src/components/TaskForm.tsx:26 | `setMinutes(min, sec, ms)` keeps the local day and hour: the result is the start of the hour plus the given minutes, seconds and milliseconds |
| `TaskForm.DayAndHourIsHourStart` | src/components/TaskForm.tsx:26 | `setMinutes` keeps the local day and hour: that part is the start of the current hour |
| `TaskForm.MinuteWithinHour` | src/components/TaskForm.tsx:26 | the minute field counts whole minutes since the start of the hour |
| `TaskForm.DefaultStart` | src/components/TaskForm.tsx:25-26 | the default start falls on a half-hour mark (seconds and milliseconds zero), less than a minute before now and less than 30 minutes after; at :00 it is the start of the current hour, in minutes 1–30 the half hour, past :30 the start of the next hour |
| `TaskForm.DefaultStartMinute` | src/components/TaskForm.tsx:26 | the default start shows minute 0 or 30 |
| `TaskForm.ToDatetimeLocalValue` | src/components/TaskForm.tsx:3-8 | for a four-digit year the text is 16 characters: the year's numeral, then the padded month (`getMonth()+1`), day, hours and minutes at their places, with `-`, `-`, `T` and `:` between |
| `TaskForm.FormatThenParse` | src/components/TaskForm.tsx:3-8 | for a four-digit year, `toDatetimeLocalValue` writes 16 characters in the `YYYY-MM-DDTHH:MM` layout, with the month shown as `getMonth()+1`, and they read back to the same fields |
| `TaskForm.Form.constructor` | src/components/TaskForm.tsx:19-22 | initial state: empty title and start, type Work, not submitting |
| `TaskForm.Form.Mount` | src/components/TaskForm.tsx:24-28 | the mount effect sets the start to the formatted default start and changes nothing else |
| `TaskForm.Form.SetTitle` | src/components/TaskForm.tsx:47 | the title input replaces the title only |
| `TaskForm.Form.SetType` | src/components/TaskForm.tsx:51 | the type select replaces the type only |
| `TaskForm.Form.SetStartLocal` | src/components/TaskForm.tsx:60 | the start input replaces the start only |
| `TaskForm.Form.CanAdd` | src/components/TaskForm.tsx:30 | `canAdd` holds exactly when the title has a non-whitespace character, the start is non-empty and nothing is in flight |
| `TaskForm.Form.DoAdd` | src/components/TaskForm.tsx:32-41 | no-op unless `canAdd`; otherwise `onAdd` gets the trimmed, non-empty title, the type and the ISO start; the title is cleared only after a normal return; type and start are kept; `submitting` is false afterwards whether `onAdd` returns, throws or the conversion throws |
| `SharedEvents.SameLocalDay` | src/components/SharedEvents.tsx:19-25 | holds exactly when both dates are valid and fall on the same local year, month and day |
| `SharedEvents.SameLocalDayReflexive` | src/components/SharedEvents.tsx:19-25 | every valid date is on its own day |
| `SharedEvents.InvalidIsNoDay` | src/components/SharedEvents.tsx:19-25 | an Invalid Date is on no day, not even its own |
| `SharedEvents.SameLocalDaySymmetric` | src/components/SharedEvents.tsx:19-25 | the predicate is symmetric |
| `SharedEvents.SameLocalDayTransitive` | src/components/SharedEvents.tsx:19-25 | the predicate is transitive |
| `SharedEvents.IsTodayIsSameLocalDay` | src/utils/date.ts:5-9 | `isToday(d)` is `isSameLocalDay(d, now)` |
| `SharedEvents.Filter` | src/components/SharedEvents.tsx:110 | `filter` keeps exactly the rows that pass, and never more rows than it was given |
| `SharedEvents.FilterAppend` | src/components/SharedEvents.tsx:110 | filtering a concatenation filters each part in place, so kept rows keep their relative order |
| `SharedEvents.FilterKeepsAll` | src/components/SharedEvents.tsx:110 | a test every row passes keeps the list as it is |
| `SharedEvents.FilterConjunction` | src/components/SharedEvents.tsx:110-116 | filtering by a conjunction is filtering by one test and then the other |
| `SharedEvents.Keeps` | src/components/SharedEvents.tsx:110-116 | the callback's three early returns keep a row exactly when it is in the time window, shown in the view and of the selected type |
| `SharedEvents.Filtered` | src/components/SharedEvents.tsx:108-117 | the view has no more rows than `events`, and a row is shown exactly when it is in `events` and passes all three tests: (view ≠ today or same local day as now), (view ≠ completed or completed), (type `All` or type matches) |
| `SharedEvents.FilteredKeepsOrder` | src/components/SharedEvents.tsx:108-117 | the view is an order-preserving subsequence: it distributes over concatenation |
| `SharedEvents.FilteredAllIsEverything` | src/components/SharedEvents.tsx:108-117 | view `all` with type `All` shows `events` itself |
| `SharedEvents.FiltersCompose` | src/components/SharedEvents.tsx:112-114 | the time-window and type filters compose by AND in either order |
| `SharedEvents.SortByStart` | src/components/SharedEvents.tsx:90 | the in-place sort leaves the array non-decreasing by `start_time` and a permutation of what it held |
| `SharedEvents.InsertIntoSorted` | src/components/SharedEvents.tsx:90 | one insertion pass extends the sorted prefix by one row and keeps the array a permutation |
| `SharedEvents.SetCompleted` | src/components/SharedEvents.tsx:101 | same length and order; every row with the id gets the new flag; nothing else in any row changes; rows with other ids are untouched |
| `SharedEvents.SetCompletedIdempotent` | src/components/SharedEvents.tsx:101 | applying the same toggle twice is applying it once |
| `SharedEvents.SetCompletedToCurrent` | src/components/SharedEvents.tsx:101 | setting the flag to the value it already has changes nothing |
| `SharedEvents.EventList.constructor` | src/components/SharedEvents.tsx:28-32 | initial state: no events, not loading, view `today`, type `All` |
| `SharedEvents.EventList.LoadEvents` | src/components/SharedEvents.tsx:40-62 | nobody signed in gives `[]` and no error; a store error leaves `events` as it was; success takes the rows (`null` data as `[]`); `loading` is false afterwards on every path |
| `SharedEvents.EventList.AddEvent` | src/components/SharedEvents.tsx:64-93 | nobody signed in: alert, no request, list unchanged; otherwise the not-completed row for the user is sent first; an insert error is alerted and leaves the list unchanged; success gives a list one longer, a permutation of the old list plus the returned row, sorted by start |
| `SharedEvents.EventList.ToggleCompleted` | src/components/SharedEvents.tsx:95-102 | the update is sent first; an error is alerted and leaves the list unchanged; success applies `SetCompleted` |
| `SharedEvents.EventList.SetView` | src/components/SharedEvents.tsx:126-128 | a view button changes the view only |
| `SharedEvents.EventList.SetTypeFilter` | src/components/SharedEvents.tsx:135-143 | a type button changes the type filter only |
| `SharedEvents.EventList.Shown` | src/components/SharedEvents.tsx:108-117 | the view only reads the state, and its rows are among the events |
| `ThemeSelector.IdTextInjective` | src/components/ThemeSelector.tsx:3 | distinct theme ids have distinct texts |
| `ThemeSelector.ParseThemeId` | src/components/ThemeSelector.tsx:20-27 | a text is accepted, as theme t, exactly when it is t's id |
| `ThemeSelector.ReadSavedTheme` | src/components/ThemeSelector.tsx:18-29 | gives theme t exactly when `wlb-theme` holds t's id; any other value, or a missing key, gives null |
| `ThemeSelector.LegacyThemeIgnored` | src/components/ThemeSelector.tsx:28 | a stored `cyber-cool` reads as null |
| `ThemeSelector.InitialTheme` | src/components/ThemeSelector.tsx:32-37 | the initial theme is the saved theme if there is one, else `cool-art` |
| `ThemeSelector.FindHint` | src/components/ThemeSelector.tsx:62 | `find` finds nothing exactly when no option has the id; otherwise the hint of the first option with that id |
| `ThemeSelector.ThemesDistinct` | src/components/ThemeSelector.tsx:5-11 | no id appears twice in `THEMES` |
| `ThemeSelector.HintOfEachOption` | src/components/ThemeSelector.tsx:62 | the lookup gives every listed option its own hint |
| `ThemeSelector.DarkGalleryHasNoHint` | src/components/ThemeSelector.tsx:8 | `dark-gallery` passes validation but has no hint |
| `ThemeSelector.Body.constructor` | src/components/ThemeSelector.tsx:14 | `document.body` starts with no `data-theme` |
| `ThemeSelector.ApplyTheme` | src/components/ThemeSelector.tsx:13-16 | the body theme and `wlb-theme` both become the theme, and `readSavedTheme` then returns it |
| `ThemeSelector.ThemePicker.constructor` | src/components/ThemeSelector.tsx:32-33 | the state starts as `cool-art` |
| `ThemeSelector.ThemePicker.Mount` | src/components/ThemeSelector.tsx:35-40 | the initial theme becomes the state and is applied to body and storage |
| `ThemeSelector.ThemePicker.OnChange` | src/components/ThemeSelector.tsx:47-51 | state, body theme and storage all take the chosen value |
| `ThemeSelector.ThemePicker.Hint` | src/components/ThemeSelector.tsx:62 | the hint is missing exactly for `dark-gallery` |
| `QuickAdd.SubmitAsWritten` | src/components/SharedEvents.tsx:83-86 | as written: whenever `onAdd` is called the title ends up `""`, even when no event was added |
| `QuickAdd.RejectedInsertLosesTitle` | src/components/SharedEvents.tsx:83-86 | "Feed cat" submitted with a signed-in user and a rejected insert: `onAdd` is called with "Feed cat", and afterwards the title is `""` and the list is empty |
| `QuickAdd.Submit` | src/components/TaskForm.tsx:34-40 | corrected: when `onAdd` is called the title is cleared exactly when the event was inserted, and kept otherwise |

## Findings

| source | as written | input that shows it | evidently intended | confidence | as-written member | corrected member |
|---|---|---|---|---|---|---|
| src/components/SharedEvents.tsx:64-93 | `addEvent`, the form's `onAdd`, reports a missing user and a rejected insert with `alert` and returns normally (lines 66-69 and 83-86). `doAdd` (src/components/TaskForm.tsx:36-37) takes the normal return as success and clears the title. | title "Feed cat", a start set, user `user-1`, insert answered with the error "permission denied": afterwards the title is `""` and the list is unchanged (`QuickAdd.RejectedInsertLosesTitle`) | keep the title when nothing was added; `doAdd` clears it only after `onAdd` returns normally, and a failed create is meant to fail | medium, not executed | `QuickAdd.SubmitAsWritten` | `QuickAdd.Submit` |

## Left out

- Remote store calls: `auth.getUser`, select, insert and update are not modelled. Their results are inputs. The store's per-owner access control and its `order("start_time")` are not checked, so a loaded list is not claimed to be sorted.
- Identity: sign-in and sign-out, session subscriptions and `src/App.tsx` are not part of this model. They are external identity plumbing.
- Asynchrony: handlers are atomic steps, so interleavings, late replies and the `loading = true` seen while a load is in flight are not modelled. The model states only the final state.
- `getUserId` throwing inside `loadEvents` is not modelled. It would be caught and logged, with the same effect as a store error. The identity answer is an input.
- Date parsing (`new Date(text)`), `toISOString`, `toLocaleString`, `formatDateTime` and `datetimeLocalToIso` are not modelled: they are parameters or left out. They are runtime internals.
- Time zones and the calendar: the local offset and the calendar date of each local day are abstract. Because of that, the "local midnight" boundary example cannot be stated beyond the equal-day rule.
- `TaskForm.DefaultStart` works on the local wall-clock time value. It does not model how `setMinutes` converts back to UTC across a daylight-saving gap or overlap.
- `DateUtil.AddMinutes` takes an integer count of minutes and returns the instant, not its ISO text. Fractional minutes and floating-point rounding beyond 2^53 are not modelled.
- `SharedEvents.SortByStart` is insertion sort. The engine's own algorithm, and the tie order it happens to produce with a comparator that never returns 0, are not modelled. Only the promised result is stated: sorted and a permutation.
- `JsText.Less` compares code points. JavaScript compares UTF-16 code units, which differs only between characters above U+FFFF and those in U+E000–U+FFFF. Start times are ASCII.
- `JsText.IsWhitespace` is the fixed ECMAScript WhiteSpace/LineTerminator list, with the space separators of current Unicode. Later Unicode additions are not tracked.
- JSON: `JSON.parse` and `JSON.stringify` are parameters. `Storage.SaveThenLoad` assumes they round-trip. `loadTasks` does not validate elements; the model returns whatever elements the parser produced.
- `localStorage` exceptions are not modelled: a `getItem` that throws, which `loadTasks` would catch and turn into `[]`, and a `setItem` quota error in `saveTasks` or `applyTheme`. Both are browser policy.
- The theme `select` can only produce the three listed ids, while `ThemePicker.OnChange` accepts any `ThemeId`. The form's type select is modelled the same way, by its three options.
- Rendering (JSX, `alert` display, `console.error`, CSS, the "Loading…" and "No events" texts) and `src/components/TaskList.tsx` are not modelled. They are presentation; TaskList's toggle, snooze and delete are callback props without handlers here.
