# DailySprout: the goal and streak state machine, in Dafny

DailySprout is a single-user habit tracker. The user writes short daily
micro-goals and ticks them off. The app keeps three running counters: the
current streak, the longest streak and the total number of wins. It also
keeps a flag that says whether today's completion has already counted.
This project models the app's logic and proves its rules:

- `Models.dfy` (module `Models`) models `Models.swift`:
  - the `StreakData` record with `canIncrementToday` and `updateStreak`;
  - the `DailySproutStore` class with `addGoal`, `toggleGoal(at:)`,
    `removeGoal(at:)`, `checkNewDay` and its initialiser;
  - whole sessions of these operations.
- `ContentView.dfy` (module `ContentView`) models the selection rules of
  `ContentView.swift`:
  - the celebration message chosen for a streak;
  - the share card's motivational line;
  - the whitespace trim and the guard of the "Add Goal" button;
  - the toggle handler that celebrates only when the streak rose.
- `Wrappers.dfy` holds the `Option` type.

Dates are whole calendar days (`Day`, an `int`). The current day is always
a parameter named `today`, so `Date()` and `Calendar.current` drop out. A
day difference is the difference of two day numbers. `StreakData` is a Swift
struct, so it is a datatype:

- `StreakAfterCompletion` is the record that `updateStreak` leaves behind;
- the method `UpdateStreak` performs the same update field by field.

`DailySproutStore` is a class that is updated in place. `State()` returns
its whole state as a `StoreState` value. Each method's postcondition says
that its new state is the matching transition function applied to the old
state: `StoreAdd`, `StoreToggle`, `StoreRemove` or `StoreCheckNewDay`. The
lemmas are proved about those functions. A session is a sequence of
`Action`s run by `Run`, and the lemmas about sessions cover any number of
operations. An `Open(day)` action stands for a cold launch of the app: a
fresh `DailySproutStore`, whose `init()` is the only caller of
`checkNewDay`. The store is built once per process, so returning from the
background runs no `checkNewDay` and is not an `Open`.

The once-per-day rule rests on the date gate, not on the flag. Un-completing
the last completed goal lowers the flag. Completing a goal again the same
day still adds no win, because the last completion day is already today
(`SameDayToggleKeepsStreak`, `OneDaySession`).

The DailySproutStore class runs `checkNewDay` as the app does. The session
lemmas take a `RolloverRule`: the app's rule (`AsWritten`) or the corrected
rule (`RecordEveryOpen`, see Findings). The ratchet and invariant lemmas are
proved for both rules.

## Model

| member | source | states |
|---|---|---|
| `Models.CanIncrementToday` | DailySprout/DailySprout/Models.swift:47-52 | true exactly when there is no last completion day or it is not today |
| `Models.StreakAfterCompletion` | DailySprout/DailySprout/Models.swift:23-45 | the record after `updateStreak`: wins rise by one, the last completion day becomes today, the longest streak is at least the new current and the old longest, and the current streak is restarted at 1, extended by one, or kept (the case split of :26-37 is the helper `NextCurrentStreak`) |
| `Models.UpdateStreak` | DailySprout/DailySprout/Models.swift:23-45 | the field-by-field update yields exactly the record `StreakAfterCompletion` describes |
| `Models.StreakAfterCompletionCases` | DailySprout/DailySprout/Models.swift:26-44 | with no previous completion the streak becomes 1; if the last completion was exactly one day earlier it grows by one; more than one day earlier it restarts at 1; the same day or a later one leaves it unchanged; the longest streak becomes the larger of the old longest and the new current; wins rise by exactly one; the last completion day becomes today |
| `Models.StreakAfterCompletionValid` | DailySprout/DailySprout/Models.swift:39-43 | `updateStreak` keeps 0 <= current <= longest <= wins, a completion day exactly when wins > 0, and current >= 1 after a win |
| `Models.ConsecutiveAndSkippedDays` | DailySprout/DailySprout/Models.swift:28-34 | completing on two consecutive days gives a streak of 2; skipping a day gives 1 |
| `Models.Loaded` | DailySprout/DailySprout/Models.swift:69-81 | each missing or undecodable slot falls back to its own default: an empty list or the all-zero record; the flag and the last-open day are taken as read, a missing flag reading as false |
| `Models.StoreAdd` | DailySprout/DailySprout/Models.swift:108-112 | `addGoal`: the list is one longer, its old goals come first unchanged, and the new last goal has the text and is not completed; the record, the flag and the last-open day are unchanged |
| `Models.StoreToggle` | DailySprout/DailySprout/Models.swift:114-133 | `toggleGoal(at:)`: the length and every goal other than the indexed one are unchanged; the record is unchanged or is `updateStreak`'s result, so wins rise by at most one and never fall; the last-open day is unchanged; `todaysGoals.contains { $0.isCompleted }` at :119 is the helper `AnyCompleted` |
| `Models.StoreRemove` | DailySprout/DailySprout/Models.swift:135-139 | `removeGoal(at:)`: the list loses one goal when the index is in range and none otherwise; the record, the flag and the last-open day are unchanged |
| `Models.StoreCheckNewDay` | DailySprout/DailySprout/Models.swift:95-106 | the app's `checkNewDay`: the record never changes; with no stored last-open day nothing changes; otherwise either nothing changes or the list and the flag are cleared and today is stored |
| `Models.AddAppends` | DailySprout/DailySprout/Models.swift:108-112 | the appended last goal is exactly the new one: the caller's id and creation instant, the given text, not completed; the list is the old list followed by it |
| `Models.ToggleOutOfRangeIsNoOp` | DailySprout/DailySprout/Models.swift:115 | an index at or beyond the list's length changes nothing |
| `Models.ToggleFlipsOnlyThatGoal` | DailySprout/DailySprout/Models.swift:116-117 | in range, only the goal at the index flips `isCompleted`, with its other fields kept; every other goal and the length are unchanged |
| `Models.ToggleUpdatesStreakOnlyOnFirstCompletion` | DailySprout/DailySprout/Models.swift:119-125 | on a false-to-true flip while the flag is down and `canIncrementToday` holds, the record becomes `updateStreak`'s result and the flag goes up; on every other toggle the record is untouched and a lowered flag stays down; wins rise by one if and only if it is that first counted completion |
| `Models.UncompleteKeepsStreak` | DailySprout/DailySprout/Models.swift:126-130 | un-completing never changes the record; the flag drops when no goal stays completed and is kept otherwise |
| `Models.SameDayToggleKeepsStreak` | DailySprout/DailySprout/Models.swift:122-123 | once today's completion has counted, no toggle on the same day changes the record, whatever the flag |
| `Models.RemoveDropsOnlyThatGoal` | DailySprout/DailySprout/Models.swift:135-139 | in range, exactly that goal leaves and the others keep their order; out of range, nothing changes; the record, the flag and the last-open day never change |
| `Models.CheckNewDayRollsOverOnlyOnStoredOtherDay` | DailySprout/DailySprout/Models.swift:95-106 | a stored last-open day other than today clears the list and the flag and stores today; with nothing stored, or today stored, nothing changes; the record never changes |
| `Models.StoreCheckNewDayRecorded` | DailySprout/DailySprout/Models.swift:95-106 | the corrected rollover always stores today and never touches the record |
| `Models.CheckNewDayRecordedRollsOver` | DailySprout/DailySprout/Models.swift:95-106 | the corrected rollover clears the list and the flag exactly when a different day is stored |
| `Models.DailySproutStore.constructor` | DailySprout/DailySprout/Models.swift:64-67 | the new store is the loaded state after `checkNewDay` |
| `Models.DailySproutStore.CheckNewDay` | DailySprout/DailySprout/Models.swift:95-106 | the new state is `StoreCheckNewDay` of the old one; the record is unchanged |
| `Models.DailySproutStore.AddGoal` | DailySprout/DailySprout/Models.swift:108-112 | the list gains exactly the new incomplete goal at its end; the rest of the state is unchanged |
| `Models.DailySproutStore.ToggleGoal` | DailySprout/DailySprout/Models.swift:114-133 | the new state is `StoreToggle` of the old one; wins never go down |
| `Models.DailySproutStore.RemoveGoal` | DailySprout/DailySprout/Models.swift:135-139 | the new state is `StoreRemove` of the old one; the record and the flag are unchanged |
| `Models.SameDayStreakFrozen` | DailySprout/DailySprout/Models.swift:119-125 | after a completion counted today, no session of operations on the same day changes the record |
| `Models.AtMostOneWinPerDay` | DailySprout/DailySprout/Models.swift:119-130 | within one day, any session of adds, toggles, removes and openings raises wins by at most one and never lowers them |
| `Models.RunKeepsStreakValid` | DailySprout/DailySprout/Models.swift:39-43 | along any session over any days the record's invariant holds, and neither wins nor the longest streak ever go down |
| `Models.AsWrittenNeverRollsOver` | DailySprout/DailySprout/Models.swift:97-103 | with the app's rule, a store with no last-open day never gets one, and without removals its list never shrinks |
| `Models.RecordedRolloverClears` | DailySprout/DailySprout/Models.swift:95-106 | with the corrected rollover, opening on day d, using the app, and opening on any other day clears the list and the flag |
| `Models.StaleDayBlocksStreak` | DailySprout/DailySprout/Models.swift:97-103 | as written: a fresh install used on day 0 and again on day 1 keeps yesterday's goal and flag, and the day-1 completion does not extend the streak |
| `Models.RecordedDayExtendsStreak` | DailySprout/DailySprout/Models.swift:95-106 | with the corrected rollover the same two days give a streak of 2 and a fresh list on day 1 |
| `Models.OneDaySession` | DailySprout/DailySprout/Models.swift:114-133 | on one day: completing the first goal raises the flag and gives one win; un-completing it lowers the flag; adding and completing a second goal is refused by the date gate, so the flag stays down and wins stay 1 |
| `ContentView.NatToString` | DailySprout/DailySprout/ContentView.swift:224-226 | the interpolated number is a non-empty string of decimal digits, with a leading zero only for 0 |
| `ContentView.IntToString` | DailySprout/DailySprout/ContentView.swift:224-226 | `"\(streak)"`: a non-empty string that starts with a minus sign exactly for a negative number, with decimal digits after the first character |
| `ContentView.ParseNatToString` | DailySprout/DailySprout/ContentView.swift:224-226 | reading the digits back gives the number |
| `ContentView.IntToStringInjective` | DailySprout/DailySprout/ContentView.swift:224-226 | different integers are rendered as different strings |
| `ContentView.CelebrationMessage` | DailySprout/DailySprout/ContentView.swift:211-227 | the `showStreakCelebration` switch: a milestone streak (1, 3, 7, 14, 30) gets one of the five fixed messages; any other streak gets the dedication message or the "Day N" message for that streak |
| `ContentView.CelebrationMessageCases` | DailySprout/DailySprout/ContentView.swift:211-227 | streaks 1, 3, 7, 14 and 30 get their own messages; any other multiple of ten gets the dedication message; every other value gets the "Day N" message |
| `ContentView.ThirtyIsNotTemplated` | DailySprout/DailySprout/ContentView.swift:221-224 | 30 gets the habit-master message, not the multiple-of-ten one |
| `ContentView.DedicationMessagesDistinct` | DailySprout/DailySprout/ContentView.swift:223-224 | equal dedication messages have equal streaks |
| `ContentView.DayMessagesDistinct` | DailySprout/DailySprout/ContentView.swift:225-226 | equal "Day N" messages have equal streaks |
| `ContentView.MotivationalMessage` | DailySprout/DailySprout/ContentView.swift:664-676 | the share card's line is one of the five lines; a streak of 7 or more gives one of the three streak lines, and a shorter streak gives one of the two lines based on wins |
| `ContentView.MotivationalMessageThresholds` | DailySprout/DailySprout/ContentView.swift:664-676 | the thresholds 30, 14 and 7 on the streak are tried first, in that order; below 7, wins of 10 or more give "Making Progress!" and fewer give "Growing Every Day!"; from a streak of 7 up, the number of wins does not matter |
| `ContentView.LeadingWhitespace` | DailySprout/DailySprout/ContentView.swift:399-400 | counts exactly the whitespace characters the text starts with |
| `ContentView.TrailingWhitespaceStart` | DailySprout/DailySprout/ContentView.swift:399-400 | finds where the whitespace the text ends with begins |
| `ContentView.Trim` | DailySprout/DailySprout/ContentView.swift:399-400 | `trimmingCharacters(in: .whitespaces)`: the result is no longer than the text and, when not empty, neither starts nor ends with whitespace; like Foundation it tests each Unicode scalar against the set, which the helper `IsWhitespace` gives as U+0009 and the space separators (category Zs) |
| `ContentView.TrimIsInnerSlice` | DailySprout/DailySprout/ContentView.swift:399-400 | the trimmed text is a contiguous slice of the original; everything cut off is whitespace; a non-empty result neither starts nor ends with whitespace |
| `ContentView.TrimEmptyIffAllWhitespace` | DailySprout/DailySprout/ContentView.swift:399 | the trimmed text is empty exactly when the text is all whitespace |
| `ContentView.TrimIdempotent` | DailySprout/DailySprout/ContentView.swift:400 | trimming twice is the same as trimming once |
| `ContentView.CanAddGoal` | DailySprout/DailySprout/ContentView.swift:399 | the button acts exactly when the text has some non-whitespace character |
| `ContentView.SubmitGoal` | DailySprout/DailySprout/ContentView.swift:398-403 | the sheet is dismissed exactly when the guard holds; then the trimmed text is added, and otherwise the store is unchanged |
| `ContentView.ToggleAndCelebrate` | DailySprout/DailySprout/ContentView.swift:137-144 | the store toggles as `toggleGoal`; a celebration message is returned exactly when the current streak rose, and it is the message for the new streak; the test `store.streakData.currentStreak > oldStreak` at :142 is the helper `StreakRose` |
| `ContentView.CelebratedIffStartedOrExtended` | DailySprout/DailySprout/ContentView.swift:138-144 | for a valid record, a toggle is celebrated exactly when it is the day's first counted completion and it starts the first streak or extends yesterday's; a streak restarted after a gap is not celebrated |

## Left out

- Persistence: `saveData` and the JSON encoding and decoding in `loadData` are platform storage. The key-value slots are plain values. `Loaded` takes each slot as present or absent, and the "LastOpenDate" slot is a field of the store. Saving is not modelled, because it changes nothing in memory.
- `Calendar.current`, `startOfDay`, time zones and daylight-saving: days are integer day numbers and `today` is a parameter. The `?? 0` fallback of the day difference is dropped, because a day component is always present.
- `Date()` as an instant: `dateCreated` is an integer timestamp given by the caller. `DateFormatter` and `dateString` are presentation.
- `UUID()`: the goal id is a number supplied by the caller and is never compared.
- Negative indices: Swift's guards check only the upper bound, and a negative index traps. Indices are `nat`.
- Swift's 64-bit `Int` traps on overflow; the counters here are unbounded integers, which no realistic number of days reaches.
- SwiftUI layout, animation, `@State` assignments, the alert, the share-image rendering and the share sheet are presentation only.
- `NotificationManager.swift` and `DailySproutApp.swift` are OS notification scheduling and app entry glue. They hold no logic about the store.

## Findings

| source | as written | input that shows it | evidently intended | confidence | as-written member | corrected member |
|---|---|---|---|---|---|---|
| DailySprout/DailySprout/Models.swift:97-103 | a missing "LastOpenDate" reads as the current instant, and the date is stored only inside the reset branch, so a fresh install never stores it and never rolls over | fresh install: open on day 0, add and complete a goal, open on day 1, add and complete a second goal; yesterday's goal and the raised flag survive, and the streak stays 1 instead of 2 | every opening stores its day, so the first opening on a new day clears the list and the flag | high, not executed | `Models.StaleDayBlocksStreak` | `Models.StoreCheckNewDayRecorded` |

The finding's general form is `Models.AsWrittenNeverRollsOver`. The corrected rule is
proved in `Models.RecordedRolloverClears` and `Models.RecordedDayExtendsStreak`.
The ratchet and invariant lemmas hold under both rules. The store class keeps
the app's own rule, so that it describes the app as it behaves.
