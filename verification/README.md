# Alarm screen model

A Dafny model of the reminder screen of the PharmaPack mobile app
(`app/AlarmScreen.tsx`). The screen keeps an in-memory list of alarms,
lets the user switch alarms on and off and delete them behind a
confirmation dialog, and has an "Add Reminder" form with three scrolling
wheels (hour 1–12, minute 1–59, AM/PM), a repeat-day selector and two text
fields. The model is a functional reducer over immutable records:

| file | module | models |
|---|---|---|
| `seqs.dfy` | `Seqs` | `Array.prototype.filter` and `join`, duplicate-freedom, element sets, `Option` for `undefined` |
| `days.dfy` | `Days` | `toggleDay` and `getRepeatText` |
| `time_format.dfy` | `TimeFormat` | `toString().padStart(2, "0")` and the `"HH:MM"` text of a new alarm |
| `wheel.dfy` | `Wheel` | the `hours`/`minutes`/`periods` rows, the three scroll handlers and the row taps |
| `alarms.dfy` | `Alarms` | the alarm record, `toggleAlarm`, `deleteAlarm` |
| `screen.dfy` | `AlarmScreen` | the form and screen state, `addManualAlarm`, the event reducer `Step` and its invariant |

Modelling decisions:

- A day list holds only the eight strings the form can produce ("Daily",
  "Sun" … "Sat"). They are the enumeration `Days.Tag`; `Days.Name` gives
  each tag's string, and `getRepeatText`'s join is over those strings.
- Scroll offsets are whole pixels. For an integer offset `o`,
  `Math.round(o / 50)` is `(o + 25) / 50` under Dafny's Euclidean division,
  which rounds halves up as `Math.round` does, negative offsets included.
- The guards of the scroll handlers are kept as written: the hour handler
  tests `hour && …` (JavaScript truthiness), the period handler
  `period && …`, and the minute handler `minute !== undefined && …`. The
  contracts prove that all three amount to "the rounded index is a row of
  the wheel".
- The clock id of a new alarm (`Date.now()`) and the button pressed in the
  delete dialog are event parameters. The invariant lemmas assume the
  clock never repeats an id that is still in the list.
- The record field `label` is `labelText`, because `label` is a Dafny
  keyword.
- The model follows the code:
  - there is no debounce, settle timer or clamping of the wheel index; an
    index off the wheel leaves the selection unchanged;
  - the summary label joins the days in stored (tap) order, not week
    order;
  - opening the form does not reset it, and "Cancel" keeps its contents.
- The minute wheel has rows 1..59 while the form starts at minute 0. The
  model keeps both. `AlarmScreen.OnlySaveResetsMinute` proves the
  consequence: once the minute has left 0, only saving the form brings it
  back to 0.

## Model

| member | source | states |
|---|---|---|
| `Days.Without` | app/AlarmScreen.tsx:111 | the filtered day list holds exactly the other entries, and never the removed tag |
| `Days.ToggleDay` | app/AlarmScreen.tsx:107-126 | the new selection is never empty; tapping "Daily" gives exactly `["Daily"]` whatever was selected; "Daily" never appears together with a concrete day |
| `Days.ToggleDayWellFormed` | app/AlarmScreen.tsx:107-126 | from `["Daily"]` or 1–6 distinct concrete days, any tap yields `["Daily"]` or 1–6 distinct concrete days |
| `Days.ToggleDayKeepsOthers` | app/AlarmScreen.tsx:111-124 | when a concrete tap does not collapse, the tapped day is selected exactly when it was not before, a newly selected day is last, and the other concrete days keep their relative order |
| `Days.ToggleDayPickedSet` | app/AlarmScreen.tsx:111-124 | the picked days after a concrete tap are the old ones with that day flipped; the selection collapses to `["Daily"]` exactly when that set is empty or the whole week, and otherwise holds exactly that set |
| `Days.ToggleDayAppends` | app/AlarmScreen.tsx:115-121 | an unselected day is appended to a concrete selection, and picking the seventh day collapses to `["Daily"]` |
| `Days.DeselectLastCollapses` | app/AlarmScreen.tsx:112-119 | deselecting the only picked day falls back to `["Daily"]` |
| `Days.JoinTags` | app/AlarmScreen.tsx:221 | joining three-letter tags with ", " puts tag i at characters 5i..5i+3 followed by the separator, so the label lists the days in stored order |
| `Days.WeekdaysExactly` | app/AlarmScreen.tsx:208-213 | for distinct concrete days, "length 5 with neither Sat nor Sun" holds exactly when the days are Monday to Friday |
| `Days.WeekendsExactly` | app/AlarmScreen.tsx:214-219 | for distinct concrete days, "length 2 containing Sat and Sun" holds exactly when the days are Saturday and Sunday |
| `Days.RepeatTextMeaning` | app/AlarmScreen.tsx:205-223 | for every selection the form can hold, the label is "Daily" exactly when the alarm repeats every day, "Weekdays" exactly for Monday to Friday, "Weekends" exactly for Saturday and Sunday, and otherwise the stored-order join |
| `TimeFormat.Pad2` | app/AlarmScreen.tsx:181-183 | a number from 0 to 99 pads to exactly two characters |
| `TimeFormat.FormatTime` | app/AlarmScreen.tsx:181-183 | for hour and minute in 0..99 the time text has length 5 with ":" at index 2 |
| `TimeFormat.Pad2Digits` | app/AlarmScreen.tsx:181-183 | a number from 0 to 99 pads to its tens digit followed by its units digit |
| `TimeFormat.FormatThenParse` | app/AlarmScreen.tsx:181-183 | reading the time text back gives the hour and minute it was built from |
| `TimeFormat.ParseThenFormat` | app/AlarmScreen.tsx:181-183 | every "DD:DD" text is what formatting its two numbers gives, so the format is canonical |
| `TimeFormat.NineOhFive` | app/AlarmScreen.tsx:181-183 | hour 9 and minute 5 give "09:05" |
| `Wheel.WheelRows` | app/AlarmScreen.tsx:58-60 | the hour rows rise strictly and are exactly 1..12, the minute rows are exactly 1..59 (no 0), and the two period rows are "AM" then "PM" |
| `Wheel.RoundIndex` | app/AlarmScreen.tsx:82 | the rounded index is the row whose band [50i-25, 50i+25) holds the offset |
| `Wheel.HourScroll` | app/AlarmScreen.tsx:80-87 | an in-range rounded index makes the hour that row's value; an index off the wheel leaves it unchanged; an hour on the wheel stays on the wheel |
| `Wheel.MinuteScroll` | app/AlarmScreen.tsx:89-96 | the same three facts for the minute wheel |
| `Wheel.PeriodScroll` | app/AlarmScreen.tsx:98-105 | the same three facts for the AM/PM wheel |
| `Wheel.Tap` | app/AlarmScreen.tsx:385-391 | a tapped row's value is a value of the wheel |
| `Wheel.RoundSnap` | app/AlarmScreen.tsx:387-390 | rounding reads the tap's snap offset `index * ITEM_HEIGHT`, and any offset within half a row of it, back as the tapped row |
| `Wheel.TapAgreesWithScroll` | app/AlarmScreen.tsx:381-391 | on each wheel, a tap on a row and a scroll that rests on that row commit the same value, whatever was selected |
| `Wheel.MinuteWheelSkipsZero` | app/AlarmScreen.tsx:59 | the minute wheel has no 0, so neither a scroll nor a tap turns a non-zero minute into 0 |
| `Alarms.ToggleAlarm` | app/AlarmScreen.tsx:128-134 | length and order are kept, every field but `isActive` is kept, and `isActive` flips exactly on the records with the id |
| `Alarms.ToggleAbsentId` | app/AlarmScreen.tsx:128-134 | toggling an id no record has leaves the list unchanged |
| `Alarms.ToggleTwice` | app/AlarmScreen.tsx:128-134 | toggling the same id twice restores the list |
| `Alarms.ToggleKeepsIds` | app/AlarmScreen.tsx:128-134 | toggling keeps every id in place and so keeps ids unique |
| `Alarms.DeleteAlarm` | app/AlarmScreen.tsx:136-144 | on cancel the list is unchanged; on confirm a record survives exactly when it was there and has another id, and a present id shortens the list |
| `Alarms.DeleteKeepsOrder` | app/AlarmScreen.tsx:141 | deleting from a joined list is deleting from each part, so survivors keep their order |
| `Alarms.DeleteAbsentId` | app/AlarmScreen.tsx:141 | a confirmed delete of an id no record has changes nothing |
| `Alarms.DeleteUnique` | app/AlarmScreen.tsx:141 | with unique ids a confirmed delete keeps ids unique and removes exactly one record when the id is present |
| `Alarms.DeleteAfterToggle` | app/AlarmScreen.tsx:128-144 | flipping an alarm's switch and then deleting it leaves the same list as deleting it directly |
| `AlarmScreen.AddManualAlarm` | app/AlarmScreen.tsx:180-203 | exactly one record is appended after the unchanged old list, active, with the clock id, the form's time text, period, label, speech text and days; the form is closed and reset to 9, 0, "AM", `["Daily"]`, "New Alarm", "This is your reminder!" |
| `AlarmScreen.SavedTimeReadsBack` | app/AlarmScreen.tsx:181-186 | the saved alarm's time text reads back as the form's hour and minute |
| `AlarmScreen.SaveThenDelete` | app/AlarmScreen.tsx:184-193 | saving with a fresh id and then deleting that id restores the old list |
| `AlarmScreen.Step` | app/AlarmScreen.tsx:80-203 | events other than save, switch, delete and scan-finished leave the list alone; switch, delete and scan-finished leave the form alone |
| `AlarmScreen.InitialOk` | app/AlarmScreen.tsx:20-50 | the starting screen (two seed alarms, default form) satisfies the invariant |
| `AlarmScreen.FormEventOk` | app/AlarmScreen.tsx:80-126 | wheel, tap, day and text events keep every form field on its wheel or well formed, and so keep the invariant |
| `AlarmScreen.SaveOk` | app/AlarmScreen.tsx:180-203 | saving with a fresh id keeps the invariant; the stored time has hour 1..12 and minute 0..59 because the form's hour is an hour row and its minute 0 or a minute row |
| `AlarmScreen.SwitchOk` | app/AlarmScreen.tsx:128-134 | flipping a switch keeps the invariant: every record sound and ids unique |
| `AlarmScreen.DeleteOk` | app/AlarmScreen.tsx:136-144 | deleting, confirmed or cancelled, keeps the invariant: every record sound and ids unique |
| `AlarmScreen.ScanOk` | app/AlarmScreen.tsx:161-172 | appending the canned NFC record with a fresh id keeps the invariant |
| `AlarmScreen.StepOk` | app/AlarmScreen.tsx:80-203 | every event keeps the invariant: hour, minute and period on their wheels (or minute 0), day lists well formed, every alarm's time a 12-hour "HH:MM" (hour 1..12, minute 0..59), period and day list sound, ids unique |
| `AlarmScreen.RunOk` | app/AlarmScreen.tsx:80-203 | every state a session reaches from a sound state is sound: every alarm's time a 12-hour "HH:MM", form fields on their wheels, day lists well formed, ids unique |
| `AlarmScreen.OnlySaveResetsMinute` | app/AlarmScreen.tsx:89-96 | once the minute is not 0, no event except saving makes it 0 |

## Left out

- JSX rendering and the style sheet (`app/AlarmScreen.tsx` lines 225-998): layout with no state.
- The header-title scroll listener (lines 65-78): an animation binding over floating-point offsets.
- `testSpeech` / `Speech.speak` (lines 146-152, and the calls at 173 and 202): a foreign text-to-speech call with no effect on state. It is not an event of the model.
- `Alert.alert` dialogs (lines 137, 158): the delete dialog's answer is the `confirmed` flag of `DeletePressed`. The scan dialog has one button, so its timer and its "OK" are the single event `ScanFinished`.
- The two-second `setTimeout` of the NFC scan (lines 154-178): timing is not modelled. `ScanFinished` appends to the list as it stands at that moment. The source appends to the list captured when the scan began. The two agree because the scanning overlay and the dialog block every other input in between.
- `Date.now()` ids (lines 163, 185): a clock call; the id is an event parameter.
- `scrollTo` snap commands on the wheel refs (lines 387-390, 428-431, 469-472): imperative commands to the native scroll view. Only their target offset `index * ITEM_HEIGHT` is modelled, in `Wheel.SnapOffset`.
- Fractional scroll offsets: offsets are whole pixels.
- `app/index.tsx`: a two-screen navigation toggle with console logging and an image asset.
- `Days.ToggleDay` takes an enumeration tag, not an arbitrary string: the form only ever passes "Daily" or one of the seven day names.
- `Days.RepeatTextMeaning`: states the label's meaning only for well-formed day lists. `AlarmScreen.StepOk` shows these are the only lists the screen stores.
- Re-renders between events: every event is assumed to see the state the previous event produced. The source's scroll handlers compare against the selection captured at the last render, and `onScroll` fires every 16 ms, so two scroll events can arrive before a re-render. With the hour rendered as 5, events at offsets 250 and then 200 end on 6 in the source (the second sees the stale 5 and is skipped), while `Wheel.HourScroll` applied twice ends on 5. The minute and period wheels behave the same way.
- `AlarmScreen.StepOk`, `AlarmScreen.RunOk`: assume each new alarm gets a clock id not already in the list. The source relies on `Date.now()` for this.
