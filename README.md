# SyncedPom in Dafny

SyncedPom is a Pomodoro timer. It runs either solo on one device or synchronized across
devices through one shared session record. This project models the logic at its core and
proves what the code promises:

- the timer hook (`useTimer`): resolving a deadline, the snap rule, the effects, the
  once-per-second tick, and the toggle, mode and settings actions;
- the client side of the shared session (`useSupabaseSession`);
- the quick-add dialog's session-estimate parsing, title cleaning and highlighting;
- the task list operations;
- the two `MM:SS` clock formatters;
- the settings dialog.

Modules follow the source files:

| module | file | models |
|---|---|---|
| `Options` | text.dfy | `null`/`undefined` against a present value |
| `Text` | text.dfy | the JavaScript built-ins relied on: `\s`, `trim`, ASCII `toUpperCase`, `String(n)`, `parseInt` |
| `Modes` | session.dfy | the mode table `{ key: { label, time } }` shared by all components |
| `Session` | session.dfy | app/hooks/useSupabaseSession.js |
| `TimerHook` | timer.dfy | app/hooks/useTimer.js |
| `QuickAdd` | quick_add.dfy | app/components/QuickAddModal.js |
| `Tasks` | task_list.dfy | app/components/TaskList.js |
| `TimerDisplay` | timer_display.dfy | app/components/TimerDisplay.js |
| `FocusMode` | focus_mode.dfy | app/components/FocusMode.js |
| `SettingsModal` | settings_modal.dfy | app/components/SettingsModal.js |

Stateful parts of the code become classes whose methods update fields:

- `Session.SessionClient` holds the session binding and a log of the merge-patches sent to
  the store.
- `TimerHook.Timer` holds the local timer state and a `backend: SessionClient`. It has one
  method per React effect, one for the interval callback, and one per action. The writes
  it sends land in `backend.log`. Its `onComplete` calls land in `completions`.
- `QuickAdd.QuickAddModal`, `Tasks.TaskList` and `SettingsModal.SettingsDialog` hold each
  component's state. Callbacks to the parent (`onAdd`, `onSave`, `onClose`) are recorded
  as logs or counters.

The store is a map from session id to record. `Session.Merge` gives the effect of a patch
on a record. The lemmas about patches (`TimerHook.StartPatchResolves` and its siblings) use
it to say what every device resolves once a write has landed.

Time is a parameter `now` in epoch milliseconds. The random strings that ids are cut from,
the store's answers and the insert error are parameters too.

Behaviour of the code worth knowing:

- Durations are never validated. A non-positive or non-numeric duration is accepted:
  `"-5"` minutes gives -300 seconds and `"abc"` gives 0. No `InvalidSettings` error exists.
- A synced tick decrements the displayed value by one second, like a solo tick. It does not
  resolve the deadline again. Only Effect 1, run when a new record arrives, resolves it.
- Pausing a solo countdown does not keep the displayed value. Clearing the running flag
  triggers Effect 2, which puts the mode's full duration back (`TimerHook.PauseSoloCountdown`).
  The same happens after a solo countdown expires (`TimerHook.ExpireSoloCountdown`). So a
  start, five ticks and a stop, when solo, end at the full duration, not at the initial value
  minus 5.
- A solo settings update always resets the countdown to the local mode's new duration,
  whether or not that duration changed.
- No completion guard exists. Completion happens at most once because the interval is
  scheduled only while running with time on the display (`TimerHook.Timer.Scheduled`).
  Two ticks in a row therefore cannot both complete (`TimerHook.ExpireSyncedCountdown`).

## Model

| member | source | states |
|---|---|---|
| `Text.Trim` | app/components/QuickAddModal.js:27-29 | `trim` yields a slice `s[i..j]` of the input with white space at neither end and only white space before `i` and after `j`; it is empty exactly when the input is all white space, and already-trimmed text is unchanged |
| `Text.TrimUnique` | app/components/QuickAddModal.js:27-29 | any slice with white space at neither end and only white space around it is the trimmed text, so the slice `trim` keeps is the only possible one |
| `Text.TrimIdempotent` | app/components/QuickAddModal.js:29 | trimming twice is trimming once |
| `Text.Upper` | app/hooks/useSupabaseSession.js:81 | `toUpperCase` keeps the length and maps each character on its own |
| `Text.UpperKeepsTrimmed` | app/hooks/useSupabaseSession.js:81 | upper-casing after trimming keeps the text trimmed |
| `Text.NatToString` | app/components/TimerDisplay.js:15 | printing a number gives a non-empty digit string, without a leading zero, whose value is the number |
| `Text.NatToStringLength` | app/components/TimerDisplay.js:15 | one digit below 10, two up to 99, three or more from 100 on |
| `Text.IntToString` | app/components/TimerDisplay.js:15 | `String(n)` starts with a minus sign exactly for negative numbers, and the digits that follow have the value of the number (of its negation when negative) |
| `Text.ParseInt` | app/components/SettingsModal.js:16 | `parseInt` without a radix: skip leading white space, read one sign, switch to base 16 after `0x`/`0X`, read the longest digit run, NaN when it is empty; what it yields is stated by the three lemmas below |
| `Text.ParseIntDigitPrefix` | app/components/SettingsModal.js:16 | `parseInt` reads the leading digit run and ignores whatever follows it, unless the run is `0` followed by `x`/`X`, which starts a hexadecimal number |
| `Text.ParseIntNegative` | app/components/SettingsModal.js:16 | a leading minus sign negates the digit run, under the same condition on what follows |
| `Text.ParseIntOfIntToString` | app/components/SettingsModal.js:16 | `parseInt(String(n)) == n` for every integer |
| `Session.Merge` | app/hooks/useSupabaseSession.js:96-102 | the store's `update(updates)`: every field the patch carries overwrites the record's, the id and host never change, and an empty patch changes nothing |
| `Session.MergeIdempotent` | app/hooks/useSupabaseSession.js:96-102 | sending the same update twice leaves the record as sending it once |
| `Session.NormalizeCode` | app/hooks/useSupabaseSession.js:81 | the looked-up code has no white space at its ends and is no longer than the typed code |
| `Session.UpperIdempotent` | app/hooks/useSupabaseSession.js:81 | upper-casing twice is upper-casing once |
| `Session.NormalizeIdempotent` | app/hooks/useSupabaseSession.js:81 | normalising a normalised code changes nothing |
| `Session.Substring` | app/hooks/useSupabaseSession.js:55 | `substring` yields no more characters than the string has |
| `Session.Substr` | app/hooks/useSupabaseSession.js:15 | `substr` yields at most the requested number of characters |
| `Session.GeneratedId` | app/hooks/useSupabaseSession.js:55 | a new session id has at most six characters |
| `Session.UpperBase36Normalized` | app/hooks/useSupabaseSession.js:55 | an upper-cased base-36 string is already in normal form |
| `Session.GeneratedIdNormalized` | app/hooks/useSupabaseSession.js:55-81 | a freshly generated id is already normalised, so joining with it looks it up unchanged |
| `Session.NewRecord` | app/hooks/useSupabaseSession.js:57-66 | the record `createSession` inserts: paused, with no deadline and the given duration as `remaining`; what it resolves to is `TimerHook.NewRecordResolves` |
| `Session.SessionClient.constructor` | app/hooks/useSupabaseSession.js:12-15 | the client starts unbound, with no error and no writes, under a user id cut from a random string |
| `Session.SessionClient.CreateSession` | app/hooks/useSupabaseSession.js:54-77 | on insert failure the error is recorded, None is returned and the binding is unchanged; on success the client binds to the new paused record (no deadline, full duration, default settings unless given) and returns its id, and the caller becomes host |
| `Session.SessionClient.JoinSession` | app/hooks/useSupabaseSession.js:80-94 | it succeeds exactly when the query succeeds and the normalised code is a stored id; it then binds to that id and record, and otherwise leaves the binding as it was |
| `Session.SessionClient.UpdateSession` | app/hooks/useSupabaseSession.js:96-102 | a write is sent exactly when a session id is bound |
| `Session.SessionClient.LeaveSession` | app/hooks/useSupabaseSession.js:104-118 | both fields become null, so the client is unbound and not host |
| `Session.Truthy` | app/hooks/useSupabaseSession.js:97 | JavaScript truthiness of a session id: a write is sent only when the id is present and not the empty string |
| `Session.SessionClient.IsHost` | app/hooks/useSupabaseSession.js:118 | `isHost`: a record is bound and its host is this user; `CreateSession` and `LeaveSession` state when it holds |
| `TimerHook.DefaultModesAgree` | app/hooks/useTimer.js:3-7 | the timer's default table is the session default table, and has the three standard keys with positive durations |
| `TimerHook.RemoteTime` | app/hooks/useTimer.js:38-77 | a live deadline resolves to the whole seconds left (never negative, zero once passed); anything else resolves to `remaining` verbatim |
| `TimerHook.RemoteTimeNonIncreasing` | app/hooks/useTimer.js:74 | the resolved value never grows as the clock advances |
| `TimerHook.Snap` | app/hooks/useTimer.js:80 | the display takes the resolved value or keeps its own; it always ends within one second of the resolved value, and stays put when already that close |
| `TimerHook.SnapIdempotent` | app/hooks/useTimer.js:80 | applying the same resolved value twice is applying it once |
| `TimerHook.PausePatch` | app/hooks/useTimer.js:110 | the pause write `{ status: 'paused', remaining, end_time: null }` (also at line 135); its effect is `TimerHook.PausePatchResolves` |
| `TimerHook.StartPatch` | app/hooks/useTimer.js:137-138 | the start write, a deadline `d` seconds after `now`; its effect is `TimerHook.StartPatchResolves` |
| `TimerHook.ModePatch` | app/hooks/useTimer.js:148-153 | the mode write; its effect is `TimerHook.ModePatchResolves` |
| `TimerHook.SettingsPatch` | app/hooks/useTimer.js:165-170 | the settings write; its effect is `TimerHook.SettingsPatchResolves` |
| `TimerHook.PausePatchResolves` | app/hooks/useTimer.js:110-135 | after a pause write the record is not live and resolves to the written value at every instant |
| `TimerHook.StartPatchResolves` | app/hooks/useTimer.js:137-138 | after a start write with `d` on the display, resolving `k` seconds later gives `max(0, d - k)` |
| `TimerHook.StartEchoKeepsDisplay` | app/hooks/useTimer.js:80-138 | the echo of one's own start, resolved at the instant of sending, leaves the display unchanged |
| `TimerHook.ModePatchResolves` | app/hooks/useTimer.js:148-153 | after a mode write the record is paused in the new mode at the given duration |
| `TimerHook.SettingsPatchResolves` | app/hooks/useTimer.js:165-170 | after a settings write the record holds the new table and is paused at the given duration, whatever deadline ran before |
| `TimerHook.NewRecordResolves` | app/hooks/useSupabaseSession.js:57-66 | a new session resolves to its full duration at every instant |
| `TimerHook.ModesOf` | app/hooks/useTimer.js:26 | `modes`: the bound record's table if it has one, the local table otherwise; `TimerHook.LeaveMakesSolo` shows the local one in use after leaving |
| `TimerHook.ModeOf` | app/hooks/useTimer.js:35 | `currentMode`: the bound record's mode unless it is empty, the local mode otherwise |
| `TimerHook.Timer.constructor` | app/hooks/useTimer.js:12-62 | the hook starts paused (the local running flag is false) in `pomodoro` mode at that mode's duration, with the saved or default table |
| `TimerHook.Timer.IsSynced` | app/hooks/useTimer.js:34 | `!!backend.sessionId`: the timer is synced exactly when the bound session id is truthy (present and not empty) |
| `TimerHook.Timer.IsRunning` | app/hooks/useTimer.js:64 | synced: the bound record exists and its status is running; solo: the local running flag |
| `TimerHook.Timer.TimeLeft` | app/hooks/useTimer.js:38-49 | `calculateTimeLeft`: synced with a record, the record's resolution (never negative while live); otherwise the local counter. The hook defines it but never calls it; what the UI shows as `timeLeft` is `displayTime` (useTimer.js:185) |
| `TimerHook.Timer.Scheduled` | app/hooks/useTimer.js:101 | the interval exists exactly while running with a positive display; `Tick` acts only then, and its last step leaves it false |
| `TimerHook.Timer.SyncWithBackend` | app/hooks/useTimer.js:68-82 | Effect 1 snaps the display to the bound record's resolution, ending within one second of it; with nothing bound it changes nothing |
| `TimerHook.Timer.SyncWithLocalSettings` | app/hooks/useTimer.js:86-96 | Effect 2 puts the current mode's full duration on a solo timer that is not running, and leaves anything else alone |
| `TimerHook.Timer.Tick` | app/hooks/useTimer.js:99-118 | only a scheduled tick acts; above one second it decrements and does nothing else; at the bottom it shows 0, is no longer scheduled, records one `onComplete(isSynced)`, and either writes the paused zero record (synced) or clears the running flag (solo) |
| `TimerHook.Timer.TickEffect` | app/hooks/useTimer.js:119-126 | a solo timer left running at 0 is stopped, and the local counter takes the displayed value |
| `TimerHook.Timer.Toggle` | app/hooks/useTimer.js:132-143 | synced: a running timer writes a pause at the displayed value and a paused one writes a deadline `displayTime` seconds ahead; solo: the running flag flips and nothing is written |
| `TimerHook.Timer.ChangeMode` | app/hooks/useTimer.js:145-160 | synced: one write of the paused record in the new mode at its duration, local state untouched; solo: mode set, stopped, counter and display at the mode's duration, nothing written |
| `TimerHook.Timer.UpdateSettings` | app/hooks/useTimer.js:162-181 | synced: one write of the new table paused at the current mode's new duration; solo: the table is kept, stopped, counter and display at the local mode's new duration, nothing written |
| `TimerHook.PauseSoloCountdown` | app/hooks/useTimer.js:86-141 | pausing a solo countdown stops it and, through Effect 2, puts the full duration back on the display |
| `TimerHook.ExpireSoloCountdown` | app/hooks/useTimer.js:86-126 | a solo countdown at its last second completes once, stops, returns to the full duration in both the counter and the display, and a further tick does nothing; Effect 2 runs before Effect 3, in declaration order |
| `TimerHook.ExpireSyncedCountdown` | app/hooks/useTimer.js:99-126 | however many ticks follow the last second of a synced countdown, one completion and one paused zero write happen |
| `TimerHook.SyncTwice` | app/hooks/useTimer.js:68-82 | Effect 1 run twice on the same record and instant is Effect 1 run once |
| `TimerHook.LeaveMakesSolo` | app/hooks/useSupabaseSession.js:104-107 | after leaving, the timer is solo and reads only its local table, mode, flag and counter |
| `QuickAdd.MatchesAt` | app/components/QuickAddModal.js:17 | the reference reading of the token pattern at one start: the text's start or one white-space character, a digit run, `s`, then white space or the end |
| `QuickAdd.TryAt` | app/components/QuickAddModal.js:17 | a match found at a position starts there and matches the pattern |
| `QuickAdd.TryAtComplete` | app/components/QuickAddModal.js:17 | wherever the pattern can match, trying there finds a match |
| `QuickAdd.MatchUnique` | app/components/QuickAddModal.js:17 | at a given start the pattern matches in one way only |
| `QuickAdd.FindFrom` | app/components/QuickAddModal.js:17 | the scan returns the first position from which a match exists, or None when there is none |
| `QuickAdd.FindToken` | app/components/QuickAddModal.js:17 | `input.match(...)`: what it returns is a match of the pattern; `QuickAdd.FindTokenSpec` proves it the leftmost |
| `QuickAdd.FindTokenSpec` | app/components/QuickAddModal.js:17 | `input.match` finds the leftmost match, and none exactly when the pattern matches nowhere |
| `QuickAdd.SessionCount` | app/components/QuickAddModal.js:17-22 | the value of the captured digits of the match, or 0; its meaning is `QuickAdd.SessionCountSpec` |
| `QuickAdd.SessionCountSpec` | app/components/QuickAddModal.js:17-22 | `sessions` is the value of the digits of the leftmost `<digits>s` token that has start or white space before it and white space or end after it, or 0 when there is none |
| `QuickAdd.GluedNumbersIgnored` | app/components/QuickAddModal.js:17 | `abc3s` and `3sx` give no estimate |
| `QuickAdd.CleanTitle` | app/components/QuickAddModal.js:29 | the first match, with the white space it consumed, replaced by one space, then trimmed: the result is trimmed, and strictly shorter than the text whenever a token was found |
| `QuickAdd.SubmittedTitle` | app/components/QuickAddModal.js:32 | the cleaned title, or the text as typed when that is empty; stated by `QuickAdd.SubmittedTitleSpec` and `QuickAdd.OnlyTokenKeepsInput` |
| `QuickAdd.SubmittedTitleSpec` | app/components/QuickAddModal.js:29-32 | text that is not all white space is never submitted with an empty title; without a token, the title is the trimmed text |
| `QuickAdd.LeftmostFound` | app/components/QuickAddModal.js:17 | a match with no match before it is exactly the one `input.match` returns |
| `QuickAdd.SpacedTokenFound` | app/components/QuickAddModal.js:17 | in `w1 + d + "s" + w2` with white space `w1`, `w2` and digits `d`, the match found runs from the last white space before the digits (or the start) through the white space after the `s`, if any |
| `QuickAdd.SpacedTokenCount` | app/components/QuickAddModal.js:17-22 | a token with only white space around it is read as the estimate |
| `QuickAdd.SpacedTokenCleansAway` | app/components/QuickAddModal.js:29 | removing such a token leaves nothing after trimming |
| `QuickAdd.OnlyTokenKeepsInput` | app/components/QuickAddModal.js:29-34 | text that is only a token with any white space around it (`w1 + d + "s" + w2`) is submitted with the whole untrimmed text as title, and the estimate is still read from it |
| `QuickAdd.ConcatAppend` | app/components/QuickAddModal.js:43 | joining a concatenation of pieces joins each part |
| `QuickAdd.Split` | app/components/QuickAddModal.js:43 | `text.split(/(\d+s)/g)`; `QuickAdd.SplitFromConcat` and `QuickAdd.SplitFromShape` state what it yields |
| `QuickAdd.SplitFromConcat` | app/components/QuickAddModal.js:43 | the split pieces put back together give the text exactly |
| `QuickAdd.TokenSliceStarts` | app/components/QuickAddModal.js:43-46 | a piece that is a whole token has a match starting where it starts |
| `QuickAdd.SplitFromShape` | app/components/QuickAddModal.js:43-46 | there is an odd number of pieces, and a piece is a whole token exactly at odd positions |
| `QuickAdd.Highlight` | app/components/QuickAddModal.js:42-51 | one span per split piece, holding that piece |
| `QuickAdd.HighlightSpec` | app/components/QuickAddModal.js:42-51 | the spans put back together give the input; a span is highlighted iff it is a whole `^\d+s$` token, iff its position is odd |
| `QuickAdd.QuickAddModal.constructor` | app/components/QuickAddModal.js:4-5 | empty text, no estimate, nothing added |
| `QuickAdd.QuickAddModal.OnChange` | app/components/QuickAddModal.js:75 | the text becomes what was typed |
| `QuickAdd.QuickAddModal.ParseSessions` | app/components/QuickAddModal.js:16-23 | the effect on `input` sets `sessions` to the session count of the text |
| `QuickAdd.QuickAddModal.HandleSubmit` | app/components/QuickAddModal.js:25-39 | white-space-only text changes nothing; otherwise `onAdd` receives the submitted title and the current estimate, the text and estimate are cleared, and `onClose` is called once |
| `QuickAdd.TypeAndSubmit` | app/components/QuickAddModal.js:16-39 | typing a text and submitting it hands `onAdd` the submitted title and the session count of that text |
| `Tasks.ToggleById` | app/components/TaskList.js:57-59 | length, order, ids, titles and estimates are kept; `completed` flips exactly on the tasks with the id |
| `Tasks.ToggleTwice` | app/components/TaskList.js:57-59 | toggling the same id twice is the identity |
| `Tasks.ToggleAbsent` | app/components/TaskList.js:57-59 | toggling an id no task has changes nothing |
| `Tasks.RemoveById` | app/components/TaskList.js:61-63 | a task is kept iff it was in the list with another id |
| `Tasks.RemoveAppend` | app/components/TaskList.js:61-63 | removal keeps order: removing from a concatenation removes from each part |
| `Tasks.RemoveAbsent` | app/components/TaskList.js:61-63 | removing an id no task has changes nothing |
| `Tasks.RemoveTwice` | app/components/TaskList.js:61-63 | removing the same id twice is removing it once |
| `Tasks.ShowsFocus` | app/components/TaskList.js:75 | the focus card shows exactly when the list is not empty and its first task is open; `Tasks.TaskList.Add` and `Tasks.TaskList.HandleQuickAdd` make it hold |
| `Tasks.TaskList.constructor` | app/components/TaskList.js:6-9 | no tasks, empty form, form and quick-add closed |
| `Tasks.TaskList.Add` | app/components/TaskList.js:39-45 | white-space-only text changes nothing; otherwise one open task with the untrimmed text and no estimate goes in front of the old list, the form is cleared and closed, and the new task is the current focus |
| `Tasks.TaskList.HandleQuickAdd` | app/components/TaskList.js:48-55 | the draft becomes one open task in front of the old list, carrying its estimate, and is the current focus |
| `Tasks.TaskList.Toggle` | app/components/TaskList.js:57-59 | the list becomes its toggle by id |
| `Tasks.TaskList.Remove` | app/components/TaskList.js:61-63 | the list becomes its removal by id |
| `Tasks.TaskList.OnKeyDown` | app/components/TaskList.js:21-36 | `q` or `Q` opens the quick-add dialog unless the focus is in a text field; any other key changes nothing |
| `TimerDisplay.JsRem` | app/components/TimerDisplay.js:14 | `%` equals the mathematical remainder on non-negative numbers; on negative ones it lies in (-60, 0] with the sign of the dividend |
| `TimerDisplay.Pad2` | app/components/TimerDisplay.js:15 | `n < 10 ? '0'+n : n`; stated by `TimerDisplay.Pad2Digits` and `TimerDisplay.Pad2Negative` |
| `TimerDisplay.Fmt` | app/components/TimerDisplay.js:12-16 | `fmt`: floor minutes, the truncating remainder, each field padded; stated by `TimerDisplay.ReadFmt`, `TimerDisplay.FmtShape`, `TimerDisplay.FmtLong` and `TimerDisplay.FmtNegative` |
| `TimerDisplay.Pad2Digits` | app/components/TimerDisplay.js:15 | a non-negative field prints as digits with its own value; two of them below 100, three or more from 100 on |
| `TimerDisplay.ReadFmt` | app/components/TimerDisplay.js:12-16 | for every non-negative number of seconds, the clock ends in a colon and exactly two seconds digits whose value is `s % 60`, below 60, and the minutes and seconds read back as `60*m + sc == s`; a reading that accepts only two seconds digits below 60 gives `s` back |
| `TimerDisplay.FmtShape` | app/components/TimerDisplay.js:12-16 | below 6000 seconds the clock has exactly 5 characters, a colon at index 2, and a seconds field below 60 |
| `TimerDisplay.FmtLong` | app/components/TimerDisplay.js:13-15 | from 6000 seconds on, the minutes field has three or more digits |
| `TimerDisplay.Pad2Negative` | app/components/TimerDisplay.js:15 | a negative field is below ten, so it prints as `0-` and its digits |
| `TimerDisplay.FmtNegative` | app/components/TimerDisplay.js:13-15 | for every negative number of seconds the minutes field is `0-` and the digits of the rounded-down minutes, and the seconds field is `0-` and the digits of the remainder, or `00` when there is none (JavaScript's `-0` prints as `0`) |
| `TimerDisplay.LabelsAgree` | app/components/TimerDisplay.js:5-9 | the button labels are the labels of the timer's default modes, one button per mode key |
| `TimerDisplay.ModeButtons` | app/components/TimerDisplay.js:31-39 | three buttons in the order pomodoro, short, long, each calling `onModeChange` with its own key and marked iff it is the current mode |
| `TimerDisplay.OneButtonSelected` | app/components/TimerDisplay.js:35 | at most one button is marked, and one is marked exactly when the mode is a standard one |
| `TimerDisplay.ButtonsNameModes` | app/components/TimerDisplay.js:31-34 | every button names a mode present in a table with the standard keys |
| `TimerDisplay.Render` | app/components/TimerDisplay.js:43-57 | the clock is the formatted time; the main button reads `Pause` iff running and `Start` otherwise; the extra pause button shows iff running |
| `FocusMode.FormatTime` | app/components/FocusMode.js:25-29 | the focus view's own copy of the formatter; `FocusMode.FormatTimeAgrees` proves it equal to `TimerDisplay.Fmt` |
| `FocusMode.FormatTimeAgrees` | app/components/FocusMode.js:25-29 | the focus view's formatter equals the card's `fmt` on every integer |
| `FocusMode.FormatTimeShape` | app/components/FocusMode.js:25-29 | below 6000 seconds: 5 characters, colon at index 2, seconds field below 60 |
| `FocusMode.Render` | app/components/FocusMode.js:23-65 | nothing is rendered iff closed; open, the heading is the task's title or `Focus`, and the icon is `pause` iff running |
| `FocusMode.ClosesOn` | app/components/FocusMode.js:14-18 | `onClose` is called only for Escape, and only while open |
| `SettingsModal.Minutes` | app/components/SettingsModal.js:16 | `parseInt` of the typed text, with NaN and 0 both giving 0; stated by the `MinutesOf` lemmas below |
| `SettingsModal.MinutesOfDigitPrefix` | app/components/SettingsModal.js:16 | a leading digit run is read as the minutes and whatever follows it is ignored, unless the run is `0` followed by `x`/`X` |
| `SettingsModal.MinutesOf12abc` | app/components/SettingsModal.js:16 | `12abc` reads as 12 minutes |
| `SettingsModal.MinutesOfNonNumber` | app/components/SettingsModal.js:16 | empty text, and text starting with neither white space, a sign nor a digit, reads as 0 minutes |
| `SettingsModal.MinutesOfEmpty` | app/components/SettingsModal.js:16 | empty text reads as 0 minutes |
| `SettingsModal.MinutesOfAbc` | app/components/SettingsModal.js:16 | `abc` reads as 0 minutes |
| `SettingsModal.MinutesOfNegative` | app/components/SettingsModal.js:16 | `-5` reads as -5 minutes; nothing checks positivity |
| `SettingsModal.MinutesOfNumber` | app/components/SettingsModal.js:16 | every integer in decimal form reads back as itself |
| `SettingsModal.WithMinutes` | app/components/SettingsModal.js:17-23 | the keys are kept, the edited mode keeps its label and gets `minutes * 60`, and every other mode is unchanged |
| `SettingsModal.Shown` | app/components/SettingsModal.js:60 | `Math.floor(time / 60)`, the whole minutes an input shows; `SettingsModal.ShownAfterChange` shows it gives back what was typed |
| `SettingsModal.ShownAfterChange` | app/components/SettingsModal.js:21-60 | an input shows back the minutes just typed into it |
| `SettingsModal.CanEdit` | app/components/SettingsModal.js:33 | editing is allowed iff solo or host |
| `SettingsModal.Render` | app/components/SettingsModal.js:13-85 | nothing is rendered iff closed; the warning shows and the inputs are disabled iff editing is not allowed, Save shows iff it is, and each input shows its mode's whole minutes |
| `SettingsModal.SettingsDialog.constructor` | app/components/SettingsModal.js:4 | the local copy starts as the current settings |
| `SettingsModal.SettingsDialog.OnOpen` | app/components/SettingsModal.js:7-11 | opening resets the local copy to the current settings; otherwise it is kept |
| `SettingsModal.SettingsDialog.HandleChange` | app/components/SettingsModal.js:15-24 | the local copy becomes its update with the parsed minutes |
| `SettingsModal.SettingsDialog.HandleSave` | app/components/SettingsModal.js:26-30 | `onSave` receives the local copy unchanged, then `onClose` is called once |
| `SettingsModal.EditAndSave` | app/components/SettingsModal.js:7-30 | opening, editing one mode and saving hands `onSave` the current table with only that mode's duration changed |

## Left out

- Network I/O. The Supabase `select`, `insert` and `update` calls, the realtime channel
  and its cleanup (app/hooks/useSupabaseSession.js:18-49, 68, 98-101) are not modelled.
  The store is a map passed to `JoinSession`, and the insert outcome is a parameter.
  Writes are recorded in `log` and never delivered back. No timing or reordering of echoes
  is modelled, and neither are concurrent writers.
- React scheduling. Re-rendering, the order in which effects run, `setInterval` timing and
  `clearInterval` are not modelled. Each effect, tick and action is one atomic method,
  the order in which they are called stands in for React's, and `Timer.Scheduled` stands
  in for the interval's existence.
- Effect 3's dependency on `backend` means it re-runs after every render. This is implied
  by calling `TickEffect` between ticks, not modelled as such.
- TimerHook.Timer.TickEffect: reads the timer's current fields, not the values of the render
  it belongs to. When a solo countdown expires, the source sets `localTime` to 0 and then,
  one render later, back to the full duration. The model skips that intermediate state;
  the state at the end is the same (`TimerHook.ExpireSoloCountdown`).
- TimerHook.Timer.Tick: the order between the `onComplete` call and the write of the same
  tick is not recorded, because the two go to separate logs.
- localStorage and JSON. Reading and writing settings and tasks (app/hooks/useTimer.js:12-24,
  174; app/components/TaskList.js:11-18) are not modelled. The saved table is a constructor
  parameter of `Timer`. A failed parse is `None`.
- Audio playback (app/hooks/useTimer.js:106) is a side effect with swallowed errors and is
  not modelled.
- Dates. `new Date(...).getTime()`, `toISOString` and `created_at` are not modelled.
  Timestamps are integer milliseconds, and the deadline is stored as that integer.
- Randomness. `Math.random().toString(36)` is the string parameter `raw` of the
  `SessionClient` constructor and of `CreateSession`.
- Floating point. `parseInt` on very long digit strings loses precision in JavaScript;
  the model reads them exactly. `String(n)` switches to exponent notation from 1e21 on;
  the model always prints digits.
- `Text.Upper` upper-cases ASCII letters only, not the rest of Unicode. `Text.IsSpace`
  follows the white-space and line-terminator set that `\s` and `trim` use.
- Settings order. The mode table is a map, so the order of `Object.entries` is not
  modelled. The rows of `SettingsModal.Render` are a map from key to shown minutes.
- A missing mode key. `modes[m].time` on a key that is absent throws in the source. The
  model requires the key (`Timer.ChangeMode`, `Timer.UpdateSettings`,
  `Timer.SyncWithLocalSettings`, the `Timer` constructor). `SettingsModal.WithMinutes`
  requires the key because the inputs are rendered from the table's own keys.
- Non-numeric record fields. `status` values other than `'running'` read as paused, and a
  missing `mode` is the empty string.
- The session's `error` display, the join dialog, the header's copy-to-clipboard and the
  page composition (app/page.tsx, app/components/Header.js, app/components/JoinModal.tsx)
  hold no logic beyond wiring. `onComplete` is a flag because the page passes none.
- Focus handling and the auto-focus effect of the quick-add dialog
  (app/components/QuickAddModal.js:9-13) are DOM handling and are not modelled.
- Statistics, day rollover and duration validation are not in the code, so they are not
  modelled.
