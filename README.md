# Ping-pong scorer, modelled in Dafny

The scorer is a single-screen table-tennis scoreboard: two editable player
names, two score counters with plus and minus buttons, a match clock with
play/pause and reset, a new-game button, and a winner that is derived from
the scores once either player reaches eleven points. All of it is the local
state of one view component and the handlers that update it.

This project models that component:

- `Scoring` (scoring.dfy): the winner rule, `Winner(score1, score2)`.
- `TimeFormat` (time_format.dfy): the clock display `FormatTime`, built
  from the hours/minutes/seconds split `Fields`, decimal printing `Show` and
  two-digit left padding `Pad2`, together with an inverse `ParseTime` that
  reads a display back into seconds.
- `PingPongScorer` (ping_pong_scorer.dfy): the component state as a value
  `State`, every handler as an `Event`, their effect as `Step`, and event
  sequences as `Run`. The class `Scoreboard` holds the same state in mutable
  fields, with one method per handler; each method is proved to change the
  fields exactly as `Step` says, and to keep both scores non-negative.
- `Wrappers` (wrappers.dfy): the `Option` type used for "no winner" and for
  a string that is not a clock display.

The one-second timer is modelled by its effect only: the event `Tick` is a
second of wall-clock time passing. It advances the clock when the timer is
installed (the clock is running) and changes nothing otherwise. The class
method `Tick` is the interval callback itself, so it may only be called
while the clock runs.

## Model

| member | source | states |
|---|---|---|
| `Scoring.Winner` | app/page.tsx:42-49 | player 1 wins exactly when they have at least 11 and lead, player 2 likewise; no winner exactly when both are below 11 or the scores are tied |
| `Scoring.NoWinnerBelowThreshold` | app/page.tsx:42-49 | with both scores below 11 there is no winner |
| `Scoring.WinnerHasReachedThreshold` | app/page.tsx:42-49 | a declared winner has at least 11 points and strictly more than the other player |
| `Scoring.WinnerSymmetric` | app/page.tsx:42-49 | swapping the scores swaps the winner; the rule favours neither side |
| `Scoring.WinnerExamples` | app/page.tsx:42-49 | 11-9 gives player 1, 9-11 gives player 2, 11-11 and 10-10 give no winner, 12-11 gives player 1 (no two-point margin) |
| `TimeFormat.Show` | app/page.tsx:32 | the decimal text of a whole number is non-empty, all digits, has no leading zero, and has one digit exactly below 10 and at most two exactly below 100 |
| `TimeFormat.ValueOfShow` | app/page.tsx:32 | reading the decimal text back gives the number |
| `TimeFormat.Pad2` | app/page.tsx:32 | padding yields at least two characters, ends with the original text and adds only '0's in front |
| `TimeFormat.ValueOfPad2` | app/page.tsx:32 | padding a number's digits keeps their value |
| `TimeFormat.Field` | app/page.tsx:32 | one padded field is all digits and is exactly two characters long when the number is below 100 |
| `TimeFormat.ValueOfField` | app/page.tsx:32 | one padded field denotes its number |
| `TimeFormat.Fields` | app/page.tsx:29-31 | the split into hours, minutes and seconds has minutes and seconds below 60 and adds back up to the elapsed seconds |
| `TimeFormat.FieldsUnique` | app/page.tsx:29-31 | that split is the only one with minutes and seconds below 60 |
| `TimeFormat.Join3` | app/page.tsx:32 | three fields joined with ':' have the first field before the sixth-last place, the second between the two separators, and the third after the last one |
| `TimeFormat.Display` | app/page.tsx:32 | the joined fields have ':' three and six places from the end and are eight characters long exactly when the hours are below 100 |
| `TimeFormat.FormatTime` | app/page.tsx:28-33 | the display has the hh:mm:ss shape, and is eight characters long exactly below 360000 seconds (longer hours are not cut) |
| `TimeFormat.FormatTimeOfSplit` | app/page.tsx:28-33 | the display of any time is its padded hours, minutes and seconds, in the unique split with minutes and seconds below 60, joined with ':', so by `Join3` each slice of the display is the padded field |
| `TimeFormat.ParseTimeRejectsOutOfRange` | app/page.tsx:29-31 | a text whose minutes or seconds field is 60 or more, such as "00:00:99" or "00:60:00", is not a display |
| `TimeFormat.ParseDisplay` | app/page.tsx:32 | reading a display back gives hours*3600 + minutes*60 + seconds |
| `TimeFormat.ParseFormatRoundTrip` | app/page.tsx:28-33 | reading back the display of any elapsed time gives that time; since reading back rejects minutes or seconds of 60 or more, the display never shows such a field |
| `TimeFormat.FormatTimeInjective` | app/page.tsx:28-33 | two different elapsed times never show the same display |
| `TimeFormat.FormatTimeZero` | app/page.tsx:28-33 | 0 seconds shows as "00:00:00" |
| `TimeFormat.FormatTimeOneOfEach` | app/page.tsx:28-33 | 3661 seconds shows as "01:01:01" |
| `TimeFormat.FormatTimeHundredHours` | app/page.tsx:28-33 | 360000 seconds shows as "100:00:00" |
| `PingPongScorer.Decremented` | app/page.tsx:99 | a decremented score is one less when positive, zero otherwise, and never negative |
| `PingPongScorer.Step` | app/page.tsx:99-107 | no single event makes a score negative |
| `PingPongScorer.DecrementClamps` | app/page.tsx:149 | decrementing gives max(0, score - 1) for that player, keeps a zero score at zero, and changes nothing else |
| `PingPongScorer.IncrementAddsOne` | app/page.tsx:157 | incrementing adds exactly one to that player's score, with no cap, and changes nothing else |
| `PingPongScorer.IncrementDecrementInverse` | app/page.tsx:99-107 | a decrement undoes an increment, and an increment undoes a decrement from a positive score |
| `PingPongScorer.ResetGameKeepsNames` | app/page.tsx:35-40 | a new game zeroes both scores and the clock and stops it, keeps both names and the edit flag, leaves no winner, and is idempotent |
| `PingPongScorer.ToggleClockFlips` | app/page.tsx:59 | play/pause flips the running flag only, and two presses cancel out |
| `PingPongScorer.ResetTimeKeepsRunning` | app/page.tsx:65 | resetting the clock zeroes the time and keeps the running flag and everything else |
| `PingPongScorer.TimeAdvancesOnlyWhileRunning` | app/page.tsx:18-26 | the time grows only through a tick on a running clock, by exactly one, and shrinks only through a reset, to zero |
| `PingPongScorer.NamesChangeOnlyBySetName` | app/page.tsx:131 | only a name edit changes a name, and it changes only that player's name and nothing else |
| `PingPongScorer.EditingSetsFlagOnly` | app/page.tsx:83-88 | clicking a name sets the shared edit flag and blur or Enter clears it; neither changes anything else, and repeating either changes nothing |
| `PingPongScorer.InitialState` | app/page.tsx:10-16 | the mounted state is valid, stopped and not editing, and already shows player 2 as the winner |
| `PingPongScorer.RunKeepsScoresNonNegative` | app/page.tsx:149-157 | no sequence of events from a valid state makes a score negative |
| `PingPongScorer.RunKeepsNames` | app/page.tsx:35-40 | a sequence of events without name edits, new games included, keeps both names |
| `PingPongScorer.TicksWhileRunning` | app/page.tsx:18-26 | n seconds on a running clock add exactly n to the time and change nothing else |
| `PingPongScorer.TicksWhileStopped` | app/page.tsx:18-26 | time passing on a stopped clock changes nothing |
| `PingPongScorer.ClockScenario` | app/page.tsx:18-26 | from a stopped clock at zero: start, three seconds, stop, any further time: the clock reads 3 |
| `PingPongScorer.Scoreboard.constructor` | app/page.tsx:10-49 | mounting gives scores 9 and 11, names "Player 1" and "Player 2", time 0, stopped, not editing, and the derived winner is player 2 |
| `PingPongScorer.Scoreboard.IncrementScore` | app/page.tsx:107 | the plus button moves the fields as `Step` does for an increment and keeps the scores non-negative |
| `PingPongScorer.Scoreboard.DecrementScore` | app/page.tsx:99 | the minus button moves the fields as `Step` does for a clamped decrement and keeps the scores non-negative |
| `PingPongScorer.Scoreboard.ToggleClock` | app/page.tsx:59 | play/pause moves the fields as `Step` does for a toggle |
| `PingPongScorer.Scoreboard.ResetTime` | app/page.tsx:65 | the reset-time button moves the fields as `Step` does for a clock reset |
| `PingPongScorer.Scoreboard.ResetGame` | app/page.tsx:35-40 | a new game moves the fields as `Step` does for a reset |
| `PingPongScorer.Scoreboard.Tick` | app/page.tsx:21-23 | the interval callback, called only while running, adds one second |
| `PingPongScorer.Scoreboard.SetName` | app/page.tsx:81 | typing in a name field replaces that player's name only |
| `PingPongScorer.Scoreboard.StartEditing` | app/page.tsx:88 | clicking a name sets the shared edit flag |
| `PingPongScorer.Scoreboard.StopEditing` | app/page.tsx:83-84 | blur or Enter in a name field clears the shared edit flag |

## Left out

- Rendering: the markup, styles, icons, the crown over the leading side, the centre score summary and the winner overlay are presentation and change no state.
- The winner overlay covers the whole screen, so while a winner is shown only its new-game button and the running clock can act; the model lets every event happen in every state.
- The name fields exist only while editing, and the name labels only while not editing; `SetName`, `StartEditing` and `StopEditing` are modelled without those guards, which only makes the model more permissive.
- Installing and clearing the interval (`setInterval`/`clearInterval`, the effect cleanup) is host scheduling; only its effect is modelled, as `Tick`.
- React's batching and re-render timing, and handlers reading the rendered value of a score, are not modelled: each handler reads the current state, one event at a time.
- The Settings button has no handler and the control labels are fixed display strings.
- Keyboard and focus details (which key, blur, auto-focus) appear only as "leaving edit mode clears the flag".
- The button, card and input components and the icon set are library code that is not part of this model.
- Scores and elapsed seconds are unbounded integers; the source's JavaScript numbers are exact only up to 2^53, which a scoreboard never reaches.
- TimeFormat.Show: prints plain decimal digits for every whole number; the source's number-to-string switches to exponent notation from 10^21 on, far beyond any match length.
- Edit mode is one flag shared by both name fields, as in the source; the model keeps that one flag.
