# Korean Wordle: statistics dialog and keyboard capture, in Dafny

This project models two pieces of logic from a Korean-language Wordle game.

- The **statistics dialog** (`StatisticsModal`). It derives its figures from a stored statistics record and the saved game:
  - the number of wins and of games played;
  - the rounded win percentage;
  - the largest bucket of the guess distribution;
  - the distribution row to highlight, which is the first all-correct evaluation;
  - the `HH:MM:SS` countdown to the next daily puzzle, due at noon or midnight;
  - the reset, which applies to battle mode only.

  The dialog's React state is modelled as the class `StatisticsDialog`. Its methods are the effect that runs when the dialog opens or closes, one tick of the countdown interval, and the reset button.
- The **keyboard capture** (`GameKeyboardInput`). It maps a physical key code and the letters typed so far to at most one callback: submit, delete, or type one jamo from a fixed 26-key table.

Files:
- `wrappers.dfy`: `Option`, used for the record fields that may be absent.
- `number_text.dfy`: JavaScript's `toString()` and `padStart` on non-negative integers, plus a decimal reading that turns the text back into a number.
- `statistics_modal.dfy`: the statistics record, the figures derived from it, the countdown, the reset, and the dialog class.
- `game_keyboard_input.dfy`: the key table and `onKeyDown`.

The record's `success` field is keyed by attempt index. The model holds it as a sequence indexed by key, with `None` where the record has no entry. `Object.values` reads the present counts in key order, and bar i reads `success[i] ?? 0` by key, so a record with a gap is shown as the source shows it.

`LETTER_COUNT` (5) and `ROW_COUNT` (6) are imported by the source from a constants module. That module is not part of this model, so the game's values appear here as named constants.

## Model

| member | source | states |
|---|---|---|
| `StatisticsModal.Values` | src/components/modals/StatisticsModal.tsx:108 | `Object.values(success)` holds every count the record has, and nothing else. It is empty exactly when the record has no bucket |
| `StatisticsModal.ValuesCounts` | src/components/modals/StatisticsModal.tsx:108 | `Object.values(success)` holds each present count exactly as often as keys hold it (the multiset `PresentCounts`), so no repeated count is lost |
| `StatisticsModal.Sum` | src/components/modals/StatisticsModal.tsx:108 | The `reduce` total bounds every element, and it is 0 exactly when every element is 0 |
| `StatisticsModal.SumAppend` | src/components/modals/StatisticsModal.tsx:108 | The `reduce` total of a one-element list is that element, and totals add over concatenation, so it is the sum and not, say, the maximum |
| `StatisticsModal.SumOfValues` | src/components/modals/StatisticsModal.tsx:108 | Summing `Object.values(success)` gives `KeyedSum`, the total of the bars' `success[i] ?? 0` taken key by key, so absent keys add nothing and repeated counts all count |
| `StatisticsModal.WinCount` | src/components/modals/StatisticsModal.tsx:104-112 | In battle, wins are `win ?? 0`. Otherwise they are `KeyedSum(success)`, the total of every bucket `success[i] ?? 0`, so they bound every bucket and are 0 exactly when every bucket is 0 |
| `StatisticsModal.Played` | src/components/modals/StatisticsModal.tsx:114-126 | Games played are `win + fail + draw` in battle, with absent values counted as 0, and `fail + wins` otherwise. They are never fewer than the wins or the losses |
| `StatisticsModal.NothingPlayed` | src/components/modals/StatisticsModal.tsx:114-126 | Nothing was played exactly when the record counts no game. In battle that means win, fail and draw are all 0. Otherwise fail is 0 and every bucket is 0 |
| `StatisticsModal.RoundHalfUp` | src/components/modals/StatisticsModal.tsx:133 | The result r is Math.round(n/d): r ≤ n/d + 1/2 < r + 1 |
| `StatisticsModal.WinRate` | src/components/modals/StatisticsModal.tsx:128-134 | The rate is in 0..100. It is 0 when nothing was played, and otherwise the integer nearest 100·wins/played, with halves rounded up |
| `StatisticsModal.WinRateBounds` | src/components/modals/StatisticsModal.tsx:128-134 | The rate is 100 when every game played was won, and 0 when none was |
| `StatisticsModal.PercentBounds` | src/components/modals/StatisticsModal.tsx:133 | round(100·w/p) for w ≤ p lies in 0..100; it is 100 when w = p and 0 when w = 0 |
| `StatisticsModal.Max` | src/components/modals/StatisticsModal.tsx:137 | Math.max of a list is -Infinity exactly for the empty list. Otherwise it is at least every element and equals one of them |
| `StatisticsModal.MaxSuccess` | src/components/modals/StatisticsModal.tsx:136-138 | The largest bucket is -Infinity exactly when the record has no bucket. Otherwise it is at least every `success[i] ?? 0` and is the count of some bucket |
| `StatisticsModal.IndexOf` | src/components/modals/StatisticsModal.tsx:68 | indexOf is -1 exactly when the string is absent. Otherwise it is the position of an occurrence with none before it |
| `StatisticsModal.LastWinRow` | src/components/modals/StatisticsModal.tsx:68 | The row is -1 exactly when no evaluation is `"sssss"`. Otherwise it is the first `"sssss"` row |
| `StatisticsModal.DistributionBars` | src/components/modals/StatisticsModal.tsx:234-243 | There are ROW_COUNT bars captioned 1..ROW_COUNT, and bar i shows `success[i] ?? 0`. Exactly the bar `lastWinRow` is marked `last`, and none when that row is -1 or off the chart |
| `StatisticsModal.MarkedBarIsWinningRow` | src/components/modals/StatisticsModal.tsx:234-243 | A marked bar is the row of the saved game's first `"sssss"` evaluation. If such an evaluation falls within the chart, exactly one bar is marked |
| `StatisticsModal.BarLabelsWithinMax` | src/components/modals/StatisticsModal.tsx:234-243 | No bar shows more than the largest bucket. When the record has no bucket, every bar shows 0 |
| `StatisticsModal.NextPuzzleAt` | src/components/modals/StatisticsModal.tsx:72-78 | The target is a noon or a midnight after now and at most 12 hours away, so it is the first one after now |
| `StatisticsModal.CountdownFields` | src/components/modals/StatisticsModal.tsx:80-88 | Minutes and seconds are below 60, and hours·3600 + minutes·60 + seconds is the whole number of seconds remaining |
| `StatisticsModal.CountdownAt` | src/components/modals/StatisticsModal.tsx:73-88 | The countdown is the seconds remaining until the next puzzle. Hours are at most 12, minutes and seconds are below 60, and 12 hours comes with 0 minutes and 0 seconds |
| `StatisticsModal.CountdownText` | src/components/modals/StatisticsModal.tsx:90-94 | With every field below 100, the text has 8 characters, with colons at positions 2 and 5 |
| `StatisticsModal.CountdownTextRoundTrip` | src/components/modals/StatisticsModal.tsx:90-94 | For hours < 100 the three two-digit fields of the text read back as hours, minutes and seconds |
| `StatisticsModal.NextTimeText` | src/components/modals/StatisticsModal.tsx:71-95 | At any time of day the text shown is a zero-padded `HH:MM:SS` with HH ≤ 12, MM < 60 and SS < 60 |
| `StatisticsModal.ResetRecord` | src/components/modals/StatisticsModal.tsx:156-163 | Outside battle the record is unchanged. A battle reset leaves games played, the win rate, the streaks and every bucket at 0 |
| `StatisticsModal.ResetClearsBattleOnly` | src/components/modals/StatisticsModal.tsx:156-163 | After a battle reset the largest bucket is 0 and every bar shows 0. Resetting twice is the same as resetting once |
| `StatisticsModal.StatisticsDialog.constructor` | src/components/modals/StatisticsModal.tsx:51-56 | The initial state: initial record, not finished, empty countdown text, last win row -1, no interval |
| `StatisticsModal.StatisticsDialog.Show` | src/components/modals/StatisticsModal.tsx:62-98 | The effect for an open dialog takes the current game type and loads that type's record. It sets lastWinRow to the first `"sssss"` row and isFinish to state == "FINISH". The countdown starts only for a finished NORMAL game |
| `StatisticsModal.StatisticsDialog.Hide` | src/components/modals/StatisticsModal.tsx:99-101 | The effect for a closed dialog takes the current game type and clears the countdown interval. Nothing else changes |
| `StatisticsModal.StatisticsDialog.Tick` | src/components/modals/StatisticsModal.tsx:71-95 | One tick sets the shown text to the countdown text for the supplied time of day |
| `StatisticsModal.StatisticsDialog.OnClickReset` | src/components/modals/StatisticsModal.tsx:156-163 | In battle mode the record is set to the initial one and saved under the game type. Otherwise neither the record nor storage changes |
| `NumberText.NatToString` | src/components/modals/StatisticsModal.tsx:91-93 | toString gives one or more decimal digits, with no leading zero except for 0. It is one digit exactly below 10 |
| `NumberText.NatToStringValue` | src/components/modals/StatisticsModal.tsx:91-93 | The digits of toString read back as the number |
| `NumberText.PadStart` | src/components/modals/StatisticsModal.tsx:91-93 | padStart gives at least `width` characters: fill characters first, then the original string |
| `NumberText.TwoDigitRoundTrip` | src/components/modals/StatisticsModal.tsx:90-94 | `n.toString().padStart(2, "0")` is all digits, reads back as n, and has exactly 2 characters below 100 |
| `GameKeyboardInput.OnKeyDown` | src/GameKeyboardInput.tsx:24-67 | Enter submits if and only if the length is LETTER_COUNT. Backspace deletes if and only if there is at least one letter. Any other code types `code[key]` exactly when it is in the table. Everything else does nothing |
| `GameKeyboardInput.JamoFor` | src/GameKeyboardInput.tsx:34-63 | `code[e.code]` (table `KEY_JAMO`) finds a jamo exactly for the 26 table keys. The jamo is one of the listed consonants or vowels and never a shifted jamo. The reverse layout maps it back to the key |
| `GameKeyboardInput.OnlyLengthMatters` | src/GameKeyboardInput.tsx:24-67 | The action depends on the letters typed only through their number |
| `GameKeyboardInput.NumpadEnterIgnored` | src/GameKeyboardInput.tsx:33-66 | NumpadEnter falls through to the table and does nothing |
| `GameKeyboardInput.TableRoundTrip` | src/GameKeyboardInput.tsx:34-61 | The two-set layout's reverse lookup takes each table jamo back to its key |
| `GameKeyboardInput.TableInjective` | src/GameKeyboardInput.tsx:34-61 | Distinct key codes type distinct jamo |
| `GameKeyboardInput.TableShape` | src/GameKeyboardInput.tsx:34-61 | The table `KEY_JAMO` has 26 keys. Its jamo are exactly 14 consonants and 12 vowels of the Compatibility Jamo block |
| `GameKeyboardInput.NoShiftedJamo` | src/GameKeyboardInput.tsx:34-61 | No key types ㄲ ㄸ ㅃ ㅆ ㅉ ㅒ or ㅖ |
| `GameKeyboardInput.TypedLetterIsBasicJamo` | src/GameKeyboardInput.tsx:33-66 | A typed letter is one of the table's consonants or vowels, as the Unicode ranges classify it, and never a shifted jamo |

## Left out

- Hangul syllable composition, guess scoring and the statistics update after a finished game are not part of this model: they live in other modules of the game.
- Rendering is left out: JSX, icons, and the modal, progress-bar and button markup. So are the Redux selectors and `dispatch`, `history.push`, and the `syncFromGameData` and `initGameData` calls on the play-again path.
- `getStatisticsData`, `getGameDataFromLS`, `saveStatisticsData` and `initStatisticsData` are not part of this model. The record and the saved game are parameters of `Show`. Storage is the `saved` map that `OnClickReset` writes. The initial record is taken to have ROW_COUNT buckets at 0, zero counts and no `win`/`draw`.
- `window.confirm` is left out: `OnClickReset` models a reset the user has already confirmed.
- Timers are left out. `setInterval` and `clearInterval` become the `countdownRunning` flag, and the interval's ticks are calls to `Tick`. The 100 ms focus polling of the keyboard element is not modelled.
- `moment()` wall-clock reads are left out. The countdown takes a caller-supplied local time of day in milliseconds and assumes a 24-hour day, so daylight-saving days are not modelled.
- NextPuzzleAt: reads the clock once. The source reads it separately for "now" (tsx:72) and for the target (tsx:77). If the second read falls just past midnight while the first was 23:59:59.999, the source's target moves a day later and its text reads `24:00:00`. The model, with one instant, never shows more than `12:00:00`.
- RoundHalfUp: computes the exact rational `round(100·w/p)`. The source rounds the floating-point value `w / p * 100`, which can land just below an exact half.
- The progress bar's percentage `success[i] / maxSuccess * 100` is left out. It is floating point, and NaN when every bucket is 0.
- The unreachable `return 0` after each branch of the `winCount` and `played` memos is left out.
- The memos list `statisticsData` but not `gameType` as a dependency. The model recomputes every figure from the current game type, which `Show` and `Hide` take from the effect that re-runs whenever the game type changes.
- OnKeyDown: treats the table as a plain map from key codes. JavaScript object lookup would also find inherited names such as `constructor`, but browsers never send those as key codes. The callback argument, a one-jamo string, is modelled as that one character.
- Keys of `success` other than non-negative integers are not modelled. `Object.values` would include them in the sum and the maximum, but no bar reads them.
- Show: `countdownRunning` is one flag, so the model cannot keep a countdown alive after `Hide`. In the source, a second `Show` while the dialog is open (Normal, then Infinite, then Normal again) starts a new interval and overwrites the stored id. `clearInterval` at tsx:100 then clears only the last id, and the earlier interval keeps updating `nextTime` after the dialog closes. The model's `Tick` requires `countdownRunning`, so it allows no tick after `Hide`.
