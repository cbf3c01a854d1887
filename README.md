# Jigsaw Puzzle Challenge: a verified model of the game logic

This project models the gameplay of a browser jigsaw game in Dafny. A player
enters a name and plays five levels in order. Each level is a 3 by 3 puzzle of
100-pixel pieces with a 30-second countdown. The player drags pieces from a
holding area onto the board, or taps them into place on a phone, and then
submits. A level ends in one of two ways:

- the timer runs out, and the level is recorded as not completed;
- the player submits a full board, and the level is recorded as completed
  only when every piece stands on its home slot.

A completed level scores by speed. After the fifth level the session totals
are merged into a profile kept in browser storage.

The model has one module per source file:

| module | models |
|---|---|
| `Types`, `GameLevels` | the record shapes and the constants |
| `Pieces` | piece-list filters and updates shared by several components |
| `Text` | the JavaScript number-to-string, `padStart`, `%` and `trim` the game relies on |
| `Arithmetic` | division facts |
| `App` | the session state machine, as the class `App.GameApp` |
| `AppScenarios` | whole sessions driven through its events |

Components that only compute a value are modelled as functions. Their
callbacks become returned values: an `Option` that is `None` when no update
is emitted, or an outcome datatype.

Stateful parts are classes whose methods assign their fields:

- the session, as `App.GameApp`;
- the countdown, as `Timer.Countdown`;
- the profile storage slot, as `UserProfiles.ProfileStore`.

Two source loops keep their imperative form: the nested generation loop and
the in-place Fisher-Yates shuffle. Each is proved against a specification
function.

## Model

| member | source | states |
|---|---|---|
| Scoring.CalculateScore | src/utils/scoring.ts:3-12 | The score is 120 up to 5 s, 125 − t from 6 to 10 s, and max(0, 105 − t) after 10 s. It always lies in [0, 120]. |
| Scoring.ScoreNonIncreasing | src/utils/scoring.ts:7-10 | Taking longer never scores more. |
| Scoring.ScoreSamples | src/utils/scoring.ts:6-11 | Sample values: 0 s and 5 s give 120, 8 s gives 117, 10 s gives 115 and 11 s gives 94, so the bonus is lost after 10 s. 105 s and 1000 s give 0. |
| Scoring.TotalScoreAppend | src/utils/scoring.ts:14-16 | The total score of no results is 0. Appending a result adds its score. |
| Scoring.TotalTimeAppend | src/utils/scoring.ts:18-20 | The total time of no results is 0. Appending a result adds its time. |
| Scoring.TotalScoreBounds | src/utils/scoring.ts:14-16 | When each score is in [0, 120], the total is in [0, 120 × number of results]. |
| Scoring.GetScoreGrade | src/utils/scoring.ts:22-29 | Each grade holds exactly on its band: A+ from 90, A from 80, B from 70, C from 60, D from 50, F below 50. |
| Scoring.GradeMonotone | src/utils/scoring.ts:22-29 | A higher score never gets a lower grade. |
| PuzzleUtils.PieceIdInjective | src/utils/puzzleUtils.ts:9 | Two cells get the same `piece-<row>-<col>` id only if they are the same cell. |
| PuzzleUtils.GridPieceAtCell | src/utils/puzzleUtils.ts:7-31 | Cell (row, col) is generated at index row·cols + col, with its id, home = image offset = (col·size, row·size), size × size, unplaced and unselected. |
| PuzzleUtils.GridIndexIsCell | src/utils/puzzleUtils.ts:7-31 | Every generated index holds the piece of a cell inside the grid. |
| PuzzleUtils.CellPiecesDistinct | src/utils/puzzleUtils.ts:9-13 | Pieces of two different cells differ in id and, for a positive piece size, in home position. |
| PuzzleUtils.GridPiecesDistinct | src/utils/puzzleUtils.ts:9-30 | Generated ids are unique, and every piece is fresh. For a positive piece size, home positions are pairwise distinct. |
| PuzzleUtils.ShuffleFromPermutes | src/utils/puzzleUtils.ts:41-44 | The swap steps from any index down to 1 keep the multiset of elements. |
| PuzzleUtils.ShufflePermutes | src/utils/puzzleUtils.ts:39-46 | The whole shuffle keeps the length and is a permutation of its input. |
| PuzzleUtils.ShuffleKeepsDistinct | src/utils/puzzleUtils.ts:41-44 | Swapping keeps distinct keys distinct. |
| PuzzleUtils.ShuffleKeepsIdsAndHomes | src/utils/puzzleUtils.ts:39-46 | A shuffled piece list keeps unique ids and distinct home positions. |
| PuzzleUtils.CopyToArray | src/utils/puzzleUtils.ts:40 | The copy is a fresh array with the input's contents, so the caller's list is never reordered. |
| PuzzleUtils.SwapInPlace | src/utils/puzzleUtils.ts:43 | The array afterwards is the old contents with positions i and j exchanged. |
| PuzzleUtils.ShuffleArray | src/utils/puzzleUtils.ts:39-46 | The in-place Fisher-Yates loop on a copy of the array, from the last index down to 1, gives exactly the specification `Shuffle`, a permutation of the input. |
| PuzzleUtils.GeneratePuzzlePieces | src/utils/puzzleUtils.ts:3-37 | The result is the row-by-row grid, shuffled: rows × cols pieces, the same multiset, unique ids, distinct homes when size > 0, and every piece fresh. |
| PuzzleUtils.CheckPuzzleComplete | src/utils/puzzleUtils.ts:48-50 | True iff the holding area is empty, iff every piece is placed. True on no pieces. |
| PuzzleUtils.CheckPuzzleCorrectness | src/utils/puzzleUtils.ts:52-62 | False when any piece is unplaced. True iff every piece is placed and on its home. Implies `CheckPuzzleComplete`. |
| PuzzleUtils.CorrectBoardHasNoSharedSlots | src/utils/puzzleUtils.ts:52-62 | A correct board of pieces with distinct homes has no two pieces on one position. |
| PuzzleUtils.GetPuzzleDifficulty | src/utils/puzzleUtils.ts:64-72 | Easy iff rows·cols ≤ 9. Medium iff 9 < rows·cols ≤ 25. Hard iff rows·cols > 25. |
| PuzzleUtils.DifficultyMonotone | src/utils/puzzleUtils.ts:64-72 | More pieces never give an easier difficulty. |
| Pieces.PlacedUnplacedPartition | src/components/MobilePieceSelector.tsx:22-23 | The placed and unplaced lists together hold every piece exactly as often as the list does. |
| Pieces.UnplacedEmptyIffAllPlaced | src/components/GameControls.tsx:201-202 | The holding area is empty iff every piece is placed. |
| Pieces.ToggleSelection | src/components/PuzzleBoard.tsx:97-102 | Choosing the selected piece clears the selection; choosing any other piece selects it. The holding area (GameControls.tsx:208) and the tap panel use the same toggle. |
| Pieces.ToggleTwice | src/components/MobilePieceSelector.tsx:25-31 | Tapping one piece twice ends with nothing selected, unless it started selected. |
| Pieces.MoveWhereKeepsSkeleton | src/components/PuzzleBoard.tsx:72-74 | A move changes only x, y and isPlaced, and keeps ids unique. |
| PuzzleBoard.CellAtContainsPoint | src/components/PuzzleBoard.tsx:50-51 | The floored cell is (row, col) exactly when the pointer lies in that cell's square, negative positions included. |
| PuzzleBoard.Drop | src/components/PuzzleBoard.tsx:31-94 | An emitted update needs a piece with that id. It keeps every other piece unchanged and changes only position and placement. |
| PuzzleBoard.DropMissingInputIsNoop | src/components/PuzzleBoard.tsx:32-47 | No update is emitted when the offset, the board rectangle, the pointer or the piece is missing. |
| PuzzleBoard.DropInsideGrid | src/components/PuzzleBoard.tsx:54-79 | A drop over a grid cell is refused iff another placed piece stands on the cell's slot. When accepted, the piece moves onto that slot, placed, and nothing else changes. |
| PuzzleBoard.DropOutsideGrid | src/components/PuzzleBoard.tsx:80-92 | A pointer left of, above, right of or below the grid sends the piece to (50, 50), unplaced, and an update is always emitted. |
| PuzzleBoard.DropKeepsNoSharedSlots | src/components/PuzzleBoard.tsx:65-92 | With unique ids, a drop keeps ids unique and never puts two placed pieces on one position. |
| PuzzleBoard.ReDropOnOwnSlot | src/components/PuzzleBoard.tsx:65-75 | Re-dropping a placed piece on its own slot is accepted and emits the unchanged list. |
| GameControls.HoldingDrop | src/components/GameControls.tsx:39-50 | There is no update iff the offset is missing. Otherwise the piece with that id goes to (50, 50) unplaced and the others are unchanged; the update is emitted even when no piece has the id. |
| GameControls.HoldingDropMatchesBoardOutside | src/components/GameControls.tsx:44-48 | The holding area gives the same list as a board drop outside the grid. |
| GameControls.HoldingDropKeepsNoSharedSlots | src/components/GameControls.tsx:44-48 | A holding drop keeps ids unique and placed positions distinct. |
| GameControls.HandleDifficultyChange | src/components/GameControls.tsx:53-65 | Keeps the image and sets the difficulty. The grid is square with a positive piece size, and the board is at most 360 px. |
| GameControls.PresetDifficultyRoundTrip | src/components/GameControls.tsx:53-65 | `getPuzzleDifficulty` of the preset grid gives back the chosen difficulty. |
| GameControls.PresetsGrowWithDifficulty | src/components/GameControls.tsx:54-58 | A harder preset has more pieces, and smaller ones. |
| GameControls.HandleCustomImageSubmit | src/components/GameControls.tsx:82-90 | A blank URL changes nothing. Otherwise the image becomes the trimmed URL, which is non-empty and stable under trimming, and the field is cleared. |
| GameControls.HoldingAreaPieces | src/components/GameControls.tsx:201-208 | Shows exactly the unplaced pieces; it is empty iff every piece is placed. |
| Text.Trim | src/components/GameControls.tsx:83 | The trim is a slice of the input with only whitespace removed around it. It is empty iff the input is all whitespace, and it does not start or end with whitespace. |
| MobilePieceSelector.FindAt | src/components/MobilePieceSelector.tsx:46-48 | Finds the first piece at the position, or none iff no piece stands there. |
| MobilePieceSelector.HandleSlotTap | src/components/MobilePieceSelector.tsx:33-54 | A placement needs a truthy selection and targets the tapped slot. A removal needs no selection. |
| MobilePieceSelector.SlotTapWithSelection | src/components/MobilePieceSelector.tsx:34-43 | With a selection, the tap places iff no placed piece stands on the slot, and does nothing iff one does. |
| MobilePieceSelector.SlotTapWithoutSelection | src/components/MobilePieceSelector.tsx:44-53 | Without a selection, the tap does nothing iff the slot is empty. Otherwise it removes the first placed piece found on the slot. |
| MobilePieceSelector.TapPlacementPassesBoardCheck | src/components/MobilePieceSelector.tsx:36-43 | Any placement a tap requests would pass the board's occupancy check. |
| MobilePieceSelector.TapRefusesOwnSlot | src/components/MobilePieceSelector.tsx:36-38 | A selected piece on the tapped slot blocks the tap, although the board would accept that drop. |
| MobilePieceSelector.SlotCellRoundTrip | src/components/MobilePieceSelector.tsx:56-58 | Slot (row, col) has coordinates that the board maps back to cell (row, col). |
| Timer.TickValue | src/components/Timer.tsx:22-28 | A tick from t ≥ 1 leaves a smaller non-negative value. A tick from t ≤ 1 leaves 0. |
| Timer.AfterTicksValue | src/components/Timer.tsx:21-29 | After k ticks from t, the timer shows t − k, or 0 once k ≥ t. |
| Timer.FiresFromTickTimeLimit | src/components/Timer.tsx:22-28 | From a limit ≥ 1, tick k + 1 calls time-up iff k + 1 ≥ limit. So the first call is on tick `timeLimit`, and every later active tick calls it again. |
| Timer.CriticalIsWarning | src/components/Timer.tsx:41-42 | Critical implies warning. Warning but not critical means 5 < t ≤ 10. |
| Timer.Countdown.constructor | src/components/Timer.tsx:16 | The timer starts at the limit. |
| Timer.Countdown.Tick | src/components/Timer.tsx:18-32 | Inactive: nothing happens. Active: the value steps by `TickValue` and fires iff it was ≤ 1. 0 ≤ timeLeft ≤ timeLimit is kept. |
| Timer.Countdown.SetActive | src/components/Timer.tsx:34-38 | Becoming active resets the value to the limit. Otherwise the value is kept. The bounds are kept. |
| Timer.FirstTimeUp | src/components/Timer.tsx:16-29 | A freshly mounted active timer first fires on tick number `timeLimit`. |
| GameStats.PlacedCount | src/components/GameStats.tsx:22-24 | At most the total. Equals the total iff all pieces are placed. Placed plus unplaced is the total. |
| GameStats.CompletionPercentage | src/components/GameStats.tsx:30-33 | 0 without pieces. Otherwise the nearest integer to 100·placed/total, halves rounded up. Always in [0, 100]; 100 when all are placed, 0 when none are. |
| GameStats.RoundHalfUp | src/components/GameStats.tsx:32 | (200p + t) div 2t is the rounded percentage, within [0, 100]. |
| GameStats.PaddedClockRoundTrip | src/components/GameStats.tsx:17-19 | The padded mm:ss text reads back as m·60 + s = elapsed with s < 60, and is at least 5 characters. |
| GameStats.ElapsedTimeRoundTrip | src/components/GameStats.tsx:13-20 | Once started, the text reads back as the whole seconds from the start to the end time, or to now while running. |
| GameStats.ElapsedTimeBeforeStart | src/components/GameStats.tsx:14 | Before the start the clock shows "00:00", which reads as zero. |
| ResultScreen.CompletedLevels | src/components/ResultScreen.tsx:21-24 | At most the number of results. Equal iff every level was completed. 0 iff none was. |
| ResultScreen.FormatTimeRoundTrip | src/components/ResultScreen.tsx:26-30 | m:ss reads back as mins·60 + secs = seconds with secs < 60. |
| ResultScreen.FormatTimeInjective | src/components/UserNameInput.tsx:37-41 | Different non-negative times never format alike. The profile card uses the same formatter. |
| ResultScreen.GetScoreColor | src/components/ResultScreen.tsx:32-36 | Green iff ≥ 90, orange iff 70–89, red iff < 70. |
| ResultScreen.ColorMatchesGrade | src/components/ResultScreen.tsx:32-36 | Green is exactly grade A+. Orange is exactly grade A or B. |
| UserNameInput.HandleSubmit | src/components/UserNameInput.tsx:26-31 | The game starts iff the name is not blank, with the name trimmed (a non-empty slice without surrounding whitespace). |
| UserNameInput.SubmitIdempotent | src/components/UserNameInput.tsx:28-29 | Submitting an accepted name again gives the same name. |
| UserNameInput.PrefillName | src/components/UserNameInput.tsx:18-24 | The field holds the stored profile's name when one can be read, and "" otherwise. |
| UserNameInput.NameSurvivesAGame | src/components/UserNameInput.tsx:18-29 | After a game is saved, the next form is prefilled with the submitted name, and submitting it starts a game under that name again. |
| UserProfiles.ProfileStore.GetUserProfile | src/utils/userProfile.ts:5-15 | Gives the stored profile, or nothing when the slot is empty or unreadable. |
| UserProfiles.ProfileStore.SaveUserProfile | src/utils/userProfile.ts:17-23 | Overwrites the slot. A failed write leaves the slot unchanged. |
| UserProfiles.ProfileStore.ClearUserProfile | src/utils/userProfile.ts:58-64 | Empties the slot. A failed removal leaves it unchanged. |
| UserProfiles.MergeProfile | src/utils/userProfile.ts:42-52 | The name is replaced. Best score never decreases and is one of old/new. Best time never increases and is one of old/new. gamesPlayed counts up, or starts at 1 with the session's totals. |
| UserProfiles.UpdateUserProfile | src/utils/userProfile.ts:25-56 | Saves and returns the merge of the readable stored profile with this game's totals. |
| UserProfiles.MergeAllBest | src/utils/userProfile.ts:44-50 | After n games from an empty slot: gamesPlayed = n, the last player's name, the best score is the maximum total of those games and the best time the minimum. |
| App.TimeUsedBounds | src/App.tsx:200-204 | timeUsed is the whole seconds elapsed, or the 30 s limit when no start was recorded. |
| App.NewLevelResult | src/App.tsx:206-214 | The result records the current level and its image. Only a completed level scores, with `calculateScore`. |
| App.InitialSessionInvariant | src/App.tsx:36-45 | The initial session is not completed and satisfies the session invariant: one result per finished level, in level order, each scoring only when completed, and totals that are the sums over the results. |
| App.CompleteSessionKeepsInvariant | src/App.tsx:216-258 | Appends exactly one result, so totals grow by its score and time. Advances the level, or ends the game exactly on the last level. Keeps one result per finished level. |
| App.SessionScoreBounds | src/App.tsx:216-218 | Session total is between 0 and 120 per finished level. |
| App.FiveLevelsEndTheGame | src/App.tsx:220-254 | Completing the remaining levels, whatever each outcome, ends the game with five results and keeps the earlier ones. |
| App.DealProperties | src/App.tsx:72-85 | A level starts with nine pieces, unique ids, distinct homes, all in the holding area. |
| App.DealPieces | src/App.tsx:74 | Level pieces are the generated grid shuffled. |
| App.GameApp.constructor | src/App.tsx:36-60 | Initial session and per-level state; the latch is clear and nothing is scheduled. |
| App.GameApp.LevelInitEffect | src/App.tsx:72-85 | When level or started changed and the game is on, deals the level's pieces and starts the level clock. Otherwise nothing changes. The latch is never touched. |
| App.GameApp.StartGame | src/App.tsx:90-102 | Level 1, no results, zero totals, started, not completed, the new name. totalLevels, per-level state and latch are unchanged. |
| App.GameApp.ResetGame | src/App.tsx:104-124 | Session and per-level state go back to initial; the latch and any scheduled completion survive. |
| App.GameApp.ResetGameCorrected | src/App.tsx:104-124 | Same as `ResetGame`, but also releases the latch and drops the scheduled completion. |
| App.GameApp.UpdatePieces | src/App.tsx:126-132 | Pieces are replaced, moves grow by exactly one, nothing else changes. |
| App.GameApp.SelectPiece | src/App.tsx:336-338 | Only the selection changes. |
| App.GameApp.ClearSubmitMessage | src/App.tsx:164 | Only the message is cleared. |
| App.GameApp.CompleteLevel | src/App.tsx:195-259 | Records one result via `CompleteSession`. Non-final level: fresh per-level state, new level clock, latch released. Final level: game completed, result screen shown, profile saved, latch kept. |
| App.GameApp.HandleTimeUp | src/App.tsx:134-150 | A no-op when complete or latched. Otherwise takes the latch and records the level at once, uncompleted and scoring 0. On a non-final level it releases the latch, resets the level state, restarts the level clock and clears the message, and the result screen stays as it was. On the final level the level is stopped (complete, with its end time), the latch is kept, the clock and message are untouched, and the result screen is shown with the profile saved. |
| App.GameApp.HandleSubmit | src/App.tsx:152-193 | A no-op when complete or latched. With a piece unplaced, only the advisory message changes. Otherwise takes the latch and schedules completion with the board's correctness; a correct board also marks the level complete. |
| App.GameApp.DeferredComplete | src/App.tsx:181-191 | Nothing happens when nothing is scheduled. Otherwise it completes the level with the scheduled outcome and clears the message. A non-final level gets fresh level state and clock, the latch is released and the result screen stays as it was. On the final level the board state and clock are kept as the submit left them, the latch is kept, and the result screen is shown with the profile saved. |
| AppScenarios.TimeOutEveryLevel | src/App.tsx:134-150 | Five timeouts end the game with five uncompleted results, total 0, and one game saved to the profile. |
| AppScenarios.TotalOfUncompleted | src/App.tsx:206 | Uncompleted results total zero points. |
| AppScenarios.SubmitRacesTimeout | src/App.tsx:134-193 | A correct submit, then a timeout and a second submit before the deferred completion, record one completed result with its time-based score. |
| AppScenarios.SubmitTooEarly | src/App.tsx:159-166 | An incomplete board only shows the message; the level stays open. |
| AppScenarios.PlayAgainIsStuck | src/App.tsx:245-263 | After a finished game and Play Again, no timeout or submit records anything while the timer keeps running. |
| AppScenarios.PlayAgainCorrected | src/App.tsx:104-124 | With the latch released on reset, the new game's first timeout records level 1 and moves to level 2. |

## Left out

- Rendering, drag-and-drop plumbing, CSS classes and the JSX of every component are left out. They include LevelHeader.tsx, PuzzlePiece.tsx and the progress-bar widths. The drag monitor's offsets and the board rectangle become `Option<Point>` inputs.
- src/utils/jigsawShapes.ts is left out: it builds cosmetic SVG paths with floats and pieces render as squares. `calculateSnapDistance` and `isWithinSnapThreshold` are left out too: they use square roots and nothing calls them.
- ImageUploadHelper.tsx and `handleImageUpload` are left out: they read files asynchronously.
- In App, `setPuzzleConfig` is a no-op (src/App.tsx:328), so difficulty and custom-image changes never reach a running game. They are modelled on their own.
- `Math.random` is an input. `scatter` gives each piece's starting position as integers. `js` gives each shuffle step's index, in [0, i].
- PuzzleUtils.ShuffleArray: proves that the result is a permutation, not that every permutation is equally likely.
- PuzzleUtils.GeneratePuzzlePieces: starting positions are integer inputs rather than the source's random floats in [400, 600) × [100, 300).
- Timing is explicit events: `setTimeout`, `setInterval` and `new Date()` become events with a `now` in milliseconds and an ISO string. The interval restarting whenever the time-up handler changes identity is not modelled.
- React closures are not modelled. Each event reads the current state, and setter updates apply in call order. A deferred completion that fires after a reset therefore records against the reset session.
- `localStorage` and JSON are a single slot holding the profile record, with flags for failing reads and writes. JSON is assumed to round-trip, and `console.log`/`console.error` are left out.
- MobilePieceSelector is not rendered by App. Its requests are returned as values and not applied to a session.
- Scoring.CalculateScore: defined on whole seconds only. `Math.round` matters only for fractional times, and the game never produces one.
- GameStats.CompletionPercentage: uses exact rational rounding, not floating-point `Math.round(placed / total * 100)`.
- GameStats.ElapsedTimeRoundTrip: stated only for an end time not before the start. With a negative difference the text is still defined, but holds negative parts.
- ResultScreen.FormatTimeRoundTrip: stated only for non-negative seconds.
- Timer.Countdown: `timeLimit` is a natural number, and the float progress bar is left out.
- UserNameInput's profile card (`formatDate`, `toLocaleDateString`, show/hide) is left out.

## Findings

| source | as written | input that shows it | evidently intended | confidence | as-written member | corrected member |
|---|---|---|---|---|---|---|
| src/App.tsx:246-258 | The final-level branch of `completeLevel` keeps `isProcessingLevelCompletion` set, and `resetGame` (src/App.tsx:104-124) never clears it. | Let all five levels time out, press Play Again and start a new game. The first level's timeout and a correct submit are both ignored, and the level can never end. | Releasing the session for a new game also releases the latch and any scheduled completion. | high; not executed | App.GameApp.ResetGame (shown by AppScenarios.PlayAgainIsStuck) | App.GameApp.ResetGameCorrected (shown by AppScenarios.PlayAgainCorrected) |
