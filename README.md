# Western Wonderland: a verified model of the game core

Western Wonderland is a two-player board game written in C++ with SFML. Each
player picks a major, which selects one of two tile paths (Ivey or Western)
through the board. Players take turns spinning a wheel showing 1 to 5 and move
that many tiles, one hop per animation tick. Landing on an event space is meant
to open a popup with an event drawn at random from a text catalog, and the event
is meant to add its deltas once to the player's happiness, debt and GPA (as
written it does not; see ## Findings). When both players reach the
last tile, the graduation screen scores the three resources and names the
winner.

This project models that core in Dafny and proves properties of it:

- `board.dfy` (module `Board`): the constant data of `GameBoard`. It holds the
  two paths and the event spaces, with lemmas about their shape.
- `wheel.dfy` (module `WheelSpin`): the `Wheel` class. Its constructor fills
  the faces, and `SpinWheel` takes the random draw as a parameter.
- `player.dfy` (module `PlayerModel`): the `Player` class.
  - The value `PlayerState` holds the whole observable state of a player.
  - The functions `Spawned`, `Moved`, `Ticked` and `AfterOnEvent` specify the
    class's methods, which are proved to produce exactly those states.
  - Lemmas cover the movement state machine: hops per tick, move duration, the
    one-shot event flag, and finished players staying put.
- `events.dfy` (module `EventCatalog`): the event catalog reader and the
  effect of an event.
  - The reader is modelled on a string: `getline`, `>> int` and `ignore`
    become functions on the text.
  - A formatter serves as the reader's inverse, and round trips are proved up
    to a whole catalog (`CatalogRoundTrip`).
  - `PlayerEvent` reads the catalog, picks a record and applies it through the
    player's setters.
- `graduation.dfy` (module `Graduation`): the category scoring and `Winner`.
  - `GraduationEvent` keeps the source's two counters and six comparisons.
  - It is proved equal to `Scores`, whose contract ties it to the reference
    tally `Tally` over `Verdicts`.
- `main_loop.dfy` (module `MainLoop`): the loop of `main`.
  - `FrameStep` specifies one frame: the graduation check, then both
    players' `update`.
  - `InputStep` specifies one polled event: a close request, the major
    prompts, the wheel on a released Space key, and the two event checks.
  - The `Game` class runs these on the real objects and is proved against
    them.
  - `GameInv` is preserved by every step.
  - `Run` strings steps together, which is what the lemmas about whole games
    are stated over.

The model is faithful to the code as written. Where verification exposed
behaviour the authors evidently did not intend, the as-written definition
stays, a lemma exhibits the input that shows the problem, and a corrected
definition carries the intended property (see "## Findings").
`MainLoop.InputStepIntended` is the polled event with all three game-level
corrections:

- the turn rule reads the committed target instead of `finished()`;
- the event check asks `justMoved` first;
- each event is added once instead of doubled.

`InputStepIntended` is proved to keep the corrected invariant
`MainLoop.IntendedInv`.

Behaviour of the code worth knowing:

- **Winner.** `Winner` (graduation.cpp:133-142) returns "Player 2" when player
  1 has the lower score. The tie string is only for equal scores, as its
  second `if` shows.
- **Empty catalog.** `playerEvent` (events.cpp:102-103) draws from
  `[0, size - 1]`, which wraps for size 0, so a non-empty catalog is a
  precondition (`MainLoop.CatalogOk`).
- **When the turn passes.** The turn passes as soon as the wheel stops
  (main.cpp:121-131), before the move's hops are shown.
- **Event flag.** The event flag is set whenever `onEvent` (player.cpp:76-86)
  sees an event space, including while the marker is moving.
- **End of a move.** A move ends one tick after the marker reaches its
  target, not on the hop that reaches it (`PlayerModel.MoveDuration`).
- **Resources.** All three resources are `int` (Player.h:35-37), so
  `Graduation.MixedOutcome` uses whole-number GPAs (4 against 3).

## Model

| member | source | states |
|---|---|---|
| Board.PathShape | gameBoard.cpp:21-74 | The Ivey path has 24 tiles and the Western path 28. Both start on (220,420), pass crossing 1 next and end on (180,100). Crossing 2 is at index 11 on Ivey and index 15 on Western. |
| Board.SharedTail | gameBoard.cpp:32-74 | From crossing 2 on, the two paths are the same 13 tiles. |
| Board.PathsAreWalks | gameBoard.cpp:21-74 | Each hop on either path moves exactly one tile size (40) in exactly one coordinate. |
| Board.PathsHaveNoRepeats | gameBoard.cpp:21-74 | No tile occurs twice on a path, so the start tile is only at index 0. |
| Board.EventSpacesOnPaths | gameBoard.cpp:77-83 | There are 7 event spaces. Each lies on some path, and none is the start or the end tile. |
| WheelSpin.Wheel.constructor | Wheel.cpp:22-24 | The loop leaves the faces 1, 2, 3, 4, 5 in order. |
| WheelSpin.Wheel.GetSpinResult | Wheel.cpp:60-62 | The result is one of the wheel's faces. |
| WheelSpin.Wheel.SpinWheel | Wheel.cpp:38-50 | The arrow turns 5n to 6n-1 segments for n faces, and the result is the face at `draw mod n`. |
| WheelSpin.FullTurnsVanish | Wheel.cpp:38-50 | Five full turns plus k < n segments stop on segment k. |
| WheelSpin.StandardSpin | Wheel.cpp:38-50 | On the constructed wheel a spin turns 25 to 29 segments and shows `draw mod 5 + 1`, a value in 1..5. |
| PlayerModel.Spawned | player.cpp:19-28 | A new player is on tile 0 with target 0, at rest, with the flag clear, the marker on the first tile and all three resources 0. It is finished only on a one-tile path. |
| PlayerModel.Moved | player.cpp:34-43 | The target becomes `min(current + n, last)`. The move starts and the flag is cleared. Nothing else changes, and the index invariant holds. |
| PlayerModel.Ticked | player.cpp:59-69 | An elapsed tick during a move hops one tile (marker included) or, on the target, ends the move. Otherwise nothing changes. Path and target never change. |
| PlayerModel.AfterOnEvent | player.cpp:76-86 | Only the flag changes. It ends up set exactly when it was set or the current tile is an event space. |
| PlayerModel.Ticks | player.cpp:59-69 | Repeated ticks keep the invariant, path and target, never decrease the index, and change only index, marker and moving flag. |
| PlayerModel.HopPerTick | player.cpp:59-69 | The j-th elapsed tick of a move (j no more than the hops left) has advanced exactly j tiles, with the marker on that tile and the move in progress. |
| PlayerModel.TicksApproach | player.cpp:59-69 | After k elapsed ticks the index is `min(current + k, target)`, and a resting player is on its target. |
| PlayerModel.MoveDuration | player.cpp:59-69 | A move of k hops stands on its target after k ticks, still moving, and comes to rest at tick k+1. |
| PlayerModel.MoveThenTicks | player.cpp:34-69 | After `move(n)` the player hops `min(n, last - current)` tiles and then rests on `min(current + n, last)`. |
| PlayerModel.FinishedIsFinal | player.cpp:180-182 | A finished player's move targets its own tile and no tick takes it off the last tile. |
| PlayerModel.RunPolls | player.cpp:76-86 | Between two moves a set flag stays set and the invariant holds. |
| PlayerModel.OneEventPerStop | player.cpp:76-86 | Between two moves `onEvent` returns true at most once, and never once the flag is set. |
| PlayerModel.MajorReadsGpa | player.cpp:116-118 | `getMajor` as written reads the GPA: after `setMajor(1)` on a new player it returns 0. |
| PlayerModel.MajorIntendedRoundTrip | player.cpp:108-118 | The intended getter returns the value `setMajor` stored, and moves and ticks leave it unchanged. |
| PlayerModel.Player.constructor | player.cpp:19-28 | The new object's state is `Spawned` for its path. |
| PlayerModel.Player.Move | player.cpp:34-43 | The new state is `Moved` of the old state. |
| PlayerModel.Player.JustMoved | player.cpp:49-54 | True exactly when the player is at rest. |
| PlayerModel.Player.Update | player.cpp:59-69 | The new state is `Ticked` of the old state. |
| PlayerModel.Player.OnEvent | player.cpp:76-86 | The scan returns `TriggersEvent` of the old state and leaves `AfterOnEvent` of it. |
| PlayerModel.Player.SetMajor | player.cpp:108-110 | Only the major changes, to the given value. |
| PlayerModel.Player.GetMajor | player.cpp:116-118 | Returns what `MajorAsWritten` says, which is the GPA. |
| PlayerModel.Player.SetPath | player.cpp:124-126 | Only the path changes. Indices and marker stay as they were. |
| PlayerModel.Player.SetDebt | player.cpp:132-134 | Adds the amount to the debt and changes nothing else. |
| PlayerModel.Player.SetHappiness | player.cpp:140-142 | Adds the amount to the happiness and changes nothing else. |
| PlayerModel.Player.SetGPA | player.cpp:148-150 | Adds the amount to the GPA and changes nothing else. Nothing clamps it. |
| PlayerModel.Player.Finished | player.cpp:180-182 | True exactly when the current index (not the target) is the last one. |
| EventCatalog.GetLine | events.cpp:56 | The line has no newline, and line + newline + rest is the input (or the whole input when no newline is left). The rest is shorter than any non-empty input. |
| EventCatalog.SkipLine | events.cpp:60 | Discards through the next newline. The rest is shorter than any non-empty input. |
| EventCatalog.ReadInt | events.cpp:59 | On success the value is a 32-bit signed integer and the rest is shorter than the input. |
| EventCatalog.ReadEvent | events.cpp:54-63 | On success the description has no newline and the rest is shorter than the input. |
| EventCatalog.ParseCatalog | events.cpp:93-96 | Reads records until the text is used up, skipping one line after each record. A successful read is empty exactly when the text is. |
| EventCatalog.ReadCatalog | events.cpp:92-96 | The reading loop returns exactly `ParseCatalog` of the text. |
| EventCatalog.CatalogLoopStep | events.cpp:93-96 | One turn of the loop keeps "records read so far, then what the rest parses to, is the whole catalog", and an unreadable record makes the whole catalog unreadable. |
| EventCatalog.GetLineSplits | events.cpp:56 | Reading a line off `a + "\n" + b` gives back `a` and `b`. |
| EventCatalog.ReadIntWritten | events.cpp:59 | Reading a formatted 32-bit integer that is followed by a non-digit gives back the integer and what follows. |
| EventCatalog.ReadDigitsWritten | events.cpp:59 | The digit run of a written number stops right before the next non-digit and denotes that number. |
| EventCatalog.ReadNatWritten | events.cpp:59 | A written non-negative 32-bit number reads back with the rest untouched. |
| EventCatalog.ReadNegWritten | events.cpp:59 | A written negative 32-bit number, minus sign first, reads back with the rest untouched. |
| EventCatalog.ReadIntSkipsSpace | events.cpp:59 | A leading space does not change what `>>` reads. |
| EventCatalog.ReadSpacedIntWritten | events.cpp:59 | A number written after a space, as the second and third number of a record are, reads back. |
| EventCatalog.SkipSeparator | events.cpp:95 | Skipping a line from an empty separator line leaves exactly the text after it. |
| EventCatalog.ReadEventWritten | events.cpp:54-63 | A formatted well-formed record reads back as itself, stopping at the separating line. |
| EventCatalog.ParseWrittenRecord | events.cpp:93-96 | The catalog loop turns a written record in front of more text into that record followed by what the text reads as. |
| EventCatalog.CatalogRoundTrip | events.cpp:93-96 | A catalog of well-formed records, formatted, reads back as the same sequence. |
| EventCatalog.AppliedAsWritten | events.cpp:148-150 | As written, each resource becomes twice its old value plus the delta. |
| EventCatalog.Applied | events.cpp:148-150 | The intended effect: each resource changes by exactly its delta and nothing else changes. |
| EventCatalog.AsWrittenDoubles | events.cpp:148-150 | The as-written and intended effects agree exactly when all three resources are 0. |
| EventCatalog.AsWrittenOrderMatters | events.cpp:148-150 | As written, +1 then +2 happiness from 0 gives 4, while +2 then +1 gives 5. |
| EventCatalog.AppliedAdds | events.cpp:148-150 | Intended effects compose by adding deltas, in either order. |
| EventCatalog.ApplyEvent | events.cpp:148-150 | The three setter calls leave the player in `AppliedAsWritten` of its old state. |
| EventCatalog.PlayerEvent | events.cpp:92-150 | The selected record is the drawn entry of the parsed catalog, and the player ends in `AppliedAsWritten` of its old state. |
| Graduation.Scores | graduation.cpp:37-56 | Each score counts the categories that side wins by the reference rule (higher GPA, lower debt, higher happiness). Each score is at most 3, and their sum is 3 minus the tied categories. |
| Graduation.ScoresSwap | graduation.cpp:37-56 | Swapping the players swaps the scores. |
| Graduation.Winner | graduation.cpp:133-142 | "Player 1" exactly when P1 > P2, "Player 2" exactly when P1 < P2, and the tie string exactly when they are equal. |
| Graduation.GraduationEvent | graduation.cpp:37-81 | The two counters equal `Scores` of the players' resources, and the winner line is `Winner` of them. |
| Graduation.IdenticalResourcesTie | graduation.cpp:37-56 | Identical resources score 0 to 0 and announce a tie. |
| Graduation.WinnerSwap | graduation.cpp:133-142 | Swapping the players swaps "Player 1" and "Player 2" and keeps a tie. |
| Graduation.MixedOutcome | graduation.cpp:37-56 | (4, 100, 10) against (3, 50, 20) scores 1 to 2, and player 2 wins. |
| MainLoop.InitialGame | main.cpp:30-54 | Player 1 is on the Ivey path and player 2 on the Western path, both on the start tile with resources 0. Turn 1, no major chosen, window open. The invariant holds. |
| MainLoop.SelectMajor | main.cpp:82-91 | The prompt opens exactly when no major was chosen. Answer 0 selects Western and 1 selects Ivey, and the flag becomes 1. Without a prompt the player is unchanged. |
| MainLoop.PromptMajor | main.cpp:82-91 | The prompt block leaves the player, flag and prompt as `SelectMajor` says. |
| MainLoop.SetUpResources | main.cpp:41-48 | Setting each resource to 0 through the adding setters leaves a player unchanged. |
| MainLoop.SpinValue | main.cpp:117-118 | The face shown is `draw mod 5 + 1`, in 1..5. |
| MainLoop.SpinTurn | main.cpp:121-131 | The holder moves unless finished. The turn passes unless the other player has finished. A spin on a finished holder's turn changes nothing. |
| MainLoop.EventCheck | main.cpp:135-137 | The popup opens exactly when `onEvent` fires for a player at rest, and applies the drawn record. The flag is set whenever `onEvent` fires. |
| MainLoop.Selected | main.cpp:77-103 | Close request and prompts: both majors are chosen afterwards, prompts open exactly for unchosen majors, and the invariant holds. |
| MainLoop.Spun | main.cpp:116-132 | A released Space key applies `SpinTurn` of the wheel's face. Any other input changes nothing. |
| MainLoop.Checked | main.cpp:135-142 | Player 1's event check, then player 2's. The invariant holds. |
| MainLoop.InputStep | main.cpp:76-143 | A polled event keeps `GameInv`, leaves both majors chosen and closes the window exactly on a close request. |
| MainLoop.FrameStep | main.cpp:59-67 | Graduation is announced with `GraduationWinner` exactly when both players are on their last tile, then both players tick. The invariant holds. |
| MainLoop.Apply | main.cpp:57-143 | One step, a frame or a polled event, keeps `GameInv`. |
| MainLoop.Run | main.cpp:57-143 | Any sequence of steps keeps `GameInv`. The loop runs only while the window is open, and the window ends up open exactly when it started open and no step was a close request. |
| MainLoop.Frames | main.cpp:59-67 | k elapsed frames keep `GameInv`. |
| MainLoop.FramesTickBoth | main.cpp:66-67 | k elapsed frames are k elapsed ticks of each player, with the loop variables unchanged. |
| MainLoop.MajorsChosenOnce | main.cpp:82-103 | Each prompt opens exactly when that major is unchosen. The answer selects the path, and a chosen player's path is never replaced. |
| MainLoop.SpinRule | main.cpp:116-132 | Only a released Space key moves anyone or changes the turn. The holder of the turn moves by the shown face unless finished, and the turn goes to the other player unless that player has finished. |
| MainLoop.PopupGating | main.cpp:135-142 | A popup opens only for a player at rest on an event space whose flag was clear, and shows the drawn record. A polled event moves no marker. |
| MainLoop.FrameCount | main.cpp:59-61 | The number of frames is at most the number of steps. |
| MainLoop.UntilClosed | main.cpp:57-79 | The steps the loop runs from an open window: a prefix of the steps with no close request before its last step, ending with a close request unless it is all of them. |
| MainLoop.EndIsKept | main.cpp:59-61 | Two finished players stay finished for one step, and only a frame announces graduation. |
| MainLoop.GraduationPersists | main.cpp:59-61 | Once both players have finished, they stay finished, and every later frame the loop runs announces graduation: the announcements are the frames before the first close request, and none once the window is closed. |
| MainLoop.PollActsLikeSpin | main.cpp:76-143 | With both majors chosen, a polled event changes paths, indices, moving flags and turn exactly as the spin rule alone does. |
| MainLoop.SpinMovesHolder | main.cpp:116-131 | A Space release re-targets the unfinished holder from its current index and hands over the turn as the rule says. The other player keeps its target. |
| MainLoop.SelectedKeepsStall | main.cpp:77-103 | The major prompts keep a stalled game stalled. |
| MainLoop.StalledPoll | main.cpp:76-143 | A polled event keeps a stalled game stalled. |
| MainLoop.StalledFrame | main.cpp:59-67 | A frame keeps a stalled game stalled and announces nothing. |
| MainLoop.StalledStep | main.cpp:57-143 | Any step keeps a stalled game stalled and announces nothing. |
| MainLoop.StalledForever | main.cpp:57-143 | From a stalled game, no sequence of steps ever announces graduation. |
| MainLoop.ArrivalStalls | main.cpp:121-131 | Player 2 bound for the end with the turn, and player 1 short of its end: once player 2 arrives, the game is stalled. |
| MainLoop.DoubleSpinStalls | main.cpp:116-131 | A spin that sends player 2 to the end, then one that leaves player 1 short, returns the turn to player 2 and stalls the game. |
| MainLoop.StallExample | main.cpp:116-131 | From `StallStart` (player 1 at rest on Ivey tile 10, player 2 at rest on Western tile 23, player 2 to spin), Space with draw 4 then Space with draw 0, and four frames later the game is stalled. |
| MainLoop.SpinTurnIntended | main.cpp:121-131 | The corrected rule reads the committed target instead of `finished()`. The holder moves unless committed, and the turn passes unless the other player is committed. |
| MainLoop.IntendedSpinIsNeverLost | main.cpp:121-131 | Under the corrected rule the holder always moves while some player has tiles to go, and `NoStall` is kept. |
| MainLoop.NoStallIsNotStalled | main.cpp:121-131 | A game satisfying `NoStall` is not stalled. |
| MainLoop.CommittedPlayersGraduate | main.cpp:59-67 | Once both players are committed, enough elapsed frames bring both to the end, and the next frame announces graduation. |
| MainLoop.ReachesEnd | player.cpp:59-69 | A committed player stands on its last tile after as many elapsed ticks as its path is long. |
| MainLoop.SpinFromEventSpaceSpendsFlag | main.cpp:135-137 | A spin from an event space sets the flag at once with no popup, and the player is moving. |
| MainLoop.SilencedLanding | main.cpp:135-137 | A move of v >= 1 from an event space, checked before its first hop, rests v tiles on with no popup there, whatever the tile. |
| MainLoop.ArrivalSilenced | main.cpp:135-137 | A move of 3 from Ivey tile 4, checked once before its first hop, rests on event space (380,300), and the check there opens no popup. |
| MainLoop.EventCheckIntended | main.cpp:135-137 | The corrected check opens the popup and sets the flag exactly for a player at rest on an event space with the flag clear. It adds the record once, and otherwise changes nothing. |
| MainLoop.ArmedKept | main.cpp:135-137 | A move arms a player (moving implies flag clear), and ticks and corrected checks keep it armed. |
| MainLoop.IntendedPopupOnArrival | main.cpp:135-137 | For an armed player, the tick that ends a move on an event space is followed by a popup. |
| MainLoop.HeardLanding | main.cpp:135-142 | Under the corrected check a move of v >= 1 that lands on an event space opens its popup there, from any start. |
| MainLoop.ArrivalHeard | main.cpp:135-142 | The same move from Ivey tile 4 under the corrected check opens the popup on arrival. |
| MainLoop.SpunIntended | main.cpp:116-132 | The corrected spin keeps `IntendedInv`. |
| MainLoop.CheckedIntended | main.cpp:135-142 | The corrected event checks keep `IntendedInv`. |
| MainLoop.InputStepIntended | main.cpp:76-143 | The polled event with all three corrections keeps `IntendedInv` (`GameInv`, `NoStall`, both players armed). |
| MainLoop.IntendedInvHolds | main.cpp:30-67 | `IntendedInv` holds initially and across every frame. |
| MainLoop.EventBlock | main.cpp:134-142 | One player's event block gives exactly `EventCheck` of the player's old state with the drawn record. |
| MainLoop.GraduationCheck | main.cpp:58-61 | A winner is announced exactly when both players are on their last tile, and it is `GraduationWinner` of the two. |
| MainLoop.Game.constructor | main.cpp:30-54 | The game starts in `InitialGame`, resources having been set through the adding setters. |
| MainLoop.Game.HandleInput | main.cpp:76-143 | The loop body's effect on the objects is exactly `InputStep`, and `Valid` is kept. |
| MainLoop.Game.ChooseMajors | main.cpp:77-103 | The close request and both prompt blocks produce exactly `Selected`. |
| MainLoop.Game.Spin | main.cpp:116-132 | The Space block produces exactly `Spun` with the wheel's face. |
| MainLoop.Game.CheckEvents | main.cpp:135-142 | The two event blocks produce exactly `Checked`, including the popups' records. |
| MainLoop.Game.Frame | main.cpp:59-67 | The top of the loop produces exactly `FrameStep`, with the graduation winner when both players have finished. |

## Left out

- Rendering is not modelled: the board, markers, wheel animation, the arrow
  angle (a float), fonts, `wrapText`, and the popup windows with their own
  event loops. Popups appear only as the values `Shown` records.
- `gamestart` and the start button are not modelled: the model starts at the
  loop. Clicking Start is the only way the source reaches the loop.
- The resource display on the A and B keys (main.cpp:106-113) changes no
  player state, so those keys are inputs that only run the rest of the loop
  body. A close request polled inside the display closes the window
  (resourceDisplay.cpp:65-69), which is not modelled.
- The `sf::Clock` and the 0.3 s delay become the `elapsed` flag of each
  player's tick.
- `std::rand` and `std::mt19937` become the draw parameters in `Choices`. The
  draw is only taken to be in range, not uniform.
- The 15-second graduation popup timer is not modelled. The popup's scores and
  winner are.
- The event file becomes a string parameter of the game. Missing files and
  fonts (the logged errors) are not modelled.
- `major` is never initialised by the source, so its initial value is a
  parameter.
- EventCatalog.ParseCatalog: ill-formed text (a missing or non-numeric delta,
  or one outside 32 bits) fails the whole read. The stream's failbit behaviour
  after such a record (zeroed or saturated fields, records read until EOF) is
  not modelled.
- EventCatalog.ReadInt: only decimal digits with an optional sign are read.
  Locale and other bases are not modelled.
- PlayerModel.Player.Move: requires a non-negative distance. The source
  compares against `path.size() - 1` as unsigned, and the wheel only produces
  1 to 5.
- MainLoop.InputStep: requires a non-empty catalog and in-range draws even on
  steps where no popup opens. The source's draw from an empty catalog is
  undefined, and the draws are unused when no popup opens.
- MainLoop.Run: a close request counts only when the main loop polls it.
  The popups' own event loops (graduation.cpp:109-116, the event popup, the
  major prompt and the resource display of resourceDisplay.cpp:65-69) also
  close the window on a close request; those loops are
  not modelled, so the model's loop keeps running and announcing after the
  graduation popup, as `GraduationPersists` states.
- MainLoop.Frames: k frames from a given state. It does not look at
  `windowOpen`, which frames never change, so `FramesTickBoth`,
  `ArrivalStalls`, `CommittedPlayersGraduate` and the stall examples speak of
  frames the loop runs only while the window is open.
- PlayerModel.Player.SetDebt, SetHappiness and SetGPA,
  EventCatalog.AppliedAsWritten, EventCatalog.ApplyEvent and
  EventCatalog.PlayerEvent: resources are unbounded integers. The source keeps
  them in 32-bit `int` (Player.h:35-37), so a `+=` past 2147483647, which the
  doubling at events.cpp:148-150 reaches quickly, is undefined behaviour there;
  32-bit overflow is not modelled. `EventCatalog.WellFormed` bounds only the
  deltas read from the file.
- PlayerModel.Player.GetPosition, GetDebt, GetHappiness and GetGPA are plain
  getters (player.cpp:100-102, 156-174) with no contract of their own. They
  are used through `State()` in the contracts of their callers.

## Findings

| source | as written | input that shows it | evidently intended | confidence | as-written member | corrected member |
|---|---|---|---|---|---|---|
| events.cpp:148-150 | `playerEvent` passes `get() + delta` to setters that themselves add. Each resource becomes twice its old value plus the delta. | Happiness 0, events +1 then +2: 4, where +2 then +1 gives 5. | Each event adds its deltas once. | high, not executed | EventCatalog.AsWrittenOrderMatters | EventCatalog.AppliedAdds |
| player.cpp:116-118 | `getMajor` returns the GPA field. | `setMajor(1)` on a new player, then `getMajor()` returns 0. | Return the stored major. | high, not executed | PlayerModel.MajorReadsGpa | PlayerModel.MajorIntendedRoundTrip |
| main.cpp:135-142 | `onEvent` runs before `justMoved`. A check while the marker moves sets the flag without a popup. This includes the check right after the spin on the tile being left. The tile where the move ends is then silent. | Player on Ivey tile 4 (an event space) spins 3. It comes to rest on (380,300), also an event space, and no popup opens. | Ask `justMoved` first, so that every move ending on an event space opens one popup. | high, not executed | MainLoop.ArrivalSilenced | MainLoop.IntendedPopupOnArrival |
| main.cpp:121-131 | The turn rule asks `finished()`, which reads the current index. A second spin before the first move is animated returns the turn to a player bound for the last tile. Once that player arrives, every spin is discarded and graduation never comes. | Turn 2: player 1 at rest on Ivey tile 10 and player 2 at rest on Western tile 23, which spins 1, 5, 1, 5, 2, 5, 2, 5, 2, 3, 2 from the start reach. Space with draw 4 (face 5), then Space with draw 0 (face 1), then four elapsed frames. | The turn skips only a player already committed to the last tile, so a spin is never lost while tiles remain. | medium, not executed | MainLoop.StallExample | MainLoop.IntendedSpinIsNeverLost |
