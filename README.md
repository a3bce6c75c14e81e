# A verified model of the game core of 0008_GamePacman

0008_GamePacman is a Pac-Man clone for iOS written in Swift on SpriteKit.
This project models its deterministic game core in Dafny and proves what
that core promises:

- the message-passing object tree (`CbObject`, `CbContainer`), the countdown
  timer (`CbTimer`) and the scene sequencer (`CbScene`);
- directions and the sub-dot positions of moving actors (`EnDirection`,
  `CgDirection`, `CgPosition`);
- the maze's value and attribute grids (`EnMazeTile` and the grid part of
  `CgSceneMaze`);
- the game context: settings, difficulty and speed tables, ghost release,
  scatter/chase phases, Blinky's spurt, the demo script (`CgContext`);
- the four ghosts, their state machine and their manager (`CgGhost`,
  `CgGhostState`, `CgGhostManager`);
- the player (`CgPlayer`), the score popups and their pool (`CgScorePts`,
  `CgScorePtsManager`) and the fruit (`CgSpecialTarget`);
- the maze scene's rules for eating, scoring, the extra life, eating a
  ghost, losing a life and the flashing maze between rounds.

Values the program keeps in objects that nothing shares are value
datatypes with member functions, and a class beside each one proves its
methods against those functions (`Timer.TimerState` and `Timer.CbTimer`).
Actors and the scene are classes whose methods change their fields; each
method's `ensures` ties the new state to a function of the old one, and the
lemmas prove what the program promises about those functions. Integers are
unbounded. The source's truncating division is written out where pixels
can be negative (`Player.TruncDiv`). Randomness is a parameter: the random
heading a frightened ghost starts its search from. The maze's source text
is also a parameter. Files: `wrappers`, `direction`, `position`, `grid`,
`steering` (shared path-finding), `timer`, `scene`, `dispatch`, `scores`,
`context`, `ghost_state`, `ghost`, `ghost_manager`, `player`, `expiry`
(shared by the popups and the fruit), `popups`, `special_target` and `maze`.

## Model

| member | source | states |
|---|---|---|
| Dispatch.Delivery | 0008_GamePacman/BasedComponents.swift:65-118 | a message reaches an object only when it is enabled; a container's own handler runs before its children's |
| Dispatch.DeliveryReaches | 0008_GamePacman/BasedComponents.swift:65-118 | an object's handler runs exactly when it and every container above it are enabled |
| Dispatch.SiblingsInBindOrder | 0008_GamePacman/BasedComponents.swift:100-118 | children receive a message in the order they were bound |
| Timer.TimerState.Reset | 0008_GamePacman/BasedComponents.swift:138-142 | full interval, not fired, disabled |
| Timer.TimerState.Set | 0008_GamePacman/BasedComponents.swift:144-147 | a new interval, then reset |
| Timer.TimerState.Start | 0008_GamePacman/BasedComponents.swift:149-151 | counting, remaining time kept |
| Timer.TimerState.Restart | 0008_GamePacman/BasedComponents.swift:153-156 | counting again from the full interval |
| Timer.TimerState.Pause | 0008_GamePacman/BasedComponents.swift:158-160 | stops counting and keeps the remaining time |
| Timer.TimerState.Stop | 0008_GamePacman/BasedComponents.swift:162-165 | stops counting with no time left and without firing |
| Timer.TimerState.Update | 0008_GamePacman/BasedComponents.swift:181-189 | a counting timer loses the interval and fires at or below zero; an idle one is unchanged |
| Timer.CbTimer.Reset | 0008_GamePacman/BasedComponents.swift:138-142 | the object follows TimerState.Reset: full time again, not fired, not counting |
| Timer.CbTimer.Set | 0008_GamePacman/BasedComponents.swift:144-147 | the object follows TimerState.Set: the new interval, reset |
| Timer.CbTimer.Start | 0008_GamePacman/BasedComponents.swift:149-151 | the object follows TimerState.Start: counting unless already fired, time left untouched |
| Timer.CbTimer.Pause | 0008_GamePacman/BasedComponents.swift:158-160 | the object follows TimerState.Pause: not counting, time left untouched |
| Timer.CbTimer.Stop | 0008_GamePacman/BasedComponents.swift:162-165 | the object follows TimerState.Stop: not counting, no time left |
| Timer.PauseThenStartResumes | 0008_GamePacman/BasedComponents.swift:149-160 | pausing then starting resumes exactly where the timer was |
| Timer.RunIdle | 0008_GamePacman/BasedComponents.swift:181-189 | a timer that is not counting ignores any run of updates |
| Timer.RunFires | 0008_GamePacman/BasedComponents.swift:181-189 | over non-negative intervals a counting timer fires exactly when they add up to its remaining time |
| Timer.CbTimer.Update | 0008_GamePacman/BasedComponents.swift:181-189 | the object's update is the value's Update |
| Timer.CbTimer.Restart | 0008_GamePacman/BasedComponents.swift:153-156 | the object's restart is the value's Restart |
| Scene.SceneState.GoToNext | 0008_GamePacman/BasedComponents.swift:281-291 | -1 means the sequence after the current one; a delay starts the timer; no delay switches at once |
| Scene.SceneState.ResetSequence | 0008_GamePacman/BasedComponents.swift:224-230 | numbers 0, disabled, timer reset |
| Scene.SceneState.StartSequence | 0008_GamePacman/BasedComponents.swift:232-235 | the scene handles its sequence again; timer and sequence numbers untouched |
| Scene.SceneState.StopSequence | 0008_GamePacman/BasedComponents.swift:237-240 | the scene stops handling its sequence; timer and sequence numbers untouched |
| Scene.SceneState.Update | 0008_GamePacman/BasedComponents.swift:243-255 | a fired delay makes next current; the handler runs unless the delay is still running |
| Scene.SceneState.Frame | 0008_GamePacman/BasedComponents.swift:110-118 | an enabled scene runs its update and then its delay timer gets the interval |
| Scene.WaitingIgnoresHandler | 0008_GamePacman/BasedComponents.swift:243-255 | while the delay runs, the handler is never consulted |
| Scene.DelayHolds | 0008_GamePacman/BasedComponents.swift:243-291 | during a delay the sequence numbers stay and only the timer counts down |
| Scene.DelayEnds | 0008_GamePacman/BasedComponents.swift:243-291 | the delay ends on time, and the next frame makes next current and runs the handler on it |
| Scene.CbScene.GoToNextSequence | 0008_GamePacman/BasedComponents.swift:281-291 | the object follows SceneState.GoToNext |
| Scene.CbScene.ResetSequence | 0008_GamePacman/BasedComponents.swift:224-230 | the object follows SceneState.ResetSequence |
| Scene.CbScene.StartSequence | 0008_GamePacman/BasedComponents.swift:232-235 | the object follows SceneState.StartSequence |
| Scene.CbScene.StopSequence | 0008_GamePacman/BasedComponents.swift:237-240 | the object follows SceneState.StopSequence |
| Scene.CbScene.Update | 0008_GamePacman/BasedComponents.swift:243-255 | the object follows SceneState.Update |
| Direction.HorizontalDelta | 0008_GamePacman/GameActor.swift:21-31 | the column step of each direction |
| Direction.VerticalDelta | 0008_GamePacman/GameActor.swift:32-42 | the row step of each direction |
| Direction.Reverse | 0008_GamePacman/GameActor.swift:43-53 | both steps negated |
| Direction.Clockwise | 0008_GamePacman/GameActor.swift:64-74 | the step (h, v) becomes (v, -h) |
| Direction.CounterClockwise | 0008_GamePacman/GameActor.swift:75-85 | the step (h, v) becomes (-v, h) |
| Direction.StepsDetermineHeading | 0008_GamePacman/GameActor.swift:21-42 | the two steps determine a direction, except that None and Stop share (0, 0) |
| Direction.ReverseInvolution | 0008_GamePacman/GameActor.swift:43-53 | reversing twice gives the direction back |
| Direction.ClockwiseUndoesCounterClockwise | 0008_GamePacman/GameActor.swift:64-85 | the two quarter turns undo each other |
| Direction.ClockwiseCycle | 0008_GamePacman/GameActor.swift:64-74 | two quarter turns make the reverse, four the identity |
| Direction.Heading.Set | 0008_GamePacman/GameActor.swift:106-108 | only the requested direction changes |
| Direction.Heading.Update | 0008_GamePacman/GameActor.swift:110-114 | the request is committed unless it is Stop |
| Direction.UpdateIdempotent | 0008_GamePacman/GameActor.swift:110-114 | committing twice is committing once |
| Direction.SetThenUpdate | 0008_GamePacman/GameActor.swift:106-118 | a change is pending exactly when the request differs from the current heading; committing a request settles the pair, and a request to stop keeps the current heading |
| Direction.CgDirection.Set | 0008_GamePacman/GameActor.swift:106-108 | the object follows Heading.Set |
| Direction.CgDirection.Update | 0008_GamePacman/GameActor.swift:110-114 | the object follows Heading.Update |
| Position.Pos.AbsoluteDelta | 0008_GamePacman/GameActor.swift:190-200 | how far past the centre of its tile the actor is, in a direction |
| Position.Pos.RoundDown | 0008_GamePacman/GameActor.swift:202-217 | drops the fraction on the axis of the direction, both for Stop, and keeps a valid position valid |
| Position.Pos.Move | 0008_GamePacman/GameActor.swift:219-269 | spends at most one speed unit, steps at most one dot, and returns what is left of the speed past one SPEED_UNIT, or zero |
| Position.Placed | 0008_GamePacman/GameActor.swift:171-179 | a tile and offset, with the fractions and move count cleared |
| Position.MoveAdvancesFineX | 0008_GamePacman/GameActor.swift:219-314 | a horizontal move shifts the sub-dot coordinate by exactly the speed consumed, modulo one tunnel trip |
| Position.MoveAdvancesFineY | 0008_GamePacman/GameActor.swift:219-314 | the same vertically |
| Position.HorizontalTunnel | 0008_GamePacman/GameActor.swift:271-292 | leaving the last column to the right enters column 0, and back |
| Position.VerticalTunnel | 0008_GamePacman/GameActor.swift:293-314 | rows wrap the same way |
| Position.MoveSplits | 0008_GamePacman/GameActor.swift:219-269 | within one speed unit, moving a then b equals moving a + b |
| Position.MoveKeepsAlignment | 0008_GamePacman/GameActor.swift:185-269 | moving along an axis keeps the actor able to move on that axis |
| Position.CenterAligned | 0008_GamePacman/GameActor.swift:315-323 | at a tile's centre every heading can be taken, and no other direction ever can |
| Position.CgPosition.Set | 0008_GamePacman/GameActor.swift:171-179 | the object becomes Placed(column, row, dx, dy) |
| Position.CgPosition.SetFrom | 0008_GamePacman/GameActor.swift:181-183 | copies another position's tile and offset |
| Position.CgPosition.Move | 0008_GamePacman/GameActor.swift:219-269 | the object follows Pos.Move |
| Position.CgPosition.RoundDown | 0008_GamePacman/GameActor.swift:202-217 | the object follows Pos.RoundDown |
| Position.CgPosition.IncrementHorizontal | 0008_GamePacman/GameActor.swift:271-281 | one dot right, wrapping into the next column and through the tunnel |
| Position.CgPosition.DecrementHorizontal | 0008_GamePacman/GameActor.swift:282-292 | one dot left, likewise |
| Position.CgPosition.IncrementVertical | 0008_GamePacman/GameActor.swift:293-303 | one dot up, likewise |
| Position.CgPosition.DecrementVertical | 0008_GamePacman/GameActor.swift:304-314 | one dot down, likewise |
| Grid.TileFromRaw | 0008_GamePacman/GameMaze.swift:26-38 | defined exactly on the eight raw values, and inverse to Raw there |
| Grid.TileRawRoundTrip | 0008_GamePacman/GameMaze.swift:16-38 | every tile survives the trip through its raw value |
| Grid.CharAt | 0008_GamePacman/GameMaze.swift:585-626 | the character a maze source writes into a cell, present exactly inside the source's lines |
| Grid.PowerFeedsAreThrees | 0008_GamePacman/GameMaze.swift:585-626 | the recorded power feeds are exactly the cells holding '3' |
| Grid.ValueOf | 0008_GamePacman/GameMaze.swift:594-618 | a character writes road, feed, power feed or wall; food exactly for '1', '2' and '3'; a wall exactly where the attribute is a wall |
| Grid.AttributeOf | 0008_GamePacman/GameMaze.swift:594-618 | a character writes slow, road, one-way or wall; food never sits on a wall or a slow tile |
| Grid.NoFeedsInLine | 0008_GamePacman/GameMaze.swift:593-620 | `CountFeedsInLine`: a line counts no feed exactly when none of its characters is a feed character |
| Grid.NoFeeds | 0008_GamePacman/GameMaze.swift:585-626 | `CountFeeds`: the count is zero exactly when no line of the source holds a feed character |
| Grid.WrapColumn | 0008_GamePacman/GameMaze.swift:463-470 | one column past either edge reads the opposite edge |
| Grid.CgMazeGrid.GetTile | 0008_GamePacman/GameMaze.swift:463-470 | the value at the wrapped column; a row off the grid reads as Wall |
| Grid.CgMazeGrid.AttributeAt | 0008_GamePacman/GameMaze.swift:488-499 | the attribute at the wrapped column; a row off the grid reads as Wall |
| Grid.CgMazeGrid.GetTileAttribute | 0008_GamePacman/GameMaze.swift:472-486 | the next tile's attribute once at or past the centre towards the direction, otherwise the actor's own |
| Grid.CgMazeGrid.SetTile | 0008_GamePacman/GameMaze.swift:459-461 | exactly one cell changes |
| Grid.CgMazeGrid.SetMazeValuesAndAttributes | 0008_GamePacman/GameMaze.swift:585-626 | each cell the source reaches gets its character's value and attribute, the rest keep theirs; returns the feed count; records the power feeds |
| Steering.CanPassFacts | 0008_GamePacman/GameGhost.swift:864-878 | `CanPass`: only a heading can be passed, and the one-way rule only forbids more |
| Steering.PassableOneWayIncluded | 0008_GamePacman/GameGhost.swift:864-878 | the passable headings under the one-way rule are among those without it, and the rule closes only Up |
| Steering.TravelFacts | 0008_GamePacman/GameGhost.swift:922-951 | `Travel`: travel keeps a valid position valid, moves only along the heading's axis, at most one dot per speed unit, and not at all when blocked |
| Steering.TargetDirection | 0008_GamePacman/GameGhost.swift:884-915 | along the axis of the larger offset (vertical on a tie), or one axis when selected; Stop with no offset |
| Steering.Distance | 0008_GamePacman/GameGhost.swift:969-971 | never negative, and zero exactly when the neighbour in that heading is the target tile |
| Steering.NearestUnique | 0008_GamePacman/GameGhost.swift:958-988 | there is at most one nearest heading |
| Steering.NearestCorrect | 0008_GamePacman/GameGhost.swift:958-988 | `Nearest`: the corrected choice is the nearest allowed heading, first in scan order among equals, None only when nothing is allowed |
| Steering.NearestCappedCharacterised | 0008_GamePacman/GameGhost.swift:958-988 | `NearestCapped`: as written, headings at MAZE_MAX_DISTANCE or farther are never chosen |
| Steering.FarTargetForcesReversal | 0008_GamePacman/GameGhost.swift:958-988 | as written, a ghost with three open headings reverses when its target is far off the board |
| Steering.TurnsCoverHeadings | 0008_GamePacman/GameGhost.swift:995-1014 | four clockwise turns meet every heading once |
| Steering.NextPassableIsFirst | 0008_GamePacman/GameGhost.swift:995-1014 | the repeat loop stops at the first passable heading clockwise |
| Steering.NextPassableFound | 0008_GamePacman/GameGhost.swift:995-1014 | when some heading is passable, the loop finds one |
| Steering.RandomChoiceSound | 0008_GamePacman/GameGhost.swift:995-1014 | `RandomChoice`: the random choice is passable, and turns back only when that is the only way |
| Steering.DistinctTurns | 0008_GamePacman/GameGhost.swift:995-1014 | the first three clockwise turns differ from the heading |
| Scores.Score | 0008_GamePacman/GamePts.swift:29-45 | the points of each popup |
| Scores.ScoreInjective | 0008_GamePacman/GamePts.swift:29-45 | different popups stand for different points |
| Scores.TwoTimesDoubles | 0008_GamePacman/GamePts.swift:47-55 | doubling on 100, 200, 400 and 800; every other popup is fixed |
| Scores.GhostChainFrom200 | 0008_GamePacman/GamePts.swift:47-55 | from 200, each ghost eaten doubles the next one's score up to 1600, where it stays |
| Scores.ScorePtsOf | 0008_GamePacman/GameSpTarget.swift:25-37 | the popup of each fruit |
| Scores.FruitScoresIncrease | 0008_GamePacman/GameSpTarget.swift:25-37 | later fruits are worth strictly more, and the Key 5000 |
| Context.NextCycles | 0008_GamePacman/GameContext.swift:29-90 | each setting cycles through all its values and never stays put |
| Context.DifficultyRowsAreRounds | 0008_GamePacman/GameContext.swift:131-155 | the difficulty rows are the rounds 1, 2, ... in order |
| Context.DifficultyOf | 0008_GamePacman/GameContext.swift:258-274 | the first row in the demo, row round-1 otherwise, clamped to the last |
| Context.DifficultyClamps | 0008_GamePacman/GameContext.swift:258-274 | every round past the table plays like its last |
| Context.PlayerSpeed | 0008_GamePacman/GameContext.swift:276-295 | the table's player speed for an action, with or without power |
| Context.PlayerSpeedOrdering | 0008_GamePacman/GameContext.swift:157-172 | power never slows the player; feeds slow it, power feeds more |
| Context.GhostSpeed | 0008_GamePacman/GameContext.swift:297-314 | the table's ghost speed for an action |
| Context.GhostSpeedOrdering | 0008_GamePacman/GameContext.swift:157-172 | warping < frightened < walking < spurting < escaping on every level |
| Context.NormalAppearance | 0008_GamePacman/GameContext.swift:334-352 | ghosts allowed out by level and feeds eaten |
| Context.NormalAppearanceMonotone | 0008_GamePacman/GameContext.swift:334-352 | more feeds, or a harder level, never let fewer ghosts out |
| Context.Appearance | 0008_GamePacman/GameContext.swift:316-356 | after a miss 1, 2 or 3 ghosts until 32 feeds end the bypass; otherwise the normal rule |
| Context.WavyChase | 0008_GamePacman/GameContext.swift:357-374 | the scatter and chase phases of each level |
| Context.WavyChaseScatterPhases | 0008_GamePacman/GameContext.swift:357-374 | three scatter phases, then chase for good |
| Context.CgContext.JudgeGhostsWavyChase | 0008_GamePacman/GameContext.swift:357-374 | never chase in the first 5 s of a round; always at level A after 84 s; otherwise the table at the round's speed level |
| Context.BlinkySpurtPersists | 0008_GamePacman/GameContext.swift:376-380 | `JudgeBlinkySpurt`: a spurt, once begun, survives every later feed eaten |
| Context.DemoTableOrdered | 0008_GamePacman/GameContext.swift:174-180 | the demo script is in increasing frame order and only swipes headings |
| Context.ExtendScore | 0008_GamePacman/GameContext.swift:217-223 | 20000 in English, 10000 in Japanese |
| Context.CgContext.constructor | 0008_GamePacman/GameContext.swift:185-207 | a context with the default configuration, no score and round 0 |
| Context.CgContext.ResetConfiguration | 0008_GamePacman/GameContext.swift:199-206 | the six stored settings back to their defaults, and no other field changed |
| Context.CgContext.ResetGame | 0008_GamePacman/GameContext.swift:217-223 | score 0, three lives, round 1, extra life not given |
| Context.CgContext.ResetRound | 0008_GamePacman/GameContext.swift:225-232 | counters cleared, fruit after 70 feeds, ghost popup 200, the round's difficulty |
| Context.CgContext.ResetGhostPts | 0008_GamePacman/GameContext.swift:234-237 | the ghost popup is 200 |
| Context.CgContext.SetPlayerMiss | 0008_GamePacman/GameContext.swift:239-243 | the bypass starts counting from zero |
| Context.CgContext.UpdateHighScore | 0008_GamePacman/GameContext.swift:246-251 | the high score rises to the score; reports whether it was beaten |
| Context.CgContext.UpdateSpecialTargetAppeared | 0008_GamePacman/GameContext.swift:253-256 | the next fruit comes after another 100 feeds |
| Context.CgContext.SetDifficulty | 0008_GamePacman/GameContext.swift:258-274 | the fields hold DifficultyOf(demo, round) |
| Context.CgContext.GetPlayerSpeed | 0008_GamePacman/GameContext.swift:276-295 | 16 while not moving on its own, between 13 and 20 otherwise, read at the round's speed level |
| Context.CgContext.GetGhostSpeed | 0008_GamePacman/GameContext.swift:297-314 | 8 in and out of the nest and 32 escaping whatever the level, between 8 and 32 always, read at the round's speed level |
| Context.CgContext.GetNumberOfGhostsForAppearance | 0008_GamePacman/GameContext.swift:316-356 | the object follows Appearance |
| Context.CgContext.GetOperationForDemo | 0008_GamePacman/GameContext.swift:383-393 | the script's next swipe once its frame has come, None otherwise |
| GhostState.GhostStateValue.Reset | 0008_GamePacman/GameGhost.swift:455-465 | Init, no spurt, not frightened, timers reset |
| GhostState.GhostStateValue.Set | 0008_GamePacman/GameGhost.swift:475-477 | only the requested mode changes |
| GhostState.GhostStateValue.Update | 0008_GamePacman/GameGhost.swift:479-484 | the request is committed and drawing is updated |
| GhostState.GhostStateValue.SetSpurt | 0008_GamePacman/GameGhost.swift:490-495 | spurt on or off |
| GhostState.GhostStateValue.SetFrightened | 0008_GamePacman/GameGhost.swift:501-511 | frightened for the time given, or not; no blinking |
| GhostState.GhostStateValue.UpdateFrightened | 0008_GamePacman/GameGhost.swift:430-453 | blinking in the last 2000 ms, flips at the blink timer's levels, ends when the timer fires |
| GhostState.GhostStateValue.Frame | 0008_GamePacman/GameGhost.swift:424-428 | the handler while frightened, then the two timers |
| GhostState.FrightenedLasts | 0008_GamePacman/GameGhost.swift:424-453 | until the timer fires the ghost stays frightened and the timer runs as a bare timer |
| GhostState.FrightenedPeriod | 0008_GamePacman/GameGhost.swift:424-511 | a period of time ms lasts while the intervals add up to less, and ends one update after |
| GhostState.FiredEndsFrightened | 0008_GamePacman/GameGhost.swift:424-453 | once the timer has fired, one more update ends the fright |
| GhostState.StaysUnfrightened | 0008_GamePacman/GameGhost.swift:424-453 | nothing in the updates frightens a ghost again |
| GhostState.FiredThenCleared | 0008_GamePacman/GameGhost.swift:424-453 | a fired fright is cleared by any update |
| GhostState.CgGhostState.Reset | 0008_GamePacman/GameGhost.swift:455-465 | the object follows GhostStateValue.Reset |
| GhostState.CgGhostState.Set | 0008_GamePacman/GameGhost.swift:475-477 | the object follows GhostStateValue.Set |
| GhostState.CgGhostState.Update | 0008_GamePacman/GameGhost.swift:479-484 | the object follows GhostStateValue.Update |
| GhostState.CgGhostState.SetSpurt | 0008_GamePacman/GameGhost.swift:490-495 | the object follows GhostStateValue.SetSpurt |
| GhostState.CgGhostState.SetFrightened | 0008_GamePacman/GameGhost.swift:501-511 | the object follows GhostStateValue.SetFrightened |
| GhostState.CgGhostState.ClearDrawingUpdate | 0008_GamePacman/GameGhost.swift:537-539 | only the drawing flag clears |
| GhostState.CgGhostState.UpdateFrightened | 0008_GamePacman/GameGhost.swift:430-453 | the object follows GhostStateValue.UpdateFrightened |
| GhostState.CgGhostState.Frame | 0008_GamePacman/GameGhost.swift:424-428 | the object follows GhostStateValue.Frame |
| Ghost.HomePosition | 0008_GamePacman/GameGhost.swift:31-207 | the start tile of each ghost |
| Ghost.HomeHeading | 0008_GamePacman/GameGhost.swift:31-207 | the start heading of each ghost |
| Ghost.HomeMode | 0008_GamePacman/GameGhost.swift:31-207 | Blinky scatters from outside; the others wait in the nest |
| Ghost.ScatterTarget | 0008_GamePacman/GameGhost.swift:52-225 | each ghost's own corner |
| Ghost.NestTarget | 0008_GamePacman/GameGhost.swift:58-229 | each ghost's place in the nest |
| Ghost.StandbyHeading | 0008_GamePacman/GameGhost.swift:654-656 | a waiting ghost bobs up or down: Pinky down (its override at GameGhost.swift:104-106), the others up |
| Ghost.PinkyTarget | 0008_GamePacman/GameGhost.swift:96-101 | four tiles ahead of the player |
| Ghost.InkyTarget | 0008_GamePacman/GameGhost.swift:154-159 | Blinky's tile mirrored through the player's |
| Ghost.ChaseTargets | 0008_GamePacman/GameGhost.swift:96-159 | Pinky's target is four tiles ahead, or the player's tile when it is still; the player is the midpoint of Blinky and Inky's target |
| Ghost.ClydeFarAlongAxes | 0008_GamePacman/GameGhost.swift:209-215 | `ClydeFarFromPlayer`: Clyde counts as far from the player whenever they are more than 130 dots apart along one axis, and never while within 91 dots along both |
| Ghost.Redirect | 0008_GamePacman/GameGhost.swift:855-862 | commits the heading, drops the fractions and counts one dot |
| Ghost.BobStaysInNest | 0008_GamePacman/GameGhost.swift:701-714 | `Bob`: bobbing stays within half a tile of the centre line and turns only at its edge |
| Ghost.MoveTowards | 0008_GamePacman/GameGhost.swift:716-768 | a step towards a target never takes the ghost farther |
| Ghost.WalkApproaches | 0008_GamePacman/GameGhost.swift:716-768 | `WalkToTarget`: walking in or out of the nest never goes farther, keeps validity, and arrival is exact |
| Ghost.ChoiceByTargetSound | 0008_GamePacman/GameGhost.swift:958-988 | `ChoiceByTarget`: the nearest passable heading not turning back, back only when nothing else is open |
| Ghost.ChoiceByRandomSound | 0008_GamePacman/GameGhost.swift:995-1014 | `ChoiceByRandom`: at a centre with an open heading, an open heading, and straight back only when it is the one open heading |
| Ghost.Steer | 0008_GamePacman/GameGhost.swift:922-951 | a ghost chooses only after moving a dot, and a new heading resets the fractions and count |
| Ghost.CgGhost.constructor | 0008_GamePacman/GameGhost.swift:558-568 | a disabled ghost of its kind, in the initial state |
| Ghost.CgGhost.Reset | 0008_GamePacman/GameGhost.swift:570-575 | disabled, at home, facing the home heading, asked for the home mode |
| Ghost.CgGhost.Start | 0008_GamePacman/GameGhost.swift:578-582 | enabled |
| Ghost.CgGhost.Stop | 0008_GamePacman/GameGhost.swift:584-588 | disabled |
| Ghost.CgGhost.UpdateDirection | 0008_GamePacman/GameGhost.swift:855-862 | the object follows Redirect |
| Ghost.CgGhost.SpeedFor | 0008_GamePacman/GameGhost.swift:832-853 | walking in a slow tile is warping; walking while spurting is spurting |
| Ghost.CgGhost.CanMove | 0008_GamePacman/GameGhost.swift:864-878 | never into a wall and only along an axis the ghost is centred on; every such heading is open except Up into a one-way tile from a centre under the one-way rule |
| Ghost.CgGhost.DecideDirectionByTarget | 0008_GamePacman/GameGhost.swift:958-988 | the scan returns ChoiceByTarget |
| Ghost.CgGhost.DecideDirectionByRandom | 0008_GamePacman/GameGhost.swift:995-1014 | the loop returns ChoiceByRandom |
| Ghost.CgGhost.TurnToPassable | 0008_GamePacman/GameGhost.swift:1003-1005 | the repeat loop ends on FirstPassable, the first passable heading clockwise |
| Ghost.CgGhost.MoveGhost | 0008_GamePacman/GameGhost.swift:922-951 | steers by Steer, then travels |
| Ghost.CgGhost.Turn | 0008_GamePacman/GameGhost.swift:927-942 | the dot, heading and chosen heading are those Steer gives |
| Ghost.CgGhost.Advance | 0008_GamePacman/GameGhost.swift:922-951 | the loop ends where Travel does |
| Ghost.CgGhost.DoActionInStandby | 0008_GamePacman/GameGhost.swift:701-714 | bobs as Bob says |
| Ghost.CgGhost.DoActionInGoOut | 0008_GamePacman/GameGhost.swift:716-745 | walks out; asks for Scatter on arrival |
| Ghost.CgGhost.WalkOut | 0008_GamePacman/GameGhost.swift:716-768 | the loop ends where WalkToTarget does |
| Ghost.CgGhost.DoActionInEscapeInNest | 0008_GamePacman/GameGhost.swift:747-768 | walks into the nest; on arrival stops being frightened and waits |
| Ghost.CgGhost.DoActionInScatter | 0008_GamePacman/GameGhost.swift:770-773 | walks by target, one-way tiles forbidden |
| Ghost.CgGhost.DoActionInChase | 0008_GamePacman/GameGhost.swift:232-247 | Clyde wanders unless far from the player |
| Ghost.CgGhost.DoActionInEscape | 0008_GamePacman/GameGhost.swift:779-786 | runs to the nest's exit and then enters the nest |
| Ghost.CgGhost.DoActionInFrightened | 0008_GamePacman/GameGhost.swift:788-794 | wanders, one-way tiles allowed |
| Ghost.CgGhost.EntryAction | 0008_GamePacman/GameGhost.swift:654-695 | the entry action of each mode, as `EnteredMode`: target, restriction and the turn each mode makes on entry |
| Ghost.CgGhost.DoAction | 0008_GamePacman/GameGhost.swift:630-649 | the mode is not changed; in each mode, the position, heading, restriction and state that mode's action gives (bobbing, walking out or in, steering by target or at random, escaping) |
| Ghost.CgGhost.Update | 0008_GamePacman/GameGhost.swift:590-649 | commits a requested mode; stops when waiting while suspended; otherwise leaves no heading change pending |
| Ghost.CgGhost.CommitMode | 0008_GamePacman/GameGhost.swift:595-606 | with a mode pending, its entry action as `EnteredMode` and the mode committed; with none, nothing changes; a tile centre still has a passable heading |
| Ghost.CgGhost.CommitHeading | 0008_GamePacman/GameGhost.swift:639-646 | a pending heading is committed on the dot rounded down, otherwise heading and dot are kept; only the drawing flag of the state is cleared |
| Ghost.CgGhost.Frame | 0008_GamePacman/GameGhost.swift:590-649 | a disabled ghost ignores the message |
| Ghost.CgGhost.SetStateToStandby | 0008_GamePacman/GameGhost.swift:796-799 | taken only from EscapeInNest |
| Ghost.CgGhost.SetStateToGoOut | 0008_GamePacman/GameGhost.swift:801-804 | taken only from Standby |
| Ghost.CgGhost.SetStateToScatter | 0008_GamePacman/GameGhost.swift:812-816 | taken only from Chase |
| Ghost.CgGhost.SetStateToFrightened | 0008_GamePacman/GameGhost.swift:818-822 | a ghost not returning to the nest is frightened and turns round |
| Ghost.CgGhost.SetStateToEscape | 0008_GamePacman/GameGhost.swift:824-827 | only a frightened ghost is asked to run back |
| Ghost.CgGhost.Chase | 0008_GamePacman/GameGhost.swift:806-810 | taken only in scatter or chase when not frightened, aiming at the kind's target; Clyde follows only from afar |
| Ghost.PassableOnSameSpot | 0008_GamePacman/GameGhost.swift:864-878 | passability depends only on the tile and the offset |
| GhostManager.FirstTouch | 0008_GamePacman/GameGhost.swift:340-358 | the first ghost touching the player, or -1 |
| GhostManager.FirstTouchIsFirst | 0008_GamePacman/GameGhost.swift:343-344 | `Touches`: the index found touches the player and no earlier ghost does; -1 exactly when none touches |
| GhostManager.ExaminedIff | 0008_GamePacman/GameGhost.swift:302-312 | `Examined`: the release loop reaches an index exactly when it is within the count and no earlier ghost was forced out |
| GhostManager.ReleasedCharacterised | 0008_GamePacman/GameGhost.swift:302-312 | `Released`: which waiting ghosts go out |
| GhostManager.ForcedReleasesOne | 0008_GamePacman/GameGhost.swift:302-312 | forcing releases at most one ghost |
| GhostManager.CgGhostManager.Append | 0008_GamePacman/GameGhost.swift:261-263 | the ghost joins the end of the list |
| GhostManager.CgGhostManager.Reset | 0008_GamePacman/GameGhost.swift:265-269 | every ghost reset: disabled, at its home dot heading its home heading with nothing pending, its home mode requested, unrestricted, target kept, Clyde's chase mode cleared and the others' kept |
| GhostManager.CgGhostManager.Start | 0008_GamePacman/GameGhost.swift:271-275 | every ghost enabled |
| GhostManager.CgGhostManager.Stop | 0008_GamePacman/GameGhost.swift:277-281 | every ghost disabled |
| GhostManager.CgGhostManager.SetStateToFrightened | 0008_GamePacman/GameGhost.swift:296-300 | every ghost not returning is frightened for the given time and turns back as `Redirect` to its reverse heading; a returning ghost keeps its state, dot and heading |
| GhostManager.CgGhostManager.SetStateToGoOut | 0008_GamePacman/GameGhost.swift:302-312 | exactly the Released ghosts are asked to go out |
| GhostManager.CgGhostManager.ReleaseOne | 0008_GamePacman/GameGhost.swift:305-306 | the waiting ghost is asked to go out and no other ghost changes |
| GhostManager.CgGhostManager.IsFrightenedState | 0008_GamePacman/GameGhost.swift:314-323 | some ghost is frightened |
| GhostManager.CgGhostManager.IsEscapeState | 0008_GamePacman/GameGhost.swift:325-334 | some ghost is escaping or asked to |
| GhostManager.CgGhostManager.IsGhostInNest | 0008_GamePacman/GameGhost.swift:376-385 | some ghost waits in the nest |
| GhostManager.CgGhostManager.DetectCollision | 0008_GamePacman/GameGhost.swift:340-358 | the first touching ghost decides: frightened is eaten and escapes, otherwise the player is caught |
| GhostManager.CgGhostManager.FindTouch | 0008_GamePacman/GameGhost.swift:343-344 | the scan over the ghosts in order stops at FirstTouch |
| GhostManager.CgGhostManager.CollideWith | 0008_GamePacman/GameGhost.swift:345-352 | a frightened ghost escapes and its position is recorded, otherwise the player is caught unless the ghost is escaping; no other ghost changes |
| GhostManager.CgGhostManager.StartWithoutEscaping | 0008_GamePacman/GameGhost.swift:360-366 | every ghost not escaping is enabled |
| GhostManager.CgGhostManager.StopWithoutEscaping | 0008_GamePacman/GameGhost.swift:368-374 | every ghost not escaping is disabled |
| Player.FromPixelsRoundTrip | 0008_GamePacman/GameActor.swift:136-165 | reading back the pixels of a position set from pixels gives the pixels; on the board it is valid |
| Player.BoardTargetsWithinCap | 0008_GamePacman/GamePlayer.swift:273-298 | on the board, every neighbour is nearer than the cap, so the capped choice is the plain nearest one |
| Player.TargetOptionsArePassable | 0008_GamePacman/GamePlayer.swift:273-298 | the touch options are the headings open to the player (one-way tiles do not bind it), less straight back unless forced |
| Player.ChoiceTowardsSound | 0008_GamePacman/GamePlayer.swift:273-298 | `ChoiceTowards`: the nearest open heading when there is one, the requested heading otherwise |
| Player.CanTurnPerpendicular | 0008_GamePacman/GamePlayer.swift:125-140 | `CanTurn`: corners are cut only between perpendicular headings |
| Player.CornerFacts | 0008_GamePacman/GamePlayer.swift:145-166 | `Corner`: cornering keeps validity and ends on the centre line |
| Player.EatingAction | 0008_GamePacman/GamePlayer.swift:189-215 | walking exactly when nothing edible is ahead |
| Player.MealAheadFacts | 0008_GamePacman/GamePlayer.swift:189-215 | `MealAhead`: a meal is reported only 4 dots into the way, for that tile, and only for food |
| Player.TileAhead | 0008_GamePacman/GamePlayer.swift:192-195 | road until at least 4 dots past the centre towards a heading; from there, the tile of the neighbouring cell |
| Player.MoveSpeed | 0008_GamePacman/GamePlayer.swift:197-214 | between 13 and 20, and the walking speed when the tile ahead holds no food |
| Player.WalkFacts | 0008_GamePacman/GamePlayer.swift:217-240 | `Walk`: after a walk the player faces its request, unless blocked: then it keeps facing and asks to stop |
| Player.WalkStepFacts | 0008_GamePacman/GamePlayer.swift:189-240 | `WalkStep`: a walk keeps the player on the board and eats only the food ahead |
| Player.PlayerStepFacts | 0008_GamePacman/GamePlayer.swift:96-116 | `PlayerStep`: an update keeps validity; corners begin standing still; meals only while walking; headings come from current, requested or wanted |
| Player.CgPlayer.Reset | 0008_GamePacman/GamePlayer.swift:67-80 | disabled, at home, stopped, timers set and idle |
| Player.CgPlayer.Start | 0008_GamePacman/GamePlayer.swift:83-87 | enabled, the not-eating timer counts |
| Player.CgPlayer.Stop | 0008_GamePacman/GamePlayer.swift:90-92 | disabled |
| Player.CgPlayer.CanMoveTo | 0008_GamePacman/GamePlayer.swift:178-184 | exactly the headings the player is centred for, into a neighbour that is not a wall; at a tile centre every such heading |
| Player.CgPlayer.HandleSwipe | 0008_GamePacman/GamePlayer.swift:45-58 | the wanted heading changes only when enabled in swipe mode |
| Player.CgPlayer.HandleTouch | 0008_GamePacman/GamePlayer.swift:45-58 | the target tile is set and chosen towards only when enabled in touch mode |
| Player.CgPlayer.DecideDirectionByTarget | 0008_GamePacman/GamePlayer.swift:273-298 | the scan returns ChoiceTowards |
| Player.CgPlayer.Turn | 0008_GamePacman/GamePlayer.swift:145-166 | the loop ends where Corner does |
| Player.CgPlayer.Move | 0008_GamePacman/GamePlayer.swift:189-240 | walks as WalkStep, reporting MealAhead, restarting timers for food |
| Player.CgPlayer.Eat | 0008_GamePacman/GamePlayer.swift:190-214 | the speed for what is ahead, the meal ahead, the not-to-eat timer restarted for a feed or power feed and the power timer for a power feed |
| Player.CgPlayer.WalkOn | 0008_GamePacman/GamePlayer.swift:216-240 | the position and heading follow Walk, whose facts WalkFacts states |
| Player.CgPlayer.Proceed | 0008_GamePacman/GamePlayer.swift:101-118 | the new position, heading, action and meal follow PlayerStep, with the eating timers restarted for what was eaten |
| Player.CgPlayer.Update | 0008_GamePacman/GamePlayer.swift:96-116 | one step of PlayerStep towards the wanted heading |
| Player.CgPlayer.Frame | 0008_GamePacman/GamePlayer.swift:96-116 | a disabled player changes nothing; an enabled one re-aims in touch operation, takes the `PlayerStep` step with its meal, and then both timers count |
| Expiry.Frame | 0008_GamePacman/GamePts.swift:109-124 | an enabled actor whose timer fired goes away; otherwise its timer counts |
| Expiry.CountsDown | 0008_GamePacman/GamePts.swift:109-124 | with more than k intervals left, the actor is still there after k updates |
| Expiry.Disappears | 0008_GamePacman/GamePts.swift:109-124 | an actor shows for exactly the updates its time covers, then goes |
| Expiry.GoneStaysGone | 0008_GamePacman/GamePts.swift:109-124 | a gone actor stays gone |
| Popups.CgScorePts.StartAt | 0008_GamePacman/GamePts.swift:130-135 | enabled, the kind and position given, the timer counting the time given |
| Popups.CgScorePts.Start | 0008_GamePacman/GamePts.swift:96-105 | enabled, timer counting |
| Popups.CgScorePts.Update | 0008_GamePacman/GamePts.swift:109-113 | stops once its timer fired |
| Popups.CgScorePts.Stop | 0008_GamePacman/GamePts.swift:116-124 | disabled, timer reset |
| Popups.CgScorePts.Frame | 0008_GamePacman/GamePts.swift:109-124 | the popup follows Expiry.Frame |
| Popups.Sweep | 0008_GamePacman/GamePts.swift:186-197 | the update as written: no popup is created or lost in count |
| Popups.SweepOldestFirst | 0008_GamePacman/GamePts.swift:186-197 | when the expired popups are the oldest, exactly they move to the free list, in order |
| Popups.NoneExpired | 0008_GamePacman/GamePts.swift:186-197 | with nothing expired nothing moves |
| Popups.SweepOutOfOrder | 0008_GamePacman/GamePts.swift:186-197 | a popup expiring before an older one loses the older one and lists itself twice |
| Popups.CgScorePtsManager.constructor | 0008_GamePacman/GamePts.swift:148-155 | five fresh free popups |
| Popups.CgScorePtsManager.Reset | 0008_GamePacman/GamePts.swift:158-163 | every free popup reset; the manager idle |
| Popups.CgScorePtsManager.Start | 0008_GamePacman/GamePts.swift:170-182 | the first free popup, or the oldest showing one, becomes the newest showing one, started with the kind, place and time given; every other popup is unchanged |
| Popups.CgScorePtsManager.Update | 0008_GamePacman/GamePts.swift:186-197 | the lists follow Sweep; the manager idles once nothing shows |
| Popups.CgScorePtsManager.Stop | 0008_GamePacman/GamePts.swift:200-207 | every showing popup stopped and freed |
| Popups.CgScorePtsManager.Frame | 0008_GamePacman/GamePts.swift:186-197 | an enabled manager sweeps the expired popups as `Sweep` and stays enabled exactly while one still shows; a disabled one changes nothing |
| SpecialTarget.SecondTargetVanishesAsWritten | 0008_GamePacman/GameSpTarget.swift:78-99 | as written, a fruit started again after a stop is gone within two updates |
| SpecialTarget.SecondTargetStaysCorrected | 0008_GamePacman/GameSpTarget.swift:78-99 | corrected, it stays as long as the first |
| SpecialTarget.StartsAgreeAfterReset | 0008_GamePacman/GameSpTarget.swift:70-83 | after a reset both starts agree |
| SpecialTarget.StartAsWritten | 0008_GamePacman/GameSpTarget.swift:78-83 | the timer counts on from where it stood: time left and fired flag unchanged |
| SpecialTarget.StartCorrected | 0008_GamePacman/GameSpTarget.swift:78-83 | the timer counts again from the full setting, not fired |
| SpecialTarget.CgSpecialTarget.Reset | 0008_GamePacman/GameSpTarget.swift:70-75 | disabled, on its tile, timer full and idle |
| SpecialTarget.CgSpecialTarget.Start | 0008_GamePacman/GameSpTarget.swift:105-108 | enabled as the kind, timer counting the full time, its tile Fruit and no other cell changed |
| SpecialTarget.CgSpecialTarget.Update | 0008_GamePacman/GameSpTarget.swift:87-91 | once its timer fired the fruit stops and its tile becomes Road; no other cell changes, and nothing at all changes before it fired |
| SpecialTarget.CgSpecialTarget.Stop | 0008_GamePacman/GameSpTarget.swift:94-99 | disabled, timer stopped, its tile Road and no other cell changed |
| SpecialTarget.CgSpecialTarget.Frame | 0008_GamePacman/GameSpTarget.swift:87-99 | the fruit follows Expiry.Frame; its tile becomes Road when it was enabled and fired, no other cell ever changes, and otherwise the grid is unchanged |
| Maze.StateOf | 0008_GamePacman/GameMaze.swift:109-113 | defined exactly on 0 to 14, inverse to the state numbers |
| Maze.StateNumbersRoundTrip | 0008_GamePacman/GameMaze.swift:109-113 | every state has its own number |
| Maze.AddPoints | 0008_GamePacman/GameMaze.swift:526-541 | nothing in the demo; otherwise the score grows by the points, the high score is the larger of it and the old high score, and one life is added exactly when the threshold is first reached |
| Maze.SequenceContinues | 0008_GamePacman/GameMaze.swift:119-148 | the scene goes on after every sequence number from 0 to 14 except GameOver's 12, and ends after any other number |
| Maze.ExtraLifeAtMostOnce | 0008_GamePacman/GameMaze.swift:526-541 | over any run of scores the extra life comes at most once, surely once the threshold is reached, and the high score keeps up |
| Maze.FlashCadence | 0008_GamePacman/GameMaze.swift:324-344 | white first and then blue and white every 13 frames: four of each |
| Maze.FlashAt | 0008_GamePacman/GameMaze.swift:324-344 | a redraw exactly every 13 frames of the count, white on multiples of 26 and blue between |
| Maze.CgSceneMaze.AddScore | 0008_GamePacman/GameMaze.swift:526-541 | the book follows AddPoints |
| Maze.CgSceneMaze.GoToNextSequence | 0008_GamePacman/GameMaze.swift:501-503 | the scene follows SceneState.GoToNext with the state's sequence number |
| Maze.CgSceneMaze.PlayerEatFeed | 0008_GamePacman/GameMaze.swift:401-430 | tile Road, 10 or 50 points, power frightens and turns back the ghosts, counters up, fruit at its count, round clear at the last feed; Blinky's spurt, once begun, holds |
| Maze.CgSceneMaze.ScoreFeed | 0008_GamePacman/GameMaze.swift:401-413 | the eaten tile becomes Road and no other cell changes; a power feed resets the ghost points to 200 and frightens every ghost that is not escaping, turning it back; 10 or 50 points added |
| Maze.CgSceneMaze.CountFeed | 0008_GamePacman/GameMaze.swift:415-423 | both eaten counters go up by one; exactly when the count reaches its threshold the fruit appears on its tile, no other cell changes, and the next threshold is 100 feeds on; Blinky's spurt, once begun, holds |
| Maze.CgSceneMaze.PlayerEatFruit | 0008_GamePacman/GameMaze.swift:432-441 | tile Road, fruit gone, its popup for 2000 ms, its points |
| Maze.CgSceneMaze.PlayerEat | 0008_GamePacman/GamePlayer.swift:197-215 | the player's meal goes to the rule for its tile |
| Maze.CgSceneMaze.PlayerEatsGhost | 0008_GamePacman/GameMaze.swift:277-288 | the ghost's popup, doubled worth, its points, everything but escaping ghosts stopped, back to updating after 1000 ms |
| Maze.CgSceneMaze.ScoreGhost | 0008_GamePacman/GameMaze.swift:278-281 | a popup of the ghost's worth at the collision, the worth doubled for the next ghost, its points added |
| Maze.CgSceneMaze.Freeze | 0008_GamePacman/GameMaze.swift:282-285 | the player and the fruit disabled, and every ghost not escaping |
| Maze.CgSceneMaze.SequenceReturnToUpdating | 0008_GamePacman/GameMaze.swift:299-304 | the player (its not-eating timer started), the fruit and the ghosts not escaping move again, and the scene goes to Updating |
| Maze.CgSceneMaze.IsSuspendUpdating | 0008_GamePacman/GameMaze.swift:397-399 | exactly while the scene waits to return to updating |
| Maze.CgSceneMaze.SequencePrepareFlashMaze | 0008_GamePacman/GameMaze.swift:316-322 | fruit and popups gone, 104 frames to flash |
| Maze.CgSceneMaze.SequenceFlashMaze | 0008_GamePacman/GameMaze.swift:324-344 | redraw by FlashAt and count down; then the next round or the intermission |
| Maze.CgSceneMaze.PrepareNextRound | 0008_GamePacman/GameMaze.swift:346-353 | next round, counters reset, the new maze's feeds counted, Ready |
| Maze.CgSceneMaze.SequencePlayerRestart | 0008_GamePacman/GameMaze.swift:376-391 | fruit and popups gone, one life fewer, Ready while lives remain, GameOver after 2000 ms otherwise |

## Left out

- Drawing, sprites, textures, sound, the blinking 1UP and messages: no game state depends on them.
- Saving the configuration to UserDefaults is I/O and is left out. `Context.CgContext.constructor` starts from the default configuration.
- `GameScene`, `GameViewController` and `GameMain` are left out. So are the attract and intermission screens (`GameSequences.swift`).
- The random heading of a frightened ghost is a parameter (`start`) and is not drawn.
- The maze's source text is a parameter of `SetMazeValuesAndAttributes`, `SequenceFlashMaze` and `PrepareNextRound`; the round's literal maze text is not reproduced.
- Grid rows off the board read as Wall. In the program they index out of range and trap; actors never reach them.
- Setting a tile one column past the edge, which the program would trap on, is excluded by the requires of `SetTile` and the maze's eating rules.
- `sequenceInit`, `sequenceDemo`, `sequenceStart`, `sequenceReady`, `sequenceGo`, `sequenceUpdating`, `sequenceRoundClear`, `sequencePlayerMiss`, `sequencePlayerDisappeared` and `sequenceIntermission` are not modelled as methods. They only order calls to the operations modelled here and start drawing and sound. `Maze.SequenceContinues` models `handleSequence`'s verdict.
- The player reports what it eats as a `Meal` result, and the maze applies it afterwards (`Maze.CgSceneMaze.PlayerEat`). The program calls the maze from inside `move()`. The order does not matter: eating writes the value grid, while movement reads the attribute grid.
- The swipe handler takes a `Dir` directly. The program parses the raw value carried by the message.
- The direction fields of `CgScorePts` and `CgSpecialTarget` are left out. They are only used for drawing.
- `CgDirection.get()`, `getNext()` and `isChanging()` are read through `Direction.CgDirection.Value()`, which exposes the whole `Heading`. `Direction.SetThenUpdate` states when a change is pending and what committing it gives.
- The ghost's `forcedDirectionChange` argument is always false at every call site, and is left out.
- `CgGhostManager.collisionPosition` holds a copy of the eaten ghost's position. The program holds the same object, but it is only read before the ghost moves again.
- Ghost.CgGhost.Update: states the mode commit, the suspension and the pending-heading reset. The movement of each mode is stated by `Ghost.CgGhost.DoAction` and is not repeated in this contract. The requires also asks that a tile centre has a passable heading, since otherwise the random search in the program never ends.
- Ghost.CgGhost.Frame: states only that a disabled ghost ignores the message and that validity is kept, for the same reason.
- Dispatch.Delivery: takes every enabled flag from a snapshot made before the message is sent. In the program a handler that runs earlier in the same dispatch can switch a later object off or on. For example, when the player eats a ghost, the maze scene's handler stops the player and the ghosts (GameMaze.swift:281-285) before they receive that frame's update.
- Dispatch.DeliveryReaches: characterises delivery over that same snapshot, so it does not cover objects switched during the dispatch.
- Ghost.ChoiceByTarget: chooses with the uncapped `Steering.Nearest` (the corrected search under "Findings"), not the program's scan that starts from MAZE_MAX_DISTANCE. The two differ only when every open heading is at least 3232 away. Inky's off-board target (51, 59) seen from tile (1, 3) is one such case: the program turns back there, the model does not. The members below inherit this choice.
- Ghost.Steer: steers by target with the uncapped choice of `Ghost.ChoiceByTarget`, so it differs from the program at the same far targets.
- Ghost.CgGhost.Turn: chooses by target through `Ghost.CgGhost.DecideDirectionByTarget`, without the cap.
- Ghost.CgGhost.MoveGhost: turns as `Ghost.CgGhost.Turn` does, so it inherits the uncapped choice.
- Ghost.CgGhost.DoActionInScatter: moves with `Ghost.CgGhost.MoveGhost` by target, so it inherits the uncapped choice.
- Ghost.CgGhost.DoActionInChase: moves with `Ghost.CgGhost.MoveGhost` by target, so it inherits the uncapped choice; Inky's chase target is the one that can leave the board.
- Ghost.CgGhost.DoActionInEscape: moves with `Ghost.CgGhost.MoveGhost` by target, so it inherits the uncapped choice.
- Ghost.CgGhost.DoAction: its Scatter, Chase and Escape clauses are stated with `Ghost.Steer`, so they inherit the uncapped choice.
- Ghost.ChoiceByTargetSound: is stated about the uncapped choice above, not the capped scan as written (`Steering.FarTargetForcesReversal` shows the as-written behaviour).
- Ghost.CgGhost.DecideDirectionByTarget: scans without the MAZE_MAX_DISTANCE cap for the same reason. It differs from the program for Inky's target (51, 59) seen from tile (1, 3).
- SpecialTarget.CgSpecialTarget.Start: restarts the fruit's timer (`SpecialTarget.StartCorrected`). The program's `start()` only re-enables it (`SpecialTarget.StartAsWritten`). The two differ for a second fruit in the same life: one appearing at the 170th feed after a first at the 70th vanishes within two updates in the program, and stays its full time in the model.

## Findings

| source | as written | input that shows it | evidently intended | confidence | as-written member | corrected member |
|---|---|---|---|---|---|---|
| 0008_GamePacman/GameGhost.swift:958-988 | the search for the nearest heading starts from MAZE_MAX_DISTANCE (3232), so a heading at that squared distance or more is never picked and the ghost falls back to reversing | Inky at the centre of tile (1, 3) heading Left, every neighbour open, target (51, 59) (player at (26, 31), Blinky at (1, 3)): every neighbour is at least 3232 away and Inky turns back | the nearest open heading, whatever the distance | not executed | Steering.FarTargetForcesReversal | Steering.NearestCorrect |
| 0008_GamePacman/GameSpTarget.swift:78-99 | `stop()` stops the timer at zero remaining time, and `start()` only re-enables it, so a fruit started again in the same life, with no reset in between, finds its timer at zero or fired | the 170th feed of a life in which the fruit already appeared at the 70th: the second fruit is gone within two updates | every fruit stays for 10 s | not executed | SpecialTarget.SecondTargetVanishesAsWritten | SpecialTarget.SecondTargetStaysCorrected |

The model uses the corrected versions. The ghost chooses with
`Steering.Nearest`, and `SpecialTarget.CgSpecialTarget.Start` restarts the
timer (`SpecialTarget.StartCorrected`). The player's own target search also
caps at MAZE_MAX_DISTANCE. `Player.BoardTargetsWithinCap` proves that
targets on the board never reach the cap, so the player keeps the search as
written.

The score popups' update (`Popups.Sweep`) is kept as written, and is not a
finding above. For each expired popup it removes the first popup of the
showing list, whichever one that is. `Popups.SweepOldestFirst` shows this
is right when popups expire in the order they were started.
`Popups.SweepOutOfOrder` shows what happens otherwise.
