# Flappy-NEAT game engine and evaluators in Dafny

This project models the simulation core of Flappy-NEAT and proves properties of it. Flappy-NEAT is a Flappy-Bird clone whose birds are flown by NEAT neural networks. The model covers two files:

- `game.py` holds the world objects. The `Background` and `Base` layers scroll. A `Bird` falls under semi-implicit gravity. A `Pipe` is a gap obstacle. `Game` owns the bird, a FIFO queue of pipes and the score, and provides `update`, `check_collision`, `get_next_pipe` and `reset`.
- `main.py` holds the training evaluators:
  - the observation `get_state_from_pipe`;
  - the collision test `check_collision_with_pipes`;
  - the single-bird evaluator `eval_genome`;
  - the lock-step population evaluator `eval_genomes`. It keeps three parallel lists (`birds`, `nets`, `ge`), removes crashed birds in descending index order, credits each pipe to the first bird past it, tracks `max_score` and `best_genome`, and saves the best genome on timeout.

Modules, one concept each:

| file | module | models |
|---|---|---|
| options.dfy | `Options` | Python's optional arguments |
| config.dfy | `GameConfig` | the read-only `config` constants as one `Config` value with its validity conditions |
| geometry.dfy | `Geometry` | pygame rectangles, `colliderect`, and Python's `int()` truncation |
| scrolling.dfy | `Scrolling` | `Background` and `Base` as classes with in-place `update` |
| birds.dfy | `Birds` | `Bird` physics (value type) |
| pipes.dfy | `Pipes` | `Pipe`, its rectangles, off-screen test, collision loop, next-pipe scan |
| queue.dfy | `PipeQueue` | the per-frame operations on the pipe queue: move, pop from the front, refill, credit, prune, spawn by spacing |
| game.dfy | `World` | `Game` as a class with in-place `update`, `reset`, `spawn_pipe` |
| evaluation.dfy | `Evaluation` | `get_state_from_pipe`, `check_collision_with_pipes`, `eval_genome` and its frame as a function |
| removal.dfy | `Removal` | popping `sorted(remove_indices, reverse=True)` from the parallel lists |
| population.dfy | `Population` | the two inner loops of an `eval_genomes` frame (per-bird steering and charging; per-pipe crediting) |
| generation.dfy | `Generation` | a whole `eval_genomes` generation: its frame as a function, the frame loop, and the ledger that explains every genome's fitness |

Imperative code stays imperative:

- `Background.update`, `Base.update`, `Game.update`, `Game.reset` and `Game.spawn_pipe` are methods that update the object's fields in place;
- the source's loops are `while` loops: the pipe move, pop and refill loops of `Game.update`, its credit loop, the set-up, frame, per-bird, removal and credit loops of `eval_genomes`, and the frame loop of `eval_genome`;
- the pipe queue and the parallel lists are `seq` values that the loops reassign;
- each loop is proved against a specification function: `MoveAll`, `DropFront`, `Refill`, `Credited`, `Steered`, `Charged`, `CrashedIndices`, `BestScan`, `Without`, `PassScan`, `CreditAll`, and for the two frame loops `SoloRun` and `Run`, which iterate the frame functions `SoloFrame` and `Frame`;
- lemmas give those functions their meaning.

Main results:

- **Game queue.** `Game.update` leaves at least two pipes with legal heights and an on-screen head. Pipes are popped only from the front and appended only at `screenWidth`. A `passed` flag goes from false to true at most once, and the score rises by exactly the number of flags set.
- **The fitness ledger of `eval_genomes`.** Every genome ends with 0.1 per frame its bird played, plus 5 per pipe credited to it, minus 1 if its bird was removed. Both counts are fixed by the run itself: `Counts` adds a frame to every genome live at a frame's start and posts each survivor's score after the credit pass. A bird is removed in exactly the frame in which its crash test holds (`FrameRetires`). Survivors played every frame, which only happens on timeout.
- **Best-candidate stability and shrinkage.** Every genome removed during a generation was credited no more than the final max_score (`GenerationLedger`). The live count never rises from one frame to the next (`Frame`). When no policy ever flaps and the configuration lets a free fall from the start height reach the ground within the budget, every bird is removed before the budget runs out (`Extinction`).
- **Only the first bird scores.** All birds of a generation share the column `birdX` (`Bird.x` never changes), and each pipe is credited to the first bird in list order that has passed it. So only the first live bird is ever credited (`LeaderTakesAll`), and every other live bird has score 0.
- **`best_bird_index`.** The frame's best score is computed over all birds, crashed ones included, and its first holder is always index 0. So `best_bird_index` is always 0 after the first frame. The timeout save `ge[best_bird_index]` therefore always finds the first survivor and never raises `IndexError`, although `best_bird_index` is computed before removal. `EvalGenomes` keeps the `IndexError` outcome in its `TimeoutSave` result and proves that it never occurs.

`get_next_pipe` compares strictly (`pipe.x + PIPE_WIDTH > bird.x`). A pipe whose right edge is exactly at the bird's column is therefore not "ahead", and the model keeps that.

## Model

| member | source | states |
|---|---|---|
| `Geometry.Trunc` | game.py:74 | `int()` on a float truncates toward zero: for non-negative r the result is the floor, for negative r the ceiling |
| `Geometry.CollidesIffSharedPoint` | game.py:154 | `colliderect` on positive-size rectangles holds exactly when the two open rectangles share a point |
| `Geometry.TouchingIsNotCollision` | game.py:154 | rectangles that only touch along an edge do not collide |
| `Scrolling.BackgroundStep` | game.py:29-32 | one background step stays in (-screenWidth, 0], is either 0 or x-1, and is 0 exactly when x was 1-screenWidth |
| `Scrolling.BackgroundCycle` | game.py:29-32 | after n updates from 0 the background offset is -(n mod screenWidth) |
| `Scrolling.Background.constructor` | game.py:25-27 | a new background starts at offset 0 |
| `Scrolling.Background.Update` | game.py:29-32 | the offset becomes `BackgroundStep` of the old offset and stays in (-screenWidth, 0] |
| `Scrolling.GroundStep` | game.py:45-48 | one ground step stays in (-screenWidth, 0], is either 0 or x-speed, moves left unless it wraps, and wraps to 0 exactly when x - speed <= -screenWidth |
| `Scrolling.Base.constructor` | game.py:39-43 | a new ground strip starts at 0, with y = screenHeight - baseHeight + 20 and speed = pipeSpeed |
| `Scrolling.Base.Update` | game.py:45-48 | the offset becomes `GroundStep` of the old offset and stays in (-screenWidth, 0] |
| `Birds.NewBird` | game.py:55-61 | a new bird stands at birdX, at screenHeight // 2 (a whole number, half the height or half of one less), at rest, with score 0 |
| `Birds.Fall` | game.py:63-65 | gravity is added to the velocity, then the new velocity to y; column and score are unchanged |
| `Birds.Jump` | game.py:67-68 | the velocity becomes -jumpStrength whatever it was; position and score are unchanged |
| `Birds.BirdRect` | game.py:73-74 | the bird's rectangle is a birdSize square at column x whose top is y truncated toward zero |
| `Birds.FallClosedForm` | game.py:63-65 | k updates from (y0, v0) give v = v0 + k·g and y = y0 + k·v0 + g·k(k+1)/2; column and score are unchanged |
| `Birds.JumpArc` | game.py:63-68 | k updates after a jump give v = k·g - jumpStrength and y = y0 - k·jumpStrength + g·k(k+1)/2, whatever the velocity before the jump |
| `Pipes.NewPipe` | game.py:77-80 | a new pipe stands at the given x with the drawn height, not passed; with a legal height both parts are at least 100 tall |
| `Pipes.Moved` | game.py:88-89 | `Pipe.update` moves the pipe pipeSpeed left, keeping height and flag; an off-screen pipe stays off screen |
| `Pipes.OffScreen` | game.py:100-101 | a pipe is off screen when its right edge is left of 0; its rectangles then lie entirely left of the screen |
| `Pipes.PipeRects` | game.py:95-98 | the two pipe rectangles share column int(x) and width pipeWidth; top, gap and bottom cover screenHeight exactly; a legal height leaves both parts at least 100 tall |
| `Pipes.HitsAnyPipe` | game.py:152-156 | the collision loop over the pipes is true exactly when some pipe's top or bottom rectangle collides with the bird |
| `Pipes.ScanAhead` | game.py:159-162 | the scan returns the first pipe from position i on whose right edge is past the bird, or the head when there is none |
| `Pipes.NextPipeIndex` | game.py:158-162 | the index of the first pipe in queue order whose right edge is past the bird; if no pipe qualifies, 0 |
| `PipeQueue.MovePipes` | game.py:128-129 | every pipe moves exactly pipeSpeed left; order, heights and passed flags are kept |
| `PipeQueue.DropFront` | game.py:131-132 | the result is a suffix of the queue; every pipe dropped is off screen, and the new head, if any, is on screen |
| `PipeQueue.Refill` | game.py:134-135 | the queue is extended at the back to two pipes; the old pipes keep their places and each new pipe stands at screenWidth with its drawn height |
| `PipeQueue.CreditPipes` | game.py:137-140 | the credit loop sets exactly the flags of the unpassed pipes whose edge the bird has passed, and counts them |
| `PipeQueue.CreditCountsFlips` | game.py:137-142 | crediting never clears a flag, and the number of set flags grows by exactly the number of pipes credited |
| `PipeQueue.CreditOnce` | game.py:137-140 | crediting a second time changes nothing and credits nothing: a flag flips at most once |
| `PipeQueue.OnScreen` | main.py:52 | the filter is the list without the indices of its off-screen pipes: exactly the on-screen pipes, in their order |
| `PipeQueue.SpawnSpaced` | main.py:129-130 | a pipe at screenWidth + 100 is appended exactly when the list is empty or its last pipe is left of screenWidth - 300; afterwards the list is non-empty |
| `World.AdvancedShape` | game.py:128-135 | after moving, popping and refilling, the queue has at least two pipes, all with legal heights, and its head is on screen |
| `World.Game.constructor` | game.py:104-111 | a new game has score 0, a bird at (birdX, screenHeight // 2) at rest, scroll offsets 0, and exactly two pipes at screenWidth and screenWidth + 200 |
| `World.Game.SpawnPipe` | game.py:113-114 | exactly one new pipe is appended at the back, at screenWidth + offset |
| `World.Game.DropPipes` | game.py:131-132 | the pop loop leaves the queue equal to `DropFront` of the old queue |
| `World.Game.RefillPipes` | game.py:134-135 | the spawn loop leaves the queue equal to `Refill` of the old queue with the given heights |
| `World.Game.AdvancePipes` | game.py:128-135 | the two while-loops leave the queue equal to `Advanced`: moved, off-screen head pipes popped, refilled to two |
| `World.Game.AdvanceAndCredit` | game.py:128-142 | the queue becomes the credited `Advanced` queue with its shape kept, and the points gained are the number of pipes newly passed |
| `World.Game.Update` | game.py:116-142 | scrolls both layers; applies jump-then-fall to the chosen bird; advances and credits the queue at the pipe midpoint; the bird's score, and the game score only for the primary bird, rise by the number of flags set; the game stays valid |
| `World.Game.CheckCollision` | game.py:144-156 | true exactly when the bird is at or above the screen top, reaches base.y = screenHeight - baseHeight + 20, or overlaps a pipe rectangle |
| `World.Game.NextPipe` | game.py:158-162 | the first pipe in queue order whose right edge is strictly right of the bird, or the head if there is none |
| `World.Game.Reset` | game.py:181-188 | a new primary bird at rest, score 0, and exactly two pipes at screenWidth and screenWidth + 200 |
| `Evaluation.Observe` | main.py:28-32 | the observation has three entries; the second minus the first is pipeGap/screenHeight; the vertical readings straddle 0 exactly when the bird is in the gap; the third is positive exactly when the pipe is right of the bird |
| `Evaluation.CheckCollisionWithPipes` | main.py:256-264 | true exactly when the bird is at or above the screen top, reaches screenHeight - baseHeight, or overlaps a pipe rectangle |
| `Evaluation.Crashed` | main.py:74 | the evaluators' end test holds exactly when the bird is at or above the screen top, its bottom edge reaches screenHeight - baseHeight, or it overlaps a pipe rectangle: the extra bounds test adds nothing |
| `Evaluation.Steer` | main.py:58-62 | the bird jumps exactly when the network's output exceeds 0.5, then falls: velocity gravity - jumpStrength after a jump, old velocity + gravity otherwise; y moves by the new velocity; column and score are kept |
| `Evaluation.SoloFrame` | main.py:45-76 | one frame counts one more frame, never lowers the score, sets `crashed` exactly when the crash test holds for the new bird and row, and adds 0.1 + 5 per point of score gained, minus 1 on a crash, to the fitness |
| `Evaluation.SoloFrameCredits` | main.py:66-72 | the frame's score gain is exactly the number of flags it sets on the row it credits; no flag is cleared and the row keeps its length |
| `Evaluation.SoloRunEnds` | main.py:45-76 | iterating the frame from the start ends by a crash or at the budget, never beyond it; the fitness is 0.1·frames + 5·score, minus 1 if it crashed; `crashed` is the crash test on the final bird and row |
| `Evaluation.FlyFrame` | main.py:49-74 | the loop body after scrolling computes exactly `SoloFrame` of the state |
| `Evaluation.SoloPlay` | main.py:45-76 | the frame loop ends in `SoloRun` of its start state, with the scrolling layers still valid |
| `Evaluation.EvalGenome` | main.py:34-79 | returns exactly the fitness, frames, score, crash flag, bird and row of `SoloRun` from the start: at most MAX_FRAMES_PER_GEN frames; a crash or the budget ends the run; the crash flag is the crash test on the final bird and row; the result is 0.1·frames + 5·score, minus 1 if it crashed |
| `Population.Steered` | main.py:136-141 | every bird is steered by its own network; column and score are kept |
| `Population.CrashedIndices` | main.py:146-148 | `remove_indices` is strictly ascending and lists only indices of the frame's birds |
| `Population.CrashedIndicesExact` | main.py:146-148 | an index is in `remove_indices` exactly when that bird crashed |
| `Population.ChargedAt` | main.py:144-147 | each processed genome is charged exactly once (+0.1, and -1 more on a crash); every other genome keeps its fitness |
| `Population.BestScanFirst` | main.py:149-151 | with non-negative scores, the scan finds the highest score of the frame and the first bird holding it |
| `Population.StepBirds` | main.py:136-151 | the per-bird loop yields the steered birds, the charged fitness table, the crash indices and the best score with its first holder |
| `Population.FirstPasser` | main.py:170-174 | the first bird in list order whose column is past the pipe's right edge, or n if there is none |
| `Population.PassScanCreditsFirst` | main.py:170-176 | the inner credit loop changes nothing when the pipe is already passed or nobody passed it; otherwise it flags the pipe and credits exactly the first passer: score +1, genome fitness +5 |
| `Population.CreditPipe` | main.py:170-176 | the inner loop computes `PassScan`: the pipe, birds and fitness after visiting every bird in order |
| `Population.MoveAndCredit` | main.py:166-176 | the outer loop moves each pipe and runs the inner loop on it, updating the pipes in place, as `CreditAll` specifies |
| `Population.CreditAllPipes` | main.py:166-176 | each pipe ends moved, and flagged exactly when it was flagged before or some bird is past its right edge |
| `Population.PassScanLedger` | main.py:170-176 | one pipe's scan raises the score sum by one exactly when its flag goes up; a bird's genome earns 5 per point it gains; other genomes are unchanged |
| `Population.CreditAllLedger` | main.py:166-176 | over a frame, total score gained equals the number of flags set; scores only rise; each genome earns 5 per point its bird gained; genomes without a bird are unchanged |
| `Population.LeaderTakesAll` | main.py:170-176 | when all birds share one column, no bird but the first is ever credited |
| `Removal.WithoutIsKept` | main.py:161-164 | entry j after removal is the entry at the j-th unmarked index |
| `Removal.KeptCovers` | main.py:161-164 | every unmarked index survives |
| `Removal.KeptLength` | main.py:161-164 | exactly as many entries are removed as indices are marked, so the live count never rises |
| `Removal.PopStep` | main.py:161-164 | popping an index below every earlier-popped one removes exactly the entry at that index of the current list |
| `Removal.Descending` | main.py:161 | `sorted(remove_indices, reverse=True)` of an ascending list has the same indices, strictly descending |
| `Removal.PopMarked` | main.py:161-164 | popping the indices highest first leaves each of the three lists without exactly the marked entries, the rest in order |
| `Removal.RemoveMarked` | main.py:161-164 | the three parallel lists lose exactly the listed entries and stay the same length |
| `Generation.CreditLedger` | main.py:166-176 | the credit loop keeps the fitness ledger, with the credits table absorbing the new scores, which only rise |
| `Generation.RetireLive` | main.py:161-164 | after removal the live genomes stay ascending, and each surviving bird keeps its column, score and credits, with one more frame played |
| `Generation.RetireGenome` | main.py:144-148 | each genome's fitness still matches the ledger after the frame: +0.1 while live, -1 once on removal |
| `Generation.RetireLedger` | main.py:144-164 | charging and then removing the crashed birds keeps the ledger |
| `Generation.StepLedger` | main.py:136-164 | the per-bird loop followed by removal keeps the ledger |
| `Generation.Frame` | main.py:116-178 | one frame counts one more frame, keeps the live lists parallel and the fitness table's size; max_score never falls, and best_genome changes only when max_score rises; the live count never rises |
| `Generation.FrameRetires` | main.py:136-164 | a genome is removed in a frame exactly when the crash test holds for its steered bird against the frame's row |
| `Generation.FlyLedger` | main.py:136-164 | the per-bird loop and the removal keep the ledger, with one more frame for every genome that was live |
| `Generation.FlyRecord` | main.py:149-155 | max_score becomes the first live bird's score when that is higher, with best_genome its genome, and no steered bird beats the new max_score; best_bird_index is 0; the record still holds: best_genome has scored at least max_score |
| `Generation.FlyBooked` | main.py:136-164 | the bird half of a frame keeps the ledger, the record and its stability |
| `Generation.FlyStable` | main.py:144-155 | a genome removed in the bird half was credited no more than the new max_score, and genomes removed earlier stay at or below it |
| `Generation.CreditFlockLedger` | main.py:166-178 | the credit half of a frame keeps the ledger, the record and its stability, with the credits table updated to exactly each live bird's new score |
| `Generation.FrameLedger` | main.py:129-178 | one frame keeps the ledger, the record and its stability, and best_bird_index stays 0; the new tables are exactly one more frame for each genome live at the start and each survivor's score posted |
| `Generation.RunLedger` | main.py:113-178 | the frames up to extinction or the budget keep the ledger, the record and its stability for the tables `Counts` fills in frame by frame; the run stays within the budget and ends with no bird left or at the budget |
| `Generation.StartLedger` | main.py:96-109 | the set-up satisfies the ledger and the record, trivially stable, with nothing played and nothing credited |
| `Generation.GenerationLedger` | main.py:81-178 | over a whole generation, each genome's fitness is 0.1·frames played + 5·pipes credited - (1 if removed), where both counts are the ones `Counts` takes from the run of frames; survivors played every frame; best_genome has scored at least max_score; best-candidate stability: every removed genome was credited no more than max_score |
| `Generation.SteeredFall` | main.py:136-141 | with policies that never flap, birds sharing a height and velocity all take the same fall step |
| `Generation.SurvivorsSafe` | main.py:146-164 | no bird left after removing the crashed ones fails the crash test |
| `Generation.FlyFalls` | main.py:136-164 | with policies that never flap, the bird half moves every live bird one fall step, keeps only never-flapping policies, and keeps no crashed bird |
| `Generation.FrameFalls` | main.py:116-178 | with policies that never flap, each live bird stays where a fresh bird that never jumped is after the frames played, and a survivor is above the ground |
| `Generation.FallingRun` | main.py:113-178 | with policies that never flap, birds that remain at the end of a run have played the whole budget with the free fall still above the ground |
| `Generation.GroundWithinBudget` | game.py:63-65 | by the closed form of the fall, a fresh bird reaches the ground within MAX_FRAMES_PER_GEN frames when screenHeight // 2 + gravity·B(B+1)/2 + birdSize >= screenHeight - baseHeight |
| `Generation.Extinction` | main.py:113-164 | population shrinkage: when no policy ever flaps and the configuration lets a free fall reach the ground within the budget, a generation ends with no bird and no live genome |
| `Population.CreditAllKeepsFlight` | main.py:166-176 | the credit loop changes only scores: every bird keeps its height and velocity |
| `Generation.RunOutcome` | main.py:113-190 | a generation plays at most MAX_FRAMES_PER_GEN frames, at least one exactly when there is a genome, and has survivors only on timeout; the timeout save is the first survivor, never an IndexError |
| `Generation.RunBirds` | main.py:136-164 | the per-bird loop, the record update and the removal compute exactly `Fly`: the steered birds minus the crashed ones with their networks and genomes, the charged fitness table, max_score, best_genome and best_bird_index |
| `Generation.PlayFrame` | main.py:129-178 | the frame body after scrolling computes exactly `Frame` of the state |
| `Generation.Play` | main.py:113-178 | the frame loop ends in `Run` of its start state, with the scrolling layers still valid |
| `Generation.Hatch` | main.py:100-107 | the set-up loop gives one fresh bird, the network and fitness 0 for each genome, genome g at index g |
| `Generation.EvalGenomes` | main.py:81-193 | returns exactly the fitness table, survivors, max_score, best_genome, frames and timeout outcome of `Run` from the start: at most MAX_FRAMES_PER_GEN frames, survivors only on timeout, and the timeout save is the first survivor, never an IndexError |

## Left out

- Rendering, assets, fonts and the display are left out. This covers `load_assets`, every `draw` method and the `render` branches of `eval_genomes`. They are pure I/O. Without rendering, `running` in `eval_genomes` is never set to false, so the model drops it.
- The event loops (`clock.tick`, `pygame.event.get`), the start and game-over screens, `run_human_game`, `main` and `playback_neat_best` are left out. They are user-interface drivers.
- The neat library is replaced. Genomes are the indices 0..n-1 in the order given, and their `fitness` attributes are a `seq<real>` indexed by genome. A network is an injected function from the observation to its first output (`Policy`), and `FeedForwardNetwork.create` is not modelled. `run_neat`, the reporters and the parallel evaluator are a foreign framework and concurrency.
- Pickling and file writes (`SaveBestGenomeReporter` and the timeout save) are left out. The timeout save is modelled only as which genome would be saved (`TimeoutSave`).
- The prints are left out.
- Randomness is replaced by input. `random.randint` becomes pipe heights supplied as input: a sequence `hs` for `Game.update`, a function from spawn number to height for the evaluators, and two heights for `Game.__init__` and `reset`. Each height is required to lie in the randint range.
- Numbers are exact. Positions, velocities and fitness are exact reals, so IEEE rounding of the 0.1 increments and of the observation divisions is not modelled.
- Birds and pipes are values, not shared objects. In the source no bird or pipe object is reachable from two owners that both update it, so the outcome is the same. The one exception is an explicit call `game.update(game.bird)`. The model covers it only through `subject = None`, because the identity test `bird == self.bird` is not expressible on values.
- `World.Game.Update` takes the action as an optional integer and jumps exactly when it is 1, as the source does.
- Module-level writes to `config.FPS` and `config.PIPE_GAP` in `reset` and `run_human_game` are left out. The constants are fixed parameters of one `Config`.
- `Bird.passed_pipes` is left out; it is never read.
- The `hasattr(pipe, "passed")` guard is left out. Every pipe gets `passed` in its constructor, so the guard never fires.
- `Pipe.__init__`'s image scaling is left out.
- `Evaluation.EvalGenome` states its fitness formula in terms of the score it returns. The score is tied to the pipes' flags frame by frame (`SoloFrameCredits`), not summed over the run, because the pipes that leave the screen take their flags with them.
