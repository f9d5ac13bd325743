# Snake Q-learning agent: a verified model of its game logic

The repository trains a Q-learning agent to play snake on a 640×480 screen of
20-pixel blocks (32 columns and 24 rows). This project models, in Dafny, the
parts of it that decide and keep state:

- **Game** (`game.dfy`, from game.rs): the shared geometry (directions,
  pixel points, the clockwise turn table) and the training environment
  `SnakeGame`. Its `play_step` steers by a relative one-hot action, pushes the
  moved head, and ends the episode on a collision or a timeout of
  `50 * len` frames. Otherwise it grows the body on food or pops the tail.
- **Bfs** (`bfs.dfy`, from bfs.rs): `is_reachable`, a breadth-first search
  from a start position to the food over the 4-connected grid cells, with
  every cell of a snake segment blocked. It is proved to answer true exactly
  when a chain of adjacent, in-grid, unblocked cells joins the two. The loop
  invariant `Bfs.Frontier` bounds the work: the cells dequeued plus those
  still queued are exactly the cells seen, and those are at most 32 × 24.
- **Agent** (`agent.dfy`, from agent.rs and main.rs):
  - the 14-flag state encoder `get_state`, with its danger, heading, food
    and reachability flags;
  - the bounded replay memory `remember` (100 000 entries, oldest evicted);
  - the batch of the 1000 oldest transitions that `train_long_memory` hands
    to the trainer;
  - the epsilon-greedy one-hot choice `get_action`;
  - the epsilon schedule `80 - min(n_games, 80)` that the run loop applies
    after every game.
- **GameHuman** (`game_human.dfy`, from game_human.rs): the keyboard game.
  - Its `update` tests the moved head before pushing it, so a crash leaves
    the state as it was.
  - Its `change_direction` refuses only the exact opposite of the current
    heading.
  - Its food comes from real-valued draws in [0, 620) × [0, 460), floored to
    the lattice. The food therefore never lands in the last column or the
    last row (`GameHuman.FlooredBounds`).

Positions are pixels as unbounded integers. Every position the program
creates is a multiple of 20 (`Game.Aligned`), which each game's `Valid()`
keeps. The search converts a pixel to a cell with the truncating division of
`as i32`, and on aligned points that conversion is exact
(`Bfs.ToCellOfAligned`).

The random number generator becomes inputs:
- food placement takes a sequence of candidate draws and picks the first that
  misses the body;
- `get_action` takes the exploration draw, the random move and the network's
  prediction as parameters.

## Model

| member | source | states |
|---|---|---|
| Game.Move | game.rs:129-135 | moving one block keeps a position on the 20-pixel lattice |
| Game.MoveFollowsHeading | game.rs:129-135 | the moved head is the old head plus one block along the heading's unit vector, one block away and never the same point |
| Game.Opposite | game_human.rs:99-104 | the opposite heading differs from the heading and points the other way |
| Game.MoveOppositeCancels | game.rs:129-135 | moving one block and then one block the opposite way returns to the start |
| Game.ClockIndex | game.rs:112-118 | `position` finds the first entry of the clockwise table equal to the heading |
| Game.ClockTableTurns | game.rs:112-127 | the table entry one on is the right turn and the entry three on is the left turn |
| Game.TurnRightRotatesClockwise | game.rs:112-127 | a right turn rotates the heading vector a quarter clockwise on screen (y grows down) |
| Game.TurnLeftRotatesCounterClockwise | game.rs:112-127 | a left turn rotates the heading vector a quarter counter-clockwise |
| Game.TurnsCancel | game.rs:112-127 | a right turn then a left turn (and the reverse) restore the heading; four right turns are the identity |
| Game.TableSteer | game.rs:112-127 | the table lookup of `play_step` equals the geometric steer: index 2 turns left and wins over index 1, which turns right; otherwise the heading is kept |
| Game.SteerNeverReverses | game.rs:120-127 | no relative action turns the snake around, and each action rotates the heading vector as named |
| Game.InitialSnake | game.rs:68-82 | the initial body is three aligned, on-screen, contiguous segments with the neck behind a right heading |
| Game.PushKeepsContiguous | game.rs:129-136 | pushing the moved head keeps consecutive segments one block apart |
| Game.PushKeepsShape | game.rs:129-136 | after the push, the body is still aligned and contiguous and its neck lies behind the new heading |
| Game.PopKeepsShape | game.rs:150-152 | popping the tail of a body longer than three keeps its shape |
| Game.DrawPoint | game.rs:92-94 | a drawn column and row scaled by 20 give an aligned point, on screen when the draws are in range |
| Game.PlacedFoodOnScreen | game.rs:89-100 | food taken from in-range draws is aligned, on screen and off the body |
| Game.SnakeGame.constructor | game.rs:41-66 | `new` gives the three-segment body heading right, score and frame 0, and food that is the first draw off the body |
| Game.SnakeGame.Reset | game.rs:68-87 | `reset` restores that same state with food placed from the draws |
| Game.SnakeGame.PlaceFood | game.rs:89-101 | the rejection loop stops at the first draw not on the body, and that one becomes the food |
| Game.SnakeGame.IsCollision | game.rs:157-164 | true iff the head is off screen or equals a segment after index 0 |
| Game.SnakeGame.IsCollisionPoint | game.rs:166-171 | false iff the point is on screen and no segment, head included, is on it |
| Game.SnakeGame.PlayStep | game.rs:103-155 | frame +1 and heading steered; the moved head is pushed. A collision, or a frame count above 50 × the pushed length, gives reward -10 with the pushed body, score and food kept. Otherwise eating gives reward 10, score +1, a grown body and new food, and not eating gives reward 0 with the tail popped. The state stays valid |
| Bfs.Truncate | bfs.rs:14-16 | the truncating quotient is exact on multiples of 20 |
| Bfs.ToCell | bfs.rs:14-16 | `to_cell` of an aligned point is the cell whose corners are that point |
| Bfs.Blocked | bfs.rs:29-33 | the blocked set holds the cell of every segment and nothing else |
| Bfs.AdjacentIsShift | bfs.rs:45 | the four offsets of `neighbours` are exactly the 4-connected neighbours |
| Bfs.ReachableEndsOpen | bfs.rs:56-66 | a path starts and ends on in-grid, unblocked cells |
| Bfs.ReachableSelf | bfs.rs:42-50 | an open cell reaches itself |
| Bfs.ReachableExtend | bfs.rs:52-69 | a reachable cell's open neighbour is reachable |
| Bfs.TargetNeedsOpenNeighbour | bfs.rs:52-69 | a target other than the start is reachable only through an open neighbour of it |
| Bfs.ClosedSetHoldsPath | bfs.rs:47-73 | a set closed under open neighbours holds the end of every path that starts in it, which makes an exhausted search complete |
| Bfs.GridCells | bfs.rs:11-12 | the grid has exactly `w * h` cells, those in [0, w) × [0, h) |
| Bfs.ColumnCells | bfs.rs:39 | one column of the visited matrix has exactly `h` cells |
| Bfs.IsReachable | bfs.rs:10-74 | true iff a path of open cells joins the start's cell to the food's cell. The ghost count of dequeued cells is at most 32 × 24; the bound itself is the loop invariant `Bfs.Frontier` (dequeued + queued = seen ≤ 32 × 24), which `Bfs.RoundKeepsFrontier` preserves |
| Bfs.Search | bfs.rs:39-73 | from an open start, the loop answers true iff the food cell is reachable. The dequeue bound comes from its invariant `Bfs.Frontier`, not from the out-parameter alone |
| Bfs.FirstFrontier | bfs.rs:39-43 | marking and queueing the start sets up the loop invariant |
| Bfs.RoundKeepsFrontier | bfs.rs:47-70 | one round keeps the invariant. Seen cells are open and reachable, queued cells are seen, seen cells off the queue are expanded and are not the food, and seen = dequeued + queued. Some measure shrinks |
| Bfs.QueueStaysSeen | bfs.rs:52-70 | appending newly seen cells keeps every queued cell seen |
| Bfs.RestStaysExpanded | bfs.rs:47-70 | after the head cell is expanded, every seen cell not queued is expanded and is not the food |
| Bfs.OpenCellsFitGrid | bfs.rs:56-58 | open cells lie on the grid, so there are at most 32 × 24 of them |
| Bfs.ExhaustedFrontierMissesFood | bfs.rs:47-73 | once the queue is empty and the food was never dequeued, the food is unreachable |
| Bfs.VisitNeighbours | bfs.rs:52-70 | the cells appended behind the old queue are exactly `ShiftAll(c, FreshOffsets(...))`, the in-grid, unvisited, unblocked neighbours of `c` in the order of `neighbours`. They are newly marked, the marks mirror the seen set, and `c` ends expanded |
| Bfs.FreshOffsets | bfs.rs:52-70 | the offsets the neighbour loop enqueues, all below the number of offsets examined |
| Bfs.FreshOffsetsMeaning | bfs.rs:52-70 | those offsets are each fresh, strictly increasing (offset order), and include every fresh offset |
| Bfs.ShiftAll | bfs.rs:53-54 | the cells at the given offsets from `c`, one per offset, in order |
| Bfs.ShiftsDistinct | bfs.rs:45 | the four offsets lead to four different cells, so no neighbour is enqueued twice in one round |
| Bfs.FreshStep | bfs.rs:60-69 | during the loop, a neighbour marked now was marked before the round, and enqueueing it exactly when it is fresh extends the list of fresh neighbours |
| Bfs.EnqueuedStart | bfs.rs:52 | before the first offset nothing is appended |
| Bfs.EnqueuedSkip | bfs.rs:56-66 | skipping an off-grid, marked or blocked neighbour keeps the loop's bookkeeping |
| Bfs.EnqueuedPush | bfs.rs:68-69 | marking and appending an open, unmarked neighbour keeps the bookkeeping and keeps every seen cell reachable |
| Bfs.EnqueuedDone | bfs.rs:52-70 | after the four offsets every newly seen cell is queued and `c` is expanded |
| Bfs.EnqueueKeepsOrder | bfs.rs:68-69 | marking and appending one unseen cell keeps the queue in step with the seen set |
| Bfs.OffGridStartUnreachable | bfs.rs:21-27 | a start off the grid reaches nothing, whatever the snake and the food |
| Bfs.BlockedStartUnreachable | bfs.rs:35-37 | a blocked start cell reaches nothing |
| Bfs.StartOnSnakeUnreachable | bfs.rs:29-37 | a start on any snake segment reaches nothing |
| Bfs.StartOnFoodReachable | bfs.rs:47-50 | an open start on the food's cell is reachable at once |
| Bfs.ClosedFoodUnreachable | bfs.rs:56-66 | a food cell off the grid or on the snake is never reached |
| Bfs.ToCellOfAligned | bfs.rs:14-16 | on aligned points the conversion keeps the screen test and is one to one |
| Bfs.CollidingStartUnreachable | bfs.rs:21-37 | an aligned start that `is_collision_point` flags reaches no food |
| Bfs.BlockedOfAligned | bfs.rs:29-33 | for an aligned body, a point's cell is blocked iff the point is a segment |
| Agent.Flag | agent.rs:64-72 | `as i64` of a flag is 1 iff it holds and 0 iff it does not |
| Agent.Epsilon | main.rs:73 | epsilon lies in [0, 80]; it is 80 before the first game and 0 iff at least 80 games were played |
| Agent.EpsilonNonIncreasing | main.rs:72-73 | epsilon never grows as games accumulate |
| Agent.OneHot | agent.rs:200-208 | the action has three entries, with 1 exactly at the chosen index and 0 elsewhere |
| Agent.Argmax | agent.rs:206-207 | the chosen index holds a largest prediction, and no earlier index holds as large a one |
| Agent.ActionMeaning | agent.rs:200-208 | action index 0 keeps the heading in `play_step`, 1 turns right and 2 turns left |
| Agent.Pushed | agent.rs:151-154 | `remember` as a value: the new transition is last, and a memory within capacity stays within capacity |
| Agent.PushedIsNewest | agent.rs:151-154 | one `remember` keeps the newest 100 000 of old + new. The new entry is last. Below capacity nothing is removed; at capacity only the oldest is dropped |
| Agent.NewestAbsorbs | agent.rs:151-154 | trimming to capacity early or late gives the same memory |
| Agent.PushedAllKeepsNewest | agent.rs:143-155 | after any run of `remember` calls, the memory is the newest 100 000 transitions of all that were pushed, in order |
| Agent.OverflowEvictsOldest | agent.rs:151-154 | pushing capacity + k transitions into an empty memory loses exactly the k oldest |
| Agent.Flags | agent.rs:121-136 | the state array casts each fact in order |
| Agent.StateShape | agent.rs:121-140 | the state has 14 entries, each 0 or 1 |
| Agent.OneHeadingFlag | agent.rs:39-67 | exactly one of the four heading flags is 1, and it names the current heading |
| Agent.FoodFlagsExclusive | agent.rs:69-72 | food left and right are never both set, nor up and down; both flags of an axis are clear iff the food is level with the head on it |
| Agent.DangerPredictsCrash | agent.rs:49-62 | danger flag k is 1 iff `play_step` with one-hot action k would crash |
| Agent.DangerExcludesReachable | agent.rs:49-119 | in a valid game, a set danger flag forces the matching reachability flag to 0 |
| Agent.FoodAheadIsSafeAndReachable | agent.rs:49-119 | free food one block straight ahead clears the straight danger flag and sets the straight reachability flag |
| Agent.ObservationOfParts | agent.rs:121-136 | facts computed one by one, each agreeing with its meaning, make up the game's observation |
| Agent.DangerAhead | agent.rs:38-62 | the heading-selected neighbour tests are `is_collision_point` of the head moved straight, after a right turn and after a left turn |
| Agent.ReachableAhead | agent.rs:74-119 | the clock-table headings and the three BFS calls give reachability of the food from the head moved straight, right and left |
| Agent.Agent.constructor | agent.rs:24-35 | `new` starts with no games, epsilon 80 and an empty memory |
| Agent.Agent.GetState | agent.rs:37-141 | `get_state` returns the 14 flags meaning danger, heading, food side and reachability, in the source's order |
| Agent.Agent.Remember | agent.rs:143-155 | the memory becomes the bounded push of the transition, within capacity |
| Agent.Agent.TrainLongMemory | agent.rs:157-184 | below 1000 stored transitions nothing is trained; otherwise the batch is exactly the 1000 oldest, in insertion order, and the memory is untouched |
| Agent.Agent.GetAction | agent.rs:198-212 | a draw below epsilon gives the one-hot random move; otherwise the one-hot argmax of the prediction |
| Agent.Agent.FinishGame | main.rs:72-73 | the run loop counts the game and recomputes epsilon by the schedule |
| GameHuman.Floored | game_human.rs:56-57 | a draw floored to the lattice: aligned, and the largest lattice point at or below the draw on each axis |
| GameHuman.FlooredBounds | game_human.rs:56-58 | a floored draw is aligned and on screen but never in the last column or row |
| GameHuman.Steered | game_human.rs:98-108 | the request is taken iff it is not the opposite of the current heading; otherwise the heading stays |
| GameHuman.SteeredNeverOpposite | game_human.rs:98-108 | one request never turns the heading around |
| GameHuman.TwoRequestsReverse | game_human.rs:98-108 | heading right from the initial body, requests Up then Left are both taken, and the next head lands on the neck |
| GameHuman.SafeSteered | game_human.rs:98-108 | the corrected rule takes a request iff it does not point the next head at the neck |
| GameHuman.SafeSteeredAgreesAfterMove | game_human.rs:98-108 | while the neck lies behind the heading, the corrected rule decides as the written one does |
| GameHuman.SafeSteeredAllAvoidsNeck | game_human.rs:98-108 | under the corrected rule, no run of requests between two moves points the next head at the neck |
| GameHuman.SnakeGame.constructor | game_human.rs:33-51 | `new` gives the three-segment body heading right, score 0, and food that is the first floored draw off the body |
| GameHuman.SnakeGame.PlaceFood | game_human.rs:53-64 | the loop stops at the first floored draw not on the body, and that one becomes the food, aligned and on screen |
| GameHuman.SnakeGame.IsCollision | game_human.rs:91-96 | true iff the candidate head is off screen or equals a segment other than the current head |
| GameHuman.SnakeGame.Update | game_human.rs:66-89 | a crashing head changes nothing and reports game over. Otherwise the head is pushed; eating scores and places new food, while not eating pops the tail. A heading aimed at the neck always ends the game. The body stays on screen and valid |
| GameHuman.SnakeGame.ChangeDirection | game_human.rs:98-108 | the heading becomes the written rule's choice |
| GameHuman.SnakeGame.TurnSafely | game_human.rs:98-108 | the corrected `change_direction` keeps the next head off the neck |

## Left out

- model.rs is not part of this model. It holds the network, the Adam optimizer, the loss and the temporal-difference target: floating-point tensor numerics in a foreign library. `train_step` and `train_short_memory` are therefore not modelled.
- Agent.Agent.GetAction: the network's forward pass is replaced by its prediction, passed in as three reals.
- Agent.Agent.TrainLongMemory: returns the batch it would hand to `train_step` instead of training. Tensor concatenation and shapes are not modelled; transitions are values.
- Agent.Argmax: the lowest index wins a tie. The tensor library's own tie rule is not part of this model.
- Agent.Agent.GetState: built from two helpers, `Agent.DangerAhead` (the danger table) and `Agent.ReachableAhead` (the clock table and the three searches). The conversion of the array to a float tensor of shape [1, 14] is not modelled.
- Agent.Agent.FinishGame: only the two updates of main.rs:72-73. The rest of the run loop (main.rs) is orchestration and I/O and is not modelled: the game steps, storing transitions, the record, plotting, printing.
- Randomness: every `thread_rng` draw is an input. Each `place_food` takes a finite sequence of draws and requires that one of them misses the body. Termination of the retry loop is therefore not modelled.
- Game.SnakeGame.PlayStep: `frame_iteration` and `50 * len` are modelled as unbounded integers, without u32 wrap-around; they never reach 2^32 within an episode.
- Game.SnakeGame.PlayStep: the action tensor arrives as a sequence of three integers.
- Coordinates are f32 in the source. In both games they are multiples of 20 within ±1000, so f32 holds them exactly and they are modelled as integers. The human game's draws are modelled as reals, without f32 rounding.
- Rendering, the frame timer, key handling and the async main loops (the `draw` functions, game_human.rs:110-152) are I/O. So are plot.rs and the gnuplot process. None of them is modelled.
- GameHuman: the source repeats the `Direction` and `Point` types and the screen constants; the model shares those of Game.

## Findings

| source | as written | input that shows it | evidently intended | confidence | as-written member | corrected member |
|---|---|---|---|---|---|---|
| game_human.rs:98-108 | `change_direction` compares a request with the current heading only, and several requests can arrive between two moves | heading Right with the initial body; the keys Up then Left before the next update: both are taken, the heading becomes Left, and the next head (300, 240) is the neck, so the game ends | the snake should never turn back into its own neck: refuse a heading that would put the next head on the segment behind the head | not executed; medium | GameHuman.TwoRequestsReverse | GameHuman.SnakeGame.TurnSafely |
