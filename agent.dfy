/**
 * The decision and memory logic of agent.rs: the 14-flag state encoder, the
 * bounded replay memory, the oldest-first batch handed to long training, the
 * epsilon-greedy action choice, and the epsilon schedule the run loop applies
 * after every game (main.rs:72-73).
 *
 * The value network and its trainer are not part of this model: the network's
 * prediction is an input of `GetAction`, and long training returns the batch
 * it would hand to the trainer. The random draws are inputs as well.
 */
module Agent {
  import opened Game
  import opened Bfs

  const MaxMemory: nat := 100_000
  const BatchSize: nat := 1000
  /** The exploration threshold of the first game, out of ExploreRange. */
  const EpsilonStart: int := 80
  /** `rng.gen_range(0..200)` draws the exploration test from [0, ExploreRange). */
  const ExploreRange: int := 200

  datatype Option<T> = None | Some(value: T)

  /** One stored step `(state, action, reward, next_state, done)`, its tensors as values. */
  datatype Transition = Transition(state: seq<int>, action: seq<int>, reward: int, nextState: seq<int>, done: bool)

  /** The five column vectors long training concatenates into tensors. */
  datatype Batch = Batch(states: seq<seq<int>>, actions: seq<seq<int>>, rewards: seq<int>,
                         nextStates: seq<seq<int>>, dones: seq<bool>)

  /** `b as i64`. */
  function Flag(b: bool): (f: int)
    ensures (f == 1 <==> b) && (f == 0 <==> !b)
  {
    if b then 1 else 0
  }

  // ---------------------------------------------------------------------------
  // Epsilon schedule

  /** `80 - n_games.min(80)`. */
  function Epsilon(nGames: nat): (e: int)
    ensures 0 <= e <= EpsilonStart
    ensures nGames == 0 ==> e == EpsilonStart
    ensures e == 0 <==> nGames >= EpsilonStart
  {
    EpsilonStart - (if nGames < EpsilonStart then nGames else EpsilonStart)
  }

  /** Exploration never grows as more games are played. */
  lemma EpsilonNonIncreasing(m: nat, n: nat)
    requires m <= n
    ensures Epsilon(n) <= Epsilon(m)
  {
  }

  // ---------------------------------------------------------------------------
  // Actions

  /** The one-hot encoding over {straight, right turn, left turn}. */
  function OneHot(k: nat): (a: seq<int>)
    requires k < 3
    ensures |a| == 3
    ensures forall j :: 0 <= j < 3 ==> (a[j] == 1 <==> j == k) && (a[j] == 0 <==> j != k)
  {
    seq(3, j => if j == k then 1 else 0)
  }

  /** The library's `argmax`: an index of a largest entry, the first one on ties. */
  function Argmax(p: seq<real>): (k: nat)
    requires |p| == 3
    ensures k < 3
    ensures forall j :: 0 <= j < 3 ==> p[j] <= p[k]
    ensures forall j :: 0 <= j < k ==> p[j] < p[k]
  {
    if p[0] >= p[1] && p[0] >= p[2] then 0
    else if p[1] >= p[2] then 1
    else 2
  }

  /** The agent's action index means what the environment does with it. */
  lemma ActionMeaning(d: Direction)
    ensures Steer(d, OneHot(0)) == d
    ensures Steer(d, OneHot(1)) == TurnRight(d)
    ensures Steer(d, OneHot(2)) == TurnLeft(d)
  {
  }

  // ---------------------------------------------------------------------------
  // Replay memory as values

  /** The memory after `remember(t)`: at capacity the oldest entry goes first. */
  function Pushed(memory: seq<Transition>, t: Transition): (m: seq<Transition>)
    ensures |memory| <= MaxMemory ==> |m| <= MaxMemory
    ensures |m| > 0 && m[|m| - 1] == t
  {
    (if |memory| == MaxMemory then memory[1..] else memory) + [t]
  }

  /** The memory after remembering each of `ts` in turn. */
  function PushedAll(memory: seq<Transition>, ts: seq<Transition>): seq<Transition>
    decreases |ts|
  {
    if ts == [] then memory else PushedAll(Pushed(memory, ts[0]), ts[1..])
  }

  /** The newest MaxMemory entries of a history, oldest first. */
  function Newest(h: seq<Transition>): (r: seq<Transition>)
    ensures |r| <= MaxMemory
  {
    if |h| <= MaxMemory then h else h[|h| - MaxMemory..]
  }

  /**
   * One push keeps the newest MaxMemory entries of the old memory followed by
   * the new one: the new transition is last, at capacity only the oldest entry
   * is dropped, and below capacity nothing is.
   */
  lemma PushedIsNewest(memory: seq<Transition>, t: Transition)
    requires |memory| <= MaxMemory
    ensures Pushed(memory, t) == Newest(memory + [t])
    ensures |Pushed(memory, t)| <= MaxMemory && Pushed(memory, t)[|Pushed(memory, t)| - 1] == t
    ensures |memory| < MaxMemory ==> Pushed(memory, t)[..|memory|] == memory
    ensures |memory| == MaxMemory ==> Pushed(memory, t)[..|memory| - 1] == memory[1..]
  {
    if |memory| == MaxMemory {
      assert (memory + [t])[1..] == memory[1..] + [t];
    }
  }

  lemma NewestAbsorbs(h: seq<Transition>, rest: seq<Transition>)
    ensures Newest(Newest(h) + rest) == Newest(h + rest)
  {
    if |h| > MaxMemory && rest != [] {
      var n := Newest(h);
      var lhs, rhs := Newest(n + rest), Newest(h + rest);
      assert |lhs| == |rhs| == MaxMemory;
      forall j | 0 <= j < MaxMemory ensures lhs[j] == rhs[j] {
        if j < MaxMemory - |rest| {
          assert lhs[j] == (n + rest)[|rest| + j] == h[|h| - MaxMemory + |rest| + j];
          assert rhs[j] == (h + rest)[|h| + |rest| - MaxMemory + j];
        } else {
          assert lhs[j] == rest[j - (MaxMemory - |rest|)];
        }
      }
    }
  }

  /** After any run of pushes the memory holds the newest MaxMemory entries of all that was pushed. */
  lemma {:induction false} PushedAllKeepsNewest(memory: seq<Transition>, ts: seq<Transition>)
    requires |memory| <= MaxMemory
    ensures PushedAll(memory, ts) == Newest(memory + ts)
    decreases |ts|
  {
    if ts == [] {
      assert memory + ts == memory;
    } else {
      PushedIsNewest(memory, ts[0]);
      PushedAllKeepsNewest(Pushed(memory, ts[0]), ts[1..]);
      NewestAbsorbs(memory + [ts[0]], ts[1..]);
      assert memory + [ts[0]] + ts[1..] == memory + ts;
    }
  }

  /** Pushing capacity + k transitions into an empty memory loses exactly the k oldest. */
  lemma OverflowEvictsOldest(ts: seq<Transition>)
    requires |ts| >= MaxMemory
    ensures PushedAll([], ts) == ts[|ts| - MaxMemory..]
    ensures |PushedAll([], ts)| == MaxMemory
  {
    PushedAllKeepsNewest([], ts);
    assert [] + ts == ts;
  }

  // ---------------------------------------------------------------------------
  // The state vector

  /** The fourteen facts `get_state` observes, named, in the order of the state vector. */
  datatype Observation = Observation(
    dangerStraight: bool, dangerRight: bool, dangerLeft: bool,
    dirLeft: bool, dirRight: bool, dirUp: bool, dirDown: bool,
    foodLeft: bool, foodRight: bool, foodUp: bool, foodDown: bool,
    reachableStraight: bool, reachableRight: bool, reachableLeft: bool)

  function Facts(o: Observation): seq<bool> {
    [ o.dangerStraight, o.dangerRight, o.dangerLeft,
      o.dirLeft, o.dirRight, o.dirUp, o.dirDown,
      o.foodLeft, o.foodRight, o.foodUp, o.foodDown,
      o.reachableStraight, o.reachableRight, o.reachableLeft ]
  }

  /** `as i64` on each fact, in order. */
  function Flags(facts: seq<bool>): (v: seq<int>)
    ensures |v| == |facts|
    ensures forall i :: 0 <= i < |facts| ==> v[i] == Flag(facts[i])
  {
    seq(|facts|, i requires 0 <= i < |facts| => Flag(facts[i]))
  }

  /**
   * What each fact means: danger and reachability one block ahead straight,
   * after a right turn and after a left turn; the heading; the food's side of
   * the head.
   */
  ghost function Observe(game: SnakeGame): Observation
    reads game
    requires |game.snake| >= 1
  {
    var head, d, food := game.snake[0], game.direction, game.food;
    var blocked := Blocked(game.snake);
    Observation(
      game.IsCollisionPoint(Move(head, d)),
      game.IsCollisionPoint(Move(head, TurnRight(d))),
      game.IsCollisionPoint(Move(head, TurnLeft(d))),
      d == Left, d == Right, d == Up, d == Down,
      food.x < head.x, food.x > head.x, food.y < head.y, food.y > head.y,
      Reachable(ToCell(Move(head, d)), ToCell(food), blocked),
      Reachable(ToCell(Move(head, TurnRight(d))), ToCell(food), blocked),
      Reachable(ToCell(Move(head, TurnLeft(d))), ToCell(food), blocked))
  }

  /** The state vector the network is fed. */
  ghost function StateSpec(game: SnakeGame): seq<int>
    reads game
    requires |game.snake| >= 1
  {
    Flags(Facts(Observe(game)))
  }

  /** Fourteen entries, each 0 or 1. */
  lemma StateShape(game: SnakeGame)
    requires |game.snake| >= 1
    ensures |StateSpec(game)| == 14
    ensures forall i :: 0 <= i < 14 ==> StateSpec(game)[i] == 0 || StateSpec(game)[i] == 1
  {
  }

  /** Exactly one heading flag is set, and it names the current heading. */
  lemma OneHeadingFlag(game: SnakeGame)
    requires |game.snake| >= 1
    ensures var s := StateSpec(game);
      s[3] + s[4] + s[5] + s[6] == 1 &&
      (s[3] == 1 <==> game.direction == Left) && (s[4] == 1 <==> game.direction == Right) &&
      (s[5] == 1 <==> game.direction == Up) && (s[6] == 1 <==> game.direction == Down)
  {
  }

  /** The food is never both left and right of the head, nor both above and below it. */
  lemma FoodFlagsExclusive(game: SnakeGame)
    requires |game.snake| >= 1
    ensures var s := StateSpec(game);
      !(s[7] == 1 && s[8] == 1) && !(s[9] == 1 && s[10] == 1) &&
      (s[7] == 0 && s[8] == 0 <==> game.food.x == game.snake[0].x) &&
      (s[9] == 0 && s[10] == 0 <==> game.food.y == game.snake[0].y)
  {
  }

  /**
   * Danger flag k says whether `play_step` with the one-hot action k would end
   * the episode by a collision.
   */
  lemma DangerPredictsCrash(game: SnakeGame, k: nat)
    requires |game.snake| >= 1 && k < 3
    ensures var head := Move(game.snake[0], Steer(game.direction, OneHot(k)));
      StateSpec(game)[k] == 1 <==> OutOfScreen(head) || head in game.snake
  {
    ActionMeaning(game.direction);
  }

  /** A set danger flag clears the matching reachability flag. */
  lemma DangerExcludesReachable(game: SnakeGame)
    requires game.Valid()
    ensures var o := Observe(game);
      && (o.dangerStraight ==> !o.reachableStraight)
      && (o.dangerRight ==> !o.reachableRight)
      && (o.dangerLeft ==> !o.reachableLeft)
  {
    var head, d, food := game.snake[0], game.direction, game.food;
    if game.IsCollisionPoint(Move(head, d)) {
      CollidingStartUnreachable(Move(head, d), food, game.snake);
    }
    if game.IsCollisionPoint(Move(head, TurnRight(d))) {
      CollidingStartUnreachable(Move(head, TurnRight(d)), food, game.snake);
    }
    if game.IsCollisionPoint(Move(head, TurnLeft(d))) {
      CollidingStartUnreachable(Move(head, TurnLeft(d)), food, game.snake);
    }
  }

  /**
   * Food one block straight ahead on a free on-screen position: no danger
   * straight ahead, and the food is reachable straight ahead.
   */
  lemma FoodAheadIsSafeAndReachable(game: SnakeGame)
    requires game.Valid()
    requires game.food == Move(game.snake[0], game.direction) && !game.IsCollisionPoint(game.food)
    ensures StateSpec(game)[0] == 0 && StateSpec(game)[11] == 1
  {
    var food := game.food;
    ToCellOfAligned(food, food);
    BlockedOfAligned(game.snake, food);
    ReachableSelf(ToCell(food), Blocked(game.snake));
  }

  /** An observation whose facts each hold of the game is the game's observation. */
  lemma ObservationOfParts(game: SnakeGame, o: Observation)
    requires |game.snake| >= 1
    requires var head, d := game.snake[0], game.direction;
      && o.dangerStraight == game.IsCollisionPoint(Move(head, d))
      && o.dangerRight == game.IsCollisionPoint(Move(head, TurnRight(d)))
      && o.dangerLeft == game.IsCollisionPoint(Move(head, TurnLeft(d)))
    requires var d := game.direction;
      o.dirLeft == (d == Left) && o.dirRight == (d == Right) && o.dirUp == (d == Up) && o.dirDown == (d == Down)
    requires var head, food := game.snake[0], game.food;
      o.foodLeft == (food.x < head.x) && o.foodRight == (food.x > head.x) &&
      o.foodUp == (food.y < head.y) && o.foodDown == (food.y > head.y)
    requires var head, d, blocked := game.snake[0], game.direction, Blocked(game.snake);
      && o.reachableStraight == Reachable(ToCell(Move(head, d)), ToCell(game.food), blocked)
      && o.reachableRight == Reachable(ToCell(Move(head, TurnRight(d))), ToCell(game.food), blocked)
      && o.reachableLeft == Reachable(ToCell(Move(head, TurnLeft(d))), ToCell(game.food), blocked)
    ensures o == Observe(game)
  {
  }

  /**
   * The danger flags of `get_state`: the neighbour of the head in each
   * direction is tested, and the heading selects which test counts as
   * straight ahead, as a right turn and as a left turn.
   */
  function DangerAhead(game: SnakeGame): (danger: (bool, bool, bool))
    reads game
    requires |game.snake| >= 1
    ensures var head, d := game.snake[0], game.direction;
      && danger.0 == game.IsCollisionPoint(Move(head, d))
      && danger.1 == game.IsCollisionPoint(Move(head, TurnRight(d)))
      && danger.2 == game.IsCollisionPoint(Move(head, TurnLeft(d)))
  {
    var head := game.snake[0];
    var dirR := game.direction == Right;
    var dirL := game.direction == Left;
    var dirU := game.direction == Up;
    var dirD := game.direction == Down;

    var pointL := Point(head.x - BlockSize, head.y);
    var pointR := Point(head.x + BlockSize, head.y);
    var pointU := Point(head.x, head.y - BlockSize);
    var pointD := Point(head.x, head.y + BlockSize);

    var straight := (dirR && game.IsCollisionPoint(pointR))
      || (dirL && game.IsCollisionPoint(pointL))
      || (dirU && game.IsCollisionPoint(pointU))
      || (dirD && game.IsCollisionPoint(pointD));

    var right := (dirU && game.IsCollisionPoint(pointR))
      || (dirD && game.IsCollisionPoint(pointL))
      || (dirL && game.IsCollisionPoint(pointU))
      || (dirR && game.IsCollisionPoint(pointD));

    var left := (dirD && game.IsCollisionPoint(pointR))
      || (dirU && game.IsCollisionPoint(pointL))
      || (dirR && game.IsCollisionPoint(pointU))
      || (dirL && game.IsCollisionPoint(pointD));

    (straight, right, left)
  }

  /**
   * The reachability flags of `get_state`: the headings after each relative
   * move come from the clock-wise table, and the BFS is asked whether the food
   * can be reached from the head moved one block that way.
   */
  method ReachableAhead(game: SnakeGame) returns (straight: bool, right: bool, left: bool)
    requires |game.snake| >= 1
    ensures var head, d, blocked := game.snake[0], game.direction, Blocked(game.snake);
      && straight == Reachable(ToCell(Move(head, d)), ToCell(game.food), blocked)
      && right == Reachable(ToCell(Move(head, TurnRight(d))), ToCell(game.food), blocked)
      && left == Reachable(ToCell(Move(head, TurnLeft(d))), ToCell(game.food), blocked)
  {
    var head, direction, food, snake := game.snake[0], game.direction, game.food, game.snake;
    var idx := ClockIndex(direction);
    var dirIfStraight := direction;
    var dirIfRight := ClockWise[(idx + 1) % 4];
    var dirIfLeft := ClockWise[(idx + 3) % 4];
    ClockTableTurns(direction);

    var headIfStraight := Move(head, dirIfStraight);
    var headIfRight := Move(head, dirIfRight);
    var headIfLeft := Move(head, dirIfLeft);

    ghost var dequeued;
    straight, dequeued := IsReachable(headIfStraight, food, snake);
    right, dequeued := IsReachable(headIfRight, food, snake);
    left, dequeued := IsReachable(headIfLeft, food, snake);
  }

  class Agent {
    var nGames: nat
    var epsilon: int
    var memory: seq<Transition>

    /** The memory stays within capacity and epsilon follows the schedule. */
    ghost predicate Valid()
      reads this
    {
      |memory| <= MaxMemory && epsilon == Epsilon(nGames)
    }

    /** `Agent::new`: no games played, the full exploration threshold, an empty memory. */
    constructor ()
      ensures Valid()
      ensures nGames == 0 && epsilon == EpsilonStart && memory == []
    {
      nGames := 0;
      epsilon := EpsilonStart;
      memory := [];
    }

    /** `get_state`: the fourteen flags, computed as the source does, cast to 0 or 1. */
    method GetState(game: SnakeGame) returns (state: seq<int>)
      requires |game.snake| >= 1
      ensures state == StateSpec(game)
    {
      var head := game.snake[0];
      var (dangerStraight, dangerRight, dangerLeft) := DangerAhead(game);

      var dirL := game.direction == Left;
      var dirR := game.direction == Right;
      var dirU := game.direction == Up;
      var dirD := game.direction == Down;

      var foodLeft := game.food.x < head.x;
      var foodRight := game.food.x > head.x;
      var foodUp := game.food.y < head.y;
      var foodDown := game.food.y > head.y;

      var reachableStraight, reachableRight, reachableLeft := ReachableAhead(game);

      var observation := Observation(
        dangerStraight, dangerRight, dangerLeft,
        dirL, dirR, dirU, dirD,
        foodLeft, foodRight, foodUp, foodDown,
        reachableStraight, reachableRight, reachableLeft);
      ObservationOfParts(game, observation);
      state := Flags(Facts(observation));
    }

    /** `remember`: evict the oldest entry at capacity, then append. */
    method Remember(t: Transition)
      requires Valid()
      modifies this`memory
      ensures Valid()
      ensures memory == Pushed(old(memory), t)
    {
      if |memory| == MaxMemory {
        memory := memory[1..];
      }
      memory := memory + [t];
    }

    /**
     * `train_long_memory`: nothing while fewer than BatchSize transitions are
     * stored; otherwise the batch is the BatchSize oldest, in insertion order.
     */
    method TrainLongMemory() returns (batch: Option<Batch>)
      ensures |memory| < BatchSize ==> batch == None
      ensures |memory| >= BatchSize ==> (batch.Some? &&
        var b := batch.value;
        |b.states| == |b.actions| == |b.rewards| == |b.nextStates| == |b.dones| == BatchSize &&
        forall i :: 0 <= i < BatchSize ==>
          Transition(b.states[i], b.actions[i], b.rewards[i], b.nextStates[i], b.dones[i]) == memory[i])
    {
      if |memory| < BatchSize {
        return None;
      }
      var states: seq<seq<int>> := [];
      var actions: seq<seq<int>> := [];
      var rewards: seq<int> := [];
      var nextStates: seq<seq<int>> := [];
      var dones: seq<bool> := [];
      for i := 0 to BatchSize
        invariant |states| == |actions| == |rewards| == |nextStates| == |dones| == i
        invariant forall j :: 0 <= j < i ==>
          Transition(states[j], actions[j], rewards[j], nextStates[j], dones[j]) == memory[j]
      {
        var t := memory[i];
        states := states + [t.state];
        actions := actions + [t.action];
        rewards := rewards + [t.reward];
        nextStates := nextStates + [t.nextState];
        dones := dones + [t.done];
      }
      batch := Some(Batch(states, actions, rewards, nextStates, dones));
    }

    /**
     * `get_action`: explore with the random move when the draw falls below
     * epsilon, otherwise exploit the prediction's argmax; either way one-hot.
     */
    method GetAction(draw: int, randomMove: int, prediction: seq<real>) returns (action: seq<int>)
      requires 0 <= draw < ExploreRange && 0 <= randomMove < 3 && |prediction| == 3
      ensures draw < epsilon ==> action == OneHot(randomMove)
      ensures draw >= epsilon ==> action == OneHot(Argmax(prediction))
    {
      var a := new int[3](_ => 0);
      if draw < epsilon {
        a[randomMove] := 1;
      } else {
        var moveIdx := Argmax(prediction);
        a[moveIdx] := 1;
      }
      action := a[..];
    }

    /** End of a game in the run loop: count it and recompute epsilon. */
    method FinishGame()
      requires Valid()
      modifies this`nGames, this`epsilon
      ensures Valid()
      ensures nGames == old(nGames) + 1 && epsilon == Epsilon(nGames)
    {
      nGames := nGames + 1;
      epsilon := Epsilon(nGames);
    }
  }
}
