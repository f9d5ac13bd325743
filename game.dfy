/**
 * The training environment of game.rs: the screen geometry every other part
 * of the program shares (directions, points, the clockwise turn table) and the
 * `SnakeGame` step machine that the agent plays.
 *
 * Positions are pixels. The source stores them as f32, but every position it
 * ever creates is a whole multiple of BlockSize, so they are exact as int.
 */
module Game {

  const BlockSize: int := 20
  const ScreenWidth: int := 640
  const ScreenHeight: int := 480
  /**
   * The grid of blocks: the ranges food columns and rows are drawn from
   * (game.rs:92-93) and the search grid (bfs.rs:11-12).
   */
  const Columns: int := ScreenWidth / BlockSize
  const Rows: int := ScreenHeight / BlockSize

  datatype Direction = Right | Left | Up | Down

  datatype Point = Point(x: int, y: int)

  function Abs(n: int): nat { if n < 0 then -n else n }

  /** Every position the program creates lies on the block lattice. */
  predicate Aligned(p: Point) {
    p.x % BlockSize == 0 && p.y % BlockSize == 0
  }

  /** The screen test shared by both collision predicates (game.rs:160, game.rs:167). */
  predicate OutOfScreen(p: Point) {
    p.x < 0 || p.x >= ScreenWidth || p.y < 0 || p.y >= ScreenHeight
  }

  /** A point moved one block in a direction, as each `match` on the heading does. */
  function Move(p: Point, d: Direction): (q: Point)
    ensures Aligned(p) ==> Aligned(q)
  {
    match d
    case Right => Point(p.x + BlockSize, p.y)
    case Left => Point(p.x - BlockSize, p.y)
    case Down => Point(p.x, p.y + BlockSize)
    case Up => Point(p.x, p.y - BlockSize)
  }

  /** The heading that reverses `d`. */
  function Opposite(d: Direction): (o: Direction)
    ensures o != d && Heading(o) == (-Heading(d).0, -Heading(d).1)
  {
    match d
    case Right => Left
    case Left => Right
    case Up => Down
    case Down => Up
  }

  /** The unit vector of a heading on screen, where y grows downwards. */
  function Heading(d: Direction): (int, int) {
    match d
    case Right => (1, 0)
    case Down => (0, 1)
    case Left => (-1, 0)
    case Up => (0, -1)
  }

  /** Two positions one block apart horizontally or vertically. */
  predicate NextTo(a: Point, b: Point) {
    Abs(a.x - b.x) + Abs(a.y - b.y) == BlockSize
  }

  lemma MoveFollowsHeading(p: Point, d: Direction)
    ensures Move(p, d) == Point(p.x + BlockSize * Heading(d).0, p.y + BlockSize * Heading(d).1)
    ensures NextTo(Move(p, d), p) && Move(p, d) != p
  {
  }

  lemma MoveOppositeCancels(p: Point, d: Direction)
    ensures Move(Move(p, d), Opposite(d)) == p
  {
  }

  /** The table `clock_wise` of game.rs:112-117 and agent.rs:74-79. */
  const ClockWise: seq<Direction> := [Right, Down, Left, Up]

  /** `clock_wise.iter().position(|&d| d == direction).unwrap()`. */
  function ClockIndex(d: Direction): (i: nat)
    ensures i < |ClockWise| && ClockWise[i] == d
    ensures forall j :: 0 <= j < i ==> ClockWise[j] != d
  {
    match d
    case Right => 0
    case Down => 1
    case Left => 2
    case Up => 3
  }

  /** The heading after a right turn, clockwise on screen. */
  function TurnRight(d: Direction): Direction {
    match d
    case Right => Down
    case Down => Left
    case Left => Up
    case Up => Right
  }

  /** The heading after a left turn, counter-clockwise on screen. */
  function TurnLeft(d: Direction): Direction {
    match d
    case Right => Up
    case Up => Left
    case Left => Down
    case Down => Right
  }

  /**
   * The index arithmetic on the clock-wise table computes the two turns: the
   * next entry is the right turn and the entry three further on the left turn.
   */
  lemma ClockTableTurns(d: Direction)
    ensures ClockWise[(ClockIndex(d) + 1) % 4] == TurnRight(d)
    ensures ClockWise[(ClockIndex(d) + 3) % 4] == TurnLeft(d)
  {
    match d
    case Right =>
    case Down =>
    case Left =>
      assert (ClockIndex(d) + 3) % 4 == 1;
    case Up =>
      assert (ClockIndex(d) + 1) % 4 == 0;
      assert (ClockIndex(d) + 3) % 4 == 2;
  }

  /** A right turn rotates the heading a quarter clockwise on screen. */
  lemma TurnRightRotatesClockwise(d: Direction)
    ensures Heading(TurnRight(d)) == (-Heading(d).1, Heading(d).0)
  {
  }

  /** A left turn rotates the heading a quarter counter-clockwise on screen. */
  lemma TurnLeftRotatesCounterClockwise(d: Direction)
    ensures Heading(TurnLeft(d)) == (Heading(d).1, -Heading(d).0)
  {
  }

  lemma TurnsCancel(d: Direction)
    ensures TurnLeft(TurnRight(d)) == d && TurnRight(TurnLeft(d)) == d
    ensures TurnRight(TurnRight(TurnRight(TurnRight(d)))) == d
  {
  }

  /**
   * The heading `play_step` takes for a relative action: index 2 turns left and
   * wins over index 1, which turns right; anything else keeps the heading.
   */
  function Steer(d: Direction, action: seq<int>): Direction
    requires |action| == 3
  {
    if action[2] == 1 then TurnLeft(d)
    else if action[1] == 1 then TurnRight(d)
    else d
  }

  /**
   * The new heading as `play_step` looks it up in the clock-wise table: three
   * entries on for a left turn, one entry on for a right turn. It is the
   * geometric steer.
   */
  function TableSteer(d: Direction, action: seq<int>): (d': Direction)
    requires |action| == 3
    ensures d' == Steer(d, action)
  {
    var idx := ClockIndex(d);
    ClockTableTurns(d);
    if action[2] == 1 then ClockWise[(idx + 3) % 4]
    else if action[1] == 1 then ClockWise[(idx + 1) % 4]
    else d
  }

  /** A relative action can never make the snake reverse. */
  lemma SteerNeverReverses(d: Direction, action: seq<int>)
    requires |action| == 3
    ensures Steer(d, action) != Opposite(d)
    ensures Heading(Steer(d, action)) ==
      if action[2] == 1 then (Heading(d).1, -Heading(d).0)
      else if action[1] == 1 then (-Heading(d).1, Heading(d).0)
      else Heading(d)
  {
  }

  /** Consecutive segments of a body are one block apart. */
  predicate Contiguous(body: seq<Point>) {
    forall i :: 0 < i < |body| ==> NextTo(body[i - 1], body[i])
  }

  /**
   * A body of at least three aligned contiguous segments whose neck lies
   * behind the heading `d`.
   */
  ghost predicate Shaped(body: seq<Point>, d: Direction) {
    && |body| >= 3
    && (forall i :: 0 <= i < |body| ==> Aligned(body[i]))
    && Contiguous(body)
    && body[1] == Move(body[0], Opposite(d))
  }

  /** Pushing the head moved one block keeps a body contiguous. */
  lemma PushKeepsContiguous(body: seq<Point>, d: Direction)
    requires |body| >= 1 && Contiguous(body)
    ensures Contiguous([Move(body[0], d)] + body)
  {
    var body' := [Move(body[0], d)] + body;
    MoveFollowsHeading(body[0], d);
    forall i | 0 < i < |body'| ensures NextTo(body'[i - 1], body'[i]) {
      if i > 1 {
        assert body'[i - 1] == body[i - 2] && body'[i] == body[i - 1];
      }
    }
  }

  /** Pushing the head moved one block in any heading keeps the body shaped for that heading. */
  lemma PushKeepsShape(body: seq<Point>, d0: Direction, d: Direction)
    requires Shaped(body, d0)
    ensures Shaped([Move(body[0], d)] + body, d)
  {
    PushKeepsContiguous(body, d);
    MoveOppositeCancels(body[0], d);
  }

  /** Popping the tail of a body longer than three keeps it shaped. */
  lemma PopKeepsShape(body: seq<Point>, d: Direction)
    requires Shaped(body, d) && |body| > 3
    ensures Shaped(body[..|body| - 1], d)
  {
  }

  /** The three-segment body every episode starts with, head first (game.rs:69-82). */
  function InitialSnake(): (s: seq<Point>)
    ensures |s| == 3 && Contiguous(s)
    ensures forall i :: 0 <= i < |s| ==> Aligned(s[i]) && !OutOfScreen(s[i])
    ensures s[1] == Move(s[0], Opposite(Right))
  {
    var head := Point(ScreenWidth / 2, ScreenHeight / 2);
    [head, Point(head.x - BlockSize, head.y), Point(head.x - 2 * BlockSize, head.y)]
  }

  /** Food candidates come from rng draws of a column in [0, Columns) and a row in [0, Rows). */
  predicate DrawsInRange(draws: seq<(int, int)>) {
    forall i :: 0 <= i < |draws| ==> 0 <= draws[i].0 < Columns && 0 <= draws[i].1 < Rows
  }

  /** `(gen_range(..) as f32) * BLOCK_SIZE` for both coordinates. */
  function DrawPoint(d: (int, int)): (p: Point)
    ensures Aligned(p)
    ensures 0 <= d.0 < Columns && 0 <= d.1 < Rows ==> !OutOfScreen(p)
  {
    Point(d.0 * BlockSize, d.1 * BlockSize)
  }

  /** Some draw misses the body, so the rejection loop of `place_food` stops. */
  predicate HasFreeDraw(draws: seq<(int, int)>, body: seq<Point>) {
    exists i :: 0 <= i < |draws| && DrawPoint(draws[i]) !in body
  }

  /** `food` is the first draw that misses the body; every earlier draw hit it. */
  predicate PlacedFrom(food: Point, draws: seq<(int, int)>, body: seq<Point>) {
    exists i :: 0 <= i < |draws| && food == DrawPoint(draws[i]) && food !in body &&
      forall j :: 0 <= j < i ==> DrawPoint(draws[j]) in body
  }

  /** Food placed from in-range draws is an aligned on-screen position off the body. */
  lemma PlacedFoodOnScreen(food: Point, draws: seq<(int, int)>, body: seq<Point>)
    requires DrawsInRange(draws) && PlacedFrom(food, draws, body)
    ensures Aligned(food) && !OutOfScreen(food) && food !in body
  {
  }

  class SnakeGame {
    var direction: Direction
    var snake: seq<Point>
    var food: Point
    var score: nat
    var frameIteration: nat

    /**
     * What every reachable state satisfies: a contiguous aligned body of at
     * least three segments whose neck lies behind the heading, and aligned food.
     */
    ghost predicate Valid()
      reads this
    {
      Shaped(snake, direction) && Aligned(food)
    }

    /** `SnakeGame::new`: the initial body heading right, then food from the draws. */
    constructor (draws: seq<(int, int)>)
      requires DrawsInRange(draws) && HasFreeDraw(draws, InitialSnake())
      ensures Valid()
      ensures snake == InitialSnake() && direction == Right
      ensures score == 0 && frameIteration == 0
      ensures PlacedFrom(food, draws, snake)
    {
      direction := Right;
      snake := InitialSnake();
      food := Point(0, 0);
      score := 0;
      frameIteration := 0;
      new;
      PlaceFood(draws);
    }

    /** Restart the episode: the same state `new` builds, with fresh food. */
    method Reset(draws: seq<(int, int)>)
      requires DrawsInRange(draws) && HasFreeDraw(draws, InitialSnake())
      modifies this
      ensures Valid()
      ensures snake == InitialSnake() && direction == Right
      ensures score == 0 && frameIteration == 0
      ensures PlacedFrom(food, draws, snake)
    {
      snake := [];
      snake := InitialSnake();
      direction := Right;
      score := 0;
      frameIteration := 0;
      PlaceFood(draws);
    }

    /** The rejection loop: take the first drawn position that is not on the body. */
    method PlaceFood(draws: seq<(int, int)>)
      requires DrawsInRange(draws) && HasFreeDraw(draws, snake)
      modifies this`food
      ensures PlacedFrom(food, draws, snake)
      ensures Aligned(food) && !OutOfScreen(food)
    {
      var i := 0;
      while DrawPoint(draws[i]) in snake
        invariant 0 <= i < |draws|
        invariant exists j :: i <= j < |draws| && DrawPoint(draws[j]) !in snake
        invariant forall j :: 0 <= j < i ==> DrawPoint(draws[j]) in snake
        decreases |draws| - i
      {
        i := i + 1;
      }
      food := DrawPoint(draws[i]);
    }

    /** The head hits the screen edge or a later segment. */
    predicate IsCollision()
      reads this
      requires |snake| >= 1
      ensures IsCollision() <==>
        OutOfScreen(snake[0]) || exists i :: 1 <= i < |snake| && snake[i] == snake[0]
    {
      if OutOfScreen(snake[0]) then true else snake[0] in snake[1..]
    }

    /** A point is safe exactly when it is on screen and no segment, head included, is there. */
    predicate IsCollisionPoint(pt: Point)
      reads this
      ensures !IsCollisionPoint(pt) <==>
        0 <= pt.x < ScreenWidth && 0 <= pt.y < ScreenHeight &&
        forall i :: 0 <= i < |snake| ==> snake[i] != pt
    {
      if OutOfScreen(pt) then true else pt in snake
    }

    /**
     * One step of the environment for a one-hot relative action. The frame
     * counter always advances; the heading is steered; the moved head is
     * pushed; a crash or a timeout ends the episode with the pushed body kept;
     * otherwise eating grows the body and scores, and not eating pops the tail.
     */
    method PlayStep(action: seq<int>, draws: seq<(int, int)>) returns (reward: int, gameOver: bool, finalScore: nat)
      requires Valid() && |action| == 3 && DrawsInRange(draws)
      requires var head := Move(snake[0], Steer(direction, action));
        (head == food && !OutOfScreen(head) && head !in snake && frameIteration + 1 <= 50 * (|snake| + 1))
          ==> HasFreeDraw(draws, [head] + snake)
      modifies this
      ensures Valid()
      ensures direction == Steer(old(direction), action)
      ensures frameIteration == old(frameIteration) + 1
      ensures finalScore == score
      ensures var head := Move(old(snake)[0], direction);
        && gameOver == (OutOfScreen(head) || head in old(snake) || frameIteration > 50 * (|old(snake)| + 1))
        && (gameOver ==>
              reward == -10 && snake == [head] + old(snake) && score == old(score) && food == old(food))
        && (!gameOver && head == old(food) ==>
              reward == 10 && snake == [head] + old(snake) && score == old(score) + 1 &&
              PlacedFrom(food, draws, snake))
        && (!gameOver && head != old(food) ==>
              reward == 0 && snake == [head] + old(snake)[..|old(snake)| - 1] &&
              score == old(score) && food == old(food))
    {
      frameIteration := frameIteration + 1;

      direction := TableSteer(direction, action);

      var head := Move(snake[0], direction);
      PushKeepsShape(snake, old(direction), direction);
      snake := [head] + snake;

      reward := 0;
      gameOver := false;
      if IsCollision() || frameIteration > 50 * |snake| {
        gameOver := true;
        reward := -10;
        finalScore := score;
        return;
      }

      if head == food {
        score := score + 1;
        reward := 10;
        PlaceFood(draws);
      } else {
        PopKeepsShape(snake, direction);
        snake := snake[..|snake| - 1];
      }
      finalScore := score;
    }
  }
}
