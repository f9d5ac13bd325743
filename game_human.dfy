/**
 * The keyboard-driven game of game_human.rs. It shares the geometry of the
 * training game (the source repeats the same Direction and Point types) but
 * has its own rules: the heading is set directly by a key, a step that would
 * crash leaves the state untouched and ends the game, there is no frame limit,
 * and food columns and rows come from a real-valued rng draw that is floored.
 */
module GameHuman {
  import opened Game

  /** The upper ends of the open ranges `gen_range(0.0..SCREEN_WIDTH - BLOCK_SIZE)` draws from. */
  const DrawWidth: real := (ScreenWidth - BlockSize) as real
  const DrawHeight: real := (ScreenHeight - BlockSize) as real

  /** Food candidates are pixel draws in [0, DrawWidth) and [0, DrawHeight). */
  predicate PixelDrawsInRange(draws: seq<(real, real)>) {
    forall i :: 0 <= i < |draws| ==>
      0.0 <= draws[i].0 < DrawWidth && 0.0 <= draws[i].1 < DrawHeight
  }

  /** A draw floored down to the block lattice. */
  function Floored(d: (real, real)): (p: Point)
    ensures Aligned(p)
    ensures p.x as real <= d.0 < (p.x + BlockSize) as real && p.y as real <= d.1 < (p.y + BlockSize) as real
  {
    Point((d.0 / BlockSize as real).Floor * BlockSize, (d.1 / BlockSize as real).Floor * BlockSize)
  }

  /**
   * A floored draw is an aligned on-screen position. Because the drawing range
   * stops one block short of the edge, the food never appears in the last
   * column or the last row of the screen.
   */
  lemma FlooredBounds(d: (real, real))
    requires 0.0 <= d.0 < DrawWidth && 0.0 <= d.1 < DrawHeight
    ensures Aligned(Floored(d)) && !OutOfScreen(Floored(d))
    ensures Floored(d).x <= ScreenWidth - 2 * BlockSize
    ensures Floored(d).y <= ScreenHeight - 2 * BlockSize
  {
    var p := Floored(d);
    var cx, cy := (d.0 / 20.0).Floor, (d.1 / 20.0).Floor;
    assert 0 <= cx < 31 && 0 <= cy < 23;
    assert p == Point(cx * 20, cy * 20);
  }

  /** Some draw misses the body, so the rejection loop of `place_food` stops. */
  predicate HasFreePixelDraw(draws: seq<(real, real)>, body: seq<Point>) {
    exists i :: 0 <= i < |draws| && Floored(draws[i]) !in body
  }

  /** `food` is the first floored draw that misses the body; every earlier one hit it. */
  predicate PlacedFromPixels(food: Point, draws: seq<(real, real)>, body: seq<Point>) {
    exists i :: 0 <= i < |draws| && food == Floored(draws[i]) && food !in body &&
      forall j :: 0 <= j < i ==> Floored(draws[j]) in body
  }

  /**
   * `change_direction` as written: any heading except the opposite of the
   * current one is taken.
   */
  function Steered(current: Direction, requested: Direction): (d: Direction)
    ensures d == requested <==> requested != Opposite(current)
    ensures d != requested ==> d == current
  {
    if requested != Opposite(current) then requested else current
  }

  /** No single request turns the heading around. */
  lemma SteeredNeverOpposite(current: Direction, requested: Direction)
    ensures Steered(current, requested) != Opposite(current)
  {
  }

  /**
   * Two requests between two moves reverse the snake: heading right from the
   * initial body, Up and then Left are both taken, and the next head lands on
   * the neck, so the next update ends the game.
   */
  lemma TwoRequestsReverse()
    ensures var body := InitialSnake();
      && Steered(Steered(Right, Up), Left) == Left
      && Move(body[0], Left) == body[1]
      && Move(body[0], Left) in body[1..]
  {
    var body := InitialSnake();
    assert body[1..][0] == body[1];
  }

  /**
   * The intended rule: refuse a heading that would put the next head on the
   * neck, the segment just behind the head.
   */
  function SafeSteered(body: seq<Point>, current: Direction, requested: Direction): (d: Direction)
    requires |body| >= 2
    ensures d == requested <==> (requested == current || Move(body[0], requested) != body[1])
    ensures d != requested ==> d == current
  {
    if Move(body[0], requested) != body[1] then requested else current
  }

  lemma MoveInjective(p: Point, a: Direction, b: Direction)
    requires Move(p, a) == Move(p, b)
    ensures a == b
  {
  }

  /**
   * While the neck lies straight behind the heading, as it does after every
   * move, the intended rule agrees with the written one.
   */
  lemma SafeSteeredAgreesAfterMove(body: seq<Point>, current: Direction, requested: Direction)
    requires |body| >= 2 && body[1] == Move(body[0], Opposite(current))
    ensures SafeSteered(body, current, requested) == Steered(current, requested)
  {
    if Move(body[0], requested) == body[1] {
      MoveInjective(body[0], requested, Opposite(current));
    }
  }

  /** The heading after a run of requests between two moves. */
  function SafeSteeredAll(body: seq<Point>, current: Direction, requests: seq<Direction>): Direction
    requires |body| >= 2
    decreases |requests|
  {
    if requests == [] then current
    else SafeSteeredAll(body, SafeSteered(body, current, requests[0]), requests[1..])
  }

  /**
   * However many requests arrive between two moves, the intended rule never
   * points the next head at the neck.
   */
  lemma {:induction false} SafeSteeredAllAvoidsNeck(body: seq<Point>, current: Direction, requests: seq<Direction>)
    requires |body| >= 2 && Move(body[0], current) != body[1]
    ensures Move(body[0], SafeSteeredAll(body, current, requests)) != body[1]
    decreases |requests|
  {
    if requests != [] {
      SafeSteeredAllAvoidsNeck(body, SafeSteered(body, current, requests[0]), requests[1..]);
    }
  }

  class SnakeGame {
    var direction: Direction
    var snake: seq<Point>
    var food: Point
    var score: nat

    /**
     * What every reachable state satisfies: a contiguous aligned body of at
     * least three segments, all on screen (a crashing move is never taken),
     * and aligned food.
     */
    ghost predicate Valid()
      reads this
    {
      && |snake| >= 3
      && (forall i :: 0 <= i < |snake| ==> Aligned(snake[i]) && !OutOfScreen(snake[i]))
      && Contiguous(snake)
      && Aligned(food)
    }

    /** The next head does not land on the neck. */
    ghost predicate NeckBehind()
      reads this
      requires |snake| >= 2
    {
      Move(snake[0], direction) != snake[1]
    }

    /** `SnakeGame::new`: the initial body heading right, then food from the draws. */
    constructor (draws: seq<(real, real)>)
      requires PixelDrawsInRange(draws) && HasFreePixelDraw(draws, InitialSnake())
      ensures Valid() && NeckBehind()
      ensures snake == InitialSnake() && direction == Right && score == 0
      ensures PlacedFromPixels(food, draws, snake)
    {
      direction := Right;
      snake := InitialSnake();
      food := Point(0, 0);
      score := 0;
      new;
      PlaceFood(draws);
    }

    /** The rejection loop: take the first floored draw that is not on the body. */
    method PlaceFood(draws: seq<(real, real)>)
      requires PixelDrawsInRange(draws) && HasFreePixelDraw(draws, snake)
      modifies this`food
      ensures PlacedFromPixels(food, draws, snake)
      ensures Aligned(food) && !OutOfScreen(food) && food !in snake
    {
      var i := 0;
      while Floored(draws[i]) in snake
        invariant 0 <= i < |draws|
        invariant exists j :: i <= j < |draws| && Floored(draws[j]) !in snake
        invariant forall j :: 0 <= j < i ==> Floored(draws[j]) in snake
        decreases |draws| - i
      {
        i := i + 1;
      }
      food := Floored(draws[i]);
      FlooredBounds(draws[i]);
    }

    /** A would-be head hits the screen edge or a segment behind the current head. */
    predicate IsCollision(head: Point)
      reads this
      requires |snake| >= 1
      ensures IsCollision(head) <==>
        OutOfScreen(head) || exists i :: 1 <= i < |snake| && snake[i] == head
    {
      if OutOfScreen(head) then true else head in snake[1..]
    }

    /**
     * One timed move. The moved head is tested before it is pushed: a crash
     * changes nothing and reports the end of the game; otherwise the head is
     * pushed and eating grows the body, scores and places new food, while not
     * eating pops the tail.
     */
    method Update(draws: seq<(real, real)>) returns (gameOver: bool)
      requires Valid() && PixelDrawsInRange(draws)
      requires var head := Move(snake[0], direction);
        (head == food && !IsCollision(head)) ==> HasFreePixelDraw(draws, [head] + snake)
      modifies this
      ensures Valid() && direction == old(direction)
      ensures old(NeckBehind()) && !gameOver ==> NeckBehind()
      ensures !old(NeckBehind()) ==> gameOver
      ensures var head := Move(old(snake)[0], direction);
        && gameOver == (OutOfScreen(head) || head in old(snake)[1..])
        && (gameOver ==> snake == old(snake) && food == old(food) && score == old(score))
        && (!gameOver && head == old(food) ==>
              snake == [head] + old(snake) && score == old(score) + 1 && PlacedFromPixels(food, draws, snake))
        && (!gameOver && head != old(food) ==>
              snake == [head] + old(snake)[..|old(snake)| - 1] && score == old(score) && food == old(food))
    {
      var head := Move(snake[0], direction);
      assert snake[1..][0] == snake[1];
      if IsCollision(head) {
        return true;
      }
      PushKeepsContiguous(snake, direction);
      MoveOppositeCancels(snake[0], direction);
      MoveFollowsHeading(head, direction);
      snake := [head] + snake;
      if head == food {
        score := score + 1;
        PlaceFood(draws);
      } else {
        snake := snake[..|snake| - 1];
      }
      gameOver := false;
    }

    /** `change_direction` as written: see `Steered`. */
    method ChangeDirection(requested: Direction)
      requires Valid()
      modifies this`direction
      ensures Valid() && direction == Steered(old(direction), requested)
    {
      var opposite := Opposite(direction);
      if requested != opposite {
        direction := requested;
      }
    }

    /** The corrected `change_direction`: see `SafeSteered`. */
    method TurnSafely(requested: Direction)
      requires Valid() && NeckBehind()
      modifies this`direction
      ensures Valid() && NeckBehind()
      ensures direction == SafeSteered(snake, old(direction), requested)
    {
      if Move(snake[0], requested) != snake[1] {
        direction := requested;
      }
    }
  }
}
