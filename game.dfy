/**
 * The mutable game objects: the snake, whose body and direction change in
 * place, and the game, which owns the snake, the coin and the collide flag.
 * Each method is proved against its pure counterpart in SnakeRules.
 */
module SnakeGame {
  import opened Grid
  import opened SnakeRules

  class Snake {
    /** The body as a double-ended queue, head first. */
    var body: seq<Cell>
    var dir: Direction

    ghost predicate Valid()
      reads this
    {
      body != []
    }

    constructor (body0: seq<Cell>, dir0: Direction)
      requires body0 != []
      ensures Valid() && body == body0 && dir == dir0
    {
      body := body0;
      dir := dir0;
    }

    /**
     * One move: push the offset head on the front, pop the tail unless
     * `collide`, then report the bound check.  An overflowing move stops
     * before the body is touched.
     */
    method Update(collide: bool) returns (step: Step)
      requires Valid()
      modifies this
      ensures Valid() && dir == old(dir)
      ensures body == Advance(old(body), old(dir), collide).body
      ensures step == Advance(old(body), old(dir), collide).step
    {
      var next := Offset(body[0], dir);
      if next.None? {
        return Overflow;
      }
      var newHead := next.value;
      body := [newHead] + body;
      if !collide {
        body := body[..|body| - 1];
      }
      if newHead.x > GRID_MAX || newHead.y > GRID_MAX {
        step := OffGrid;
      } else {
        step := Moved;
      }
    }
  }

  class Game {
    const snake: Snake
    var coin: Coin
    var collide: bool

    ghost predicate Valid()
      reads this, snake
    {
      snake.Valid()
    }

    /** The whole game state as a value. */
    ghost function View(): State
      reads this, snake
    {
      State(snake.body, snake.dir, coin, collide)
    }

    /** The game as it starts: body (5,5),(5,4) heading right, coin at (2,2). */
    constructor ()
      ensures Valid() && fresh(snake)
      ensures View() == Initial()
    {
      snake := new Snake([Cell(5, 5), Cell(5, 4)], Right);
      coin := Coin(2, 2);
      collide := false;
    }

    /**
     * One tick, with the two random draws for a replacement coin passed in.
     * Returns false when the snake's move fails; the state then keeps the
     * moved body and the old coin and collide flag.
     */
    method Update(randX: U32, randY: U32) returns (running: bool)
      requires Valid()
      modifies this, snake
      ensures Valid()
      ensures View() == Tick(old(View()), randX, randY).state
      ensures running == Tick(old(View()), randX, randY).running
    {
      var step := snake.Update(collide);
      if step != Moved {
        return false;
      }
      if collide {
        collide := false;
      }
      collide := Collides(coin, snake.body);
      if collide {
        coin := Coin(randX, randY);
      }
      return true;
    }

    /** A button press: the direction filter decides the snake's next direction. */
    method Pressed(btn: Button)
      requires Valid()
      modifies snake
      ensures Valid()
      ensures View() == Press(old(View()), btn)
    {
      snake.dir := Steer(snake.dir, btn);
    }
  }
}
