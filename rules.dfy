/**
 * The game-state transitions of the snake game as pure functions: one move
 * of the snake, the coin test, the direction filter, one tick of the game,
 * and a run over a sequence of input and tick events.  The classes in
 * module SnakeGame are proved against these functions.
 */
module SnakeRules {
  import opened Grid

  /** The single coin on the grid. */
  datatype Coin = Coin(xPos: U32, yPos: U32)

  /** What one move of the snake reports. */
  datatype Step =
    | Moved     // the new head passed the bound check
    | OffGrid   // the new head has x > 10 or y > 10
    | Overflow  // the `u32` move overflowed (a panic in a debug build)

  datatype Advanced = Advanced(body: seq<Cell>, step: Step)

  /** Keyboard keys: the four arrows and every other key. */
  datatype Key = ArrowUp | ArrowDown | ArrowLeft | ArrowRight | OtherKey(code: nat)

  datatype Button = Keyboard(key: Key) | OtherButton

  /** The game state: the snake's body (head first) and direction, the coin and the collide flag. */
  datatype State = State(body: seq<Cell>, dir: Direction, coin: Coin, collide: bool)

  /** A state after a tick, with the tick's "keep running" answer. */
  datatype Outcome = Outcome(state: State, running: bool)

  /** One event of the driving loop: a button press, or a tick with its two random draws. */
  datatype Event = Pressed(btn: Button) | Updated(randX: U32, randY: U32)

  /** The two-argument `gen_range(1, 10)`: its upper bound is exclusive. */
  predicate InDrawRange(v: int) {
    1 <= v < 10
  }

  function CoinCell(coin: Coin): Cell {
    Cell(coin.xPos, coin.yPos)
  }

  /** The state a game starts in. */
  function Initial(): (s: State)
    ensures InPlay(s) && |s.body| == 2 && !s.collide && s.dir == Right
  {
    State([Cell(5, 5), Cell(5, 4)], Right, Coin(2, 2), false)
  }

  /**
   * A state reachable while the game keeps running: a body that is not
   * empty, every cell of it passes the bound check, and the coin lies in the
   * random draw's range.
   */
  predicate InPlay(s: State) {
    && s.body != []
    && (forall i :: 0 <= i < |s.body| ==> OnGrid(s.body[i]))
    && InDrawRange(s.coin.xPos) && InDrawRange(s.coin.yPos)
  }

  /** The coin test: the snake's front cell is exactly the coin's cell. */
  function Collides(coin: Coin, body: seq<Cell>): (r: bool)
    requires body != []
    ensures r <==> body[0] == CoinCell(coin)
  {
    body[0].x == coin.xPos && body[0].y == coin.yPos
  }

  /**
   * One move of the snake: the new head is pushed on the front, and the last
   * cell is dropped unless `grow`.  The bound check is made after the body
   * has changed.  An overflowing move changes nothing.
   */
  function Advance(body: seq<Cell>, dir: Direction, grow: bool): (r: Advanced)
    requires body != []
    ensures r.body != []
    ensures r.step == Overflow <==> !(IsU32(body[0].x + DX(dir)) && IsU32(body[0].y + DY(dir)))
    ensures r.step == Overflow ==> r.body == body
    ensures r.step != Overflow ==>
              && |r.body| == |body| + (if grow then 1 else 0)
              && r.body[0].x == body[0].x + DX(dir)
              && r.body[0].y == body[0].y + DY(dir)
              && (forall i :: 1 <= i < |r.body| ==> r.body[i] == body[i - 1])
              && (r.step == OffGrid <==> r.body[0].x > 10 || r.body[0].y > 10)
  {
    match Offset(body[0], dir)
    case None => Advanced(body, Overflow)
    case Some(head) =>
      var moved := [head] + (if grow then body else body[..|body| - 1]);
      Advanced(moved, if OnGrid(head) then Moved else OffGrid)
  }

  /** The arrow a button stands for, if any. */
  function ArrowOf(btn: Button): Option<Direction> {
    match btn
    case Keyboard(ArrowUp) => Some(Up)
    case Keyboard(ArrowDown) => Some(Down)
    case Keyboard(ArrowLeft) => Some(Left)
    case Keyboard(ArrowRight) => Some(Right)
    case _ => None
  }

  /**
   * The direction filter: an arrow sets the direction unless it asks for the
   * exact reverse of `current`; every other button keeps `current`.
   */
  function Steer(current: Direction, btn: Button): (r: Direction)
    ensures r != Opposite(current)
    ensures ArrowOf(btn).None? ==> r == current
    ensures ArrowOf(btn) == Some(Opposite(current)) ==> r == current
    ensures ArrowOf(btn).Some? && ArrowOf(btn).value != Opposite(current) ==> r == ArrowOf(btn).value
  {
    match btn
    case Keyboard(ArrowUp) => if current != Down then Up else current
    case Keyboard(ArrowDown) => if current != Up then Down else current
    case Keyboard(ArrowLeft) => if current != Right then Left else current
    case Keyboard(ArrowRight) => if current != Left then Right else current
    case _ => current
  }

  /**
   * One tick of the game.  The snake moves, growing when the previous tick's
   * collide flag is set.  When the move fails the tick stops there; otherwise
   * the collide flag is recomputed, and a hit coin is replaced by the drawn cell.
   */
  function Tick(s: State, randX: U32, randY: U32): (r: Outcome)
    requires s.body != []
    ensures r.state.body != [] && r.state.dir == s.dir
    ensures r.running <==> Offset(s.body[0], s.dir).Some? && OnGrid(Offset(s.body[0], s.dir).value)
    ensures r.state.body == Advance(s.body, s.dir, s.collide).body
    ensures Offset(s.body[0], s.dir).Some? ==> r.state.body[0] == Offset(s.body[0], s.dir).value
    ensures |r.state.body| == |s.body| + (if s.collide && Offset(s.body[0], s.dir).Some? then 1 else 0)
    ensures !r.running ==> r.state.coin == s.coin && r.state.collide == s.collide
    ensures r.running ==> (r.state.collide <==> r.state.body[0] == CoinCell(s.coin))
    ensures r.running && r.state.collide ==> r.state.coin == Coin(randX, randY)
    ensures r.running && !r.state.collide ==> r.state.coin == s.coin
  {
    var a := Advance(s.body, s.dir, s.collide);
    if a.step != Moved then
      Outcome(s.(body := a.body), false)
    else
      var hit := Collides(s.coin, a.body);
      Outcome(s.(body := a.body, collide := hit, coin := if hit then Coin(randX, randY) else s.coin), true)
  }

  /** A button press: only the direction changes. */
  function Press(s: State, btn: Button): (r: State)
    ensures r.body == s.body && r.coin == s.coin && r.collide == s.collide
    ensures r.dir == Steer(s.dir, btn)
  {
    s.(dir := Steer(s.dir, btn))
  }

  /**
   * The driving loop over a sequence of events: it stops at the first tick
   * that reports false.  The body is never empty along the way.
   */
  function Run(s: State, events: seq<Event>): (r: Outcome)
    requires s.body != []
    ensures r.state.body != []
    decreases |events|
  {
    if events == [] then Outcome(s, true)
    else
      match events[0]
      case Pressed(btn) => Run(Press(s, btn), events[1..])
      case Updated(randX, randY) =>
        var t := Tick(s, randX, randY);
        if t.running then Run(t.state, events[1..]) else t
  }

  /**
   * A run over two event sequences is the run over the first, continued
   * with the second only if the game is still running; a stopped game stays
   * stopped whatever events follow.
   */
  lemma {:induction false} RunSplit(s: State, e1: seq<Event>, e2: seq<Event>)
    requires s.body != []
    ensures Run(s, e1 + e2) == (var r := Run(s, e1); if r.running then Run(r.state, e2) else r)
    decreases |e1|
  {
    if e1 != [] {
      assert (e1 + e2)[0] == e1[0];
      assert (e1 + e2)[1..] == e1[1..] + e2;
      match e1[0]
      case Pressed(btn) =>
        RunSplit(Press(s, btn), e1[1..], e2);
      case Updated(randX, randY) =>
        var t := Tick(s, randX, randY);
        if t.running {
          RunSplit(t.state, e1[1..], e2);
        }
    } else {
      assert e1 + e2 == e2;
    }
  }

  function CountUpdates(events: seq<Event>): nat {
    if events == [] then 0
    else (if events[0].Updated? then 1 else 0) + CountUpdates(events[1..])
  }

  predicate DrawsInRange(events: seq<Event>) {
    forall i :: 0 <= i < |events| && events[i].Updated? ==>
      InDrawRange(events[i].randX) && InDrawRange(events[i].randY)
  }

  /** A tick that keeps the game running keeps every cell on the grid and the coin in range. */
  lemma TickKeepsInPlay(s: State, randX: U32, randY: U32)
    requires InPlay(s) && InDrawRange(randX) && InDrawRange(randY)
    requires Tick(s, randX, randY).running
    ensures InPlay(Tick(s, randX, randY).state)
  {
  }

  /** The snake's length never shrinks, and grows by at most one cell per tick. */
  lemma {:induction false} RunLengthBounds(s: State, events: seq<Event>)
    requires s.body != []
    ensures |s.body| <= |Run(s, events).state.body| <= |s.body| + CountUpdates(events)
    decreases |events|
  {
    if events != [] {
      match events[0]
      case Pressed(btn) =>
        RunLengthBounds(Press(s, btn), events[1..]);
      case Updated(randX, randY) =>
        var t := Tick(s, randX, randY);
        if t.running {
          RunLengthBounds(t.state, events[1..]);
        }
    }
  }

  /**
   * While the game keeps running, every cell of the body passes the bound
   * check and the coin lies in the draw range, provided the draws do.
   */
  lemma {:induction false} RunKeepsInPlay(s: State, events: seq<Event>)
    requires InPlay(s) && DrawsInRange(events)
    ensures Run(s, events).running ==> InPlay(Run(s, events).state)
    decreases |events|
  {
    if events != [] {
      assert DrawsInRange(events[1..]) by {
        forall i | 0 <= i < |events[1..]| && events[1..][i].Updated?
          ensures InDrawRange(events[1..][i].randX) && InDrawRange(events[1..][i].randY)
        {
          assert events[1..][i] == events[i + 1];
        }
      }
      match events[0]
      case Pressed(btn) =>
        RunKeepsInPlay(Press(s, btn), events[1..]);
      case Updated(randX, randY) =>
        assert InDrawRange(randX) && InDrawRange(randY) by {
          assert events[0].Updated?;
        }
        var t := Tick(s, randX, randY);
        if t.running {
          TickKeepsInPlay(s, randX, randY);
          RunKeepsInPlay(t.state, events[1..]);
        }
    }
  }

  /**
   * The game ends only at an edge: the final head failed the bound check,
   * or the next move from it overflows.
   */
  lemma {:induction false} RunStopsOnlyAtEdge(s: State, events: seq<Event>)
    requires s.body != []
    ensures !Run(s, events).running ==>
              var f := Run(s, events).state;
              !OnGrid(f.body[0]) || Offset(f.body[0], f.dir).None?
    decreases |events|
  {
    if events != [] {
      match events[0]
      case Pressed(btn) =>
        RunStopsOnlyAtEdge(Press(s, btn), events[1..]);
      case Updated(randX, randY) =>
        var t := Tick(s, randX, randY);
        if t.running {
          RunStopsOnlyAtEdge(t.state, events[1..]);
        }
    }
  }

  /** Growth is one tick late: a tick that hits the coin is followed by one that grows the body. */
  lemma GrowthFollowsHit(s: State, x1: U32, y1: U32, x2: U32, y2: U32)
    requires s.body != []
    requires Tick(s, x1, y1).running && Tick(s, x1, y1).state.collide
    ensures var t := Tick(s, x1, y1).state;
            Offset(t.body[0], t.dir).Some? ==> |Tick(t, x2, y2).state.body| == |t.body| + 1
  {
  }

  /** The first tick of a new game: the head moves right, the length stays two, nothing is hit. */
  lemma FirstTick(randX: U32, randY: U32)
    ensures Tick(Initial(), randX, randY)
         == Outcome(State([Cell(6, 5), Cell(5, 5)], Right, Coin(2, 2), false), true)
  {
  }

  /** A head at x = 10 moving right leaves the grid and ends the game. */
  lemma LeavingRightEdge(s: State, randX: U32, randY: U32)
    requires s.body != [] && s.body[0] == Cell(10, 5) && s.dir == Right
    ensures !Tick(s, randX, randY).running
    ensures Tick(s, randX, randY).state.body[0] == Cell(11, 5)
  {
  }
}
