/**
 * Grid cells, directions and the one-cell moves of the snake game.
 *
 * Coordinates are Rust `u32` values: a move that would take a coordinate
 * below 0 or above 2^32 - 1 is an arithmetic overflow, which panics in a
 * debug build.  `Offset` reports it as `None`; `WrappingOffset` is what a
 * release build computes instead.
 */
module Grid {

  datatype Option<T> = None | Some(value: T)

  /** 2^32: one more than the largest `u32`. */
  const U32_LIMIT: int := 0x1_0000_0000

  type U32 = n: int | IsU32(n)

  /** The largest coordinate the game accepts; the bound check is `> 10`. */
  const GRID_MAX: int := 10

  predicate IsU32(n: int) {
    0 <= n < U32_LIMIT
  }

  datatype Direction = Right | Left | Up | Down

  datatype Cell = Cell(x: U32, y: U32)

  /** The reversal that the direction filter refuses. */
  function Opposite(d: Direction): Direction {
    match d
    case Up => Down
    case Down => Up
    case Left => Right
    case Right => Left
  }

  /** Unit vector of a direction; y grows downwards. */
  function DX(d: Direction): int {
    match d
    case Left => -1
    case Right => 1
    case _ => 0
  }

  function DY(d: Direction): int {
    match d
    case Up => -1
    case Down => 1
    case _ => 0
  }

  /** A cell offset by one unit in `d`, or `None` when the `u32` arithmetic overflows. */
  function Offset(c: Cell, d: Direction): (r: Option<Cell>)
    ensures r.Some? <==> IsU32(c.x + DX(d)) && IsU32(c.y + DY(d))
    ensures r.Some? ==> r.value.x == c.x + DX(d) && r.value.y == c.y + DY(d)
  {
    match d
    case Left => if c.x == 0 then None else Some(Cell(c.x - 1, c.y))
    case Right => if c.x == U32_LIMIT - 1 then None else Some(Cell(c.x + 1, c.y))
    case Up => if c.y == 0 then None else Some(Cell(c.x, c.y - 1))
    case Down => if c.y == U32_LIMIT - 1 then None else Some(Cell(c.x, c.y + 1))
  }

  /**
   * The bound check of the game: only the upper bound is tested.
   * A coordinate of 0 passes it.
   */
  predicate OnGrid(c: Cell) {
    c.x <= GRID_MAX && c.y <= GRID_MAX
  }

  /**
   * The same move as a release build computes it, wrapping modulo 2^32.
   * It agrees with `Offset` whenever `Offset` succeeds, and from a cell that
   * passes the bound check an overflowing move always lands off the grid,
   * so the game stops in both builds.
   */
  function WrappingOffset(c: Cell, d: Direction): (r: Cell)
    ensures Offset(c, d).Some? ==> r == Offset(c, d).value
    ensures OnGrid(c) && Offset(c, d).None? ==> !OnGrid(r)
  {
    Cell((c.x + DX(d)) % U32_LIMIT, (c.y + DY(d)) % U32_LIMIT)
  }

  lemma OppositeIsInvolution(d: Direction)
    ensures Opposite(d) != d
    ensures Opposite(Opposite(d)) == d
  {
  }
}
