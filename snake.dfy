/**
 The snake of the game: its headings, the grid cells of its body, how one
 tick moves it, how a key press turns it and where its squares are drawn.

 Coordinates are unbounded in the pure functions; the 32-bit signed
 coordinates of the program appear as preconditions of the methods, which
 are exactly the cases where its arithmetic would overflow.
 */
module SnakeCore {

  datatype Option<T> = None | Some(value: T)

  /** The heading of the snake. */
  datatype Direction = Right | Left | Up | Down

  /** A grid cell (x, y): x grows to the right, y grows downwards. */
  type Cell = (int, int)

  /** The body together with the heading: the value a `Snake` holds. */
  datatype State = State(body: seq<Cell>, dir: Direction)

  // ---------------------------------------------------------------------------
  // 32-bit signed coordinates

  const I32Min: int := -0x8000_0000
  const I32Max: int := 0x7fff_ffff

  predicate InI32(n: int) {
    I32Min <= n <= I32Max
  }

  predicate CellInI32(c: Cell) {
    InI32(c.0) && InI32(c.1)
  }

  predicate BodyInI32(body: seq<Cell>) {
    forall i :: 0 <= i < |body| ==> CellInI32(body[i])
  }

  // ---------------------------------------------------------------------------
  // Directions and movement

  /** The heading that would turn the snake back onto itself. */
  function Opposite(d: Direction): (r: Direction)
    ensures r != d
    ensures (d == Up || d == Down) <==> (r == Up || r == Down)
  {
    match d
    case Right => Left
    case Left => Right
    case Up => Down
    case Down => Up
  }

  lemma OppositeInvolutive(d: Direction)
    ensures Opposite(Opposite(d)) == d
  {
  }

  function Dist(a: int, b: int): nat {
    if a <= b then b - a else a - b
  }

  /** Two cells share an edge. */
  predicate Adjacent(a: Cell, b: Cell) {
    Dist(a.0, b.0) + Dist(a.1, b.1) == 1
  }

  /** The cell one unit away from `c` along `d`. */
  function Advance(c: Cell, d: Direction): (r: Cell)
    ensures Adjacent(c, r)
    ensures (d == Left || d == Right) <==> r.1 == c.1
    ensures (d == Right || d == Down) <==> r.0 + r.1 > c.0 + c.1
  {
    match d
    case Left => (c.0 - 1, c.1)
    case Right => (c.0 + 1, c.1)
    case Up => (c.0, c.1 - 1)
    case Down => (c.0, c.1 + 1)
  }

  /** Stepping back along the opposite heading undoes a step. */
  lemma AdvanceUndo(c: Cell, d: Direction)
    ensures Advance(Advance(c, d), Opposite(d)) == c
  {
  }

  /** From one cell, different headings lead to different cells. */
  lemma AdvanceInjective(c: Cell, d1: Direction, d2: Direction)
    ensures Advance(c, d1) == Advance(c, d2) <==> d1 == d2
  {
  }

  /** The cell `k` units away from `c` along `d`. */
  function Along(c: Cell, d: Direction, k: int): Cell {
    match d
    case Left => (c.0 - k, c.1)
    case Right => (c.0 + k, c.1)
    case Up => (c.0, c.1 - k)
    case Down => (c.0, c.1 + k)
  }

  /** The body after one tick along `d`: a new head pushed at the front, the tail popped. */
  function Moved(body: seq<Cell>, d: Direction): (r: seq<Cell>)
    requires |body| >= 1
    ensures |r| == |body|
    ensures r[0] == Advance(body[0], d)
    ensures forall i :: 1 <= i < |r| ==> r[i] == body[i - 1]
  {
    [Advance(body[0], d)] + body[..|body| - 1]
  }

  /** Consecutive segments share an edge. */
  predicate Contiguous(body: seq<Cell>) {
    forall i :: 0 <= i < |body| - 1 ==> Adjacent(body[i], body[i + 1])
  }

  /** A tick keeps a connected body connected. */
  lemma MovedKeepsContiguous(body: seq<Cell>, d: Direction)
    requires |body| >= 1 && Contiguous(body)
    ensures Contiguous(Moved(body, d))
  {
  }

  /** After a tick the second segment sits one step behind the head. */
  lemma MovedNeckBehind(body: seq<Cell>, d: Direction)
    requires |body| >= 2
    ensures Moved(body, d)[1] == Advance(Moved(body, d)[0], Opposite(d))
  {
  }

  /** The body after `k` ticks along the same heading. */
  function Ticks(body: seq<Cell>, d: Direction, k: nat): (r: seq<Cell>)
    requires |body| >= 1
    ensures |r| == |body|
    decreases k
  {
    if k == 0 then body else Moved(Ticks(body, d, k - 1), d)
  }

  /**
   After `k` ticks in a straight line the first `k + 1` segments lie on the
   line the head followed, and the rest of the body is the old body shifted
   back by `k`.
   */
  lemma {:induction false} TicksShift(body: seq<Cell>, d: Direction, k: nat)
    requires |body| >= 1
    ensures forall j :: 0 <= j < |body| && j <= k ==> Ticks(body, d, k)[j] == Along(body[0], d, k - j)
    ensures forall j :: k <= j < |body| ==> Ticks(body, d, k)[j] == body[j - k]
  {
    if k > 0 {
      TicksShift(body, d, k - 1);
      var prev := Ticks(body, d, k - 1);
      var r := Ticks(body, d, k);
      assert r == Moved(prev, d);
      forall j | 0 <= j < |body| && j <= k
        ensures r[j] == Along(body[0], d, k - j)
      {
        if j == 0 {
          assert prev[0] == Along(body[0], d, k - 1);
        } else {
          assert r[j] == prev[j - 1];
        }
      }
      forall j | k <= j < |body|
        ensures r[j] == body[j - k]
      {
        assert r[j] == prev[j - 1];
      }
    }
  }

  // ---------------------------------------------------------------------------
  // Keys and turning

  /** The keyboard keys the game reacts to; every other key is `OtherKey`. */
  datatype Key = H | J | K | L | OtherKey

  /** A button of any input device. */
  datatype Button = Keyboard(key: Key) | Mouse | Controller | Hat

  /** The heading a button asks for, if any: K up, J down, H left, L right. */
  function Requested(btn: Button): Option<Direction> {
    match btn
    case Keyboard(K) => Some(Up)
    case Keyboard(J) => Some(Down)
    case Keyboard(H) => Some(Left)
    case Keyboard(L) => Some(Right)
    case _ => None
  }

  /**
   The heading after pressing `btn` while heading `last`: the requested
   heading unless it is the exact opposite of `last`.
   */
  function Turn(last: Direction, btn: Button): (r: Direction)
    ensures r != Opposite(last)
    ensures r == last || Requested(btn) == Some(r)
    ensures Requested(btn).Some? && Requested(btn).value != Opposite(last) ==> r == Requested(btn).value
  {
    match btn
    case Keyboard(K) => if last != Down then Up else last
    case Keyboard(J) => if last != Up then Down else last
    case Keyboard(H) => if last != Right then Left else last
    case Keyboard(L) => if last != Left then Right else last
    case _ => last
  }

  /** Pressing the same button twice in a row has the effect of pressing it once. */
  lemma TurnIdempotent(last: Direction, btn: Button)
    ensures Turn(Turn(last, btn), btn) == Turn(last, btn)
  {
  }

  /**
   With one press between two ticks the head never moves back onto the
   segment behind it: the second tick cannot undo the first.
   */
  lemma OnePressCannotReverse(body: seq<Cell>, d: Direction, btn: Button)
    requires |body| >= 2
    ensures Moved(Moved(body, d), Turn(d, btn))[0] != Moved(body, d)[1]
  {
  }

  // ---------------------------------------------------------------------------
  // Squares drawn for the body

  /** Side of one grid cell on screen. */
  const CellSize: int := 20

  /** An axis-aligned square: top-left corner (x, y) and side `size`. */
  datatype Square = Square(x: int, y: int, size: int)

  function SquareAt(c: Cell): Square {
    Square(c.0 * CellSize, c.1 * CellSize, CellSize)
  }

  /** Computing a square's corner stays inside 32-bit signed arithmetic. */
  predicate Scalable(c: Cell) {
    InI32(c.0 * CellSize) && InI32(c.1 * CellSize)
  }

  /** One square per segment, from head to tail. */
  function Squares(body: seq<Cell>): (r: seq<Square>)
    ensures |r| == |body|
    ensures forall i :: 0 <= i < |body| ==> r[i].size == CellSize
    ensures forall i :: 0 <= i < |body| ==> r[i].x == body[i].0 * CellSize && r[i].y == body[i].1 * CellSize
  {
    if body == [] then [] else [SquareAt(body[0])] + Squares(body[1..])
  }

  /** The grid cell a square covers. */
  function CellOf(sq: Square): Cell {
    (sq.x / CellSize, sq.y / CellSize)
  }

  /** The squares give the body back: each square covers exactly its segment's cell. */
  lemma SquaresRoundTrip(body: seq<Cell>)
    ensures forall i :: 0 <= i < |body| ==> CellOf(Squares(body)[i]) == body[i]
  {
  }

  predicate Overlap(a: Square, b: Square) {
    a.x < b.x + b.size && b.x < a.x + a.size && a.y < b.y + b.size && b.y < a.y + a.size
  }

  /** Segments in different cells are drawn as squares that do not overlap. */
  lemma SquaresDisjoint(body: seq<Cell>, i: nat, j: nat)
    requires i < |body| && j < |body| && body[i] != body[j]
    ensures !Overlap(Squares(body)[i], Squares(body)[j])
  {
    if body[i].0 != body[j].0 {
      SeparatedScaled(body[i].0, body[j].0);
    } else {
      SeparatedScaled(body[i].1, body[j].1);
    }
  }

  /** Different grid lines are at least one cell apart on screen. */
  lemma SeparatedScaled(a: int, b: int)
    requires a != b
    ensures a * CellSize + CellSize <= b * CellSize || b * CellSize + CellSize <= a * CellSize
  {
  }

  // ---------------------------------------------------------------------------
  // The snake object

  class Snake {
    var body: seq<Cell>
    var dir: Direction

    /** A snake has a head, and every segment is a pair of 32-bit coordinates. */
    predicate Valid()
      reads this
    {
      |body| >= 1 && BodyInI32(body)
    }

    function Model(): State
      reads this
    {
      State(body, dir)
    }

    constructor (body: seq<Cell>, dir: Direction)
      ensures this.body == body && this.dir == dir
    {
      this.body := body;
      this.dir := dir;
    }

    /** The squares to draw, one per segment; the snake is only read. */
    method Render() returns (squares: seq<Square>)
      requires forall i :: 0 <= i < |body| ==> Scalable(body[i])
      ensures |squares| == |body|
      ensures forall i :: 0 <= i < |body| ==> squares[i] == SquareAt(body[i])
    {
      squares := Squares(body);
    }

    /** One tick: a copy of the head moved one unit along the heading is pushed at the front, the tail popped. */
    method Update()
      requires Valid()
      requires CellInI32(Advance(body[0], dir))
      modifies this
      ensures Valid()
      ensures body == Moved(old(body), old(dir))
      ensures dir == old(dir)
    {
      var newHead := body[0];
      match dir {
        case Left => newHead := (newHead.0 - 1, newHead.1);
        case Right => newHead := (newHead.0 + 1, newHead.1);
        case Up => newHead := (newHead.0, newHead.1 - 1);
        case Down => newHead := (newHead.0, newHead.1 + 1);
      }
      body := [newHead] + body;
      body := body[..|body| - 1];
    }

    /** A button press: the heading turns as `Turn` says, the body is untouched. */
    method Pressed(btn: Button)
      modifies this`dir
      ensures dir == Turn(old(dir), btn)
      ensures body == old(body)
    {
      var last := dir;
      dir := Turn(last, btn);
    }
  }
}
