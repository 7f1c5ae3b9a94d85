# Snake game state in Dafny

A model of the game state of a minimal Snake game written in Rust on the
piston engine (`src/main.rs`). The snake is an ordered body of grid cells
with the head at the front and the tail at the back, plus a heading
(`Right`, `Left`, `Up`, `Down`).

- An update tick copies the head and moves the copy one unit along the
  heading. It pushes the copy at the front and pops the tail.
- The keys K, J, H and L ask for Up, Down, Left and Right. A request for the
  exact opposite of the current heading is vetoed, and any other button
  leaves the heading alone.
- A render request draws one 20-unit square per segment at `(x*20, y*20)`.
- The game starts with the body `[(0,0),(0,1)]` heading `Right`. Its event
  loop sends each event to the matching operation. Release events and all
  other events are ignored.

Files:

- `snake.dfy`, module `SnakeCore`: `Direction`, cells, `Advance`, the tick
  as the function `Moved`, the turn rule as `Turn`, the squares as `Squares`,
  and the class `Snake`. The class holds `body: seq<Cell>` and
  `dir: Direction`. Its `Update` and `Pressed` methods change those fields in
  place, and each is proved against `Moved` or `Turn`.
- `game.dfy`, module `SnakeGame`: the events, the start state, and the
  meaning of one event (`Step`) and of a sequence of events (`Steps`,
  `Frames`). It also holds the class `Game`. `Game.Handle` is one pass of the
  event loop, and `Game.Run` is the loop itself, proved against `Steps` and
  `Frames`.

The source uses `i32` coordinates. The pure functions work on unbounded
integers. The methods require that their arithmetic stays inside `i32`:
`Update` needs the new head to be in range, and `Render` needs `x*20` and
`y*20` to be in range. These are the inputs on which a debug build of the
program aborts with an overflow, just as it aborts on an empty body.

## Model

| member | source | states |
|---|---|---|
| SnakeCore.Opposite | src/main.rs:94-98 | The vetoed heading for each heading pairs Up with Down and Left with Right, and is never the heading itself |
| SnakeCore.OppositeInvolutive | src/main.rs:94-98 | The opposite of the opposite is the heading itself, so the veto pairs are symmetric |
| SnakeCore.Advance | src/main.rs:80-85 | The new head shares an edge with the old one. Left and Right keep y, Up and Down keep x. Right and Down increase x+y, Left and Up decrease it |
| SnakeCore.AdvanceUndo | src/main.rs:80-85 | A step along the opposite heading undoes a step |
| SnakeCore.AdvanceInjective | src/main.rs:80-85 | From one head, different headings give different new heads, in both directions of the iff |
| SnakeCore.Moved | src/main.rs:77-89 | A tick keeps the length. The new head is the old head advanced along the heading, and every other segment takes the cell of the segment before it, so the old tail is dropped |
| SnakeCore.MovedKeepsContiguous | src/main.rs:77-89 | If consecutive segments share an edge before a tick, they still do after it |
| SnakeCore.MovedNeckBehind | src/main.rs:78-88 | After a tick the second segment lies one step behind the head, against the heading |
| SnakeCore.Ticks | src/main.rs:77-89 | Any number of ticks keeps the body length |
| SnakeCore.TicksShift | src/main.rs:77-89 | After k ticks in a straight line, segment j (j <= k) is k-j cells from the old head along the heading, and segment j (j >= k) is old segment j-k |
| SnakeCore.Turn | src/main.rs:91-101 | A press never yields the opposite of the heading it started from. The result is either the old heading or the heading the key asks for, and K/J/H/L are obeyed whenever they do not ask for that opposite |
| SnakeCore.TurnIdempotent | src/main.rs:91-101 | Pressing the same button twice has the effect of pressing it once |
| SnakeCore.OnePressCannotReverse | src/main.rs:77-101 | With one press between two ticks, the second tick never puts the head on the cell behind it |
| SnakeCore.Squares | src/main.rs:58-67 | One square per segment, in body order, of side 20, with its corner at the segment's cell times 20 |
| SnakeCore.SquaresRoundTrip | src/main.rs:58-67 | Dividing a square's corner by the cell size gives back its segment's cell |
| SnakeCore.SquaresDisjoint | src/main.rs:58-67 | Segments in different cells are drawn as squares that do not overlap |
| SnakeCore.Snake.constructor | src/main.rs:46-49 | A snake holds exactly the given body and heading |
| SnakeCore.Snake.Render | src/main.rs:52-67 | Gives one square per segment, the square of that segment's cell, and changes nothing |
| SnakeCore.Snake.Update | src/main.rs:77-89 | Needs a head (the `expect`). The new body is `Moved` of the old body and heading, the heading is unchanged, and all coordinates stay `i32` |
| SnakeCore.Snake.Pressed | src/main.rs:91-101 | The new heading is `Turn` of the old heading and the button, and the body is unchanged |
| SnakeGame.Step | src/main.rs:122-136 | An update tick moves the body and keeps the heading. A press keeps the body and turns the heading. Every other event changes nothing. The length is always kept |
| SnakeGame.Steps | src/main.rs:121-136 | Any sequence of events keeps the body length |
| SnakeGame.FirstTick | src/main.rs:113-119 | From `[(0,0),(0,1)]` heading Right, one tick gives `[(1,0),(0,0)]` heading Right |
| SnakeGame.InertEvents | src/main.rs:122-136 | Render requests, releases and other events change neither body nor heading |
| SnakeGame.StepsKeepContiguous | src/main.rs:122-136 | Any sequence of events keeps a connected body connected |
| SnakeGame.NoPressKeepsHeading | src/main.rs:122-136 | A run without a press ends with the heading it started with |
| SnakeGame.NoTickKeepsBody | src/main.rs:122-136 | A run without an update tick ends with the body it started with |
| SnakeGame.FramesDrawWholeSnake | src/main.rs:122-136 | Every frame drawn during a run has one square per segment of the starting length |
| SnakeGame.TwoPressesReverse | src/main.rs:91-101 | The veto is per press. After a tick heading Right, pressing K then H turns the snake to Left, and the next tick puts the head on the cell of the former second segment |
| SnakeGame.Game.constructor | src/main.rs:113-119 | The game starts with a fresh snake `[(0,0),(0,1)]` heading Right |
| SnakeGame.Game.Render | src/main.rs:29-39 | Draws exactly the squares of the current body, and changes nothing |
| SnakeGame.Game.Update | src/main.rs:41-43 | Applies one tick to the snake and keeps the game invariant: the starting length and a connected body |
| SnakeGame.Game.Handle | src/main.rs:123-135 | One event changes the snake as `Step` says, and a render event yields the frame `Output` says |
| SnakeGame.Game.Run | src/main.rs:121-136 | The loop ends in `Steps` of the start state and collects `Frames` of the events, in order |

## Left out

- Window creation, the OpenGL version, the `GlGraphics` handle and exit on Escape: platform plumbing with no effect on the game state.
- The `ups(8)` update rate and the timing of the piston event loop. The loop is modelled as a given sequence of events.
- Clearing the background, the colours, the `f64` casts and the drawing of rectangles. Only the integer square corners and sizes are modelled.
- The viewport carried by render requests, which only the drawing uses.
- The `LinkedList` itself. The body is a `seq`, which keeps the order and the push-front and pop-back effects but not the list's memory layout.
- Piston events are modelled as one kind each (render, update, button, other). The loop in `main` tests for all three kinds on every event, and each piston event carries at most one of them.
- Snake.Update: requires the new head to fit in `i32` instead of modelling the wrap-around of a release build. A debug build aborts on that overflow.
- Snake.Render: requires `x*20` and `y*20` to fit in `i32` instead of modelling the wrap-around of a release build. A debug build aborts on that overflow.
- The rule is sometimes described as "a snake of length two or more can never reverse into itself", but the code only vetoes the opposite of the heading at the moment of each press. The model follows the code: `OnePressCannotReverse` proves the guarantee for one press per tick, and `TwoPressesReverse` shows that two presses get round it.
