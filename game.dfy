/**
 The game: one snake, the start state, and the dispatch of the events the
 platform's event loop delivers (render requests, update ticks, button
 presses and releases) to the snake.
 */
module SnakeGame {
  import opened SnakeCore

  datatype ButtonState = Press | Release

  /** An event of the platform's loop; `OtherEvent` is every kind the game ignores. */
  datatype Event =
    | RenderEvent
    | UpdateEvent
    | ButtonEvent(button: Button, state: ButtonState)
    | OtherEvent

  /** The snake the game starts with: two segments heading right. */
  const InitialBody: seq<Cell> := [(0, 0), (0, 1)]
  const InitialDir: Direction := Right

  function Initial(): State {
    State(InitialBody, InitialDir)
  }

  // ---------------------------------------------------------------------------
  // The effect of events on the snake's state

  /** The state after one event: a tick moves the snake, a press turns it, nothing else changes it. */
  function Step(s: State, e: Event): (r: State)
    requires |s.body| >= 1
    ensures |r.body| == |s.body|
    ensures e.UpdateEvent? ==> r.body == Moved(s.body, s.dir) && r.dir == s.dir
    ensures e.ButtonEvent? && e.state == Press ==> r.body == s.body && r.dir == Turn(s.dir, e.button)
    ensures !e.UpdateEvent? && !(e.ButtonEvent? && e.state == Press) ==> r == s
  {
    match e
    case UpdateEvent => State(Moved(s.body, s.dir), s.dir)
    case ButtonEvent(btn, Press) => State(s.body, Turn(s.dir, btn))
    case _ => s
  }

  /** What an event draws: the snake's squares for a render request, nothing otherwise. */
  function Output(s: State, e: Event): Option<seq<Square>> {
    if e.RenderEvent? then Some(Squares(s.body)) else None
  }

  /** The state after a sequence of events. */
  function Steps(s: State, events: seq<Event>): (r: State)
    requires |s.body| >= 1
    ensures |r.body| == |s.body|
    decreases |events|
  {
    if events == [] then s else Steps(Step(s, events[0]), events[1..])
  }

  /** Every frame drawn along a sequence of events, in order. */
  function Frames(s: State, events: seq<Event>): seq<seq<Square>>
    requires |s.body| >= 1
    decreases |events|
  {
    if events == [] then []
    else
      (if events[0].RenderEvent? then [Squares(s.body)] else []) + Frames(Step(s, events[0]), events[1..])
  }

  /** Handling `e` in state `s` stays inside 32-bit signed arithmetic. */
  predicate StepFits(s: State, e: Event)
    requires |s.body| >= 1
  {
    match e
    case UpdateEvent => CellInI32(Advance(s.body[0], s.dir))
    case RenderEvent => forall i :: 0 <= i < |s.body| ==> Scalable(s.body[i])
    case _ => true
  }

  /** Every event of the sequence is handled inside 32-bit signed arithmetic. */
  predicate Fits(s: State, events: seq<Event>)
    requires |s.body| >= 1
    decreases |events|
  {
    events == [] || (StepFits(s, events[0]) && Fits(Step(s, events[0]), events[1..]))
  }

  // ---------------------------------------------------------------------------
  // Properties of runs

  /** From the start state one tick gives [(1, 0), (0, 0)]. */
  lemma FirstTick()
    ensures Step(Initial(), UpdateEvent) == State([(1, 0), (0, 0)], Right)
  {
  }

  /** Render requests, releases and other events change neither body nor heading. */
  lemma InertEvents(s: State, e: Event)
    requires |s.body| >= 1
    requires e.RenderEvent? || e.OtherEvent? || (e.ButtonEvent? && e.state == Release)
    ensures Step(s, e) == s
  {
  }

  /** Any sequence of events keeps a connected body connected. */
  lemma {:induction false} StepsKeepContiguous(s: State, events: seq<Event>)
    requires |s.body| >= 1 && Contiguous(s.body)
    ensures Contiguous(Steps(s, events).body)
    decreases |events|
  {
    if events != [] {
      var e := events[0];
      if e.UpdateEvent? {
        MovedKeepsContiguous(s.body, s.dir);
      }
      StepsKeepContiguous(Step(s, e), events[1..]);
    }
  }

  /** Without a press the heading never changes. */
  lemma {:induction false} NoPressKeepsHeading(s: State, events: seq<Event>)
    requires |s.body| >= 1
    requires forall i :: 0 <= i < |events| ==> !(events[i].ButtonEvent? && events[i].state == Press)
    ensures Steps(s, events).dir == s.dir
    decreases |events|
  {
    if events != [] {
      NoPressKeepsHeading(Step(s, events[0]), events[1..]);
    }
  }

  /** Without a tick the body never changes. */
  lemma {:induction false} NoTickKeepsBody(s: State, events: seq<Event>)
    requires |s.body| >= 1
    requires forall i :: 0 <= i < |events| ==> !events[i].UpdateEvent?
    ensures Steps(s, events).body == s.body
    decreases |events|
  {
    if events != [] {
      NoTickKeepsBody(Step(s, events[0]), events[1..]);
    }
  }

  /** Every frame of a run draws the whole snake: one square per segment of the starting length. */
  lemma {:induction false} FramesDrawWholeSnake(s: State, events: seq<Event>)
    requires |s.body| >= 1
    ensures forall k :: 0 <= k < |Frames(s, events)| ==> |Frames(s, events)[k]| == |s.body|
    decreases |events|
  {
    if events != [] {
      FramesDrawWholeSnake(Step(s, events[0]), events[1..]);
    }
  }

  /**
   The veto only looks at the heading at the moment of the press: two presses
   between ticks (K, then H while heading right) make the next tick put the
   head on the cell the second segment occupied.
   */
  lemma TwoPressesReverse()
    ensures var afterTick := Steps(Initial(), [UpdateEvent]);
            var afterRun := Steps(Initial(), [UpdateEvent, ButtonEvent(Keyboard(K), Press),
                                              ButtonEvent(Keyboard(H), Press), UpdateEvent]);
            afterRun.body[0] == afterTick.body[1] && afterRun.dir == Opposite(afterTick.dir)
  {
  }

  // ---------------------------------------------------------------------------
  // The game object

  class Game {
    const snake: Snake

    /** The snake keeps its starting length and stays connected. */
    predicate Valid()
      reads this, snake
    {
      snake.Valid() && |snake.body| == |InitialBody| && Contiguous(snake.body)
    }

    /** The start of the program: a fresh snake of two segments heading right. */
    constructor ()
      ensures Valid() && fresh(snake)
      ensures snake.Model() == Initial()
    {
      snake := new Snake(InitialBody, InitialDir);
    }

    /** Draws the snake's squares; the state is only read. */
    method Render() returns (squares: seq<Square>)
      requires Valid()
      requires forall i :: 0 <= i < |snake.body| ==> Scalable(snake.body[i])
      ensures squares == Squares(snake.body)
    {
      squares := snake.Render();
    }

    /** A tick: the snake moves one cell along its heading. */
    method Update()
      requires Valid()
      requires CellInI32(Advance(snake.body[0], snake.dir))
      modifies snake
      ensures Valid()
      ensures snake.Model() == Step(old(snake.Model()), UpdateEvent)
    {
      MovedKeepsContiguous(snake.body, snake.dir);
      snake.Update();
    }

    /** One pass of the event loop's body: render, tick or press, whichever `e` is. */
    method Handle(e: Event) returns (frame: Option<seq<Square>>)
      requires Valid()
      requires StepFits(snake.Model(), e)
      modifies snake
      ensures Valid()
      ensures snake.Model() == Step(old(snake.Model()), e)
      ensures frame == Output(old(snake.Model()), e)
    {
      frame := None;
      if e.RenderEvent? {
        var squares := Render();
        frame := Some(squares);
      }
      if e.UpdateEvent? {
        Update();
      }
      if e.ButtonEvent? {
        if e.state == Press {
          snake.Pressed(e.button);
        }
      }
    }

    /** The event loop: every event handled in order, every frame collected. */
    method Run(events: seq<Event>) returns (frames: seq<seq<Square>>)
      requires Valid()
      requires Fits(snake.Model(), events)
      modifies snake
      ensures Valid()
      ensures snake.Model() == Steps(old(snake.Model()), events)
      ensures frames == Frames(old(snake.Model()), events)
    {
      frames := [];
      var i := 0;
      while i < |events|
        invariant 0 <= i <= |events|
        invariant Valid()
        invariant Fits(snake.Model(), events[i..])
        invariant Steps(old(snake.Model()), events) == Steps(snake.Model(), events[i..])
        invariant Frames(old(snake.Model()), events) == frames + Frames(snake.Model(), events[i..])
      {
        var e := events[i];
        ghost var before := snake.Model();
        assert events[i..] == [e] + events[i + 1..];
        assert Steps(before, events[i..]) == Steps(Step(before, e), events[i + 1..]);
        assert Frames(before, events[i..]) == (if e.RenderEvent? then [Squares(before.body)] else []) + Frames(Step(before, e), events[i + 1..]);
        var frame := Handle(e);
        if frame.Some? {
          frames := frames + [frame.value];
        }
        i := i + 1;
      }
    }
  }
}
