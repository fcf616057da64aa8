/**
  * The older revision of the Snake engine (snake/gameEngine.py). It differs
  * from the current one in that the constructor also checks the box size,
  * there is no duration counter, an eaten apple is respawned BEFORE it is
  * scored (so the winning apple is never scored), and the run loop turns the
  * queued absolute key presses into relative directions before moving.
  */
module LegacyEngine {
  import opened Wrappers
  import opened Grid

  /** The constructor check that fails first, in the order the constructor runs them. */
  datatype ConfigError =
    | BoardTooSmall      // width or height below 2
    | BoxTooSmall        // box_size not positive
    | SnakeTooShort      // initial length below 2
    | MinScoreTooSmall   // min_score_per_apple below 1
    | MaxBelowMin        // max_score_per_apple below min_score_per_apple
    | MaxStepTooSmall    // max_step_to_apple below 1

  function CheckConfig(w: int, h: int, box: int, len: int, maxScore: int, minScore: int, maxStep: int): (r: Option<ConfigError>)
    ensures r == None <==>
      w > 1 && h > 1 && box > 0 && len >= 2 && minScore >= 1 && maxScore >= minScore && maxStep >= 1
    ensures r == Some(BoardTooSmall) <==> w <= 1 || h <= 1
    ensures r == Some(BoxTooSmall) <==> w > 1 && h > 1 && box <= 0
    ensures r == Some(SnakeTooShort) <==> w > 1 && h > 1 && box > 0 && len < 2
    ensures r == Some(MinScoreTooSmall) <==> w > 1 && h > 1 && box > 0 && len >= 2 && minScore < 1
    ensures r == Some(MaxBelowMin) <==> w > 1 && h > 1 && box > 0 && len >= 2 && minScore >= 1 && maxScore < minScore
    ensures r == Some(MaxStepTooSmall) <==>
      w > 1 && h > 1 && box > 0 && len >= 2 && maxScore >= minScore >= 1 && maxStep < 1
  {
    if !(w > 1 && h > 1) then Some(BoardTooSmall)
    else if !(box > 0) then Some(BoxTooSmall)
    else if len < 2 then Some(SnakeTooShort)
    else if minScore < 1 then Some(MinScoreTooSmall)
    else if maxScore < minScore then Some(MaxBelowMin)
    else if maxStep < 1 then Some(MaxStepTooSmall)
    else None
  }

  /** Everything a move reads or changes, besides the board size and the score curve. */
  datatype Snapshot = Snapshot(body: seq<Vec>, apple: Vec, score: int, stepCounter: int, dead: bool)

  datatype Transition = Transition(next: Snapshot, outcome: Outcome)

  /**
    * The part of move after the dead check: the step counter goes up, the
    * body moves one step along d, and an eaten apple is respawned first and
    * scored after; a win raises StopIteration out of the respawn, before the
    * score, the reset of the step counter and the collision test.
    */
  function LiveStep(w: int, h: int, pointsFor: int -> Points, s: Snapshot, d: Vec, pick: Vec): (t: Transition)
    requires |s.body| >= 2
  {
    var steps := s.stepCounter + 1;
    var m := MoveBody(w, h, s.body, s.apple, d, pick);
    var scored := m.ate && !m.won;
    var score := if scored then s.score + pointsFor(steps) else s.score;
    var next := Snapshot(m.body, m.apple, score, if scored then 0 else steps, m.dead);
    Transition(next, if m.won then RaisedStopIteration else Returned(m.dead))
  }

  /**
    * The whole of move: on a rejected argument ValueError and no change; on
    * a dead snake True and no change; otherwise the live move along the
    * resolved direction.
    */
  function Step(w: int, h: int, pointsFor: int -> Points, s: Snapshot, a: Arg, pick: Vec): (t: Transition)
    requires |s.body| >= 2
  {
    match Resolve(s.body, s.dead, a)
    case Rejected => Transition(s, RaisedValueError)
    case AlreadyDead => Transition(s, Returned(s.dead))
    case Heading(d) => LiveStep(w, h, pointsFor, s, d, pick)
  }

  predicate SnapshotValid(w: int, h: int, s: Snapshot) {
    Playable(w, h, s.body, s.apple, s.dead) && s.score >= 0 && s.score % 5 == 0 && s.stepCounter >= 0
  }

  /** The starting body with an apple on a free cell, a live snake and zero counters is a valid state. */
  lemma InitialSnapshotValid(w: int, h: int, len: int, apple: Vec)
    requires w > 1 && h > 1 && len >= 2
    requires apple in FreeCells(w, h, InitialBody(w, len))
    ensures SnapshotValid(w, h, Snapshot(InitialBody(w, len), apple, 0, 0, false))
  {
    InitialBodyPlayable(w, h, len, apple);
  }

  /** A live move along a compass direction other than back keeps the invariant. */
  lemma LiveStepKeepsValid(w: int, h: int, pointsFor: int -> Points, s: Snapshot, d: Vec, pick: Vec)
    requires SnapshotValid(w, h, s) && !s.dead
    requires IsCompass(d)
    requires PickOk(w, h, s.body, s.apple, d, pick)
    ensures SnapshotValid(w, h, LiveStep(w, h, pointsFor, s, d, pick).next)
  {
    var m := MoveBody(w, h, s.body, s.apple, d, pick);
    MoveBodyPlayable(w, h, s.body, s.apple, d, pick);
    var n := LiveStep(w, h, pointsFor, s, d, pick).next;
    if m.ate && !m.won {
      var p := pointsFor(s.stepCounter + 1);
      assert n.score == s.score + p;
      assert p % 5 == 0;
    }
  }

  /** Every move keeps the invariant of the body, the apple and the counters. */
  lemma StepKeepsValid(w: int, h: int, pointsFor: int -> Points, s: Snapshot, a: Arg, pick: Vec)
    requires SnapshotValid(w, h, s)
    requires PickFits(w, h, s.body, s.apple, s.dead, a, pick)
    ensures SnapshotValid(w, h, Step(w, h, pointsFor, s, a, pick).next)
  {
    var r := Resolve(s.body, s.dead, a);
    if r.Heading? {
      assert IsCompass(HeadingOf(s.body));
      LiveStepKeepsValid(w, h, pointsFor, s, r.d, pick);
    }
  }

  /**
    * A rejected argument raises ValueError and changes nothing, dead or alive;
    * a dead snake returns True and changes nothing.
    */
  lemma NoChangeWithoutMove(w: int, h: int, pointsFor: int -> Points, s: Snapshot, a: Arg, pick: Vec)
    requires |s.body| >= 2
    requires !PassesValidation(a) || s.dead
    ensures Step(w, h, pointsFor, s, a, pick).next == s
    ensures !PassesValidation(a) ==> Step(w, h, pointsFor, s, a, pick).outcome == RaisedValueError
    ensures PassesValidation(a) ==> Step(w, h, pointsFor, s, a, pick).outcome == Returned(true)
  {
  }

  /**
    * move raises ValueError exactly for a rejected argument, and then
    * changes nothing.
    */
  lemma ValueErrorExactly(w: int, h: int, pointsFor: int -> Points, s: Snapshot, a: Arg, pick: Vec)
    requires |s.body| >= 2
    ensures var t := Step(w, h, pointsFor, s, a, pick);
      (t.outcome == RaisedValueError <==> !PassesValidation(a) || (!s.dead && a.BoolArg?))
      && (t.outcome == RaisedValueError ==> t.next == s)
  {
    RejectedExactly(s.body, s.dead, a);
  }

  /**
    * A live move that does not win: the step counter goes up by one (back
    * to 0 on an apple), the head is one compass step from the old head and
    * never on the old neck; on an apple the tail is kept and a multiple of
    * five is added, otherwise exactly the last segment goes.
    */
  lemma LiveMove(w: int, h: int, pointsFor: int -> Points, s: Snapshot, a: Arg, pick: Vec)
    requires SnapshotValid(w, h, s) && !s.dead && PassesValidation(a) && !a.BoolArg?
    requires Step(w, h, pointsFor, s, a, pick).outcome != RaisedStopIteration
    ensures var t := Step(w, h, pointsFor, s, a, pick);
      var n := t.next;
      var ate := n.body[0] == s.apple;
      && t.outcome == Returned(n.dead)
      && IsCompass(Sub(n.body[0], s.body[0])) && n.body[0] != s.body[1]
      && n.body[1..] == (if ate then s.body else s.body[..|s.body| - 1])
      && n.stepCounter == (if ate then 0 else s.stepCounter + 1)
      && n.score - s.score == (if ate then pointsFor(s.stepCounter + 1) else 0)
      && (n.dead <==> !OnBoard(n.body[0], w, h) || n.body[0] in n.body[1..])
  {
    var r := Resolve(s.body, s.dead, a);
    assert IsCompass(HeadingOf(s.body));
    assert r.Heading?;
    assert IsCompass(r.d) && r.d != Neg(HeadingOf(s.body));
  }

  /**
    * In this revision StopIteration escapes from the respawn before the
    * score is updated: the winning apple is not scored, the step counter
    * keeps its increment, the tail is kept and the snake is not checked for
    * a collision.
    */
  lemma WinIsNotScored(w: int, h: int, pointsFor: int -> Points, s: Snapshot, a: Arg, pick: Vec)
    requires |s.body| >= 2
    requires Step(w, h, pointsFor, s, a, pick).outcome == RaisedStopIteration
    ensures var n := Step(w, h, pointsFor, s, a, pick).next;
      && n.score == s.score
      && n.stepCounter == s.stepCounter + 1
      && n.body[1..] == s.body
      && n.apple == Vec(w, h) && n.dead == s.dead
      && FreeCells(w, h, n.body) == {}
  {
  }

  /** The relative direction the run loop hands to move for a queue of key presses. */
  function QueuedDirection(queue: seq<Vec>, heading: Vec): (n: int)
    requires queue != [] ==> IsCompass(queue[0])
    requires IsCompass(heading)
    ensures IsRelative(n)
    ensures queue == [] ==> n == FORWARD
    ensures queue != [] && queue[0] != Neg(heading) ==> Rotate(heading, n) == queue[0]
    ensures queue != [] && queue[0] == Neg(heading) ==> n == FORWARD
  {
    if queue == [] then FORWARD
    else
      ToRelativeThenRotate(queue[0], heading);
      ToRelative(queue[0], heading)
  }

  /** Moving by the queued relative direction resolves like moving by the queued key press itself. */
  lemma QueuedMoveAgrees(body: seq<Vec>, dead: bool, queue: seq<Vec>)
    requires |body| >= 2 && IsCompass(HeadingOf(body))
    requires queue != [] ==> IsCompass(queue[0])
    requires queue != []
    ensures Resolve(body, dead, IntArg(QueuedDirection(queue, HeadingOf(body)))) == Resolve(body, dead, ArrayArg(queue[0]))
  {
    ConvertedMoveAgrees(body, dead, queue[0]);
  }

  class GameEngine {
    const width: int
    const height: int
    /** POSITIONS_ON_GAME_BOARD */
    const board: set<Vec>
    /** BOX_SIZE: the pixel size of a cell, used only for drawing */
    const boxSize: int
    const initialLength: int
    const maxScorePerApple: int
    const minScorePerApple: int
    const maxStepToApple: int
    /** The rounded exponential score curve of _update_score, as a function of the step counter. */
    const pointsFor: int -> Points

    /** position_snake_body, head first */
    var body: seq<Vec>
    var apple: Vec
    var score: int
    var stepCounter: int
    var dead: bool
    /** Set by the run loop once a move has raised StopIteration. */
    var won: bool

    ghost predicate Valid()
      reads this`body, this`apple, this`score, this`stepCounter, this`dead
    {
      && CheckConfig(width, height, boxSize, initialLength, maxScorePerApple, minScorePerApple, maxStepToApple) == None
      && board == Board(width, height)
      && SnapshotValid(width, height, State())
    }

    function State(): Snapshot
      reads this`body, this`apple, this`score, this`stepCounter, this`dead
    {
      Snapshot(body, apple, score, stepCounter, dead)
    }

    /**
      * __init__ for arguments that pass every check (Create handles the
      * others): the board cells, the starting body, the first apple on a
      * free cell and all counters at zero.
      */
    constructor (w: int, h: int, box: int, len: int, maxScore: int, minScore: int, maxStep: int,
                 pointsFor: int -> Points)
      requires CheckConfig(w, h, box, len, maxScore, minScore, maxStep) == None
      ensures Valid()
      ensures width == w && height == h && boxSize == box && initialLength == len
      ensures maxScorePerApple == maxScore && minScorePerApple == minScore && maxStepToApple == maxStep
      ensures this.pointsFor == pointsFor
      ensures body == InitialBody(w, len) && apple in FreeCells(w, h, body)
      ensures score == 0 && stepCounter == 0 && !dead && !won
    {
      width, height := w, h;
      var cells := BoardPositions(w, h);
      board := cells;
      boxSize := box;
      initialLength := len;
      maxScorePerApple, minScorePerApple, maxStepToApple := maxScore, minScore, maxStep;
      this.pointsFor := pointsFor;
      won := false;
      new;
      Reset();
    }

    /**
      * The game-state part of __init__: the starting body, the first apple
      * on a free cell, a live snake and both counters at zero. The training
      * loop re-runs the constructor with the engine's own arguments to start
      * a new game; since those arguments are the constants, this is all
      * that changes.
      */
    method Reset()
      requires CheckConfig(width, height, boxSize, initialLength, maxScorePerApple, minScorePerApple, maxStepToApple) == None
      requires board == Board(width, height)
      modifies this`body, this`apple, this`score, this`stepCounter, this`dead
      ensures Valid()
      ensures body == InitialBody(width, initialLength) && apple in FreeCells(width, height, body)
      ensures score == 0 && stepCounter == 0 && !dead
    {
      body := InitialBody(width, initialLength);
      InitialFreeCell(width, height, initialLength);
      var full := SpawnApple();
      dead := false;
      score, stepCounter := 0, 0;
      InitialSnapshotValid(width, height, initialLength, apple);
    }

    /** The constructor with its ValueError path: the first failing check, or a new engine. */
    static method Create(w: int, h: int, box: int, len: int, maxScore: int, minScore: int, maxStep: int,
                         pointsFor: int -> Points)
      returns (r: Result<GameEngine, ConfigError>)
      ensures r.Err? <==> CheckConfig(w, h, box, len, maxScore, minScore, maxStep) != None
      ensures r.Err? ==> Some(r.error) == CheckConfig(w, h, box, len, maxScore, minScore, maxStep)
      ensures r.Ok? ==> fresh(r.value) && r.value.Valid() && r.value.State().score == 0
    {
      var e := CheckConfig(w, h, box, len, maxScore, minScore, maxStep);
      if e.Some? {
        return Err(e.value);
      }
      var engine := new GameEngine(w, h, box, len, maxScore, minScore, maxStep, pointsFor);
      return Ok(engine);
    }

    /**
      * _spawn_apple: a random free cell, or (width, height) and the signal
      * that the board is full (the caller raises StopIteration).
      */
    method SpawnApple() returns (full: bool)
      requires board == Board(width, height)
      modifies this`apple
      ensures full <==> FreeCells(width, height, body) == {}
      ensures full ==> apple == Vec(width, height)
      ensures !full ==> apple in FreeCells(width, height, body)
    {
      var available := board - Cells(body);
      assert available == FreeCells(width, height, body);
      if available != {} {
        var pick :| pick in available;
        apple := pick;
        full := false;
      } else {
        apple := Vec(width, height);
        full := true;
      }
    }

    /** _update_score: add the points for the current step count and reset the counter. */
    method UpdateScore()
      modifies this`score, this`stepCounter
      ensures score == old(score) + pointsFor(old(stepCounter)) && stepCounter == 0
    {
      var points := pointsFor(stepCounter);
      score := score + points;
      stepCounter := 0;
    }

    /** move: the transition Step describes, with the new apple as the random choice. */
    method Move(a: Arg) returns (o: Outcome)
      requires Valid()
      modifies this`body, this`apple, this`score, this`stepCounter, this`dead
      ensures Valid()
      ensures PickFits(width, height, old(body), old(apple), old(dead), a, apple)
      ensures Step(width, height, pointsFor, old(State()), a, apple) == Transition(State(), o)
    {
      ghost var s := State();
      if !PassesValidation(a) {
        return RaisedValueError;
      }
      var current := Sub(body[0], body[1]);
      var direction := a;
      if a.ArrayArg? && a.v == Neg(current) {
        direction := IntArg(FORWARD);
      }
      if dead {
        return Returned(dead);
      }
      var d: Vec;
      match direction {
        case IntArg(n) => d := Rotate(current, n);
        case ArrayArg(v) => d := v;
        case _ => return RaisedValueError;
      }
      assert Resolve(s.body, s.dead, a) == Heading(d);
      o := Advance(d);
      StepKeepsValid(width, height, pointsFor, s, a, apple);
    }

    /** The live part of move, once the direction is resolved to d. */
    method Advance(d: Vec) returns (o: Outcome)
      requires board == Board(width, height) && |body| >= 2 && !dead
      modifies this`body, this`apple, this`score, this`stepCounter, this`dead
      ensures PickOk(width, height, old(body), old(apple), d, apple)
      ensures LiveStep(width, height, pointsFor, old(State()), d, apple) == Transition(State(), o)
    {
      ghost var s := State();
      stepCounter := stepCounter + 1;
      var head := Add(body[0], d);
      body := [head] + body;
      if head == apple {
        var full := SpawnApple();
        if full {
          assert body == Grown(s.body, d);
          return RaisedStopIteration;
        }
        UpdateScore();
      } else {
        body := body[..|body| - 1];
      }
      if Collides(width, height, body) {
        dead := true;
      }
      o := Returned(dead);
    }

    /**
      * One moving turn of the run loop: pop the front of the queue of key
      * presses (FORWARD when it is empty), convert it to a relative direction
      * against the current heading, move, and remember a win.
      */
    method PlayTurn(queue: seq<Vec>) returns (rest: seq<Vec>, o: Outcome)
      requires Valid()
      requires queue != [] ==> IsCompass(queue[0])
      modifies this`body, this`apple, this`score, this`stepCounter, this`dead, this`won
      ensures Valid()
      ensures rest == if queue == [] then [] else queue[1..]
      ensures o != RaisedValueError
      ensures won == (old(won) || o == RaisedStopIteration)
      ensures var n := QueuedDirection(queue, HeadingOf(old(body)));
        Step(width, height, pointsFor, old(State()), IntArg(n), apple) == Transition(State(), o)
    {
      ghost var s := State();
      assert IsCompass(HeadingOf(body));
      var direction := QueuedDirection(queue, HeadingOf(body));
      o := Move(IntArg(direction));
      ValueErrorExactly(width, height, pointsFor, s, IntArg(direction), apple);
      won := won || o == RaisedStopIteration;
      rest := if queue == [] then [] else queue[1..];
    }
  }
}
