/**
  * The current revision of the Snake engine (class GameEngine): the board,
  * the body with the head first, the apple, the score, the two step
  * counters and the dead flag, and the high score list.
  *
  * A move is specified by Step, a function of the state before the move,
  * the argument and the cell the random choice gives the new apple; the
  * method Move is proved to make exactly that transition.
  */
module Engine {
  import opened Wrappers
  import opened Grid
  import opened Utilities

  /** The constructor check that fails first, in the order the constructor runs them. */
  datatype ConfigError =
    | BoardTooSmall      // width or height below 2
    | SnakeTooShort      // initial length below 2
    | MinScoreTooSmall   // min_score_per_apple below 1
    | MaxBelowMin        // max_score_per_apple below min_score_per_apple
    | MaxStepTooSmall    // max_step_to_apple below 1

  function CheckConfig(w: int, h: int, len: int, maxScore: int, minScore: int, maxStep: int): (r: Option<ConfigError>)
    ensures r == None <==> w > 1 && h > 1 && len >= 2 && minScore >= 1 && maxScore >= minScore && maxStep >= 1
    ensures r == Some(BoardTooSmall) <==> w <= 1 || h <= 1
    ensures r == Some(SnakeTooShort) <==> w > 1 && h > 1 && len < 2
    ensures r == Some(MinScoreTooSmall) <==> w > 1 && h > 1 && len >= 2 && minScore < 1
    ensures r == Some(MaxBelowMin) <==> w > 1 && h > 1 && len >= 2 && minScore >= 1 && maxScore < minScore
    ensures r == Some(MaxStepTooSmall) <==> w > 1 && h > 1 && len >= 2 && maxScore >= minScore >= 1 && maxStep < 1
  {
    if !(w > 1 && h > 1) then Some(BoardTooSmall)
    else if len < 2 then Some(SnakeTooShort)
    else if minScore < 1 then Some(MinScoreTooSmall)
    else if maxScore < minScore then Some(MaxBelowMin)
    else if maxStep < 1 then Some(MaxStepTooSmall)
    else None
  }

  /** Everything a move reads or changes, besides the board size and the score curve. */
  datatype Snapshot = Snapshot(body: seq<Vec>, apple: Vec, score: int, stepCounter: int, duration: int, dead: bool)

  datatype Transition = Transition(next: Snapshot, outcome: Outcome)

  /**
    * The part of move after the dead check: both counters go up, the body
    * moves one step along d, an eaten apple is scored (points for the
    * incremented step counter) and the step counter reset BEFORE the new
    * apple is placed, and a win raises StopIteration without the collision
    * test.
    */
  function LiveStep(w: int, h: int, pointsFor: int -> Points, s: Snapshot, d: Vec, pick: Vec): (t: Transition)
    requires |s.body| >= 2
  {
    var steps := s.stepCounter + 1;
    var m := MoveBody(w, h, s.body, s.apple, d, pick);
    var score := if m.ate then s.score + pointsFor(steps) else s.score;
    var next := Snapshot(m.body, m.apple, score, if m.ate then 0 else steps, s.duration + 1, m.dead);
    Transition(next, if m.won then RaisedStopIteration else Returned(m.dead))
  }

  /**
    * The whole of move: on a rejected argument ValueError and no change; on
    * a dead snake True and no change; otherwise the live move along the
    * resolved direction.
    */
  function Step(w: int, h: int, pointsFor: int -> Points, s: Snapshot, a: Arg, pick: Vec): (t: Transition)
    requires |s.body| >= 2
  {
    match Resolve(s.body, s.dead, a)
    case Rejected => Transition(s, RaisedValueError)
    case AlreadyDead => Transition(s, Returned(s.dead))
    case Heading(d) => LiveStep(w, h, pointsFor, s, d, pick)
  }

  predicate SnapshotValid(w: int, h: int, s: Snapshot) {
    Playable(w, h, s.body, s.apple, s.dead) && s.score >= 0 && s.score % 5 == 0
    && s.stepCounter >= 0 && s.duration >= 0
  }

  /** A live move along a compass direction other than back keeps the invariant. */
  lemma LiveStepKeepsValid(w: int, h: int, pointsFor: int -> Points, s: Snapshot, d: Vec, pick: Vec)
    requires SnapshotValid(w, h, s) && !s.dead
    requires IsCompass(d)
    requires PickOk(w, h, s.body, s.apple, d, pick)
    ensures SnapshotValid(w, h, LiveStep(w, h, pointsFor, s, d, pick).next)
  {
    var m := MoveBody(w, h, s.body, s.apple, d, pick);
    MoveBodyPlayable(w, h, s.body, s.apple, d, pick);
    var n := LiveStep(w, h, pointsFor, s, d, pick).next;
    if m.ate {
      var p := pointsFor(s.stepCounter + 1);
      assert n.score == s.score + p;
      assert p % 5 == 0;
    }
  }

  /** Every move keeps the invariant of the body, the apple and the counters. */
  lemma StepKeepsValid(w: int, h: int, pointsFor: int -> Points, s: Snapshot, a: Arg, pick: Vec)
    requires SnapshotValid(w, h, s)
    requires PickFits(w, h, s.body, s.apple, s.dead, a, pick)
    ensures SnapshotValid(w, h, Step(w, h, pointsFor, s, a, pick).next)
  {
    var r := Resolve(s.body, s.dead, a);
    if r.Heading? {
      assert IsCompass(HeadingOf(s.body));
      LiveStepKeepsValid(w, h, pointsFor, s, r.d, pick);
    }
  }

  /**
    * A rejected argument raises ValueError and changes nothing, dead or alive;
    * a dead snake returns True and changes nothing, counters included.
    */
  lemma NoChangeWithoutMove(w: int, h: int, pointsFor: int -> Points, s: Snapshot, a: Arg, pick: Vec)
    requires |s.body| >= 2
    requires !PassesValidation(a) || s.dead
    ensures Step(w, h, pointsFor, s, a, pick).next == s
    ensures !PassesValidation(a) ==> Step(w, h, pointsFor, s, a, pick).outcome == RaisedValueError
    ensures PassesValidation(a) ==> Step(w, h, pointsFor, s, a, pick).outcome == Returned(true)
  {
  }

  /**
    * move raises ValueError exactly for a rejected argument, and then
    * changes nothing.
    */
  lemma ValueErrorExactly(w: int, h: int, pointsFor: int -> Points, s: Snapshot, a: Arg, pick: Vec)
    requires |s.body| >= 2
    ensures var t := Step(w, h, pointsFor, s, a, pick);
      (t.outcome == RaisedValueError <==> !PassesValidation(a) || (!s.dead && a.BoolArg?))
      && (t.outcome == RaisedValueError ==> t.next == s)
  {
    RejectedExactly(s.body, s.dead, a);
  }

  /** Once dead, every later move leaves the snake dead. */
  lemma DeadIsSticky(w: int, h: int, pointsFor: int -> Points, s: Snapshot, a: Arg, pick: Vec)
    requires |s.body| >= 2 && s.dead
    ensures Step(w, h, pointsFor, s, a, pick).next.dead
  {
  }

  /**
    * A live move: both counters go up by one (the step counter back to 0 on
    * an apple), the head is one compass step from the old head and never on
    * the old neck; on an apple the tail is kept and a multiple of five is
    * added, otherwise exactly the last segment goes.
    */
  lemma LiveMove(w: int, h: int, pointsFor: int -> Points, s: Snapshot, a: Arg, pick: Vec)
    requires SnapshotValid(w, h, s) && !s.dead && PassesValidation(a) && !a.BoolArg?
    ensures var t := Step(w, h, pointsFor, s, a, pick);
      var n := t.next;
      var ate := n.body[0] == s.apple;
      && n.duration == s.duration + 1
      && IsCompass(Sub(n.body[0], s.body[0])) && n.body[0] != s.body[1]
      && n.body[1..] == (if ate then s.body else s.body[..|s.body| - 1])
      && n.stepCounter == (if ate then 0 else s.stepCounter + 1)
      && n.score - s.score == (if ate then pointsFor(s.stepCounter + 1) else 0)
      && n.score >= s.score && (n.score - s.score) % 5 == 0
  {
    var r := Resolve(s.body, s.dead, a);
    assert IsCompass(HeadingOf(s.body));
    assert r.Heading?;
    var d := r.d;
    assert IsCompass(d) && d != Neg(HeadingOf(s.body));
  }

  /** Dying: a live move ends with a dead snake exactly when the new head leaves the board or lands on the body. */
  lemma DeathRule(w: int, h: int, pointsFor: int -> Points, s: Snapshot, a: Arg, pick: Vec)
    requires |s.body| >= 2 && !s.dead
    requires Resolve(s.body, s.dead, a).Heading?
    requires Step(w, h, pointsFor, s, a, pick).outcome != RaisedStopIteration
    ensures var n := Step(w, h, pointsFor, s, a, pick).next;
      Step(w, h, pointsFor, s, a, pick).outcome == Returned(n.dead)
      && (n.dead <==> !OnBoard(n.body[0], w, h) || n.body[0] in n.body[1..])
  {
  }

  /** In this revision the winning apple is scored and the step counter reset before StopIteration escapes. */
  lemma WinIsScored(w: int, h: int, pointsFor: int -> Points, s: Snapshot, a: Arg, pick: Vec)
    requires |s.body| >= 2
    requires Step(w, h, pointsFor, s, a, pick).outcome == RaisedStopIteration
    ensures var n := Step(w, h, pointsFor, s, a, pick).next;
      && n.score == s.score + pointsFor(s.stepCounter + 1)
      && n.stepCounter == 0 && n.apple == Vec(w, h) && !n.dead
      && FreeCells(w, h, n.body) == {}
  {
  }

  // ---------------------------------------------------------------------
  // The high score list
  // ---------------------------------------------------------------------

  /** The highscore property: 0 for an empty list, otherwise the largest score. */
  function HighscoreOf(d: HighscoreDict): (m: int)
    ensures d == [] ==> m == 0
    ensures d != [] ==> m in Keys(d) && forall k :: k in Keys(d) ==> k <= m
  {
    if d == [] then 0 else MaxScore(d)
  }

  /**
    * The highscore setter: a score above the current high score is added
    * under the player's name and the list cut to its ten highest scores;
    * any other score leaves the list as it is.
    */
  function Record(d: HighscoreDict, score: int, player: string): HighscoreDict {
    if score > HighscoreOf(d) then TopTen(Update(d, score, player)) else d
  }

  /** A new high score is stored, becomes the high score, and the list stays a top-ten list. */
  lemma RecordNewHighscore(d: HighscoreDict, score: int, player: string)
    requires DistinctKeys(d) && score > HighscoreOf(d)
    ensures var r := Record(d, score, player);
      && DistinctKeys(r)
      && |r| == Min(10, |d| + 1) <= 10
      && StrictlyDescending(Keys(r))
      && r[0] == Entry(score, player)
      && HighscoreOf(r) == score
      && forall e :: e in r ==> e in d || e == Entry(score, player)
  {
    assert score !in Keys(d);
    UpdateNewKey(d, score, player);
    var u := Update(d, score, player);
    assert Keys(u) == Keys(d) + [score];
    AppendNewKey(d, Entry(score, player));
    LookupUnique(u, |d|);
    TopTenProperties(u);
    TopTenHead(u, score);
  }

  /** A score that does not beat the high score leaves the list untouched. */
  lemma RecordOldScore(d: HighscoreDict, score: int, player: string)
    requires score <= HighscoreOf(d)
    ensures Record(d, score, player) == d
  {
  }

  // ---------------------------------------------------------------------
  // The engine object
  // ---------------------------------------------------------------------

  class GameEngine {
    const width: int
    const height: int
    /** POSITIONS_ON_GAME_BOARD */
    const board: set<Vec>
    const initialLength: int
    const maxScorePerApple: int
    const minScorePerApple: int
    const maxStepToApple: int
    /** The rounded exponential score curve of _update_score, as a function of the step counter. */
    const pointsFor: int -> Points

    /** position_snake_body, head first */
    var body: seq<Vec>
    var apple: Vec
    var score: int
    var stepCounter: int
    /** gameDuration_counter */
    var duration: int
    var dead: bool
    /** The high score list once read; its file is outside this model. */
    var highscoreList: HighscoreDict

    ghost predicate Valid()
      reads this
    {
      && CheckConfig(width, height, initialLength, maxScorePerApple, minScorePerApple, maxStepToApple) == None
      && board == Board(width, height)
      && SnapshotValid(width, height, State())
      && DistinctKeys(highscoreList)
    }

    function State(): Snapshot
      reads this
    {
      Snapshot(body, apple, score, stepCounter, duration, dead)
    }

    /**
      * __init__ for arguments that pass every check (Create handles the
      * others): the board cells, the starting body, the first apple on a
      * free cell and all counters at zero.
      */
    constructor (w: int, h: int, len: int, maxScore: int, minScore: int, maxStep: int,
                 pointsFor: int -> Points, storedHighscores: HighscoreDict)
      requires CheckConfig(w, h, len, maxScore, minScore, maxStep) == None
      requires DistinctKeys(storedHighscores)
      ensures Valid()
      ensures width == w && height == h && initialLength == len
      ensures maxScorePerApple == maxScore && minScorePerApple == minScore && maxStepToApple == maxStep
      ensures this.pointsFor == pointsFor && highscoreList == storedHighscores
      ensures body == InitialBody(w, len) && apple in FreeCells(w, h, body)
      ensures score == 0 && stepCounter == 0 && duration == 0 && !dead
    {
      width, height := w, h;
      var cells := BoardPositions(w, h);
      board := cells;
      body := InitialBody(w, len);
      initialLength := len;
      maxScorePerApple, minScorePerApple, maxStepToApple := maxScore, minScore, maxStep;
      this.pointsFor := pointsFor;
      dead := false;
      score, stepCounter, duration := 0, 0, 0;
      highscoreList := storedHighscores;
      new;
      InitialFreeCell(w, h, len);
      var won := SpawnApple();
      InitialBodyPlayable(w, h, len, apple);
    }

    /** The constructor with its ValueError path: the first failing check, or a new engine. */
    static method Create(w: int, h: int, len: int, maxScore: int, minScore: int, maxStep: int,
                         pointsFor: int -> Points, storedHighscores: HighscoreDict)
      returns (r: Result<GameEngine, ConfigError>)
      requires DistinctKeys(storedHighscores)
      ensures r.Err? <==> CheckConfig(w, h, len, maxScore, minScore, maxStep) != None
      ensures r.Err? ==> Some(r.error) == CheckConfig(w, h, len, maxScore, minScore, maxStep)
      ensures r.Ok? ==> fresh(r.value) && r.value.Valid() && r.value.State().score == 0
    {
      var e := CheckConfig(w, h, len, maxScore, minScore, maxStep);
      if e.Some? {
        return Err(e.value);
      }
      var engine := new GameEngine(w, h, len, maxScore, minScore, maxStep, pointsFor, storedHighscores);
      return Ok(engine);
    }

    /**
      * _spawn_apple: a random free cell, or (width, height) and the signal
      * that the board is full (the caller raises StopIteration).
      */
    method SpawnApple() returns (won: bool)
      requires board == Board(width, height)
      modifies this`apple
      ensures won <==> FreeCells(width, height, body) == {}
      ensures won ==> apple == Vec(width, height)
      ensures !won ==> apple in FreeCells(width, height, body)
    {
      var available := board - Cells(body);
      assert available == FreeCells(width, height, body);
      if available != {} {
        var pick :| pick in available;
        apple := pick;
        won := false;
      } else {
        apple := Vec(width, height);
        won := true;
      }
    }

    /** _update_score: add the points for the current step count and reset the counter. */
    method UpdateScore()
      modifies this`score, this`stepCounter
      ensures score == old(score) + pointsFor(old(stepCounter)) && stepCounter == 0
    {
      var points := pointsFor(stepCounter);
      score := score + points;
      stepCounter := 0;
    }

    /** move: the transition Step describes, with the new apple as the random choice. */
    method Move(a: Arg) returns (o: Outcome)
      requires Valid()
      modifies this`body, this`apple, this`score, this`stepCounter, this`duration, this`dead
      ensures Valid()
      ensures PickFits(width, height, old(body), old(apple), old(dead), a, apple)
      ensures Step(width, height, pointsFor, old(State()), a, apple) == Transition(State(), o)
    {
      ghost var s := State();
      if !PassesValidation(a) {
        return RaisedValueError;
      }
      var current := Sub(body[0], body[1]);
      var direction := a;
      if a.ArrayArg? && a.v == Neg(current) {
        direction := IntArg(FORWARD);
      }
      if dead {
        return Returned(dead);
      }
      var d: Vec;
      match direction {
        case IntArg(n) => d := Rotate(current, n);
        case ArrayArg(v) => d := v;
        case _ => return RaisedValueError;
      }
      assert Resolve(s.body, s.dead, a) == Heading(d);
      o := Advance(d);
      StepKeepsValid(width, height, pointsFor, s, a, apple);
    }

    /** The live part of move, once the direction is resolved to d. */
    method Advance(d: Vec) returns (o: Outcome)
      requires board == Board(width, height) && |body| >= 2 && !dead
      modifies this`body, this`apple, this`score, this`stepCounter, this`duration, this`dead
      ensures PickOk(width, height, old(body), old(apple), d, apple)
      ensures LiveStep(width, height, pointsFor, old(State()), d, apple) == Transition(State(), o)
    {
      ghost var s := State();
      stepCounter := stepCounter + 1;
      duration := duration + 1;
      var head := Add(body[0], d);
      body := [head] + body;
      if head == apple {
        UpdateScore();
        var won := SpawnApple();
        if won {
          assert body == Grown(s.body, d);
          return RaisedStopIteration;
        }
      } else {
        body := body[..|body| - 1];
      }
      if Collides(width, height, body) {
        dead := true;
      }
      o := Returned(dead);
    }

    /** The highscore getter. */
    function Highscore(): (m: int)
      reads this
      requires Valid()
      ensures m == HighscoreOf(highscoreList)
    {
      HighscoreOf(highscoreList)
    }

    /** The highscore setter, without the file write; the player's name is the subclass's. */
    method SetHighscore(newScore: int, playerName: string)
      requires Valid()
      modifies this`highscoreList
      ensures Valid()
      ensures highscoreList == Record(old(highscoreList), newScore, playerName)
    {
      if newScore > Highscore() {
        var updated := Update(highscoreList, newScore, playerName);
        highscoreList := TopTen(updated);
        RecordNewHighscore(old(highscoreList), newScore, playerName);
      }
    }
  }
}
