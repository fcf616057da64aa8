/**
  * The neural-network trainer of neural_network.py: a wrapper around the
  * older engine's move that keeps a history of game records, the random-walk
  * generator of training games, and the preprocessing that turns records
  * into labels and (state, next state) pairs.
  *
  * The trainer imports its superclass as Snake from a module named snake;
  * the engine it relies on is the older GameEngine of snake/gameEngine.py,
  * the one whose constructor takes box_size and whose attributes
  * BOARD_SIZE, BOX_SIZE, position_snake_body, step_counter and _snake_dead
  * the trainer reads (neural_network.py:251-261, 320, 332). The trainer
  * subclasses the engine in the source; here it holds the engine, and
  * re-running the engine's constructor between games is the engine's Reset.
  */
module Training {
  import opened Wrappers
  import opened Grid
  import opened Strings
  import LegacyEngine

  /**
    * One entry of game_state_history: the state before the move, the action
    * taken and whether that action killed the snake.
    */
  datatype GameRecord = GameRecord(
    snakePosition: seq<Vec>,
    applePosition: Vec,
    boardSize: (int, int),
    stepsSinceApple: int,
    nextAction: int,
    nextActionDeadly: bool)

  /**
    * The wrapper's own check: an int among LEFT, FORWARD and RIGHT. A bool
    * is an int to isinstance and compares equal to 0 or 1, so it passes.
    */
  predicate ActionAccepted(a: Arg) {
    match a
    case IntArg(n) => IsRelative(n)
    case BoolArg(_) => true
    case _ => false
  }

  /** The action as it compares in the labels: a bool counts as 0 or 1. */
  function ActionValue(a: Arg): (n: int)
    requires ActionAccepted(a)
    ensures IsRelative(n)
    ensures a.IntArg? ==> n == a.n
    ensures a.BoolArg? ==> (n == RIGHT <==> a.b)
  {
    match a
    case IntArg(n) => n
    case BoolArg(b) => if b then 1 else 0
  }

  /** Whatever the wrapper accepts also passes the engine's validation. */
  lemma AcceptedPassesValidation(a: Arg)
    requires ActionAccepted(a)
    ensures PassesValidation(a)
  {
  }

  /** The record of a move made from snapshot s on a w x h board. */
  function RecordOf(s: LegacyEngine.Snapshot, w: int, h: int, a: Arg, deadly: bool): GameRecord
    requires ActionAccepted(a)
  {
    GameRecord(s.body, s.apple, (w, h), s.stepCounter, ActionValue(a), deadly)
  }

  /**
    * What the random-walk loop leaves in the history of one game: at most
    * maxSteps records of relative actions, none of them deadly except
    * possibly the last.
    */
  predicate RandomGame(h: seq<GameRecord>, maxSteps: int) {
    && |h| <= maxSteps
    && (forall i :: 0 <= i < |h| ==> IsRelative(h[i].nextAction))
    && (forall i :: 0 <= i < |h| - 1 ==> !h[i].nextActionDeadly)
  }

  // ---------------------------------------------------------------------
  // File names
  // ---------------------------------------------------------------------

  /**
    * The game number n written with enough leading zeros to make it one
    * character shorter than the number of games N (never cut).
    */
  function GameNumberString(N: int, n: nat): string {
    Repeat('0', |IntToString(N)| - 1 - |IntToString(n)|) + IntToString(n)
  }

  /** The padded number has the promised width, consists of digits and still denotes n. */
  lemma GameNumberStringValue(N: int, n: nat)
    ensures var r := GameNumberString(N, n);
      && |r| == (if |IntToString(N)| - 1 > |IntToString(n)| then |IntToString(N)| - 1 else |IntToString(n)|)
      && AllDigits(r) && DecimalValue(r) == n
  {
    LeadingZeros(|IntToString(N)| - 1 - |IntToString(n)|, IntToString(n));
  }

  /** The name of the file game n is written to, without its directory. */
  function FileName(N: int, n: nat): string {
    "randomGame_" + GameNumberString(N, n) + ".json"
  }

  datatype TrainingFile = TrainingFile(name: string, records: seq<GameRecord>)

  /** Files 0 .. |files|-1 of a run of N games: each named after its game number and holding one random game. */
  ghost predicate GamesWritten(files: seq<TrainingFile>, N: int, maxSteps: int) {
    forall k :: 0 <= k < |files| ==> files[k].name == FileName(N, k) && RandomGame(files[k].records, maxSteps)
  }

  /** Writing the file of the next game keeps the files in game order. */
  lemma GamesWrittenAppend(files: seq<TrainingFile>, file: TrainingFile, N: int, maxSteps: int)
    requires GamesWritten(files, N, maxSteps)
    requires file.name == FileName(N, |files|) && RandomGame(file.records, maxSteps)
    ensures GamesWritten(files + [file], N, maxSteps)
  {
    var next := files + [file];
    forall k | 0 <= k < |next|
      ensures next[k].name == FileName(N, k) && RandomGame(next[k].records, maxSteps)
    {
      if k < |files| {
        assert next[k] == files[k];
      }
    }
  }

  // ---------------------------------------------------------------------
  // Preprocessing
  // ---------------------------------------------------------------------

  /** The label row of an action: LEFT, FORWARD and RIGHT as [1 0 0], [0 1 0] and [0 0 1]. */
  function OneHot(a: int): (row: seq<int>)
    ensures |row| == 3
    ensures forall k :: 0 <= k < 3 ==> row[k] == (if k == a + 1 then 1 else 0)
  {
    [if a == LEFT then 1 else 0, if a == FORWARD then 1 else 0, if a == RIGHT then 1 else 0]
  }

  /** The action a label row stands for: the position of its first 1, shifted back by one. */
  function LabelAction(row: seq<int>): int
    requires |row| == 3
  {
    if row[0] == 1 then LEFT else if row[1] == 1 then FORWARD else RIGHT
  }

  /** Labels lose nothing: a relative action is read back from its row, and no other action gets a 1. */
  lemma OneHotRoundTrip(a: int)
    ensures IsRelative(a) ==> LabelAction(OneHot(a)) == a
    ensures !IsRelative(a) ==> OneHot(a) == [0, 0, 0]
  {
  }

  /** Python's zip: pairs up to the length of the shorter sequence. */
  function Zip<A, B>(xs: seq<A>, ys: seq<B>): (r: seq<(A, B)>)
    ensures |r| == if |xs| < |ys| then |xs| else |ys|
    ensures forall i :: 0 <= i < |r| ==> r[i] == (xs[i], ys[i])
  {
    if xs == [] || ys == [] then [] else [(xs[0], ys[0])] + Zip(xs[1..], ys[1..])
  }

  /**
    * Every state with the state after it: the zip of the states with the
    * states shifted by one and None at the end, where a deadly move has no
    * next state.
    */
  function NextStates(states: seq<GameRecord>): (pairs: seq<(GameRecord, Option<GameRecord>)>)
    ensures |pairs| == |states|
    ensures forall i :: 0 <= i < |states| ==> pairs[i].0 == states[i]
    ensures forall i :: 0 <= i < |states| ==>
      pairs[i].1 == if states[i].nextActionDeadly || i == |states| - 1 then None else Some(states[i + 1])
  {
    var shifted := seq(|states|, i requires 0 <= i < |states| => if i + 1 < |states| then Some(states[i + 1]) else None);
    var zipped := Zip(states, shifted);
    seq(|zipped|, i requires 0 <= i < |zipped| =>
      (zipped[i].0, if zipped[i].0.nextActionDeadly then None else zipped[i].1))
  }

  /**
    * In the history of one random game every state but the last has its
    * successor paired with it, and the last has none.
    */
  lemma GamePairs(h: seq<GameRecord>, maxSteps: int)
    requires RandomGame(h, maxSteps) && h != []
    ensures forall i :: 0 <= i < |h| - 1 ==> NextStates(h)[i].1 == Some(h[i + 1])
    ensures NextStates(h)[|h| - 1].1 == None
  {
  }

  datatype Preprocessed<R, V> = Preprocessed(inputState: seq<R>, outputAction: seq<seq<int>>, actionValue: seq<seq<V>>)

  /**
    * preprocess_gameStates with the two stubs it calls as parameters: reduce
    * for reduce_gameState_dimensions and evaluate for evaluate_gameState.
    */
  function Preprocess<R, V>(states: seq<GameRecord>, reduce: GameRecord -> R,
                            evaluate: (GameRecord, Option<GameRecord>) -> V): (p: Preprocessed<R, V>)
    ensures |p.inputState| == |states| && |p.outputAction| == |states| && |p.actionValue| == |states|
    ensures forall i :: 0 <= i < |states| ==> p.inputState[i] == reduce(states[i])
    ensures forall i :: 0 <= i < |states| ==> p.outputAction[i] == OneHot(states[i].nextAction)
    ensures forall i :: 0 <= i < |states| ==>
      p.actionValue[i] == [evaluate(states[i], NextStates(states)[i].1)]
  {
    var pairs := NextStates(states);
    Preprocessed(
      seq(|states|, i requires 0 <= i < |states| => reduce(states[i])),
      seq(|states|, i requires 0 <= i < |states| => OneHot(states[i].nextAction)),
      seq(|pairs|, i requires 0 <= i < |pairs| => [evaluate(pairs[i].0, pairs[i].1)]))
  }

  // ---------------------------------------------------------------------
  // The trainer
  // ---------------------------------------------------------------------

  class NeuralNetwork {
    /** The game the trainer plays (its superclass part in the source). */
    const engine: LegacyEngine.GameEngine
    /** game_state_history */
    var history: seq<GameRecord>

    ghost predicate Valid()
      reads engine`body, engine`apple, engine`score, engine`stepCounter, engine`dead
    {
      engine.Valid()
    }

    constructor (w: int, h: int, box: int, len: int, maxScore: int, minScore: int, maxStep: int,
                 pointsFor: int -> Points)
      requires LegacyEngine.CheckConfig(w, h, box, len, maxScore, minScore, maxStep) == None
      ensures Valid() && fresh(engine) && history == []
      ensures engine.body == InitialBody(w, len) && engine.score == 0 && !engine.dead
    {
      engine := new LegacyEngine.GameEngine(w, h, box, len, maxScore, minScore, maxStep, pointsFor);
      history := [];
    }

    /**
      * move: reject anything but LEFT, FORWARD or RIGHT before touching the
      * game, note the state, move the engine, and append the record with the
      * dead flag after the move. An exception from the engine (ValueError
      * for a bool on a live snake, StopIteration on a win) leaves the
      * history as it was.
      */
    method Move(a: Arg) returns (o: Outcome)
      requires Valid()
      modifies this`history, engine`body, engine`apple, engine`score, engine`stepCounter, engine`dead
      ensures Valid()
      ensures !ActionAccepted(a) ==> o == RaisedValueError && engine.State() == old(engine.State())
      ensures ActionAccepted(a) ==>
        LegacyEngine.Step(engine.width, engine.height, engine.pointsFor, old(engine.State()), a, engine.apple)
          == LegacyEngine.Transition(engine.State(), o)
      ensures o.Returned? ==> o.dead == engine.dead
      ensures history == if o.Returned?
        then old(history) + [RecordOf(old(engine.State()), engine.width, engine.height, a, engine.dead)]
        else old(history)
    {
      if !ActionAccepted(a) {
        return RaisedValueError;
      }
      var record := RecordOf(engine.State(), engine.width, engine.height, a, false);
      o := engine.Move(a);
      if o.Returned? {
        history := history + [record.(nextActionDeadly := engine.dead)];
      }
    }

    /**
      * One game of the random walk: clear the history, then up to maxSteps
      * times move in a randomly chosen relative direction, stopping after a
      * deadly move. escaped: a win raised StopIteration, which nothing in
      * the trainer catches.
      */
    method PlayRandomGame(maxSteps: nat) returns (escaped: bool)
      requires Valid()
      modifies this`history, engine`body, engine`apple, engine`score, engine`stepCounter, engine`dead
      ensures Valid()
      ensures RandomGame(history, maxSteps)
      ensures escaped ==> forall i :: 0 <= i < |history| ==> !history[i].nextActionDeadly
      ensures !escaped && |history| < maxSteps ==> history != [] && history[|history| - 1].nextActionDeadly
    {
      history := [];
      escaped := false;
      var step := 0;
      while step < maxSteps
        invariant Valid()
        invariant step <= maxSteps && |history| == step
        invariant forall i :: 0 <= i < |history| ==> IsRelative(history[i].nextAction)
        invariant forall i :: 0 <= i < |history| ==> !history[i].nextActionDeadly
      {
        var action :| action in {LEFT, FORWARD, RIGHT};
        ghost var s := engine.State();
        var o := Move(IntArg(action));
        LegacyEngine.ValueErrorExactly(engine.width, engine.height, engine.pointsFor, s, IntArg(action), engine.apple);
        if o == RaisedStopIteration {
          escaped := true;
          return;
        }
        if engine.dead {
          return;
        }
        step := step + 1;
      }
    }

    /** The game state right after the engine's constructor has run. */
    ghost predicate Restarted()
      reads engine`body, engine`score, engine`stepCounter, engine`dead
    {
      && engine.initialLength >= 0
      && engine.body == InitialBody(engine.width, engine.initialLength)
      && engine.score == 0 && engine.stepCounter == 0 && !engine.dead
    }

    /**
      * One pass of the outer loop of generate_random_training_data: play a
      * game, then (unless a win escaped) the file it is written to and a
      * fresh game.
      */
    method PlayAndRestart(name: string, maxSteps: nat) returns (file: TrainingFile, escaped: bool)
      requires Valid()
      modifies this`history, engine`body, engine`apple, engine`score, engine`stepCounter, engine`dead
      ensures Valid()
      ensures RandomGame(history, maxSteps)
      ensures !escaped ==> file == TrainingFile(name, history) && Restarted()
    {
      escaped := PlayRandomGame(maxSteps);
      file := TrainingFile(name, history);
      if !escaped {
        engine.Reset();
      }
    }

    /**
      * generate_random_training_data without the directory and the JSON: the
      * files it would write, one per game, each named after its padded game
      * number and holding that game's history; the engine is reset after
      * every game. A win escapes as StopIteration before its game is
      * written.
      */
    method GenerateRandomTrainingData(trainingGames: nat, maxSteps: nat) returns (files: seq<TrainingFile>, escaped: bool)
      requires Valid()
      modifies this`history, engine`body, engine`apple, engine`score, engine`stepCounter, engine`dead
      ensures Valid()
      ensures |files| <= trainingGames
      ensures !escaped ==> |files| == trainingGames
      ensures GamesWritten(files, trainingGames, maxSteps)
      ensures escaped ==> RandomGame(history, maxSteps)
      ensures !escaped && trainingGames > 0 ==> history == files[|files| - 1].records && Restarted()
    {
      files := [];
      escaped := false;
      var gameNumber := 0;
      while gameNumber < trainingGames
        invariant Valid()
        invariant gameNumber <= trainingGames && |files| == gameNumber
        invariant GamesWritten(files, trainingGames, maxSteps)
        invariant gameNumber > 0 ==> history == files[gameNumber - 1].records && Restarted()
      {
        var file;
        file, escaped := PlayAndRestart(FileName(trainingGames, gameNumber), maxSteps);
        if escaped {
          return;
        }
        GamesWrittenAppend(files, file, trainingGames, maxSteps);
        files := files + [file];
        gameNumber := gameNumber + 1;
      }
    }
  }
}
