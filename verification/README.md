# Snake engine, trainer, brain map and human agent — a Dafny model

This project models the core of a Snake game written in Python with numpy:

- **The game engine** (`GameEngine`), in both of its revisions:
  - `src/snake/gameEngine.py` is the current one (`Engine` module);
  - `snake/gameEngine.py` is the older one (`LegacyEngine` module).

  Each engine owns the board, the snake body (a list of cells, head first), the apple, the score, the step counters and the dead flag. Its `move` runs six steps:
  1. validate the direction argument;
  2. turn a 180° reversal into FORWARD and rotate a relative direction into an absolute one;
  3. put the new head in front;
  4. keep the tail on an apple, drop it otherwise;
  5. respawn the apple on a free cell, or raise StopIteration on a full board;
  6. test for a collision with the wall or with the body.
- **Shared pieces** (`Grid`): the geometry and the move rules common to both revisions.
- **The high score list** (`Utilities`, from `src/snake/utilities.py`):
  - the top-ten printout of `HighscoreDict`;
  - the high score getter and setter of the engine.
- **The neural-network trainer** (`Training`, from `neural_network.py`):
  - the recording wrapper around `move`;
  - the random-walk generator of training games and the padded file numbers;
  - the label and next-state preprocessing.
- **The brain map** (`Brain`, from `src/snake/brainDNN.py`): a flat view of a network's trainable variables. It maps running totals of element counts to variables, resolves a flat index to a variable and an element, and supports `__len__`, `__getitem__` and `__setitem__`.
- **The human agent** (`AgentHuman`, from `src/snake/agentHuman.py`):
  - the shared FIFO of key presses;
  - the pause toggle and quit handling of its pre-turn hook.

## How the model is built

- **Engine state.** The engine state that `move` changes lives in a class whose fields mirror the Python attributes.
- **Each move is proved against a function.** `Move` is proved to make exactly the transition of the function `Step`. `Step` is a function of three things:
  - the snapshot before the move;
  - the argument;
  - the cell the random choice gives the new apple.

  The properties of a move are lemmas about `Step`, e.g. invariant preservation, the ValueError cases and the death rule.
- **Pure code becomes functions.** The rotation, the conversion, the high score list, the preprocessing and the index resolution are functions. Their contracts are proved against independent descriptions: round trips, running totals, sortedness with a permutation, and so on.
- **Python quirks kept:**
  - A `bool` passes the first validation of `move`, because `isinstance(True, int)` holds and `True == 1`. A dead engine then returns True. A live engine raises ValueError later, because `type(True) is int` is false.
  - The starting head is at `((W - 1) // 2, 0)`.
  - Negative indices in the brain map resolve in the first variable, and numpy then counts them from that variable's end.
  - A dict key assigned twice keeps its first position.

Details of the engine code that the model keeps:

- The starting head's x is `(W - 1) // 2` (`src/snake/gameEngine.py:102`, `:146`).
- Direction validation runs before the dead check (`src/snake/gameEngine.py:261-282`). A dead engine still raises ValueError for a bad argument, and returns True for a good one.
- A full board is signalled by StopIteration from `_spawn_apple`. The apple is then placed at `(W, H)`, off the board. `move` itself sets no won flag; the run loop of the older revision sets `won` when it catches StopIteration.
- The current revision scores an eaten apple before respawning (`src/snake/gameEngine.py:323-324`), so the winning apple is scored. The older revision respawns first (`snake/gameEngine.py:294-295`), so the winning apple is never scored and the step counter is not reset.

## Model

| member | source | states |
|---|---|---|
| Strings.DecimalRoundTrip | neural_network.py:298 | reading the decimal digits of str(n) back gives n |
| Strings.IntToString | src/snake/utilities.py:23 | str(i) is non-empty, starts with '-' exactly for a negative i, and is the digits of \|i\| (after the '-' for a negative i), which denote \|i\| |
| Strings.Repeat | neural_network.py:298 | "c" * k has max(k, 0) characters, all equal to c |
| Strings.LeadingZeros | neural_network.py:298 | zeros put in front of a digit string keep it a digit string with the same value |
| Strings.PadLeft | src/snake/utilities.py:23 | right alignment in a field: length max(width, len), the string at the end, spaces before it |
| Strings.Center | src/snake/utilities.py:22 | str.center: a string at least as wide as the field is unchanged, otherwise the result has the field's width |
| Strings.Join | src/snake/utilities.py:23 | joining no parts gives "", joining one part gives that part |
| Strings.JoinAppend | src/snake/utilities.py:23 | joining one more part adds the separator and that part at the end |
| Strings.JoinLast | src/snake/utilities.py:23 | a join of two or more parts ends with the separator and the last part, after the join of the others |
| Strings.JoinIsFirstThenPrefixed | src/snake/utilities.py:23 | a join is the first part, then every later part with the separator in front: separators only between parts, none at the end |
| Grid.CompassIsUnit | src/snake/gameEngine.py:27 | NORTH, EAST, SOUTH and WEST are axis-aligned unit vectors |
| Grid.Rotate | src/snake/gameEngine.py:289-297 | the truncated rotation matrix maps (x, y) to (y, -x) for LEFT, to itself for FORWARD and to (-y, x) for RIGHT |
| Grid.RotateCompass | src/snake/gameEngine.py:289-297 | a turn of a compass heading is a compass heading and never its reverse |
| Grid.TurnsFromEast | src/snake/gameEngine.py:289-297 | from EAST, LEFT gives NORTH and RIGHT gives SOUTH |
| Grid.RotationsCancel | src/snake/gameEngine.py:289-297 | LEFT undoes RIGHT and RIGHT undoes LEFT on every heading |
| Grid.FourRightTurns | src/snake/gameEngine.py:289-297 | four RIGHT turns bring every heading back |
| Grid.ToRelative | snake/gameEngine.py:443-446 | the cross product of two compass vectors is a relative direction, FORWARD exactly for the same or the opposite heading |
| Grid.ToRelativeThenRotate | snake/gameEngine.py:443-446 | rotating the heading by the converted direction gives the absolute direction back, unless it reverses the heading |
| Grid.RotateThenToRelative | snake/gameEngine.py:443-446 | converting a rotated heading gives the turn back |
| Grid.InBoard | src/snake/gameEngine.py:84-92 | a cell is on the board exactly when 0 <= x < W and 0 <= y < H |
| Grid.BoardPositions | src/snake/gameEngine.py:84-92 | the nested loops collect exactly the cells with 0 <= x < W and 0 <= y < H |
| Grid.FreeCells | src/snake/gameEngine.py:190-193 | the free cells are the board cells that no segment occupies |
| Grid.IsArrayInList | src/snake/gameEngine.py:160-177 | the element-wise comparison finds v exactly when v is in the list |
| Grid.Collides | src/snake/gameEngine.py:335-341 | a collision happens exactly when the head is off the board or on a later segment |
| Grid.Resolve | src/snake/gameEngine.py:261-303 | bad argument: rejected (dead or alive); good argument on a dead snake: AlreadyDead; otherwise a compass heading that never reverses the current one, and a non-reversing absolute direction is taken as is |
| Grid.ReversalIsForward | src/snake/gameEngine.py:270-274 | an absolute direction opposite to the heading resolves exactly like FORWARD, which keeps the heading |
| Grid.ReversalConverted | snake/gameEngine.py:443-446 | converting a reversal gives a direction that resolves like the reversal |
| Grid.RejectedExactly | src/snake/gameEngine.py:261-303 | an argument is rejected exactly when it fails validation, or is a bool given to a live snake |
| Grid.TurnResolvesLikeAbsolute | src/snake/gameEngine.py:289-303 | a turn that leads to a non-reversing direction a resolves exactly like a |
| Grid.TurnConverted | snake/gameEngine.py:443-456 | the converted form of a non-reversing absolute direction resolves like the direction itself |
| Grid.ConvertedMoveAgrees | snake/gameEngine.py:437-456 | moving by the converted relative direction resolves like moving by the absolute key press, a reversal included |
| Grid.MoveBody | src/snake/gameEngine.py:313-341 | new head is old head + d; on the apple the old body is kept behind it and a full board is a win with apple (W, H), otherwise exactly the last segment goes and the apple stays; dead exactly on a wall or body hit unless won |
| Grid.MoveBodyPlayable | src/snake/gameEngine.py:313-341 | a live move keeps the body linked, the apple off the snake, and a live snake distinct and on the board |
| Grid.WinFillsBoard | src/snake/gameEngine.py:193-204 | after a win every board cell is covered by the snake |
| Grid.FollowingTheTailIsSafe | src/snake/gameEngine.py:325-341 | moving into the cell the tail leaves in the same move is not a collision |
| Grid.InitialBody | src/snake/gameEngine.py:102 | the starting body has L segments, segment i at ((W - 1) // 2, -i) |
| Grid.InitialBodyPlayable | src/snake/gameEngine.py:102 | the starting body heads SOUTH, satisfies the engine invariant, and only its head is on the board |
| Grid.InitialFreeCell | src/snake/gameEngine.py:102-107 | a board of at least 2 x 2 leaves a free cell for the first apple |
| Utilities.LookupFound | src/snake/utilities.py:20 | d[k] is a value stored under k |
| Utilities.LookupUnique | src/snake/utilities.py:20 | with distinct keys, d[k] is the value of k's own pair |
| Utilities.MaxScore | src/snake/gameEngine.py:521 | max(d) is a key and no key exceeds it |
| Utilities.Update | src/snake/gameEngine.py:544 | dict.update keeps the length or adds one pair |
| Utilities.UpdateStores | src/snake/gameEngine.py:544 | after the update the key is present and looks up the new name |
| Utilities.UpdateNewKey | src/snake/gameEngine.py:544 | a new key is appended and every existing pair stays |
| Utilities.UpdateExistingKey | src/snake/gameEngine.py:544 | an existing key keeps its position and only its value changes |
| Utilities.Insert | src/snake/utilities.py:19 | insertion adds exactly one element (multiset) and puts the larger of x and the old head first |
| Utilities.InsertDescends | src/snake/utilities.py:19 | inserting into a descending sequence keeps it descending |
| Utilities.InsertStrict | src/snake/utilities.py:19 | inserting a new value into a strictly descending sequence keeps it strictly descending |
| Utilities.SortDescending | src/snake/utilities.py:19 | sorted(reverse=True) is a descending permutation of its input |
| Utilities.SortStrict | src/snake/utilities.py:19 | sorting distinct keys gives a strictly descending sequence |
| Utilities.TopScores | src/snake/utilities.py:19 | the slice has min(10, len(d)) elements, each a key of d |
| Utilities.Restrict | src/snake/utilities.py:20 | the comprehension keeps the given keys in order, each with its pair from d |
| Utilities.TopTenProperties | src/snake/utilities.py:19-20 | at most ten entries, strictly descending scores, all pairs of d, and every pair left out scores below every pair kept |
| Utilities.AppendNewKey | src/snake/gameEngine.py:544 | adding a key that is not present keeps the keys distinct |
| Utilities.TopTenHead | src/snake/gameEngine.py:547-548 | the cut-down dict has distinct keys and starts with the largest score and its name |
| Utilities.EntryLine | src/snake/utilities.py:23 | an entry line is at least ten characters long |
| Utilities.EntryLines | src/snake/utilities.py:23 | one line per entry, in the entries' order |
| Utilities.TitleUnchanged | src/snake/utilities.py:22 | the title is 20 characters, so center(20) leaves it unchanged |
| Utilities.ToStringLines | src/snake/utilities.py:17-24 | for a non-empty dict the printout is the title, a newline, the line of the highest score, then every further top-ten line with a newline in front, the last line with no newline after it |
| Utilities.ToStringShape | src/snake/utilities.py:22-23 | the printout starts with the title and a newline; an empty dict prints nothing else; one entry prints its line with no trailing newline |
| Utilities.EntryLineShape | src/snake/utilities.py:23 | the line is str(score) right-aligned in 8 columns (never cut), then ": ", then the name |
| Engine.CheckConfig | src/snake/gameEngine.py:77-117 | construction succeeds exactly when W, H > 1, L >= 2, min >= 1, max >= min and max_step >= 1; each error is reported exactly when its check fails and every earlier one passes: board, length, min, max below min, max_step |
| Engine.LiveStepKeepsValid | src/snake/gameEngine.py:308-346 | a live move keeps the engine invariant: body, apple, and scores that are multiples of five |
| Engine.StepKeepsValid | src/snake/gameEngine.py:258-346 | every move, whatever its argument, keeps the engine invariant |
| Engine.NoChangeWithoutMove | src/snake/gameEngine.py:261-282 | a bad argument raises ValueError and a dead snake returns True, with no change (counters included) |
| Engine.ValueErrorExactly | src/snake/gameEngine.py:261-303 | ValueError is raised exactly for a bad argument or a bool on a live snake, and changes nothing |
| Engine.DeadIsSticky | src/snake/gameEngine.py:281-282 | once dead, the snake stays dead |
| Engine.LiveMove | src/snake/gameEngine.py:308-327 | a live move adds one to both counters (step counter back to 0 on an apple), moves the head one compass step never onto the old neck, keeps or drops the tail, and adds the points only on an apple |
| Engine.DeathRule | src/snake/gameEngine.py:335-346 | a non-winning live move returns the dead flag, which is set exactly when the head is off the board or on the body |
| Engine.WinIsScored | src/snake/gameEngine.py:320-324 | a winning move scores the apple, resets the step counter, puts the apple at (W, H) and leaves no free cell |
| Engine.HighscoreOf | src/snake/gameEngine.py:518-521 | the high score is 0 for an empty list, otherwise the largest score |
| Engine.RecordNewHighscore | src/snake/gameEngine.py:543-548 | a new high score is stored first with the player's name, becomes the high score, and leaves at most ten strictly descending entries taken from the old list or the new pair |
| Engine.RecordOldScore | src/snake/gameEngine.py:543 | a score not above the high score leaves the list untouched |
| Engine.GameEngine.constructor | src/snake/gameEngine.py:57-134 | board cells, starting body, first apple on a free cell, all counters zero, invariant established |
| Engine.GameEngine.Create | src/snake/gameEngine.py:77-117 | ValueError exactly when a check fails, reporting the first failing check; otherwise a valid fresh engine |
| Engine.GameEngine.SpawnApple | src/snake/gameEngine.py:179-204 | the apple goes to a free cell, or to (W, H) with the full-board signal exactly when no cell is free |
| Engine.GameEngine.UpdateScore | src/snake/gameEngine.py:206-223 | the score grows by the points for the step counter, and the counter is reset |
| Engine.GameEngine.Move | src/snake/gameEngine.py:238-346 | the new state and the outcome are exactly Step of the old state; the invariant is kept |
| Engine.GameEngine.Advance | src/snake/gameEngine.py:305-346 | the part after the dead check makes exactly the transition LiveStep describes |
| Engine.GameEngine.Highscore | src/snake/gameEngine.py:507-521 | the getter returns HighscoreOf of the list |
| Engine.GameEngine.SetHighscore | src/snake/gameEngine.py:523-552 | the setter leaves the list as Record describes and keeps the keys distinct |
| LegacyEngine.CheckConfig | snake/gameEngine.py:59-105 | construction succeeds exactly when W, H > 1, box > 0, L >= 2, min >= 1, max >= min and max_step >= 1; each error is reported exactly when its check fails and every earlier one passes: board, box, length, min, max below min, max_step |
| LegacyEngine.InitialSnapshotValid | snake/gameEngine.py:86-120 | the starting state satisfies the engine invariant |
| LegacyEngine.LiveStepKeepsValid | snake/gameEngine.py:281-317 | a live move keeps the engine invariant |
| LegacyEngine.StepKeepsValid | snake/gameEngine.py:232-317 | every move keeps the engine invariant |
| LegacyEngine.NoChangeWithoutMove | snake/gameEngine.py:234-255 | a bad argument raises ValueError and a dead snake returns True, with no change |
| LegacyEngine.ValueErrorExactly | snake/gameEngine.py:234-276 | ValueError is raised exactly for a bad argument or a bool on a live snake, and changes nothing |
| LegacyEngine.LiveMove | snake/gameEngine.py:281-317 | a non-winning live move adds one to the step counter (0 on an apple), moves the head one compass step never onto the old neck, keeps or drops the tail, scores only an apple, and dies exactly on a wall or body hit |
| LegacyEngine.WinIsNotScored | snake/gameEngine.py:291-298 | a winning move leaves the score and the incremented step counter alone, keeps the tail, skips the collision test and leaves no free cell |
| LegacyEngine.QueuedDirection | snake/gameEngine.py:437-450 | an empty queue gives FORWARD; otherwise a relative direction that turns the heading into the queued key, or FORWARD for a reversal |
| LegacyEngine.QueuedMoveAgrees | snake/gameEngine.py:437-456 | moving by the converted key press resolves like the key press itself |
| LegacyEngine.GameEngine.constructor | snake/gameEngine.py:51-120 | constants stored, then the game state of Reset |
| LegacyEngine.GameEngine.Reset | snake/gameEngine.py:86-120 | starting body, apple on a free cell, score and step counter zero, alive, invariant established |
| LegacyEngine.GameEngine.Create | snake/gameEngine.py:59-105 | ValueError exactly when a check fails, reporting the first failing check; otherwise a valid fresh engine |
| LegacyEngine.GameEngine.SpawnApple | snake/gameEngine.py:165-190 | the apple goes to a free cell, or to (W, H) with the full-board signal exactly when no cell is free |
| LegacyEngine.GameEngine.UpdateScore | snake/gameEngine.py:192-209 | the score grows by the points for the step counter, and the counter is reset |
| LegacyEngine.GameEngine.Move | snake/gameEngine.py:211-317 | the new state and the outcome are exactly Step of the old state; the invariant is kept |
| LegacyEngine.GameEngine.Advance | snake/gameEngine.py:278-317 | the part after the dead check makes exactly the transition LiveStep describes |
| LegacyEngine.GameEngine.PlayTurn | snake/gameEngine.py:431-461 | pops the queue, moves by the converted direction (never a ValueError), and sets won on StopIteration |
| Training.ActionValue | neural_network.py:244-255 | the recorded action is relative; an int is kept, a bool counts as 1 exactly when True |
| Training.AcceptedPassesValidation | neural_network.py:244-258 | whatever the wrapper accepts passes the engine's validation |
| Training.GameNumberStringValue | neural_network.py:298 | the padded game number has length max(len(str(N)) - 1, len(str(n))), is all digits and denotes n |
| Training.GamesWrittenAppend | neural_network.py:296-327 | writing the next game's file keeps the files named by game number, each holding one random game |
| Training.OneHot | neural_network.py:134-137 | the label row has three entries, a 1 exactly at index a + 1 |
| Training.OneHotRoundTrip | neural_network.py:134-137 | a relative action is read back from its label row; any other action gets [0, 0, 0] |
| Training.Zip | neural_network.py:147 | zip pairs element i with element i, up to the shorter length |
| Training.NextStates | neural_network.py:143-147 | one pair per state; its second half is None after a deadly move or for the last state, else the next state |
| Training.GamePairs | neural_network.py:143-147 | in one random game every state but the last is paired with its successor, and the last with None |
| Training.Preprocess | neural_network.py:127-150 | one input row, one one-hot label and one action value per state, the value computed on the state and its paired next state |
| Training.NeuralNetwork.constructor | neural_network.py:35-55 | a valid fresh engine in its starting state, and an empty history |
| Training.NeuralNetwork.Move | neural_network.py:227-264 | a non-relative action raises ValueError with no change; otherwise the engine makes the Step transition, and exactly one record (state before, action, dead after) is appended unless the engine raised |
| Training.NeuralNetwork.PlayRandomGame | neural_network.py:306-321 | the history is reset, then holds at most maxSteps records of relative actions, only the last possibly deadly; a game cut short without an escaped win ends in a deadly move, and an escaped win leaves no deadly move |
| Training.NeuralNetwork.PlayAndRestart | neural_network.py:306-334 | one game is played; unless a win escaped, it is filed under the given name and the engine is back in its starting state |
| Training.NeuralNetwork.GenerateRandomTrainingData | neural_network.py:267-337 | at most N files, exactly N unless a win escaped; file k is named by the padded number k and holds one random game; after the last game the engine is back in its starting state |
| Brain.Put | src/snake/brainDNN.py:141 | a dict assignment adds at most one pair |
| Brain.PutFresh | src/snake/brainDNN.py:141 | a new key is appended at the end |
| Brain.PutExisting | src/snake/brainDNN.py:141 | assigning a key already present keeps its position and changes only its variable |
| Brain.PutEntries | src/snake/brainDNN.py:141 | after the assignment every pair is an old pair in its place or the new pair, which is present |
| Brain.MapOfKeys | src/snake/brainDNN.py:129-143 | every key is the running total up to and including the variable it names; the grand total names the last variable |
| Brain.MapOfPositive | src/snake/brainDNN.py:129-143 | with no empty variable, pair i is (total of variables 0..i, i) |
| Brain.Len | src/snake/brainDNN.py:148-149 | max of the keys; ValueError exactly for an empty map |
| Brain.LenIsMaxKey | src/snake/brainDNN.py:148-149 | a key at least as large as all others is the length |
| Brain.LenIsTotal | src/snake/brainDNN.py:129-149 | the largest key is the number of elements of all variables together |
| Brain.FirstScalar | src/snake/brainDNN.py:137 | the position of the first 0-d variable (np.prod(()) is the float 1.0, so every later key is a float), or none when no variable is 0-d |
| Brain.FlatLen | src/snake/brainDNN.py:148-149 | __len__ succeeds only when no variable is 0-d |
| Brain.FlatLenIsTotal | src/snake/brainDNN.py:129-149 | __len__ is ValueError with no variable, TypeError (a float maximum key) after a 0-d variable, and otherwise the number of elements of all variables |
| Brain.FirstAbove | src/snake/brainDNN.py:51-60 | the position of the first key above the index, or none when no key is above it |
| Brain.Within | src/snake/brainDNN.py:69-85 | a vector keeps the position, a matrix splits it into row and column, both keeping whether the position is a float; other ranks raise NotImplementedError; a zero-column matrix fails |
| Brain.WithinBounds | src/snake/brainDNN.py:69-85 | for a position inside the variable, row * cols + col gives it back, with the row and column in range |
| Brain.Locate | src/snake/brainDNN.py:39-85 | TypeError exactly for a non-int; IndexError exactly when no key is above the index; otherwise a location in an existing variable of the right rank, a float position exactly when a 0-d variable comes at or before that variable |
| Brain.LocateIn | src/snake/brainDNN.py:39-88 | the location found in the map of the variables' sizes names an existing variable of the right rank, with a float position exactly after a 0-d variable |
| Brain.IndexErrorExactly | src/snake/brainDNN.py:51-60 | IndexError exactly when there are no variables or the index is at least the total element count |
| Brain.FirstAboveIsVariable | src/snake/brainDNN.py:51-69 | with no empty variable, an index between the totals before and after variable p stops the loop at p, at local position index - total before p |
| Brain.LocateInVariable | src/snake/brainDNN.py:51-69 | such an index resolves in variable p at index - (total before p), inside that variable |
| Brain.RowInRange | src/snake/brainDNN.py:79-80 | the row of a position inside a rows x cols matrix is below rows |
| Brain.Axis | src/snake/brainDNN.py:94 | numpy accepts a subscript in [-n, n) and counts a negative one from the end |
| Brain.Offset | src/snake/brainDNN.py:90-98 | the element a location names lies inside the variable's data; a float position is IndexError |
| Brain.Target | src/snake/brainDNN.py:90-109 | the variable and element an index names exist |
| Brain.Item | src/snake/brainDNN.py:90-98 | __getitem__ succeeds exactly when the index names an element (never past a 0-d variable, see NothingPastScalar) |
| Brain.Written | src/snake/brainDNN.py:100-111 | __setitem__ succeeds exactly when the index names an element (never past a 0-d variable), and keeps every variable's shape |
| Brain.SetThenGet | src/snake/brainDNN.py:90-111 | reading back a written index gives the value written |
| Brain.WriteChangesOneElement | src/snake/brainDNN.py:100-111 | a write leaves every other element of every variable unchanged |
| Brain.TargetInRange | src/snake/brainDNN.py:39-98 | with vector and matrix variables, none empty, an index between the totals around variable p names element index - (total before p) of p |
| Brain.FlatViewInjective | src/snake/brainDNN.py:39-98 | every index below the total names an element, and distinct indices name distinct elements |
| Brain.NothingPastScalar | src/snake/brainDNN.py:69-109 | with no empty variable, an index in a 0-d variable or any later one meets NotImplementedError (not a vector or matrix) or IndexError (the float subscript) |
| Brain.FloatPositionFails | src/snake/brainDNN.py:69-109 | a float position inside a vector or matrix is located and then refused as a subscript with IndexError; other ranks raise NotImplementedError |
| Brain.ScalarThenVector | src/snake/brainDNN.py:69-149 | a 0-d variable followed by a vector of ten: index 5 is IndexError, index 0 NotImplementedError, and len() TypeError |
| Brain.NegativeIndexNoColumns | src/snake/brainDNN.py:51-80 | with a first variable of shape (3, 0), index -1 stops at that variable and int(-1 / 0) raises OverflowError |
| Brain.NegativeIndexStaysInFirstVariable | src/snake/brainDNN.py:51-74 | a negative index resolves in the first variable and, for a vector, is counted from that vector's end |
| Brain.FindKey | src/snake/brainDNN.py:51-60 | the for-break-else loop finds the first key above the index, or none |
| Brain.BrainDNN.constructor | src/snake/brainDNN.py:17-19 | the variables are stored and no map is cached yet |
| Brain.BrainDNN.GetBrainMap | src/snake/brainDNN.py:113-146 | returns the map of running totals of the variables' sizes, built by the loop or taken from the cache, and leaves it cached |
| Brain.BrainDNN.Length | src/snake/brainDNN.py:148-149 | __len__ is FlatLen of the variables' shapes |
| Brain.BrainDNN.ReadBrainMap | src/snake/brainDNN.py:39-88 | _readBrainMap returns exactly the location LocateIn describes |
| Brain.BrainDNN.GetItem | src/snake/brainDNN.py:90-98 | __getitem__ returns exactly Item of the variables |
| Brain.BrainDNN.SetItem | src/snake/brainDNN.py:100-111 | __setitem__ succeeds exactly when the index names an element, then the variables are Written, otherwise unchanged |
| AgentHuman.Arrow | src/snake/agentHuman.py:51-54 | exactly the four arrow keys ask for a direction, and it is a compass vector |
| AgentHuman.HandleKey | src/snake/agentHuman.py:44-54 | p toggles the pause; the queue gains the arrow's direction exactly when the key is an arrow and the game is not paused after the toggle; running is unchanged |
| AgentHuman.Arrows | src/snake/agentHuman.py:51-54 | the directions the arrow keys of a batch ask for are compass vectors |
| AgentHuman.QueueOnlyGrows | src/snake/agentHuman.py:36-54 | the hook only appends to the queue |
| AgentHuman.QuitStopsRunning | src/snake/agentHuman.py:39-41 | running is cleared exactly when the batch holds a quit event |
| AgentHuman.QuitEndsBatch | src/snake/agentHuman.py:39-41 | events after a quit are not looked at |
| AgentHuman.PausedQueuesNothing | src/snake/agentHuman.py:46-54 | while paused and with no p, arrow keys queue nothing |
| AgentHuman.ArrowsQueuedInOrder | src/snake/agentHuman.py:51-54 | unpaused, with no p and no quit, every arrow key is queued at the back, in order |
| AgentHuman.ResumeThenArrows | src/snake/agentHuman.py:46-54 | p pressed while paused resumes the game, and the arrows after it in the batch are queued in order |
| AgentHuman.PauseParity | src/snake/agentHuman.py:46 | the pause flag ends toggled exactly when p was pressed an odd number of times before any quit |
| AgentHuman.QueueStaysCompass | src/snake/agentHuman.py:51-54 | the queue holds only compass vectors |
| AgentHuman.Pop | src/snake/agentHuman.py:18-28 | a non-empty queue gives its front and the rest; an empty one gives FORWARD and stays empty |
| AgentHuman.FirstInFirstOut | src/snake/agentHuman.py:23-28 | successive calls return the queued directions in order, then FORWARD |
| AgentHuman.PoppedActionIsValid | src/snake/agentHuman.py:18-28 | every action taken from a queue of compass vectors passes the engine's validation |
| AgentHuman.DirectionStack.constructor | src/snake/agentHuman.py:16 | the shared queue starts empty |
| AgentHuman.Agent.constructor | src/snake/agentHuman.py:16 | the agent holds the given shared queue, unpaused and running |
| AgentHuman.Agent.NextAction | src/snake/agentHuman.py:18-28 | the action and the new queue are exactly Pop of the old queue |
| AgentHuman.Agent.GameLoopPreHook | src/snake/agentHuman.py:30-54 | the queue and flags after the loop are exactly ProcessEvents of those before it |

## Left out

- Rendering and the game window are left out, because they are display and I/O:
  - pygame's `draw` and `exit_run`;
  - the clock, the display and the captions in `run` and in the agent's hook;
  - the console messages.
- The current revision's `run` loop is left out. Each pass calls the agent's hook, then, unless the game is paused or won, calls `move(self.nextAction)`, and sets `won` when that raises StopIteration (`src/snake/gameEngine.py:426-438`). The hook, the action and the move are modelled as `AgentHuman.Agent.GameLoopPreHook`, `AgentHuman.Agent.NextAction` and `Engine.GameEngine.Move`; the pause and won guard and the setting of `won` are not.
- Only the moving branch of the older revision's `run` loop is modelled, as `LegacyEngine.GameEngine.PlayTurn`. Its event handling is the same as the agent's hook.
- File I/O is left out:
  - the high score file and its YAML encoding (`to_yaml`);
  - the JSON training files, the directories and the globbing of `neural_network.py`;
  - tqdm's progress bars;
  - `input()` behind `playerName`.
- The high score list read from its file is a constructor parameter of `Engine.GameEngine`. The files `randomGame_<n>.json` are values (`TrainingFile`).
- The score curve of `_update_score` uses floating point (`np.exp`, `round`). It is a parameter `pointsFor` that returns a non-negative multiple of five, and it may be 0.
- `random.choice` is a nondeterministic choice (`:|`) from the free cells or from the three actions. The contracts hold for every choice.
- The Python type checks of the constructor arguments (`isinstance(..., int)`) are left out. Arguments are integers.
- Move arguments that are other Python values (floats, lists, arrays of other shapes) are all `OtherArg`. `_is_array_in_list` compares by value with numpy broadcasting, so the engine accepts an ndarray of another dtype (`np.array([0., 1.])`, `np.array([False, True])`) or of a shape that broadcasts to a compass vector (`np.array([[0, 1]])`) and moves with it. The model keeps only int 2-vectors and rejects the rest with ValueError. No caller in the modelled code passes such arrays.
- `snake.py` is not part of this model: its `Snake` class is an early stub whose `move` does nothing. Neither are `src/snake/agentDNN.py`, the scripts and `tmp/testingDNN.py`.
- `Training.NeuralNetwork`: its superclass is imported as `Snake` from a module `snake` (`neural_network.py:14`). It is taken to be the older `GameEngine` of `snake/gameEngine.py`. That is the engine whose attributes the trainer reads (`BOARD_SIZE`, `BOX_SIZE`, `position_snake_body`, `step_counter`, `_snake_dead`, `neural_network.py:251-261`, `:320`) and whose constructor takes `box_size` (`neural_network.py:332`). The stub in `snake.py` has none of these.
- `BrainDNN.__iadd__` and `__isub__` are left out. They use an undefined name and always fail.
- tflearn's variables are abstract tensors: a shape and row-major data. `get_value` and `set_value` are reads and writes of the `variables` field. A 0-d variable counts 1.0 elements, a float, so its key and every later key are floats (`Brain.FirstScalar`). Its own indices raise NotImplementedError. Later indices become float subscripts that numpy refuses with IndexError, and `len()` raises TypeError. Ranks above 2 raise NotImplementedError.
- The stubs `reduce_gameState_dimensions` and `evaluate_gameState` are function parameters of `Training.Preprocess`.
- The callable setter of `HighscoreDict.__str__` is left out.
- `Brain.Within`: the row `int((i - j) / cols)` is computed as exact floor division. `i - j` is a multiple of `cols`, so this is the float result for numbers below 2^53. Larger ones are left out.
- `Brain.Within`: a matrix with no columns is reached through a key collision, or by a negative index when the first variable has no columns (`Brain.NegativeIndexNoColumns`). There the model states the error that `int()` raises (OverflowError, or ValueError for nan, which a float position always gives), not numpy's RuntimeWarning.
- `Brain.Locate`: an empty variable after the first repeats the previous key (an empty first variable gets the key 0). The dict assignment then renames that key's variable in place, which `Brain.Put` models. The full flat-view lemmas require every variable to have elements.
- `Training.NeuralNetwork` holds its engine instead of inheriting from it. Re-running the engine's constructor between games is `LegacyEngine.GameEngine.Reset`, since its arguments are the engine's own constants.
- `LegacyEngine.GameEngine.constructor` sets `won` to false. The source first sets it in `run`.
- `LegacyEngine.GameEngine.PlayTurn`: requires only the front of the queue to be a compass vector, since that is the only element it reads.
- `Training.ActionValue`: a bool action is recorded as 0 or 1. JSON would write it as `false` or `true`.
- The engine part of the human agent (it inherits `GameEngine`) is not repeated in `AgentHuman.Agent`. The agent holds only the queue and its two flags.
- pygame's event queue is a parameter: the batch of events one call of the hook receives.
