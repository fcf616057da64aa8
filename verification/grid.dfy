/**
  * Integer grid geometry and the move rules that both revisions of the
  * Snake engine share: the compass and relative directions, the integer
  * rotation of a heading, the absolute-to-relative conversion, the set of
  * board cells, how a move argument is validated and resolved, and how the
  * body and the apple evolve in one live move.
  */
module Grid {

  /** A coordinate pair or a direction vector; y grows downwards. */
  datatype Vec = Vec(x: int, y: int)

  function Add(a: Vec, b: Vec): Vec { Vec(a.x + b.x, a.y + b.y) }
  function Sub(a: Vec, b: Vec): Vec { Vec(a.x - b.x, a.y - b.y) }
  function Neg(a: Vec): Vec { Vec(-a.x, -a.y) }

  const NORTH := Vec(0, -1)
  const EAST := Vec(1, 0)
  const SOUTH := Vec(0, 1)
  const WEST := Vec(-1, 0)

  const LEFT := -1
  const FORWARD := 0
  const RIGHT := 1

  /** One of the four absolute directions (an axis-aligned unit vector). */
  predicate IsCompass(v: Vec) {
    v == NORTH || v == EAST || v == SOUTH || v == WEST
  }

  /** One of the three relative directions LEFT, FORWARD, RIGHT. */
  predicate IsRelative(n: int) {
    n == LEFT || n == FORWARD || n == RIGHT
  }

  lemma CompassIsUnit(v: Vec)
    requires IsCompass(v)
    ensures v.x * v.x + v.y * v.y == 1
    ensures v.x == 0 || v.y == 0
  {
  }

  // ---------------------------------------------------------------------
  // Rotation of a heading and the inverse conversion
  // ---------------------------------------------------------------------

  /** int(cos(n*pi/2)) for n in {-1, 0, 1}: the float cosine of +-pi/2 truncates to 0. */
  function IntCos(n: int): int
    requires IsRelative(n)
  {
    if n == FORWARD then 1 else 0
  }

  /** int(sin(n*pi/2)) for n in {-1, 0, 1}. */
  function IntSin(n: int): int
    requires IsRelative(n)
  {
    if n == LEFT then -1 else if n == RIGHT then 1 else 0
  }

  /**
    * The heading c as a row vector times the matrix [[cos, sin], [-sin, cos]]
    * of the angle n*pi/2, with both entries truncated to integers.
    */
  function Rotate(c: Vec, n: int): (r: Vec)
    requires IsRelative(n)
    ensures n == LEFT ==> r == Vec(c.y, -c.x)
    ensures n == FORWARD ==> r == c
    ensures n == RIGHT ==> r == Vec(-c.y, c.x)
  {
    var cos, sin := IntCos(n), IntSin(n);
    assert c.x * cos == (if n == FORWARD then c.x else 0);
    assert c.y * cos == (if n == FORWARD then c.y else 0);
    assert c.x * sin == (if n == LEFT then -c.x else if n == RIGHT then c.x else 0);
    assert c.y * sin == (if n == LEFT then -c.y else if n == RIGHT then c.y else 0);
    Vec(c.x * cos - c.y * sin, c.x * sin + c.y * cos)
  }

  /** A turn keeps a heading a compass direction and never reverses it. */
  lemma RotateCompass(c: Vec, n: int)
    requires IsCompass(c) && IsRelative(n)
    ensures IsCompass(Rotate(c, n)) && Rotate(c, n) != Neg(c)
  {
    if n == LEFT {
      assert Rotate(c, n) == Vec(c.y, -c.x);
    } else if n == RIGHT {
      assert Rotate(c, n) == Vec(-c.y, c.x);
    }
  }

  /** From EAST, LEFT gives NORTH and RIGHT gives SOUTH. */
  lemma TurnsFromEast()
    ensures Rotate(EAST, LEFT) == NORTH
    ensures Rotate(EAST, RIGHT) == SOUTH
  {
  }

  /** LEFT undoes RIGHT and RIGHT undoes LEFT on every heading. */
  lemma RotationsCancel(c: Vec)
    ensures Rotate(Rotate(c, RIGHT), LEFT) == c
    ensures Rotate(Rotate(c, LEFT), RIGHT) == c
  {
  }

  /** Four right turns bring every heading back to itself. */
  lemma FourRightTurns(c: Vec)
    ensures Rotate(Rotate(Rotate(Rotate(c, RIGHT), RIGHT), RIGHT), RIGHT) == c
  {
  }

  /**
    * The relative direction that leads from heading c to the absolute
    * direction a, computed as a.y*c.x - a.x*c.y (a cross product).
    */
  function ToRelative(a: Vec, c: Vec): (r: int)
    ensures IsCompass(a) && IsCompass(c) ==> IsRelative(r)
    ensures IsCompass(a) && IsCompass(c) ==> (r == FORWARD <==> a == c || a == Neg(c))
  {
    a.y * c.x - a.x * c.y
  }

  /** Turning c by the converted direction gives a back, unless a reverses c. */
  lemma ToRelativeThenRotate(a: Vec, c: Vec)
    requires IsCompass(a) && IsCompass(c)
    ensures a != Neg(c) ==> Rotate(c, ToRelative(a, c)) == a
    ensures a == Neg(c) ==> Rotate(c, ToRelative(a, c)) == c
  {
  }

  /** Converting a rotated heading gives the turn back. */
  lemma RotateThenToRelative(c: Vec, n: int)
    requires IsCompass(c) && IsRelative(n)
    ensures ToRelative(Rotate(c, n), c) == n
  {
  }

  // ---------------------------------------------------------------------
  // The board
  // ---------------------------------------------------------------------

  predicate OnBoard(p: Vec, w: int, h: int) {
    0 <= p.x < w && 0 <= p.y < h
  }

  /** All cells (x, y) with 0 <= x < w and 0 <= y < h. */
  function Board(w: int, h: int): set<Vec> {
    set x, y | 0 <= x < w && 0 <= y < h :: Vec(x, y)
  }

  lemma InBoard(p: Vec, w: int, h: int)
    ensures p in Board(w, h) <==> OnBoard(p, w, h)
  {
    if OnBoard(p, w, h) {
      assert p == Vec(p.x, p.y);
    }
  }

  /**
    * Builds the set of board cells the way the constructor does: a loop
    * over the columns with a loop over the rows inside it.
    */
  method BoardPositions(w: int, h: int) returns (cells: set<Vec>)
    ensures forall p :: p in cells <==> OnBoard(p, w, h)
    ensures cells == Board(w, h)
  {
    cells := {};
    var x := 0;
    while x < w
      invariant 0 <= x && (x <= w || x == 0)
      invariant forall p :: p in cells <==> 0 <= p.x < x && 0 <= p.y < h
    {
      var y := 0;
      while y < h
        invariant 0 <= y && (y <= h || y == 0)
        invariant forall p :: p in cells <==> (0 <= p.x < x && 0 <= p.y < h) || (p.x == x && 0 <= p.y < y)
      {
        cells := cells + {Vec(x, y)};
        y := y + 1;
      }
      x := x + 1;
    }
    forall p ensures p in cells <==> p in Board(w, h) {
      InBoard(p, w, h);
    }
  }

  /** The cells a body occupies (the set of its segments). */
  function Cells(body: seq<Vec>): set<Vec> {
    set p | p in body
  }

  /** Board cells that no segment occupies: where an apple may spawn. */
  function FreeCells(w: int, h: int, body: seq<Vec>): (r: set<Vec>)
    ensures forall p :: p in r <==> OnBoard(p, w, h) && p !in body
  {
    forall p ensures p in Board(w, h) <==> OnBoard(p, w, h) {
      InBoard(p, w, h);
    }
    Board(w, h) - Cells(body)
  }

  /** Whether v equals one of the vectors in the list (a comparison per element). */
  function IsArrayInList(v: Vec, list: seq<Vec>): (r: bool)
    ensures r <==> v in list
  {
    if list == [] then false
    else v == list[0] || IsArrayInList(v, list[1..])
  }

  /** A coordinate of the head is outside [0, w) x [0, h). */
  predicate HitsWall(head: Vec, w: int, h: int) {
    head.x >= w || head.y >= h || head.x < 0 || head.y < 0
  }

  /** The collision test run at the end of a live move. */
  function Collides(w: int, h: int, body: seq<Vec>): (r: bool)
    requires |body| >= 1
    ensures r <==> !OnBoard(body[0], w, h) || body[0] in body[1..]
  {
    HitsWall(body[0], w, h) || IsArrayInList(body[0], body[1..])
  }

  // ---------------------------------------------------------------------
  // Validating and resolving the argument of a move
  // ---------------------------------------------------------------------

  /**
    * A Python value passed as the direction of a move: an int, a bool (which
    * Python counts as an int), a two-element integer array, or anything else.
    */
  datatype Arg = IntArg(n: int) | BoolArg(b: bool) | ArrayArg(v: Vec) | OtherArg

  /**
    * The validation at the top of move: an int in [LEFT, FORWARD, RIGHT] or an
    * array equal to one of the four compass vectors. A bool passes, because
    * isinstance(True, int) holds and True == 1, False == 0.
    */
  predicate PassesValidation(a: Arg) {
    match a
    case IntArg(n) => IsRelative(n)
    case BoolArg(_) => true
    case ArrayArg(v) => IsCompass(v)
    case OtherArg => false
  }

  /** What move makes of its argument before anything changes. */
  datatype Resolution = Rejected | AlreadyDead | Heading(d: Vec)

  function HeadingOf(body: seq<Vec>): Vec
    requires |body| >= 2
  {
    Sub(body[0], body[1])
  }

  /**
    * Validation, then the reversal rule, then the dead check, then the
    * conversion of a relative direction. A bool passes validation but is
    * neither of type int nor an array, so a live engine rejects it late.
    */
  function Resolve(body: seq<Vec>, dead: bool, a: Arg): (r: Resolution)
    requires |body| >= 2
    ensures !PassesValidation(a) ==> r == Rejected
    ensures PassesValidation(a) && dead ==> r == AlreadyDead
    ensures r.Heading? ==> !dead && PassesValidation(a) && !a.BoolArg?
    ensures r.Heading? && IsCompass(HeadingOf(body)) ==> IsCompass(r.d) && r.d != Neg(HeadingOf(body))
    ensures !dead && a.ArrayArg? && IsCompass(a.v) && a.v != Neg(HeadingOf(body)) ==> r == Heading(a.v)
  {
    if !PassesValidation(a) then Rejected
    else
      var current := HeadingOf(body);
      var direction := if a.ArrayArg? && a.v == Neg(current) then IntArg(FORWARD) else a;
      if dead then AlreadyDead
      else
        match direction
        case IntArg(n) =>
          if IsCompass(current) then RotateCompass(current, n); Heading(Rotate(current, n))
          else Heading(Rotate(current, n))
        case ArrayArg(v) => Heading(v)
        case _ => Rejected
  }

  /** An absolute direction that reverses the heading is treated exactly like FORWARD. */
  lemma ReversalIsForward(body: seq<Vec>, dead: bool)
    requires |body| >= 2 && IsCompass(HeadingOf(body))
    ensures Resolve(body, dead, ArrayArg(Neg(HeadingOf(body)))) == Resolve(body, dead, IntArg(FORWARD))
    ensures !dead ==> Resolve(body, dead, IntArg(FORWARD)) == Heading(HeadingOf(body))
  {
    var c := HeadingOf(body);
    assert IsCompass(Neg(c));
  }

  /** The conversion of a reversal is FORWARD, which resolves like the reversal itself. */
  lemma ReversalConverted(body: seq<Vec>, dead: bool)
    requires |body| >= 2 && IsCompass(HeadingOf(body))
    ensures var a := Neg(HeadingOf(body));
      Resolve(body, dead, IntArg(ToRelative(a, HeadingOf(body)))) == Resolve(body, dead, ArrayArg(a))
  {
    var c := HeadingOf(body);
    assert IsCompass(Neg(c));
    assert ToRelative(Neg(c), c) == FORWARD;
    ReversalIsForward(body, dead);
  }

  /**
    * Only two arguments are rejected: one that fails validation, dead or
    * alive, and a bool handed to a live snake.
    */
  lemma RejectedExactly(body: seq<Vec>, dead: bool, a: Arg)
    requires |body| >= 2
    ensures Resolve(body, dead, a) == Rejected <==> !PassesValidation(a) || (!dead && a.BoolArg?)
  {
    if PassesValidation(a) && !dead && !a.BoolArg? {
      assert a.IntArg? || a.ArrayArg?;
    }
  }

  /** A turn that leads to a non-reversing compass direction a resolves exactly like a. */
  lemma TurnResolvesLikeAbsolute(body: seq<Vec>, dead: bool, a: Vec, n: int)
    requires |body| >= 2 && IsCompass(HeadingOf(body)) && IsCompass(a) && IsRelative(n)
    requires a != Neg(HeadingOf(body)) && Rotate(HeadingOf(body), n) == a
    ensures Resolve(body, dead, IntArg(n)) == Resolve(body, dead, ArrayArg(a))
  {
  }

  /** The conversion of any other direction is the turn that leads to it. */
  lemma TurnConverted(body: seq<Vec>, dead: bool, a: Vec)
    requires |body| >= 2 && IsCompass(HeadingOf(body)) && IsCompass(a) && a != Neg(HeadingOf(body))
    ensures Resolve(body, dead, IntArg(ToRelative(a, HeadingOf(body)))) == Resolve(body, dead, ArrayArg(a))
  {
    var c := HeadingOf(body);
    var n := ToRelative(a, c);
    assert IsRelative(n);
    ToRelativeThenRotate(a, c);
    TurnResolvesLikeAbsolute(body, dead, a, n);
  }

  /**
    * Converting an absolute direction to a relative one before the move, as
    * the run loop of the older revision does, resolves to the same heading
    * as passing the absolute direction itself, a reversal included.
    */
  lemma ConvertedMoveAgrees(body: seq<Vec>, dead: bool, a: Vec)
    requires |body| >= 2 && IsCompass(HeadingOf(body)) && IsCompass(a)
    ensures Resolve(body, dead, IntArg(ToRelative(a, HeadingOf(body)))) == Resolve(body, dead, ArrayArg(a))
  {
    if a == Neg(HeadingOf(body)) {
      ReversalConverted(body, dead);
    } else {
      TurnConverted(body, dead, a);
    }
  }

  // ---------------------------------------------------------------------
  // One live move: the body, the apple and the dead flag
  // ---------------------------------------------------------------------

  /**
    * Body, apple and dead flag after a live move one step along d.
    * ate: the head reached the apple; won: no free cell was left for a new one.
    */
  datatype Motion = Motion(body: seq<Vec>, apple: Vec, dead: bool, ate: bool, won: bool)

  /** The body with the new head in front, before the tail is dropped. */
  function Grown(body: seq<Vec>, d: Vec): seq<Vec>
    requires |body| >= 1
  {
    [Add(body[0], d)] + body
  }

  /**
    * The apple chosen by the random choice is acceptable: when the head
    * reaches the apple and a free cell is left, the new apple is free.
    */
  predicate PickOk(w: int, h: int, body: seq<Vec>, apple: Vec, d: Vec, pick: Vec)
    requires |body| >= 1
  {
    Add(body[0], d) == apple && FreeCells(w, h, Grown(body, d)) != {} ==>
      pick in FreeCells(w, h, Grown(body, d))
  }

  /**
    * Prepend the new head; on the apple keep the tail and spawn a new apple
    * (pick) or signal the win, otherwise drop the last segment; then test
    * for a collision unless the win interrupted the move.
    */
  function MoveBody(w: int, h: int, body: seq<Vec>, apple: Vec, d: Vec, pick: Vec): (m: Motion)
    requires |body| >= 2
    ensures |m.body| >= 2 && m.body[0] == Add(body[0], d)
    ensures m.ate <==> Add(body[0], d) == apple
    ensures m.ate ==> m.body[1..] == body && |m.body| == |body| + 1
    ensures !m.ate ==> m.body[1..] == body[..|body| - 1] && |m.body| == |body| && m.apple == apple
    ensures m.won <==> m.ate && FreeCells(w, h, m.body) == {}
    ensures m.won ==> m.apple == Vec(w, h) && !m.dead
    ensures m.ate && !m.won ==> m.apple == pick
    ensures !m.won ==> (m.dead <==> !OnBoard(m.body[0], w, h) || m.body[0] in m.body[1..])
  {
    var grown := Grown(body, d);
    if grown[0] == apple then
      if FreeCells(w, h, grown) == {} then Motion(grown, Vec(w, h), false, true, true)
      else Motion(grown, pick, Collides(w, h, grown), true, false)
    else
      var trimmed := grown[..|grown| - 1];
      Motion(trimmed, apple, Collides(w, h, trimmed), false, false)
  }

  /** The new apple the random choice gave is an acceptable one for this move. */
  predicate PickFits(w: int, h: int, body: seq<Vec>, apple: Vec, dead: bool, a: Arg, pick: Vec)
    requires |body| >= 2
  {
    match Resolve(body, dead, a)
    case Heading(d) => PickOk(w, h, body, apple, d, pick)
    case _ => true
  }

  // ---------------------------------------------------------------------
  // The invariant of the body and the apple
  // ---------------------------------------------------------------------

  /** Consecutive segments are one compass step apart. */
  predicate Linked(body: seq<Vec>) {
    forall i :: 0 <= i < |body| - 1 ==> IsCompass(Sub(body[i], body[i + 1]))
  }

  predicate Distinct(body: seq<Vec>) {
    forall i, j :: 0 <= i < j < |body| ==> body[i] != body[j]
  }

  /**
    * What holds of every engine state: a board of at least 2 x 2, a linked
    * body of at least two segments, an apple off the snake and either on
    * the board or at (w, h) after a win, no segment at (w, h), and, while the
    * snake lives, no two segments on one cell and the head on the board.
    */
  predicate Playable(w: int, h: int, body: seq<Vec>, apple: Vec, dead: bool) {
    && w >= 2 && h >= 2
    && |body| >= 2
    && Linked(body)
    && apple !in body
    && Vec(w, h) !in body
    && (OnBoard(apple, w, h) || apple == Vec(w, h))
    && (!dead ==> Distinct(body) && OnBoard(body[0], w, h))
  }

  lemma DistinctCons(x: Vec, s: seq<Vec>)
    requires Distinct(s) && x !in s
    ensures Distinct([x] + s)
  {
    var t := [x] + s;
    forall i, j | 0 <= i < j < |t| ensures t[i] != t[j] {
      if i == 0 {
        assert t[j] == s[j - 1];
      } else {
        assert t[i] == s[i - 1] && t[j] == s[j - 1];
      }
    }
  }

  lemma LinkedCons(x: Vec, s: seq<Vec>)
    requires Linked(s) && |s| >= 1 && IsCompass(Sub(x, s[0]))
    ensures Linked([x] + s)
  {
    var t := [x] + s;
    forall i | 0 <= i < |t| - 1 ensures IsCompass(Sub(t[i], t[i + 1])) {
      if i > 0 {
        assert t[i] == s[i - 1] && t[i + 1] == s[i];
      }
    }
  }

  /** A step from a board cell never lands on (w, h). */
  lemma StepAvoidsCorner(p: Vec, d: Vec, w: int, h: int)
    requires OnBoard(p, w, h) && IsCompass(d)
    ensures Add(p, d) != Vec(w, h)
  {
  }

  /** A live move keeps the invariant, whichever free cell the new apple takes. */
  lemma {:induction false} MoveBodyPlayable(w: int, h: int, body: seq<Vec>, apple: Vec, d: Vec, pick: Vec)
    requires Playable(w, h, body, apple, false)
    requires IsCompass(d)
    requires PickOk(w, h, body, apple, d, pick)
    ensures var m := MoveBody(w, h, body, apple, d, pick);
      Playable(w, h, m.body, m.apple, m.dead)
  {
    var m := MoveBody(w, h, body, apple, d, pick);
    var head := Add(body[0], d);
    StepAvoidsCorner(body[0], d, w, h);
    assert Sub(head, body[0]) == d;
    var rest := m.body[1..];
    assert m.body == [head] + rest;
    assert Linked(rest) by {
      forall i | 0 <= i < |rest| - 1 ensures IsCompass(Sub(rest[i], rest[i + 1])) {
        assert rest[i] == body[i] && rest[i + 1] == body[i + 1];
      }
    }
    LinkedCons(head, rest);
    assert forall p :: p in rest ==> p in body;
    if m.ate {
      assert head !in rest;
      if !m.won {
        assert m.apple in FreeCells(w, h, m.body);
      }
    } else {
      assert head != apple;
    }
    assert m.apple !in m.body;
    if !m.dead {
      assert head !in rest;
      assert Distinct(rest) by {
        forall i, j | 0 <= i < j < |rest| ensures rest[i] != rest[j] {
          assert rest[i] == body[i] && rest[j] == body[j];
        }
      }
      DistinctCons(head, rest);
      if m.won {
        assert OnBoard(head, w, h);
      }
    }
  }

  /** A win leaves every board cell covered by the snake. */
  lemma WinFillsBoard(w: int, h: int, body: seq<Vec>, apple: Vec, d: Vec, pick: Vec, p: Vec)
    requires |body| >= 2
    requires MoveBody(w, h, body, apple, d, pick).won
    requires OnBoard(p, w, h)
    ensures p in MoveBody(w, h, body, apple, d, pick).body
  {
    var m := MoveBody(w, h, body, apple, d, pick);
    assert p !in FreeCells(w, h, m.body);
  }

  /** Entering the board cell the tail leaves in the same move is not a collision. */
  lemma FollowingTheTailIsSafe(w: int, h: int, body: seq<Vec>, apple: Vec, d: Vec, pick: Vec)
    requires Playable(w, h, body, apple, false)
    requires |body| >= 3 && Add(body[0], d) == body[|body| - 1]
    requires OnBoard(body[|body| - 1], w, h)
    ensures !MoveBody(w, h, body, apple, d, pick).dead
  {
    var m := MoveBody(w, h, body, apple, d, pick);
    var tail := body[|body| - 1];
    assert tail != apple;
    assert m.body[1..] == body[..|body| - 1];
    forall k | 0 <= k < |body| - 1 ensures body[k] != tail {
    }
    assert tail !in body[..|body| - 1];
  }

  // ---------------------------------------------------------------------
  // The starting state and what a move does with control
  // ---------------------------------------------------------------------

  /** What an apple is worth: 5 * round(points / 5), a non-negative multiple of five. */
  type Points = p: nat | p % 5 == 0

  /** What move does with control: return the dead flag or raise. */
  datatype Outcome = Returned(dead: bool) | RaisedValueError | RaisedStopIteration

  /** The starting body: segment i at ((w - 1) / 2, -i), so only the head is on the board. */
  function InitialBody(w: int, len: nat): (body: seq<Vec>)
    ensures |body| == len
    ensures forall i :: 0 <= i < len ==> body[i] == Vec((w - 1) / 2, -i)
  {
    seq(len, i requires 0 <= i < len => Vec((w - 1) / 2, -i))
  }

  /** The starting body is a straight line heading SOUTH with only its head on the board. */
  lemma InitialBodyPlayable(w: int, h: int, len: int, apple: Vec)
    requires w > 1 && h > 1 && len >= 2
    requires apple in FreeCells(w, h, InitialBody(w, len))
    ensures Playable(w, h, InitialBody(w, len), apple, false)
    ensures HeadingOf(InitialBody(w, len)) == SOUTH
    ensures forall i :: 1 <= i < len ==> !OnBoard(InitialBody(w, len)[i], w, h)
  {
    var body := InitialBody(w, len);
    forall i | 0 <= i < |body| - 1 ensures IsCompass(Sub(body[i], body[i + 1])) {
      assert Sub(body[i], body[i + 1]) == SOUTH;
    }
    forall i, j | 0 <= i < j < |body| ensures body[i] != body[j] {
      assert body[i].y != body[j].y;
    }
  }

  /** A board of at least 2 x 2 always leaves a free cell below the starting head. */
  lemma InitialFreeCell(w: int, h: int, len: int)
    requires w > 1 && h > 1 && len >= 2
    ensures Vec((w - 1) / 2, 1) in FreeCells(w, h, InitialBody(w, len))
  {
    var body := InitialBody(w, len);
    forall i | 0 <= i < |body| ensures body[i] != Vec((w - 1) / 2, 1) {
    }
  }
}
